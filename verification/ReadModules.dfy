/**
  Only the modules that were read matter: blanking all others changes neither what a resolution
  answers nor, as far as it is known without them, what Python's `__all__` is. So the comparison
  with Python needs its conditions on the modules read only.
 */
module ReadModules {
  import opened Prelude
  import opened ModuleSyntax
  import opened ModuleEvaluation
  import opened AllResolution
  import opened NameLending
  import opened PythonMeaning

  /** The same paths, with every module outside `read` unreadable. */
  function OnlyRead(mods: Modules, read: set<string>): Modules
  {
    map m | m in mods :: if m in read then mods[m] else None
  }

  // ---------- the resolver ----------

  /** What resolves without the other modules resolves alike with them. */
  lemma {:induction false} ReadOutcomeStands(mods: Modules, read: set<string>, rel: string, chain: set<string>)
    requires Outcome(OnlyRead(mods, read), rel, chain).Some?
    ensures Outcome(mods, rel, chain) == Outcome(OnlyRead(mods, read), rel, chain)
    decreases mods.Keys - chain
  {
    var part := OnlyRead(mods, read);
    assert part.Keys == mods.Keys;
    assert rel in mods.Keys - chain && rel !in mods.Keys - (chain + {rel});
    var ctx1, ctx2 := Context(mods.Keys, Outcomes(part, rel, chain)), Context(mods.Keys, Outcomes(mods, rel, chain));
    forall m | m in ctx1.foreign ensures m in ctx2.foreign && ctx2.foreign[m] == ctx1.foreign[m] {
      ReadOutcomeStands(mods, read, m, chain + {rel});
    }
    BodyBelow(ctx1, ctx2, rel, mods[rel].value, START, START);
  }

  /** A resolution that needs no other module than these. */
  ghost predicate ResolvesFrom(mods: Modules, read: set<string>, rel: string)
  {
    Outcome(OnlyRead(mods, read), rel, {}).Some?
  }

  /** A resolver's cache holds every module its answers depend on. */
  lemma CachedModulesSuffice(mods: Modules, cache: map<string, Resolution>, read: set<string>, rel: string)
    requires Settled(mods, cache) && SameOn(mods, mods, cache.Keys) && rel in cache && cache.Keys <= read
    ensures ResolvesFrom(mods, read, rel)
  {
    var part, none: set<string> := OnlyRead(mods, read), {};
    assert part.Keys == mods.Keys && SameOn(mods, part, cache.Keys) && none !! cache.Keys;
  }

  /** Another tree in which a resolution that starts at `root` follows the same modules. */
  ghost predicate Carries(mods: Modules, other: Modules, read: set<string>, root: string)
  {
    && (forall dotted :: !LookupMoved(mods.Keys, other.Keys, root, dotted))
    && forall m :: m in read && m in mods && mods[m].Some? ==> m in other && other[m] == mods[m]
  }

  /**
    What a resolution answers from the modules read, it answers in every tree that carries them.
    Lookups that lead back to the root may move, since the root has no answer while it is resolved,
    and lookups that failed may succeed where they cannot hide another module.
   */
  lemma {:induction false} ReadOutcomeCarries(mods: Modules, other: Modules, read: set<string>, root: string, rel: string,
      chain: set<string>)
    requires Carries(mods, other, read, root) && root in chain + {rel}
    requires Outcome(OnlyRead(mods, read), rel, chain).Some?
    ensures Outcome(other, rel, chain) == Outcome(OnlyRead(mods, read), rel, chain)
    decreases mods.Keys - chain
  {
    var part := OnlyRead(mods, read);
    assert part.Keys == mods.Keys;
    assert rel in mods.Keys - chain && rel !in mods.Keys - (chain + {rel});
    var ctx1, ctx2 := Context(mods.Keys, Outcomes(part, rel, chain)), Context(other.Keys, Outcomes(other, rel, chain));
    forall m | m in ctx1.foreign ensures m in other && m != root && m in ctx2.foreign && ctx2.foreign[m] == ctx1.foreign[m] {
      ReadOutcomeCarries(mods, other, read, root, m, chain + {rel});
    }
    forall dotted | Useful(ctx1, dotted)
      ensures StandsInBoth(mods.Keys, other.Keys, root, dotted) && ModuleRel(other.Keys, dotted) == ModuleRel(mods.Keys, dotted)
    {
      assert !LookupMoved(mods.Keys, other.Keys, root, dotted);
    }
    forall dotted | IsMember(dotted) && ModuleRel(other.Keys, dotted).Some? && !Idle(ctx1)
      ensures ModuleRel(mods.Keys, dotted).Some?
    {
      var found :| Useful(ctx1, found);
      assert StandsInBoth(mods.Keys, other.Keys, root, found) && !LookupMoved(mods.Keys, other.Keys, root, dotted);
    }
    BodyBelow(ctx1, ctx2, rel, mods[rel].value, START, START);
  }

  // ---------- Python ----------

  ghost predicate ValueBelow(v: PyValue, w: PyValue) { v == w || v.Unknown? }

  /** The same or less is known, and a module known is one that does not raise. */
  ghost predicate SafelyBelow(known2: Known, v: PyValue, w: PyValue)
  {
    ValueBelow(v, w) && (v.ModuleRef? ==> ForeignFinal(known2, v.dotted).Ends?)
  }

  ghost predicate FinalBelow(f: Final, g: Final)
  {
    g.Raises? || (f.Ends? && ValueBelow(f.value, g.value))
  }

  /** Less is known of the other modules' ends. */
  ghost predicate KnownBelow(known1: Known, known2: Known)
  {
    && known1.tracked == known2.tracked && known1.escapes == known2.escapes && known1.finals.Keys == known2.finals.Keys
    && forall m :: m in known1.finals ==> FinalBelow(known1.finals[m], known2.finals[m])
  }

  ghost predicate EnvBelow(known2: Known, env1: Env, env2: Env)
  {
    env1.Keys == env2.Keys && forall n :: n in env1 ==> SafelyBelow(known2, env1[n], env2[n])
  }

  lemma {:induction false} EvaluateBelow(known1: Known, known2: Known, env1: Env, env2: Env, e: Expr)
    requires KnownBelow(known1, known2) && EnvBelow(known2, env1, env2)
    ensures SafelyBelow(known2, Evaluate(known1, env1, e), Evaluate(known2, env2, e))
    decreases e
  {
    match e
    case Listing(elts) => EvaluateItemsBelow(known1, known2, env1, env2, elts);
    case BinOp(left, _, right) =>
      EvaluateBelow(known1, known2, env1, env2, left);
      EvaluateBelow(known1, known2, env1, env2, right);
    case Call(_, args, _) => if IsSequenceCall(e) { EvaluateBelow(known1, known2, env1, env2, args[0]); }
    case _ =>
  }

  lemma {:induction false} EvaluateItemBelow(known1: Known, known2: Known, env1: Env, env2: Env, e: Expr)
    requires KnownBelow(known1, known2) && EnvBelow(known2, env1, env2)
    ensures SafelyBelow(known2, EvaluateItem(known1, env1, e), EvaluateItem(known2, env2, e))
    decreases e
  {
    if e.Starred? {
      EvaluateBelow(known1, known2, env1, env2, e.value);
    }
  }

  lemma {:induction false} EvaluateItemsBelow(known1: Known, known2: Known, env1: Env, env2: Env, elts: seq<Expr>)
    requires KnownBelow(known1, known2) && EnvBelow(known2, env1, env2)
    ensures SafelyBelow(known2, EvaluateItems(known1, env1, elts), EvaluateItems(known2, env2, elts))
    decreases elts
  {
    if elts != [] {
      EvaluateItemBelow(known1, known2, env1, env2, elts[0]);
      EvaluateItemsBelow(known1, known2, env1, env2, elts[1..]);
    }
  }

  lemma CallMethodBelow(known1: Known, known2: Known, env1: Env, env2: Env, e: Expr)
    requires KnownBelow(known1, known2) && EnvBelow(known2, env1, env2) && IsListMethod(e) && CallMethod(known2, env2, e).Some?
    ensures CallMethod(known1, env1, e).Some? && EnvBelow(known2, CallMethod(known1, env1, e).value, CallMethod(known2, env2, e).value)
  {
    if e.args != [] {
      EvaluateBelow(known1, known2, env1, env2, e.args[0]);
      EvaluateItemBelow(known1, known2, env1, env2, e.args[0]);
    }
  }

  lemma EffectBelow(known1: Known, known2: Known, env1: Env, env2: Env, e: Expr)
    requires KnownBelow(known1, known2) && EnvBelow(known2, env1, env2) && Effect(known2, env2, e).Some?
    ensures Effect(known1, env1, e).Some? && EnvBelow(known2, Effect(known1, env1, e).value, Effect(known2, env2, e).value)
  {
    if IsListMethod(e) { CallMethodBelow(known1, known2, env1, env2, e); }
  }

  lemma AssignmentBelow(known1: Known, known2: Known, env1: Env, env2: Env, targets: seq<Expr>, value: Expr)
    requires KnownBelow(known1, known2) && EnvBelow(known2, env1, env2)
    requires Assignment(known2, env2, targets, value).Some?
    ensures Assignment(known1, env1, targets, value).Some?
    ensures EnvBelow(known2, Assignment(known1, env1, targets, value).value, Assignment(known2, env2, targets, value).value)
  {
    EffectBelow(known1, known2, env1, env2, value);
    EvaluateBelow(known1, known2, env1, env2, value);
  }

  lemma {:induction false} ImportModulesBelow(known1: Known, known2: Known, env1: Env, env2: Env, names: seq<Alias>)
    requires KnownBelow(known1, known2) && EnvBelow(known2, env1, env2) && ImportModules(known2, names, env2).Some?
    ensures ImportModules(known1, names, env1).Some?
    ensures EnvBelow(known2, ImportModules(known1, names, env1).value, ImportModules(known2, names, env2).value)
    decreases |names|
  {
    if names != [] {
      var next1, next2 := ImportModule(known1, names[0], env1), ImportModule(known2, names[0], env2);
      assert EnvBelow(known2, next1, next2);
      ImportModulesBelow(known1, known2, next1, next2, names[1..]);
    }
  }

  lemma {:induction false} ImportNamesBelow(known1: Known, known2: Known, env1: Env, env2: Env, base: string,
      names: seq<Alias>)
    requires KnownBelow(known1, known2) && EnvBelow(known2, env1, env2) && ImportNames(known2, base, names, env2).Some?
    ensures ImportNames(known1, base, names, env1).Some?
    ensures EnvBelow(known2, ImportNames(known1, base, names, env1).value, ImportNames(known2, base, names, env2).value)
    decreases |names|
  {
    if names != [] {
      var n, v1, v2 := names[0].Bound(), Imported(known1, base, names[0]), Imported(known2, base, names[0]);
      assert FinalBelow(v1, v2) && v2.Ends?;
      var next1, next2 := Bind(known1, env1, n, v1.value), Bind(known2, env2, n, v2.value);
      assert EnvBelow(known2, next1, next2);
      ImportNamesBelow(known1, known2, next1, next2, base, names[1..]);
    }
  }

  /** Knowing more of other modules never takes knowledge back, unless one of them raises. */
  lemma ExecuteBelow(known1: Known, known2: Known, rel: string, stmt: Stmt, env1: Env, env2: Env)
    requires KnownBelow(known1, known2) && EnvBelow(known2, env1, env2) && Execute(known2, rel, stmt, env2).Some?
    ensures Execute(known1, rel, stmt, env1).Some?
    ensures EnvBelow(known2, Execute(known1, rel, stmt, env1).value, Execute(known2, rel, stmt, env2).value)
  {
    match stmt
    case Assign(targets, value, _) => AssignmentBelow(known1, known2, env1, env2, targets, value);
    case AnnAssign(target, _, Some(value), _) => AssignmentBelow(known1, known2, env1, env2, [target], value);
    case AnnAssign(_, _, None, _) =>
    case AugAssign(_, _, value, _) => EvaluateBelow(known1, known2, env1, env2, value);
    case ExprStmt(value, _) => EffectBelow(known1, known2, env1, env2, value);
    case Import(names) => ImportModulesBelow(known1, known2, env1, env2, names);
    case ImportFrom(level, from, names) => ImportNamesBelow(known1, known2, env1, env2, AbsoluteModule(rel, level, from), names);
    case OtherStmt(_) =>
  }

  lemma {:induction false} ExecuteAllBelow(known1: Known, known2: Known, rel: string, stmts: seq<Stmt>, env1: Env,
      env2: Env)
    requires KnownBelow(known1, known2) && EnvBelow(known2, env1, env2) && ExecuteAll(known2, rel, stmts, env2).Some?
    ensures ExecuteAll(known1, rel, stmts, env1).Some?
    ensures EnvBelow(known2, ExecuteAll(known1, rel, stmts, env1).value, ExecuteAll(known2, rel, stmts, env2).value)
    decreases |stmts|
  {
    if stmts != [] {
      ExecuteBelow(known1, known2, rel, stmts[0], env1, env2);
      ExecuteAllBelow(known1, known2, rel, stmts[1..], Execute(known1, rel, stmts[0], env1).value,
                      Execute(known2, rel, stmts[0], env2).value);
    }
  }

  /** What is known without the other modules is true with them, in runs that do not raise. */
  lemma {:induction false} ReadMeaningStands(mods: Modules, read: set<string>, reach: Reach, rel: string, chain: set<string>)
    ensures FinalBelow(Meaning(OnlyRead(mods, read), reach, rel, chain), Meaning(mods, reach, rel, chain))
    decreases mods.Keys - chain
  {
    var part := OnlyRead(mods, read);
    assert part.Keys == mods.Keys;
    if rel !in chain && rel in part && part[rel].Some? && Meaning(mods, reach, rel, chain).Ends? && !RebindsBuiltins(reach, mods[rel].value) {
      assert rel in mods.Keys - chain && rel !in mods.Keys - (chain + {rel});
      var escapes := EscapesOf(reach, mods[rel].value);
      var known1 := Known(mods.Keys, Meanings(part, reach, rel, chain), escapes);
      var known2 := Known(mods.Keys, Meanings(mods, reach, rel, chain), escapes);
      forall m | m in known1.finals ensures FinalBelow(known1.finals[m], known2.finals[m]) {
        ReadMeaningStands(mods, read, reach, m, chain + {rel});
      }
      ExecuteAllBelow(known1, known2, rel, mods[rel].value, map[], map[]);
    }
  }

  // ---------- the comparison ----------

  /** The modules read are traceable. */
  ghost predicate ReadTraceable(mods: Modules, read: set<string>, reach: Reach)
  {
    forall m :: m in read && m in mods && mods[m].Some? ==> Traceable(mods.Keys, reach, m, mods[m].value)
  }

  /**
    When a resolution answers from traceable modules and Python does not raise, Python's
    `__all__` is a sequence of strings and the answer lists the same names, each as often, and in the
    same order when nothing was sorted on the way.
    Nothing is asked of the modules that were not read.
   */
  lemma ResolvedNamesArePythons(mods: Modules, read: set<string>, reach: Reach, rel: string, chain: set<string>)
    requires ReadTraceable(mods, read, reach) && Outcome(OnlyRead(mods, read), rel, chain).Some?
    requires Meaning(mods, reach, rel, chain).Ends?
    ensures Outcome(mods, rel, chain).Some? && Meaning(mods, reach, rel, chain).value.Names?
    ensures multiset(NamesOf(Outcome(mods, rel, chain).value.names)) == multiset(Meaning(mods, reach, rel, chain).value.xs)
    ensures Meaning(mods, reach, rel, chain).value.inOrder ==>
      NamesOf(Outcome(mods, rel, chain).value.names) == Meaning(mods, reach, rel, chain).value.xs
  {
    assert OnlyRead(mods, read).Keys == mods.Keys;
    ReadOutcomeStands(mods, read, rel, chain);
    ReadMeaningStands(mods, read, reach, rel, chain);
    ResolvedDescribes(OnlyRead(mods, read), reach, rel, chain);
  }
}
