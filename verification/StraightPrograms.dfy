/**
  Straight-line programs: modules of displays, concatenations, copies and imports that bind every
  name once and import only modules of lower rank. On them the resolver answers, Python does not
  raise, and both give the same list, with no further condition.
 */
module StraightPrograms {
  import opened Prelude
  import opened ModuleSyntax
  import opened ModuleEvaluation
  import opened NameLending
  import opened PythonMeaning
  import opened ReadModules
  import opened SupportedPrograms

  const NONE_REACHED := Reach({}, {})

  /** The dotted name is no tracked module, or one of lower rank. */
  predicate Calm(tracked: set<string>, lower: set<string>, dotted: string)
  {
    ModuleRel(tracked, dotted).None? || ModuleRel(tracked, dotted).value in lower
  }

  /** A new list, or `__all__` extended, an import, or a statement that does nothing. */
  predicate StraightStatement(tracked: set<string>, lower: set<string>, rel: string, stmt: Stmt)
  {
    match stmt
    case Assign(targets, value, _) => OneName(targets) && ListShaped(value) && !Bare(value)
    case AugAssign(target, op, value, _) => target == Name("__all__") && op.Add? && ListShaped(value)
    case ExprStmt(value, _) =>
      || value.Str?
      || (MutatesAll(value) && value.keywords == [] && |value.args| == 1
          && if value.func.attr == "append" then value.args[0].Str? else value.func.attr == "extend" && ListShaped(value.args[0]))
    case Import(names) => forall a :: a in names ==>
      a.asname.Some? && Calm(tracked, lower, a.name) && Calm(tracked, lower, HeadOf(a.name))
    case ImportFrom(level, from, names) =>
      var base := AbsoluteModule(rel, level, from);
      || base == []
      || (Calm(tracked, lower, base) && forall a :: a in names ==> a.name == "__all__" || Calm(tracked, lower, base + "." + a.name))
    case OtherStmt(inner) => inner == []
    case AnnAssign(_, _, _, _) => false
  }

  /** The names a statement binds, `__all__` apart. */
  function BoundBy(stmt: Stmt): seq<string>
  {
    match stmt
    case Assign(targets, _, _) => if OneName(targets) && targets[0].id != "__all__" then [targets[0].id] else []
    case Import(names) => PlainBoundNames(names)
    case ImportFrom(_, _, names) => BoundNames(names)
    case _ => []
  }

  ghost predicate Straight(tracked: set<string>, lower: set<string>, rel: string, stmts: seq<Stmt>)
  {
    && Supported(tracked, lower, rel, stmts)
    && (forall s :: s in stmts ==> StraightStatement(tracked, lower, rel, s) && PlainImport(BoundBy(s)))
    && (forall s, n :: s in stmts && n in BoundBy(s) ==> n !in SEQUENCE_CALLS + {"*"})
    && forall i, j :: 0 <= i < j < |stmts| ==> ToNames(BoundBy(stmts[i])) !! ToNames(BoundBy(stmts[j]))
  }

  ghost predicate StraightProgram(mods: Modules, rank: map<string, nat>)
  {
    forall m :: m in rank ==> m in mods && mods[m].Some? && Straight(mods.Keys, Lower(rank, m), m, mods[m].value)
  }

  // ---------- nothing is lent ----------

  lemma {:induction false} ListsAreCopied(held: Held, e: Expr)
    requires ListShaped(e)
    ensures Copied(held, e) == {} && (!Bare(e) ==> Lent(held, e) == {})
    decreases e
  {
    match e
    case Listing(elts) => ItemsAreCopied(held, elts);
    case BinOp(left, _, right) => ListsAreCopied(held, left); ListsAreCopied(held, right);
    case Call(_, args, _) => ListsAreCopied(held, args[0]);
    case _ =>
  }

  lemma {:induction false} ItemsAreCopied(held: Held, elts: seq<Expr>)
    requires ItemsShaped(elts)
    ensures LentByAll(held, elts) == {}
    decreases elts
  {
    if elts != [] {
      ItemIsCopied(held, elts[0]);
      ItemsAreCopied(held, elts[1..]);
    }
  }

  lemma {:induction false} ItemIsCopied(held: Held, e: Expr)
    requires ItemShaped(e)
    ensures Lent(held, e) == {}
    decreases e
  {
    if e.Starred? { ListsAreCopied(held, e.value); }
  }

  lemma OneLent(held: Held, e: Expr)
    ensures LentByAll(held, [e]) == Lent(held, e) && NamesInAll([e]) == NamesIn(e)
  {
    assert [e][1..] == [] && LentByAll(held, []) == {} && NamesInAll([]) == {};
  }

  lemma StraightLendsNothing(held: Held, tracked: set<string>, lower: set<string>, rel: string, s: Stmt)
    requires StraightStatement(tracked, lower, rel, s)
    ensures !held.HeldBuiltin? ==> Lends(held, s) == {}
    ensures held.HeldBuiltin? ==> Lends(held, s) <= ToNames(BoundBy(s)) + {"__all__"}
    ensures Stores(s) == {} && Changed(s) <= {"__all__"}
  {
    match s
    case Assign(targets, value, _) =>
      assert targets == [targets[0]];
      OneLent(held, targets[0]);
      OneLent(HeldForeign, targets[0]);
      ListsAreCopied(held, value);
    case AugAssign(target, _, value, _) =>
      OneLent(held, target);
      ListsAreCopied(held, value);
    case ExprStmt(value, _) =>
      if MutatesAll(value) {
        assert value.args == [value.args[0]];
        OneLent(held, value.args[0]);
        if value.func.attr == "extend" { ListsAreCopied(held, value.args[0]); }
      }
    case _ =>
  }

  /** No statement lends, stores or changes anything but `__all__` itself. */
  ghost predicate LendsNothing(stmts: seq<Stmt>)
  {
    && (forall s :: s in stmts ==> Lends(HeldList, s) == {} && Lends(HeldModule, s) == {} && Lends(HeldForeign, s) == {})
    && (forall s :: s in stmts ==> Lends(HeldBuiltin, s) <= ToNames(BoundBy(s)) + {"__all__"})
    && forall s :: s in stmts ==> Stores(s) == {} && Changed(s) <= {"__all__"}
  }

  lemma StraightLends(tracked: set<string>, lower: set<string>, rel: string, stmts: seq<Stmt>)
    requires Straight(tracked, lower, rel, stmts)
    ensures LendsNothing(stmts)
  {
    forall s | s in stmts
      ensures Lends(HeldList, s) == {} && Lends(HeldModule, s) == {} && Lends(HeldForeign, s) == {}
      ensures Lends(HeldBuiltin, s) <= ToNames(BoundBy(s)) + {"__all__"}
      ensures Stores(s) == {} && Changed(s) <= {"__all__"}
    {
      StraightLendsNothing(HeldList, tracked, lower, rel, s);
      StraightLendsNothing(HeldModule, tracked, lower, rel, s);
      StraightLendsNothing(HeldForeign, tracked, lower, rel, s);
      StraightLendsNothing(HeldBuiltin, tracked, lower, rel, s);
    }
  }

  lemma NothingEscapes(stmts: seq<Stmt>)
    requires LendsNothing(stmts)
    ensures LentBy(HeldList, stmts) == {} && LentBy(HeldModule, stmts) == {} && LentBy(HeldForeign, stmts) == {}
  {
    LentIsUnion(HeldList, stmts);
    LentIsUnion(HeldModule, stmts);
    LentIsUnion(HeldForeign, stmts);
  }

  lemma BuiltinsStand(stmts: seq<Stmt>)
    requires LendsNothing(stmts)
    requires forall s, n :: s in stmts && n in BoundBy(s) ==> n !in SEQUENCE_CALLS + {"*"}
    ensures !RebindsBuiltins(NONE_REACHED, stmts)
  {
    LentIsUnion(HeldBuiltin, stmts);
    assert "__all__" !in SEQUENCE_CALLS + {"*"};
    forall n | n in LentBy(HeldBuiltin, stmts) ensures n !in SEQUENCE_CALLS + {"*"} {
      var s :| s in stmts && n in Lends(HeldBuiltin, s);
      assert n in BoundBy(s) || n == "__all__";
    }
    assert LentBy(HeldBuiltin, stmts) + {} == LentBy(HeldBuiltin, stmts);
  }

  lemma NothingIsCovered(stmts: seq<Stmt>)
    requires LendsNothing(stmts) && forall s :: s in stmts ==> PlainImport(BoundBy(s))
    ensures Covers(NONE_REACHED, stmts)
  {
    NothingEscapes(stmts);
    forall s, a: Alias | s in stmts && s.ImportFrom? && a in s.names ensures !GivesAway(stmts, a.Bound()) {
      BoundAmong(s, a);
    }
  }

  lemma RecordedStays(tracked: set<string>, lower: set<string>, rel: string, s: Stmt, later: Stmt)
    requires StraightStatement(tracked, lower, rel, s) && StraightStatement(tracked, lower, rel, later)
    requires PlainImport(BoundBy(s)) && ToNames(BoundBy(s)) !! ToNames(BoundBy(later)) && Changed(later) <= {"__all__"}
    ensures Recorded(tracked, rel, s) !! Rebinds(later)
  {
    RecordedIsBound(tracked, rel, s);
    assert Rebinds(later) <= ToNames(BoundBy(later)) + {"__all__"};
  }

  /** So nothing stands in the way of tracing a straight-line module. */
  lemma StraightIsTraceable(tracked: set<string>, lower: set<string>, rel: string, stmts: seq<Stmt>)
    requires Straight(tracked, lower, rel, stmts)
    ensures Traceable(tracked, NONE_REACHED, rel, stmts)
  {
    StraightLends(tracked, lower, rel, stmts);
    NothingEscapes(stmts);
    BuiltinsStand(stmts);
    NothingIsCovered(stmts);
    forall s | s in stmts ensures TraceableStatement(tracked, EscapesOf(NONE_REACHED, stmts), rel, s) {
      StatementIsTraceable(tracked, lower, EscapesOf(NONE_REACHED, stmts), rel, s);
    }
    forall i, j | 0 <= i < j < |stmts| ensures Recorded(tracked, rel, stmts[i]) !! Rebinds(stmts[j]) {
      assert stmts[i] in stmts && stmts[j] in stmts;
      RecordedStays(tracked, lower, rel, stmts[i], stmts[j]);
    }
  }

  lemma StatementIsTraceable(tracked: set<string>, lower: set<string>, escapes: Escapes, rel: string, s: Stmt)
    requires StraightStatement(tracked, lower, rel, s) && PlainImport(BoundBy(s)) && Lends(HeldList, s) == {}
    requires escapes.lists == {} && escapes.modules == {}
    ensures TraceableStatement(tracked, escapes, rel, s)
  {}

  lemma BoundAmong(s: Stmt, a: Alias)
    requires s.ImportFrom? && a in s.names
    ensures a.Bound() in BoundBy(s)
  {
    var k :| 0 <= k < |s.names| && s.names[k] == a;
    assert BoundBy(s)[k] == a.Bound();
  }

  lemma RecordedIsBound(tracked: set<string>, rel: string, s: Stmt)
    ensures s.Import? || s.ImportFrom? || (s.Assign? && OneName(s.targets)) ==> Recorded(tracked, rel, s) <= ToNames(BoundBy(s))
  {
    if s.Import? || s.ImportFrom? {
      RecordedAreBound(tracked, rel, s);
    } else if s.Assign? && OneName(s.targets) {
      OneTarget(s.targets[0]);
      assert s.targets == [s.targets[0]];
    }
  }

  // ---------- Python does not raise ----------

  /** Importing what the module imports does not raise. */
  ghost predicate CalmImports(known: Known, lower: set<string>)
  {
    forall m :: m in lower ==> m in known.finals && known.finals[m].Ends?
  }

  lemma {:induction false} ImportsRun(known: Known, lower: set<string>, names: seq<Alias>, env: Env)
    requires CalmImports(known, lower)
    requires forall a :: a in names ==> Calm(known.tracked, lower, a.name) && Calm(known.tracked, lower, HeadOf(a.name))
    ensures ImportModules(known, names, env).Some?
    ensures "__all__" in env ==> "__all__" in ImportModules(known, names, env).value
    decreases |names|
  {
    if names != [] {
      assert names[0] in names;
      ImportsRun(known, lower, names[1..], ImportModule(known, names[0], env));
    }
  }

  lemma {:induction false} FromImportsRun(known: Known, lower: set<string>, base: string, names: seq<Alias>, env: Env)
    requires CalmImports(known, lower)
    requires base != [] ==>
      Calm(known.tracked, lower, base) && forall a :: a in names ==> a.name == "__all__" || Calm(known.tracked, lower, base + "." + a.name)
    ensures ImportNames(known, base, names, env).Some?
    ensures "__all__" in env ==> "__all__" in ImportNames(known, base, names, env).value
    decreases |names|
  {
    if names != [] {
      assert names[0] in names && Imported(known, base, names[0]).Ends?;
      FromImportsRun(known, lower, base, names[1..], Bind(known, env, names[0].Bound(), Imported(known, base, names[0]).value));
    }
  }

  lemma {:induction false} ImportsBindNoAll(tracked: set<string>, lower: set<string>, base: string, names: seq<Alias>, scope: Scope)
    ensures AfterAliases(tracked, lower, base, names, scope).listed == scope.listed
    ensures AfterPlainImports(tracked, lower, names, scope).listed == scope.listed
    decreases |names|
  {
    if names != [] {
      ImportsBindNoAll(tracked, lower, base, names[1..], AfterAlias(tracked, lower, base, names[0], scope));
      ImportsBindNoAll(tracked, lower, base, names[1..], AfterPlainImport(tracked, lower, names[0], scope));
    }
  }

  lemma {:induction false} NamesBindNoAll(names: seq<string>, value: Option<Expr>, scope: Scope)
    ensures AfterNames(names, value, scope).listed == scope.listed
    decreases |names|
  {
    if names != [] { NamesBindNoAll(names[1..], value, AfterName(names[0], value, scope)); }
  }

  lemma StatementRuns(known: Known, lower: set<string>, rel: string, s: Stmt, scope: Scope, env: Env)
    requires CalmImports(known, lower) && StraightStatement(known.tracked, lower, rel, s)
    requires After(known.tracked, lower, rel, s, scope).Some? && (scope.listed ==> "__all__" in env)
    ensures Execute(known, rel, s, env).Some?
    ensures After(known.tracked, lower, rel, s, scope).value.listed ==> "__all__" in Execute(known, rel, s, env).value
  {
    match s
    case Import(names) =>
      ImportsRun(known, lower, names, env);
      ImportsBindNoAll(known.tracked, lower, [], names, scope);
    case ImportFrom(level, from, names) =>
      FromImportsRun(known, lower, AbsoluteModule(rel, level, from), names, env);
      ImportsBindNoAll(known.tracked, lower, AbsoluteModule(rel, level, from), names, scope);
    case Assign(targets, value, _) =>
      assert targets == [targets[0]];
      OneTarget(targets[0]);
      NamesBindNoAll(PlainNames(targets), Some(value), scope);
    case _ =>
  }

  lemma {:induction false} BodyRuns(known: Known, lower: set<string>, rel: string, stmts: seq<Stmt>, scope: Scope, env: Env)
    requires CalmImports(known, lower) && forall s :: s in stmts ==> StraightStatement(known.tracked, lower, rel, s)
    requires AfterAll(known.tracked, lower, rel, stmts, scope).Some? && (scope.listed ==> "__all__" in env)
    ensures ExecuteAll(known, rel, stmts, env).Some?
    decreases |stmts|
  {
    if stmts != [] {
      assert stmts[0] in stmts;
      StatementRuns(known, lower, rel, stmts[0], scope, env);
      BodyRuns(known, lower, rel, stmts[1..], After(known.tracked, lower, rel, stmts[0], scope).value,
               Execute(known, rel, stmts[0], env).value);
    }
  }

  lemma {:induction false} StraightProgramsEnd(mods: Modules, rank: map<string, nat>, rel: string, chain: set<string>)
    requires StraightProgram(mods, rank) && rel in rank
    requires forall c :: c in chain && c in rank ==> rank[rel] < rank[c]
    ensures Meaning(mods, NONE_REACHED, rel, chain).Ends?
    decreases rank[rel]
  {
    var stmts := mods[rel].value;
    if rel !in chain && !RebindsBuiltins(NONE_REACHED, stmts) {
      assert rel in mods.Keys - chain && rel !in mods.Keys - (chain + {rel});
      var known := Known(mods.Keys, Meanings(mods, NONE_REACHED, rel, chain), EscapesOf(NONE_REACHED, stmts));
      forall m | m in Lower(rank, rel) ensures m in known.finals && known.finals[m].Ends? {
        StraightProgramsEnd(mods, rank, m, chain + {rel});
      }
      BodyRuns(known, Lower(rank, rel), rel, stmts, NOTHING, map[]);
    }
  }

  // ---------- the comparison without conditions ----------

  lemma RankedModulesSuffice(mods: Modules, rank: map<string, nat>)
    requires StraightProgram(mods, rank)
    ensures AcyclicProgram(OnlyRead(mods, rank.Keys), rank)
  {
    assert OnlyRead(mods, rank.Keys).Keys == mods.Keys;
  }

  /**
    On a straight-line program the resolver answers for every module, Python does not raise, and
    Python's `__all__` is known to be a list of the same names, in the same order where nothing was sorted.
   */
  lemma StraightProgramsArePythons(mods: Modules, rank: map<string, nat>, rel: string)
    requires StraightProgram(mods, rank) && rel in rank
    ensures Outcome(mods, rel, {}).Some? && EndsInNames(Meaning(mods, NONE_REACHED, rel, {}))
    ensures var names, python := NamesOf(Outcome(mods, rel, {}).value.names), Meaning(mods, NONE_REACHED, rel, {}).value;
      multiset(names) == multiset(python.xs) && (python.inOrder ==> names == python.xs)
  {
    RankedModulesSuffice(mods, rank);
    AcyclicProgramsResolve(OnlyRead(mods, rank.Keys), rank, rel, {});
    StraightProgramsEnd(mods, rank, rel, {});
    forall m | m in rank.Keys && m in mods && mods[m].Some? ensures Traceable(mods.Keys, NONE_REACHED, m, mods[m].value) {
      StraightIsTraceable(mods.Keys, Lower(rank, m), m, mods[m].value);
    }
    ResolvedNamesArePythons(mods, rank.Keys, NONE_REACHED, rel, {});
  }
}
