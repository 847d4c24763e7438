/**
  When the resolver answers: on traceable modules that bind `__all__` in one place and keep their
  imports, it answers exactly when what is known of Python's `__all__` is a sequence of strings.
 */
module PythonExactness {
  import opened Prelude
  import opened ModuleSyntax
  import opened ModuleEvaluation
  import opened NameLending
  import opened PythonMeaning
  import opened ReadModules

  /** An assignment to `__all__`. */
  predicate BindsAll(stmt: Stmt)
  {
    (stmt.Assign? || stmt.AnnAssign?) && exists t :: t in Targets(stmt) && MentionsAll(t)
  }

  /** The names an assignment or a bare annotation makes the resolver forget as imports. */
  function Reassigns(stmt: Stmt): set<string>
  {
    if stmt.Assign? || stmt.AnnAssign? then ToNames(PlainNames(Targets(stmt))) else {}
  }

  predicate BareAnnotation(stmt: Stmt) { stmt.AnnAssign? && stmt.annotated.None? }

  predicate PopsAll(e: Expr) { IsListMethod(e) && Receiver(e) == "__all__" && e.func.attr == "pop" }

  /** No bare annotation or `pop` of `__all__`, no import that binds only the head of a tracked package. */
  ghost predicate ExplicitStatement(tracked: set<string>, stmt: Stmt)
  {
    match stmt
    case AnnAssign(target, _, value, _) => value.None? ==> !MentionsAll(target)
    case ExprStmt(value, _) => !PopsAll(value)
    case Import(names) => forall a :: a in names ==> a.asname.Some? || ModuleRel(tracked, HeadOf(a.name)).None?
    case _ => true
  }

  function RecordedByImport(tracked: set<string>, rel: string, stmt: Stmt): set<string>
  {
    if stmt.Import? || stmt.ImportFrom? then Recorded(tracked, rel, stmt) else {}
  }

  /** Besides, `__all__` is assigned once, and no recorded import is assigned and no recorded list annotated bare. */
  ghost predicate Explicit(tracked: set<string>, rel: string, stmts: seq<Stmt>)
  {
    && (forall s :: s in stmts ==> ExplicitStatement(tracked, s))
    && (forall i, j :: 0 <= i < j < |stmts| ==> !(BindsAll(stmts[i]) && BindsAll(stmts[j])))
    && (forall i, j :: 0 <= i < j < |stmts| ==> RecordedByImport(tracked, rel, stmts[i]) !! Reassigns(stmts[j]))
    && forall i, j :: 0 <= i < j < |stmts| && BareAnnotation(stmts[j])
        ==> Recorded(tracked, rel, stmts[i]) !! Reassigns(stmts[j])
  }

  // ---------- what is known is also resolved ----------

  ghost predicate ForeignResolved(ctx: Context, known: Known)
  {
    ctx.tracked == known.tracked && forall m :: m in known.finals && EndsInNames(known.finals[m]) ==> m in ctx.foreign
  }

  ghost predicate NameResolved(ctx: Context, known: Known, b: Bindings, env: Env, n: string)
  {
    && (Lookup(env, n).Names? ==> Named(ctx, n, None, b).Some?)
    && (Lookup(env, n).ModuleRef? && EndsInNames(ForeignFinal(known, Lookup(env, n).dotted))
        ==> n in b.aliases && b.aliases[n] == Lookup(env, n).dotted)
  }

  ghost predicate AllResolved(ctx: Context, known: Known, current: Option<seq<Export>>, b: Bindings, env: Env)
  {
    && ForeignResolved(ctx, known)
    && (Lookup(env, "__all__").Names? ==> current.Some?) && !Lookup(env, "__all__").ModuleRef?
    && forall n :: n in env && n != "__all__" ==> NameResolved(ctx, known, b, env, n)
  }

  lemma ForeignIsResolved(ctx: Context, known: Known, dotted: string)
    requires ForeignResolved(ctx, known) && EndsInNames(ForeignFinal(known, dotted))
    ensures Foreign(ctx, dotted).Some?
  {}

  /** An expression whose strings are known resolves. */
  lemma {:induction false} KnownSequenceResolves(ctx: Context, known: Known, rel: string, e: Expr,
      current: Option<seq<Export>>, b: Bindings, env: Env)
    requires AllResolved(ctx, known, current, b, env) && Evaluate(known, env, e).Names?
    ensures Sequence(ctx, rel, e, current, b).Some?
    decreases e
  {
    match e
    case Listing(elts) => KnownItemsResolve(ctx, known, rel, elts, current, b, env);
    case BinOp(left, _, right) =>
      KnownSequenceResolves(ctx, known, rel, left, current, b, env);
      KnownSequenceResolves(ctx, known, rel, right, current, b, env);
    case Call(_, args, _) => KnownSequenceResolves(ctx, known, rel, args[0], current, b, env);
    case Name(id) => assert id != "__all__" ==> NameResolved(ctx, known, b, env, id);
    case Attribute(value, _) =>
      assert NameResolved(ctx, known, b, env, value.id);
      ForeignIsResolved(ctx, known, Lookup(env, value.id).dotted);
    case _ =>
  }

  lemma {:induction false} KnownItemResolves(ctx: Context, known: Known, rel: string, e: Expr,
      current: Option<seq<Export>>, b: Bindings, env: Env)
    requires AllResolved(ctx, known, current, b, env) && EvaluateItem(known, env, e).Names?
    ensures Element(ctx, rel, e, current, b).Some?
    decreases e
  {
    if e.Starred? {
      KnownSequenceResolves(ctx, known, rel, e.value, current, b, env);
    }
  }

  lemma {:induction false} KnownItemsResolve(ctx: Context, known: Known, rel: string, elts: seq<Expr>,
      current: Option<seq<Export>>, b: Bindings, env: Env)
    requires AllResolved(ctx, known, current, b, env) && EvaluateItems(known, env, elts).Names?
    ensures Elements(ctx, rel, elts, current, b).Some?
    decreases elts
  {
    if elts != [] {
      KnownItemResolves(ctx, known, rel, elts[0], current, b, env);
      KnownItemsResolve(ctx, known, rel, elts[1..], current, b, env);
    }
  }

  // ---------- statements ----------

  /** A name that keeps its value and its bindings stays resolved. */
  lemma UnchangedStaysResolved(ctx: Context, known: Known, b: Bindings, env: Env, b': Bindings, env': Env, n: string)
    requires NameResolved(ctx, known, b, env, n) && Lookup(env', n) == Lookup(env, n)
    requires n in b'.sequences <==> n in b.sequences
    requires n in b.sequences ==> b'.sequences[n] == b.sequences[n]
    requires n in b'.importedAll <==> n in b.importedAll
    requires n in b.importedAll ==> b'.importedAll[n] == b.importedAll[n]
    requires n in b.aliases ==> n in b'.aliases && b'.aliases[n] == b.aliases[n]
    ensures NameResolved(ctx, known, b', env', n)
  {}

  /** Changing known lists, or forgetting names. */
  ghost predicate OnlyChanges(env: Env, env': Env)
  {
    forall n :: n in env' ==> Lookup(env', n) == Lookup(env, n) || env'[n].Unknown? || (env'[n].Names? && Lookup(env, n).Names?)
  }

  lemma ChangingStaysResolved(ctx: Context, known: Known, current: Option<seq<Export>>, b: Bindings, env: Env,
      env': Env)
    requires AllResolved(ctx, known, current, b, env) && OnlyChanges(env, env')
    ensures AllResolved(ctx, known, current, b, env')
  {
    forall n | n in env' && n != "__all__" ensures NameResolved(ctx, known, b, env', n) {
      if n in env { assert NameResolved(ctx, known, b, env, n); }
    }
  }

  lemma ImportOneResolves(ctx: Context, known: Known, base: string, a: Alias, current: Option<seq<Export>>,
      b: Bindings, env: Env)
    requires AllResolved(ctx, known, current, b, env) && a.Bound() != "__all__" && Imported(known, base, a).Ends?
    ensures AllResolved(ctx, known, current, RecordAlias(ctx.tracked, base, a, b),
                        Bind(known, env, a.Bound(), Imported(known, base, a).value))
  {
    var n0, b' := a.Bound(), RecordAlias(ctx.tracked, base, a, b);
    var env' := Bind(known, env, n0, Imported(known, base, a).value);
    forall n | n in env' && n != "__all__" ensures NameResolved(ctx, known, b', env', n) {
      if n != n0 {
        UnchangedStaysResolved(ctx, known, b, env, b', env', n);
      } else if env'[n].Names? {
        assert a.name == "__all__" && EndsInNames(ForeignFinal(known, base));
        ForeignIsResolved(ctx, known, base);
        assert n !in b'.sequences && n in b'.importedAll && b'.importedAll[n] == base;
      } else if env'[n].ModuleRef? {
        assert n in b'.aliases && b'.aliases[n] == base + "." + a.name;
      }
    }
  }

  lemma {:induction false} ImportsResolve(ctx: Context, known: Known, base: string, names: seq<Alias>,
      current: Option<seq<Export>>, b: Bindings, env: Env)
    requires AllResolved(ctx, known, current, b, env) && "__all__" !in BoundNames(names)
    requires ImportNames(known, base, names, env).Some?
    ensures AllResolved(ctx, known, current, RecordAliases(ctx.tracked, base, names, b),
                        ImportNames(known, base, names, env).value)
    decreases |names|
  {
    if names != [] {
      assert BoundNames(names)[0] == names[0].Bound() && BoundNames(names)[1..] == BoundNames(names[1..]);
      ImportOneResolves(ctx, known, base, names[0], current, b, env);
      ImportsResolve(ctx, known, base, names[1..], current, RecordAlias(ctx.tracked, base, names[0], b),
                     Bind(known, env, names[0].Bound(), Imported(known, base, names[0]).value));
    }
  }

  lemma ImportModuleResolves(ctx: Context, known: Known, a: Alias, current: Option<seq<Export>>, b: Bindings,
      env: Env)
    requires AllResolved(ctx, known, current, b, env) && PlainBound(a) != "__all__"
    requires a.asname.Some? || ModuleRel(ctx.tracked, HeadOf(a.name)).None?
    ensures AllResolved(ctx, known, current, RecordPlainImport(a, b), ImportModule(known, a, env))
  {
    var b', env' := RecordPlainImport(a, b), ImportModule(known, a, env);
    forall n | n in env' && n != "__all__" ensures NameResolved(ctx, known, b', env', n) {
      if n != PlainBound(a) {
        UnchangedStaysResolved(ctx, known, b, env, b', env', n);
      }
    }
  }

  lemma {:induction false} ModuleImportsResolve(ctx: Context, known: Known, names: seq<Alias>,
      current: Option<seq<Export>>, b: Bindings, env: Env)
    requires AllResolved(ctx, known, current, b, env) && "__all__" !in PlainBoundNames(names)
    requires forall a :: a in names ==> a.asname.Some? || ModuleRel(ctx.tracked, HeadOf(a.name)).None?
    requires ImportModules(known, names, env).Some?
    ensures AllResolved(ctx, known, current, RecordPlainImports(names, b), ImportModules(known, names, env).value)
    decreases |names|
  {
    if names != [] {
      assert PlainBoundNames(names)[0] == PlainBound(names[0]) && PlainBoundNames(names)[1..] == PlainBoundNames(names[1..]);
      ImportModuleResolves(ctx, known, names[0], current, b, env);
      ModuleImportsResolve(ctx, known, names[1..], current, RecordPlainImport(names[0], b), ImportModule(known, names[0], env));
    }
  }

  predicate Unimported(tracked: set<string>, b: Bindings, n: string)
  {
    n !in b.importedAll && (n in b.aliases ==> ModuleRel(tracked, b.aliases[n]).None?)
  }

  /** Binding one other name to what the resolver makes of a value, when the name is no recorded import. */
  lemma BindNameResolves(ctx: Context, known: Known, rel: string, n0: string, value: Option<Expr>,
      current: Option<seq<Export>>, b: Bindings, env: Env, env': Env)
    requires AllResolved(ctx, known, current, b, env) && n0 != "__all__"
    requires Unimported(known.tracked, b, n0)
    requires forall n :: n != n0 ==> Lookup(env', n) == Lookup(env, n) && (n in env' ==> n in env)
    requires Lookup(env', n0).Unknown? || (value.Some? && Lookup(env', n0).Names? && Evaluate(known, env, value.value).Names?)
    ensures AllResolved(ctx, known, current, BindName(ctx, rel, n0, value, current, b), env')
  {
    var unbound, b' := Unbound(b, n0), BindName(ctx, rel, n0, value, current, b);
    forall n | n in env && n != "__all__" ensures NameResolved(ctx, known, unbound, env, n) {
      if n != n0 {
        UnchangedStaysResolved(ctx, known, b, env, unbound, env, n);
      } else {
        assert NameResolved(ctx, known, b, env, n);
      }
    }
    if Lookup(env', n0).Names? {
      KnownSequenceResolves(ctx, known, rel, value.value, current, unbound, env);
    }
    forall n | n in env' && n != "__all__" ensures NameResolved(ctx, known, b', env', n) {
      if n != n0 {
        UnchangedStaysResolved(ctx, known, b, env, b', env', n);
      }
    }
  }

  /** Binding a name of which nothing is known, or nothing was recorded. */
  lemma UnreadNameResolves(ctx: Context, known: Known, rel: string, n0: string, value: Option<Expr>,
      current: Option<seq<Export>>, b: Bindings, env: Env)
    requires AllResolved(ctx, known, current, b, env) && n0 != "__all__"
    requires Lookup(env, n0).Unknown? || Unclaimed(b, known.tracked, n0)
    ensures AllResolved(ctx, known, current, BindName(ctx, rel, n0, value, current, b), env)
  {
    var b' := BindName(ctx, rel, n0, value, current, b);
    forall n | n in env && n != "__all__" ensures NameResolved(ctx, known, b', env, n) {
      if n != n0 {
        UnchangedStaysResolved(ctx, known, b, env, b', env, n);
      } else {
        assert NameResolved(ctx, known, b, env, n);
      }
    }
  }

  lemma {:induction false} UnknownNamesResolve(ctx: Context, known: Known, rel: string, names: seq<string>,
      value: Option<Expr>, current: Option<seq<Export>>, b: Bindings, env: Env)
    requires AllResolved(ctx, known, current, b, env) && "__all__" !in names
    requires forall n :: n in names ==> Lookup(env, n).Unknown?
    ensures AllResolved(ctx, known, current, BindNames(ctx, rel, names, value, current, b), env)
    decreases |names|
  {
    if names != [] {
      UnreadNameResolves(ctx, known, rel, names[0], value, current, b, env);
      UnknownNamesResolve(ctx, known, rel, names[1..], value, current, BindName(ctx, rel, names[0], value, current, b), env);
    }
  }

  lemma AllRebound(ctx: Context, known: Known, current: Option<seq<Export>>, next: Option<seq<Export>>, b: Bindings,
      env: Env, v: PyValue)
    requires AllResolved(ctx, known, current, b, env) && !v.ModuleRef? && (v.Names? ==> next.Some?)
    ensures AllResolved(ctx, known, next, b, env["__all__" := v])
  {
    var env' := env["__all__" := v];
    forall n | n in env' && n != "__all__" ensures NameResolved(ctx, known, b, env', n) {
      UnchangedStaysResolved(ctx, known, b, env, b, env', n);
    }
  }

  /** `__all__` is bound, but no longer to a list that is known. */
  predicate Lost(env: Env)
  {
    "__all__" in env && !env["__all__"].Names?
  }

  /** The state in which a statement is compared: nothing of `__all__` is lent, and imports are where they were recorded. */
  ghost predicate Comparable(ctx: Context, known: Known, rel: string, stmt: Stmt, w: Walk, env: Env,
      recorded: set<string>, imported: set<string>)
  {
    && Walkable(ctx, known, rel, stmt, recorded) && StateDescribes(w.current, w.b, known, env, recorded)
    && AllResolved(ctx, known, w.current, w.b, env) && ImportsWithin(known.tracked, w.b, imported)
    && ExplicitStatement(known.tracked, stmt) && imported !! Reassigns(stmt)
    && (BareAnnotation(stmt) ==> recorded !! Reassigns(stmt))
  }

  ghost predicate ImportsWithin(tracked: set<string>, b: Bindings, imported: set<string>)
  {
    && (forall n :: n in b.importedAll ==> n in imported)
    && (forall n :: n in b.aliases && ModuleRel(tracked, b.aliases[n]).Some? ==> n in imported)
  }

  /** The statement is walked with everything known still resolved, or `__all__` is lost. */
  ghost predicate Continues(ctx: Context, known: Known, rel: string, stmt: Stmt, w: Walk, env': Env)
  {
    var next := Advance(ctx, rel, stmt, w);
    Lost(env') || (next.Some? && AllResolved(ctx, known, next.value.current, next.value.b, env'))
  }

  /** The state after the names of an assignment that does not bind `__all__`. */
  lemma OtherTargetsAdvance(ctx: Context, rel: string, stmt: Stmt, w: Walk)
    requires (stmt.Assign? || stmt.AnnAssign?) && "__all__" !in NamesInAll(Targets(stmt))
    ensures Advance(ctx, rel, stmt, w)
      == Some(Walk(w.current, BindNames(ctx, rel, PlainNames(Targets(stmt)), Value(stmt), w.current, w.b), w.firstLine))
  {
    MentionedInAll(Targets(stmt));
  }

  lemma AllAssignmentResolves(ctx: Context, known: Known, rel: string, stmt: Stmt, value: Expr, w: Walk, env: Env)
    requires AllResolved(ctx, known, w.current, w.b, env)
    requires (stmt.Assign? || stmt.AnnAssign?) && Targets(stmt) == [Name("__all__")] && Value(stmt) == Some(value)
    requires !MutatesAll(value) && Assignment(known, env, Targets(stmt), value).Some?
    ensures Continues(ctx, known, rel, stmt, w, Assignment(known, env, Targets(stmt), value).value)
  {
    var env' := Assignment(known, env, Targets(stmt), value).value;
    OneTarget(Name("__all__"));
    if !Lost(env') {
      assert Evaluate(known, env, value).Names? && !IsListMethod(value);
      KnownSequenceResolves(ctx, known, rel, value, w.current, w.b, env);
      AllRebound(ctx, known, w.current, Sequence(ctx, rel, value, w.current, w.b), w.b, env, env'["__all__"]);
    }
  }

  /** What one other name is assigned. */
  lemma OneAssignmentResolves(ctx: Context, known: Known, rel: string, n: string, value: Expr,
      current: Option<seq<Export>>, b: Bindings, env: Env)
    requires AllResolved(ctx, known, current, b, env) && n != "__all__" && !MutatesAll(value)
    requires Unimported(known.tracked, b, n) && Assignment(known, env, [Name(n)], value).Some?
    ensures AllResolved(ctx, known, current, BindName(ctx, rel, n, Some(value), current, b),
                        Assignment(known, env, [Name(n)], value).value)
  {
    var after, env' := Effect(known, env, value).value, Assignment(known, env, [Name(n)], value).value;
    ChangingStaysResolved(ctx, known, current, b, env, after);
    assert !Bare(value) ==> !Evaluate(known, env, value).ModuleRef?;
    assert IsListMethod(value) ==> Evaluate(known, env, value).Unknown?;
    BindNameResolves(ctx, known, rel, n, Some(value), current, b, after, env');
  }

  lemma OtherAssignmentResolves(ctx: Context, known: Known, rel: string, targets: seq<Expr>, value: Expr,
      current: Option<seq<Export>>, b: Bindings, env: Env)
    requires AllResolved(ctx, known, current, b, env) && !MutatesAll(value) && "__all__" !in NamesInAll(targets)
    requires !OneName(targets) && Assignment(known, env, targets, value).Some?
    ensures AllResolved(ctx, known, current, BindNames(ctx, rel, PlainNames(targets), Some(value), current, b),
                        Assignment(known, env, targets, value).value)
  {
    var after, env' := Effect(known, env, value).value, Assignment(known, env, targets, value).value;
    PlainNamesAreNamed(targets);
    forall n | n in PlainNames(targets) ensures n in NamesInAll(targets) && Lookup(env', n).Unknown? {
      assert n in ToNames(PlainNames(targets));
    }
    ChangingStaysResolved(ctx, known, current, b, env, after);
    ChangingStaysResolved(ctx, known, current, b, after, env');
    UnknownNamesResolve(ctx, known, rel, PlainNames(targets), Some(value), current, b, env');
  }

  lemma AssignmentResolves(ctx: Context, known: Known, rel: string, stmt: Stmt, value: Expr, w: Walk, env: Env,
      recorded: set<string>, imported: set<string>)
    requires Comparable(ctx, known, rel, stmt, w, env, recorded, imported)
    requires (stmt.Assign? || stmt.AnnAssign?) && Value(stmt) == Some(value)
    requires Assignment(known, env, Targets(stmt), value).Some?
    ensures Continues(ctx, known, rel, stmt, w, Assignment(known, env, Targets(stmt), value).value)
  {
    var targets := Targets(stmt);
    if targets == [Name("__all__")] {
      AllAssignmentResolves(ctx, known, rel, stmt, value, w, env);
    } else if OneName(targets) {
      var n := targets[0].id;
      assert targets == [Name(n)];
      OneTarget(Name(n));
      assert n in ToNames([n]) && n !in imported;
      AssignedNameIsSafe(ctx, known, rel, stmt, n, value, recorded);
      OtherTargetsAdvance(ctx, rel, stmt, w);
      BindNamesOfOne(ctx, rel, n, Some(value), w.current, w.b);
      OneAssignmentResolves(ctx, known, rel, n, value, w.current, w.b, env);
    } else {
      AssignedTargetsAreLent(ctx, known, rel, stmt, value, recorded);
      OtherTargetsAdvance(ctx, rel, stmt, w);
      OtherAssignmentResolves(ctx, known, rel, targets, value, w.current, w.b, env);
    }
  }

  lemma AnnotationResolves(ctx: Context, known: Known, rel: string, stmt: Stmt, w: Walk, env: Env,
      recorded: set<string>, imported: set<string>)
    requires Comparable(ctx, known, rel, stmt, w, env, recorded, imported) && BareAnnotation(stmt)
    ensures Continues(ctx, known, rel, stmt, w, env)
  {
    OneTarget(stmt.target);
    MentionsAllIsNamed(stmt.target);
    OtherTargetsAdvance(ctx, rel, stmt, w);
    if stmt.target.Name? {
      var n := stmt.target.id;
      assert n in ToNames([n]) && n !in recorded;
      BindNamesOfOne(ctx, rel, n, None, w.current, w.b);
      UnrecordedIsUnclaimed(w.current, w.b, known, env, recorded, n);
      UnreadNameResolves(ctx, known, rel, n, None, w.current, w.b, env);
    }
  }

  lemma OtherMethodsLendAll(call: Expr)
    ensures MutatesAll(call) && !IsListMethod(call) ==> "__all__" in LentByRoot(HeldList, call)
  {
    assert Lent(HeldList, Name("__all__")) == {"__all__"};
    assert call.Call? && !IsSequenceCall(call) ==> Lent(HeldList, call.func) <= Lent(HeldList, call);
  }

  lemma MutationResolves(ctx: Context, known: Known, rel: string, stmt: Stmt, w: Walk, env: Env,
      recorded: set<string>, imported: set<string>)
    requires Comparable(ctx, known, rel, stmt, w, env, recorded, imported) && stmt.ExprStmt?
    requires Execute(known, rel, stmt, env).Some?
    ensures Continues(ctx, known, rel, stmt, w, Execute(known, rel, stmt, env).value)
  {
    var env', call := Execute(known, rel, stmt, env).value, stmt.value;
    OtherMethodsLendAll(call);
    if !MutatesAll(call) {
      ChangingStaysResolved(ctx, known, w.current, w.b, env, env');
    } else if !Lost(env') {
      var arg := call.args[0];
      if call.func.attr == "append" {
        KnownItemResolves(ctx, known, rel, arg, w.current, w.b, env);
        OneItemDisplay(ctx, rel, arg, w.current, w.b);
      } else {
        KnownSequenceResolves(ctx, known, rel, arg, w.current, w.b, env);
      }
      AllRebound(ctx, known, w.current, Mutate(ctx, rel, call, w.current, w.b), w.b, env, env'["__all__"]);
    }
  }

  lemma AugmentResolves(ctx: Context, known: Known, rel: string, stmt: Stmt, w: Walk, env: Env,
      recorded: set<string>, imported: set<string>)
    requires Comparable(ctx, known, rel, stmt, w, env, recorded, imported) && stmt.AugAssign?
    requires Execute(known, rel, stmt, env).Some?
    ensures Continues(ctx, known, rel, stmt, w, Execute(known, rel, stmt, env).value)
  {
    var env', target := Execute(known, rel, stmt, env).value, stmt.target;
    MentionsAllIsNamed(target);
    OneTarget(target);
    if MentionsAll(target) {
      if !Lost(env') {
        KnownSequenceResolves(ctx, known, rel, stmt.value, w.current, w.b, env);
        var next := Concat(w.current, Sequence(ctx, rel, stmt.value, w.current, w.b));
        AllRebound(ctx, known, w.current, next, w.b, env, env'["__all__"]);
      }
    } else {
      ChangingStaysResolved(ctx, known, w.current, w.b, env, env');
    }
  }

  /** A statement after which `__all__` is not lost is walked, and what is known stays resolved. */
  lemma StatementResolves(ctx: Context, known: Known, rel: string, stmt: Stmt, w: Walk, env: Env,
      recorded: set<string>, imported: set<string>)
    requires Comparable(ctx, known, rel, stmt, w, env, recorded, imported) && Execute(known, rel, stmt, env).Some?
    ensures Continues(ctx, known, rel, stmt, w, Execute(known, rel, stmt, env).value)
  {
    match stmt
    case AugAssign(_, _, _, _) => AugmentResolves(ctx, known, rel, stmt, w, env, recorded, imported);
    case ExprStmt(_, _) => MutationResolves(ctx, known, rel, stmt, w, env, recorded, imported);
    case Import(names) => ModuleImportsResolve(ctx, known, names, w.current, w.b, env);
    case ImportFrom(level, from, names) => ImportsResolve(ctx, known, AbsoluteModule(rel, level, from), names, w.current, w.b, env);
    case OtherStmt(inner) =>
      StoredIsLent(HeldList, inner);
      assert !HiddenMutation(stmt);
      ChangingStaysResolved(ctx, known, w.current, w.b, env, Execute(known, rel, stmt, env).value);
    case Assign(_, value, _) => AssignmentResolves(ctx, known, rel, stmt, value, w, env, recorded, imported);
    case AnnAssign(_, _, Some(value), _) => AssignmentResolves(ctx, known, rel, stmt, value, w, env, recorded, imported);
    case AnnAssign(_, _, None, _) => AnnotationResolves(ctx, known, rel, stmt, w, env, recorded, imported);
  }

  // ---------- whole modules ----------

  lemma {:induction false} ImportModulesKeep(known: Known, names: seq<Alias>, env: Env, n: string)
    requires n !in PlainBoundNames(names) && ImportModules(known, names, env).Some?
    ensures var env' := ImportModules(known, names, env).value; (n in env' <==> n in env) && Lookup(env', n) == Lookup(env, n)
    decreases |names|
  {
    if names != [] {
      assert PlainBoundNames(names)[0] == PlainBound(names[0]) && PlainBoundNames(names)[1..] == PlainBoundNames(names[1..]);
      ImportModulesKeep(known, names[1..], ImportModule(known, names[0], env), n);
    }
  }

  lemma {:induction false} ImportNamesKeep(known: Known, base: string, names: seq<Alias>, env: Env, n: string)
    requires n !in BoundNames(names) && ImportNames(known, base, names, env).Some?
    ensures var env' := ImportNames(known, base, names, env).value; (n in env' <==> n in env) && Lookup(env', n) == Lookup(env, n)
    decreases |names|
  {
    if names != [] {
      assert BoundNames(names)[0] == names[0].Bound() && BoundNames(names)[1..] == BoundNames(names[1..]);
      ImportNamesKeep(known, base, names[1..], Bind(known, env, names[0].Bound(), Imported(known, base, names[0]).value), n);
    }
  }

  /** A statement that does not assign `__all__` neither brings it into being nor recovers it. */
  lemma OnlyBindersRecover(known: Known, rel: string, stmt: Stmt, env: Env)
    requires TraceableStatement(known.tracked, known.escapes, rel, stmt) && "__all__" !in Lends(HeldList, stmt)
    requires !BindsAll(stmt) && Execute(known, rel, stmt, env).Some?
    ensures "__all__" !in env ==> "__all__" !in Execute(known, rel, stmt, env).value
    ensures Lost(env) ==> Lost(Execute(known, rel, stmt, env).value)
  {
    match stmt
    case Assign(targets, _, _) =>
      MentionedInAll(targets);
      if |targets| == 1 { assert targets == [targets[0]]; OneTarget(targets[0]); MentionsAllIsNamed(targets[0]); }
    case AnnAssign(target, _, _, _) => OneTarget(target); MentionsAllIsNamed(target);
    case AugAssign(target, _, _, _) => OneTarget(target);
    case Import(names) => ImportModulesKeep(known, names, env, "__all__");
    case ImportFrom(level, from, names) => ImportNamesKeep(known, AbsoluteModule(rel, level, from), names, env, "__all__");
    case OtherStmt(inner) => StoredIsLent(HeldList, inner);
    case ExprStmt(_, _) =>
  }

  ghost predicate NoBinder(stmts: seq<Stmt>)
  {
    forall s :: s in stmts ==> !BindsAll(s)
  }

  lemma {:induction false} LostForever(ctx: Context, known: Known, rel: string, stmts: seq<Stmt>, env: Env,
      recorded: set<string>)
    requires Lost(env) && NoBinder(stmts) && AllWalkable(ctx, known, rel, stmts, recorded)
    requires ExecuteAll(known, rel, stmts, env).Some?
    ensures Lost(ExecuteAll(known, rel, stmts, env).value)
    decreases |stmts|
  {
    if stmts != [] {
      assert stmts[0] in stmts;
      assert "__all__" !in Lends(HeldList, stmts[0]);
      OnlyBindersRecover(known, rel, stmts[0], env);
      RestIsWalkable(ctx, known, rel, stmts, recorded);
      LostForever(ctx, known, rel, stmts[1..], Execute(known, rel, stmts[0], env).value,
                  recorded + Recorded(known.tracked, rel, stmts[0]));
    }
  }

  lemma {:induction false} AliasesWithin(tracked: set<string>, base: string, names: seq<Alias>, b: Bindings,
      imported: set<string>)
    requires ImportsWithin(tracked, b, imported)
    requires forall a :: a in names && base != [] && a.name == "__all__" ==> a.Bound() in imported
    requires forall a :: a in names && IsSubmodule(tracked, base, a) ==> a.Bound() in imported
    ensures ImportsWithin(tracked, RecordAliases(tracked, base, names, b), imported)
    decreases |names|
  {
    if names != [] {
      assert names[0] in names;
      AliasesWithin(tracked, base, names[1..], RecordAlias(tracked, base, names[0], b), imported);
    }
  }

  lemma {:induction false} PlainImportsWithin(tracked: set<string>, names: seq<Alias>, b: Bindings, imported: set<string>)
    requires ImportsWithin(tracked, b, imported)
    requires forall a :: a in names && a.asname.Some? && ModuleRel(tracked, a.name).Some? ==> a.asname.value in imported
    ensures ImportsWithin(tracked, RecordPlainImports(names, b), imported)
    decreases |names|
  {
    if names != [] {
      assert names[0] in names;
      PlainImportsWithin(tracked, names[1..], RecordPlainImport(names[0], b), imported);
    }
  }

  lemma {:induction false} BoundWithin(ctx: Context, rel: string, names: seq<string>, value: Option<Expr>,
      current: Option<seq<Export>>, b: Bindings, imported: set<string>)
    requires ImportsWithin(ctx.tracked, b, imported)
    ensures ImportsWithin(ctx.tracked, BindNames(ctx, rel, names, value, current, b), imported)
    decreases |names|
  {
    if names != [] {
      BoundWithin(ctx, rel, names[1..], value, current, BindName(ctx, rel, names[0], value, current, b), imported);
    }
  }

  /** Only imports record imports. */
  lemma StatementWithin(ctx: Context, rel: string, stmt: Stmt, w: Walk, imported: set<string>)
    requires ImportsWithin(ctx.tracked, w.b, imported) && Advance(ctx, rel, stmt, w).Some?
    ensures ImportsWithin(ctx.tracked, Advance(ctx, rel, stmt, w).value.b, imported + RecordedByImport(ctx.tracked, rel, stmt))
  {
    match stmt
    case Import(names) => PlainImportsWithin(ctx.tracked, names, w.b, imported + Recorded(ctx.tracked, rel, stmt));
    case ImportFrom(level, from, names) =>
      AliasesWithin(ctx.tracked, AbsoluteModule(rel, level, from), names, w.b, imported + Recorded(ctx.tracked, rel, stmt));
    case Assign(targets, value, _) => BoundWithin(ctx, rel, PlainNames(targets), Some(value), w.current, w.b, imported);
    case AnnAssign(target, _, value, _) => BoundWithin(ctx, rel, PlainNames([target]), value, w.current, w.b, imported);
    case _ =>
  }

  /** The remaining statements are explicit, given what was recorded before them. */
  ghost predicate AllExplicit(tracked: set<string>, rel: string, stmts: seq<Stmt>, recorded: set<string>,
      imported: set<string>)
  {
    && Explicit(tracked, rel, stmts)
    && forall s :: s in stmts ==> imported !! Reassigns(s) && (BareAnnotation(s) ==> recorded !! Reassigns(s))
  }

  lemma RestIsExplicit(tracked: set<string>, rel: string, stmts: seq<Stmt>, recorded: set<string>, imported: set<string>)
    requires stmts != [] && AllExplicit(tracked, rel, stmts, recorded, imported)
    ensures AllExplicit(tracked, rel, stmts[1..], recorded + Recorded(tracked, rel, stmts[0]),
                        imported + RecordedByImport(tracked, rel, stmts[0]))
  {
    var rest := stmts[1..];
    forall i, j | 0 <= i < j < |rest|
      ensures !(BindsAll(rest[i]) && BindsAll(rest[j]))
      ensures RecordedByImport(tracked, rel, rest[i]) !! Reassigns(rest[j])
      ensures BareAnnotation(rest[j]) ==> Recorded(tracked, rel, rest[i]) !! Reassigns(rest[j])
    {
      assert rest[i] == stmts[i + 1] && rest[j] == stmts[j + 1];
    }
    forall s | s in rest
      ensures s in stmts && RecordedByImport(tracked, rel, stmts[0]) !! Reassigns(s)
      ensures BareAnnotation(s) ==> Recorded(tracked, rel, stmts[0]) !! Reassigns(s)
    {
      var k :| 0 <= k < |rest| && rest[k] == s;
      assert stmts[k + 1] == s;
    }
  }

  lemma NoSecondBinder(known: Known, rel: string, stmts: seq<Stmt>, env: Env)
    requires stmts != [] && Explicit(known.tracked, rel, stmts) && ("__all__" in env ==> NoBinder(stmts))
    requires TraceableStatement(known.tracked, known.escapes, rel, stmts[0]) && "__all__" !in Lends(HeldList, stmts[0])
    requires Execute(known, rel, stmts[0], env).Some?
    ensures "__all__" in Execute(known, rel, stmts[0], env).value ==> NoBinder(stmts[1..])
  {
    assert stmts[0] in stmts;
    if "__all__" in Execute(known, rel, stmts[0], env).value {
      if "__all__" !in env && !BindsAll(stmts[0]) {
        OnlyBindersRecover(known, rel, stmts[0], env);
      }
      forall s | s in stmts[1..] ensures !BindsAll(s) {
        var k :| 0 <= k < |stmts[1..]| && stmts[1..][k] == s;
        assert stmts[k + 1] == s && s in stmts;
        assert !(BindsAll(stmts[0]) && BindsAll(stmts[k + 1]));
      }
    }
  }

  lemma {:induction false} BodyResolves(ctx: Context, known: Known, rel: string, stmts: seq<Stmt>, w: Walk, env: Env,
      recorded: set<string>, imported: set<string>)
    requires AllWalkable(ctx, known, rel, stmts, recorded) && StateDescribes(w.current, w.b, known, env, recorded)
    requires AllExplicit(ctx.tracked, rel, stmts, recorded, imported) && ImportsWithin(ctx.tracked, w.b, imported)
    requires AllResolved(ctx, known, w.current, w.b, env) && ("__all__" in env ==> NoBinder(stmts))
    requires ExecuteAll(known, rel, stmts, env).Some? && Lookup(ExecuteAll(known, rel, stmts, env).value, "__all__").Names?
    ensures Body(ctx, rel, stmts, w).Some? && Body(ctx, rel, stmts, w).value.current.Some?
    decreases |stmts|
  {
    if stmts != [] {
      var s, env' := stmts[0], Execute(known, rel, stmts[0], env).value;
      assert s in stmts && "__all__" !in Lends(HeldList, s);
      RestIsWalkable(ctx, known, rel, stmts, recorded);
      RestIsExplicit(ctx.tracked, rel, stmts, recorded, imported);
      NoSecondBinder(known, rel, stmts, env);
      StatementResolves(ctx, known, rel, s, w, env, recorded, imported);
      if Lost(env') {
        LostForever(ctx, known, rel, stmts[1..], env', recorded + Recorded(known.tracked, rel, s));
        assert false;
      }
      StatementDescribes(ctx, known, rel, s, w, env, recorded);
      StatementWithin(ctx, rel, s, w, imported);
      BodyResolves(ctx, known, rel, stmts[1..], Advance(ctx, rel, s, w).value, env',
                   recorded + Recorded(known.tracked, rel, s), imported + RecordedByImport(known.tracked, rel, s));
    }
  }

  /** A lent `__all__` is never known. */
  lemma {:induction false} LentStaysUnknown(known: Known, rel: string, stmts: seq<Stmt>, env: Env)
    requires "__all__" in known.escapes.lists && !Lookup(env, "__all__").Names?
    requires ExecuteAll(known, rel, stmts, env).Some?
    ensures !Lookup(ExecuteAll(known, rel, stmts, env).value, "__all__").Names?
    decreases |stmts|
  {
    if stmts != [] {
      match stmts[0] {
        case Import(names) => LentModulesStayUnknown(known, names, env);
        case ImportFrom(level, from, names) => LentImportsStayUnknown(known, AbsoluteModule(rel, level, from), names, env);
        case _ =>
      }
      LentStaysUnknown(known, rel, stmts[1..], Execute(known, rel, stmts[0], env).value);
    }
  }

  lemma {:induction false} LentModulesStayUnknown(known: Known, names: seq<Alias>, env: Env)
    requires !Lookup(env, "__all__").Names? && ImportModules(known, names, env).Some?
    ensures !Lookup(ImportModules(known, names, env).value, "__all__").Names?
    decreases |names|
  {
    if names != [] {
      LentModulesStayUnknown(known, names[1..], ImportModule(known, names[0], env));
    }
  }

  lemma {:induction false} LentImportsStayUnknown(known: Known, base: string, names: seq<Alias>, env: Env)
    requires "__all__" in known.escapes.lists && !Lookup(env, "__all__").Names? && ImportNames(known, base, names, env).Some?
    ensures !Lookup(ImportNames(known, base, names, env).value, "__all__").Names?
    decreases |names|
  {
    if names != [] {
      LentImportsStayUnknown(known, base, names[1..], Bind(known, env, names[0].Bound(), Imported(known, base, names[0]).value));
    }
  }

  /** Every parsed module of the tree is explicit. */
  ghost predicate TreeExplicit(mods: Modules)
  {
    forall m :: m in mods && mods[m].Some? ==> Explicit(mods.Keys, m, mods[m].value)
  }

  /** Among traceable and explicit modules, what is known of `__all__` is also resolved. */
  lemma {:induction false} KnownNamesResolve(mods: Modules, reach: Reach, rel: string, chain: set<string>)
    requires AllTraceable(mods, reach) && TreeExplicit(mods)
    requires Meaning(mods, reach, rel, chain).Ends? && Meaning(mods, reach, rel, chain).value.Names?
    ensures Outcome(mods, rel, chain).Some?
    decreases mods.Keys - chain
  {
    assert rel in mods.Keys - chain && rel !in mods.Keys - (chain + {rel});
    var stmts, ctx := mods[rel].value, Context(mods.Keys, Outcomes(mods, rel, chain));
    var known := Known(mods.Keys, Meanings(mods, reach, rel, chain), EscapesOf(reach, stmts));
    if "__all__" in known.escapes.lists {
      LentStaysUnknown(known, rel, stmts, map[]);
      assert false;
    }
    forall m | m in known.finals && known.finals[m].Ends?
      ensures EndsInNames(known.finals[m]) ==> m in ctx.foreign
      ensures m in ctx.foreign ==> Describes(Some(ctx.foreign[m].names), known.finals[m].value)
    {
      if known.finals[m].value.Names? { KnownNamesResolve(mods, reach, m, chain + {rel}); }
      if m in ctx.foreign { ResolvedDescribes(mods, reach, m, chain + {rel}); }
    }
    TraceableIsWalkable(ctx, known, reach, rel, stmts);
    BodyResolves(ctx, known, rel, stmts, START, map[], {}, {});
  }

  /** The modules read are explicit. */
  ghost predicate ReadExplicit(mods: Modules, read: set<string>)
  {
    forall m :: m in read && m in mods && mods[m].Some? ==> Explicit(mods.Keys, m, mods[m].value)
  }

  /**
    In runs in which Python does not raise, the resolver answers exactly when `__all__` is known to
    be a sequence of strings. The modules asked to be traceable and explicit are those that either
    side reads.
   */
  lemma AnswersExactlyKnownNames(mods: Modules, read: set<string>, reach: Reach, rel: string, chain: set<string>)
    requires ReadTraceable(mods, read, reach) && ReadExplicit(mods, read) && Meaning(mods, reach, rel, chain).Ends?
    requires Outcome(mods, rel, chain).Some? ==> Outcome(OnlyRead(mods, read), rel, chain).Some?
    requires EndsInNames(Meaning(mods, reach, rel, chain)) ==> EndsInNames(Meaning(OnlyRead(mods, read), reach, rel, chain))
    ensures Outcome(mods, rel, chain).Some? <==> Meaning(mods, reach, rel, chain).value.Names?
  {
    assert OnlyRead(mods, read).Keys == mods.Keys;
    if Outcome(mods, rel, chain).Some? {
      ResolvedNamesArePythons(mods, read, reach, rel, chain);
    }
    if Meaning(mods, reach, rel, chain).value.Names? {
      KnownNamesResolve(OnlyRead(mods, read), reach, rel, chain);
      ReadOutcomeStands(mods, read, rel, chain);
    }
  }
}
