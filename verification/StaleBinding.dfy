/**
  Inputs on which the resolver and Python disagree, one for each way a module can change a list
  behind the resolver's back: under the list's own name, inside a right-hand side, inside a compound
  statement, and through an import, of the module itself or of another one. None is traceable.
 */
module StaleBinding {
  import opened Prelude
  import opened ModuleSyntax
  import opened ModuleEvaluation
  import opened NameLending
  import opened PythonMeaning

  const REL := "vidbyte/__init__.py"

  /** A tree of one module. */
  function Tree(stmts: seq<Stmt>): Modules { map[REL := Some(stmts)] }

  /** Nothing is reached through imports and attributes. */
  const NO_REACH := Reach({}, {})

  ghost function ContextOf(stmts: seq<Stmt>): Context
  {
    Context(Tree(stmts).Keys, Outcomes(Tree(stmts), REL, {}))
  }

  ghost function KnownOf(reach: Reach, stmts: seq<Stmt>): Known
  {
    Known(Tree(stmts).Keys, Meanings(Tree(stmts), reach, REL, {}), EscapesOf(reach, stmts))
  }

  function Binding(target: string, elts: seq<Expr>, line: nat): Stmt { Assign([Name(target)], Listing(elts), line) }

  const A := Export("A", Origin(REL, 1))
  const B := Export("B", Origin(REL, 1))

  lemma OutcomeOf(stmts: seq<Stmt>)
    ensures Outcome(Tree(stmts), REL, {}) == Finish(Body(ContextOf(stmts), REL, stmts, START))
  {}

  lemma MeaningOf(reach: Reach, stmts: seq<Stmt>)
    requires ExecuteAll(KnownOf(reach, stmts), REL, stmts, map[]).Some?
    ensures var last := Lookup(ExecuteAll(KnownOf(reach, stmts), REL, stmts, map[]).value, "__all__");
      Meaning(Tree(stmts), reach, REL, {}) == Ends(if RebindsBuiltins(reach, stmts) then Unknown else last)
  {}

  /** Plain assignments and calls that lend no attribute reach nothing. */
  lemma NothingIsReached(stmts: seq<Stmt>)
    requires LentBy(HeldForeign, stmts) == {}
    requires forall s :: s in stmts ==> s.Assign? || (s.AugAssign? && s.target.Name?)
    ensures Covers(NO_REACH, stmts)
  {
    LentIsUnion(HeldForeign, stmts);
    assert forall s :: s in stmts ==> Stores(s) <= Lends(HeldForeign, s);
  }

  // ---------- under its own name ----------

  const FIRST := Binding("names", [Str("A", 1)], 1)
  const SECOND := AugAssign(Name("names"), Add, Listing([Str("B", 2)]), 2)
  const THIRD := Binding("__all__", [Starred(Name("names"))], 3)

  /** `names = ["A"]`, then `names += ["B"]`, then `__all__ = [*names]`. */
  const STALE := [FIRST, SECOND, THIRD]

  lemma ResolverSeesStale(ctx: Context)
    ensures Finish(Body(ctx, REL, STALE, START)) == Some(Resolution([A], 3))
  {
    var b := Bindings(map["names" := Some([A])], map[], map[]);
    OneItemDisplay(ctx, REL, Str("A", 1), None, START.b);
    OneItemDisplay(ctx, REL, Starred(Name("names")), None, b);
    OneTarget(Name("names"));
    OneTarget(Name("__all__"));
    BindNamesOfOne(ctx, REL, "names", Some(Listing([Str("A", 1)])), None, START.b);
    assert Advance(ctx, REL, FIRST, START) == Some(Walk(None, b, 0));
    assert Advance(ctx, REL, SECOND, Walk(None, b, 0)) == Some(Walk(None, b, 0));
    assert Advance(ctx, REL, THIRD, Walk(None, b, 0)) == Some(Walk(Some([A]), b, 3));
    var rest := STALE[1..];
    assert rest == [SECOND, THIRD] && rest[1..] == [THIRD] && [THIRD][1..] == [];
    assert Body(ctx, REL, [THIRD], Walk(None, b, 0)) == Some(Walk(Some([A]), b, 3));
    assert Body(ctx, REL, rest, Walk(None, b, 0)) == Some(Walk(Some([A]), b, 3));
  }

  lemma PythonAssigns(known: Known, env: Env, e: Expr, target: string, line: nat, name: string)
    requires e == Str(name, line) && target !in known.escapes.lists
    ensures Execute(known, REL, Binding(target, [e], line), env) == Some(env[target := Names([name], true)])
    ensures Evaluate(known, env, Listing([e])) == Names([name], true)
  {
    assert [e][0] == e && [e][1..] == [] && EvaluateItems(known, env, [e][1..]) == Names([], true) && [name] + [] == [name];
    assert EvaluateItem(known, env, e) == Names([name], true) && EvaluateItems(known, env, [e]) == Names([name], true);
    assert OneName([Name(target)]);
  }

  lemma PythonSeesBoth(known: Known)
    requires "names" !in known.escapes.lists && "__all__" !in known.escapes.lists
    ensures ExecuteAll(known, REL, STALE, map[]).Some?
    ensures Lookup(ExecuteAll(known, REL, STALE, map[]).value, "__all__") == Names(["A", "B"], true)
  {
    var empty: Env := map[];
    var one: Env := empty["names" := Names(["A"], true)];
    var two: Env := one["names" := Names(["A", "B"], true)];
    var three := two["__all__" := Names(["A", "B"], true)];
    PythonAssigns(known, empty, Str("A", 1), "names", 1, "A");
    PythonAssigns(known, one, Str("B", 2), "names", 2, "B");
    assert ["A"] + ["B"] == ["A", "B"] && Execute(known, REL, SECOND, one) == Some(two);
    PythonUnpacks(known, two, ["A", "B"]);
    var rest := STALE[1..];
    assert rest == [SECOND, THIRD] && rest[1..] == [THIRD] && [THIRD][1..] == [];
    assert ExecuteAll(known, REL, [THIRD], two) == Some(three);
    assert ExecuteAll(known, REL, rest, one) == Some(three);
  }

  lemma PythonUnpacks(known: Known, env: Env, xs: seq<string>)
    requires Lookup(env, "names") == Names(xs, true) && "__all__" !in known.escapes.lists
    ensures Execute(known, REL, THIRD, env) == Some(env["__all__" := Names(xs, true)])
  {
    var e := Starred(Name("names"));
    assert [e][1..] == [] && EvaluateItems(known, env, [e][1..]) == Names([], true) && xs + [] == xs;
  }

  lemma DisplayLends(held: Held, e: Expr, target: string, line: nat)
    requires e.Str? || (e.Starred? && e.value.Name?)
    ensures Lends(held, Binding(target, [e], line)) == if held == HeldBuiltin then {target} else {}
    ensures Lent(held, Listing([e])) == {}
  {
    OneTarget(Name(target));
    assert Lent(held, e) == {};
    assert [e][0] == e && [e][1..] == [] && LentByAll(held, []) == {} && LentByAll(held, [e]) == Lent(held, e);
    assert [Name(target)][1..] == [] && LentByAll(held, [Name(target)]) == Lent(held, Name(target));
  }

  lemma StaleLends(held: Held)
    ensures LentBy(held, STALE) == if held == HeldBuiltin then {"names", "__all__"} else {}
  {
    DisplayLends(held, Str("A", 1), "names", 1);
    DisplayLends(held, Str("B", 2), "names", 2);
    DisplayLends(held, Starred(Name("names")), "__all__", 3);
    OneTarget(Name("names"));
    assert LentByAll(held, [Name("names")][1..]) == {};
    assert LentByTargets(held, [Name("names")]) == if held == HeldBuiltin then {"names"} else {};
    assert Lends(held, SECOND) == if held == HeldBuiltin then {"names"} else {};
    assert STALE[1..] == [SECOND, THIRD] && STALE[1..][1..] == [THIRD] && [THIRD][1..] == [];
    assert LentBy(held, [THIRD]) == Lends(held, THIRD);
    assert LentBy(held, [SECOND, THIRD]) == Lends(held, SECOND) + Lends(held, THIRD);
  }

  lemma StaleReachesNothing()
    ensures Covers(NO_REACH, STALE)
  {
    StaleLends(HeldForeign);
    NothingIsReached(STALE);
  }

  lemma StaleLendsNothing()
    ensures EscapesOf(NO_REACH, STALE).lists == {} && !RebindsBuiltins(NO_REACH, STALE)
  {
    StaleLends(HeldList);
    StaleLends(HeldBuiltin);
    assert {"names", "__all__"} * (SEQUENCE_CALLS + {"*"}) == {};
  }

  /** The resolver answers one name where Python's list has two. */
  lemma StaleBindingDropsName()
    ensures Outcome(Tree(STALE), REL, {}) == Some(Resolution([A], 3))
    ensures Covers(NO_REACH, STALE) && Meaning(Tree(STALE), NO_REACH, REL, {}) == Ends(Names(["A", "B"], true))
    ensures forall reach :: !Traceable(Tree(STALE).Keys, reach, REL, STALE)
  {
    ResolverSeesStale(ContextOf(STALE));
    OutcomeOf(STALE);
    StaleLendsNothing();
    StaleReachesNothing();
    PythonSeesBoth(KnownOf(NO_REACH, STALE));
    MeaningOf(NO_REACH, STALE);
    forall reach ensures !Traceable(Tree(STALE).Keys, reach, REL, STALE) {
      StaleIsNotTraceable(Tree(STALE).Keys, reach);
    }
  }

  lemma StaleIsNotTraceable(tracked: set<string>, reach: Reach)
    ensures !Traceable(tracked, reach, REL, STALE)
  {
    OneTarget(Name("names"));
    assert "names" in ToNames(["names"]) && "names" in Recorded(tracked, REL, STALE[0]);
    assert "names" in Rebinds(STALE[1]);
  }

  // ---------- after `__all__ = ["A", "B"]` ----------

  const LISTED := Binding("__all__", [Str("A", 1), Str("B", 1)], 1)

  function Then(second: Stmt): seq<Stmt> { [LISTED, second] }

  lemma BothWalked(ctx: Context, second: Stmt, w: Walk)
    ensures Body(ctx, REL, Then(second), w)
      == match Advance(ctx, REL, LISTED, w) case None => None case Some(next) => Advance(ctx, REL, second, next)
  {
    assert Then(second)[1..] == [second] && [second][1..] == [];
    assert forall next :: Body(ctx, REL, [], next) == Some(next);
  }

  lemma BothExecuted(known: Known, second: Stmt, env: Env)
    ensures ExecuteAll(known, REL, Then(second), env)
      == match Execute(known, REL, LISTED, env) case None => None case Some(next) => Execute(known, REL, second, next)
  {
    assert Then(second)[1..] == [second] && [second][1..] == [];
    assert forall next :: ExecuteAll(known, REL, [], next) == Some(next);
  }

  lemma BothLend(held: Held, second: Stmt)
    ensures LentBy(held, Then(second)) == Lends(held, LISTED) + Lends(held, second)
  {
    assert Then(second)[1..] == [second] && [second][1..] == [];
    assert LentBy(held, [second]) == Lends(held, second) + LentBy(held, []);
  }

  lemma ListedIsWalked(ctx: Context)
    ensures Advance(ctx, REL, LISTED, START) == Some(Walk(Some([A, B]), START.b, 1))
  {
    OneTarget(Name("__all__"));
    var elts := [Str("A", 1), Str("B", 1)];
    assert elts[1..] == [Str("B", 1)] && [Str("B", 1)][1..] == [];
    assert Elements(ctx, REL, [], None, START.b) == Some([]);
    assert Element(ctx, REL, elts[0], None, START.b) == Some([A]) && Element(ctx, REL, elts[1], None, START.b) == Some([B]);
    assert [B] + [] == [B] && [A] + [B] == [A, B];
    assert Elements(ctx, REL, [Str("B", 1)], None, START.b) == Some([B]);
    assert Elements(ctx, REL, elts, None, START.b) == Some([A, B]);
  }

  lemma ListedIsExecuted(known: Known)
    requires "__all__" !in known.escapes.lists
    ensures Execute(known, REL, LISTED, map[]) == Some(map["__all__" := Names(["A", "B"], true)])
  {
    var elts, empty: Env := [Str("A", 1), Str("B", 1)], map[];
    assert elts[1..] == [Str("B", 1)] && [Str("B", 1)][1..] == [];
    assert EvaluateItems(known, empty, []) == Names([], true) && ["B"] + [] == ["B"] && ["A"] + ["B"] == ["A", "B"];
    assert EvaluateItems(known, empty, [Str("B", 1)]) == Names(["B"], true);
    assert EvaluateItems(known, empty, elts) == Names(["A", "B"], true);
    assert empty["__all__" := Names(["A", "B"], true)] == map["__all__" := Names(["A", "B"], true)];
  }

  lemma ListedLends(held: Held)
    ensures Lends(held, LISTED) == if held == HeldBuiltin then {"__all__"} else {}
  {
    OneTarget(Name("__all__"));
    var elts := [Str("A", 1), Str("B", 1)];
    assert elts[1..] == [Str("B", 1)] && [Str("B", 1)][1..] == [] && LentByAll(held, []) == {};
    assert LentByAll(held, [Str("B", 1)]) == {} && LentByAll(held, elts) == {};
  }

  /** `x = __all__.pop()`. */
  const POP := Assign([Name("x")], Call(Attribute(Name("__all__"), "pop"), [], []), 2)

  lemma ResolverMissesPop(ctx: Context)
    ensures Finish(Body(ctx, REL, Then(POP), START)) == Some(Resolution([A, B], 1))
  {
    BothWalked(ctx, POP, START);
    ListedIsWalked(ctx);
    OneTarget(Name("x"));
    assert Advance(ctx, REL, POP, Walk(Some([A, B]), START.b, 1)).Some?;
  }

  lemma PythonPops(known: Known)
    requires "__all__" !in known.escapes.lists
    ensures ExecuteAll(known, REL, Then(POP), map[]).Some?
    ensures Lookup(ExecuteAll(known, REL, Then(POP), map[]).value, "__all__") == Names(["A"], true)
  {
    var env: Env := map["__all__" := Names(["A", "B"], true)];
    BothExecuted(known, POP, map[]);
    ListedIsExecuted(known);
    assert ["A", "B"][..1] == ["A"];
    assert CallMethod(known, env, POP.value) == Some(env["__all__" := Names(["A"], true)]);
  }

  lemma PopLends(held: Held)
    ensures LentBy(held, Then(POP)) == if held == HeldBuiltin then {"__all__", "x"} else {}
  {
    BothLend(held, POP);
    assert [Name("x")][1..] == [] && LentByAll(held, [Name("x")]) == Lent(held, Name("x"));
    OneTarget(Name("x"));
    ListedLends(held);
    assert LentByAll(held, []) == {};
    assert Lends(held, POP) == if held == HeldBuiltin then {"x"} else {};
  }

  /** The resolver keeps the name that was popped inside a right-hand side. */
  lemma PoppedNameStays()
    ensures Outcome(Tree(Then(POP)), REL, {}) == Some(Resolution([A, B], 1))
    ensures Covers(NO_REACH, Then(POP)) && Meaning(Tree(Then(POP)), NO_REACH, REL, {}) == Ends(Names(["A"], true))
    ensures forall reach :: !Traceable(Tree(Then(POP)).Keys, reach, REL, Then(POP))
  {
    ResolverMissesPop(ContextOf(Then(POP)));
    OutcomeOf(Then(POP));
    PopRebindsNothing();
    PopReachesNothing();
    PythonPops(KnownOf(NO_REACH, Then(POP)));
    MeaningOf(NO_REACH, Then(POP));
    forall reach ensures !Traceable(Tree(Then(POP)).Keys, reach, REL, Then(POP)) {
      PopIsNotTraceable(Tree(Then(POP)).Keys, reach);
    }
  }

  lemma PopReachesNothing()
    ensures Covers(NO_REACH, Then(POP))
  {
    PopLends(HeldForeign);
    NothingIsReached(Then(POP));
  }

  lemma PopRebindsNothing()
    ensures !RebindsBuiltins(NO_REACH, Then(POP)) && EscapesOf(NO_REACH, Then(POP)).lists == {}
  {
    PopLends(HeldList);
    PopLends(HeldBuiltin);
    assert {"__all__", "x"} * (SEQUENCE_CALLS + {"*"}) == {};
  }

  lemma PopIsNotTraceable(tracked: set<string>, reach: Reach)
    ensures !Traceable(tracked, reach, REL, Then(POP))
  {
    assert POP in Then(POP) && MutatesAll(POP.value);
  }

  /** `try: from .x import __all__`, or any other binding inside a compound statement. */
  const NESTED := OtherStmt([Imports([Alias("__all__", None)])])

  /** `[__all__.append(n) for n in ["C"]]`. */
  const COMPREHENSION := ExprStmt(
    OtherExpr([Call(Attribute(Name("__all__"), "append"), [Name("n")], []), Name("n"), Listing([Str("C", 2)])], []), 2)

  /** `helper(__all__)`. */
  const HELPER := ExprStmt(Call(Name("helper"), [Name("__all__")], []), 2)

  /** The resolver answers the list it saw last where `__all__` was lent, or bound again out of its sight. */
  lemma LentAllIsKept(second: Stmt, reach: Reach)
    requires second in [NESTED, COMPREHENSION, HELPER]
    ensures Outcome(Tree(Then(second)), REL, {}) == Some(Resolution([A, B], 1))
    ensures Meaning(Tree(Then(second)), reach, REL, {}) == Ends(Unknown)
    ensures !Traceable(Tree(Then(second)).Keys, reach, REL, Then(second))
  {
    SecondIsUnseen(ContextOf(Then(second)), second);
    OutcomeOf(Then(second));
    SecondLendsAll(second);
    LentIsUnknown(KnownOf(reach, Then(second)), reach, second);
    MeaningOf(reach, Then(second));
    SecondIsNotTraceable(Tree(Then(second)).Keys, reach, second);
  }

  lemma SecondIsUnseen(ctx: Context, second: Stmt)
    requires second in [NESTED, COMPREHENSION, HELPER]
    ensures Finish(Body(ctx, REL, Then(second), START)) == Some(Resolution([A, B], 1))
  {
    BothWalked(ctx, second, START);
    ListedIsWalked(ctx);
    var w := Walk(Some([A, B]), START.b, 1);
    assert Advance(ctx, REL, second, w) == Some(w);
  }

  /** The second statement is executed without a new value for `__all__`. */
  lemma SecondIsStepped(known: Known, second: Stmt, env: Env)
    requires second in [NESTED, COMPREHENSION, HELPER] && "__all__" in env && env["__all__"].Unknown?
    ensures Execute(known, REL, second, env).Some? && Lookup(Execute(known, REL, second, env).value, "__all__").Unknown?
  {}

  lemma LentIsUnknown(known: Known, reach: Reach, second: Stmt)
    requires second in [NESTED, COMPREHENSION, HELPER]
    requires "__all__" in Lends(HeldList, second) && known.escapes == EscapesOf(reach, Then(second))
    ensures ExecuteAll(known, REL, Then(second), map[]).Some?
    ensures Lookup(ExecuteAll(known, REL, Then(second), map[]).value, "__all__").Unknown?
  {
    BothExecuted(known, second, map[]);
    BothLend(HeldList, second);
    var first := Execute(known, REL, LISTED, map[]).value;
    SecondIsStepped(known, second, first);
  }

  lemma SecondIsNotTraceable(tracked: set<string>, reach: Reach, second: Stmt)
    requires second in [NESTED, COMPREHENSION, HELPER] && "__all__" in Lends(HeldList, second)
    ensures !Traceable(tracked, reach, REL, Then(second))
  {
    assert second in Then(second) && !Refused(second);
  }

  lemma SecondLendsAll(second: Stmt)
    requires second in [NESTED, COMPREHENSION, HELPER]
    ensures "__all__" in Lends(HeldList, second)
  {
    var all := Name("__all__");
    assert Lent(HeldList, all) == {"__all__"};
    assert BoundNames([Alias("__all__", None)])[0] == "__all__";
    if second == COMPREHENSION {
      var call := second.value.children[0];
      assert Lent(HeldList, Attribute(all, "append")) == {"__all__"};
      assert "__all__" in Lent(HeldList, call);
      assert "__all__" in LentByAll(HeldList, second.value.children);
    }
  }

  /** `__version__ = "0.4.2"`. */
  const VERSION := Assign([Name("__version__")], Str("0.4.2", 2), 2)

  /** By contrast, a constant beside the list leaves the module traceable. */
  lemma VersionIsTraceable(tracked: set<string>)
    ensures Traceable(tracked, NO_REACH, REL, Then(VERSION))
  {
    VersionEscapesNothing();
    BothAreTraceable(tracked, EscapesOf(NO_REACH, Then(VERSION)));
    NothingIsRebound(tracked);
  }

  lemma BothAreTraceable(tracked: set<string>, escapes: Escapes)
    ensures forall s :: s in Then(VERSION) ==> TraceableStatement(tracked, escapes, REL, s)
  {
    OtherValuesAreTraceable(tracked, escapes, REL, "__version__", Str("0.4.2", 2), 2);
    ListedIsTraceable(tracked, escapes);
  }

  lemma NothingIsRebound(tracked: set<string>)
    ensures forall i, j :: 0 <= i < j < |Then(VERSION)| ==> Recorded(tracked, REL, Then(VERSION)[i]) !! Rebinds(Then(VERSION)[j])
  {
    assert Rebinds(VERSION) == {};
  }

  lemma VersionEscapesNothing()
    ensures !RebindsBuiltins(NO_REACH, Then(VERSION)) && Covers(NO_REACH, Then(VERSION))
  {
    VersionLends(HeldBuiltin);
    VersionLends(HeldForeign);
    NothingIsReached(Then(VERSION));
    assert {"__all__", "__version__"} * (SEQUENCE_CALLS + {"*"}) == {};
  }

  lemma VersionLends(held: Held)
    ensures LentBy(held, Then(VERSION)) == if held == HeldBuiltin then {"__all__", "__version__"} else {}
  {
    BothLend(held, VERSION);
    ListedLends(held);
    OneTarget(Name("__version__"));
    assert [Name("__version__")][1..] == [] && LentByAll(held, []) == {};
    assert LentByAll(held, [Name("__version__")]) == Lent(held, Name("__version__"));
    assert Lends(held, VERSION) == if held == HeldBuiltin then {"__version__"} else {};
  }

  lemma ListedIsTraceable(tracked: set<string>, escapes: Escapes)
    ensures TraceableStatement(tracked, escapes, REL, LISTED)
  {
    ListedLends(HeldList);
    OneTarget(Name("__all__"));
    assert ToNames(["__all__"]) == {"__all__"};
  }

  // ---------- through an import ----------

  /** `__all__ = [*names]`, with whatever list that is. */
  function Unpacks(name: string, line: nat): Stmt { Binding("__all__", [Starred(Name(name))], line) }

  function Appends(name: string): Stmt
  {
    ExprStmt(Call(Attribute(Name(name), "append"), [Str("X", 3)], []), 3)
  }

  const SELF_IMPORT := ImportFrom(0, Some("vidbyte"), [Alias("names", Some("other"))])

  /**
    `names = ["A"]`, `from vidbyte import names as other`, `other.append("X")`, `__all__ = [*names]`
    in the initialiser of `vidbyte` itself.
   */
  const SELF := [FIRST, SELF_IMPORT, Appends("other"), Unpacks("names", 4)]

  lemma UnpacksAll(ctx: Context, name: string, line: nat, w: Walk, names: seq<Export>)
    requires line > 0 && name != "__all__" && Named(ctx, name, w.current, w.b) == Some(names)
    ensures Advance(ctx, REL, Unpacks(name, line), w) == Some(Walk(Some(names), w.b, if w.firstLine != 0 then w.firstLine else line))
  {
    OneItemDisplay(ctx, REL, Starred(Name(name)), w.current, w.b);
    AssignsAll(ctx, REL, Listing([Starred(Name(name))]), line, w);
  }

  lemma FourWalked(ctx: Context, stmts: seq<Stmt>, w0: Walk, w1: Walk, w2: Walk, w3: Walk, w4: Walk)
    requires |stmts| == 4 && Advance(ctx, REL, stmts[0], w0) == Some(w1) && Advance(ctx, REL, stmts[1], w1) == Some(w2)
    requires Advance(ctx, REL, stmts[2], w2) == Some(w3) && Advance(ctx, REL, stmts[3], w3) == Some(w4)
    ensures Body(ctx, REL, stmts, w0) == Some(w4)
  {
    assert stmts[3..] == [stmts[3]] && [stmts[3]][1..] == [] && Body(ctx, REL, [], w4) == Some(w4);
    assert Body(ctx, REL, stmts[3..], w3) == Some(w4);
    assert stmts[2..][1..] == stmts[3..] && Body(ctx, REL, stmts[2..], w2) == Some(w4);
    assert stmts[1..][1..] == stmts[2..] && Body(ctx, REL, stmts[1..], w1) == Some(w4);
  }

  lemma FourExecuted(known: Known, stmts: seq<Stmt>, e0: Env, e1: Env, e2: Env, e3: Env, e4: Env)
    requires |stmts| == 4 && Execute(known, REL, stmts[0], e0) == Some(e1) && Execute(known, REL, stmts[1], e1) == Some(e2)
    requires Execute(known, REL, stmts[2], e2) == Some(e3) && Execute(known, REL, stmts[3], e3) == Some(e4)
    ensures ExecuteAll(known, REL, stmts, e0) == Some(e4)
  {
    assert stmts[3..] == [stmts[3]] && [stmts[3]][1..] == [] && ExecuteAll(known, REL, [], e4) == Some(e4);
    assert ExecuteAll(known, REL, stmts[3..], e3) == Some(e4);
    assert stmts[2..][1..] == stmts[3..] && ExecuteAll(known, REL, stmts[2..], e2) == Some(e4);
    assert stmts[1..][1..] == stmts[2..] && ExecuteAll(known, REL, stmts[1..], e1) == Some(e4);
  }

  /** Importing another name of the package changes nothing the resolver has recorded. */
  lemma SelfImportIsIgnored(ctx: Context, w: Walk)
    requires ctx.tracked == {REL} && "other" !in w.b.sequences
    ensures Advance(ctx, REL, SELF_IMPORT, w) == Some(w)
  {
    var a := Alias("names", Some("other"));
    NamesIsNoModule();
    assert w.b.sequences - {"other"} == w.b.sequences;
    assert RecordAlias(ctx.tracked, "vidbyte", a, w.b) == w.b && [a][1..] == [];
    assert RecordAliases(ctx.tracked, "vidbyte", [a], w.b) == w.b;
  }

  lemma ResolverSeesSelf(ctx: Context)
    requires ctx.tracked == {REL}
    ensures Finish(Body(ctx, REL, SELF, START)) == Some(Resolution([A], 4))
  {
    var b := Bindings(map["names" := Some([A])], map[], map[]);
    var w := Walk(None, b, 0);
    FirstIsWalked(ctx, REL);
    SelfImportIsIgnored(ctx, w);
    assert Advance(ctx, REL, Appends("other"), w) == Some(w);
    UnpacksAll(ctx, "names", 4, w, [A]);
    FourWalked(ctx, SELF, START, w, w, w, Walk(Some([A]), b, 4));
  }

  lemma FirstIsWalked(ctx: Context, rel: string)
    ensures var b := Bindings(map["names" := Some([Export("A", Origin(rel, 1))])], map[], map[]);
      Advance(ctx, rel, FIRST, START) == Some(Walk(None, b, 0))
  {
    OneItemDisplay(ctx, rel, Str("A", 1), None, START.b);
    OneTarget(Name("names"));
    BindNamesOfOne(ctx, rel, "names", Some(Listing([Str("A", 1)])), None, START.b);
  }

  /** Unpacking a name of which nothing is known. */
  lemma UnknownIsUnpacked(known: Known, name: string, line: nat, env: Env)
    requires Lookup(env, name).Unknown?
    ensures Execute(known, REL, Unpacks(name, line), env) == Some(env["__all__" := Unknown])
  {
    var e := Starred(Name(name));
    assert [e][0] == e && EvaluateItem(known, env, e).Unknown?;
    assert EvaluateItems(known, env, [e]) == Join2(EvaluateItem(known, env, [e][0]), EvaluateItems(known, env, [e][1..]));
  }

  lemma SelfIsUnknown(known: Known)
    requires "names" in known.escapes.lists && ForeignFinal(known, "vidbyte") == Ends(Unknown)
    requires ModuleRel(known.tracked, "vidbyte" + "." + "names").None?
    ensures ExecuteAll(known, REL, SELF, map[]).Some?
    ensures Lookup(ExecuteAll(known, REL, SELF, map[]).value, "__all__").Unknown?
  {
    var one: Env := map["names" := Unknown];
    PythonHides(known, REL, map[]);
    var a := Alias("names", Some("other"));
    var v := Imported(known, "vidbyte", a);
    assert v.Ends? && [a][1..] == [];
    var two := Bind(known, one, "other", v.value);
    assert ImportNames(known, "vidbyte", [a], one) == Some(two) && !two["other"].Names?;
    assert Execute(known, REL, SELF_IMPORT, one) == Some(two);
    assert Execute(known, REL, Appends("other"), two) == Some(two);
    UnknownIsUnpacked(known, "names", 4, two);
    FourExecuted(known, SELF, map[], one, two, two, two["__all__" := Unknown]);
  }

  lemma PythonHides(known: Known, rel: string, env: Env)
    requires "names" in known.escapes.lists
    ensures Execute(known, rel, FIRST, env) == Some(env["names" := Unknown])
  {
    var e := Str("A", 1);
    assert [e][0] == e && [e][1..] == [] && EvaluateItems(known, env, [e][1..]) == Names([], true) && ["A"] + [] == ["A"];
    assert OneName([Name("names")]);
  }

  /** Whoever says what the module reaches says that it reaches its own list. */
  lemma SelfReachesNames(reach: Reach)
    requires Covers(reach, SELF)
    ensures "names" in reach.changed
  {
    assert SELF_IMPORT in SELF && Alias("names", Some("other")) in SELF_IMPORT.names;
    assert Appends("other") in SELF && "other" in Changed(Appends("other"));
    assert GivesAway(SELF, "other");
  }

  /** The resolver answers A alone, where Python's list also has X. */
  lemma SelfImportDropsName(reach: Reach)
    requires Covers(reach, SELF)
    ensures Outcome(Tree(SELF), REL, {}) == Some(Resolution([A], 4))
    ensures Meaning(Tree(SELF), reach, REL, {}) == Ends(Unknown)
    ensures forall any :: !Traceable(Tree(SELF).Keys, any, REL, SELF)
  {
    ResolverSeesSelf(ContextOf(SELF));
    OutcomeOf(SELF);
    SelfReachesNames(reach);
    PackageIsUnknown(reach);
    NamesIsNoModule();
    SelfIsUnknown(KnownOf(reach, SELF));
    MeaningOf(reach, SELF);
    forall any ensures !Traceable(Tree(SELF).Keys, any, REL, SELF) {
      SelfIsNotTraceable(any);
    }
  }

  lemma PackageIsUnknown(reach: Reach)
    ensures ForeignFinal(KnownOf(reach, SELF), "vidbyte") == Ends(Unknown)
  {
    assert Replace("vidbyte", '.', '/') == "vidbyte";
    assert "vidbyte" + "/__init__.py" == REL && {} + {REL} == {REL};
    assert KnownOf(reach, SELF).finals[REL] == Meaning(Tree(SELF), reach, REL, {REL});
  }

  lemma NamesIsNoModule()
    ensures ModuleRel({REL}, "vidbyte" + "." + "names").None?
  {
    assert |Replace("vidbyte" + "." + "names", '.', '/')| == 13;
  }

  lemma SelfIsNotTraceable(reach: Reach)
    ensures !Traceable(Tree(SELF).Keys, reach, REL, SELF)
  {
    if Covers(reach, SELF) {
      SelfReachesNames(reach);
      OneTarget(Name("names"));
      assert "names" in ToNames(["names"]) && "names" in ListNames(REL, FIRST) && FIRST in SELF;
    }
  }

  // ---------- through an import of another module ----------

  const OWNER_REL := "vidbyte/a.py"

  const OWNED := [Export("A", Origin(OWNER_REL, 1))]

  /** `names = ["A"]`, `__all__ = names`. */
  const OWNER := [FIRST, Assign([Name("__all__")], Name("names"), 2)]

  const IMPORT_NAMES := ImportFrom(0, Some("vidbyte.a"), [Alias("names", None)])
  const IMPORT_ALL := ImportFrom(0, Some("vidbyte.a"), [Alias("__all__", Some("q"))])

  /**
    `from vidbyte.a import names`, `names.append("X")`, `from vidbyte.a import __all__ as q`,
    `__all__ = [*q]`.
   */
  const USER := [IMPORT_NAMES, Appends("names"), IMPORT_ALL, Unpacks("q", 4)]

  const PAIR: Modules := map[REL := Some(USER), OWNER_REL := Some(OWNER)]

  lemma OwnerIsFound()
    ensures ModuleRel(PAIR.Keys, "vidbyte.a") == Some(OWNER_REL)
    ensures ModuleRel(PAIR.Keys, "vidbyte.a" + "." + "names").None?
  {
    assert Replace("vidbyte.a", '.', '/') == "vidbyte/a" && "vidbyte/a" + ".py" == OWNER_REL;
    assert "vidbyte/a" + "/__init__.py" !in PAIR.Keys;
    assert |Replace("vidbyte.a" + "." + "names", '.', '/')| == 15;
  }

  lemma OwnerResolves()
    ensures Outcome(PAIR, OWNER_REL, {REL}) == Some(Resolution(OWNED, 2))
  {
    var ctx := Context(PAIR.Keys, Outcomes(PAIR, OWNER_REL, {REL}));
    var w := Walk(None, Bindings(map["names" := Some(OWNED)], map[], map[]), 0);
    FirstIsWalked(ctx, OWNER_REL);
    AssignsAll(ctx, OWNER_REL, Name("names"), 2, w);
    assert OWNER[1..][1..] == [] && OWNER[1..][0] == OWNER[1];
    assert Body(ctx, OWNER_REL, [], Walk(Some(OWNED), w.b, 2)) == Some(Walk(Some(OWNED), w.b, 2));
    assert Body(ctx, OWNER_REL, OWNER[1..], w) == Some(Walk(Some(OWNED), w.b, 2));
  }

  lemma ResolverSeesOwned(ctx: Context)
    requires ctx.tracked == PAIR.Keys && Foreign(ctx, "vidbyte.a") == Some(OWNED)
    ensures Finish(Body(ctx, REL, USER, START)) == Some(Resolution(OWNED, 4))
  {
    var b := Bindings(map[], map["q" := "vidbyte.a"], map[]);
    OwnerIsFound();
    var plain, all := Alias("names", None), Alias("__all__", Some("q"));
    assert START.b.sequences - {"names"} == map[] && START.b.sequences - {"q"} == map[];
    assert RecordAlias(ctx.tracked, "vidbyte.a", plain, START.b) == START.b && [plain][1..] == [];
    assert RecordAliases(ctx.tracked, "vidbyte.a", [plain], START.b) == START.b;
    assert RecordAlias(ctx.tracked, "vidbyte.a", all, START.b) == b && [all][1..] == [];
    assert RecordAliases(ctx.tracked, "vidbyte.a", [all], START.b) == b;
    var w := Walk(None, b, 0);
    UnpacksAll(ctx, "q", 4, w, OWNED);
    FourWalked(ctx, USER, START, START, START, w, Walk(Some(OWNED), b, 4));
  }

  lemma UserReachesNames(reach: Reach)
    requires Covers(reach, USER)
    ensures "names" in reach.changed
  {
    assert IMPORT_NAMES in USER && Alias("names", None) in IMPORT_NAMES.names;
    assert Appends("names") in USER && "names" in Changed(Appends("names"));
    assert GivesAway(USER, "names");
  }

  lemma OwnerIsUnknown(reach: Reach)
    requires "names" in reach.changed
    ensures Meaning(PAIR, reach, OWNER_REL, {REL}) == Ends(Unknown)
  {
    var known := Known(PAIR.Keys, Meanings(PAIR, reach, OWNER_REL, {REL}), EscapesOf(reach, OWNER));
    var one: Env := map["names" := Unknown];
    PythonHides(known, OWNER_REL, map[]);
    assert Execute(known, OWNER_REL, OWNER[1], one) == Some(one["__all__" := Unknown]);
    assert OWNER[1..][1..] == [] && OWNER[1..][0] == OWNER[1];
    assert ExecuteAll(known, OWNER_REL, [], one["__all__" := Unknown]) == Some(one["__all__" := Unknown]);
    assert ExecuteAll(known, OWNER_REL, OWNER[1..], one) == Some(one["__all__" := Unknown]);
  }

  lemma UserIsUnknown(known: Known)
    requires known.tracked == PAIR.Keys && ForeignFinal(known, "vidbyte.a") == Ends(Unknown)
    ensures ExecuteAll(known, REL, USER, map[]).Some?
    ensures Lookup(ExecuteAll(known, REL, USER, map[]).value, "__all__").Unknown?
  {
    OwnerIsFound();
    var one: Env := map["names" := Unknown];
    var two := one["q" := Unknown];
    var plain, all := Alias("names", None), Alias("__all__", Some("q"));
    assert [plain][1..] == [] && Imported(known, "vidbyte.a", plain) == Ends(Unknown);
    assert [all][1..] == [] && Imported(known, "vidbyte.a", all) == Ends(Unknown);
    assert ImportNames(known, "vidbyte.a", [plain], map[]) == Some(one);
    assert ImportNames(known, "vidbyte.a", [all], one) == Some(two);
    UnknownIsUnpacked(known, "q", 4, two);
    FourExecuted(known, USER, map[], one, one, two, two["__all__" := Unknown]);
  }

  /** The resolver answers A alone, where both lists in Python also have X. */
  lemma ImportedListDropsName(reach: Reach)
    requires Covers(reach, USER)
    ensures Outcome(PAIR, REL, {}) == Some(Resolution(OWNED, 4))
    ensures Meaning(PAIR, reach, REL, {}) == Ends(Unknown)
    ensures forall any :: !(Traceable(PAIR.Keys, any, REL, USER) && Traceable(PAIR.Keys, any, OWNER_REL, OWNER))
  {
    PairResolves();
    UserReachesNames(reach);
    PairIsUnknown(reach);
    forall any ensures !(Traceable(PAIR.Keys, any, REL, USER) && Traceable(PAIR.Keys, any, OWNER_REL, OWNER)) {
      PairIsNotTraceable(any);
    }
  }

  lemma PairResolves()
    ensures Outcome(PAIR, REL, {}) == Some(Resolution(OWNED, 4))
  {
    assert {} + {REL} == {REL};
    OwnerIsFound();
    OwnerResolves();
    ResolverSeesOwned(Context(PAIR.Keys, Outcomes(PAIR, REL, {})));
  }

  lemma PairIsUnknown(reach: Reach)
    requires "names" in reach.changed
    ensures Meaning(PAIR, reach, REL, {}) == Ends(Unknown)
  {
    assert {} + {REL} == {REL};
    OwnerIsFound();
    OwnerIsUnknown(reach);
    UserIsUnknown(Known(PAIR.Keys, Meanings(PAIR, reach, REL, {}), EscapesOf(reach, USER)));
  }

  lemma PairIsNotTraceable(reach: Reach)
    ensures !(Traceable(PAIR.Keys, reach, REL, USER) && Traceable(PAIR.Keys, reach, OWNER_REL, OWNER))
  {
    if Covers(reach, USER) {
      UserReachesNames(reach);
      OneTarget(Name("names"));
      assert "names" in ToNames(["names"]) && "names" in ListNames(OWNER_REL, FIRST) && FIRST in OWNER;
    }
  }

  /** Nor is a list reached as an attribute missed, as in `m.names.append("X")` or `m.names += ["X"]`. */
  lemma AttributeListsAreReached(reach: Reach, stmts: seq<Stmt>, e: Expr, attr: string, name: string, args: seq<Expr>, line: nat)
    requires Covers(reach, stmts)
    requires ExprStmt(Call(Attribute(Attribute(e, attr), name), args, []), line) in stmts
          || (exists op, value :: AugAssign(Attribute(e, attr), op, value, line) in stmts)
    ensures attr in reach.changed
  {
    LentIsUnion(HeldForeign, stmts);
    var list := Attribute(e, attr);
    assert attr in Lent(HeldForeign, list);
    var call := Call(Attribute(list, name), args, []);
    assert !IsListMethod(call) && Lent(HeldForeign, Attribute(list, name)) <= Lent(HeldForeign, call);
    if op, value :| AugAssign(list, op, value, line) in stmts {
      assert [list][0] == list && LentByAll(HeldForeign, [list]) == Lent(HeldForeign, list) + LentByAll(HeldForeign, [list][1..]);
      assert attr in Lends(HeldForeign, AugAssign(list, op, value, line));
    }
  }
}
