/**
  What one statement does to the resolver's state, stated on the shape of the statement: which
  forms stop the walk, what `__all__` becomes and on which line, and what every name stands for
  afterwards. An expression's list depends on nothing but the names in it.
 */
module ResolverSteps {
  import opened Prelude
  import opened ModuleSyntax
  import opened ModuleEvaluation
  import opened AllResolution
  import opened NameLending
  import opened PythonMeaning

  // ---------- compound statements and definitions ----------

  /** A compound statement is refused exactly for what it does with `__all__`, and else changes nothing. */
  lemma CompoundIsPassedOrRefused(ctx: Context, rel: string, inner: seq<Inner>, w: Walk)
    ensures Advance(ctx, rel, OtherStmt(inner), w) ==
      if || (exists names :: (Target(names) in inner || GlobalDeclaration(names) in inner) && "__all__" in names)
         || (exists attr :: AttributeOn("__all__", attr) in inner)
      then None else Some(w)
  {
    HiddenIsSpelled(OtherStmt(inner));
  }

  lemma {:induction false} EveryStatementIsWalked(ctx: Context, rel: string, stmts: seq<Stmt>, w: Walk, stmt: Stmt)
    requires Body(ctx, rel, stmts, w).Some? && stmt in stmts
    ensures exists before :: Advance(ctx, rel, stmt, before).Some?
    decreases |stmts|
  {
    if stmt != stmts[0] {
      EveryStatementIsWalked(ctx, rel, stmts[1..], Advance(ctx, rel, stmts[0], w).value, stmt);
    }
  }

  /** Where `__all__` resolves, no compound statement stores, deletes or declares it, or uses an attribute of it. */
  lemma ResolvedHidesNothing(mods: Modules, rel: string, chain: set<string>, stmt: Stmt)
    requires Outcome(mods, rel, chain).Some? && stmt in mods[rel].value && stmt.OtherStmt?
    ensures forall names :: Target(names) in stmt.inner || GlobalDeclaration(names) in stmt.inner ==> "__all__" !in names
    ensures forall attr :: AttributeOn("__all__", attr) !in stmt.inner
  {
    var ctx := Context(mods.Keys, Outcomes(mods, rel, chain));
    EveryStatementIsWalked(ctx, rel, mods[rel].value, START, stmt);
    var w :| Advance(ctx, rel, stmt, w).Some?;
    CompoundIsPassedOrRefused(ctx, rel, stmt.inner, w);
  }

  // ---------- what a name stands for ----------

  ghost predicate StandsAlike(b: Bindings, b': Bindings, n: string)
  {
    && (n in b'.sequences <==> n in b.sequences) && (n in b.sequences ==> b'.sequences[n] == b.sequences[n])
    && (n in b'.importedAll <==> n in b.importedAll) && (n in b.importedAll ==> b'.importedAll[n] == b.importedAll[n])
    && (n in b'.aliases <==> n in b.aliases) && (n in b.aliases ==> b'.aliases[n] == b.aliases[n])
  }

  lemma {:induction false} OnlyItsNamesMatter(ctx: Context, rel: string, e: Expr, current: Option<seq<Export>>,
      b: Bindings, b': Bindings)
    requires forall n :: n in NamesIn(e) ==> StandsAlike(b, b', n)
    ensures Sequence(ctx, rel, e, current, b') == Sequence(ctx, rel, e, current, b)
    ensures Element(ctx, rel, e, current, b') == Element(ctx, rel, e, current, b)
    decreases e
  {
    match e
    case Listing(elts) => OnlyTheirNamesMatter(ctx, rel, elts, current, b, b');
    case BinOp(left, _, right) =>
      OnlyItsNamesMatter(ctx, rel, left, current, b, b');
      OnlyItsNamesMatter(ctx, rel, right, current, b, b');
    case Call(_, args, _) => OnlyTheirNamesMatter(ctx, rel, args, current, b, b');
    case Name(id) => assert id in NamesIn(e);
    case Attribute(value, _) => assert value.Name? ==> value.id in NamesIn(e);
    case Starred(value) => OnlyItsNamesMatter(ctx, rel, value, current, b, b');
    case _ =>
  }

  lemma {:induction false} OnlyTheirNamesMatter(ctx: Context, rel: string, es: seq<Expr>, current: Option<seq<Export>>,
      b: Bindings, b': Bindings)
    requires forall n :: n in NamesInAll(es) ==> StandsAlike(b, b', n)
    ensures Elements(ctx, rel, es, current, b') == Elements(ctx, rel, es, current, b)
    ensures es != [] ==> Sequence(ctx, rel, es[0], current, b') == Sequence(ctx, rel, es[0], current, b)
    decreases es
  {
    if es != [] {
      OnlyItsNamesMatter(ctx, rel, es[0], current, b, b');
      OnlyTheirNamesMatter(ctx, rel, es[1..], current, b, b');
    }
  }

  /** The exports that string literals spell, each with its file and line. */
  function Spelled(rel: string, elts: seq<Expr>): (exports: seq<Export>)
    requires forall k :: 0 <= k < |elts| ==> elts[k].Str?
    ensures |exports| == |elts|
    ensures forall k :: 0 <= k < |elts| ==> exports[k] == Export(elts[k].text, Origin(rel, elts[k].line))
  {
    seq(|elts|, k requires 0 <= k < |elts| => Export(elts[k].text, Origin(rel, elts[k].line)))
  }

  /** A display of string literals lists them in order. */
  lemma {:induction false} DisplaysListTheirLiterals(ctx: Context, rel: string, elts: seq<Expr>, current: Option<seq<Export>>,
      b: Bindings)
    requires forall k :: 0 <= k < |elts| ==> elts[k].Str?
    ensures Sequence(ctx, rel, Listing(elts), current, b) == Some(Spelled(rel, elts))
    decreases |elts|
  {
    if elts == [] {
      assert Spelled(rel, elts) == [] && Elements(ctx, rel, elts, current, b) == Some([]);
    } else {
      DisplaysListTheirLiterals(ctx, rel, elts[1..], current, b);
      assert Spelled(rel, elts) == [Export(elts[0].text, Origin(rel, elts[0].line))] + Spelled(rel, elts[1..]);
      assert Elements(ctx, rel, elts[1..], current, b) == Some(Spelled(rel, elts[1..]));
      assert Elements(ctx, rel, elts, current, b) == Some(Spelled(rel, elts));
    }
  }

  /** `list(x)`, `tuple(x)` and `sorted(x)` are the only calls that are read, and are read as `x`. */
  lemma OnlyCopyingCallsAreRead(ctx: Context, rel: string, func: Expr, args: seq<Expr>, keywords: seq<Expr>,
      current: Option<seq<Export>>, b: Bindings)
    ensures Sequence(ctx, rel, Call(func, args, keywords), current, b)
         == if func in [Name("list"), Name("tuple"), Name("sorted")] && |args| == 1 && keywords == []
            then Sequence(ctx, rel, args[0], current, b) else None
  {}

  // ---------- assignments ----------

  /** These names stand for lists or stored failures now, and every other name stands for what it did. */
  ghost predicate OnlyBinds(names: set<string>, b: Bindings, b': Bindings)
  {
    forall n :: if n in names then n in b'.sequences && n !in b'.importedAll && n !in b'.aliases else StandsAlike(b, b', n)
  }

  lemma {:induction false} BindNamesBindsOnly(ctx: Context, rel: string, names: seq<string>, value: Option<Expr>,
      current: Option<seq<Export>>, b: Bindings)
    ensures var b' := BindNames(ctx, rel, names, value, current, b);
      OnlyBinds(ToNames(names), b, b') && (value.None? ==> forall n :: n in names ==> b'.sequences[n].None?)
    decreases |names|
  {
    if names != [] {
      BindNamesBindsOnly(ctx, rel, names[1..], value, current, BindName(ctx, rel, names[0], value, current, b));
      assert forall n :: n in names <==> n == names[0] || n in names[1..];
    }
  }

  /** A value that names none of the targets is read as it was before the statement, for every target. */
  lemma {:induction false} BindNamesReadsBefore(ctx: Context, rel: string, names: seq<string>, value: Expr,
      current: Option<seq<Export>>, b: Bindings, n: string)
    requires NamesIn(value) !! ToNames(names) && n in names
    ensures var b' := BindNames(ctx, rel, names, Some(value), current, b);
      n in b'.sequences && b'.sequences[n] == Sequence(ctx, rel, value, current, b)
    decreases |names|
  {
    var b1, unbound := BindName(ctx, rel, names[0], Some(value), current, b), Unbound(b, names[0]);
    assert names[0] in ToNames(names);
    OnlyItsNamesMatter(ctx, rel, value, current, b, unbound);
    OnlyItsNamesMatter(ctx, rel, value, current, b, b1);
    if n in names[1..] {
      BindNamesReadsBefore(ctx, rel, names[1..], value, current, b1, n);
    } else {
      BindNamesBindsOnly(ctx, rel, names[1..], Some(value), current, b1);
      assert n !in ToNames(names[1..]);
    }
  }

  lemma {:induction false} PlainNamesAreTargets(targets: seq<Expr>)
    ensures forall n :: n in PlainNames(targets) <==> Name(n) in targets
    decreases |targets|
  {
    if targets != [] {
      PlainNamesAreTargets(targets[1..]);
      assert forall t :: t in targets <==> t == targets[0] || t in targets[1..];
    }
  }

  function FirstLine(w: Walk, line: nat): nat { if w.firstLine == 0 then line else w.firstLine }

  lemma {:induction false} NamedInAll(targets: seq<Expr>)
    ensures "__all__" in NamesInAll(targets) <==> exists t :: t in targets && "__all__" in NamesIn(t)
    decreases |targets|
  {
    if targets != [] {
      NamedInAll(targets[1..]);
      assert targets[0] in targets;
      assert forall t :: t in targets <==> t == targets[0] || t in targets[1..];
    }
  }

  /** `__all__` is bound by one plain assignment of a readable list only, and then nothing else is. */
  lemma AllIsBoundPlainly(ctx: Context, rel: string, stmt: Stmt, w: Walk)
    requires (stmt.Assign? && exists t :: t in stmt.targets && "__all__" in NamesIn(t))
          || (stmt.AnnAssign? && "__all__" in NamesIn(stmt.target))
    ensures var value := if stmt.Assign? then Some(stmt.value) else stmt.annotated;
      var plain := if stmt.Assign? then stmt.targets == [Name("__all__")] else stmt.target == Name("__all__");
      Advance(ctx, rel, stmt, w) ==
        if plain && value.Some? && Sequence(ctx, rel, value.value, w.current, w.b).Some?
        then Some(Walk(Sequence(ctx, rel, value.value, w.current, w.b), w.b, FirstLine(w, stmt.line))) else None
  {
    NamedInAll(Targets(stmt));
    MentionedInAll(Targets(stmt));
    if |Targets(stmt)| == 1 {
      assert Targets(stmt) == [Targets(stmt)[0]];
      OneTarget(Targets(stmt)[0]);
    }
    if Targets(stmt) == [Name("__all__")] {
      assert "__all__" in NamesIn(Targets(stmt)[0]);
    }
  }

  /** Any other assignment is walked, leaves `__all__` alone and binds its plain targets to what the value lists. */
  lemma OtherNamesAreBound(ctx: Context, rel: string, stmt: Stmt, w: Walk)
    requires (stmt.Assign? && forall t :: t in stmt.targets ==> "__all__" !in NamesIn(t))
          || (stmt.AnnAssign? && "__all__" !in NamesIn(stmt.target))
    ensures var next := Advance(ctx, rel, stmt, w);
      var bound := set n | n in NamesInAll(Targets(stmt)) && Name(n) in Targets(stmt);
      var value := if stmt.Assign? then Some(stmt.value) else stmt.annotated;
      && next.Some? && next.value.current == w.current && next.value.firstLine == w.firstLine
      && OnlyBinds(bound, w.b, next.value.b)
      && (value.None? ==> forall n :: n in bound ==> next.value.b.sequences[n].None?)
      && (value.Some? && NamesIn(value.value) !! bound ==>
            forall n :: n in bound ==> next.value.b.sequences[n] == Sequence(ctx, rel, value.value, w.current, w.b))
  {
    var targets := Targets(stmt);
    NamedInAll(targets);
    MentionedInAll(targets);
    if stmt.AnnAssign? { OneTarget(stmt.target); }
    PlainNamesAreTargets(targets);
    PlainNamesAreNamed(targets);
    var bound := set n | n in NamesInAll(targets) && Name(n) in targets;
    assert bound == ToNames(PlainNames(targets)) by {
      forall n | n in PlainNames(targets) ensures n in NamesInAll(targets) { assert n in ToNames(PlainNames(targets)); }
    }
    BindNamesBindsOnly(ctx, rel, PlainNames(targets), Value(stmt), w.current, w.b);
    if Value(stmt).Some? && NamesIn(Value(stmt).value) !! bound {
      forall n | n in bound
        ensures BindNames(ctx, rel, PlainNames(targets), Value(stmt), w.current, w.b).sequences[n]
             == Sequence(ctx, rel, Value(stmt).value, w.current, w.b)
      {
        BindNamesReadsBefore(ctx, rel, PlainNames(targets), Value(stmt).value, w.current, w.b, n);
      }
    }
  }

  /** A name may be rebound in terms of itself, but not in terms of the import it hides. */
  lemma NameIsReboundFromItself(ctx: Context, rel: string, n: string, value: Expr, line: nat, w: Walk)
    requires n != "__all__"
    ensures var next := Advance(ctx, rel, Assign([Name(n)], value, line), w);
      var hidden := Bindings(w.b.sequences, w.b.importedAll - {n}, w.b.aliases - {n});
      next.Some? && next.value.b == hidden.(sequences := w.b.sequences[n := Sequence(ctx, rel, value, w.current, hidden)])
  {
    OneTarget(Name(n));
    BindNamesOfOne(ctx, rel, n, Some(value), w.current, w.b);
  }

  /** `+=` is read on `__all__` once it is bound; on any other target it changes nothing, and any other operator is refused. */
  lemma AugmentedStep(ctx: Context, rel: string, target: Expr, op: Operator, value: Expr, line: nat, w: Walk)
    ensures Advance(ctx, rel, AugAssign(target, op, value, line), w) ==
      if "__all__" !in NamesIn(target) then Some(w)
      else if op == Add && w.current.Some? && Sequence(ctx, rel, value, w.current, w.b).Some?
      then Some(Walk(Some(w.current.value + Sequence(ctx, rel, value, w.current, w.b).value), w.b, FirstLine(w, line)))
      else None
  {
    MentionsAllIsNamed(target);
  }

  /** Of the methods of `__all__`, `extend` adds a list and `append` an item; every other call is refused. */
  lemma MethodOfAllStep(ctx: Context, rel: string, name: string, args: seq<Expr>, keywords: seq<Expr>, line: nat, w: Walk)
    ensures var added :=
        if |args| != 1 || keywords != [] then None
        else if name == "extend" then Sequence(ctx, rel, args[0], w.current, w.b)
        else if name == "append" then Element(ctx, rel, args[0], w.current, w.b)
        else None;
      Advance(ctx, rel, ExprStmt(Call(Attribute(Name("__all__"), name), args, keywords), line), w) ==
        if w.current.Some? && added.Some? then Some(Walk(Some(w.current.value + added.value), w.b, FirstLine(w, line))) else None
  {
    if |args| == 1 {
      OneItemDisplay(ctx, rel, args[0], w.current, w.b);
    }
  }

  /** Any other expression statement changes nothing. */
  lemma OtherExpressionStep(ctx: Context, rel: string, e: Expr, line: nat, w: Walk)
    requires !(e.Call? && e.func.Attribute? && e.func.value == Name("__all__"))
    ensures Advance(ctx, rel, ExprStmt(e, line), w) == Some(w)
  {}

  // ---------- imports ----------

  function SpelledBound(a: Alias): string { if a.asname.None? then a.name else a.asname.value }

  predicate IsAllOf(base: string, a: Alias, n: string)
  {
    SpelledBound(a) == n && a.name == "__all__" && base != []
  }

  /** A from-import makes the names it binds no lists any more, and an imported `__all__` stand for that of the module. */
  lemma {:induction false} FromImportStep(tracked: set<string>, base: string, names: seq<Alias>, b: Bindings, n: string)
    ensures var b' := RecordAliases(tracked, base, names, b);
      && (n in b'.sequences <==> n in b.sequences && forall a :: a in names ==> SpelledBound(a) != n)
      && (n in b'.sequences ==> b'.sequences[n] == b.sequences[n])
      && (n in b'.importedAll <==> n in b.importedAll || exists a :: a in names && IsAllOf(base, a, n))
      && (n in b'.importedAll ==>
            b'.importedAll[n] == if exists a :: a in names && IsAllOf(base, a, n) then base else b.importedAll[n])
    decreases |names|
  {
    if names != [] {
      FromImportStep(tracked, base, names[1..], RecordAlias(tracked, base, names[0], b), n);
      assert names[0] in names && forall x :: x in names <==> x == names[0] || x in names[1..];
    }
  }

  /** The name stands for a tracked module of the package. */
  predicate IsModuleOf(tracked: set<string>, base: string, a: Alias, n: string)
  {
    SpelledBound(a) == n && a.name != "__all__" && base != [] && ModuleRel(tracked, base + "." + a.name).Some?
  }

  /** The last of the imported names that stands for such a module. */
  ghost predicate IsLastModule(tracked: set<string>, base: string, names: seq<Alias>, n: string, k: nat)
  {
    && k < |names| && IsModuleOf(tracked, base, names[k], n)
    && forall j :: k < j < |names| ==> !IsModuleOf(tracked, base, names[j], n)
  }

  lemma RestHasLast(tracked: set<string>, base: string, names: seq<Alias>, n: string, k: nat)
    requires names != [] && IsLastModule(tracked, base, names[1..], n, k)
    ensures IsLastModule(tracked, base, names, n, k + 1)
  {
    forall j | k + 1 < j < |names| ensures !IsModuleOf(tracked, base, names[j], n) { assert names[j] == names[1..][j - 1]; }
  }

  /** A from-import makes a name stand for a tracked submodule, the last one bound to it, and else for what it did. */
  lemma {:induction false} SubmoduleStep(tracked: set<string>, base: string, names: seq<Alias>, b: Bindings, n: string)
    returns (k: nat)
    ensures var b' := RecordAliases(tracked, base, names, b);
      if exists j :: 0 <= j < |names| && IsModuleOf(tracked, base, names[j], n)
      then IsLastModule(tracked, base, names, n, k) && n in b'.aliases && b'.aliases[n] == base + "." + names[k].name
      else (n in b'.aliases <==> n in b.aliases) && (n in b.aliases ==> b'.aliases[n] == b.aliases[n])
    decreases |names|
  {
    k := 0;
    if names != [] {
      var rest, b1 := names[1..], RecordAlias(tracked, base, names[0], b);
      var last := SubmoduleStep(tracked, base, rest, b1, n);
      if j :| 0 <= j < |rest| && IsModuleOf(tracked, base, rest[j], n) {
        k := last + 1;
        RestHasLast(tracked, base, names, n, last);
      } else {
        forall j | 0 < j < |names| ensures !IsModuleOf(tracked, base, names[j], n) { assert names[j] == rest[j - 1]; }
      }
    }
  }

  /** `import m as n` makes n stand for m, for the last one when n repeats; a plain import without `as` binds nothing. */
  lemma {:induction false} PlainImportStep(names: seq<Alias>, b: Bindings, n: string)
    ensures var b' := RecordPlainImports(names, b);
      && b'.sequences == b.sequences && b'.importedAll == b.importedAll
      && if exists a :: a in names && a.asname == Some(n) then
           exists k :: 0 <= k < |names| && names[k].asname == Some(n) && (forall j :: k < j < |names| ==> names[j].asname != Some(n))
                    && n in b'.aliases && b'.aliases[n] == names[k].name
         else (n in b'.aliases <==> n in b.aliases) && (n in b.aliases ==> b'.aliases[n] == b.aliases[n])
    decreases |names|
  {
    if names != [] {
      var rest, b1 := names[1..], RecordPlainImport(names[0], b);
      PlainImportStep(rest, b1, n);
      assert names[0] in names && forall x :: x in names <==> x == names[0] || x in rest;
      var b' := RecordPlainImports(names, b);
      if exists a :: a in rest && a.asname == Some(n) {
        var k :| 0 <= k < |rest| && rest[k].asname == Some(n) && (forall j :: k < j < |rest| ==> rest[j].asname != Some(n))
              && n in b'.aliases && b'.aliases[n] == rest[k].name;
        assert names[k + 1] == rest[k];
        forall j | k + 1 < j < |names| ensures names[j].asname != Some(n) { assert names[j] == rest[j - 1]; }
      } else {
        forall j | 0 < j < |names| ensures names[j].asname != Some(n) { assert names[j] == rest[j - 1]; }
      }
    }
  }

  /** `from m import __all__` and then `__all__ = [*__all__, ...]`: the names of m, and then the module's own. */
  lemma ReExportedAllIsExtended(ctx: Context, rel: string, level: nat, from: Option<string>, elts: seq<Expr>, line: nat,
      names: seq<Export>, w: Walk)
    requires AbsoluteModule(rel, level, from) != [] && Foreign(ctx, AbsoluteModule(rel, level, from)) == Some(names)
    requires w.current.None? && forall k :: 0 <= k < |elts| ==> elts[k].Str?
    ensures var imported := ImportFrom(level, from, [Alias("__all__", None)]);
      var extended := Assign([Name("__all__")], Listing([Starred(Name("__all__"))] + elts), line);
      var last := Body(ctx, rel, [imported, extended], w);
      last.Some? && last.value.current == Some(names + Spelled(rel, elts))
  {
    var base, all := AbsoluteModule(rel, level, from), Alias("__all__", None);
    var imported, value := ImportFrom(level, from, [all]), Listing([Starred(Name("__all__"))] + elts);
    var extended := Assign([Name("__all__")], value, line);
    var b := RecordAlias(ctx.tracked, base, all, w.b);
    assert [all][1..] == [] && RecordAliases(ctx.tracked, base, [all], w.b) == RecordAliases(ctx.tracked, base, [], b);
    assert Advance(ctx, rel, imported, w) == Some(Walk(None, b, w.firstLine));
    DisplaysListTheirLiterals(ctx, rel, elts, None, b);
    assert ([Starred(Name("__all__"))] + elts)[1..] == elts;
    assert Element(ctx, rel, Starred(Name("__all__")), None, b) == Some(names);
    assert Sequence(ctx, rel, value, None, b) == Some(names + Spelled(rel, elts));
    AllIsBoundPlainly(ctx, rel, extended, Walk(None, b, w.firstLine)) by {
      assert Name("__all__") in extended.targets && "__all__" in NamesIn(Name("__all__"));
    }
    assert [imported, extended][1..] == [extended] && [extended][1..] == [];
    var next := Advance(ctx, rel, extended, Walk(None, b, w.firstLine)).value;
    assert Body(ctx, rel, [], next) == Some(next);
    assert Body(ctx, rel, [extended], Walk(None, b, w.firstLine)) == Some(next);
  }

  /** Imports leave `__all__` alone and are never refused. */
  lemma ImportsAreWalked(ctx: Context, rel: string, stmt: Stmt, w: Walk)
    requires stmt.Import? || stmt.ImportFrom?
    ensures Advance(ctx, rel, stmt, w) == Some(Walk(w.current,
        if stmt.Import? then RecordPlainImports(stmt.names, w.b)
        else RecordAliases(ctx.tracked, AbsoluteModule(rel, stmt.level, stmt.from), stmt.names, w.b), w.firstLine))
  {}

  // ---------- the first line ----------

  /** The line of a statement that binds `__all__` or adds to it. */
  function ChangeLine(stmt: Stmt): Option<nat>
  {
    match stmt
    case Assign(targets, _, line) => if targets == [Name("__all__")] then Some(line) else None
    case AnnAssign(target, _, _, line) => if target == Name("__all__") then Some(line) else None
    case AugAssign(target, _, _, line) => if "__all__" in NamesIn(target) then Some(line) else None
    case ExprStmt(Call(Attribute(Name(id), _), _, _), line) => if id == "__all__" then Some(line) else None
    case _ => None
  }

  lemma StepKeepsFirstLine(ctx: Context, rel: string, stmt: Stmt, w: Walk)
    requires Advance(ctx, rel, stmt, w).Some?
    ensures var next, line := Advance(ctx, rel, stmt, w).value, ChangeLine(stmt);
      if line.None? then next.current == w.current && next.firstLine == w.firstLine
      else next.firstLine == FirstLine(w, line.value)
  {
    match stmt
    case Assign(targets, _, _) =>
      NamedInAll(targets);
      if exists t :: t in targets && "__all__" in NamesIn(t) {
        AllIsBoundPlainly(ctx, rel, stmt, w);
      } else {
        OtherNamesAreBound(ctx, rel, stmt, w);
      }
    case AnnAssign(target, _, _, _) =>
      if "__all__" in NamesIn(target) { AllIsBoundPlainly(ctx, rel, stmt, w); } else { OtherNamesAreBound(ctx, rel, stmt, w); }
    case AugAssign(target, op, value, line) => AugmentedStep(ctx, rel, target, op, value, line, w);
    case _ =>
  }

  /** No line so far, or the line of the first change among these statements. */
  ghost predicate FirstChange(stmts: seq<Stmt>, line: nat)
  {
    exists k :: 0 <= k < |stmts| && ChangeLine(stmts[k]) == Some(line) && forall j :: 0 <= j < k ==> ChangeLine(stmts[j]).None?
  }

  lemma {:induction false} BodyKeepsFirstLine(ctx: Context, rel: string, stmts: seq<Stmt>, w: Walk)
    requires Body(ctx, rel, stmts, w).Some? && forall s :: s in stmts ==> ChangeLine(s) != Some(0)
    ensures var last := Body(ctx, rel, stmts, w).value;
      if w.firstLine != 0 then last.firstLine == w.firstLine
      else (last.firstLine == 0 && last.current == w.current) || FirstChange(stmts, last.firstLine)
    decreases |stmts|
  {
    if stmts != [] {
      assert stmts[0] in stmts;
      StepKeepsFirstLine(ctx, rel, stmts[0], w);
      var next, last := Advance(ctx, rel, stmts[0], w).value, Body(ctx, rel, stmts, w).value;
      BodyKeepsFirstLine(ctx, rel, stmts[1..], next);
      if w.firstLine == 0 && ChangeLine(stmts[0]).Some? {
        assert FirstChange(stmts, last.firstLine);
      } else if w.firstLine == 0 && FirstChange(stmts[1..], last.firstLine) {
        var k :| 0 <= k < |stmts[1..]| && ChangeLine(stmts[1..][k]) == Some(last.firstLine)
              && forall j :: 0 <= j < k ==> ChangeLine(stmts[1..][j]).None?;
        assert ChangeLine(stmts[k + 1]) == Some(last.firstLine);
        forall j | 0 <= j < k + 1 ensures ChangeLine(stmts[j]).None? {
          if j > 0 { assert stmts[j] == stmts[1..][j - 1]; }
        }
      }
    }
  }

  /** The line recorded with a resolved list is that of the first statement that binds `__all__` or adds to it. */
  lemma FirstLineIsFirstChange(mods: Modules, rel: string, chain: set<string>)
    requires Outcome(mods, rel, chain).Some? && forall s :: s in mods[rel].value ==> ChangeLine(s) != Some(0)
    ensures FirstChange(mods[rel].value, Outcome(mods, rel, chain).value.firstLine)
  {
    BodyKeepsFirstLine(Context(mods.Keys, Outcomes(mods, rel, chain)), rel, mods[rel].value, START);
  }
}
