/**
  Programs on which resolution always succeeds: modules written in the supported constructs, whose
  followed imports lead to modules of lower rank. Nothing here evaluates a list; a scope only
  tells which names stand for one.
 */
module SupportedPrograms {
  import opened Prelude
  import opened ModuleSyntax
  import opened ModuleEvaluation

  /** Names of own lists, of imported `__all__` lists and of modules, and whether `__all__` is bound. */
  datatype Scope = Scope(own: set<string>, imported: set<string>, modules: set<string>, listed: bool) {
    function Without(n: string): Scope { Scope(own - {n}, imported - {n}, modules - {n}, listed) }
  }

  const NOTHING := Scope({}, {}, {}, false)

  /** Displays of strings and starred lists, `+`, `list`/`tuple`/`sorted`, names in scope and `module.__all__`. */
  predicate Supports(scope: Scope, e: Expr)
    decreases e
  {
    match e
    case Listing(elts) => SupportsItems(scope, elts)
    case BinOp(left, op, right) => op.Add? && Supports(scope, left) && Supports(scope, right)
    case Call(_, args, _) => IsSequenceCall(e) && Supports(scope, args[0])
    case Name(id) => if id == "__all__" then scope.listed else id in scope.own + scope.imported
    case Attribute(value, attr) => attr == "__all__" && value.Name? && value.id in scope.modules
    case _ => false
  }

  predicate SupportsItem(scope: Scope, e: Expr)
    decreases e
  {
    e.Str? || (e.Starred? && Supports(scope, e.value))
  }

  predicate SupportsItems(scope: Scope, elts: seq<Expr>)
    decreases elts
  {
    elts == [] || (SupportsItem(scope, elts[0]) && SupportsItems(scope, elts[1..]))
  }

  predicate Leads(tracked: set<string>, lower: set<string>, dotted: string)
  {
    ModuleRel(tracked, dotted).Some? && ModuleRel(tracked, dotted).value in lower
  }

  function AfterAlias(tracked: set<string>, lower: set<string>, base: string, a: Alias, scope: Scope): Scope
  {
    var n, rest := a.Bound(), scope.Without(a.Bound());
    if base == [] then rest
    else if a.name == "__all__" then if Leads(tracked, lower, base) then rest.(imported := rest.imported + {n}) else rest
    else if Leads(tracked, lower, base + "." + a.name) then rest.(modules := rest.modules + {n}) else rest
  }

  function AfterAliases(tracked: set<string>, lower: set<string>, base: string, names: seq<Alias>, scope: Scope): Scope
  {
    if names == [] then scope
    else AfterAliases(tracked, lower, base, names[1..], AfterAlias(tracked, lower, base, names[0], scope))
  }

  function AfterPlainImport(tracked: set<string>, lower: set<string>, a: Alias, scope: Scope): Scope
  {
    if a.asname.None? then scope
    else
      var rest := scope.Without(a.asname.value);
      if Leads(tracked, lower, a.name) then rest.(modules := rest.modules + {a.asname.value}) else rest
  }

  function AfterPlainImports(tracked: set<string>, lower: set<string>, names: seq<Alias>, scope: Scope): Scope
  {
    if names == [] then scope
    else AfterPlainImports(tracked, lower, names[1..], AfterPlainImport(tracked, lower, names[0], scope))
  }

  /** Assigning a name: an imported list or module of that name is gone before the value is read. */
  function AfterName(n: string, value: Option<Expr>, scope: Scope): Scope
  {
    var read := scope.(imported := scope.imported - {n}, modules := scope.modules - {n});
    if value.Some? && Supports(read, value.value) then read.(own := read.own + {n}) else scope.Without(n)
  }

  function AfterNames(names: seq<string>, value: Option<Expr>, scope: Scope): Scope
  {
    if names == [] then scope else AfterNames(names[1..], value, AfterName(names[0], value, scope))
  }

  /** The scope after a statement, or None for one that may not touch `__all__` the way it does. */
  function After(tracked: set<string>, lower: set<string>, rel: string, stmt: Stmt, scope: Scope): Option<Scope>
  {
    match stmt
    case Import(names) => Some(AfterPlainImports(tracked, lower, names, scope))
    case ImportFrom(level, from, names) => Some(AfterAliases(tracked, lower, AbsoluteModule(rel, level, from), names, scope))
    case AugAssign(target, op, value, _) =>
      if !MentionsAll(target) || (op.Add? && scope.listed && Supports(scope, value)) then Some(scope) else None
    case ExprStmt(value, _) =>
      if !MutatesAll(value) then Some(scope)
      else if value.func.attr !in {"extend", "append"} || |value.args| != 1 || value.keywords != [] || !scope.listed then None
      else if value.func.attr == "append" then if SupportsItem(scope, value.args[0]) then Some(scope) else None
      else if Supports(scope, value.args[0]) then Some(scope) else None
    case OtherStmt(_) => if HiddenMutation(stmt) then None else Some(scope)
    case _ =>
      if forall t :: t in Targets(stmt) ==> !MentionsAll(t) then Some(AfterNames(PlainNames(Targets(stmt)), Value(stmt), scope))
      else if Targets(stmt) == [Name("__all__")] && Value(stmt).Some? && Supports(scope, Value(stmt).value)
      then Some(scope.(listed := true)) else None
  }

  function AfterAll(tracked: set<string>, lower: set<string>, rel: string, stmts: seq<Stmt>, scope: Scope): Option<Scope>
  {
    if stmts == [] then Some(scope)
    else match After(tracked, lower, rel, stmts[0], scope)
      case None => None
      case Some(next) => AfterAll(tracked, lower, rel, stmts[1..], next)
  }

  /** A module of supported statements that binds `__all__` and reads only modules in `lower`. */
  predicate Supported(tracked: set<string>, lower: set<string>, rel: string, stmts: seq<Stmt>)
  {
    var last := AfterAll(tracked, lower, rel, stmts, NOTHING);
    last.Some? && last.value.listed
  }

  function Lower(rank: map<string, nat>, m: string): set<string>
    requires m in rank
  {
    set x | x in rank && rank[x] < rank[m]
  }

  /** An acyclic program: every ranked module is supported over the modules of lower rank. */
  ghost predicate AcyclicProgram(mods: Modules, rank: map<string, nat>)
  {
    forall m :: m in rank ==>
      m in mods && mods[m].Some? && Supported(mods.Keys, Lower(rank, m), m, mods[m].value)
  }

  // ---------- what is in scope resolves ----------

  ghost predicate LowerResolves(ctx: Context, lower: set<string>) { lower <= ctx.foreign.Keys }

  /** Names in scope resolve. */
  ghost predicate InScope(ctx: Context, current: Option<seq<Export>>, b: Bindings, scope: Scope)
  {
    && (scope.listed ==> current.Some?)
    && (forall n :: n in scope.own ==> n in b.sequences && b.sequences[n].Some?)
    && (forall n :: n in scope.imported ==> n !in b.sequences && n in b.importedAll && Foreign(ctx, b.importedAll[n]).Some?)
    && (forall n :: n in scope.modules ==> n in b.aliases && Foreign(ctx, b.aliases[n]).Some?)
  }

  lemma {:induction false} SupportedResolves(ctx: Context, rel: string, e: Expr, current: Option<seq<Export>>,
      b: Bindings, scope: Scope)
    requires InScope(ctx, current, b, scope) && Supports(scope, e)
    ensures Sequence(ctx, rel, e, current, b).Some?
    decreases e
  {
    match e
    case Listing(elts) => SupportedItemsResolve(ctx, rel, elts, current, b, scope);
    case BinOp(left, _, right) =>
      SupportedResolves(ctx, rel, left, current, b, scope);
      SupportedResolves(ctx, rel, right, current, b, scope);
    case Call(_, args, _) => SupportedResolves(ctx, rel, args[0], current, b, scope);
    case _ =>
  }

  lemma {:induction false} SupportedItemResolves(ctx: Context, rel: string, e: Expr, current: Option<seq<Export>>,
      b: Bindings, scope: Scope)
    requires InScope(ctx, current, b, scope) && SupportsItem(scope, e)
    ensures Element(ctx, rel, e, current, b).Some?
    decreases e
  {
    if e.Starred? {
      SupportedResolves(ctx, rel, e.value, current, b, scope);
    }
  }

  lemma {:induction false} SupportedItemsResolve(ctx: Context, rel: string, elts: seq<Expr>,
      current: Option<seq<Export>>, b: Bindings, scope: Scope)
    requires InScope(ctx, current, b, scope) && SupportsItems(scope, elts)
    ensures Elements(ctx, rel, elts, current, b).Some?
    decreases elts
  {
    if elts != [] {
      SupportedItemResolves(ctx, rel, elts[0], current, b, scope);
      SupportedItemsResolve(ctx, rel, elts[1..], current, b, scope);
    }
  }

  lemma {:induction false} AliasesInScope(ctx: Context, lower: set<string>, base: string, names: seq<Alias>,
      current: Option<seq<Export>>, b: Bindings, scope: Scope)
    requires LowerResolves(ctx, lower) && InScope(ctx, current, b, scope)
    ensures InScope(ctx, current, RecordAliases(ctx.tracked, base, names, b),
                    AfterAliases(ctx.tracked, lower, base, names, scope))
    decreases |names|
  {
    if names != [] {
      var b', scope' := RecordAlias(ctx.tracked, base, names[0], b), AfterAlias(ctx.tracked, lower, base, names[0], scope);
      assert InScope(ctx, current, b', scope');
      AliasesInScope(ctx, lower, base, names[1..], current, b', scope');
    }
  }

  lemma {:induction false} PlainImportsInScope(ctx: Context, lower: set<string>, names: seq<Alias>,
      current: Option<seq<Export>>, b: Bindings, scope: Scope)
    requires LowerResolves(ctx, lower) && InScope(ctx, current, b, scope)
    ensures InScope(ctx, current, RecordPlainImports(names, b), AfterPlainImports(ctx.tracked, lower, names, scope))
    decreases |names|
  {
    if names != [] {
      var b', scope' := RecordPlainImport(names[0], b), AfterPlainImport(ctx.tracked, lower, names[0], scope);
      assert InScope(ctx, current, b', scope');
      PlainImportsInScope(ctx, lower, names[1..], current, b', scope');
    }
  }

  lemma {:induction false} NamesInScope(ctx: Context, rel: string, names: seq<string>, value: Option<Expr>,
      current: Option<seq<Export>>, b: Bindings, scope: Scope)
    requires InScope(ctx, current, b, scope)
    ensures InScope(ctx, current, BindNames(ctx, rel, names, value, current, b), AfterNames(names, value, scope))
    decreases |names|
  {
    if names != [] {
      var n := names[0];
      var unbound := b.(importedAll := b.importedAll - {n}, aliases := b.aliases - {n});
      var read := scope.(imported := scope.imported - {n}, modules := scope.modules - {n});
      assert InScope(ctx, current, unbound, read);
      if value.Some? && Supports(read, value.value) {
        SupportedResolves(ctx, rel, value.value, current, unbound, read);
      }
      assert InScope(ctx, current, BindName(ctx, rel, n, value, current, b), AfterName(n, value, scope));
      NamesInScope(ctx, rel, names[1..], value, current, BindName(ctx, rel, n, value, current, b), AfterName(n, value, scope));
    }
  }

  /** A supported statement is walked, and the names in scope after it resolve. */
  lemma StatementInScope(ctx: Context, lower: set<string>, rel: string, stmt: Stmt, w: Walk, scope: Scope)
    requires LowerResolves(ctx, lower) && InScope(ctx, w.current, w.b, scope)
    requires After(ctx.tracked, lower, rel, stmt, scope).Some?
    ensures var next := Advance(ctx, rel, stmt, w);
      next.Some? && InScope(ctx, next.value.current, next.value.b, After(ctx.tracked, lower, rel, stmt, scope).value)
  {
    match stmt
    case Import(names) => PlainImportsInScope(ctx, lower, names, w.current, w.b, scope);
    case ImportFrom(level, from, names) => AliasesInScope(ctx, lower, AbsoluteModule(rel, level, from), names, w.current, w.b, scope);
    case AugAssign(target, _, value, _) =>
      if MentionsAll(target) { SupportedResolves(ctx, rel, value, w.current, w.b, scope); }
    case ExprStmt(value, _) =>
      if MutatesAll(value) {
        var arg := value.args[0];
        if value.func.attr == "append" {
          assert [arg][0] == arg && [arg][1..] == [] && SupportsItems(scope, [arg][1..]);
          SupportedResolves(ctx, rel, Listing([arg]), w.current, w.b, scope);
        } else {
          SupportedResolves(ctx, rel, arg, w.current, w.b, scope);
        }
      }
    case OtherStmt(_) =>
    case _ =>
      if forall t :: t in Targets(stmt) ==> !MentionsAll(t) {
        NamesInScope(ctx, rel, PlainNames(Targets(stmt)), Value(stmt), w.current, w.b, scope);
      } else {
        SupportedResolves(ctx, rel, Value(stmt).value, w.current, w.b, scope);
      }
  }

  lemma {:induction false} BodyInScope(ctx: Context, lower: set<string>, rel: string, stmts: seq<Stmt>, w: Walk,
      scope: Scope)
    requires LowerResolves(ctx, lower) && InScope(ctx, w.current, w.b, scope)
    requires AfterAll(ctx.tracked, lower, rel, stmts, scope).Some?
    ensures var last := Body(ctx, rel, stmts, w);
      last.Some? && InScope(ctx, last.value.current, last.value.b, AfterAll(ctx.tracked, lower, rel, stmts, scope).value)
    decreases |stmts|
  {
    if stmts != [] {
      StatementInScope(ctx, lower, rel, stmts[0], w, scope);
      BodyInScope(ctx, lower, rel, stmts[1..], Advance(ctx, rel, stmts[0], w).value,
                  After(ctx.tracked, lower, rel, stmts[0], scope).value);
    }
  }

  /** On an acyclic program of supported constructs, every module resolves, whatever imports it from above. */
  lemma {:induction false} AcyclicProgramsResolve(mods: Modules, rank: map<string, nat>, rel: string, chain: set<string>)
    requires AcyclicProgram(mods, rank) && rel in rank
    requires forall c :: c in chain && c in rank ==> rank[rel] < rank[c]
    ensures Outcome(mods, rel, chain).Some?
    decreases rank[rel]
  {
    assert rel in mods.Keys - chain && rel !in mods.Keys - (chain + {rel});
    var ctx := Context(mods.Keys, Outcomes(mods, rel, chain));
    forall m | m in Lower(rank, rel) ensures m in ctx.foreign {
      AcyclicProgramsResolve(mods, rank, m, chain + {rel});
    }
    BodyInScope(ctx, Lower(rank, rel), rel, mods[rel].value, START, NOTHING);
  }
}
