/**
  Which names a module's own text lets other code change. A list that is passed on, stored in a
  structure or used inside a function may be changed there, and a module object may be assigned
  to. The order of statements does not matter, since functions and aliases act later.
 */
module NameLending {
  import opened Prelude
  import opened ModuleSyntax
  import opened ModuleEvaluation

  /** What a name is relied on to be; with HeldForeign, an attribute of a module, this one included. */
  datatype Held = HeldList | HeldModule | HeldBuiltin | HeldForeign

  /** Every name that occurs in an expression. */
  function NamesIn(e: Expr): set<string>
    decreases e
  {
    match e
    case Listing(elts) => NamesInAll(elts)
    case BinOp(left, _, right) => NamesIn(left) + NamesIn(right)
    case Call(func, args, keywords) => NamesIn(func) + NamesInAll(args) + NamesInAll(keywords)
    case Name(id) => {id}
    case Attribute(value, _) => NamesIn(value)
    case Str(_, _) => {}
    case Starred(value) => NamesIn(value)
    case OtherExpr(children, _) => NamesInAll(children)
  }

  function NamesInAll(es: seq<Expr>): set<string>
    decreases es
  {
    if es == [] then {} else NamesIn(es[0]) + NamesInAll(es[1..])
  }

  function ToNames(names: seq<string>): set<string> { set n | n in names }

  /** The names an expression lends when its value may go anywhere. */
  function Lent(held: Held, e: Expr): set<string>
    decreases e, 0
  {
    match e
    case Listing(elts) => LentByAll(held, elts)
    case BinOp(left, _, right) => Copied(held, left) + Copied(held, right)
    case Call(func, args, keywords) =>
      if IsSequenceCall(e) then Copied(held, args[0])
      else Lent(held, func) + LentByAll(held, args) + LentByAll(held, keywords)
    case Name(id) => if held.HeldList? || held.HeldModule? then {id} else {}
    case Attribute(value, attr) =>
      (if held.HeldForeign? then {attr} else {}) +
      if held.HeldModule? && value.Name? then {} else Lent(held, value)
    case Str(_, _) => {}
    case Starred(value) => Copied(held, value)
    case OtherExpr(children, stored) => LentByAll(held, children) + if held.HeldForeign? then {} else ToNames(stored)
  }

  function LentByAll(held: Held, es: seq<Expr>): set<string>
    decreases es, 0
  {
    if es == [] then {} else Lent(held, es[0]) + LentByAll(held, es[1..])
  }

  /** The names it lends when the strings in its value are copied at once. */
  function Copied(held: Held, e: Expr): set<string>
    decreases e, 1
  {
    if e.Name? || (e.Attribute? && e.value.Name?) then {} else Lent(held, e)
  }

  // ---------- statements ----------

  /** A value that is another name's object, not a new list. */
  predicate Bare(e: Expr) { e.Name? || e.Attribute? }

  /** `n.extend(x)`, `n.append(x)` or `n.pop()` for a plain name n. */
  predicate IsListMethod(e: Expr)
  {
    && e.Call? && e.func.Attribute? && e.func.value.Name? && e.keywords == []
    && if e.func.attr == "pop" then e.args == [] else e.func.attr in {"extend", "append"} && |e.args| == 1
  }

  function Receiver(e: Expr): string
    requires IsListMethod(e)
  {
    e.func.value.id
  }

  /** What a right-hand side or expression statement lends. */
  function LentByRoot(held: Held, e: Expr): set<string>
  {
    if !IsListMethod(e) then Lent(held, e)
    else if e.func.attr == "extend" && Receiver(e) == "__all__" then Copied(held, e.args[0])
    else LentByAll(held, e.args)
  }

  /** Makes `__all__` another name for an existing list. */
  predicate AliasesAll(stmt: Stmt)
  {
    && (stmt.Assign? || stmt.AnnAssign?) && Targets(stmt) == [Name("__all__")]
    && Value(stmt).Some? && Bare(Value(stmt).value)
  }

  function LentByTargets(held: Held, targets: seq<Expr>): set<string>
  {
    if held.HeldForeign? then LentByAll(held, targets)
    else if |targets| == 1 && targets[0].Name? && !held.HeldBuiltin? then {}
    else NamesInAll(targets)
  }

  function LentByValue(held: Held, stmt: Stmt): set<string>
    requires stmt.Assign? || stmt.AnnAssign?
  {
    if Value(stmt).None? then {}
    else if AliasesAll(stmt) then Copied(held, Value(stmt).value)
    else LentByRoot(held, Value(stmt).value)
  }

  /** The names a node binds. */
  function BoundInside(inner: Inner): set<string>
  {
    match inner
    case Target(names) => ToNames(names)
    case GlobalDeclaration(names) => ToNames(names)
    case Binds(names) => ToNames(names)
    case Imports(aliases) => ToNames(BoundNames(aliases))
    case _ => {}
  }

  /** The attributes of modules that a node reaches. */
  function ReachedInside(inner: Inner): set<string>
  {
    match inner
    case AttributeOn(_, attr) => {attr}
    case Imports(aliases) => set a | a in aliases :: a.name
    case StoresAttribute(attr) => {attr}
    case _ => {}
  }

  function LentInside(held: Held, inner: Inner): set<string>
  {
    if inner.Evaluates? then Lent(held, inner.e)
    else if held.HeldForeign? then ReachedInside(inner)
    else BoundInside(inner) + if held.HeldList? && inner.AttributeOn? then {inner.id} else {}
  }

  function LentInsideAll(held: Held, inner: seq<Inner>): set<string>
  {
    if inner == [] then {} else LentInside(held, inner[0]) + LentInsideAll(held, inner[1..])
  }

  function Lends(held: Held, stmt: Stmt): set<string>
  {
    match stmt
    case Assign(targets, _, _) => LentByTargets(held, targets) + LentByValue(held, stmt)
    case AnnAssign(target, annotation, _, _) =>
      LentByTargets(held, [target]) + LentByValue(held, stmt) + Lent(held, annotation)
    case AugAssign(target, _, value, _) =>
      LentByTargets(held, [target]) + if target == Name("__all__") then Copied(held, value) else Lent(held, value)
    case ExprStmt(value, _) => LentByRoot(held, value)
    case Import(names) => if held.HeldBuiltin? then ToNames(PlainBoundNames(names)) else {}
    case ImportFrom(_, _, names) => if held.HeldBuiltin? then ToNames(BoundNames(names)) else {}
    case OtherStmt(inner) => LentInsideAll(held, inner)
  }

  function LentBy(held: Held, stmts: seq<Stmt>): set<string>
  {
    if stmts == [] then {} else Lends(held, stmts[0]) + LentBy(held, stmts[1..])
  }

  lemma {:induction false} LentIsUnion(held: Held, stmts: seq<Stmt>)
    ensures forall n :: n in LentBy(held, stmts) <==> exists s :: s in stmts && n in Lends(held, s)
    decreases |stmts|
  {
    if stmts != [] {
      LentIsUnion(held, stmts[1..]);
      assert stmts == [stmts[0]] + stmts[1..];
      assert forall s :: s in stmts <==> s == stmts[0] || s in stmts[1..];
    }
  }

  // ---------- bound and changed names ----------

  function HeadOf(dotted: string): string { Split(dotted, '.')[0] }

  /** A plain import binds its new name, or else the head of its dotted name. */
  function PlainBound(a: Alias): string { if a.asname.Some? then a.asname.value else HeadOf(a.name) }

  function BoundNames(names: seq<Alias>): seq<string>
  {
    seq(|names|, k requires 0 <= k < |names| => names[k].Bound())
  }

  function PlainBoundNames(names: seq<Alias>): seq<string>
  {
    seq(|names|, k requires 0 <= k < |names| => PlainBound(names[k]))
  }

  function ChangedByRoot(e: Expr): set<string>
  {
    if IsListMethod(e) then {Receiver(e)} else {}
  }

  /** The names whose list a statement changes in place. */
  function Changed(stmt: Stmt): set<string>
  {
    match stmt
    case Assign(_, value, _) => ChangedByRoot(value)
    case AnnAssign(_, _, value, _) => if value.Some? then ChangedByRoot(value.value) else {}
    case AugAssign(target, _, _, _) => if target.Name? then {target.id} else {}
    case ExprStmt(value, _) => ChangedByRoot(value)
    case _ => {}
  }

  /** The names a statement changes or binds without the resolver recording a new value. */
  function Rebinds(stmt: Stmt): set<string>
  {
    match stmt
    case Import(names) => ToNames(PlainBoundNames(names))
    case ImportFrom(_, _, names) => ToNames(BoundNames(names))
    case _ => Changed(stmt)
  }

  // ---------- reaching into modules ----------

  /** The attributes a statement assigns or deletes. */
  function Stores(stmt: Stmt): set<string>
  {
    match stmt
    case Assign(targets, _, _) => LentByAll(HeldForeign, targets)
    case AnnAssign(target, _, _, _) => Lent(HeldForeign, target)
    case AugAssign(target, _, _, _) => Lent(HeldForeign, target)
    case OtherStmt(inner) => set i | i in inner && i.StoresAttribute? :: i.attr
    case _ => {}
  }

  /** The module-level names whose list, and those whose binding, may be changed through an import or an attribute. */
  datatype Reach = Reach(changed: set<string>, rebound: set<string>)

  /** An imported name that the module changes or lends. */
  predicate GivesAway(stmts: seq<Stmt>, n: string)
  {
    n in LentBy(HeldList, stmts) || exists s :: s in stmts && n in Changed(s)
  }

  /**
    Whatever this module's text reaches in a module, itself included: attributes that are not just
    read, names it imports and changes or lends, and names it imports that others reach here.
   */
  ghost predicate Covers(reach: Reach, stmts: seq<Stmt>)
  {
    && LentBy(HeldForeign, stmts) <= reach.changed
    && (forall s :: s in stmts ==> Stores(s) <= reach.rebound)
    && forall s, a :: s in stmts && s.ImportFrom? && a in s.names && (GivesAway(stmts, a.Bound()) || a.Bound() in reach.changed)
        ==> a.name in reach.changed
  }

  /** Names of lists and of modules that are not to be relied on, and whether the module never changes a list itself. */
  datatype Escapes = Escapes(lists: set<string>, modules: set<string>, frozen: bool)

  predicate Frozen(stmts: seq<Stmt>)
  {
    forall s :: s in stmts ==> Changed(s) == {}
  }

  function EscapesOf(reach: Reach, stmts: seq<Stmt>): Escapes
  {
    Escapes(LentBy(HeldList, stmts) + reach.changed, LentBy(HeldModule, stmts) + reach.rebound, Frozen(stmts))
  }

  /** `list`, `tuple` or `sorted` may be something else, a star import included. */
  predicate RebindsBuiltins(reach: Reach, stmts: seq<Stmt>)
  {
    (LentBy(HeldBuiltin, stmts) + reach.rebound) * (SEQUENCE_CALLS + {"*"}) != {}
  }
}
