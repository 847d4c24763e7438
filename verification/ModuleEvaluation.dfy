/**
  What `__all__` resolves to, without a memo table: a module's statements are evaluated in
  order against the outcomes of the modules it may follow, and a module on the current import
  chain has no outcome. The cached resolver is proved against `Outcome`.
 */
module ModuleEvaluation {
  import opened Prelude
  import opened ModuleSyntax

  /** Where an export name was written. */
  datatype Origin = Origin(rel: string, line: nat)
  datatype Export = Export(name: string, origin: Origin)

  function NamesOf(exports: seq<Export>): (names: seq<string>)
    ensures |names| == |exports| && forall k :: 0 <= k < |exports| ==> names[k] == exports[k].name
  {
    seq(|exports|, k requires 0 <= k < |exports| => exports[k].name)
  }

  /** A resolved `__all__` and the line it first appears on. */
  datatype Resolution = Resolution(names: seq<Export>, firstLine: nat)

  /** What a module's top level binds so far; a sequence of None records why a name is not one. */
  datatype Bindings = Bindings(
    sequences: map<string, Option<seq<Export>>>, importedAll: map<string, string>, aliases: map<string, string>)

  /** What evaluation may consult: the tracked paths, and the modules whose `__all__` resolves. */
  datatype Context = Context(tracked: set<string>, foreign: map<string, Resolution>)

  const SEQUENCE_CALLS := {"list", "tuple", "sorted"}

  function Foreign(ctx: Context, dotted: string): Option<seq<Export>>
  {
    match ModuleRel(ctx.tracked, dotted)
    case None => None
    case Some(target) => if target in ctx.foreign then Some(ctx.foreign[target].names) else None
  }

  function Named(ctx: Context, id: string, current: Option<seq<Export>>, b: Bindings): Option<seq<Export>>
  {
    if id == "__all__" && current.Some? then current
    else if id in b.sequences then b.sequences[id]
    else if id in b.importedAll then Foreign(ctx, b.importedAll[id])
    else None
  }

  predicate IsSequenceCall(e: Expr)
  {
    e.Call? && e.func.Name? && e.func.id in SEQUENCE_CALLS && |e.args| == 1 && e.keywords == []
  }

  predicate IsForeignAll(e: Expr, b: Bindings)
  {
    e.Attribute? && e.attr == "__all__" && e.value.Name? && e.value.id in b.aliases
  }

  function Concat(a: Option<seq<Export>>, b: Option<seq<Export>>): Option<seq<Export>>
  {
    if a.Some? && b.Some? then Some(a.value + b.value) else None
  }

  function Sequence(ctx: Context, rel: string, e: Expr, current: Option<seq<Export>>,
      b: Bindings): Option<seq<Export>>
    decreases e
  {
    match e
    case Listing(elts) => Elements(ctx, rel, elts, current, b)
    case BinOp(left, op, right) =>
      if op.Add? then Concat(Sequence(ctx, rel, left, current, b), Sequence(ctx, rel, right, current, b)) else None
    case Call(_, args, _) => if IsSequenceCall(e) then Sequence(ctx, rel, args[0], current, b) else None
    case Name(id) => Named(ctx, id, current, b)
    case Attribute(value, _) => if IsForeignAll(e, b) then Foreign(ctx, b.aliases[value.id]) else None
    case _ => None
  }

  function Element(ctx: Context, rel: string, e: Expr, current: Option<seq<Export>>, b: Bindings): Option<seq<Export>>
    decreases e
  {
    match e
    case Str(text, line) => Some([Export(text, Origin(rel, line))])
    case Starred(value) => Sequence(ctx, rel, value, current, b)
    case _ => None
  }

  function Elements(ctx: Context, rel: string, elts: seq<Expr>, current: Option<seq<Export>>,
      b: Bindings): Option<seq<Export>>
    decreases elts
  {
    if elts == [] then Some([])
    else Concat(Element(ctx, rel, elts[0], current, b), Elements(ctx, rel, elts[1..], current, b))
  }

  function RecordAlias(tracked: set<string>, base: string, a: Alias, b: Bindings): Bindings
  {
    var sequences := b.sequences - {a.Bound()};
    if a.name == "__all__" && base != [] then
      b.(sequences := sequences, importedAll := b.importedAll[a.Bound() := base])
    else if base != [] && ModuleRel(tracked, base + "." + a.name).Some? then
      b.(sequences := sequences, aliases := b.aliases[a.Bound() := base + "." + a.name])
    else b.(sequences := sequences)
  }

  function RecordAliases(tracked: set<string>, base: string, names: seq<Alias>, b: Bindings): Bindings
  {
    if names == [] then b
    else RecordAliases(tracked, base, names[1..], RecordAlias(tracked, base, names[0], b))
  }

  function RecordPlainImport(a: Alias, b: Bindings): Bindings
  {
    if a.asname.Some? then b.(aliases := b.aliases[a.asname.value := a.name]) else b
  }

  function RecordPlainImports(names: seq<Alias>, b: Bindings): Bindings
  {
    if names == [] then b else RecordPlainImports(names[1..], RecordPlainImport(names[0], b))
  }

  function RecordImports(tracked: set<string>, rel: string, stmt: Stmt, b: Bindings): Bindings
  {
    match stmt
    case ImportFrom(level, from, names) => RecordAliases(tracked, AbsoluteModule(rel, level, from), names, b)
    case Import(names) => RecordPlainImports(names, b)
    case _ => b
  }

  /** The plain names among assignment targets. */
  function PlainNames(targets: seq<Expr>): seq<string>
  {
    if targets == [] then []
    else (if targets[0].Name? then [targets[0].id] else []) + PlainNames(targets[1..])
  }

  function BindName(ctx: Context, rel: string, name: string, value: Option<Expr>, current: Option<seq<Export>>,
      b: Bindings): Bindings
  {
    var unbound := b.(importedAll := b.importedAll - {name}, aliases := b.aliases - {name});
    unbound.(sequences := b.sequences[name := if value.None? then None else Sequence(ctx, rel, value.value, current, unbound)])
  }

  function BindNames(ctx: Context, rel: string, names: seq<string>, value: Option<Expr>,
      current: Option<seq<Export>>, b: Bindings): Bindings
  {
    if names == [] then b
    else BindNames(ctx, rel, names[1..], value, current, BindName(ctx, rel, names[0], value, current, b))
  }

  function Targets(stmt: Stmt): seq<Expr>
    requires stmt.Assign? || stmt.AnnAssign?
  {
    if stmt.Assign? then stmt.targets else [stmt.target]
  }

  function Value(stmt: Stmt): Option<Expr>
    requires stmt.Assign? || stmt.AnnAssign?
  {
    if stmt.Assign? then Some(stmt.value) else stmt.annotated
  }

  predicate MutatesAll(e: Expr)
  {
    e.Call? && e.func.Attribute? && e.func.value == Name("__all__")
  }

  function Mutate(ctx: Context, rel: string, call: Expr, current: Option<seq<Export>>,
      b: Bindings): Option<seq<Export>>
    requires MutatesAll(call)
  {
    var method' := call.func.attr;
    if method' !in {"extend", "append"} || current.None? || |call.args| != 1 || call.keywords != [] then None
    else if method' == "append" then Concat(current, Sequence(ctx, rel, Listing([call.args[0]]), current, b))
    else Concat(current, Sequence(ctx, rel, call.args[0], current, b))
  }

  /** The state of one module walk: `__all__` so far, the other bindings, its first line. */
  datatype Walk = Walk(current: Option<seq<Export>>, b: Bindings, firstLine: nat)

  /** The new `__all__`, the line it changed on (0 when it did not), and the new bindings. */
  datatype Applied = Applied(current: Option<seq<Export>>, line: nat, b: Bindings)

  function Bound(value: Option<seq<Export>>, line: nat, b: Bindings): Option<Applied>
  {
    if value.None? then None else Some(Applied(value, line, b))
  }

  function Apply(ctx: Context, rel: string, stmt: Stmt, current: Option<seq<Export>>, b: Bindings): Option<Applied>
  {
    match stmt
    case Assign(_, _, _) => ApplyAssignment(ctx, rel, stmt, current, b)
    case AnnAssign(_, _, _, _) => ApplyAssignment(ctx, rel, stmt, current, b)
    case AugAssign(target, op, value, line) =>
      if !MentionsAll(target) then Some(Applied(current, 0, b))
      else if !op.Add? || current.None? then None
      else Bound(Concat(current, Sequence(ctx, rel, value, current, b)), line, b)
    case ExprStmt(value, line) =>
      if MutatesAll(value) then Bound(Mutate(ctx, rel, value, current, b), line, b) else Some(Applied(current, 0, b))
    case _ => Some(Applied(current, 0, b))
  }

  function ApplyAssignment(ctx: Context, rel: string, stmt: Stmt, current: Option<seq<Export>>,
      b: Bindings): Option<Applied>
    requires stmt.Assign? || stmt.AnnAssign?
  {
    var targets, value := Targets(stmt), Value(stmt);
    if exists t :: t in targets && MentionsAll(t) then
      if |targets| != 1 || !targets[0].Name? || value.None? then None
      else Bound(Sequence(ctx, rel, value.value, current, b), stmt.line, b)
    else Some(Applied(current, 0, BindNames(ctx, rel, PlainNames(targets), value, current, b)))
  }

  predicate HiddenMutation(stmt: Stmt)
  {
    stmt.OtherStmt? && exists inner :: inner in stmt.inner && Touches(inner)
  }

  function Advance(ctx: Context, rel: string, stmt: Stmt, w: Walk): Option<Walk>
  {
    if HiddenMutation(stmt) then None
    else match Apply(ctx, rel, stmt, w.current, RecordImports(ctx.tracked, rel, stmt, w.b))
      case None => None
      case Some(a) => Some(Walk(a.current, a.b, if w.firstLine != 0 then w.firstLine else a.line))
  }

  function Body(ctx: Context, rel: string, stmts: seq<Stmt>, w: Walk): Option<Walk>
  {
    if stmts == [] then Some(w)
    else match Advance(ctx, rel, stmts[0], w)
      case None => None
      case Some(next) => Body(ctx, rel, stmts[1..], next)
  }

  const START := Walk(None, Bindings(map[], map[], map[]), 0)

  function Finish(w: Option<Walk>): Option<Resolution>
  {
    if w.Some? && w.value.current.Some? then Some(Resolution(w.value.current.value, w.value.firstLine)) else None
  }

  /** The outcome of one module when `chain` is being resolved; it recurses on a longer chain. */
  ghost function Outcome(mods: Modules, rel: string, chain: set<string>): Option<Resolution>
    decreases mods.Keys - chain
  {
    if rel in chain || rel !in mods || mods[rel].None? then None
    else Finish(Body(Context(mods.Keys, Outcomes(mods, rel, chain)), rel, mods[rel].value, START))
  }

  /** What every module resolves to once `rel` has joined the chain. */
  ghost function Outcomes(mods: Modules, rel: string, chain: set<string>): map<string, Resolution>
    requires rel in mods && rel !in chain
    decreases mods.Keys - chain, 0
  {
    assert rel in mods.Keys - chain && rel !in mods.Keys - (chain + {rel});
    map m | m in mods && Outcome(mods, m, chain + {rel}).Some? :: Outcome(mods, m, chain + {rel}).value
  }

  /** A display of one item is that item's names. */
  lemma OneItemDisplay(ctx: Context, rel: string, e: Expr, current: Option<seq<Export>>, b: Bindings)
    ensures Sequence(ctx, rel, Listing([e]), current, b) == Element(ctx, rel, e, current, b)
  {
    assert [e][0] == e && [e][1..] == [] && Elements(ctx, rel, [e][1..], current, b) == Some([]);
    assert forall names: seq<Export> :: names + [] == names;
  }

  /** An assignment that binds `__all__`. */
  lemma AssignsAll(ctx: Context, rel: string, value: Expr, line: nat, w: Walk)
    requires line > 0 && Sequence(ctx, rel, value, w.current, w.b).Some?
    ensures Advance(ctx, rel, Assign([Name("__all__")], value, line), w)
         == Some(Walk(Sequence(ctx, rel, value, w.current, w.b), w.b, if w.firstLine != 0 then w.firstLine else line))
  {
    assert [Name("__all__")][0] in [Name("__all__")] && MentionsAll(Name("__all__"));
  }

  // ---------- more resolvable modules never break an evaluation ----------

  /** No module resolves. */
  ghost predicate Idle(ctx: Context)
  {
    forall dotted :: !Useful(ctx, dotted)
  }

  /**
    ctx1 finds whatever from-imports find in ctx2, unless nothing resolves anyway, and ctx2 finds and
    resolves alike what ctx1 resolves.
   */
  ghost predicate Below(ctx1: Context, ctx2: Context)
  {
    && (Idle(ctx1) || forall dotted :: IsMember(dotted) && ModuleRel(ctx2.tracked, dotted).Some? ==> ModuleRel(ctx1.tracked, dotted).Some?)
    && (forall dotted :: Useful(ctx1, dotted) ==> ModuleRel(ctx2.tracked, dotted) == ModuleRel(ctx1.tracked, dotted))
    && forall m :: m in ctx1.foreign ==> m in ctx2.foreign && ctx2.foreign[m] == ctx1.foreign[m]
  }

  /** A module alias through which ctx can reach an `__all__`. */
  predicate Useful(ctx: Context, dotted: string)
  {
    Foreign(ctx, dotted).Some?
  }

  ghost predicate BindingsBelow(ctx1: Context, b1: Bindings, b2: Bindings)
  {
    && b1.sequences.Keys == b2.sequences.Keys
    && (forall n :: n in b1.sequences && b1.sequences[n].Some? ==> b2.sequences[n] == b1.sequences[n])
    && b1.importedAll == b2.importedAll
    && (forall n :: n in b1.aliases && Useful(ctx1, b1.aliases[n]) ==> n in b2.aliases && b2.aliases[n] == b1.aliases[n])
  }

  lemma ForeignBelow(ctx1: Context, ctx2: Context, dotted: string)
    requires Below(ctx1, ctx2) && Foreign(ctx1, dotted).Some?
    ensures Foreign(ctx2, dotted) == Foreign(ctx1, dotted)
  {}

  lemma {:induction false} SequenceBelow(ctx1: Context, ctx2: Context, rel: string, e: Expr,
      current: Option<seq<Export>>, b1: Bindings, b2: Bindings)
    requires Below(ctx1, ctx2) && BindingsBelow(ctx1, b1, b2)
    requires Sequence(ctx1, rel, e, current, b1).Some?
    ensures Sequence(ctx2, rel, e, current, b2) == Sequence(ctx1, rel, e, current, b1)
    decreases e
  {
    match e
    case Listing(elts) => ElementsBelow(ctx1, ctx2, rel, elts, current, b1, b2);
    case BinOp(left, _, right) =>
      SequenceBelow(ctx1, ctx2, rel, left, current, b1, b2);
      SequenceBelow(ctx1, ctx2, rel, right, current, b1, b2);
    case Call(_, args, _) => SequenceBelow(ctx1, ctx2, rel, args[0], current, b1, b2);
    case Name(id) =>
    case Attribute(value, _) => ForeignBelow(ctx1, ctx2, b1.aliases[value.id]);
    case _ =>
  }

  lemma {:induction false} ElementsBelow(ctx1: Context, ctx2: Context, rel: string, elts: seq<Expr>,
      current: Option<seq<Export>>, b1: Bindings, b2: Bindings)
    requires Below(ctx1, ctx2) && BindingsBelow(ctx1, b1, b2)
    requires Elements(ctx1, rel, elts, current, b1).Some?
    ensures Elements(ctx2, rel, elts, current, b2) == Elements(ctx1, rel, elts, current, b1)
    decreases elts
  {
    if elts != [] {
      ElementBelow(ctx1, ctx2, rel, elts[0], current, b1, b2);
      ElementsBelow(ctx1, ctx2, rel, elts[1..], current, b1, b2);
    }
  }

  lemma {:induction false} ElementBelow(ctx1: Context, ctx2: Context, rel: string, e: Expr,
      current: Option<seq<Export>>, b1: Bindings, b2: Bindings)
    requires Below(ctx1, ctx2) && BindingsBelow(ctx1, b1, b2)
    requires Element(ctx1, rel, e, current, b1).Some?
    ensures Element(ctx2, rel, e, current, b2) == Element(ctx1, rel, e, current, b1)
    decreases e
  {
    if e.Starred? {
      SequenceBelow(ctx1, ctx2, rel, e.value, current, b1, b2);
    }
  }

  lemma RecordAliasBelow(ctx1: Context, ctx2: Context, base: string, a: Alias, b1: Bindings, b2: Bindings)
    requires Below(ctx1, ctx2) && BindingsBelow(ctx1, b1, b2)
    ensures BindingsBelow(ctx1, RecordAlias(ctx1.tracked, base, a, b1), RecordAlias(ctx2.tracked, base, a, b2))
  {
    var dotted := base + "." + a.name;
    if Useful(ctx1, dotted) {
      ForeignBelow(ctx1, ctx2, dotted);
    }
    SequenceDropped(ctx1, b1, b2, a.Bound());
    if base != [] && a.name != "__all__" {
      MemberOfPackage(base, a.name);
      AliasBelow(ctx1, b1, b2, a.Bound(), dotted, ModuleRel(ctx1.tracked, dotted).Some?, ModuleRel(ctx2.tracked, dotted).Some?);
    }
  }

  lemma MemberOfPackage(base: string, name: string)
    requires base != [] && name != "__all__"
    ensures IsMember(base + "." + name)
  {
    var dotted := base + "." + name;
    assert dotted[|base|] == '.' && dotted[|base| + 1..] == name;
  }

  function Aliased(b: Bindings, n: string, dotted: string, found: bool): Bindings
  {
    if found then b.(sequences := b.sequences - {n}, aliases := b.aliases[n := dotted]) else b.(sequences := b.sequences - {n})
  }

  lemma SequenceDropped(ctx1: Context, b1: Bindings, b2: Bindings, n: string)
    requires BindingsBelow(ctx1, b1, b2)
    ensures BindingsBelow(ctx1, b1.(sequences := b1.sequences - {n}), b2.(sequences := b2.sequences - {n}))
  {}

  lemma AliasBelow(ctx1: Context, b1: Bindings, b2: Bindings, n: string, dotted: string, found1: bool, found2: bool)
    requires BindingsBelow(ctx1, b1, b2) && (Idle(ctx1) || !found2 || found1) && (found1 && Useful(ctx1, dotted) ==> found2)
    ensures BindingsBelow(ctx1, Aliased(b1, n, dotted, found1), Aliased(b2, n, dotted, found2))
  {}

  lemma {:induction false} RecordAliasesBelow(ctx1: Context, ctx2: Context, base: string, names: seq<Alias>,
      b1: Bindings, b2: Bindings)
    requires Below(ctx1, ctx2) && BindingsBelow(ctx1, b1, b2)
    ensures BindingsBelow(ctx1, RecordAliases(ctx1.tracked, base, names, b1), RecordAliases(ctx2.tracked, base, names, b2))
    decreases |names|
  {
    if names != [] {
      RecordAliasBelow(ctx1, ctx2, base, names[0], b1, b2);
      RecordAliasesBelow(ctx1, ctx2, base, names[1..],
                         RecordAlias(ctx1.tracked, base, names[0], b1), RecordAlias(ctx2.tracked, base, names[0], b2));
    }
  }

  lemma {:induction false} RecordPlainImportsBelow(ctx1: Context, names: seq<Alias>, b1: Bindings, b2: Bindings)
    requires BindingsBelow(ctx1, b1, b2)
    ensures BindingsBelow(ctx1, RecordPlainImports(names, b1), RecordPlainImports(names, b2))
    decreases |names|
  {
    if names != [] {
      RecordPlainImportsBelow(ctx1, names[1..], RecordPlainImport(names[0], b1), RecordPlainImport(names[0], b2));
    }
  }

  lemma {:induction false} BindNamesBelow(ctx1: Context, ctx2: Context, rel: string, names: seq<string>,
      value: Option<Expr>, current: Option<seq<Export>>, b1: Bindings, b2: Bindings)
    requires Below(ctx1, ctx2) && BindingsBelow(ctx1, b1, b2)
    ensures BindingsBelow(ctx1, BindNames(ctx1, rel, names, value, current, b1), BindNames(ctx2, rel, names, value, current, b2))
    decreases |names|
  {
    if names != [] {
      var n := names[0];
      var u1 := b1.(importedAll := b1.importedAll - {n}, aliases := b1.aliases - {n});
      var u2 := b2.(importedAll := b2.importedAll - {n}, aliases := b2.aliases - {n});
      assert BindingsBelow(ctx1, u1, u2);
      if value.Some? && Sequence(ctx1, rel, value.value, current, u1).Some? {
        SequenceBelow(ctx1, ctx2, rel, value.value, current, u1, u2);
      }
      BindNamesBelow(ctx1, ctx2, rel, names[1..], value, current,
                     BindName(ctx1, rel, n, value, current, b1), BindName(ctx2, rel, n, value, current, b2));
    }
  }

  ghost predicate WalkBelow(ctx1: Context, w1: Walk, w2: Walk)
  {
    w1.current == w2.current && w1.firstLine == w2.firstLine && BindingsBelow(ctx1, w1.b, w2.b)
  }

  lemma AdvanceBelow(ctx1: Context, ctx2: Context, rel: string, stmt: Stmt, w1: Walk, w2: Walk)
    requires Below(ctx1, ctx2) && WalkBelow(ctx1, w1, w2)
    requires Advance(ctx1, rel, stmt, w1).Some?
    ensures Advance(ctx2, rel, stmt, w2).Some?
    ensures WalkBelow(ctx1, Advance(ctx1, rel, stmt, w1).value, Advance(ctx2, rel, stmt, w2).value)
  {
    var c := w1.current;
    match stmt
    case ImportFrom(level, from, names) =>
      RecordAliasesBelow(ctx1, ctx2, AbsoluteModule(rel, level, from), names, w1.b, w2.b);
    case Import(names) => RecordPlainImportsBelow(ctx1, names, w1.b, w2.b);
    case AugAssign(target, _, value, _) =>
      if MentionsAll(target) { SequenceBelow(ctx1, ctx2, rel, value, c, w1.b, w2.b); }
    case ExprStmt(value, _) =>
      if MutatesAll(value) {
        SequenceBelow(ctx1, ctx2, rel, if value.func.attr == "append" then Listing([value.args[0]]) else value.args[0], c, w1.b, w2.b);
      }
    case OtherStmt(_) =>
    case _ =>
      var targets := Targets(stmt);
      if exists t :: t in targets && MentionsAll(t) {
        SequenceBelow(ctx1, ctx2, rel, Value(stmt).value, c, w1.b, w2.b);
      } else {
        BindNamesBelow(ctx1, ctx2, rel, PlainNames(targets), Value(stmt), c, w1.b, w2.b);
      }
  }

  lemma {:induction false} BodyBelow(ctx1: Context, ctx2: Context, rel: string, stmts: seq<Stmt>, w1: Walk, w2: Walk)
    requires Below(ctx1, ctx2) && WalkBelow(ctx1, w1, w2)
    requires Body(ctx1, rel, stmts, w1).Some?
    ensures Body(ctx2, rel, stmts, w2).Some?
    ensures WalkBelow(ctx1, Body(ctx1, rel, stmts, w1).value, Body(ctx2, rel, stmts, w2).value)
    decreases |stmts|
  {
    if stmts != [] {
      AdvanceBelow(ctx1, ctx2, rel, stmts[0], w1, w2);
      BodyBelow(ctx1, ctx2, rel, stmts[1..], Advance(ctx1, rel, stmts[0], w1).value, Advance(ctx2, rel, stmts[0], w2).value);
    }
  }

  /**
    An import chain only ever removes answers: on a shorter chain a module that resolves
    still resolves, to the same names and line.
   */
  lemma {:induction false} ShorterChainKeepsAnswers(mods: Modules, rel: string, short: set<string>,
      chain: set<string>)
    requires short <= chain && Outcome(mods, rel, chain).Some?
    ensures Outcome(mods, rel, short) == Outcome(mods, rel, chain)
    decreases mods.Keys - chain
  {
    assert rel in mods.Keys - chain && rel !in mods.Keys - (chain + {rel});
    var ctx1, ctx2 := Context(mods.Keys, Outcomes(mods, rel, chain)), Context(mods.Keys, Outcomes(mods, rel, short));
    forall m | m in ctx1.foreign ensures m in ctx2.foreign && ctx2.foreign[m] == ctx1.foreign[m] {
      ShorterChainKeepsAnswers(mods, m, short + {rel}, chain + {rel});
    }
    BodyBelow(ctx1, ctx2, rel, mods[rel].value, START, START);
  }

  // ---------- every export is a string literal of a module that was read ----------

  /** The exports an expression's string literals can give. */
  function Literals(rel: string, e: Expr): set<Export>
    decreases e
  {
    match e
    case Listing(elts) => LiteralsInAll(rel, elts)
    case BinOp(left, _, right) => Literals(rel, left) + Literals(rel, right)
    case Call(_, args, _) => LiteralsInAll(rel, args)
    case Str(text, line) => {Export(text, Origin(rel, line))}
    case Starred(value) => Literals(rel, value)
    case _ => {}
  }

  function LiteralsInAll(rel: string, es: seq<Expr>): set<Export>
    decreases es
  {
    if es == [] then {} else Literals(rel, es[0]) + LiteralsInAll(rel, es[1..])
  }

  function StatementLiterals(rel: string, stmt: Stmt): set<Export>
  {
    match stmt
    case Assign(_, value, _) => Literals(rel, value)
    case AnnAssign(_, _, Some(value), _) => Literals(rel, value)
    case AugAssign(_, _, value, _) => Literals(rel, value)
    case ExprStmt(value, _) => Literals(rel, value)
    case _ => {}
  }

  function BodyLiterals(rel: string, stmts: seq<Stmt>): set<Export>
  {
    if stmts == [] then {} else StatementLiterals(rel, stmts[0]) + BodyLiterals(rel, stmts[1..])
  }

  /** The string literals of the modules on these paths, each with its file and line. */
  function TreeLiterals(mods: Modules, paths: set<string>): set<Export>
  {
    set p, x | p in paths && p in mods && mods[p].Some? && x in BodyLiterals(p, mods[p].value) :: x
  }

  lemma {:induction false} LiteralsStandInTheirFile(rel: string, e: Expr)
    ensures forall x :: x in Literals(rel, e) ==> x.origin.rel == rel
    decreases e
  {
    match e
    case Listing(elts) => AllLiteralsStandInTheirFile(rel, elts);
    case BinOp(left, _, right) => LiteralsStandInTheirFile(rel, left); LiteralsStandInTheirFile(rel, right);
    case Call(_, args, _) => AllLiteralsStandInTheirFile(rel, args);
    case Starred(value) => LiteralsStandInTheirFile(rel, value);
    case _ =>
  }

  lemma {:induction false} AllLiteralsStandInTheirFile(rel: string, es: seq<Expr>)
    ensures forall x :: x in LiteralsInAll(rel, es) ==> x.origin.rel == rel
    decreases es
  {
    if es != [] {
      LiteralsStandInTheirFile(rel, es[0]);
      AllLiteralsStandInTheirFile(rel, es[1..]);
    }
  }

  lemma {:induction false} BodyLiteralsStandInTheirFile(rel: string, stmts: seq<Stmt>)
    ensures forall x :: x in BodyLiterals(rel, stmts) ==> x.origin.rel == rel
    decreases |stmts|
  {
    if stmts != [] {
      match stmts[0] {
        case Assign(_, value, _) => LiteralsStandInTheirFile(rel, value);
        case AnnAssign(_, _, Some(value), _) => LiteralsStandInTheirFile(rel, value);
        case AugAssign(_, _, value, _) => LiteralsStandInTheirFile(rel, value);
        case ExprStmt(value, _) => LiteralsStandInTheirFile(rel, value);
        case _ =>
      }
      BodyLiteralsStandInTheirFile(rel, stmts[1..]);
    }
  }

  lemma TreeLiteralsStandInTheirFiles(mods: Modules, paths: set<string>)
    ensures forall x :: x in TreeLiterals(mods, paths) ==> x.origin.rel in paths
  {
    forall x | x in TreeLiterals(mods, paths) ensures x.origin.rel in paths {
      var p :| p in paths && p in mods && mods[p].Some? && x in BodyLiterals(p, mods[p].value);
      BodyLiteralsStandInTheirFile(p, mods[p].value);
    }
  }

  ghost predicate WrittenIn(names: Option<seq<Export>>, literals: set<Export>)
  {
    names.Some? ==> forall x :: x in names.value ==> x in literals
  }

  ghost predicate ContextWrittenIn(ctx: Context, literals: set<Export>)
  {
    forall m :: m in ctx.foreign ==> WrittenIn(Some(ctx.foreign[m].names), literals)
  }

  ghost predicate BindingsWrittenIn(b: Bindings, literals: set<Export>)
  {
    forall n :: n in b.sequences ==> WrittenIn(b.sequences[n], literals)
  }

  ghost predicate AllWrittenIn(ctx: Context, current: Option<seq<Export>>, b: Bindings, literals: set<Export>)
  {
    ContextWrittenIn(ctx, literals) && WrittenIn(current, literals) && BindingsWrittenIn(b, literals)
  }

  lemma {:induction false} SequenceWrittenIn(ctx: Context, rel: string, e: Expr, current: Option<seq<Export>>,
      b: Bindings, literals: set<Export>)
    requires AllWrittenIn(ctx, current, b, literals) && Literals(rel, e) <= literals
    ensures WrittenIn(Sequence(ctx, rel, e, current, b), literals)
    decreases e
  {
    match e
    case Listing(elts) => ElementsWrittenIn(ctx, rel, elts, current, b, literals);
    case BinOp(left, _, right) =>
      SequenceWrittenIn(ctx, rel, left, current, b, literals);
      SequenceWrittenIn(ctx, rel, right, current, b, literals);
    case Call(_, args, _) =>
      if IsSequenceCall(e) { SequenceWrittenIn(ctx, rel, args[0], current, b, literals); }
    case _ =>
  }

  lemma {:induction false} ElementsWrittenIn(ctx: Context, rel: string, elts: seq<Expr>,
      current: Option<seq<Export>>, b: Bindings, literals: set<Export>)
    requires AllWrittenIn(ctx, current, b, literals) && LiteralsInAll(rel, elts) <= literals
    ensures WrittenIn(Elements(ctx, rel, elts, current, b), literals)
    decreases elts
  {
    if elts != [] {
      ElementWrittenIn(ctx, rel, elts[0], current, b, literals);
      ElementsWrittenIn(ctx, rel, elts[1..], current, b, literals);
    }
  }

  lemma {:induction false} ElementWrittenIn(ctx: Context, rel: string, e: Expr, current: Option<seq<Export>>,
      b: Bindings, literals: set<Export>)
    requires AllWrittenIn(ctx, current, b, literals) && Literals(rel, e) <= literals
    ensures WrittenIn(Element(ctx, rel, e, current, b), literals)
    decreases e
  {
    if e.Starred? {
      SequenceWrittenIn(ctx, rel, e.value, current, b, literals);
    }
  }

  lemma {:induction false} ImportsWrittenIn(tracked: set<string>, base: string, names: seq<Alias>, b: Bindings,
      literals: set<Export>)
    requires BindingsWrittenIn(b, literals)
    ensures BindingsWrittenIn(RecordAliases(tracked, base, names, b), literals)
    ensures BindingsWrittenIn(RecordPlainImports(names, b), literals)
    decreases |names|
  {
    if names != [] {
      var alias, plain := RecordAlias(tracked, base, names[0], b), RecordPlainImport(names[0], b);
      assert alias.sequences == b.sequences - {names[0].Bound()} && plain.sequences == b.sequences;
      ImportsWrittenIn(tracked, base, names[1..], alias, literals);
      ImportsWrittenIn(tracked, base, names[1..], plain, literals);
    }
  }

  lemma {:induction false} BindNamesWrittenIn(ctx: Context, rel: string, names: seq<string>, value: Option<Expr>,
      current: Option<seq<Export>>, b: Bindings, literals: set<Export>)
    requires AllWrittenIn(ctx, current, b, literals) && (value.Some? ==> Literals(rel, value.value) <= literals)
    ensures BindingsWrittenIn(BindNames(ctx, rel, names, value, current, b), literals)
    decreases |names|
  {
    if names != [] {
      var unbound := b.(importedAll := b.importedAll - {names[0]}, aliases := b.aliases - {names[0]});
      if value.Some? { SequenceWrittenIn(ctx, rel, value.value, current, unbound, literals); }
      BindNamesWrittenIn(ctx, rel, names[1..], value, current, BindName(ctx, rel, names[0], value, current, b), literals);
    }
  }

  lemma MutateWrittenIn(ctx: Context, rel: string, call: Expr, current: Option<seq<Export>>, b: Bindings,
      literals: set<Export>)
    requires AllWrittenIn(ctx, current, b, literals) && Literals(rel, call) <= literals && MutatesAll(call)
    ensures WrittenIn(Mutate(ctx, rel, call, current, b), literals)
  {
    if |call.args| == 1 {
      var arg := call.args[0];
      assert Literals(rel, arg) <= LiteralsInAll(rel, call.args);
      OneItemDisplay(ctx, rel, arg, current, b);
      ElementWrittenIn(ctx, rel, arg, current, b, literals);
      SequenceWrittenIn(ctx, rel, arg, current, b, literals);
    }
  }

  lemma AdvanceWrittenIn(ctx: Context, rel: string, stmt: Stmt, w: Walk, literals: set<Export>)
    requires AllWrittenIn(ctx, w.current, w.b, literals) && StatementLiterals(rel, stmt) <= literals
    ensures var next := Advance(ctx, rel, stmt, w);
      next.Some? ==> AllWrittenIn(ctx, next.value.current, next.value.b, literals)
  {
    match stmt
    case ImportFrom(level, from, names) =>
      ImportsWrittenIn(ctx.tracked, AbsoluteModule(rel, level, from), names, w.b, literals);
    case Import(names) => ImportsWrittenIn(ctx.tracked, [], names, w.b, literals);
    case AugAssign(_, _, value, _) => SequenceWrittenIn(ctx, rel, value, w.current, w.b, literals);
    case ExprStmt(value, _) => if MutatesAll(value) { MutateWrittenIn(ctx, rel, value, w.current, w.b, literals); }
    case OtherStmt(_) =>
    case _ =>
      if Value(stmt).Some? { SequenceWrittenIn(ctx, rel, Value(stmt).value, w.current, w.b, literals); }
      BindNamesWrittenIn(ctx, rel, PlainNames(Targets(stmt)), Value(stmt), w.current, w.b, literals);
  }

  /** Whatever a module exports is a string literal of the module itself or of a module it follows. */
  lemma {:induction false} BodyWrittenIn(ctx: Context, rel: string, stmts: seq<Stmt>, w: Walk, literals: set<Export>)
    requires AllWrittenIn(ctx, w.current, w.b, literals) && BodyLiterals(rel, stmts) <= literals
    ensures var last := Body(ctx, rel, stmts, w); last.Some? ==> WrittenIn(last.value.current, literals)
    decreases |stmts|
  {
    if stmts != [] && Advance(ctx, rel, stmts[0], w).Some? {
      AdvanceWrittenIn(ctx, rel, stmts[0], w, literals);
      BodyWrittenIn(ctx, rel, stmts[1..], Advance(ctx, rel, stmts[0], w).value, literals);
    }
  }

  /** Whatever resolves lists string literals of modules of the tree, each with the line it stands on. */
  lemma {:induction false} ResolvedNamesAreLiterals(mods: Modules, rel: string, chain: set<string>)
    requires Outcome(mods, rel, chain).Some?
    ensures WrittenIn(Some(Outcome(mods, rel, chain).value.names), TreeLiterals(mods, mods.Keys))
    decreases mods.Keys - chain
  {
    assert rel in mods.Keys - chain && rel !in mods.Keys - (chain + {rel});
    var ctx := Context(mods.Keys, Outcomes(mods, rel, chain));
    forall m | m in ctx.foreign ensures WrittenIn(Some(ctx.foreign[m].names), TreeLiterals(mods, mods.Keys)) {
      ResolvedNamesAreLiterals(mods, m, chain + {rel});
    }
    BodyWrittenIn(ctx, rel, mods[rel].value, START, TreeLiterals(mods, mods.Keys));
  }
}
