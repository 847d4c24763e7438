/**
  What is known of a module's `__all__` in Python, statement by statement: assignments, imports
  and the list methods of any name take effect, `sorted` sorts, and an imported `__all__` is the
  other module's final value. A name that the module lends is never known. Where the module
  changes no list behind the resolver's back, the resolver's answer is a permutation of it.
 */
module PythonMeaning {
  import opened Prelude
  import opened ModuleSyntax
  import opened ModuleEvaluation
  import opened NameLending
  import opened JsonText
  import opened SortedStrings

  /** What is known of a value: strings, in the text's order unless they were sorted on the way, a module, or nothing. */
  datatype PyValue = Names(xs: seq<string>, inOrder: bool) | ModuleRef(dotted: string) | Unknown

  type Env = map<string, PyValue>

  /** How a module's execution ends: with an exception, or with a value for `__all__`. */
  datatype Final = Raises | Ends(value: PyValue)

  datatype Known = Known(tracked: set<string>, finals: map<string, Final>, escapes: Escapes)

  function Lookup(env: Env, n: string): PyValue
  {
    if n in env then env[n] else Unknown
  }

  function ForeignFinal(known: Known, dotted: string): Final
  {
    match ModuleRel(known.tracked, dotted)
    case None => Ends(Unknown)
    case Some(target) => if target in known.finals then known.finals[target] else Ends(Unknown)
  }

  predicate EndsInNames(f: Final) { f.Ends? && f.value.Names? }

  /** Another module's `__all__`. */
  function ForeignNames(known: Known, dotted: string): PyValue
  {
    var f := ForeignFinal(known, dotted);
    if EndsInNames(f) then f.value else Unknown
  }

  function InsertByOrder(x: string, xs: seq<string>): seq<string>
  {
    if xs == [] || !Less(Points(xs[0]), Points(x)) then [x] + xs else [xs[0]] + InsertByOrder(x, xs[1..])
  }

  function SortNames(xs: seq<string>): seq<string>
  {
    if xs == [] then [] else InsertByOrder(xs[0], SortNames(xs[1..]))
  }

  lemma {:induction false} InsertKeepsNames(x: string, xs: seq<string>)
    ensures multiset(InsertByOrder(x, xs)) == multiset{x} + multiset(xs)
  {
    if xs != [] && Less(Points(xs[0]), Points(x)) {
      InsertKeepsNames(x, xs[1..]);
      assert xs == [xs[0]] + xs[1..];
    }
  }

  lemma {:induction false} SortKeepsNames(xs: seq<string>)
    ensures multiset(SortNames(xs)) == multiset(xs)
  {
    if xs != [] {
      SortKeepsNames(xs[1..]);
      InsertKeepsNames(xs[0], SortNames(xs[1..]));
      assert xs == [xs[0]] + xs[1..];
    }
  }

  /** No name stands after one that it comes before. */
  ghost predicate InOrder(xs: seq<string>)
  {
    forall i, j :: 0 <= i < j < |xs| ==> !Before(Points(xs[j]), Points(xs[i]))
  }

  lemma {:induction false} SortNamesSorts(xs: seq<string>)
    ensures InOrder(SortNames(xs))
  {
    if xs != [] {
      SortNamesSorts(xs[1..]);
      InsertKeepsOrder(xs[0], SortNames(xs[1..]));
    }
  }

  lemma {:induction false} InsertKeepsOrder(x: string, xs: seq<string>)
    requires InOrder(xs)
    ensures InOrder(InsertByOrder(x, xs))
  {
    var ys := InsertByOrder(x, xs);
    if xs == [] || !Less(Points(xs[0]), Points(x)) {
      forall k | 0 <= k < |xs| ensures !Before(Points(xs[k]), Points(x)) {
        NotBeforeEither(xs[k], xs[0], x);
      }
    } else {
      InsertKeepsOrder(x, xs[1..]);
      InsertKeepsNames(x, xs[1..]);
      var rest := InsertByOrder(x, xs[1..]);
      forall y | y in rest ensures !Before(Points(y), Points(xs[0])) {
        assert y in multiset(rest);
        assert y == x || y in xs[1..];
        if y == x { NotBothBefore(xs[0], x); }
      }
      assert ys == [xs[0]] + rest;
    }
  }

  lemma NotBothBefore(a: string, b: string)
    requires Less(Points(a), Points(b))
    ensures !Before(Points(b), Points(a))
  {
    LessIsBefore(Points(b), Points(a));
    LessIsStrictOrder(Points(a), Points(b), Points(a));
  }

  lemma NotBeforeEither(z: string, y: string, x: string)
    requires !Less(Points(y), Points(x)) && (z == y || !Before(Points(z), Points(y)))
    ensures !Before(Points(z), Points(x))
  {
    LessIsBefore(Points(z), Points(x));
    LessIsBefore(Points(z), Points(y));
    LessIsStrictOrder(Points(y), Points(z), Points(x));
    LessIsStrictOrder(Points(z), Points(y), Points(z));
  }

  function Join2(a: PyValue, b: PyValue): PyValue
  {
    if a.Names? && b.Names? then Names(a.xs + b.xs, a.inOrder && b.inOrder) else Unknown
  }

  function Evaluate(known: Known, env: Env, e: Expr): PyValue
    decreases e
  {
    match e
    case Listing(elts) => EvaluateItems(known, env, elts)
    case BinOp(left, op, right) => if op.Add? then Join2(Evaluate(known, env, left), Evaluate(known, env, right)) else Unknown
    case Call(func, args, _) =>
      if !IsSequenceCall(e) then Unknown
      else
        var v := Evaluate(known, env, args[0]);
        if !v.Names? then Unknown else if func.id == "sorted" then Names(SortNames(v.xs), false) else v
    case Name(id) => Lookup(env, id)
    case Attribute(Name(id), attr) =>
      if attr == "__all__" && Lookup(env, id).ModuleRef? then ForeignNames(known, Lookup(env, id).dotted) else Unknown
    case _ => Unknown
  }

  function EvaluateItem(known: Known, env: Env, e: Expr): PyValue
    decreases e
  {
    match e
    case Str(text, _) => Names([text], true)
    case Starred(value) => Evaluate(known, env, value)
    case _ => Unknown
  }

  function EvaluateItems(known: Known, env: Env, elts: seq<Expr>): PyValue
    decreases elts
  {
    if elts == [] then Names([], true) else Join2(EvaluateItem(known, env, elts[0]), EvaluateItems(known, env, elts[1..]))
  }

  // ---------- statements ----------

  /** A lent list or module is not known. */
  function Kept(known: Known, n: string, v: PyValue): PyValue
  {
    if v.Names? && n in known.escapes.lists then Unknown
    else if v.ModuleRef? && n in known.escapes.modules then Unknown
    else v
  }

  function Bind(known: Known, env: Env, n: string, v: PyValue): Env
  {
    env[n := Kept(known, n, v)]
  }

  function Forget(env: Env, names: set<string>): Env
  {
    map n | n in env.Keys + names :: if n in names then Unknown else env[n]
  }

  /** `n.method(args)` on a known list; None is an exception. */
  function CallMethod(known: Known, env: Env, call: Expr): Option<Env>
    requires IsListMethod(call)
  {
    var n := Receiver(call);
    var v := Lookup(env, n);
    if !v.Names? then Some(env)
    else if call.func.attr == "extend" then Some(Bind(known, env, n, Join2(v, Evaluate(known, env, call.args[0]))))
    else if call.func.attr == "append" then
      var item := EvaluateItem(known, env, call.args[0]);
      if call.args[0].Starred? && item.Names? && |item.xs| != 1 then None
      else Some(Bind(known, env, n, Join2(v, item)))
    else if v.xs == [] then None
    else Some(Bind(known, env, n, Names(v.xs[..|v.xs| - 1], v.inOrder)))
  }

  /** The effect of evaluating a right-hand side or expression statement. */
  function Effect(known: Known, env: Env, e: Expr): Option<Env>
  {
    if MutatesAll(e) && "__all__" !in env then None
    else if IsListMethod(e) then CallMethod(known, env, e)
    else Some(env)
  }

  /** The value a plain name is assigned; another name's list is followed only where no list changes. */
  function Assigned(known: Known, env: Env, n: string, value: Expr): PyValue
  {
    if Bare(value) && !(n == "__all__" && known.escapes.frozen) then Unknown else Evaluate(known, env, value)
  }

  predicate OneName(targets: seq<Expr>) { |targets| == 1 && targets[0].Name? }

  function Assignment(known: Known, env: Env, targets: seq<Expr>, value: Expr): Option<Env>
  {
    match Effect(known, env, value)
    case None => None
    case Some(after) =>
      if OneName(targets)
      then Some(Bind(known, after, targets[0].id, Assigned(known, env, targets[0].id, value)))
      else Some(Forget(after, NamesInAll(targets)))
  }

  function Augment(known: Known, env: Env, n: string, op: Operator, value: Expr): Option<Env>
  {
    if n == "__all__" && n !in env then None
    else Some(Bind(known, env, n, if op.Add? then Join2(Lookup(env, n), Evaluate(known, env, value)) else Unknown))
  }

  /** The names that code inside a compound statement or definition binds. */
  function StoredInside(inner: seq<Inner>): set<string>
  {
    if inner == [] then {} else BoundInside(inner[0]) + StoredInside(inner[1..])
  }

  function ImportModule(known: Known, a: Alias, env: Env): Env
  {
    Bind(known, env, PlainBound(a), ModuleRef(if a.asname.Some? then a.name else HeadOf(a.name)))
  }

  function ImportModules(known: Known, names: seq<Alias>, env: Env): Option<Env>
  {
    if names == [] then Some(env)
    else if ForeignFinal(known, HeadOf(names[0].name)).Raises? || ForeignFinal(known, names[0].name).Raises? then None
    else ImportModules(known, names[1..], ImportModule(known, names[0], env))
  }

  /** What one name of a from-import is: an `__all__`, a tracked submodule, or something else. */
  function Imported(known: Known, base: string, a: Alias): Final
  {
    var submodule := base + "." + a.name;
    if base == [] then Ends(Unknown)
    else if ForeignFinal(known, base).Raises? then Raises
    else if a.name == "__all__" then Ends(ForeignNames(known, base))
    else if ModuleRel(known.tracked, submodule).None? then Ends(Unknown)
    else if ForeignFinal(known, submodule).Raises? then Raises
    else Ends(ModuleRef(submodule))
  }

  function ImportNames(known: Known, base: string, names: seq<Alias>, env: Env): Option<Env>
  {
    if names == [] then Some(env)
    else match Imported(known, base, names[0])
      case Raises => None
      case Ends(v) => ImportNames(known, base, names[1..], Bind(known, env, names[0].Bound(), v))
  }

  /** One statement; None is an exception, such as mutating `__all__` before it is bound. */
  function Execute(known: Known, rel: string, stmt: Stmt, env: Env): Option<Env>
  {
    match stmt
    case Assign(targets, value, _) => Assignment(known, env, targets, value)
    case AnnAssign(target, _, None, _) => Some(env)
    case AnnAssign(target, _, Some(value), _) => Assignment(known, env, [target], value)
    case AugAssign(target, op, value, _) =>
      if target.Name? then Augment(known, env, target.id, op, value) else Some(Forget(env, NamesIn(target)))
    case ExprStmt(value, _) => Effect(known, env, value)
    case Import(names) => ImportModules(known, names, env)
    case ImportFrom(level, from, names) => ImportNames(known, AbsoluteModule(rel, level, from), names, env)
    case OtherStmt(inner) => Some(Forget(env, StoredInside(inner)))
  }

  function ExecuteAll(known: Known, rel: string, stmts: seq<Stmt>, env: Env): Option<Env>
  {
    if stmts == [] then Some(env)
    else match Execute(known, rel, stmts[0], env)
      case None => None
      case Some(next) => ExecuteAll(known, rel, stmts[1..], next)
  }

  /** How a module ends, with nothing known of the modules that are still being imported. */
  ghost function Meaning(mods: Modules, reach: Reach, rel: string, chain: set<string>): Final
    decreases mods.Keys - chain
  {
    if rel in chain || rel !in mods || mods[rel].None? || RebindsBuiltins(reach, mods[rel].value) then Ends(Unknown)
    else
      var known := Known(mods.Keys, Meanings(mods, reach, rel, chain), EscapesOf(reach, mods[rel].value));
      match ExecuteAll(known, rel, mods[rel].value, map[])
      case None => Raises
      case Some(env) => Ends(Lookup(env, "__all__"))
  }

  ghost function Meanings(mods: Modules, reach: Reach, rel: string, chain: set<string>): map<string, Final>
    requires rel in mods && rel !in chain
    decreases mods.Keys - chain, 0
  {
    assert rel in mods.Keys - chain && rel !in mods.Keys - (chain + {rel});
    map m | m in mods :: Meaning(mods, reach, m, chain + {rel})
  }

  // ---------- the fragment ----------

  /** The forms the resolver reads a list from. */
  predicate ListShaped(e: Expr)
    decreases e
  {
    match e
    case Listing(elts) => ItemsShaped(elts)
    case BinOp(left, op, right) => op.Add? && ListShaped(left) && ListShaped(right)
    case Call(_, args, _) => IsSequenceCall(e) && ListShaped(args[0])
    case Name(_) => true
    case Attribute(value, attr) => value.Name? && attr == "__all__"
    case _ => false
  }

  predicate ItemShaped(e: Expr)
    decreases e
  {
    e.Str? || (e.Starred? && ListShaped(e.value))
  }

  predicate ItemsShaped(elts: seq<Expr>)
    decreases elts
  {
    elts == [] || (ItemShaped(elts[0]) && ItemsShaped(elts[1..]))
  }

  /** The names a statement makes known to the resolver as lists. */
  function ListNames(rel: string, stmt: Stmt): set<string>
  {
    match stmt
    case ImportFrom(level, from, names) =>
      if AbsoluteModule(rel, level, from) == [] then {} else set a | a in names && a.name == "__all__" :: a.Bound()
    case Assign(targets, value, _) =>
      if ListShaped(value) && !Bare(value) then ToNames(PlainNames(targets)) - {"__all__"} else {}
    case AnnAssign(target, _, Some(value), _) =>
      if ListShaped(value) && !Bare(value) then ToNames(PlainNames([target])) - {"__all__"} else {}
    case _ => {}
  }

  predicate IsSubmodule(tracked: set<string>, base: string, a: Alias)
  {
    base != [] && a.name != "__all__" && ModuleRel(tracked, base + "." + a.name).Some?
  }

  /** The names a statement makes known to the resolver as tracked modules. */
  function ModuleNames(tracked: set<string>, rel: string, stmt: Stmt): set<string>
  {
    match stmt
    case ImportFrom(level, from, names) =>
      set a | a in names && IsSubmodule(tracked, AbsoluteModule(rel, level, from), a) :: a.Bound()
    case Import(names) => set a | a in names && a.asname.Some? && ModuleRel(tracked, a.name).Some? :: a.asname.value
    case _ => {}
  }

  function Recorded(tracked: set<string>, rel: string, stmt: Stmt): set<string>
  {
    ListNames(rel, stmt) + ModuleNames(tracked, rel, stmt)
  }

  /** Statements that the resolver never walks past. */
  predicate Refused(stmt: Stmt)
  {
    match stmt
    case OtherStmt(_) => HiddenMutation(stmt)
    case ExprStmt(value, _) => MutatesAll(value) && (!IsListMethod(value) || value.func.attr == "pop")
    case Assign(targets, _, _) => (exists t :: t in targets && MentionsAll(t)) && !(|targets| == 1 && targets[0].Name?)
    case AnnAssign(target, _, _, _) => MentionsAll(target) && !target.Name?
    case _ => false
  }

  ghost predicate NoRepeats(names: seq<string>)
  {
    forall i, j :: 0 <= i < j < |names| ==> names[i] != names[j]
  }

  ghost predicate PlainImport(bound: seq<string>)
  {
    NoRepeats(bound) && "__all__" !in bound
  }

  /** One statement hides nothing from the resolver, in a module with these escapes. */
  ghost predicate TraceableStatement(tracked: set<string>, escapes: Escapes, rel: string, stmt: Stmt)
  {
    && ListNames(rel, stmt) !! escapes.lists && ModuleNames(tracked, rel, stmt) !! escapes.modules
    && ("__all__" in Lends(HeldList, stmt) ==> Refused(stmt))
    && (AliasesAll(stmt) ==> escapes.frozen)
    && match stmt
       case Assign(_, value, _) => !MutatesAll(value)
       case AnnAssign(_, _, value, _) => value.Some? ==> !MutatesAll(value.value)
       case Import(names) => PlainImport(PlainBoundNames(names))
       case ImportFrom(_, _, names) => PlainImport(BoundNames(names))
       case _ => true
  }

  /**
    A module whose lists and modules, once the resolver has recorded them under a name, are
    neither lent nor changed nor rebound by anything but an assignment.
   */
  ghost predicate Traceable(tracked: set<string>, reach: Reach, rel: string, stmts: seq<Stmt>)
  {
    && !RebindsBuiltins(reach, stmts) && Covers(reach, stmts) && "__all__" !in reach.changed
    && (forall s :: s in stmts ==> TraceableStatement(tracked, EscapesOf(reach, stmts), rel, s))
    && forall i, j :: 0 <= i < j < |stmts| ==> Recorded(tracked, rel, stmts[i]) !! Rebinds(stmts[j])
  }

  /** Constants, tables and calls may be assigned freely: such a statement is traceable in every module. */
  lemma OtherValuesAreTraceable(tracked: set<string>, escapes: Escapes, rel: string, n: string, value: Expr, line: nat)
    requires n != "__all__" && !ListShaped(value) && !MutatesAll(value) && "__all__" !in LentByRoot(HeldList, value)
    ensures var stmt := Assign([Name(n)], value, line);
      TraceableStatement(tracked, escapes, rel, stmt) && Recorded(tracked, rel, stmt) == {}
  {
    assert "__all__" !in Lends(HeldList, Assign([Name(n)], value, line));
  }

  // ---------- the resolver's bindings describe the environment ----------

  /** The resolved list has the value's names, with the same multiplicities, and in order unless they were sorted. */
  ghost predicate Describes(exports: Option<seq<Export>>, v: PyValue)
  {
    exports.Some? ==>
      v.Names? && multiset(NamesOf(exports.value)) == multiset(v.xs) && (v.inOrder ==> NamesOf(exports.value) == v.xs)
  }

  ghost predicate ForeignDescribed(ctx: Context, known: Known)
  {
    && ctx.tracked == known.tracked && "__all__" !in known.escapes.lists
    && forall m :: m in ctx.foreign ==>
      m in known.finals && (known.finals[m].Raises? || Describes(Some(ctx.foreign[m].names), known.finals[m].value))
  }

  /** v is what importing the module's `__all__` binds. */
  ghost predicate ImportsNames(known: Known, dotted: string, v: PyValue)
  {
    ForeignFinal(known, dotted).Ends? && v == ForeignNames(known, dotted)
  }

  ghost predicate BindingsDescribe(b: Bindings, known: Known, env: Env, recorded: set<string>)
  {
    && (forall n :: n in b.sequences && b.sequences[n].Some? ==>
         n in recorded && n !in known.escapes.lists && Describes(b.sequences[n], Lookup(env, n)))
    && (forall n :: n in b.importedAll ==>
         n in recorded && n !in known.escapes.lists && ImportsNames(known, b.importedAll[n], Lookup(env, n)))
    && (forall n :: n in b.aliases && ModuleRel(known.tracked, b.aliases[n]).Some? ==>
         && n in recorded && n !in known.escapes.modules && Lookup(env, n) == ModuleRef(b.aliases[n])
         && ForeignFinal(known, b.aliases[n]).Ends?)
  }

  ghost predicate StateDescribes(current: Option<seq<Export>>, b: Bindings, known: Known, env: Env,
      recorded: set<string>)
  {
    Describes(current, Lookup(env, "__all__")) && BindingsDescribe(b, known, env, recorded) && "__all__" !in recorded
  }

  lemma ConcatDescribes(a: seq<Export>, b: seq<Export>, v: PyValue, w: PyValue)
    requires Describes(Some(a), v) && Describes(Some(b), w)
    ensures Describes(Some(a + b), Join2(v, w))
  {
    assert NamesOf(a + b) == NamesOf(a) + NamesOf(b);
  }

  lemma {:induction false} SequenceDescribes(ctx: Context, known: Known, rel: string, e: Expr,
      current: Option<seq<Export>>, b: Bindings, env: Env, recorded: set<string>)
    requires ForeignDescribed(ctx, known) && StateDescribes(current, b, known, env, recorded)
    ensures Describes(Sequence(ctx, rel, e, current, b), Evaluate(known, env, e))
    decreases e
  {
    if Sequence(ctx, rel, e, current, b).Some? {
      match e
      case Listing(elts) => ElementsDescribe(ctx, known, rel, elts, current, b, env, recorded);
      case BinOp(left, _, right) =>
        SequenceDescribes(ctx, known, rel, left, current, b, env, recorded);
        SequenceDescribes(ctx, known, rel, right, current, b, env, recorded);
        ConcatDescribes(Sequence(ctx, rel, left, current, b).value, Sequence(ctx, rel, right, current, b).value,
                        Evaluate(known, env, left), Evaluate(known, env, right));
      case Call(func, args, _) =>
        SequenceDescribes(ctx, known, rel, args[0], current, b, env, recorded);
        SortKeepsNames(Evaluate(known, env, args[0]).xs);
      case Name(id) =>
      case Attribute(value, _) =>
        assert Lookup(env, value.id) == ModuleRef(b.aliases[value.id]);
      case _ =>
    }
  }

  lemma {:induction false} ElementDescribes(ctx: Context, known: Known, rel: string, e: Expr,
      current: Option<seq<Export>>, b: Bindings, env: Env, recorded: set<string>)
    requires ForeignDescribed(ctx, known) && StateDescribes(current, b, known, env, recorded)
    ensures Describes(Element(ctx, rel, e, current, b), EvaluateItem(known, env, e))
    decreases e
  {
    match e
    case Str(text, line) => assert NamesOf([Export(text, Origin(rel, line))]) == [text];
    case Starred(value) => SequenceDescribes(ctx, known, rel, value, current, b, env, recorded);
    case _ =>
  }

  lemma {:induction false} ElementsDescribe(ctx: Context, known: Known, rel: string, elts: seq<Expr>,
      current: Option<seq<Export>>, b: Bindings, env: Env, recorded: set<string>)
    requires ForeignDescribed(ctx, known) && StateDescribes(current, b, known, env, recorded)
    ensures Describes(Elements(ctx, rel, elts, current, b), EvaluateItems(known, env, elts))
    decreases elts
  {
    if elts == [] {
      assert NamesOf([]) == [];
    } else if Elements(ctx, rel, elts, current, b).Some? {
      ElementDescribes(ctx, known, rel, elts[0], current, b, env, recorded);
      ElementsDescribe(ctx, known, rel, elts[1..], current, b, env, recorded);
      ConcatDescribes(Element(ctx, rel, elts[0], current, b).value, Elements(ctx, rel, elts[1..], current, b).value,
                      EvaluateItem(known, env, elts[0]), EvaluateItems(known, env, elts[1..]));
    }
  }

  // ---------- what a statement mentions ----------

  lemma {:induction false} MentionsAllIsNamed(e: Expr)
    ensures MentionsAll(e) <==> "__all__" in NamesIn(e)
    decreases e
  {
    match e
    case Listing(elts) => MentionedInAll(elts);
    case BinOp(left, _, right) => MentionsAllIsNamed(left); MentionsAllIsNamed(right);
    case Call(func, args, keywords) => MentionsAllIsNamed(func); MentionedInAll(args); MentionedInAll(keywords);
    case Attribute(value, _) => MentionsAllIsNamed(value);
    case Starred(value) => MentionsAllIsNamed(value);
    case OtherExpr(children, _) => MentionedInAll(children);
    case _ =>
  }

  lemma {:induction false} MentionedInAll(es: seq<Expr>)
    ensures (exists x :: x in es && MentionsAll(x)) <==> "__all__" in NamesInAll(es)
    decreases es
  {
    if es != [] {
      MentionsAllIsNamed(es[0]);
      MentionedInAll(es[1..]);
      assert es == [es[0]] + es[1..];
      assert forall x :: x in es <==> x == es[0] || x in es[1..];
    }
  }

  /** A compound statement lends the names it binds, and `__all__` when it touches it. */
  lemma {:induction false} StoredIsLent(held: Held, inner: seq<Inner>)
    requires !held.HeldForeign?
    ensures StoredInside(inner) <= LentInsideAll(held, inner)
    ensures held.HeldList? && (exists x :: x in inner && Touches(x)) ==> "__all__" in LentInsideAll(held, inner)
  {
    if inner != [] {
      StoredIsLent(held, inner[1..]);
      assert forall x :: x in inner <==> x == inner[0] || x in inner[1..];
    }
  }

  /** Every plain target name is among the names of the targets. */
  lemma {:induction false} PlainNamesAreNamed(targets: seq<Expr>)
    ensures ToNames(PlainNames(targets)) <= NamesInAll(targets)
    decreases |targets|
  {
    if targets != [] {
      PlainNamesAreNamed(targets[1..]);
    }
  }

  /** Only these forms resolve. */
  lemma {:induction false} OnlyListsResolve(ctx: Context, rel: string, e: Expr, current: Option<seq<Export>>, b: Bindings)
    requires Sequence(ctx, rel, e, current, b).Some?
    ensures ListShaped(e)
    decreases e
  {
    match e
    case Listing(elts) => OnlyItemsResolve(ctx, rel, elts, current, b);
    case BinOp(left, _, right) =>
      OnlyListsResolve(ctx, rel, left, current, b);
      OnlyListsResolve(ctx, rel, right, current, b);
    case Call(_, args, _) => OnlyListsResolve(ctx, rel, args[0], current, b);
    case _ =>
  }

  lemma {:induction false} OnlyItemsResolve(ctx: Context, rel: string, elts: seq<Expr>, current: Option<seq<Export>>,
      b: Bindings)
    requires Elements(ctx, rel, elts, current, b).Some?
    ensures ItemsShaped(elts)
    decreases elts
  {
    if elts != [] {
      OnlyItemResolves(ctx, rel, elts[0], current, b);
      OnlyItemsResolve(ctx, rel, elts[1..], current, b);
    }
  }

  lemma {:induction false} OnlyItemResolves(ctx: Context, rel: string, e: Expr, current: Option<seq<Export>>, b: Bindings)
    requires Element(ctx, rel, e, current, b).Some?
    ensures ItemShaped(e)
    decreases e
  {
    if e.Starred? {
      OnlyListsResolve(ctx, rel, e.value, current, b);
    }
  }

  // ---------- statements keep the description ----------

  /** Nothing the resolver still relies on was recorded under n. */
  predicate Unclaimed(b: Bindings, tracked: set<string>, n: string)
  {
    && (n in b.sequences ==> b.sequences[n].None?) && n !in b.importedAll
    && (n in b.aliases ==> ModuleRel(tracked, b.aliases[n]).None?)
  }

  lemma UnrecordedIsUnclaimed(current: Option<seq<Export>>, b: Bindings, known: Known, env: Env, recorded: set<string>,
      n: string)
    requires StateDescribes(current, b, known, env, recorded)
    requires n !in recorded || (n in known.escapes.lists && n in known.escapes.modules)
    ensures Unclaimed(b, known.tracked, n)
  {}

  /** Names the resolver relies on keep their values. */
  lemma OthersKeepDescription(current: Option<seq<Export>>, b: Bindings, known: Known, env: Env, env': Env,
      recorded: set<string>)
    requires StateDescribes(current, b, known, env, recorded)
    requires forall n :: (n in recorded && !Unclaimed(b, known.tracked, n)) || n == "__all__" ==> Lookup(env', n) == Lookup(env, n)
    ensures StateDescribes(current, b, known, env', recorded)
  {}

  lemma MoreRecorded(current: Option<seq<Export>>, b: Bindings, known: Known, env: Env, recorded: set<string>,
      more: set<string>)
    requires StateDescribes(current, b, known, env, recorded) && "__all__" !in more
    ensures StateDescribes(current, b, known, env, recorded + more)
  {}

  // imports

  ghost predicate RecordsAlias(known: Known, base: string, a: Alias, recorded: set<string>)
  {
    && (a.name == "__all__" && base != [] ==> a.Bound() in recorded && a.Bound() !in known.escapes.lists)
    && (IsSubmodule(known.tracked, base, a) ==> a.Bound() in recorded && a.Bound() !in known.escapes.modules)
  }

  /** Recording an import whose value the name already has. */
  lemma AliasRecorded(known: Known, base: string, a: Alias, current: Option<seq<Export>>, b: Bindings, env: Env,
      recorded: set<string>)
    requires StateDescribes(current, b, known, env, recorded) && RecordsAlias(known, base, a, recorded)
    requires Imported(known, base, a).Ends? && Lookup(env, a.Bound()) == Kept(known, a.Bound(), Imported(known, base, a).value)
    ensures StateDescribes(current, RecordAlias(known.tracked, base, a, b), known, env, recorded)
  {}

  lemma ImportOneDescribes(known: Known, base: string, a: Alias, current: Option<seq<Export>>, b: Bindings, env: Env,
      recorded: set<string>)
    requires StateDescribes(current, b, known, env, recorded) && Unclaimed(b, known.tracked, a.Bound())
    requires a.Bound() != "__all__" && RecordsAlias(known, base, a, recorded) && Imported(known, base, a).Ends?
    ensures StateDescribes(current, RecordAlias(known.tracked, base, a, b), known,
                           Bind(known, env, a.Bound(), Imported(known, base, a).value), recorded)
  {
    var env' := Bind(known, env, a.Bound(), Imported(known, base, a).value);
    OthersKeepDescription(current, b, known, env, env', recorded);
    AliasRecorded(known, base, a, current, b, env', recorded);
  }

  lemma {:induction false} ImportsDescribe(known: Known, base: string, names: seq<Alias>, current: Option<seq<Export>>,
      b: Bindings, env: Env, recorded: set<string>)
    requires StateDescribes(current, b, known, env, recorded) && PlainImport(BoundNames(names))
    requires forall n :: n in BoundNames(names) ==> Unclaimed(b, known.tracked, n)
    requires forall a :: a in names ==> RecordsAlias(known, base, a, recorded)
    requires ImportNames(known, base, names, env).Some?
    ensures StateDescribes(current, RecordAliases(known.tracked, base, names, b), known,
                           ImportNames(known, base, names, env).value, recorded)
    decreases |names|
  {
    if names != [] {
      var a, rest := names[0], BoundNames(names[1..]);
      assert a.Bound() == BoundNames(names)[0] && a in names;
      ImportOneDescribes(known, base, a, current, b, env, recorded);
      var b' := RecordAlias(known.tracked, base, a, b);
      forall n | n in rest ensures Unclaimed(b', known.tracked, n) && n != "__all__" {
        var k :| 0 <= k < |rest| && rest[k] == n;
        assert BoundNames(names)[k + 1] == n && BoundNames(names)[0] != n;
        assert n in BoundNames(names);
      }
      RestHasNoRepeats(BoundNames(names), rest);
      ImportsDescribe(known, base, names[1..], current, b', Bind(known, env, a.Bound(), Imported(known, base, a).value), recorded);
    }
  }

  lemma RestHasNoRepeats(names: seq<string>, rest: seq<string>)
    requires names != [] && NoRepeats(names) && rest == names[1..]
    ensures NoRepeats(rest)
  {
    forall i, j | 0 <= i < j < |rest| ensures rest[i] != rest[j] { assert names[i + 1] != names[j + 1]; }
  }

  ghost predicate RecordsModule(known: Known, a: Alias, recorded: set<string>)
  {
    && a.asname.Some? && ModuleRel(known.tracked, a.name).Some?
    ==> a.asname.value in recorded && a.asname.value !in known.escapes.modules
  }

  lemma ImportModuleDescribes(known: Known, a: Alias, current: Option<seq<Export>>, b: Bindings, env: Env,
      recorded: set<string>)
    requires StateDescribes(current, b, known, env, recorded) && Unclaimed(b, known.tracked, PlainBound(a))
    requires PlainBound(a) != "__all__" && RecordsModule(known, a, recorded) && ForeignFinal(known, a.name).Ends?
    ensures StateDescribes(current, RecordPlainImport(a, b), known, ImportModule(known, a, env), recorded)
  {
    OthersKeepDescription(current, b, known, env, ImportModule(known, a, env), recorded);
  }

  lemma {:induction false} ModuleImportsDescribe(known: Known, names: seq<Alias>, current: Option<seq<Export>>,
      b: Bindings, env: Env, recorded: set<string>)
    requires StateDescribes(current, b, known, env, recorded) && PlainImport(PlainBoundNames(names))
    requires forall n :: n in PlainBoundNames(names) ==> Unclaimed(b, known.tracked, n)
    requires forall a :: a in names ==> RecordsModule(known, a, recorded)
    requires ImportModules(known, names, env).Some?
    ensures StateDescribes(current, RecordPlainImports(names, b), known, ImportModules(known, names, env).value, recorded)
    decreases |names|
  {
    if names != [] {
      var a, rest := names[0], PlainBoundNames(names[1..]);
      assert PlainBound(a) == PlainBoundNames(names)[0] && a in names;
      ImportModuleDescribes(known, a, current, b, env, recorded);
      var b' := RecordPlainImport(a, b);
      forall n | n in rest ensures Unclaimed(b', known.tracked, n) && n != "__all__" {
        var k :| 0 <= k < |rest| && rest[k] == n;
        assert PlainBoundNames(names)[k + 1] == n && PlainBoundNames(names)[0] != n;
        assert n in PlainBoundNames(names);
      }
      RestHasNoRepeats(PlainBoundNames(names), rest);
      ModuleImportsDescribe(known, names[1..], current, b', ImportModule(known, a, env), recorded);
    }
  }

  // assignments

  function Unbound(b: Bindings, n: string): Bindings
  {
    b.(importedAll := b.importedAll - {n}, aliases := b.aliases - {n})
  }

  lemma NameDropped(current: Option<seq<Export>>, b: Bindings, known: Known, env: Env, recorded: set<string>, n: string)
    requires StateDescribes(current, b, known, env, recorded)
    ensures StateDescribes(current, Unbound(b, n), known, env, recorded)
  {}

  /** An assigned name is lent, and `m.__all__` is not assigned. */
  predicate LendsBare(known: Known, value: Option<Expr>)
  {
    value.Some? && Bare(value.value)
    ==> Lent(HeldList, value.value) <= known.escapes.lists && "__all__" !in Lent(HeldForeign, value.value)
  }

  /** The resolver follows no name that the module lends by assigning it. */
  lemma LentDoesNotResolve(ctx: Context, known: Known, rel: string, e: Expr, current: Option<seq<Export>>,
      b: Bindings, env: Env, recorded: set<string>)
    requires ForeignDescribed(ctx, known) && StateDescribes(current, b, known, env, recorded) && Bare(e)
    requires LendsBare(known, Some(e))
    ensures Sequence(ctx, rel, e, current, b).None?
  {
    if e.Name? {
      assert e.id in known.escapes.lists;
    }
  }

  /** A value that is no list of its own binds nothing. */
  lemma NoListIsUnclaimed(ctx: Context, known: Known, rel: string, n: string, value: Option<Expr>,
      current: Option<seq<Export>>, b: Bindings, env: Env, recorded: set<string>)
    requires ForeignDescribed(ctx, known) && StateDescribes(current, b, known, env, recorded)
    requires LendsBare(known, value) && (value.Some? && ListShaped(value.value) ==> Bare(value.value))
    ensures Unclaimed(BindName(ctx, rel, n, value, current, b), known.tracked, n)
  {
    NameDropped(current, b, known, env, recorded, n);
    if value.Some? && Sequence(ctx, rel, value.value, current, Unbound(b, n)).Some? {
      OnlyListsResolve(ctx, rel, value.value, current, Unbound(b, n));
      LentDoesNotResolve(ctx, known, rel, value.value, current, Unbound(b, n), env, recorded);
    }
  }

  /** Binding one name to what the resolver makes of a value. */
  lemma BindNameDescribes(ctx: Context, known: Known, rel: string, n: string, value: Option<Expr>,
      current: Option<seq<Export>>, b: Bindings, env: Env, env': Env, recorded: set<string>)
    requires ForeignDescribed(ctx, known) && StateDescribes(current, b, known, env, recorded) && n != "__all__"
    requires forall m :: m != n ==> Lookup(env', m) == Lookup(env, m)
    requires LendsBare(known, value)
    requires value.Some? && ListShaped(value.value) && !Bare(value.value)
      ==> n in recorded && n !in known.escapes.lists && Lookup(env', n) == Evaluate(known, env, value.value)
    ensures StateDescribes(current, BindName(ctx, rel, n, value, current, b), known, env', recorded)
  {
    var unbound := Unbound(b, n);
    NameDropped(current, b, known, env, recorded, n);
    if value.Some? && Sequence(ctx, rel, value.value, current, unbound).Some? {
      OnlyListsResolve(ctx, rel, value.value, current, unbound);
      if Bare(value.value) {
        LentDoesNotResolve(ctx, known, rel, value.value, current, unbound, env, recorded);
      }
      SequenceDescribes(ctx, known, rel, value.value, current, unbound, env, recorded);
    }
  }

  /** Binding several names to a value that the resolver cannot read. */
  lemma {:induction false} BindNamesDescribes(ctx: Context, known: Known, rel: string, names: seq<string>,
      value: Option<Expr>, current: Option<seq<Export>>, b: Bindings, env: Env, recorded: set<string>)
    requires ForeignDescribed(ctx, known) && StateDescribes(current, b, known, env, recorded) && "__all__" !in names
    requires value.Some? && ListShaped(value.value) ==> Bare(value.value)
    requires LendsBare(known, value)
    ensures var b' := BindNames(ctx, rel, names, value, current, b);
      && StateDescribes(current, b', known, env, recorded)
      && (forall n :: n in names || Unclaimed(b, known.tracked, n) ==> Unclaimed(b', known.tracked, n))
    decreases |names|
  {
    if names != [] {
      var n, b' := names[0], BindName(ctx, rel, names[0], value, current, b);
      BindNameDescribes(ctx, known, rel, n, value, current, b, env, env, recorded);
      BindNamesDescribes(ctx, known, rel, names[1..], value, current, b', env, recorded);
      NoListIsUnclaimed(ctx, known, rel, n, value, current, b, env, recorded);
    }
  }

  /** The statement lends only what the module is known to lend. */
  ghost predicate LendsKnown(known: Known, stmt: Stmt)
  {
    && Lends(HeldList, stmt) <= known.escapes.lists && Lends(HeldModule, stmt) <= known.escapes.modules
    && ("__all__" in Lends(HeldForeign, stmt) ==> "__all__" in known.escapes.lists)
  }

  /** What is asked of a statement that is executed when these names are recorded. */
  ghost predicate Walkable(ctx: Context, known: Known, rel: string, stmt: Stmt, recorded: set<string>)
  {
    && ForeignDescribed(ctx, known) && TraceableStatement(known.tracked, known.escapes, rel, stmt)
    && LendsKnown(known, stmt) && Rebinds(stmt) !! recorded
  }

  /** An in-place change that the resolver does not follow is to a name it has not recorded. */
  lemma EffectKeepsDescription(known: Known, e: Expr, current: Option<seq<Export>>, b: Bindings, env: Env,
      recorded: set<string>)
    requires StateDescribes(current, b, known, env, recorded)
    requires !MutatesAll(e) && ChangedByRoot(e) !! recorded && Effect(known, env, e).Some?
    ensures var env' := Effect(known, env, e).value;
      && StateDescribes(current, b, known, env', recorded)
      && forall n :: n !in ChangedByRoot(e) ==> Lookup(env', n) == Lookup(env, n) && (n in env' <==> n in env)
  {
    OthersKeepDescription(current, b, known, env, Effect(known, env, e).value, recorded);
  }

  /** A new value for `__all__` itself. */
  lemma AllBound(next: Option<seq<Export>>, current: Option<seq<Export>>, b: Bindings, known: Known, env: Env,
      recorded: set<string>, v: PyValue)
    requires StateDescribes(current, b, known, env, recorded) && Describes(next, v) && "__all__" !in known.escapes.lists
    ensures StateDescribes(next, b, known, Bind(known, env, "__all__", v), recorded)
  {
    OthersKeepDescription(current, b, known, env, env, recorded);
  }

  lemma BindNamesOfOne(ctx: Context, rel: string, n: string, value: Option<Expr>, current: Option<seq<Export>>,
      b: Bindings)
    ensures BindNames(ctx, rel, [n], value, current, b) == BindName(ctx, rel, n, value, current, b)
  {
    assert [n][1..] == [];
    var next := BindName(ctx, rel, n, value, current, b);
    assert BindNames(ctx, rel, [], value, current, next) == next;
  }

  lemma OneTarget(target: Expr)
    ensures PlainNames([target]) == (if target.Name? then [target.id] else [])
    ensures NamesInAll([target]) == NamesIn(target)
    ensures (exists t :: t in [target] && MentionsAll(t)) <==> MentionsAll(target)
  {
    assert [target][1..] == [] && NamesInAll([]) == {};
    assert target in [target];
  }

  /** Assigning `__all__`. */
  lemma AllAssignmentDescribes(ctx: Context, known: Known, rel: string, stmt: Stmt, value: Expr, w: Walk, env: Env,
      recorded: set<string>)
    requires Walkable(ctx, known, rel, stmt, recorded) && StateDescribes(w.current, w.b, known, env, recorded)
    requires (stmt.Assign? || stmt.AnnAssign?) && Targets(stmt) == [Name("__all__")] && Value(stmt) == Some(value)
    requires Sequence(ctx, rel, value, w.current, w.b).Some?
    requires Assignment(known, env, Targets(stmt), value).Some?
    ensures StateDescribes(Sequence(ctx, rel, value, w.current, w.b), w.b, known,
                           Assignment(known, env, Targets(stmt), value).value, recorded)
  {
    SequenceDescribes(ctx, known, rel, value, w.current, w.b, env, recorded);
    OnlyListsResolve(ctx, rel, value, w.current, w.b);
    assert Bare(value) ==> AliasesAll(stmt);
    AllBound(Sequence(ctx, rel, value, w.current, w.b), w.current, w.b, known, env, recorded, Evaluate(known, env, value));
  }

  /** What an assignment to one name lends and records. */
  lemma AssignedNameIsSafe(ctx: Context, known: Known, rel: string, stmt: Stmt, n: string, value: Expr, recorded: set<string>)
    requires Walkable(ctx, known, rel, stmt, recorded) && n != "__all__"
    requires (stmt.Assign? || stmt.AnnAssign?) && Targets(stmt) == [Name(n)] && Value(stmt) == Some(value)
    ensures !MutatesAll(value) && ChangedByRoot(value) !! recorded && LendsBare(known, Some(value))
    ensures ListShaped(value) && !Bare(value) ==> n in ListNames(rel, stmt) && n !in known.escapes.lists
  {
    OneTarget(Name(n));
    assert n in ToNames([n]);
  }

  /** Assigning one other name. */
  lemma OneAssignmentDescribes(ctx: Context, known: Known, rel: string, n: string, value: Expr,
      current: Option<seq<Export>>, b: Bindings, env: Env, recorded: set<string>, more: set<string>)
    requires ForeignDescribed(ctx, known) && StateDescribes(current, b, known, env, recorded)
    requires n != "__all__" && "__all__" !in more && Assignment(known, env, [Name(n)], value).Some?
    requires !MutatesAll(value) && ChangedByRoot(value) !! recorded && LendsBare(known, Some(value))
    requires ListShaped(value) && !Bare(value) ==> n in more && n !in known.escapes.lists
    ensures StateDescribes(current, BindName(ctx, rel, n, Some(value), current, b), known,
                           Assignment(known, env, [Name(n)], value).value, recorded + more)
  {
    var after, env' := Effect(known, env, value).value, Assignment(known, env, [Name(n)], value).value;
    EffectKeepsDescription(known, value, current, b, env, recorded);
    MoreRecorded(current, b, known, after, recorded, more);
    assert !IsListMethod(value) ==> after == env;
    BindNameDescribes(ctx, known, rel, n, Some(value), current, b, after, env', recorded + more);
  }

  /** What an assignment to several targets lends and records. */
  lemma AssignedTargetsAreLent(ctx: Context, known: Known, rel: string, stmt: Stmt, value: Expr, recorded: set<string>)
    requires Walkable(ctx, known, rel, stmt, recorded)
    requires (stmt.Assign? || stmt.AnnAssign?) && Value(stmt) == Some(value) && !OneName(Targets(stmt))
    ensures !MutatesAll(value) && ChangedByRoot(value) !! recorded && LendsBare(known, Some(value))
    ensures NamesInAll(Targets(stmt)) <= known.escapes.lists && NamesInAll(Targets(stmt)) <= known.escapes.modules
    ensures "__all__" !in NamesInAll(Targets(stmt))
    ensures ListShaped(value) && !Bare(value) ==> PlainNames(Targets(stmt)) == []
  {
    var names := PlainNames(Targets(stmt));
    assert NamesInAll(Targets(stmt)) <= Lends(HeldList, stmt) && NamesInAll(Targets(stmt)) <= Lends(HeldModule, stmt);
    PlainNamesAreNamed(Targets(stmt));
    FirstIsNamed(names);
  }

  /** Assigning several targets, or one that is not a plain name: nothing is recorded. */
  lemma OtherAssignmentDescribes(ctx: Context, known: Known, rel: string, targets: seq<Expr>, value: Expr,
      current: Option<seq<Export>>, b: Bindings, env: Env, recorded: set<string>)
    requires ForeignDescribed(ctx, known) && StateDescribes(current, b, known, env, recorded)
    requires !OneName(targets) && Assignment(known, env, targets, value).Some?
    requires !MutatesAll(value) && ChangedByRoot(value) !! recorded && LendsBare(known, Some(value))
    requires NamesInAll(targets) <= known.escapes.lists && NamesInAll(targets) <= known.escapes.modules
    requires ListShaped(value) && !Bare(value) ==> PlainNames(targets) == []
    ensures StateDescribes(current, BindNames(ctx, rel, PlainNames(targets), Some(value), current, b), known,
                           Assignment(known, env, targets, value).value, recorded)
  {
    var after, names := Effect(known, env, value).value, PlainNames(targets);
    EffectKeepsDescription(known, value, current, b, env, recorded);
    PlainNamesAreNamed(targets);
    forall n | n in NamesInAll(targets) ensures Unclaimed(b, known.tracked, n) {
      UnrecordedIsUnclaimed(current, b, known, env, recorded, n);
    }
    OthersKeepDescription(current, b, known, after, Forget(after, NamesInAll(targets)), recorded);
    if names != [] {
      forall n | n in names ensures n in NamesInAll(targets) { assert n in ToNames(names); }
      BindNamesDescribes(ctx, known, rel, names, Some(value), current, b, Forget(after, NamesInAll(targets)), recorded);
    }
  }

  lemma FirstIsNamed(names: seq<string>)
    ensures names == [] || names[0] in ToNames(names)
  {}

  /** What the resolver's walk over an assignment amounts to. */
  lemma AssignmentAdvances(ctx: Context, rel: string, stmt: Stmt, w: Walk)
    requires (stmt.Assign? || stmt.AnnAssign?) && Advance(ctx, rel, stmt, w).Some?
    ensures var next, targets, value := Advance(ctx, rel, stmt, w).value, Targets(stmt), Value(stmt);
      if "__all__" in NamesInAll(targets) then
        && targets == [Name("__all__")] && value.Some? && next.b == w.b
        && next.current == Sequence(ctx, rel, value.value, w.current, w.b) && next.current.Some?
      else next.current == w.current && next.b == BindNames(ctx, rel, PlainNames(targets), value, w.current, w.b)
  {
    MentionedInAll(Targets(stmt));
    if |Targets(stmt)| == 1 {
      assert Targets(stmt) == [Targets(stmt)[0]];
      OneTarget(Targets(stmt)[0]);
    }
  }

  lemma AssignmentDescribes(ctx: Context, known: Known, rel: string, stmt: Stmt, value: Expr, w: Walk, env: Env,
      recorded: set<string>)
    requires Walkable(ctx, known, rel, stmt, recorded) && StateDescribes(w.current, w.b, known, env, recorded)
    requires (stmt.Assign? || stmt.AnnAssign?) && Value(stmt) == Some(value)
    requires Advance(ctx, rel, stmt, w).Some? && Assignment(known, env, Targets(stmt), value).Some?
    ensures var next := Advance(ctx, rel, stmt, w).value;
      StateDescribes(next.current, next.b, known, Assignment(known, env, Targets(stmt), value).value,
                     recorded + ListNames(rel, stmt))
  {
    var targets, env' := Targets(stmt), Assignment(known, env, Targets(stmt), value).value;
    AssignmentAdvances(ctx, rel, stmt, w);
    AllIsNoListName(rel, stmt);
    if "__all__" in NamesInAll(targets) {
      AllAssignmentDescribes(ctx, known, rel, stmt, value, w, env, recorded);
      MoreRecorded(Sequence(ctx, rel, value, w.current, w.b), w.b, known, env', recorded, ListNames(rel, stmt));
    } else if OneName(targets) {
      var n := targets[0].id;
      assert targets == [Name(n)];
      OneTarget(Name(n));
      BindNamesOfOne(ctx, rel, n, Some(value), w.current, w.b);
      AssignedNameIsSafe(ctx, known, rel, stmt, n, value, recorded);
      OneAssignmentDescribes(ctx, known, rel, n, value, w.current, w.b, env, recorded, ListNames(rel, stmt));
    } else {
      AssignedTargetsAreLent(ctx, known, rel, stmt, value, recorded);
      OtherAssignmentDescribes(ctx, known, rel, targets, value, w.current, w.b, env, recorded);
      MoreRecorded(w.current, BindNames(ctx, rel, PlainNames(targets), Some(value), w.current, w.b), known, env', recorded,
                   ListNames(rel, stmt));
    }
  }

  lemma AllIsNoListName(rel: string, stmt: Stmt)
    requires stmt.Assign? || stmt.AnnAssign?
    ensures "__all__" !in ListNames(rel, stmt)
  {}

  lemma AnnotationDescribes(ctx: Context, known: Known, rel: string, stmt: Stmt, w: Walk, env: Env, recorded: set<string>)
    requires ForeignDescribed(ctx, known) && StateDescribes(w.current, w.b, known, env, recorded)
    requires stmt.AnnAssign? && stmt.annotated.None? && Advance(ctx, rel, stmt, w).Some?
    ensures var next := Advance(ctx, rel, stmt, w).value; StateDescribes(next.current, next.b, known, env, recorded)
  {
    AssignmentAdvances(ctx, rel, stmt, w);
    OneTarget(stmt.target);
    BindNamesDescribes(ctx, known, rel, PlainNames([stmt.target]), None, w.current, w.b, env, recorded);
  }

  // other statements

  lemma AugmentDescribes(ctx: Context, known: Known, rel: string, stmt: Stmt, w: Walk, env: Env, recorded: set<string>)
    requires Walkable(ctx, known, rel, stmt, recorded) && StateDescribes(w.current, w.b, known, env, recorded)
    requires stmt.AugAssign? && Advance(ctx, rel, stmt, w).Some? && Execute(known, rel, stmt, env).Some?
    ensures var next := Advance(ctx, rel, stmt, w).value;
      StateDescribes(next.current, next.b, known, Execute(known, rel, stmt, env).value, recorded)
  {
    var env' := Execute(known, rel, stmt, env).value;
    MentionsAllIsNamed(stmt.target);
    OneTarget(stmt.target);
    if MentionsAll(stmt.target) {
      assert stmt.target == Name("__all__");
      SequenceDescribes(ctx, known, rel, stmt.value, w.current, w.b, env, recorded);
      ConcatDescribes(w.current.value, Sequence(ctx, rel, stmt.value, w.current, w.b).value,
                      Lookup(env, "__all__"), Evaluate(known, env, stmt.value));
      AllBound(Concat(w.current, Sequence(ctx, rel, stmt.value, w.current, w.b)), w.current, w.b, known, env, recorded,
               Join2(Lookup(env, "__all__"), Evaluate(known, env, stmt.value)));
    } else {
      forall n | n in NamesIn(stmt.target) && !stmt.target.Name? ensures Unclaimed(w.b, known.tracked, n) {
        UnrecordedIsUnclaimed(w.current, w.b, known, env, recorded, n);
      }
      OthersKeepDescription(w.current, w.b, known, env, env', recorded);
    }
  }

  /** `__all__.extend(...)` and `__all__.append(...)`. */
  lemma MutationDescribes(ctx: Context, known: Known, rel: string, call: Expr, current: Option<seq<Export>>,
      b: Bindings, env: Env, recorded: set<string>)
    requires ForeignDescribed(ctx, known) && StateDescribes(current, b, known, env, recorded)
    requires MutatesAll(call) && Mutate(ctx, rel, call, current, b).Some? && Effect(known, env, call).Some?
    ensures StateDescribes(Mutate(ctx, rel, call, current, b), b, known, Effect(known, env, call).value, recorded)
  {
    var arg, all := call.args[0], Lookup(env, "__all__");
    if call.func.attr == "append" {
      OneItemDisplay(ctx, rel, arg, current, b);
      ElementDescribes(ctx, known, rel, arg, current, b, env, recorded);
      var item := Element(ctx, rel, arg, current, b).value;
      ConcatDescribes(current.value, item, all, EvaluateItem(known, env, arg));
      AllBound(Some(current.value + item), current, b, known, env, recorded, Join2(all, EvaluateItem(known, env, arg)));
    } else {
      SequenceDescribes(ctx, known, rel, arg, current, b, env, recorded);
      var added := Sequence(ctx, rel, arg, current, b).value;
      ConcatDescribes(current.value, added, all, Evaluate(known, env, arg));
      AllBound(Some(current.value + added), current, b, known, env, recorded, Join2(all, Evaluate(known, env, arg)));
    }
  }

  lemma CompoundDescribes(ctx: Context, known: Known, rel: string, stmt: Stmt, w: Walk, env: Env, recorded: set<string>)
    requires Walkable(ctx, known, rel, stmt, recorded) && StateDescribes(w.current, w.b, known, env, recorded)
    requires stmt.OtherStmt? && Advance(ctx, rel, stmt, w).Some?
    ensures StateDescribes(w.current, w.b, known, Execute(known, rel, stmt, env).value, recorded)
  {
    StoredIsLent(HeldList, stmt.inner);
    StoredIsLent(HeldModule, stmt.inner);
    forall n | n in StoredInside(stmt.inner) ensures Unclaimed(w.b, known.tracked, n) {
      UnrecordedIsUnclaimed(w.current, w.b, known, env, recorded, n);
    }
    OthersKeepDescription(w.current, w.b, known, env, Execute(known, rel, stmt, env).value, recorded);
  }

  lemma ImportStatementDescribes(ctx: Context, known: Known, rel: string, stmt: Stmt, w: Walk, env: Env,
      recorded: set<string>)
    requires Walkable(ctx, known, rel, stmt, recorded) && StateDescribes(w.current, w.b, known, env, recorded)
    requires (stmt.Import? || stmt.ImportFrom?) && Execute(known, rel, stmt, env).Some?
    ensures StateDescribes(w.current, RecordImports(ctx.tracked, rel, stmt, w.b), known,
                           Execute(known, rel, stmt, env).value, recorded + Recorded(known.tracked, rel, stmt))
  {
    var more := Recorded(known.tracked, rel, stmt);
    forall n | n in Rebinds(stmt) ensures Unclaimed(w.b, known.tracked, n) {
      UnrecordedIsUnclaimed(w.current, w.b, known, env, recorded, n);
    }
    RecordedAreBound(known.tracked, rel, stmt);
    MoreRecorded(w.current, w.b, known, env, recorded, more);
    match stmt
    case Import(names) => ModuleImportsDescribe(known, names, w.current, w.b, env, recorded + more);
    case ImportFrom(level, from, names) =>
      ImportsDescribe(known, AbsoluteModule(rel, level, from), names, w.current, w.b, env, recorded + more);
  }

  lemma RecordedAreBound(tracked: set<string>, rel: string, stmt: Stmt)
    requires stmt.Import? || stmt.ImportFrom?
    ensures Recorded(tracked, rel, stmt) <= Rebinds(stmt)
  {
    match stmt
    case Import(names) =>
      forall a | a in names ensures PlainBound(a) in PlainBoundNames(names) {
        var k :| 0 <= k < |names| && names[k] == a;
        assert PlainBoundNames(names)[k] == PlainBound(a);
      }
    case ImportFrom(_, _, names) =>
      forall a | a in names ensures a.Bound() in BoundNames(names) {
        var k :| 0 <= k < |names| && names[k] == a;
        assert BoundNames(names)[k] == a.Bound();
      }
  }

  /** One statement keeps the resolver's state a description of the environment. */
  lemma StatementDescribes(ctx: Context, known: Known, rel: string, stmt: Stmt, w: Walk, env: Env, recorded: set<string>)
    requires Walkable(ctx, known, rel, stmt, recorded) && StateDescribes(w.current, w.b, known, env, recorded)
    requires Advance(ctx, rel, stmt, w).Some? && Execute(known, rel, stmt, env).Some?
    ensures var next := Advance(ctx, rel, stmt, w).value;
      StateDescribes(next.current, next.b, known, Execute(known, rel, stmt, env).value,
                     recorded + Recorded(known.tracked, rel, stmt))
  {
    match stmt
    case AugAssign(_, _, _, _) => AugmentDescribes(ctx, known, rel, stmt, w, env, recorded);
    case ExprStmt(value, _) =>
      if MutatesAll(value) {
        MutationDescribes(ctx, known, rel, value, w.current, w.b, env, recorded);
      } else {
        EffectKeepsDescription(known, value, w.current, w.b, env, recorded);
      }
    case OtherStmt(_) => CompoundDescribes(ctx, known, rel, stmt, w, env, recorded);
    case Import(_) => ImportStatementDescribes(ctx, known, rel, stmt, w, env, recorded);
    case ImportFrom(_, _, _) => ImportStatementDescribes(ctx, known, rel, stmt, w, env, recorded);
    case Assign(_, value, _) => AssignmentDescribes(ctx, known, rel, stmt, value, w, env, recorded);
    case AnnAssign(_, _, Some(value), _) => AssignmentDescribes(ctx, known, rel, stmt, value, w, env, recorded);
    case AnnAssign(_, _, None, _) => AnnotationDescribes(ctx, known, rel, stmt, w, env, recorded);
  }

  // ---------- whole modules ----------

  /** Every remaining statement is walkable when these names are recorded. */
  ghost predicate AllWalkable(ctx: Context, known: Known, rel: string, stmts: seq<Stmt>, recorded: set<string>)
  {
    && ForeignDescribed(ctx, known)
    && (forall s :: s in stmts ==> Walkable(ctx, known, rel, s, recorded))
    && forall i, j :: 0 <= i < j < |stmts| ==> Recorded(known.tracked, rel, stmts[i]) !! Rebinds(stmts[j])
  }

  lemma RestIsWalkable(ctx: Context, known: Known, rel: string, stmts: seq<Stmt>, recorded: set<string>)
    requires stmts != [] && AllWalkable(ctx, known, rel, stmts, recorded)
    ensures AllWalkable(ctx, known, rel, stmts[1..], recorded + Recorded(known.tracked, rel, stmts[0]))
  {
    var rest, more := stmts[1..], recorded + Recorded(known.tracked, rel, stmts[0]);
    forall s | s in rest ensures Walkable(ctx, known, rel, s, more) {
      var k :| 0 <= k < |rest| && rest[k] == s;
      assert stmts[k + 1] == s && s in stmts;
      assert Recorded(known.tracked, rel, stmts[0]) !! Rebinds(stmts[k + 1]);
    }
    forall i, j | 0 <= i < j < |rest| ensures Recorded(known.tracked, rel, rest[i]) !! Rebinds(rest[j]) {
      assert Recorded(known.tracked, rel, stmts[i + 1]) !! Rebinds(stmts[j + 1]);
    }
  }

  lemma {:induction false} BodyDescribes(ctx: Context, known: Known, rel: string, stmts: seq<Stmt>, w: Walk,
      env: Env, recorded: set<string>)
    requires AllWalkable(ctx, known, rel, stmts, recorded) && StateDescribes(w.current, w.b, known, env, recorded)
    requires Body(ctx, rel, stmts, w).Some? && ExecuteAll(known, rel, stmts, env).Some?
    ensures Describes(Body(ctx, rel, stmts, w).value.current, Lookup(ExecuteAll(known, rel, stmts, env).value, "__all__"))
    decreases |stmts|
  {
    if stmts != [] {
      assert stmts[0] in stmts;
      StatementDescribes(ctx, known, rel, stmts[0], w, env, recorded);
      RestIsWalkable(ctx, known, rel, stmts, recorded);
      BodyDescribes(ctx, known, rel, stmts[1..], Advance(ctx, rel, stmts[0], w).value,
                    Execute(known, rel, stmts[0], env).value, recorded + Recorded(known.tracked, rel, stmts[0]));
    }
  }

  lemma RefusedIsNotWalked(ctx: Context, rel: string, stmt: Stmt, w: Walk)
    requires Refused(stmt)
    ensures Advance(ctx, rel, stmt, w).None?
  {
    if stmt.AnnAssign? {
      OneTarget(stmt.target);
    }
  }

  lemma {:induction false} RefusedStops(ctx: Context, rel: string, stmts: seq<Stmt>, w: Walk, s: Stmt)
    requires s in stmts && Refused(s)
    ensures Body(ctx, rel, stmts, w).None?
    decreases |stmts|
  {
    if s == stmts[0] {
      RefusedIsNotWalked(ctx, rel, s, w);
    } else if Advance(ctx, rel, stmts[0], w).Some? {
      RefusedStops(ctx, rel, stmts[1..], Advance(ctx, rel, stmts[0], w).value, s);
    }
  }

  /** A traceable module that lends `__all__` has a statement the resolver refuses. */
  lemma LendingAllIsRefused(ctx: Context, reach: Reach, rel: string, stmts: seq<Stmt>, w: Walk)
    requires Traceable(ctx.tracked, reach, rel, stmts) && "__all__" in LentBy(HeldList, stmts)
    ensures Body(ctx, rel, stmts, w).None?
  {
    LentIsUnion(HeldList, stmts);
    var s :| s in stmts && "__all__" in Lends(HeldList, s);
    RefusedStops(ctx, rel, stmts, w, s);
  }

  lemma TraceableIsWalkable(ctx: Context, known: Known, reach: Reach, rel: string, stmts: seq<Stmt>)
    requires ForeignDescribed(ctx, known) && Traceable(known.tracked, reach, rel, stmts) && known.escapes == EscapesOf(reach, stmts)
    ensures AllWalkable(ctx, known, rel, stmts, {})
  {
    LentIsUnion(HeldList, stmts);
    LentIsUnion(HeldModule, stmts);
    LentIsUnion(HeldForeign, stmts);
  }

  /** Every parsed module of the tree is traceable. */
  ghost predicate AllTraceable(mods: Modules, reach: Reach)
  {
    forall m :: m in mods && mods[m].Some? ==> Traceable(mods.Keys, reach, m, mods[m].value)
  }

  /** Among traceable modules, for every import chain. */
  lemma {:induction false} ResolvedDescribes(mods: Modules, reach: Reach, rel: string, chain: set<string>)
    requires AllTraceable(mods, reach) && Outcome(mods, rel, chain).Some? && Meaning(mods, reach, rel, chain).Ends?
    ensures Describes(Some(Outcome(mods, rel, chain).value.names), Meaning(mods, reach, rel, chain).value)
    decreases mods.Keys - chain
  {
    assert rel in mods.Keys - chain && rel !in mods.Keys - (chain + {rel});
    var stmts, ctx := mods[rel].value, Context(mods.Keys, Outcomes(mods, rel, chain));
    var known := Known(mods.Keys, Meanings(mods, reach, rel, chain), EscapesOf(reach, stmts));
    if "__all__" in LentBy(HeldList, stmts) {
      LendingAllIsRefused(ctx, reach, rel, stmts, START);
    }
    forall m | m in ctx.foreign
      ensures m in known.finals && (known.finals[m].Raises? || Describes(Some(ctx.foreign[m].names), known.finals[m].value))
    {
      if known.finals[m].Ends? {
        ResolvedDescribes(mods, reach, m, chain + {rel});
      }
    }
    TraceableIsWalkable(ctx, known, reach, rel, stmts);
    BodyDescribes(ctx, known, rel, stmts, START, map[], {});
  }
}
