/** The module statements and expressions that `__all__` resolution inspects, and module paths. */
module ModuleSyntax {
  import opened Prelude

  datatype Operator = Add | OtherOperator

  datatype Expr =
    | Listing(elts: seq<Expr>)                                  // a list or tuple display
    | BinOp(left: Expr, op: Operator, right: Expr)
    | Call(func: Expr, args: seq<Expr>, keywords: seq<Expr>)
    | Name(id: string)
    | Attribute(value: Expr, attr: string)
    | Str(text: string, line: nat)
    | Starred(value: Expr)
    | OtherExpr(children: seq<Expr>, stored: seq<string>)  // with the name an assignment expression binds

  datatype Alias = Alias(name: string, asname: Option<string>) {
    function Bound(): string { if asname.Some? then asname.value else name }
  }

  /** What a node inside a compound statement or definition does with names. */
  datatype Inner =
    | Target(names: seq<string>)             // a stored or deleted name or subscript, with the names inside it
    | AttributeOn(id: string, attr: string)  // an attribute of a plain name
    | GlobalDeclaration(names: seq<string>)
    | Binds(names: seq<string>)              // a plain import, definition, handler or pattern
    | Imports(aliases: seq<Alias>)           // a from-import
    | StoresAttribute(attr: string)          // a stored or deleted attribute of anything
    | Evaluates(e: Expr)

  datatype Stmt =
    | Assign(targets: seq<Expr>, value: Expr, line: nat)
    | AnnAssign(target: Expr, annotation: Expr, annotated: Option<Expr>, line: nat)
    | AugAssign(target: Expr, op: Operator, value: Expr, line: nat)
    | ExprStmt(value: Expr, line: nat)
    | Import(names: seq<Alias>)
    | ImportFrom(level: nat, from: Option<string>, names: seq<Alias>)
    | OtherStmt(inner: seq<Inner>)

  /** The tracked modules by path; None is a file that does not parse. */
  type Modules = map<string, Option<seq<Stmt>>>

  // ---------- dotted names and paths ----------

  function Split(s: string, sep: char): (parts: seq<string>)
    ensures parts != []
  {
    if s == [] then [[]]
    else
      var rest := Split(s[1..], sep);
      if s[0] == sep then [[]] + rest else [[s[0]] + rest[0]] + rest[1..]
  }

  function Join(parts: seq<string>, sep: string): string
  {
    if parts == [] then [] else if |parts| == 1 then parts[0] else parts[0] + sep + Join(parts[1..], sep)
  }

  function Replace(s: string, from: char, to: char): string
  {
    seq(|s|, k requires 0 <= k < |s| => if s[k] == from then to else s[k])
  }

  function RemoveSuffix(s: string, suffix: string): string
  {
    if |suffix| <= |s| && s[|s| - |suffix|..] == suffix then s[..|s| - |suffix|] else s
  }

  /** `xs[:n]` as Python slices: a negative bound counts from the end. */
  function TakeUpTo<T>(xs: seq<T>, n: int): seq<T>
  {
    var stop := if n < 0 then |xs| + n else n;
    if stop < 0 then [] else if stop > |xs| then xs else xs[..stop]
  }

  /** The dotted module a from-import names, relative to the importing module's package. */
  function AbsoluteModule(rel: string, level: nat, from: Option<string>): string
  {
    var named := if from.Some? then from.value else [];
    if level == 0 then named
    else
      var package := TakeUpTo(Split(RemoveSuffix(rel, ".py"), '/'), -1);
      var base := if level > 1 then TakeUpTo(package, |package| - (level - 1)) else package;
      Join(base + if named == [] then [] else Split(named, '.'), ".")
  }

  /** The tracked file of a dotted module, a package initialiser first. */
  function ModuleRel(tracked: set<string>, dotted: string): Option<string>
  {
    var base := Replace(dotted, '.', '/');
    if base + "/__init__.py" in tracked then Some(base + "/__init__.py")
    else if base + ".py" in tracked then Some(base + ".py")
    else None
  }

  /** Every dotted name found among `there` is found here, in the same file or in one that is missing there. */
  ghost predicate LookupsKept(here: set<string>, there: set<string>)
  {
    forall dotted :: ModuleRel(there, dotted).Some? ==>
      && ModuleRel(here, dotted).Some?
      && (ModuleRel(here, dotted) == ModuleRel(there, dotted) || ModuleRel(here, dotted).value !in there)
  }

  /** A dotted name that a from-import looks up: a package and one of its members, other than `__all__`. */
  predicate IsMember(dotted: string)
  {
    exists k :: 0 < k < |dotted| && dotted[k] == '.' && dotted[k + 1..] != "__all__"
  }

  /** A module other than `root` that is found here and stands there. */
  predicate StandsInBoth(here: set<string>, there: set<string>, root: string, dotted: string)
  {
    ModuleRel(here, dotted).Some? && ModuleRel(here, dotted).value in there - {root}
  }

  /**
    A dotted name leads elsewhere here than there: to another module that stands in both, or nowhere
    although a from-import looks it up and some other module stands in both.
   */
  ghost predicate LookupMoved(here: set<string>, there: set<string>, root: string, dotted: string)
  {
    && ModuleRel(there, dotted).Some? && ModuleRel(here, dotted) != ModuleRel(there, dotted)
    && if ModuleRel(here, dotted).Some? then StandsInBoth(here, there, root, dotted)
       else IsMember(dotted) && exists other :: StandsInBoth(here, there, root, other)
  }

  /** Whether an assignment target is, or contains, the name `__all__`. */
  predicate MentionsAll(e: Expr)
  {
    match e
    case Listing(elts) => exists x :: x in elts && MentionsAll(x)
    case BinOp(left, _, right) => MentionsAll(left) || MentionsAll(right)
    case Call(func, args, keywords) =>
      MentionsAll(func) || (exists x :: x in args && MentionsAll(x)) || exists x :: x in keywords && MentionsAll(x)
    case Name(id) => id == "__all__"
    case Attribute(value, _) => MentionsAll(value)
    case Str(_, _) => false
    case Starred(value) => MentionsAll(value)
    case OtherExpr(children, _) => exists x :: x in children && MentionsAll(x)
  }

  predicate Touches(inner: Inner)
  {
    match inner
    case Target(names) => "__all__" in names
    case AttributeOn(id, _) => id == "__all__"
    case GlobalDeclaration(names) => "__all__" in names
    case Binds(_) => false
    case Imports(_) => false
    case StoresAttribute(_) => false
    case Evaluates(_) => false
  }
}
