/**
  The memoising `__all__` resolver. Its cache is filled while modules are being walked, with
  failures swallowed in between, and is still never observable: every call returns what an
  uncached evaluation of the same module on the same import chain returns.
 */
module AllResolution {
  import opened Prelude
  import opened ModuleSyntax
  import opened ModuleEvaluation

  function ToSet(chain: seq<string>): set<string> { set m | m in chain }

  /** Lookups in `other` are kept here, and it has the same content on every path in `paths`. */
  ghost predicate SameOn(mods: Modules, other: Modules, paths: set<string>)
  {
    && LookupsKept(mods.Keys, other.Keys)
    && forall p :: p in paths ==> p in other && p in mods && other[p] == mods[p]
  }

  /**
    The cache invariant: a cached outcome is the module's outcome on every chain that avoids the
    cached modules, and in every source tree that agrees with this one on the cached modules.
   */
  ghost predicate Settled(mods: Modules, cache: map<string, Resolution>)
  {
    forall other, chain, m :: m in cache && SameOn(mods, other, cache.Keys) && chain !! cache.Keys
      ==> Outcome(other, m, chain) == Some(cache[m])
  }

  /** Every cached export is a string literal of a cached module. */
  ghost predicate OriginsCached(mods: Modules, cache: map<string, Resolution>)
  {
    forall m :: m in cache ==> WrittenIn(Some(cache[m].names), TreeLiterals(mods, cache.Keys))
  }

  /** A set of foreign outcomes that includes the cached ones and no wrong one. */
  ghost predicate Faithful(mods: Modules, cache: map<string, Resolution>, chain: set<string>,
      o: map<string, Resolution>)
  {
    && (forall m :: m in cache ==> m in o && o[m] == cache[m])
    && (forall m :: m in o ==> Outcome(mods, m, chain) == Some(o[m]))
  }

  ghost predicate Grown(before: map<string, Resolution>, after: map<string, Resolution>)
  {
    forall m :: m in before ==> m in after && after[m] == before[m]
  }

  /** The cache itself, and the uncached outcomes, are both faithful. */
  lemma CacheIsFaithful(mods: Modules, cache: map<string, Resolution>, chain: set<string>)
    requires Settled(mods, cache) && chain !! cache.Keys && SameOn(mods, mods, cache.Keys)
    ensures Faithful(mods, cache, chain, cache)
    ensures forall rel, short :: rel in mods && rel !in short && chain == short + {rel} ==>
      Faithful(mods, cache, chain, Outcomes(mods, rel, short))
  {}

  /** A module whose body was walked to the end may join the cache. */
  lemma JoinsCache(mods: Modules, cache: map<string, Resolution>, rel: string, r: Resolution)
    requires Settled(mods, cache) && OriginsCached(mods, cache) && SameOn(mods, mods, cache.Keys)
    requires rel in mods && mods[rel].Some? && rel !in cache
    requires Finish(Body(Context(mods.Keys, cache), rel, mods[rel].value, START)) == Some(r)
    ensures Settled(mods, cache[rel := r]) && OriginsCached(mods, cache[rel := r])
  {
    var cache' := cache[rel := r];
    forall other, chain, m | m in cache' && SameOn(mods, other, cache'.Keys) && chain !! cache'.Keys
      ensures Outcome(other, m, chain) == Some(cache'[m])
    {
      if m in cache {
        assert SameOn(mods, other, cache.Keys);
      }
      if m == rel {
        assert rel in cache'.Keys && rel !in chain;
        var ctx1, ctx2 := Context(mods.Keys, cache), Context(other.Keys, Outcomes(other, rel, chain));
        forall x | x in cache ensures x in ctx2.foreign && ctx2.foreign[x] == cache[x] && x in other {
          assert SameOn(mods, other, cache.Keys) && (chain + {rel}) !! cache.Keys;
          assert Outcome(other, x, chain + {rel}) == Some(cache[x]);
        }
        BodyBelow(ctx1, ctx2, rel, mods[rel].value, START, START);
      }
    }
    var literals := TreeLiterals(mods, cache'.Keys);
    assert TreeLiterals(mods, cache.Keys) <= literals && BodyLiterals(rel, mods[rel].value) <= literals;
    BodyWrittenIn(Context(mods.Keys, cache), rel, mods[rel].value, START, literals);
  }

  /** What hides a change of `__all__`: storing, deleting or declaring it, or using an attribute of it. */
  lemma HiddenIsSpelled(stmt: Stmt)
    ensures HiddenMutation(stmt) ==> stmt.OtherStmt?
    ensures stmt.OtherStmt? ==> (HiddenMutation(stmt) <==>
      || (exists names :: (Target(names) in stmt.inner || GlobalDeclaration(names) in stmt.inner) && "__all__" in names)
      || (exists attr :: AttributeOn("__all__", attr) in stmt.inner))
  {
    if HiddenMutation(stmt) {
      var i :| i in stmt.inner && Touches(i);
      match i
      case Target(names) => assert Target(names) in stmt.inner;
      case AttributeOn(_, attr) => assert AttributeOn("__all__", attr) in stmt.inner;
      case GlobalDeclaration(names) => assert GlobalDeclaration(names) in stmt.inner;
    }
    if stmt.OtherStmt? {
      if names :| (Target(names) in stmt.inner || GlobalDeclaration(names) in stmt.inner) && "__all__" in names {
        assert Touches(Target(names)) && Touches(GlobalDeclaration(names));
      }
      if attr :| AttributeOn("__all__", attr) in stmt.inner {
        assert Touches(AttributeOn("__all__", attr));
      }
    }
  }

  class ModuleBindings {
    var sequences: map<string, Option<seq<Export>>>
    var importedAll: map<string, string>
    var aliases: map<string, string>

    constructor ()
      ensures View() == START.b
    {
      sequences, importedAll, aliases := map[], map[], map[];
    }

    function View(): Bindings
      reads this
    {
      Bindings(sequences, importedAll, aliases)
    }
  }

  class AllResolver {
    const modules: Modules
    var cache: map<string, Resolution>

    ghost predicate Valid()
      reads this
    {
      Settled(modules, cache) && OriginsCached(modules, cache) && SameOn(modules, modules, cache.Keys)
    }

    /** A module on the import chain is still being walked, so it is not cached yet. */
    ghost predicate Ready(chain: seq<string>)
      reads this
    {
      Valid() && ToSet(chain) !! cache.Keys
    }

    constructor (given: Modules)
      ensures modules == given && Valid() && cache == map[]
    {
      modules := given;
      cache := map[];
    }

    ghost function Remaining(o: map<string, Resolution>, rel: string, stmts: seq<Stmt>, w: Walk): Option<Walk>
    {
      Body(Context(modules.Keys, o), rel, stmts, w)
    }

    /**
      The outcome is the uncached one on this chain. A call without a chain therefore returns
      what a resolver that was never used before returns, after any earlier calls.
     */
    method Resolve(rel: string, stack: seq<string>) returns (r: Option<Resolution>)
      requires Ready(stack)
      modifies this`cache
      ensures Ready(stack) && Grown(old(cache), cache)
      ensures r == Outcome(modules, rel, ToSet(stack))
      ensures r.Some? ==> rel in cache && cache[rel] == r.value
      decreases modules.Keys - ToSet(stack), 0
    {
      if rel in cache {
        return Some(cache[rel]);
      }
      if rel in stack || rel !in modules || modules[rel].None? {
        return None;
      }
      var body := modules[rel].value;
      var chain := stack + [rel];
      assert ToSet(chain) == ToSet(stack) + {rel};
      assert rel in modules.Keys - ToSet(stack) && rel !in modules.Keys - ToSet(chain);
      var bindings := new ModuleBindings();
      var current: Option<seq<Export>> := None;
      var firstLine := 0;
      for k := 0 to |body|
        invariant Ready(chain) && Grown(old(cache), cache) && fresh(bindings)
        invariant var w := Walk(current, bindings.View(), firstLine);
          forall o :: Faithful(modules, cache, ToSet(chain), o) ==>
            Remaining(o, rel, body, START) == Remaining(o, rel, body[k..], w)
      {
        ghost var w, seen := Walk(current, bindings.View(), firstLine), cache;
        var hidden := RejectsHiddenMutation(body[k]);
        if !hidden {
          RecordImportsOf(rel, body[k], bindings);
        }
        var line := 0;
        var ok := !hidden;
        if ok {
          ok, current, line := ApplyStatement(rel, body[k], current, bindings, chain);
        }
        forall o | Faithful(modules, cache, ToSet(chain), o)
          ensures Advance(Context(modules.Keys, o), rel, body[k], w)
            == if ok then Some(Walk(current, bindings.View(), if firstLine != 0 then firstLine else line)) else None
          ensures Faithful(modules, seen, ToSet(chain), o)
        {
        }
        if !ok {
          CacheIsFaithful(modules, cache, ToSet(chain));
          assert Faithful(modules, cache, ToSet(chain), Outcomes(modules, rel, ToSet(stack)));
          return None;
        }
        firstLine := if firstLine != 0 then firstLine else line;
      }
      CacheIsFaithful(modules, cache, ToSet(chain));
      assert Faithful(modules, cache, ToSet(chain), Outcomes(modules, rel, ToSet(stack)));
      if current.None? {
        return None;
      }
      JoinsCache(modules, cache, rel, Resolution(current.value, firstLine));
      cache := cache[rel := Resolution(current.value, firstLine)];
      return Some(cache[rel]);
    }

    static method RejectsHiddenMutation(stmt: Stmt) returns (hidden: bool)
      ensures hidden == HiddenMutation(stmt)
      ensures hidden ==> stmt.OtherStmt?
      ensures stmt.OtherStmt? ==> (hidden <==>
        || (exists names :: (Target(names) in stmt.inner || GlobalDeclaration(names) in stmt.inner) && "__all__" in names)
        || (exists attr :: AttributeOn("__all__", attr) in stmt.inner))
    {
      HiddenIsSpelled(stmt);
      if !stmt.OtherStmt? {
        return false;
      }
      for k := 0 to |stmt.inner|
        invariant forall j :: 0 <= j < k ==> !Touches(stmt.inner[j])
      {
        if Touches(stmt.inner[k]) {
          return true;
        }
      }
      return false;
    }

    method RecordImportsOf(rel: string, stmt: Stmt, bindings: ModuleBindings)
      modifies bindings
      ensures bindings.View() == RecordImports(modules.Keys, rel, stmt, old(bindings.View()))
    {
      match stmt
      case ImportFrom(level, from, names) =>
        var base := AbsoluteModule(rel, level, from);
        for k := 0 to |names|
          invariant RecordAliases(modules.Keys, base, names, old(bindings.View()))
                 == RecordAliases(modules.Keys, base, names[k..], bindings.View())
        {
          var bound := names[k].Bound();
          bindings.sequences := bindings.sequences - {bound};
          if names[k].name == "__all__" && base != [] {
            bindings.importedAll := bindings.importedAll[bound := base];
          } else if base != [] && ModuleRel(modules.Keys, base + "." + names[k].name).Some? {
            bindings.aliases := bindings.aliases[bound := base + "." + names[k].name];
          }
        }
      case Import(names) =>
        for k := 0 to |names|
          invariant RecordPlainImports(names, old(bindings.View())) == RecordPlainImports(names[k..], bindings.View())
        {
          if names[k].asname.Some? {
            bindings.aliases := bindings.aliases[names[k].asname.value := names[k].name];
          }
        }
      case _ =>
    }

    method ApplyStatement(rel: string, stmt: Stmt, current: Option<seq<Export>>, bindings: ModuleBindings,
        stack: seq<string>)
      returns (ok: bool, current': Option<seq<Export>>, line: nat)
      requires Ready(stack)
      modifies this`cache, bindings
      ensures Ready(stack) && Grown(old(cache), cache)
      ensures forall o :: Faithful(modules, cache, ToSet(stack), o) ==>
        Apply(Context(modules.Keys, o), rel, stmt, current, old(bindings.View()))
          == if ok then Some(Applied(current', line, bindings.View())) else None
      decreases modules.Keys - ToSet(stack), 4
    {
      match stmt
      case AugAssign(target, op, value, lineno) =>
        if !MentionsAll(target) {
          return true, current, 0;
        }
        if !op.Add? || current.None? {
          return false, None, 0;
        }
        var added := SequenceOf(rel, value, current, bindings, stack);
        return added.Some?, Concat(current, added), lineno;
      case ExprStmt(value, lineno) =>
        if MutatesAll(value) {
          var mutated := MutateAll(rel, value, current, bindings, stack);
          return mutated.Some?, mutated, lineno;
        }
        return true, current, 0;
      case Import(_) => return true, current, 0;
      case ImportFrom(_, _, _) => return true, current, 0;
      case OtherStmt(_) => return true, current, 0;
      case _ =>
        var targets, value := Targets(stmt), Value(stmt);
        if exists t :: t in targets && MentionsAll(t) {
          if |targets| != 1 || !targets[0].Name? || value.None? {
            return false, None, 0;
          }
          var bound := SequenceOf(rel, value.value, current, bindings, stack);
          return bound.Some?, bound, stmt.line;
        }
        BindOther(rel, PlainNames(targets), value, current, bindings, stack);
        return true, current, 0;
    }

    /** Failures are kept with the name instead of stopping the walk. */
    method BindOther(rel: string, names: seq<string>, value: Option<Expr>, current: Option<seq<Export>>,
        bindings: ModuleBindings, stack: seq<string>)
      requires Ready(stack)
      modifies this`cache, bindings
      ensures Ready(stack) && Grown(old(cache), cache)
      ensures forall o :: Faithful(modules, cache, ToSet(stack), o) ==>
        BindNames(Context(modules.Keys, o), rel, names, value, current, old(bindings.View())) == bindings.View()
      decreases modules.Keys - ToSet(stack), 3
    {
      for k := 0 to |names|
        invariant Ready(stack) && Grown(old(cache), cache)
        invariant forall o :: Faithful(modules, cache, ToSet(stack), o) ==>
          BindNames(Context(modules.Keys, o), rel, names, value, current, old(bindings.View()))
            == BindNames(Context(modules.Keys, o), rel, names[k..], value, current, bindings.View())
      {
        ghost var before, seen := bindings.View(), cache;
        bindings.importedAll := bindings.importedAll - {names[k]};
        bindings.aliases := bindings.aliases - {names[k]};
        if value.None? {
          bindings.sequences := bindings.sequences[names[k] := None];
          continue;
        }
        var sequence := SequenceOf(rel, value.value, current, bindings, stack);
        bindings.sequences := bindings.sequences[names[k] := sequence];
        forall o | Faithful(modules, cache, ToSet(stack), o)
          ensures Faithful(modules, seen, ToSet(stack), o)
          ensures BindName(Context(modules.Keys, o), rel, names[k], value, current, before) == bindings.View()
        {
        }
      }
    }

    method MutateAll(rel: string, call: Expr, current: Option<seq<Export>>, bindings: ModuleBindings,
        stack: seq<string>)
      returns (r: Option<seq<Export>>)
      requires Ready(stack) && MutatesAll(call)
      modifies this`cache
      ensures Ready(stack) && Grown(old(cache), cache)
      ensures forall o :: Faithful(modules, cache, ToSet(stack), o) ==>
        Mutate(Context(modules.Keys, o), rel, call, current, bindings.View()) == r
      decreases modules.Keys - ToSet(stack), 3
    {
      var name := call.func.attr;
      if name !in {"extend", "append"} || current.None? || |call.args| != 1 || call.keywords != [] {
        return None;
      }
      var added := SequenceOf(rel, if name == "append" then Listing([call.args[0]]) else call.args[0], current, bindings, stack);
      return Concat(current, added);
    }

    method SequenceOf(rel: string, e: Expr, current: Option<seq<Export>>, bindings: ModuleBindings,
        stack: seq<string>)
      returns (r: Option<seq<Export>>)
      requires Ready(stack)
      modifies this`cache
      ensures Ready(stack) && Grown(old(cache), cache)
      ensures forall o :: Faithful(modules, cache, ToSet(stack), o) ==>
        Sequence(Context(modules.Keys, o), rel, e, current, bindings.View()) == r
      decreases modules.Keys - ToSet(stack), 2, e
    {
      match e
      case Listing(elts) =>
        r := ElementsOf(rel, elts, current, bindings, stack);
      case BinOp(left, op, right) =>
        if !op.Add? {
          return None;
        }
        var first := SequenceOf(rel, left, current, bindings, stack);
        if first.None? {
          return None;
        }
        ghost var seen := cache;
        var second := SequenceOf(rel, right, current, bindings, stack);
        forall o | Faithful(modules, cache, ToSet(stack), o) ensures Faithful(modules, seen, ToSet(stack), o) {
        }
        r := Concat(first, second);
      case Call(_, args, _) =>
        if !IsSequenceCall(e) {
          return None;
        }
        r := SequenceOf(rel, args[0], current, bindings, stack);
      case Name(id) =>
        if id == "__all__" && current.Some? {
          return current;
        }
        if id in bindings.sequences {
          return bindings.sequences[id];
        }
        if id !in bindings.importedAll {
          return None;
        }
        r := ForeignAll(bindings.importedAll[id], stack);
      case Attribute(value, _) =>
        if !IsForeignAll(e, bindings.View()) {
          return None;
        }
        r := ForeignAll(bindings.aliases[value.id], stack);
      case _ =>
        r := None;
    }

    method ElementOf(rel: string, e: Expr, current: Option<seq<Export>>, bindings: ModuleBindings, stack: seq<string>)
      returns (r: Option<seq<Export>>)
      requires Ready(stack)
      modifies this`cache
      ensures Ready(stack) && Grown(old(cache), cache)
      ensures forall o :: Faithful(modules, cache, ToSet(stack), o) ==>
        Element(Context(modules.Keys, o), rel, e, current, bindings.View()) == r
      decreases modules.Keys - ToSet(stack), 2, e
    {
      match e
      case Str(text, line) => r := Some([Export(text, Origin(rel, line))]);
      case Starred(value) => r := SequenceOf(rel, value, current, bindings, stack);
      case _ => r := None;
    }

    method ElementsOf(rel: string, elts: seq<Expr>, current: Option<seq<Export>>, bindings: ModuleBindings,
        stack: seq<string>)
      returns (r: Option<seq<Export>>)
      requires Ready(stack)
      modifies this`cache
      ensures Ready(stack) && Grown(old(cache), cache)
      ensures forall o :: Faithful(modules, cache, ToSet(stack), o) ==>
        Elements(Context(modules.Keys, o), rel, elts, current, bindings.View()) == r
      decreases modules.Keys - ToSet(stack), 2, elts
    {
      if elts == [] {
        return Some([]);
      }
      var first := ElementOf(rel, elts[0], current, bindings, stack);
      if first.None? {
        return None;
      }
      ghost var seen := cache;
      var rest := ElementsOf(rel, elts[1..], current, bindings, stack);
      forall o | Faithful(modules, cache, ToSet(stack), o) ensures Faithful(modules, seen, ToSet(stack), o) {
      }
      r := Concat(first, rest);
    }

    method ForeignAll(dotted: string, stack: seq<string>) returns (r: Option<seq<Export>>)
      requires Ready(stack)
      modifies this`cache
      ensures Ready(stack) && Grown(old(cache), cache)
      ensures forall o :: Faithful(modules, cache, ToSet(stack), o) ==> Foreign(Context(modules.Keys, o), dotted) == r
      decreases modules.Keys - ToSet(stack), 1
    {
      var target := ModuleRel(modules.Keys, dotted);
      if target.None? {
        return None;
      }
      var resolved := Resolve(target.value, stack);
      return if resolved.Some? then Some(resolved.value.names) else None;
    }

    /** The modules whose `__all__` was read. */
    function ResolvedModules(): set<string>
      reads this
    {
      cache.Keys
    }
  }
}
