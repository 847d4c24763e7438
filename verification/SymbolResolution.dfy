/**
  Following a module-level name through imports and star imports. The search cuts every
  (module, name) pair that is already on its path, and still finds an answer whenever some chain
  of imports leads to one.
 */
module SymbolResolution {
  import opened Prelude

  /** A module (name None) or one name inside a module. */
  datatype ImportRef = ImportRef(from: string, name: Option<string>)

  datatype ModuleFacts = ModuleFacts(
    constants: set<string>, functions: set<string>, classes: set<string>,
    imports: map<string, ImportRef>, starImports: seq<string>)

  /** The parsed modules by dotted name. */
  type Index = map<string, ModuleFacts>

  datatype Symbol = Constant(owner: string, name: string) | Function(owner: string, name: string)
                  | Class(owner: string, name: string) | Module(dotted: string)

  type Key = (string, string)

  function ImportedNames(idx: Index): set<string>
  {
    set m, n | m in idx && n in idx[m].imports && idx[m].imports[n].name.Some? :: idx[m].imports[n].name.value
  }

  /** Every pair a search for `name` can reach. */
  function Keys(idx: Index, name: string): set<Key>
  {
    set m, n | m in idx && n in ImportedNames(idx) + {name} :: (m, n)
  }

  /** A constant, function or class the module itself defines. */
  function Defined(idx: Index, m: string, name: string): Option<Symbol>
    requires m in idx
  {
    if name in idx[m].constants then Some(Constant(m, name))
    else if name in idx[m].functions then Some(Function(m, name))
    else if name in idx[m].classes then Some(Class(m, name))
    else None
  }

  function ModuleNamed(idx: Index, dotted: string): Option<Symbol>
  {
    if dotted in idx then Some(Module(dotted)) else None
  }

  function Submodule(ref: ImportRef): string
    requires ref.name.Some?
  {
    ref.from + "." + ref.name.value
  }

  function Resolve(idx: Index, m: string, name: string, seen: set<Key>): Option<Symbol>
    requires m in idx
    decreases Keys(idx, name) - seen, 0
  {
    if (m, name) in seen then None
    else
      var seen' := seen + {(m, name)};
      assert (m, name) in Keys(idx, name) - seen && (m, name) !in Keys(idx, name) - seen';
      if Defined(idx, m, name).Some? then Defined(idx, m, name)
      else if name in idx[m].imports then
        var ref := idx[m].imports[name];
        if ref.name.None? then ModuleNamed(idx, ref.from)
        else
          assert ref.name.value in ImportedNames(idx);
          assert Keys(idx, ref.name.value) - seen' < Keys(idx, name) - seen;
          ResolveFrom(idx, ref, seen')
      else ResolveStars(idx, idx[m].starImports, name, seen')
  }

  /** A from-import names a symbol in the module, or else a submodule. */
  function ResolveFrom(idx: Index, ref: ImportRef, seen: set<Key>): Option<Symbol>
    requires ref.name.Some?
    decreases Keys(idx, ref.name.value) - seen, 1
  {
    if ref.from in idx && Resolve(idx, ref.from, ref.name.value, seen).Some?
    then Resolve(idx, ref.from, ref.name.value, seen)
    else ModuleNamed(idx, Submodule(ref))
  }

  function ResolveStars(idx: Index, stars: seq<string>, name: string, seen: set<Key>): Option<Symbol>
    decreases Keys(idx, name) - seen, 1 + |stars|
  {
    if stars == [] then None
    else if stars[0] in idx && Resolve(idx, stars[0], name, seen).Some? then Resolve(idx, stars[0], name, seen)
    else ResolveStars(idx, stars[1..], name, seen)
  }

  function ResolveImport(idx: Index, ref: ImportRef): Option<Symbol>
  {
    if ref.name.None? then ModuleNamed(idx, ref.from) else ResolveFrom(idx, ref, {})
  }

  // ---------- chains of imports ----------

  /** The search moves on from a pair: its from-import, or one of its star imports. */
  ghost predicate Edge(idx: Index, a: Key, b: Key)
  {
    && a.0 in idx && b.0 in idx && Defined(idx, a.0, a.1).None?
    && if a.1 in idx[a.0].imports then
         var ref := idx[a.0].imports[a.1];
         ref.name.Some? && b == (ref.from, ref.name.value)
       else b.0 in idx[a.0].starImports && b.1 == a.1
  }

  /** What a pair names without moving on: a definition, an imported module, or a submodule. */
  function Names(idx: Index, a: Key): Option<Symbol>
    requires a.0 in idx
  {
    if Defined(idx, a.0, a.1).Some? then Defined(idx, a.0, a.1)
    else if a.1 !in idx[a.0].imports then None
    else
      var ref := idx[a.0].imports[a.1];
      if ref.name.None? then ModuleNamed(idx, ref.from) else ModuleNamed(idx, Submodule(ref))
  }

  ghost predicate IsChain(idx: Index, chain: seq<Key>)
  {
    && chain != [] && chain[0].0 in idx
    && forall k :: 0 <= k < |chain| - 1 ==> Edge(idx, chain[k], chain[k + 1])
  }

  ghost predicate LeadsTo(idx: Index, chain: seq<Key>, from: Key, s: Symbol)
  {
    IsChain(idx, chain) && chain[0] == from && EndsAt(idx, chain) == Some(s)
  }

  ghost predicate Avoids(chain: seq<Key>, seen: set<Key>)
  {
    forall k :: 0 <= k < |chain| ==> chain[k] !in seen
  }

  function EndsAt(idx: Index, chain: seq<Key>): Option<Symbol>
  {
    if chain == [] || chain[|chain| - 1].0 !in idx then None else Names(idx, chain[|chain| - 1])
  }

  lemma Lengthen(idx: Index, a: Key, chain: seq<Key>, s: Symbol)
    requires IsChain(idx, chain) && LeadsTo(idx, chain, chain[0], s) && Edge(idx, a, chain[0])
    ensures LeadsTo(idx, [a] + chain, a, s)
  {}

  /** Whatever the search answers stands at the end of a chain of imports. */
  lemma {:induction false} ResolvedHasChain(idx: Index, m: string, name: string,
      seen: set<Key>) returns (chain: seq<Key>)
    requires m in idx && Resolve(idx, m, name, seen).Some?
    ensures LeadsTo(idx, chain, (m, name), Resolve(idx, m, name, seen).value) && Avoids(chain, seen)
    decreases Keys(idx, name) - seen, 0
  {
    var seen' := seen + {(m, name)};
    assert (m, name) in Keys(idx, name) - seen && (m, name) !in Keys(idx, name) - seen';
    chain := [(m, name)];
    if Defined(idx, m, name).None? {
      if name in idx[m].imports {
        var ref := idx[m].imports[name];
        if ref.name.Some? && ref.from in idx && Resolve(idx, ref.from, ref.name.value, seen').Some? {
          assert ref.name.value in ImportedNames(idx);
          assert Keys(idx, ref.name.value) - seen' < Keys(idx, name) - seen;
          var rest := ResolvedHasChain(idx, ref.from, ref.name.value, seen');
          Lengthen(idx, (m, name), rest, Resolve(idx, m, name, seen).value);
          chain := [(m, name)] + rest;
        }
      } else {
        var star := FoundStar(idx, idx[m].starImports, name, seen');
        var rest := ResolvedHasChain(idx, star, name, seen');
        Lengthen(idx, (m, name), rest, Resolve(idx, m, name, seen).value);
        chain := [(m, name)] + rest;
      }
    }
  }

  lemma {:induction false} FoundStar(idx: Index, stars: seq<string>, name: string,
      seen: set<Key>) returns (star: string)
    requires ResolveStars(idx, stars, name, seen).Some?
    ensures star in stars && star in idx && Resolve(idx, star, name, seen) == ResolveStars(idx, stars, name, seen)
    decreases |stars|
  {
    if stars[0] in idx && Resolve(idx, stars[0], name, seen).Some? {
      star := stars[0];
    } else {
      star := FoundStar(idx, stars[1..], name, seen);
    }
  }

  lemma {:induction false} AnyStarFound(idx: Index, stars: seq<string>, star: string, name: string, seen: set<Key>)
    requires star in stars && star in idx && Resolve(idx, star, name, seen).Some?
    ensures ResolveStars(idx, stars, name, seen).Some?
    decreases |stars|
  {
    if star != stars[0] {
      AnyStarFound(idx, stars[1..], star, name, seen);
    }
  }

  /** The part of a chain after the last visit to its first pair. */
  lemma {:induction false} AfterLastVisit(idx: Index, chain: seq<Key>, from: Key, s: Symbol,
      seen: set<Key>) returns (simple: seq<Key>)
    requires LeadsTo(idx, chain, from, s) && Avoids(chain, seen)
    ensures LeadsTo(idx, simple, from, s) && Avoids(simple, seen)
    ensures forall k :: 0 < k < |simple| ==> simple[k] != from
    decreases |chain|
  {
    if k :| 0 < k < |chain| && chain[k] == from {
      simple := AfterLastVisit(idx, chain[k..], from, s, seen);
    } else {
      simple := chain;
    }
  }

  /** A chain that avoids the pairs already seen is never missed. */
  lemma {:induction false} ChainIsFound(idx: Index, m: string, name: string, seen: set<Key>, chain: seq<Key>,
      s: Symbol)
    requires m in idx && LeadsTo(idx, chain, (m, name), s) && Avoids(chain, seen)
    ensures Resolve(idx, m, name, seen).Some?
    decreases Keys(idx, name) - seen
  {
    var simple := AfterLastVisit(idx, chain, (m, name), s, seen);
    var seen' := seen + {(m, name)};
    assert (m, name) in Keys(idx, name) - seen && (m, name) !in Keys(idx, name) - seen';
    if |simple| > 1 {
      assert Edge(idx, simple[0], simple[1]);
      var next, rest := simple[1], simple[1..];
      assert LeadsTo(idx, rest, next, s);
      if name in idx[m].imports {
        assert next.1 in ImportedNames(idx);
        assert Keys(idx, next.1) - seen' < Keys(idx, name) - seen;
      }
      ChainIsFound(idx, next.0, next.1, seen', rest, s);
      if name !in idx[m].imports {
        AnyStarFound(idx, idx[m].starImports, next.0, name, seen');
      }
    }
  }

  /**
    A name resolves exactly when some chain of imports and star imports leads from it to a
    definition, a module or a submodule; cutting revisited pairs loses no answer.
   */
  lemma ResolveFindsExactlyChains(idx: Index, m: string, name: string)
    requires m in idx
    ensures Resolve(idx, m, name, {}).Some? <==> exists chain, s :: LeadsTo(idx, chain, (m, name), s)
    ensures Resolve(idx, m, name, {}).Some? ==>
      exists chain :: LeadsTo(idx, chain, (m, name), Resolve(idx, m, name, {}).value)
  {
    if Resolve(idx, m, name, {}).Some? {
      var chain := ResolvedHasChain(idx, m, name, {});
    }
    if chain, s :| LeadsTo(idx, chain, (m, name), s) {
      ChainIsFound(idx, m, name, {}, chain, s);
    }
  }

  /** The same for an import: its module, a chain inside it, or a submodule. */
  lemma ResolveImportFindsExactlyChains(idx: Index, ref: ImportRef)
    ensures ResolveImport(idx, ref).Some? <==>
      if ref.name.None? then ref.from in idx
      else || ref.from + "." + ref.name.value in idx
           || (ref.from in idx && exists chain, s :: LeadsTo(idx, chain, (ref.from, ref.name.value), s))
  {
    if ref.name.Some? && ref.from in idx {
      ResolveFindsExactlyChains(idx, ref.from, ref.name.value);
    }
  }

  // ---------- which chain wins ----------

  /** Some chain leads on from a pair without meeting a pair already seen. */
  ghost predicate Reaches(idx: Index, from: Key, seen: set<Key>)
  {
    exists chain, s :: LeadsTo(idx, chain, from, s) && Avoids(chain, seen)
  }

  lemma ReachingResolves(idx: Index, m: string, name: string, seen: set<Key>)
    requires m in idx
    ensures Resolve(idx, m, name, seen).Some? <==> Reaches(idx, (m, name), seen)
  {
    if Resolve(idx, m, name, seen).Some? {
      var chain := ResolvedHasChain(idx, m, name, seen);
    }
    if chain, s :| LeadsTo(idx, chain, (m, name), s) && Avoids(chain, seen) {
      ChainIsFound(idx, m, name, seen, chain, s);
    }
  }

  /** No module before the k-th star import leads anywhere. */
  ghost predicate FirstStar(idx: Index, stars: seq<string>, k: nat, name: string, seen: set<Key>)
  {
    && k < |stars| && stars[k] in idx
    && forall j :: 0 <= j < k && stars[j] in idx ==> !Reaches(idx, (stars[j], name), seen)
  }

  /**
    The chain that decides: an imported name is a submodule only when nothing leads on from the
    import's target, and of several star imports the first that leads anywhere is followed.
   */
  ghost predicate Wins(idx: Index, chain: seq<Key>, seen: set<Key>)
    decreases |chain|
  {
    && chain != [] && chain[0].0 in idx && chain[0] !in seen
    && var (m, name) := chain[0];
       var seen' := seen + {chain[0]};
       if |chain| == 1 then
         && Names(idx, chain[0]).Some?
         && (Defined(idx, m, name).None? && idx[m].imports[name].name.Some? && idx[m].imports[name].from in idx
             ==> !Reaches(idx, (idx[m].imports[name].from, idx[m].imports[name].name.value), seen'))
       else
         && Edge(idx, chain[0], chain[1]) && Wins(idx, chain[1..], seen')
         && (name !in idx[m].imports ==>
             exists k: nat :: FirstStar(idx, idx[m].starImports, k, name, seen') && idx[m].starImports[k] == chain[1].0)
  }

  lemma {:induction false} StarsInOrder(idx: Index, stars: seq<string>, name: string, seen: set<Key>)
    returns (k: nat)
    requires ResolveStars(idx, stars, name, seen).Some?
    ensures FirstStar(idx, stars, k, name, seen)
    ensures Resolve(idx, stars[k], name, seen) == ResolveStars(idx, stars, name, seen)
    decreases |stars|
  {
    if stars[0] in idx {
      ReachingResolves(idx, stars[0], name, seen);
    }
    if stars[0] in idx && Resolve(idx, stars[0], name, seen).Some? {
      k := 0;
    } else {
      var rest := StarsInOrder(idx, stars[1..], name, seen);
      k := rest + 1;
      forall j | 0 <= j < k && stars[j] in idx ensures !Reaches(idx, (stars[j], name), seen) {
        if j > 0 { assert stars[1..][j - 1] == stars[j]; }
      }
    }
  }

  lemma {:induction false} FirstStarIsFollowed(idx: Index, stars: seq<string>, k: nat, name: string, seen: set<Key>)
    requires FirstStar(idx, stars, k, name, seen) && Resolve(idx, stars[k], name, seen).Some?
    ensures ResolveStars(idx, stars, name, seen) == Resolve(idx, stars[k], name, seen)
    decreases k
  {
    if k > 0 {
      if stars[0] in idx {
        ReachingResolves(idx, stars[0], name, seen);
      }
      forall j | 0 <= j < k - 1 && stars[1..][j] in idx ensures !Reaches(idx, (stars[1..][j], name), seen) {
        assert stars[1..][j] == stars[j + 1];
      }
      FirstStarIsFollowed(idx, stars[1..], k - 1, name, seen);
    }
  }

  /** Whatever the search answers stands at the end of a winning chain. */
  lemma {:induction false} AnswerWins(idx: Index, m: string, name: string, seen: set<Key>) returns (chain: seq<Key>)
    requires m in idx && Resolve(idx, m, name, seen).Some?
    ensures Wins(idx, chain, seen) && chain[0] == (m, name) && EndsAt(idx, chain) == Resolve(idx, m, name, seen)
    decreases Keys(idx, name) - seen, 0
  {
    var seen' := seen + {(m, name)};
    assert (m, name) in Keys(idx, name) - seen && (m, name) !in Keys(idx, name) - seen';
    chain := [(m, name)];
    if Defined(idx, m, name).None? {
      if name in idx[m].imports {
        var ref := idx[m].imports[name];
        if ref.name.Some? && ref.from in idx {
          ReachingResolves(idx, ref.from, ref.name.value, seen');
          if Resolve(idx, ref.from, ref.name.value, seen').Some? {
            assert ref.name.value in ImportedNames(idx);
            assert Keys(idx, ref.name.value) - seen' < Keys(idx, name) - seen;
            var rest := AnswerWins(idx, ref.from, ref.name.value, seen');
            chain := [(m, name)] + rest;
            assert chain[1..] == rest;
          }
        }
      } else {
        var k := StarsInOrder(idx, idx[m].starImports, name, seen');
        var rest := AnswerWins(idx, idx[m].starImports[k], name, seen');
        chain := [(m, name)] + rest;
        assert chain[1..] == rest;
      }
    }
  }

  /** A winning chain's end is the answer, so it is the same for all winning chains. */
  lemma {:induction false} WinnerIsAnswered(idx: Index, chain: seq<Key>, seen: set<Key>)
    requires Wins(idx, chain, seen)
    ensures Resolve(idx, chain[0].0, chain[0].1, seen) == EndsAt(idx, chain)
    decreases |chain|
  {
    var m, name, seen' := chain[0].0, chain[0].1, seen + {chain[0]};
    if |chain| == 1 {
      if Defined(idx, m, name).None? && idx[m].imports[name].name.Some? && idx[m].imports[name].from in idx {
        ReachingResolves(idx, idx[m].imports[name].from, idx[m].imports[name].name.value, seen');
      }
    } else {
      WinnerIsAnswered(idx, chain[1..], seen');
      WinnerEnds(idx, chain[1..], seen');
      if name !in idx[m].imports {
        var k: nat :| FirstStar(idx, idx[m].starImports, k, name, seen') && idx[m].starImports[k] == chain[1].0;
        FirstStarIsFollowed(idx, idx[m].starImports, k, name, seen');
      }
    }
  }

  lemma {:induction false} WinnerEnds(idx: Index, chain: seq<Key>, seen: set<Key>)
    requires Wins(idx, chain, seen)
    ensures EndsAt(idx, chain).Some?
    decreases |chain|
  {
    if |chain| > 1 {
      WinnerEnds(idx, chain[1..], seen + {chain[0]});
    }
  }

  /** The search answers s exactly when the winning chain ends in s. */
  lemma ResolveAnswersWinner(idx: Index, m: string, name: string, s: Symbol)
    requires m in idx
    ensures Resolve(idx, m, name, {}) == Some(s) <==>
      exists chain :: Wins(idx, chain, {}) && chain[0] == (m, name) && EndsAt(idx, chain) == Some(s)
  {
    if Resolve(idx, m, name, {}) == Some(s) {
      var chain := AnswerWins(idx, m, name, {});
    }
    if chain :| Wins(idx, chain, {}) && chain[0] == (m, name) && EndsAt(idx, chain) == Some(s) {
      WinnerIsAnswered(idx, chain, {});
    }
  }

  // ---------- what an answer says ----------

  /** The symbol is what its module's own tables say it is. */
  predicate StandsInItsModule(idx: Index, s: Symbol)
  {
    match s
    case Constant(owner, name) => owner in idx && name in idx[owner].constants
    case Function(owner, name) => owner in idx && name in idx[owner].functions - idx[owner].constants
    case Class(owner, name) => owner in idx && name in idx[owner].classes - idx[owner].functions - idx[owner].constants
    case Module(dotted) => dotted in idx
  }

  /** Whatever is answered stands in the module it names; a constant hides a function and that a class. */
  lemma AnswerStandsInItsModule(idx: Index, m: string, name: string)
    requires m in idx && Resolve(idx, m, name, {}).Some?
    ensures StandsInItsModule(idx, Resolve(idx, m, name, {}).value)
  {
    var chain := ResolvedHasChain(idx, m, name, {});
  }

  /** A module's own symbol is the answer, before anything it imports. */
  lemma OwnSymbolIsAnswered(idx: Index, m: string, name: string, seen: set<Key>)
    requires m in idx && (m, name) !in seen
    ensures name in idx[m].constants ==> Resolve(idx, m, name, seen) == Some(Constant(m, name))
    ensures name in idx[m].functions - idx[m].constants ==> Resolve(idx, m, name, seen) == Some(Function(m, name))
    ensures name in idx[m].classes - idx[m].functions - idx[m].constants ==> Resolve(idx, m, name, seen) == Some(Class(m, name))
  {}

  /** An answer's owner is the last module of the winning chain, and its name the name it has there. */
  lemma AnswerIsOwnSymbolOfLast(idx: Index, m: string, name: string) returns (chain: seq<Key>)
    requires m in idx && Resolve(idx, m, name, {}).Some?
    ensures Wins(idx, chain, {}) && chain[0] == (m, name)
    ensures var s, last := Resolve(idx, m, name, {}).value, chain[|chain| - 1];
      if s.Module? then
        && last.0 in idx && last.1 in idx[last.0].imports
        && last.1 !in idx[last.0].constants + idx[last.0].functions + idx[last.0].classes
        && var ref := idx[last.0].imports[last.1];
           s.dotted == ref.from + if ref.name.Some? then "." + ref.name.value else ""
      else (s.owner, s.name) == last
  {
    chain := AnswerWins(idx, m, name, {});
    WinnerEnds(idx, chain, {});
  }
}
