/**
  Why provenance needs the lookups of the checked-out commit to stand: the clean-input check looks
  only at the files that were read, so a module that is gone from the index can redirect a dotted
  name to another clean file. Whatever the paths, a lookup that does not stand can be used so.
 */
module DeletedModule {
  import opened Prelude
  import opened ModuleSyntax
  import opened ModuleEvaluation
  import opened AllResolution
  import opened JsonText
  import opened SortedStrings
  import opened PublicApiCodec
  import opened PublicApiDerivation
  import opened PublicApiGenerator

  /** A module that lists one name. */
  function Lists(name: string): seq<Stmt>
  {
    [Assign([Name("__all__")], Listing([Str(name, 1)]), 1)]
  }

  /** `import other as z`, `from parent import last as z`, `__all__ = [*z.__all__]`. */
  function ReExports(other: string, parent: string, last: string): seq<Stmt>
  {
    [Import([Alias(other, Some("z"))]), ImportFrom(0, Some(parent), [Alias(last, Some("z"))]),
     Assign([Name("__all__")], Listing([Starred(Attribute(Name("z"), "__all__"))]), 3)]
  }

  function ParsersFor(other: string, parent: string, last: string): Parsers
  {
    Parsers(text => Some(if text == "init" then ReExports(other, parent, last) else Lists(text)),
            text => ProjectTable(Some("d"), Some("1"), false), name => true)
  }

  // ---------- what the initialiser exports ----------

  function One(name: string, rel: string): seq<Export> { [Export(name, Origin(rel, 1))] }

  lemma ListsFinishes(ctx: Context, rel: string, name: string)
    ensures Finish(Body(ctx, rel, Lists(name), START)) == Some(Resolution(One(name, rel), 1))
  {
    OneItemDisplay(ctx, rel, Str(name, 1), None, START.b);
    AssignsAll(ctx, rel, Listing([Str(name, 1)]), 1, START);
    var last := Walk(Some(One(name, rel)), START.b, 1);
    assert Lists(name)[1..] == [] && Body(ctx, rel, Lists(name)[1..], last) == Some(last);
  }

  /** The dotted name that `z` stands for in a tree with these paths. */
  function StandsFor(tracked: set<string>, other: string, parent: string, last: string): string
  {
    if ModuleRel(tracked, parent + "." + last).Some? then parent + "." + last else other
  }

  lemma ImportsFollowed(ctx: Context, other: string, parent: string, last: string)
    requires parent != [] && last != "__all__"
    ensures var b := Bindings(map[], map[], map["z" := StandsFor(ctx.tracked, other, parent, last)]);
      Advance(ctx, INIT_REL, ReExports(other, parent, last)[0], START).Some? &&
      Advance(ctx, INIT_REL, ReExports(other, parent, last)[1], Advance(ctx, INIT_REL, ReExports(other, parent, last)[0], START).value)
        == Some(Walk(None, b, 0))
  {
    var plain, from := Alias(other, Some("z")), Alias(last, Some("z"));
    var first := Bindings(map[], map[], map["z" := other]);
    assert [plain][1..] == [] && RecordPlainImports([plain], START.b) == first;
    var second := Bindings(map[], map[], map["z" := StandsFor(ctx.tracked, other, parent, last)]);
    assert first.sequences - {"z"} == map[] && first.aliases["z" := parent + "." + last] == map["z" := parent + "." + last];
    assert RecordAlias(ctx.tracked, parent, from, first) == second;
    assert [from][1..] == [] && RecordAliases(ctx.tracked, parent, [from], first) == second;
  }

  lemma ReExportsFinishes(ctx: Context, other: string, parent: string, last: string, names: seq<Export>)
    requires parent != [] && last != "__all__"
    requires Foreign(ctx, StandsFor(ctx.tracked, other, parent, last)) == Some(names)
    ensures Finish(Body(ctx, INIT_REL, ReExports(other, parent, last), START)) == Some(Resolution(names, 3))
  {
    var stmts := ReExports(other, parent, last);
    var b := Bindings(map[], map[], map["z" := StandsFor(ctx.tracked, other, parent, last)]);
    var all := Attribute(Name("z"), "__all__");
    ImportsFollowed(ctx, other, parent, last);
    assert IsForeignAll(all, b) && Sequence(ctx, INIT_REL, all, None, b) == Some(names);
    OneItemDisplay(ctx, INIT_REL, Starred(all), None, b);
    AssignsAll(ctx, INIT_REL, Listing([Starred(all)]), 3, Walk(None, b, 0));
    var end := Walk(Some(names), b, 3);
    assert stmts[1..][1..] == [stmts[2]] && stmts[1..][0] == stmts[1] && [stmts[2]][1..] == [];
    assert Body(ctx, INIT_REL, [], end) == Some(end);
    assert Body(ctx, INIT_REL, [stmts[2]], Walk(None, b, 0)) == Some(end);
    assert Body(ctx, INIT_REL, stmts[1..], Advance(ctx, INIT_REL, stmts[0], START).value) == Some(end);
  }

  function DataOf(name: string): Data { Data(Points("d"), Points("1"), [Points(name)]) }

  /** Files in which the initialiser re-exports and every other module lists its own text. */
  predicate Arranged(files: Files, other: string, parent: string, last: string, target: string, name: string)
  {
    && INIT_REL in files && files[INIT_REL] == "init" && PYPROJECT_REL in files
    && parent != [] && last != "__all__" && name != "init" && target != INIT_REL
    && ModuleRel(PackagePaths(files), StandsFor(PackagePaths(files), other, parent, last)) == Some(target)
    && target in files && files[target] == name
  }

  /** What a resolver has cached after walking the followed file and then the initialiser. */
  function CacheOf(target: string, name: string): map<string, Resolution>
  {
    map[target := Resolution(One(name, target), 1), INIT_REL := Resolution(One(name, target), 3)]
  }

  lemma TargetJoins(mods: Modules, target: string, name: string)
    requires target in mods && mods[target] == Some(Lists(name))
    ensures var cache := map[target := Resolution(One(name, target), 1)];
      Settled(mods, cache) && OriginsCached(mods, cache) && SameOn(mods, mods, cache.Keys)
  {
    var empty: map<string, Resolution> := map[];
    ListsFinishes(Context(mods.Keys, empty), target, name);
    JoinsCache(mods, empty, target, Resolution(One(name, target), 1));
    assert empty[target := Resolution(One(name, target), 1)] == map[target := Resolution(One(name, target), 1)];
  }

  lemma InitialiserJoins(mods: Modules, other: string, parent: string, last: string, target: string, name: string)
    requires target in mods && mods[target] == Some(Lists(name)) && target != INIT_REL
    requires INIT_REL in mods && mods[INIT_REL] == Some(ReExports(other, parent, last)) && parent != [] && last != "__all__"
    requires ModuleRel(mods.Keys, StandsFor(mods.Keys, other, parent, last)) == Some(target)
    ensures Settled(mods, CacheOf(target, name)) && SameOn(mods, mods, CacheOf(target, name).Keys)
  {
    var one := map[target := Resolution(One(name, target), 1)];
    TargetJoins(mods, target, name);
    ReExportsFinishes(Context(mods.Keys, one), other, parent, last, One(name, target));
    JoinsCache(mods, one, INIT_REL, Resolution(One(name, target), 3));
    assert one[INIT_REL := Resolution(One(name, target), 3)] == CacheOf(target, name);
  }

  lemma InitialiserDerives(parsers: Parsers, files: Files, cache: map<string, Resolution>, name: string, target: string)
    requires Settled(ModulesOf(parsers, files), cache) && SameOn(ModulesOf(parsers, files), ModulesOf(parsers, files), cache.Keys)
    requires INIT_REL in cache && cache[INIT_REL].names == One(name, target) && PYPROJECT_REL in files
    requires ReadProject(parsers, files) == Some(("d", "1")) && parsers.isIdentifier(Points(name))
    ensures Derive(parsers, files) == Derived(DataOf(name))
    ensures DeterminedBy(parsers, files, {PYPROJECT_REL} + cache.Keys, Derived(DataOf(name)))
    ensures ReadsResolve(parsers, files, {PYPROJECT_REL} + cache.Keys)
  {
    CachedModulesDetermine(parsers, files, cache);
    var none: set<string> := {};
    assert none !! cache.Keys && Outcome(ModulesOf(parsers, files), INIT_REL, none) == Some(cache[INIT_REL]);
    assert NamesOf(One(name, target)) == [name] && PointsOf([name]) == [Points(name)];
    assert [Points(name)][1..] == [] && Sorted([Points(name)]) == [Points(name)];
    assert !Whitespace(Points("d")[0]) && !Whitespace(Points("1")[0]);
  }

  /** The modules of arranged files. */
  lemma ArrangedModules(files: Files, other: string, parent: string, last: string, target: string, name: string)
    requires Arranged(files, other, parent, last, target, name)
    ensures var mods := ModulesOf(ParsersFor(other, parent, last), files);
      && mods.Keys == PackagePaths(files) && target in mods && mods[target] == Some(Lists(name))
      && INIT_REL in mods && mods[INIT_REL] == Some(ReExports(other, parent, last))
  {
    assert target in PackagePaths(files) && IsPackageFile(INIT_REL);
  }

  /** The exports are what the followed file lists, and nothing else is read. */
  lemma ArrangedDerives(files: Files, other: string, parent: string, last: string, target: string, name: string)
    requires Arranged(files, other, parent, last, target, name)
    ensures var parsers, read := ParsersFor(other, parent, last), {PYPROJECT_REL, INIT_REL, target};
      && Derive(parsers, files) == Derived(DataOf(name))
      && DeterminedBy(parsers, files, read, Derived(DataOf(name))) && ReadsResolve(parsers, files, read)
  {
    var parsers, cache := ParsersFor(other, parent, last), CacheOf(target, name);
    ArrangedModules(files, other, parent, last, target, name);
    InitialiserJoins(ModulesOf(parsers, files), other, parent, last, target, name);
    assert {PYPROJECT_REL} + cache.Keys == {PYPROJECT_REL, INIT_REL, target};
    ProjectIsRead(files, other, parent, last);
    InitialiserDerives(parsers, files, cache, name, target);
  }

  lemma ProjectIsRead(files: Files, other: string, parent: string, last: string)
    requires PYPROJECT_REL in files
    ensures ReadProject(ParsersFor(other, parent, last), files) == Some(("d", "1"))
  {
    assert !Whitespace(Points("d")[0]) && !Whitespace(Points("1")[0]);
  }

  // ---------- a lookup that does not stand ----------

  /** Every module lists "A", but for the one that HEAD finds. */
  function FilesOf(paths: set<string>, odd: string): Files
  {
    map p | p in paths + {PYPROJECT_REL} :: if p == INIT_REL then "init" else if p == odd then "B" else "A"
  }

  function Hash(): PyStr { seq(40, _ => 48) }

  /** HEAD has its own paths, the working tree others; there is no contract file yet. */
  function WorldOf(work: set<string>, head: set<string>, odd: string): World
  {
    World(FilesOf(work, odd), Missing, Hash(), map[Hash() := Snapshot(FilesOf(head, odd), Missing)])
  }

  predicate PackageOnly(paths: set<string>) { forall p :: p in paths ==> IsPackageFile(p) }

  lemma PathsOfFiles(paths: set<string>, odd: string)
    requires PackageOnly(paths)
    ensures PackagePaths(FilesOf(paths, odd)) == paths
  {
    assert !IsPackageFile(PYPROJECT_REL);
  }

  /** What the moved lookup finds in HEAD is gone here. */
  lemma MovedIsGone(work: set<string>, head: set<string>, dotted: string)
    requires LookupMoved(work, head, INIT_REL, dotted)
    ensures ModuleRel(head, dotted).value !in work
  {}

  /** Where HEAD's initialiser and the one here lead. */
  predicate Redirected(work: set<string>, head: set<string>, other: string, parent: string, last: string, target: string,
      odd: string)
  {
    && PackageOnly(work) && PackageOnly(head) && INIT_REL in work && INIT_REL in head
    && parent != [] && last != "__all__" && target != INIT_REL && odd != INIT_REL && target != odd
    && target in work && target in head && odd in head && odd !in work
    && ModuleRel(work, StandsFor(work, other, parent, last)) == Some(target)
    && ModuleRel(head, StandsFor(head, other, parent, last)) == Some(odd)
  }

  lemma BothDerive(work: set<string>, head: set<string>, other: string, parent: string, last: string, target: string,
      odd: string)
    requires Redirected(work, head, other, parent, last, target, odd)
    ensures var parsers, read := ParsersFor(other, parent, last), {PYPROJECT_REL, INIT_REL, target};
      && Derive(parsers, FilesOf(work, odd)) == Derived(DataOf("A"))
      && DeterminedBy(parsers, FilesOf(work, odd), read, Derived(DataOf("A"))) && ReadsResolve(parsers, FilesOf(work, odd), read)
      && Derive(parsers, FilesOf(head, odd)) == Derived(DataOf("B"))
  {
    PathsOfFiles(work, odd);
    PathsOfFiles(head, odd);
    ArrangedDerives(FilesOf(work, odd), other, parent, last, target, "A");
    ArrangedDerives(FilesOf(head, odd), other, parent, last, odd, "B");
  }

  /** The contract that is written: HEAD's hash with the exports found here. */
  function Written(): Contract { Stamped(Hash(), DataOf("A")) }

  /** Without a readable contract, clean inputs are stamped with HEAD. */
  lemma CleanInputsAreStamped(parsers: Parsers, w: World, read: set<string>, data: Data)
    requires w.Valid() && w.contract.Missing? && Derive(parsers, w.files) == Derived(data)
    requires DeterminedBy(parsers, w.files, read, Derived(data)) && ReadsResolve(parsers, w.files, read)
    requires !exists p :: p in read && Dirty(w, p)
    ensures Generates(parsers, w, read, w.(contract := Content(Rendered(Stamped(w.head, data)))), Code(0))
  {}

  lemma WorldIsClean(work: set<string>, head: set<string>, target: string, odd: string)
    requires INIT_REL in work && INIT_REL in head && target in work && target in head && odd !in work
    ensures var w := WorldOf(work, head, odd);
      w.Valid() && !exists p :: p in {PYPROJECT_REL, INIT_REL, target} && Dirty(w, p)
  {
  }

  lemma NoContractIsSound(parsers: Parsers, work: set<string>, head: set<string>, odd: string)
    requires WorldOf(work, head, odd).Valid()
    ensures AllSound(parsers, WorldOf(work, head, odd))
  {}

  lemma WrittenIsUnsound(parsers: Parsers, work: set<string>, head: set<string>, odd: string)
    requires Derive(parsers, FilesOf(work, odd)) == Derived(DataOf("A"))
    requires Derive(parsers, FilesOf(head, odd)) == Derived(DataOf("B"))
    ensures !Sound(parsers, WorldOf(work, head, odd).commits, Content(Rendered(Written())))
  {
    WrittenLoads(parsers, FilesOf(work, odd), Written().source);
    assert [Points("A")][0][0] == 65 && [Points("B")][0][0] == 66;
  }

  /** A clean call from a sound state leaves a contract that names a commit deriving something else. */
  ghost predicate BreaksProvenance(parsers: Parsers, w: World, read: set<string>, w': World)
  {
    w.Valid() && AllSound(parsers, w) && Generates(parsers, w, read, w', Code(0)) && !Sound(parsers, w'.commits, w'.contract)
  }

  lemma DifferentExportsBreak(parsers: Parsers, work: set<string>, head: set<string>, target: string, odd: string)
    requires INIT_REL in work && INIT_REL in head && target in work && target in head && odd !in work
    requires Derive(parsers, FilesOf(work, odd)) == Derived(DataOf("A"))
    requires DeterminedBy(parsers, FilesOf(work, odd), {PYPROJECT_REL, INIT_REL, target}, Derived(DataOf("A")))
    requires ReadsResolve(parsers, FilesOf(work, odd), {PYPROJECT_REL, INIT_REL, target})
    requires Derive(parsers, FilesOf(head, odd)) == Derived(DataOf("B"))
    ensures var w := WorldOf(work, head, odd);
      BreaksProvenance(parsers, w, {PYPROJECT_REL, INIT_REL, target}, w.(contract := Content(Rendered(Written()))))
  {
    WorldIsClean(work, head, target, odd);
    NoContractIsSound(parsers, work, head, odd);
    CleanInputsAreStamped(parsers, WorldOf(work, head, odd), {PYPROJECT_REL, INIT_REL, target}, DataOf("A"));
    WrittenIsUnsound(parsers, work, head, odd);
  }

  /** An import of the name itself leads to the file that also stands in HEAD. */
  lemma FoundElsewhereIsRedirected(work: set<string>, head: set<string>, dotted: string)
    requires PackageOnly(work) && PackageOnly(head) && INIT_REL in work && INIT_REL in head
    requires LookupMoved(work, head, INIT_REL, dotted) && ModuleRel(work, dotted).Some?
    ensures Redirected(work, head, dotted, "a", "b", ModuleRel(work, dotted).value, ModuleRel(head, dotted).value)
  {
    MovedIsGone(work, head, dotted);
    var base := Replace("a" + "." + "b", '.', '/');
    assert base[0] == 'a' && "vidbyte/"[0] == 'v';
    assert (base + "/__init__.py")[0] == 'a' && (base + ".py")[0] == 'a';
    assert ModuleRel(work, "a" + "." + "b").None? && ModuleRel(head, "a" + "." + "b").None?;
  }

  /** A from-import that finds nothing here leaves an earlier import in place. */
  lemma NotFoundIsRedirected(work: set<string>, head: set<string>, dotted: string, k: nat, other: string)
    requires PackageOnly(work) && PackageOnly(head) && INIT_REL in work && INIT_REL in head
    requires LookupMoved(work, head, INIT_REL, dotted) && ModuleRel(work, dotted).None?
    requires 0 < k < |dotted| && dotted[k] == '.' && dotted[k + 1..] != "__all__" && StandsInBoth(work, head, INIT_REL, other)
    ensures Redirected(work, head, other, dotted[..k], dotted[k + 1..], ModuleRel(work, other).value, ModuleRel(head, dotted).value)
  {
    MovedIsGone(work, head, dotted);
    assert dotted[..k] + "." + dotted[k + 1..] == dotted;
  }

  /**
    Whenever a lookup of HEAD has moved there are contents for these paths with which every input is
    clean, the call succeeds, and the contract it writes names a commit that derives other exports.
   */
  lemma MovedLookupBreaksProvenance(work: set<string>, head: set<string>, dotted: string)
    returns (parsers: Parsers, w: World, read: set<string>, w': World)
    requires PackageOnly(work) && PackageOnly(head) && INIT_REL in work && INIT_REL in head
    requires LookupMoved(work, head, INIT_REL, dotted)
    ensures HasPaths(w, work, head) && BreaksProvenance(parsers, w, read, w')
  {
    var odd := ModuleRel(head, dotted).value;
    var other, parent, last := dotted, "a", "b";
    if ModuleRel(work, dotted).Some? {
      FoundElsewhereIsRedirected(work, head, dotted);
    } else {
      var k :| 0 < k < |dotted| && dotted[k] == '.' && dotted[k + 1..] != "__all__";
      var standing :| StandsInBoth(work, head, INIT_REL, standing);
      NotFoundIsRedirected(work, head, dotted, k, standing);
      other, parent, last := standing, dotted[..k], dotted[k + 1..];
    }
    var target := ModuleRel(work, other).value;
    parsers, w, read := ParsersFor(other, parent, last), WorldOf(work, head, odd), {PYPROJECT_REL, INIT_REL, target};
    w' := w.(contract := Content(Rendered(Written())));
    RedirectedBreaks(work, head, other, parent, last, target, odd);
  }

  /** A checkout with these package files, whose HEAD has those. */
  ghost predicate HasPaths(w: World, work: set<string>, head: set<string>)
  {
    w.Valid() && PackagePaths(w.files) == work && PackagePaths(w.Head().files) == head
  }

  lemma RedirectedBreaks(work: set<string>, head: set<string>, other: string, parent: string, last: string,
      target: string, odd: string)
    requires Redirected(work, head, other, parent, last, target, odd)
    ensures var w := WorldOf(work, head, odd);
      HasPaths(w, work, head) && BreaksProvenance(ParsersFor(other, parent, last), w, {PYPROJECT_REL, INIT_REL, target},
                                                  w.(contract := Content(Rendered(Written()))))
  {
    PathsOfFiles(work, odd);
    PathsOfFiles(head, odd);
    BothDerive(work, head, other, parent, last, target, odd);
    DifferentExportsBreak(ParsersFor(other, parent, last), work, head, target, odd);
  }

  /** Where lookups stand, no call breaks provenance. */
  lemma StandingLookupsKeepProvenance(parsers: Parsers, w: World, read: set<string>, w': World)
    requires w.Valid() && LookupsStand(w.files, w.Head().files)
    ensures !BreaksProvenance(parsers, w, read, w')
  {
    if BreaksProvenance(parsers, w, read, w') {
      GenerateKeepsSound(parsers, w, read, w', Code(0));
    }
  }

  /**
    Which paths keep the promise: whatever the contents, no clean call stamps a wrong commit exactly
    when no lookup of HEAD has moved.
   */
  lemma PathsKeepProvenanceExactly(work: set<string>, head: set<string>)
    requires PackageOnly(work) && PackageOnly(head) && INIT_REL in work && INIT_REL in head
    ensures (forall dotted :: !LookupMoved(work, head, INIT_REL, dotted)) <==>
      (forall parsers, w, read, w' :: HasPaths(w, work, head) ==> !BreaksProvenance(parsers, w, read, w'))
  {
    if dotted :| LookupMoved(work, head, INIT_REL, dotted) {
      var parsers, w, read, w' := MovedLookupBreaksProvenance(work, head, dotted);
    } else {
      forall parsers, w, read, w' | HasPaths(w, work, head) ensures !BreaksProvenance(parsers, w, read, w') {
        StandingLookupsKeepProvenance(parsers, w, read, w');
      }
    }
  }

  // ---------- the smallest case ----------

  const PLAIN := "vidbyte/x.py"
  const PACKAGE := "vidbyte/x/__init__.py"

  /**
    The initialiser of `vidbyte.x` was removed from the index (`git rm`) but the removal is not
    committed, and a plain `vidbyte/x.py` stands in both.
   */
  lemma DeletedModuleBreaksProvenance() returns (parsers: Parsers, w: World, read: set<string>, w': World)
    ensures HasPaths(w, {INIT_REL, PLAIN}, {INIT_REL, PLAIN, PACKAGE})
    ensures BreaksProvenance(parsers, w, read, w')
  {
    var work, head := {INIT_REL, PLAIN}, {INIT_REL, PLAIN, PACKAGE};
    var dotted := "vidbyte" + "." + "x";
    assert Replace(dotted, '.', '/') == "vidbyte/x";
    assert "vidbyte/x" + "/__init__.py" == PACKAGE && "vidbyte/x" + ".py" == PLAIN;
    assert ModuleRel(work, dotted) == Some(PLAIN) && ModuleRel(head, dotted) == Some(PACKAGE);
    assert IsPackageFile(INIT_REL) && IsPackageFile(PLAIN) && IsPackageFile(PACKAGE);
    parsers, w, read, w' := MovedLookupBreaksProvenance(work, head, dotted);
  }
}
