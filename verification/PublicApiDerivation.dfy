/**
  Deriving the public-API data from a checkout's files: the `__all__` of the package
  initialiser and the static project table. Python's and TOML's parsers are parameters.
 */
module PublicApiDerivation {
  import opened Prelude
  import opened ModuleSyntax
  import opened ModuleEvaluation
  import opened AllResolution
  import opened NameLending
  import opened PythonMeaning
  import opened ReadModules
  import opened JsonText
  import opened SortedStrings
  import opened PublicApiCodec

  const INIT_REL := "vidbyte/__init__.py"
  const PYPROJECT_REL := "pyproject.toml"

  /** The project table as far as it is read; a field that is missing or no string is None. */
  datatype Toml = NotToml | NoProjectTable | ProjectTable(name: Option<string>, version: Option<string>, versionIsDynamic: bool)

  datatype Parsers = Parsers(python: string -> Option<seq<Stmt>>, toml: string -> Toml, isIdentifier: PyStr -> bool)

  /** The text of every file by path. */
  type Files = map<string, string>

  predicate IsPackageFile(rel: string)
  {
    "vidbyte/" <= rel && |rel| >= 3 && rel[|rel| - 3..] == ".py"
  }

  function ModulesOf(parsers: Parsers, files: Files): Modules
  {
    map p | p in files && IsPackageFile(p) :: parsers.python(files[p])
  }

  /** The distribution name and the static version, or None when either cannot be stated. */
  function ReadProject(parsers: Parsers, files: Files): Option<(string, string)>
  {
    if PYPROJECT_REL !in files then None
    else match parsers.toml(files[PYPROJECT_REL])
      case ProjectTable(Some(name), Some(version), dynamic) =>
        if dynamic || !NonBlank(Points(name)) || !NonBlank(Points(version)) then None else Some((name, version))
      case _ => None
  }

  /** Unresolvable is reported; Invalid is a schema error that nothing catches. */
  datatype Derivation = Unresolvable | Invalid | Derived(data: Data)

  function PointsOf(names: seq<string>): (points: seq<PyStr>)
    ensures |points| == |names| && forall k :: 0 <= k < |names| ==> points[k] == Points(names[k])
  {
    seq(|names|, k requires 0 <= k < |names| => Points(names[k]))
  }

  function Checked(parsers: Parsers, data: Data): Derivation
  {
    if ValidData(parsers.isIdentifier, data) then Derived(data) else Invalid
  }

  /** What a checkout's files derive. */
  ghost function Derive(parsers: Parsers, files: Files): Derivation
  {
    match Outcome(ModulesOf(parsers, files), INIT_REL, {})
    case None => Unresolvable
    case Some(r) =>
      match ReadProject(parsers, files)
      case None => Unresolvable
      case Some((name, version)) => Checked(parsers, Data(Points(name), Points(version), Sorted(PointsOf(NamesOf(r.names)))))
  }

  // ---------- the derivation in terms of the files ----------

  /** A package file is any Python file below the package directory. */
  lemma PackageFilesAreBelow(rel: string)
    ensures IsPackageFile(rel) <==> exists middle :: rel == "vidbyte/" + middle + ".py"
  {
    if IsPackageFile(rel) {
      assert rel[7] == '/' && ".py"[0] != '/' && ".py"[1] != '/' && ".py"[2] != '/';
      forall k | 0 <= k < 3 ensures rel[|rel| - 3 + k] == ".py"[k] { assert rel[|rel| - 3..][k] == ".py"[k]; }
      assert |rel| >= 11;
      assert rel == "vidbyte/" + rel[8..|rel| - 3] + ".py";
    }
    if middle :| rel == "vidbyte/" + middle + ".py" {
      assert rel == "vidbyte/" + (middle + ".py");
      assert rel[|rel| - 3..] == ".py";
    }
  }

  /** The project file states this name and this static version, and neither is blank. */
  ghost predicate ProjectStates(parsers: Parsers, files: Files, name: string, version: string)
  {
    && "pyproject.toml" in files && parsers.toml(files["pyproject.toml"]) == ProjectTable(Some(name), Some(version), false)
    && (exists k :: 0 <= k < |name| && name[k] as int !in WHITESPACE)
    && (exists k :: 0 <= k < |version| && version[k] as int !in WHITESPACE)
  }

  /** The initialiser's `__all__` resolves to a list with exactly these names. */
  ghost predicate ExportsResolve(parsers: Parsers, files: Files, names: set<PyStr>)
  {
    var r := Outcome(ModulesOf(parsers, files), "vidbyte/__init__.py", {});
    r.Some? && forall x :: x in names <==> exists k :: 0 <= k < |r.value.names| && Points(r.value.names[k].name) == x
  }

  function SetOf(xs: seq<PyStr>): set<PyStr> { set x | x in xs }

  lemma ProjectIsStated(parsers: Parsers, files: Files, name: string, version: string)
    ensures ReadProject(parsers, files) == Some((name, version)) <==> ProjectStates(parsers, files, name, version)
  {
    NonBlankText(name);
    NonBlankText(version);
  }

  lemma NonBlankText(s: string)
    ensures NonBlank(Points(s)) <==> exists k :: 0 <= k < |s| && s[k] as int !in WHITESPACE
  {
    forall k | 0 <= k < |s| ensures Whitespace(Points(s)[k]) <==> s[k] as int in WHITESPACE {
      WhitespaceIsListed(s[k] as int);
    }
  }

  /**
    The data derived: the stated name and version, and the names of the resolved `__all__` in
    ascending order without repeats, all of them identifiers. A name that is none is a schema error,
    and an `__all__` or a project file that cannot be stated is reported.
   */
  lemma DerivedExactly(parsers: Parsers, files: Files, d: Data)
    ensures Derive(parsers, files) == Derived(d) <==>
      && ExportsResolve(parsers, files, SetOf(d.exports)) && Ascending(d.exports)
      && (exists name, version :: ProjectStates(parsers, files, name, version)
            && d.distribution == Points(name) && d.version == Points(version))
      && forall x :: x in d.exports ==> parsers.isIdentifier(x)
  {
    var r := Outcome(ModulesOf(parsers, files), INIT_REL, {});
    if r.Some? {
      var names := PointsOf(NamesOf(r.value.names));
      SortedSorts(names);
      SortedUniqueIsAscending(d.exports);
      SortedUniqueIsAscending(Sorted(names));
      forall x ensures x in names <==> exists k :: 0 <= k < |r.value.names| && Points(r.value.names[k].name) == x {
        if x in names { var k :| 0 <= k < |names| && names[k] == x; }
        if k :| 0 <= k < |r.value.names| && Points(r.value.names[k].name) == x { assert names[k] == x; }
      }
      if ExportsResolve(parsers, files, SetOf(d.exports)) && Ascending(d.exports) {
        forall x ensures x in d.exports <==> x in Sorted(names) { assert x in d.exports <==> x in SetOf(d.exports); }
        SameElementsSameList(d.exports, Sorted(names));
      }
    }
    forall name, version
      ensures ReadProject(parsers, files) == Some((name, version)) <==> ProjectStates(parsers, files, name, version)
    {
      ProjectIsStated(parsers, files, name, version);
    }
  }

  /** It is reported exactly when the list does not resolve or no name and version are stated. */
  lemma UnresolvableExactly(parsers: Parsers, files: Files)
    ensures Derive(parsers, files).Unresolvable? <==>
      || Outcome(ModulesOf(parsers, files), "vidbyte/__init__.py", {}).None?
      || forall name, version :: !ProjectStates(parsers, files, name, version)
  {
    forall name, version
      ensures ReadProject(parsers, files) == Some((name, version)) <==> ProjectStates(parsers, files, name, version)
    {
      ProjectIsStated(parsers, files, name, version);
    }
  }

  ghost predicate SameFiles(files: Files, other: Files, paths: set<string>)
  {
    forall p :: p in paths ==> p in files && p in other && files[p] == other[p]
  }

  function PackagePaths(files: Files): set<string>
  {
    set p | p in files && IsPackageFile(p)
  }

  /** No dotted name leads elsewhere here than in `other`, as far as paths can tell. */
  ghost predicate LookupsStand(files: Files, other: Files)
  {
    forall dotted :: !LookupMoved(PackagePaths(files), PackagePaths(other), INIT_REL, dotted)
  }

  /** What is derived is settled by the files on these paths, in every tree whose lookups stand here. */
  ghost predicate DeterminedBy(parsers: Parsers, files: Files, paths: set<string>, d: Derivation)
  {
    && (forall p :: p in paths ==> p in files)
    && forall other :: SameFiles(files, other, paths) && LookupsStand(files, other) ==> Derive(parsers, other) == d
  }

  /** The files read are the project file and modules that resolve on their own. */
  ghost predicate ReadsResolve(parsers: Parsers, files: Files, read: set<string>)
  {
    && INIT_REL in read && PYPROJECT_REL in read
    && forall p :: p in read && p != PYPROJECT_REL ==> Outcome(ModulesOf(parsers, files), p, {}).Some?
  }

  /** The modules read settle the resolution on their own. */
  lemma ReadModulesSettle(parsers: Parsers, files: Files, cache: map<string, Resolution>)
    requires Settled(ModulesOf(parsers, files), cache) && INIT_REL in cache
    requires SameOn(ModulesOf(parsers, files), ModulesOf(parsers, files), cache.Keys)
    ensures ResolvesFrom(ModulesOf(parsers, files), {PYPROJECT_REL} + cache.Keys, INIT_REL)
  {
    CachedModulesSuffice(ModulesOf(parsers, files), cache, {PYPROJECT_REL} + cache.Keys, INIT_REL);
  }

  /** Trees that agree on the files read derive the same. */
  lemma SameFilesDeriveAlike(parsers: Parsers, files: Files, other: Files, read: set<string>)
    requires ResolvesFrom(ModulesOf(parsers, files), read, INIT_REL) && PYPROJECT_REL in read
    requires SameFiles(files, other, read) && LookupsStand(files, other)
    ensures Derive(parsers, other) == Derive(parsers, files)
  {
    var mods, next := ModulesOf(parsers, files), ModulesOf(parsers, other);
    assert mods.Keys == PackagePaths(files) && next.Keys == PackagePaths(other);
    assert Carries(mods, next, read, INIT_REL);
    ReadOutcomeStands(mods, read, INIT_REL, {});
    ReadOutcomeCarries(mods, next, read, INIT_REL, INIT_REL, {});
  }

  /** The cached modules and the project file settle the derivation. */
  lemma CachedModulesDetermine(parsers: Parsers, files: Files, cache: map<string, Resolution>)
    requires Settled(ModulesOf(parsers, files), cache) && INIT_REL in cache && PYPROJECT_REL in files
    requires SameOn(ModulesOf(parsers, files), ModulesOf(parsers, files), cache.Keys)
    ensures DeterminedBy(parsers, files, {PYPROJECT_REL} + cache.Keys, Derive(parsers, files))
    ensures ReadsResolve(parsers, files, {PYPROJECT_REL} + cache.Keys)
  {
    var read, mods := {PYPROJECT_REL} + cache.Keys, ModulesOf(parsers, files);
    var none: set<string> := {};
    assert SameOn(mods, mods, cache.Keys) && none !! cache.Keys;
    forall m | m in cache ensures Outcome(mods, m, none) == Some(cache[m]) {}
    ReadModulesSettle(parsers, files, cache);
    forall other | SameFiles(files, other, read) && LookupsStand(files, other)
      ensures Derive(parsers, other) == Derive(parsers, files)
    {
      SameFilesDeriveAlike(parsers, files, other, read);
    }
    forall p | p in read ensures p in files { assert p in cache.Keys ==> p in mods; }
  }

  /** Derived strings hold Unicode scalar values only, so they are written back as themselves. */
  lemma DerivedDataIsUnpaired(parsers: Parsers, files: Files)
    ensures Derive(parsers, files).Derived? ==> AllUnpaired(Derive(parsers, files).data)
  {
    if Derive(parsers, files).Derived? {
      var names := PointsOf(NamesOf(Outcome(ModulesOf(parsers, files), INIT_REL, {}).value.names));
      SortedSorts(names);
      var d := Derive(parsers, files).data;
      forall k | 0 <= k < |d.exports| ensures Unpaired(d.exports[k]) {
        assert d.exports[k] in names;
      }
    }
  }

  /**
    When the modules read are traceable and Python does not raise, the derived exports are the
    sorted set of the names in Python's `__all__`.
   */
  lemma DerivedExportsArePythons(parsers: Parsers, files: Files, read: set<string>, reach: Reach)
    requires Derive(parsers, files).Derived? && ResolvesFrom(ModulesOf(parsers, files), read, INIT_REL)
    requires ReadTraceable(ModulesOf(parsers, files), read, reach) && Meaning(ModulesOf(parsers, files), reach, INIT_REL, {}).Ends?
    ensures var python := Meaning(ModulesOf(parsers, files), reach, INIT_REL, {}).value;
      python.Names? && Derive(parsers, files).data.exports == Sorted(PointsOf(python.xs))
  {
    var mods := ModulesOf(parsers, files);
    ResolvedNamesArePythons(mods, read, reach, INIT_REL, {});
    var resolved, python := NamesOf(Outcome(mods, INIT_REL, {}).value.names), Meaning(mods, reach, INIT_REL, {}).value.xs;
    forall x ensures x in PointsOf(resolved) <==> x in PointsOf(python) {
      if x in PointsOf(resolved) { SameNamesSamePoints(resolved, python, x); }
      if x in PointsOf(python) { SameNamesSamePoints(python, resolved, x); }
    }
    SortedSorts(PointsOf(resolved));
    SortedSorts(PointsOf(python));
    SameElementsSameList(Sorted(PointsOf(resolved)), Sorted(PointsOf(python)));
  }

  lemma SameNamesSamePoints(a: seq<string>, b: seq<string>, x: PyStr)
    requires multiset(a) == multiset(b) && x in PointsOf(a)
    ensures x in PointsOf(b)
  {
    var k :| 0 <= k < |a| && Points(a[k]) == x;
    assert a[k] in multiset(b);
    var j :| 0 <= j < |b| && b[j] == a[k];
    assert PointsOf(b)[j] == x;
  }

  /** Each name's origin is where it was written first. */
  function FirstOrigins(exports: seq<Export>): map<PyStr, Origin>
  {
    if exports == [] then map[]
    else
      var earlier, last := FirstOrigins(exports[..|exports| - 1]), exports[|exports| - 1];
      if Points(last.name) in earlier then earlier else earlier[Points(last.name) := last.origin]
  }

  /** The k-th export is the first of its name. */
  ghost predicate IsFirst(exports: seq<Export>, k: nat)
  {
    k < |exports| && forall j :: 0 <= j < k ==> Points(exports[j].name) != Points(exports[k].name)
  }

  /** Every name has an origin, that of its first export. */
  lemma {:induction false} OriginsOfNames(exports: seq<Export>)
    ensures forall x :: x in FirstOrigins(exports) <==> x in PointsOf(NamesOf(exports))
    ensures forall k: nat :: IsFirst(exports, k) ==>
      Points(exports[k].name) in FirstOrigins(exports) && FirstOrigins(exports)[Points(exports[k].name)] == exports[k].origin
  {
    if exports != [] {
      var front, last := exports[..|exports| - 1], exports[|exports| - 1];
      OriginsOfNames(front);
      assert PointsOf(NamesOf(exports)) == PointsOf(NamesOf(front)) + [Points(last.name)];
      forall k: nat | IsFirst(exports, k)
        ensures Points(exports[k].name) in FirstOrigins(exports) && FirstOrigins(exports)[Points(exports[k].name)] == exports[k].origin
      {
        if k < |front| {
          assert IsFirst(front, k);
        } else {
          forall j | 0 <= j < |front| ensures PointsOf(NamesOf(front))[j] != Points(last.name) {
            assert Points(exports[j].name) != Points(exports[k].name);
          }
        }
      }
    }
  }

  lemma {:induction false} HasFirst(exports: seq<Export>, j: nat) returns (k: nat)
    requires j < |exports|
    ensures IsFirst(exports, k) && Points(exports[k].name) == Points(exports[j].name)
    decreases j
  {
    k := j;
    if i :| 0 <= i < j && Points(exports[i].name) == Points(exports[j].name) {
      k := HasFirst(exports, i);
    }
  }

  /** The name is spelled by a string literal that stands there. */
  ghost predicate SpelledAt(literals: set<Export>, x: PyStr, o: Origin)
  {
    exists name :: Points(name) == x && Export(name, o) in literals
  }

  lemma OriginsAreLiterals(exports: seq<Export>, literals: set<Export>)
    requires WrittenIn(Some(exports), literals)
    ensures forall x :: x in FirstOrigins(exports) ==> SpelledAt(literals, x, FirstOrigins(exports)[x])
  {
    OriginsOfNames(exports);
    forall x | x in FirstOrigins(exports) ensures SpelledAt(literals, x, FirstOrigins(exports)[x]) {
      var j :| 0 <= j < |exports| && PointsOf(NamesOf(exports))[j] == x;
      var k := HasFirst(exports, j);
      assert exports[k] in exports && Export(exports[k].name, exports[k].origin) == exports[k];
    }
  }

  /** Every export has an origin in a file that was read, where a string literal spells it. */
  ghost predicate OriginsStand(mods: Modules, read: set<string>, exports: seq<PyStr>, origins: map<PyStr, Origin>)
  {
    forall x :: x in exports ==> x in origins && origins[x].rel in read && SpelledAt(TreeLiterals(mods, read), x, origins[x])
  }

  /** What a finished resolution and a readable project file derive. */
  function DerivationOf(parsers: Parsers, project: (string, string), names: seq<Export>): Derivation
  {
    Checked(parsers, Data(Points(project.0), Points(project.1), Sorted(PointsOf(NamesOf(names)))))
  }

  /** The files to read for it: the project file and the cached modules. */
  lemma CacheDerives(parsers: Parsers, files: Files, cache: map<string, Resolution>)
    requires Settled(ModulesOf(parsers, files), cache) && OriginsCached(ModulesOf(parsers, files), cache)
    requires SameOn(ModulesOf(parsers, files), ModulesOf(parsers, files), cache.Keys)
    requires INIT_REL in cache && ReadProject(parsers, files).Some?
    requires Outcome(ModulesOf(parsers, files), INIT_REL, {}) == Some(cache[INIT_REL])
    ensures var read, names := {PYPROJECT_REL} + cache.Keys, cache[INIT_REL].names;
      var d, origins := DerivationOf(parsers, ReadProject(parsers, files).value, names), FirstOrigins(names);
      && d == Derive(parsers, files) && DeterminedBy(parsers, files, read, d) && ReadsResolve(parsers, files, read)
      && ResolvesFrom(ModulesOf(parsers, files), read, INIT_REL)
      && (d.Derived? ==> OriginsStand(ModulesOf(parsers, files), read, d.data.exports, origins))
  {
    CachedModulesDetermine(parsers, files, cache);
    ReadModulesSettle(parsers, files, cache);
    var mods, read := ModulesOf(parsers, files), {PYPROJECT_REL} + cache.Keys;
    assert TreeLiterals(mods, cache.Keys) <= TreeLiterals(mods, read);
    OriginsOfNames(cache[INIT_REL].names);
    OriginsAreLiterals(cache[INIT_REL].names, TreeLiterals(mods, read));
    TreeLiteralsStandInTheirFiles(mods, read);
    SortedSorts(PointsOf(NamesOf(cache[INIT_REL].names)));
  }

  /** The loop that keeps each name's first origin. */
  method RecordOrigins(exports: seq<Export>) returns (origins: map<PyStr, Origin>)
    ensures origins == FirstOrigins(exports)
  {
    origins := map[];
    for k := 0 to |exports|
      invariant origins == FirstOrigins(exports[..k])
    {
      assert exports[..k + 1][..k] == exports[..k];
      if Points(exports[k].name) !in origins {
        origins := origins[Points(exports[k].name) := exports[k].origin];
      }
    }
    assert exports[..|exports|] == exports;
  }

  class PublicApiDeriver {
    const parsers: Parsers
    const files: Files

    constructor (parsers: Parsers, files: Files)
      ensures this.parsers == parsers && this.files == files
    {
      this.parsers, this.files := parsers, files;
    }

    /**
      The derivation, where each export was written, and the files that were read. Files that
      were visited but did not resolve are not among them, and do not matter.
     */
    method DeriveNow() returns (d: Derivation, origins: map<PyStr, Origin>, read: set<string>)
      ensures d == Derive(parsers, files)
      ensures d.Derived? ==> DeterminedBy(parsers, files, read, d) && ReadsResolve(parsers, files, read)
      ensures d.Derived? ==> ResolvesFrom(ModulesOf(parsers, files), read, INIT_REL)
      ensures d.Derived? ==> OriginsStand(ModulesOf(parsers, files), read, d.data.exports, origins)
      ensures d.Derived? ==> origins == FirstOrigins(Outcome(ModulesOf(parsers, files), INIT_REL, {}).value.names)
    {
      origins, read := map[], {};
      var resolver := new AllResolver(ModulesOf(parsers, files));
      var resolved := resolver.Resolve(INIT_REL, []);
      assert ToSet([]) == {};
      if resolved.None? {
        return Unresolvable, origins, read;
      }
      var project := ReadProject(parsers, files);
      if project.None? {
        return Unresolvable, origins, read;
      }
      origins := RecordOrigins(resolved.value.names);
      read := {PYPROJECT_REL} + resolver.ResolvedModules();
      d := DerivationOf(parsers, project.value, resolved.value.names);
      CacheDerives(parsers, files, resolver.cache);
    }
  }
}
