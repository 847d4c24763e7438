/** Where a dotted name and a relative import lead, stated on the parts of names and paths. */
module ModulePaths {
  import opened Prelude
  import opened ModuleSyntax

  predicate Free(parts: seq<string>, sep: char)
  {
    forall k :: 0 <= k < |parts| ==> sep !in parts[k]
  }

  lemma {:induction false} SplitOfWord(s: string, sep: char)
    requires sep !in s
    ensures Split(s, sep) == [s]
  {
    if s != [] {
      SplitOfWord(s[1..], sep);
      assert s == [s[0]] + s[1..];
    }
  }

  lemma {:induction false} SplitAtFirst(s: string, sep: char, rest: string)
    requires sep !in s
    ensures Split(s + [sep] + rest, sep) == [s] + Split(rest, sep)
  {
    var all := s + [sep] + rest;
    if s == [] {
      assert all[1..] == rest;
    } else {
      SplitAtFirst(s[1..], sep, rest);
      assert all[1..] == s[1..] + [sep] + rest && s == [s[0]] + s[1..];
    }
  }

  /** Joined parts split into themselves. */
  lemma {:induction false} JoinedSplits(parts: seq<string>, sep: char)
    requires parts != [] && Free(parts, sep)
    ensures Split(Join(parts, [sep]), sep) == parts
  {
    if |parts| == 1 {
      SplitOfWord(parts[0], sep);
    } else {
      JoinedSplits(parts[1..], sep);
      SplitAtFirst(parts[0], sep, Join(parts[1..], [sep]));
    }
  }

  /** And what is split joins to itself, from parts without the separator. */
  lemma {:induction false} SplitJoins(s: string, sep: char)
    ensures Join(Split(s, sep), [sep]) == s && Free(Split(s, sep), sep)
  {
    if s != [] {
      SplitJoins(s[1..], sep);
      var rest := Split(s[1..], sep);
      if s[0] == sep {
        assert ([[]] + rest)[1..] == rest;
      } else {
        assert ([[s[0]] + rest[0]] + rest[1..])[1..] == rest[1..];
      }
      assert s == [s[0]] + s[1..];
    }
  }

  lemma {:induction false} JoinLast(parts: seq<string>, last: string, sep: string)
    requires parts != []
    ensures Join(parts + [last], sep) == Join(parts, sep) + sep + last
  {
    if |parts| == 1 {
      assert (parts + [last])[1..] == [last];
    } else {
      JoinLast(parts[1..], last, sep);
      assert (parts + [last])[1..] == parts[1..] + [last];
    }
  }

  // ---------- dotted names ----------

  lemma {:induction false} DotsToSlashes(parts: seq<string>)
    requires Free(parts, '.')
    ensures Replace(Join(parts, "."), '.', '/') == Join(parts, "/")
  {
    if |parts| == 1 {
      assert Replace(parts[0], '.', '/') == parts[0];
    } else if parts != [] {
      DotsToSlashes(parts[1..]);
      var rest := Join(parts[1..], ".");
      assert Replace(parts[0] + "." + rest, '.', '/') == Replace(parts[0], '.', '/') + "/" + Replace(rest, '.', '/');
      assert Replace(parts[0], '.', '/') == parts[0];
    }
  }

  /** A dotted name is the package initialiser on its path when that is tracked, and else the module file. */
  lemma DottedNameLeadsTo(tracked: set<string>, parts: seq<string>)
    requires Free(parts, '.')
    ensures var path := Join(parts, "/");
      ModuleRel(tracked, Join(parts, ".")) ==
        if path + "/__init__.py" in tracked then Some(path + "/__init__.py")
        else if path + ".py" in tracked then Some(path + ".py") else None
  {
    DotsToSlashes(parts);
  }

  // ---------- relative imports ----------

  lemma SuffixOfLast(before: string, file: string)
    requires '/' !in file && (before == [] || before[|before| - 1] == '/')
    ensures RemoveSuffix(before + file, ".py") == before + RemoveSuffix(file, ".py")
  {
    var path := before + file;
    if |file| >= 3 {
      assert path[|path| - 3..] == file[|file| - 3..];
      assert path[..|path| - 3] == before + file[..|file| - 3];
    } else if before != [] && |path| >= 3 {
      assert path[|path| - 3..][2 - |file|] == '/';
    }
  }

  /** The package of a module file is the directory it stands in. */
  lemma PackageIsDirectory(dirs: seq<string>, file: string)
    requires Free(dirs, '/') && '/' !in file
    ensures TakeUpTo(Split(RemoveSuffix(Join(dirs + [file], "/"), ".py"), '/'), -1) == dirs
  {
    var stem := RemoveSuffix(file, ".py");
    assert '/' !in stem;
    if dirs == [] {
      assert dirs + [file] == [file];
      SuffixOfLast([], file);
      SplitOfWord(stem, '/');
      assert [] + file == file && [] + stem == stem;
    } else {
      var before := Join(dirs, "/") + "/";
      JoinLast(dirs, file, "/");
      JoinLast(dirs, stem, "/");
      SuffixOfLast(before, file);
      JoinedSplits(dirs + [stem], '/');
    }
  }

  /** How many of n package parts a relative import keeps; one that climbs too far counts from the end again. */
  function Kept(n: nat, up: nat): nat
  {
    if up <= n then n - up else if up < 2 * n then 2 * n - up else 0
  }

  lemma KeptIsPrefix(dirs: seq<string>, up: nat)
    ensures Kept(|dirs|, up) <= |dirs|
    ensures TakeUpTo(dirs, |dirs| - up) == dirs[..Kept(|dirs|, up)]
  {}

  /** A from-import with one dot looks in the module's own directory, each further dot one directory up. */
  lemma RelativeImportLeadsTo(dirs: seq<string>, file: string, level: nat, parts: seq<string>)
    requires Free(dirs, '/') && '/' !in file && level > 0
    requires parts != [] && parts != [[]] && Free(parts, '.')
    ensures Kept(|dirs|, level - 1) <= |dirs|
    ensures var rel, package := Join(dirs + [file], "/"), dirs[..Kept(|dirs|, level - 1)];
      && AbsoluteModule(rel, level, None) == Join(package, ".")
      && AbsoluteModule(rel, level, Some(Join(parts, "."))) == Join(package + parts, ".")
  {
    PackageIsDirectory(dirs, file);
    KeptIsPrefix(dirs, level - 1);
    JoinedSplits(parts, '.');
    SplitOfWord([], '.');
    assert Join(parts, ".") != [];
    var package := dirs[..Kept(|dirs|, level - 1)];
    assert level == 1 ==> package == dirs;
    assert package + [] == package;
  }

  /** Without dots the module named is the module meant. */
  lemma AbsoluteImportLeadsTo(rel: string, name: string)
    ensures AbsoluteModule(rel, 0, Some(name)) == name && AbsoluteModule(rel, 0, None) == ""
  {}
}
