/**
  The contract document spelled out: the lines of the canonical form, the one JSON value that
  decodes to a contract, and the copies with other line ends that spell it as well.
 */
module CodecForms {
  import opened Prelude
  import opened JsonText
  import opened JsonGrammar
  import opened JsonLayout
  import opened SortedStrings
  import opened PublicApiCodec

  // ---------- the accepted document ----------

  /** The value that spells a contract. */
  function SchemaDocument(c: Contract): Json
  {
    Object([(Points("schema_version"), Number("1", true)),
            (Points("source"), Object([(Points("repository"), String(c.source.repository)),
                                       (Points("commit"), String(c.source.commit)),
                                       (Points("generator"), String(c.source.generator))])),
            (Points("distribution"), String(c.data.distribution)), (Points("version"), String(c.data.version)),
            (Points("exports"), Array(seq(|c.data.exports|, k requires 0 <= k < |c.data.exports| => String(c.data.exports[k]))))])
  }

  ghost predicate AllowedSource(s: Source)
  {
    && s.repository == Points("cerredz/Vidbyte-SDK") && s.generator == Points("scripts/generate-sdk-public-api.py")
    && |s.commit| == 40 && forall k :: 0 <= k < 40 ==> s.commit[k] in Points("0123456789abcdef")
  }

  ghost predicate AllowedData(isIdentifier: PyStr -> bool, d: Data)
  {
    && (exists k :: 0 <= k < |d.distribution| && d.distribution[k] !in WHITESPACE)
    && (exists k :: 0 <= k < |d.version| && d.version[k] !in WHITESPACE)
    && (forall x :: x in d.exports ==> isIdentifier(x)) && Ascending(d.exports)
  }

  lemma HexIsSpelled(c: CodePoint)
    ensures CommitChar(c) <==> c in Points("0123456789abcdef")
  {
    var hex := Points("0123456789abcdef");
    if 48 <= c <= 57 { assert hex[c - 48] == c; }
    if 97 <= c <= 102 { assert hex[c - 87] == c; }
  }

  lemma SourceIsAllowed(s: Source)
    ensures ValidSource(s) <==> AllowedSource(s)
  {
    forall k | 0 <= k < |s.commit| ensures CommitChar(s.commit[k]) <==> s.commit[k] in Points("0123456789abcdef") {
      HexIsSpelled(s.commit[k]);
    }
  }

  lemma NonBlankIsSpelled(s: PyStr)
    ensures NonBlank(s) <==> exists k :: 0 <= k < |s| && s[k] !in WHITESPACE
  {
    forall k | 0 <= k < |s| ensures Whitespace(s[k]) <==> s[k] in WHITESPACE { WhitespaceIsListed(s[k]); }
  }

  lemma DataIsAllowed(isIdentifier: PyStr -> bool, d: Data)
    ensures ValidData(isIdentifier, d) <==> AllowedData(isIdentifier, d)
  {
    NonBlankIsSpelled(d.distribution);
    NonBlankIsSpelled(d.version);
    SortedUniqueIsAscending(d.exports);
  }

  lemma {:induction false} StringsAreItems(items: seq<Json>, xs: seq<PyStr>)
    ensures Strings(items) == Some(xs) <==> |items| == |xs| && forall k :: 0 <= k < |xs| ==> items[k] == String(xs[k])
    decreases |items|
  {
    if items != [] && xs != [] {
      StringsAreItems(items[1..], xs[1..]);
      assert xs == [xs[0]] + xs[1..];
      if |items| == |xs| && forall k :: 0 <= k < |xs| ==> items[k] == String(xs[k]) {
        forall k | 0 <= k < |xs[1..]| ensures items[1..][k] == String(xs[1..][k]) { assert items[k + 1] == String(xs[k + 1]); }
      }
      if Strings(items) == Some(xs) {
        assert Strings(items[1..]).value == xs[1..];
        forall k | 0 <= k < |xs| ensures items[k] == String(xs[k]) {
          if k > 0 { assert items[1..][k - 1] == String(xs[1..][k - 1]); }
        }
      }
    }
  }

  lemma SourceDecodesExactly(j: Json, s: Source)
    ensures DecodeSource(j) == Some(s) <==>
      && ValidSource(s)
      && j == Object([(Points("repository"), String(s.repository)), (Points("commit"), String(s.commit)),
                      (Points("generator"), String(s.generator))])
  {
    if j.Object? && |j.members| == 3 {
      var m := j.members;
      assert m == [m[0], m[1], m[2]];
      assert Keys(m) == SOURCE_KEYS <==> Keys(m)[0] == SOURCE_KEYS[0] && Keys(m)[1] == SOURCE_KEYS[1] && Keys(m)[2] == SOURCE_KEYS[2];
    }
  }

  /** Exactly one JSON value decodes to a contract, its schema's document, and only when its values are allowed. */
  lemma DecodesExactly(isIdentifier: PyStr -> bool, j: Json, c: Contract)
    ensures Decode(isIdentifier, j) == Some(c) <==>
      j == SchemaDocument(c) && AllowedSource(c.source) && AllowedData(isIdentifier, c.data)
  {
    SourceIsAllowed(c.source);
    DataIsAllowed(isIdentifier, c.data);
    if j.Object? && |j.members| == 5 {
      var m := j.members;
      SameKeys(m);
      SourceDecodesExactly(m[1].1, c.source);
      if m[4].1.Array? {
        StringsAreItems(m[4].1.items, c.data.exports);
      }
      if Decode(isIdentifier, j) == Some(c) {
        assert m == [m[0], m[1], m[2], m[3], m[4]];
        assert m[4].1.items == SchemaDocument(c).members[4].1.items;
        assert m == SchemaDocument(c).members;
      }
    }
    if j == SchemaDocument(c) { assert |j.members| == 5; }
  }

  lemma SameKeys(m: seq<(PyStr, Json)>)
    requires |m| == 5
    ensures Keys(m) == TOP_LEVEL_KEYS <==>
      && m[0].0 == Points("schema_version") && m[1].0 == Points("source") && m[2].0 == Points("distribution")
      && m[3].0 == Points("version") && m[4].0 == Points("exports")
  {}

  /** A text is read as a contract exactly when it spells that document. */
  lemma ParsesExactly(isIdentifier: PyStr -> bool, text: string, c: Contract)
    ensures Parse(isIdentifier, text) == Some(c) <==>
      Loads(text) == Some(SchemaDocument(c)) && AllowedSource(c.source) && AllowedData(isIdentifier, c.data)
  {
    if Loads(text).Some? {
      DecodesExactly(isIdentifier, Loads(text).value, c);
    }
  }

  // ---------- the canonical lines ----------

  function ExportLines(exports: seq<PyStr>): (lines: seq<string>)
    ensures |lines| == |exports|
    ensures forall k :: 0 <= k < |exports| ==> lines[k] == "    " + (Quote(exports[k]) + if k < |exports| - 1 then "," else "")
  {
    seq(|exports|, k requires 0 <= k < |exports| => "    " + (Quote(exports[k]) + if k < |exports| - 1 then "," else ""))
  }

  function SourceLine(s: Source): string
  {
    "  \"source\": {\"repository\": " + Quote(s.repository) + ", \"commit\": " + Quote(s.commit)
    + ", \"generator\": " + Quote(s.generator) + "},"
  }

  function DistributionLine(d: Data): string { "  \"distribution\": " + Quote(d.distribution) + "," }

  function VersionLine(d: Data): string { "  \"version\": " + Quote(d.version) + "," }

  function ExportsPart(exports: seq<PyStr>): seq<string>
  {
    if exports == [] then ["  \"exports\": []"] else ["  \"exports\": ["] + ExportLines(exports) + ["  ]"]
  }

  function Header(c: Contract): seq<string>
  {
    ["{", "  \"schema_version\": 1,", SourceLine(c.source), DistributionLine(c.data), VersionLine(c.data)]
  }

  /** The lines of the canonical document. */
  function Lines(c: Contract): seq<string>
  {
    Header(c) + (ExportsPart(c.data.exports) + ["}"])
  }

  lemma FourLines(lines: seq<string>, f: seq<Field>)
    requires |f| >= 4
    ensures AddFieldLines(lines, f, 4) == lines + [FieldLine(f[0]), FieldLine(f[1]), FieldLine(f[2]), FieldLine(f[3])]
  {
    var f1, f2, f3 := f[1..], f[2..], f[3..];
    assert f1[1..] == f2 && f2[1..] == f3 && f1[0] == f[1] && f2[0] == f[2] && f3[0] == f[3];
    var l1 := lines + [FieldLine(f[0])];
    var l2 := l1 + [FieldLine(f[1])];
    var l3 := l2 + [FieldLine(f[2])];
    assert AddFieldLines(l3 + [FieldLine(f[3])], f3[1..], 0) == l3 + [FieldLine(f[3])];
    assert AddFieldLines(lines, f, 4) == AddFieldLines(l1, f1, 3) == AddFieldLines(l2, f2, 2) == AddFieldLines(l3, f3, 1);
  }

  lemma TextLineIsSpelled(name: string, spelled: string, x: PyStr)
    requires spelled == "  " + (Key(name) + ": ")
    ensures FieldLine(Field(name, Text(x))) == spelled + Quote(x) + ","
  {
    MemberIsSpelled(name, Key(name) + ": ", Quote(x) + ",");
    Regroup("  ", Key(name) + ": ", Quote(x) + ",", []);
    Regroup(spelled, Quote(x), ",", []);
  }

  lemma MemberIsSpelled(name: string, spelled: string, rest: string)
    requires spelled == Key(name) + ": "
    ensures Member(name, rest) == spelled + rest
  {
    Regroup(Key(name), ": ", rest, []);
  }

  /** Concatenation to the right and to the left. */
  lemma Unnest(p: string, r: string, q: string, c: string, t: string, g: string, e: string)
    ensures p + (r + (q + (c + (t + (g + e))))) == p + r + q + c + t + g + e
  {
    Regroup(p, r, q + (c + (t + (g + e))), []);
    Regroup(p + r, q, c + (t + (g + e)), []);
    Regroup(p + r + q, c, t + (g + e), []);
    Regroup(p + r + q + c, t, g + e, []);
    Regroup(p + r + q + c + t, g, e, []);
  }

  lemma SourceTextIsSpelled(s: Source, pr: string, pc: string, pg: string, rest: string)
    requires pr == "{" + (Key("repository") + ": ") && pc == ", " + (Key("commit") + ": ") && pg == ", " + (Key("generator") + ": ")
    ensures SourceText(s, rest) == pr + (Quote(s.repository) + (pc + (Quote(s.commit) + (pg + (Quote(s.generator) + ("}" + rest))))))
  {
    var g := Quote(s.generator) + ("}" + rest);
    MemberIsSpelled("generator", Key("generator") + ": ", g);
    Regroup(", ", Key("generator") + ": ", g, []);
    var c := Quote(s.commit) + (pg + g);
    MemberIsSpelled("commit", Key("commit") + ": ", c);
    Regroup(", ", Key("commit") + ": ", c, []);
    var r := Quote(s.repository) + (pc + c);
    MemberIsSpelled("repository", Key("repository") + ": ", r);
    Regroup("{", Key("repository") + ": ", r, []);
  }

  lemma SourceKeysAreSpelled()
    ensures "{" + (Key("repository") + ": ") == "{\"repository\": "
    ensures ", " + (Key("commit") + ": ") == ", \"commit\": "
    ensures ", " + (Key("generator") + ": ") == ", \"generator\": "
  {}

  lemma FieldKeysAreSpelled()
    ensures ("  " + (Key("source") + ": ")) + "{\"repository\": " == "  \"source\": {\"repository\": "
    ensures "  " + (Key("distribution") + ": ") == "  \"distribution\": "
    ensures "  " + (Key("version") + ": ") == "  \"version\": "
  {}

  lemma LineOfSource(s: Source, p: string, pr: string, pc: string, pg: string)
    requires pr == "{" + (Key("repository") + ": ") && pc == ", " + (Key("commit") + ": ") && pg == ", " + (Key("generator") + ": ")
    requires p == ("  " + (Key("source") + ": ")) + pr
    ensures FieldLine(Field("source", SourceObject(s)))
         == p + Quote(s.repository) + pc + Quote(s.commit) + pg + Quote(s.generator) + ("}" + ",")
  {
    var r, c, g := Quote(s.repository), Quote(s.commit), Quote(s.generator);
    SourceTextIsSpelled(s, pr, pc, pg, ",");
    MemberIsSpelled("source", Key("source") + ": ", SourceText(s, ","));
    Regroup("  ", Key("source") + ": ", SourceText(s, ","), []);
    Regroup("  " + (Key("source") + ": "), pr, r + (pc + (c + (pg + (g + ("}" + ","))))), []);
    Unnest(p, r, pc, c, pg, g, "}" + ",");
  }

  lemma SourceLineIsSpelled(s: Source)
    ensures FieldLine(Field("source", SourceObject(s))) == SourceLine(s)
  {
    SourceKeysAreSpelled();
    FieldKeysAreSpelled();
    LineOfSource(s, "  \"source\": {\"repository\": ", "{\"repository\": ", ", \"commit\": ", ", \"generator\": ");
    assert "}" + "," == "},";
  }

  lemma VersionLineIsSpelled()
    ensures FieldLine(Field("schema_version", SchemaVersion)) == "  \"schema_version\": 1,"
  {}

  lemma HeaderIsSpelled(c: Contract)
    ensures AddFieldLines(["{"], Fields(c), 4) == Header(c)
  {
    SourceLineIsSpelled(c.source);
    VersionLineIsSpelled();
    FieldKeysAreSpelled();
    TextLineIsSpelled("distribution", "  \"distribution\": ", c.data.distribution);
    TextLineIsSpelled("version", "  \"version\": ", c.data.version);
    FourLines(["{"], Fields(c));
  }

  /** What is left after the header is the lines of the exports and the closing brace. */
  lemma {:induction false} ExportsAreSpelled(exports: seq<PyStr>, k: nat)
    requires k <= |exports|
    ensures ExportsLeft(exports, k) == Unlines(ExportLines(exports)[k..] + ["  ]", "}"])
    decreases |exports| - k
  {
    var rest := ExportLines(exports)[k..] + ["  ]", "}"];
    if k == |exports| {
      assert rest == ["  ]", "}"] && rest[1..] == ["}"] && ["}"][1..] == [];
      assert Unlines([]) == [] && Unlines(["}"]) == "}\n";
    } else {
      ExportsAreSpelled(exports, k + 1);
      ExportLineLeft(exports, k);
      assert rest[0] == ExportLine(exports, k) && rest[1..] == ExportLines(exports)[k + 1..] + ["  ]", "}"];
    }
  }

  lemma {:induction false} UnlinesConcat(a: seq<string>, b: seq<string>)
    ensures Unlines(a + b) == Unlines(a) + Unlines(b)
  {
    if a == [] {
      assert a + b == b;
    } else {
      UnlinesConcat(a[1..], b);
      assert (a + b)[1..] == a[1..] + b;
      Regroup(a[0], "\n", Unlines(a[1..]), Unlines(b));
    }
  }

  lemma TwoLines(a: string, b: string)
    ensures Unlines([a, b]) == a + ("\n" + (b + "\n"))
  {
    assert [a, b][1..] == [b] && [b][1..] == [] && Unlines([]) == [];
    assert Unlines([b]) == b + "\n";
  }

  lemma ExportsKeyIsSpelled()
    ensures "  " + (Key("exports") + ": []") == "  \"exports\": []"
    ensures "  " + (Key("exports") + ": [") == "  \"exports\": ["
  {}

  lemma OpenedLines(open: string, exports: seq<PyStr>)
    ensures Unlines(([open] + ExportLines(exports) + ["  ]"]) + ["}"]) == open + ("\n" + ExportsLeft(exports, 0))
  {
    var rest := ExportLines(exports) + ["  ]", "}"];
    ExportsAreSpelled(exports, 0);
    assert ExportLines(exports)[0..] == ExportLines(exports);
    assert ([open] + ExportLines(exports) + ["  ]"]) + ["}"] == [open] + rest && ([open] + rest)[1..] == rest;
  }

  /** The lines of the exports array and the closing brace. */
  lemma ExportsTextIsLines(exports: seq<PyStr>)
    ensures "  " + Member("exports", ExportsText(exports, "\n}\n")) == Unlines(ExportsPart(exports) + ["}"])
  {
    ExportsOpen(exports);
    ExportsKeyIsSpelled();
    if exports == [] {
      TwoLines("  \"exports\": []", "}");
      assert ["  \"exports\": []"] + ["}"] == ["  \"exports\": []", "}"];
    } else {
      OpenedLines("  \"exports\": [", exports);
    }
  }

  lemma RenderedInParts(c: Contract)
    ensures Rendered(c) == Unlines(AddFieldLines(["{"], Fields(c), 4) + (ExportsPart(c.data.exports) + ["}"]))
  {
    RenderedHeader(c);
    ExportsTextIsLines(c.data.exports);
    UnlinesConcat(AddFieldLines(["{"], Fields(c), 4), ExportsPart(c.data.exports) + ["}"]);
  }

  /** The canonical document is these lines, each ended by a line feed. */
  lemma RenderedIsLines(c: Contract)
    ensures Rendered(c) == Unlines(Lines(c))
  {
    RenderedInParts(c);
    HeaderIsSpelled(c);
  }

  // ---------- copies with other line ends ----------

  /** A copy whose line feeds were replaced by other white space is read as the same contract. */
  lemma RelaidCopyParses(isIdentifier: PyStr -> bool, gap: string, text: string)
    requires White(gap) && Parse(isIdentifier, text).Some?
    ensures Parse(isIdentifier, Relaid(gap, text)) == Parse(isIdentifier, text)
  {
    LayoutDoesNotMatter(gap, text);
  }

  /** A converted checkout is read as the contract it was made from, and is no contract's canonical document. */
  lemma CarriageReturnsAreSeen(isIdentifier: PyStr -> bool, c: Contract)
    requires ValidContract(isIdentifier, c) && AllUnpaired(c.data)
    ensures var copy := Relaid("\r\n", Rendered(c));
      Parse(isIdentifier, copy) == Some(c) && forall d :: copy != Rendered(d)
  {
    RenderedParses(isIdentifier, c);
    RelaidCopyParses(isIdentifier, "\r\n", Rendered(c));
    forall d ensures |Rendered(d)| > 1 && Rendered(d)[..2] == "{\n" {
      assert Rendered(d)[0] == '{' && Rendered(d)[1] == '\n';
    }
    var s := Rendered(c);
    assert s[0] == s[..2][0] && s[1] == s[..2][1] && s[1..][0] == s[1];
    assert Relaid("\r\n", s) == ['{'] + ("\r\n" + Relaid("\r\n", s[1..][1..]));
    assert Relaid("\r\n", s)[1] == '\r' && "{\n"[1] == '\n';
    forall d ensures Relaid("\r\n", s) != Rendered(d) { assert Rendered(d)[1] == Rendered(d)[..2][1]; }
  }
}
