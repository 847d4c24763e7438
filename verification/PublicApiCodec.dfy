/**
  The public-API contract document: its validated records, its canonical rendering, and the
  parser of a committed copy. Which strings are Python identifiers is a parameter.
 */
module PublicApiCodec {
  import opened Prelude
  import opened JsonText
  import opened SortedStrings

  const REPOSITORY := "cerredz/Vidbyte-SDK"
  const GENERATOR_REL := "scripts/generate-sdk-public-api.py"

  datatype Source = Source(repository: PyStr, commit: PyStr, generator: PyStr)
  datatype Data = Data(distribution: PyStr, version: PyStr, exports: seq<PyStr>)
  datatype Contract = Contract(source: Source, data: Data)

  predicate CommitChar(c: int) { 48 <= c <= 57 || 97 <= c <= 102 }

  predicate IsCommit(s: PyStr) { |s| == 40 && forall k :: 0 <= k < |s| ==> CommitChar(s[k]) }

  predicate ValidSource(s: Source)
  {
    s.repository == Points(REPOSITORY) && IsCommit(s.commit) && s.generator == Points(GENERATOR_REL)
  }

  /** The code points `str.strip` removes. */
  predicate Whitespace(c: int)
  {
    || 9 <= c <= 13 || 28 <= c <= 32 || c == 0x85 || c == 0xA0 || c == 0x1680
    || 0x2000 <= c <= 0x200A || c == 0x2028 || c == 0x2029 || c == 0x202F || c == 0x205F || c == 0x3000
  }

  /** The same code points one by one: the separators and the spaces of Unicode. */
  const WHITESPACE := {
    0x9, 0xA, 0xB, 0xC, 0xD, 0x1C, 0x1D, 0x1E, 0x1F, 0x20, 0x85, 0xA0, 0x1680, 0x2000, 0x2001, 0x2002, 0x2003, 0x2004,
    0x2005, 0x2006, 0x2007, 0x2008, 0x2009, 0x200A, 0x2028, 0x2029, 0x202F, 0x205F, 0x3000}

  lemma WhitespaceIsListed(c: int)
    ensures Whitespace(c) <==> c in WHITESPACE
  {}

  predicate NonBlank(s: PyStr) { exists k :: 0 <= k < |s| && !Whitespace(s[k]) }

  predicate ValidData(isIdentifier: PyStr -> bool, d: Data)
  {
    && NonBlank(d.distribution) && NonBlank(d.version)
    && (forall k :: 0 <= k < |d.exports| ==> isIdentifier(d.exports[k]))
    && SortedUnique(d.exports)
  }

  predicate ValidContract(isIdentifier: PyStr -> bool, c: Contract)
  {
    ValidSource(c.source) && ValidData(isIdentifier, c.data)
  }

  // ---------- rendering ----------

  /** A key as it stands in the document. */
  function Key(name: string): string { "\"" + name + "\"" }

  /** A key, its colon and everything after them. */
  function Member(name: string, rest: string): string { Key(name) + (": " + rest) }

  /** The one-line source object, followed by `rest`. */
  function SourceText(s: Source, rest: string): string
  {
    "{" + Member("repository", Quote(s.repository) + (", "
        + Member("commit", Quote(s.commit) + (", "
        + Member("generator", Quote(s.generator) + ("}" + rest))))))
  }

  function ItemsText(xs: seq<PyStr>, rest: string): string
    requires xs != []
  {
    Quote(xs[0]) + if |xs| == 1 then "\n  ]" + rest else ",\n    " + ItemsText(xs[1..], rest)
  }

  function ExportsText(xs: seq<PyStr>, rest: string): string
  {
    if xs == [] then "[]" + rest else "[\n    " + ItemsText(xs, rest)
  }

  /** What a top-level field of the document holds. */
  datatype FieldValue = SchemaVersion | SourceObject(source: Source) | Text(text: PyStr) | Names(names: seq<PyStr>)
  datatype Field = Field(name: string, value: FieldValue)

  function ValueText(v: FieldValue, rest: string): string
  {
    match v
    case SchemaVersion => "1" + rest
    case SourceObject(source) => SourceText(source, rest)
    case Text(text) => Quote(text) + rest
    case Names(names) => ExportsText(names, rest)
  }

  function FieldsText(fields: seq<Field>): string
    requires fields != []
  {
    Member(fields[0].name, ValueText(fields[0].value, if |fields| == 1 then "\n}\n" else ",\n  " + FieldsText(fields[1..])))
  }

  /** The top-level fields in schema order. */
  function Fields(c: Contract): seq<Field>
  {
    [Field("schema_version", SchemaVersion), Field("source", SourceObject(c.source)),
     Field("distribution", Text(c.data.distribution)), Field("version", Text(c.data.version)),
     Field("exports", Names(c.data.exports))]
  }

  /** The canonical document: one field per line, one export per line. */
  function Rendered(c: Contract): string
  {
    "{\n  " + FieldsText(Fields(c))
  }

  // ---------- parsing ----------

  function Keys(members: seq<(PyStr, Json)>): (keys: seq<PyStr>)
    ensures |keys| == |members| && forall k :: 0 <= k < |keys| ==> keys[k] == members[k].0
  {
    seq(|members|, k requires 0 <= k < |members| => members[k].0)
  }

  const TOP_LEVEL_KEYS := [Points("schema_version"), Points("source"), Points("distribution"), Points("version"), Points("exports")]
  const SOURCE_KEYS := [Points("repository"), Points("commit"), Points("generator")]

  function Strings(items: seq<Json>): Option<seq<PyStr>>
  {
    if items == [] then Some([])
    else if !items[0].String? || Strings(items[1..]).None? then None
    else Some([items[0].s] + Strings(items[1..]).value)
  }

  function DecodeSource(j: Json): Option<Source>
  {
    if !j.Object? || Keys(j.members) != SOURCE_KEYS then None
    else
      var m := j.members;
      assert |m| == |Keys(m)|;
      if !m[0].1.String? || !m[1].1.String? || !m[2].1.String? then None
      else
        var s := Source(m[0].1.s, m[1].1.s, m[2].1.s);
        if ValidSource(s) then Some(s) else None
  }

  function Decode(isIdentifier: PyStr -> bool, j: Json): Option<Contract>
  {
    if !j.Object? || Keys(j.members) != TOP_LEVEL_KEYS then None
    else
      var m := j.members;
      assert |m| == |Keys(m)|;
      if m[0].1 != Number("1", true) || DecodeSource(m[1].1).None? || !m[4].1.Array? then None
      else if !m[2].1.String? || !m[3].1.String? || Strings(m[4].1.items).None? then None
      else
        var d := Data(m[2].1.s, m[3].1.s, Strings(m[4].1.items).value);
        if ValidData(isIdentifier, d) then Some(Contract(DecodeSource(m[1].1).value, d)) else None
  }

  function Parse(isIdentifier: PyStr -> bool, text: string): (r: Option<Contract>)
    ensures r.Some? ==> ValidContract(isIdentifier, r.value)
  {
    match Loads(text)
    case None => None
    case Some(j) => Decode(isIdentifier, j)
  }

  // ---------- the rendering parses to the document it was made from ----------

  predicate Plain(name: string)
  {
    forall k :: 0 <= k < |name| ==> 'a' <= name[k] <= 'z' || name[k] == '_'
  }

  lemma {:induction false} PlainIsQuoted(name: string)
    requires Plain(name)
    ensures Quote(Points(name)) == Key(name)
    ensures Unpaired(Points(name))
  {
    PlainIsEscaped(name);
    assert Quote(Points(name)) == Key(name);
  }

  lemma {:induction false} PlainIsEscaped(name: string)
    requires Plain(name)
    ensures EscapeAll(Points(name)) == name
  {
    if name != [] {
      assert Points(name)[1..] == Points(name[1..]);
      PlainIsEscaped(name[1..]);
      assert name == [name[0]] + name[1..];
    }
  }

  lemma KeyReads(name: string, rest: string)
    requires Plain(name)
    ensures Key(name) + rest != [] && (Key(name) + rest)[0] == '\"'
    ensures ParseChars((Key(name) + rest)[1..]) == Parsed(Points(name), rest)
  {
    PlainIsQuoted(name);
    MergedKeepsExactlyUnpaired(Points(name));
    QuotedReads(Points(name), rest);
    EscapedReads(Points(name), rest);
    assert (Key(name) + rest)[1..] == EscapeAll(Points(name)) + ("\"" + rest);
  }

  predicate Blanks(s: string) { forall k :: 0 <= k < |s| ==> Blank(s[k]) }

  lemma {:induction false} SkipsBlanks(blanks: string, s: string)
    requires Blanks(blanks) && (s == [] || !Blank(s[0]))
    ensures Skip(blanks + s) == s
  {
    if blanks == [] {
      assert blanks + s == s;
    } else {
      assert (blanks + s)[1..] == blanks[1..] + s;
      SkipsBlanks(blanks[1..], s);
    }
  }

  predicate Solid(s: string) { s != [] && !Blank(s[0]) }

  /** One member and the separator after it. */
  lemma MemberReads(name: string, text: string, value: Json, after: string, before: seq<(PyStr, Json)>)
    requires Plain(name) && Solid(text)
    requires ParseValue(text) == Parsed(value, after)
    requires Skip(after) != []
    ensures var members, next := Insert(before, Points(name), value), Skip(after);
      ParseMembers(Member(name, text), before)
        == if next[0] == '}' then Parsed(Object(members), next[1..])
           else if next[0] == ',' then ParseMembers(Skip(next[1..]), members)
           else Rejected
  {
    KeyReads(name, ": " + text);
    ColonReads(text);
  }

  lemma ColonReads(text: string)
    requires Solid(text)
    ensures Skip(": " + text) == ": " + text && Skip((": " + text)[1..]) == text
  {
    assert (": " + text)[1..] == " " + text;
    SkipsBlanks(" ", text);
  }

  predicate Separator(sep: string) { sep != [] && sep[0] == ',' && Blanks(sep[1..]) }

  lemma SeparatorReads(sep: string, next: string)
    requires Separator(sep) && Solid(next)
    ensures Skip(sep + next) == sep + next
    ensures Skip((sep + next)[1..]) == next
  {
    assert (sep + next)[1..] == sep[1..] + next;
    SkipsBlanks(sep[1..], next);
  }

  lemma {:induction false} InsertsNew(members: seq<(PyStr, Json)>, key: PyStr, value: Json)
    requires forall k :: 0 <= k < |members| ==> members[k].0 != key
    ensures Insert(members, key, value) == members + [(key, value)]
  {
    if members != [] {
      InsertsNew(members[1..], key, value);
    }
  }

  /** A member followed by a comma joins the members before it, and parsing goes on at `next`. */
  lemma MemberThenNext(name: string, text: string, value: Json, sep: string, next: string, before: seq<(PyStr, Json)>)
    requires Plain(name) && Solid(text) && Separator(sep) && Solid(next)
    requires ParseValue(text) == Parsed(value, sep + next)
    requires forall k :: 0 <= k < |before| ==> before[k].0 != Points(name)
    ensures ParseMembers(Member(name, text), before) == ParseMembers(next, before + [(Points(name), value)])
  {
    SeparatorReads(sep, next);
    MemberReads(name, text, value, sep + next, before);
    InsertsNew(before, Points(name), value);
  }

  lemma LastMember(name: string, text: string, value: Json, blanks: string, rest: string, before: seq<(PyStr, Json)>)
    requires Plain(name) && Solid(text) && Blanks(blanks)
    requires ParseValue(text) == Parsed(value, blanks + ("}" + rest))
    requires forall k :: 0 <= k < |before| ==> before[k].0 != Points(name)
    ensures ParseMembers(Member(name, text), before) == Parsed(Object(before + [(Points(name), value)]), rest)
  {
    SkipsBlanks(blanks, "}" + rest);
    MemberReads(name, text, value, blanks + ("}" + rest), before);
    InsertsNew(before, Points(name), value);
  }

  /** The elements of the exports array as they are read. */
  function StringItems(xs: seq<PyStr>): (items: seq<Json>)
    ensures |items| == |xs| && forall k :: 0 <= k < |xs| ==> items[k] == String(Merged(xs[k]))
  {
    seq(|xs|, k requires 0 <= k < |xs| => String(Merged(xs[k])))
  }

  lemma ItemThenNext(x: PyStr, sep: string, next: string, before: seq<Json>)
    requires Separator(sep) && Solid(next)
    ensures ParseItems(Quote(x) + (sep + next), before) == ParseItems(next, before + [String(Merged(x))])
  {
    QuotedReads(x, sep + next);
    SeparatorReads(sep, next);
  }

  lemma LastItem(x: PyStr, blanks: string, rest: string, before: seq<Json>)
    requires Blanks(blanks)
    ensures ParseItems(Quote(x) + (blanks + ("]" + rest)), before) == Parsed(Array(before + [String(Merged(x))]), rest)
  {
    QuotedReads(x, blanks + ("]" + rest));
    SkipsBlanks(blanks, "]" + rest);
  }

  /** After an opening bracket or brace, parsing goes on at the first quote. */
  lemma OpeningReads(opening: string, inner: string)
    requires opening != [] && Blanks(opening[1..]) && inner != [] && inner[0] == '\"'
    ensures opening[0] == '{' ==> ParseValue(opening + inner) == ParseMembers(inner, [])
    ensures opening[0] == '[' ==> ParseValue(opening + inner) == ParseItems(inner, [])
  {
    assert (opening + inner)[1..] == opening[1..] + inner;
    SkipsBlanks(opening[1..], inner);
  }

  lemma StringItemsStep(xs: seq<PyStr>, before: seq<Json>)
    requires xs != []
    ensures before + StringItems(xs) == (before + [String(Merged(xs[0]))]) + StringItems(xs[1..])
  {}

  lemma {:induction false} ItemsRead(xs: seq<PyStr>, rest: string, before: seq<Json>)
    requires xs != []
    ensures ItemsText(xs, rest)[0] == '\"'
    ensures ParseItems(ItemsText(xs, rest), before) == Parsed(Array(before + StringItems(xs)), rest)
    decreases |xs|
  {
    StringItemsStep(xs, before);
    if |xs| == 1 {
      assert "\n  ]" + rest == "\n  " + ("]" + rest);
      assert StringItems(xs[1..]) == [] && before + StringItems(xs) == before + [String(Merged(xs[0]))];
      LastItem(xs[0], "\n  ", rest, before);
    } else {
      ItemsRead(xs[1..], rest, before + [String(Merged(xs[0]))]);
      ItemThenNext(xs[0], ",\n    ", ItemsText(xs[1..], rest), before);
    }
  }

  lemma ExportsRead(xs: seq<PyStr>, rest: string)
    ensures Solid(ExportsText(xs, rest))
    ensures ParseValue(ExportsText(xs, rest)) == Parsed(Array(StringItems(xs)), rest)
  {
    var s := ExportsText(xs, rest);
    if xs == [] {
      assert s[1..] == "]" + rest;
      assert ("]" + rest)[1..] == rest;
      assert StringItems(xs) == [];
    } else {
      ItemsRead(xs, rest, []);
      assert [] + StringItems(xs) == StringItems(xs);
      OpeningReads("[\n    ", ItemsText(xs, rest));
    }
  }

  /** The schema's keys are lower-case words, and no two keys of one object are equal. */
  lemma SchemaKeys()
    ensures forall name :: name in {"schema_version", "source", "distribution", "version", "exports"} ==> Plain(name)
    ensures forall name :: name in {"repository", "commit", "generator"} ==> Plain(name)
    ensures forall i, j :: 0 <= i < j < 5 ==> TOP_LEVEL_KEYS[i] != TOP_LEVEL_KEYS[j]
    ensures forall i, j :: 0 <= i < j < 3 ==> SOURCE_KEYS[i] != SOURCE_KEYS[j]
  {
    assert Points("version")[0] != Points("exports")[0];
  }

  function SourceJson(s: Source): Json
  {
    Object([StringPair("repository", s.repository), StringPair("commit", s.commit), StringPair("generator", s.generator)])
  }

  lemma StringMember(name: string, x: PyStr, sep: string, next: string, before: seq<(PyStr, Json)>)
    requires Plain(name) && Separator(sep) && Solid(next)
    requires forall k :: 0 <= k < |before| ==> before[k].0 != Points(name)
    ensures ParseMembers(Member(name, Quote(x) + (sep + next)), before)
         == ParseMembers(next, before + [(Points(name), String(Merged(x)))])
  {
    QuotedReads(x, sep + next);
    MemberThenNext(name, Quote(x) + (sep + next), String(Merged(x)), sep, next, before);
  }

  lemma LastStringMember(name: string, x: PyStr, rest: string, before: seq<(PyStr, Json)>)
    requires Plain(name)
    requires forall k :: 0 <= k < |before| ==> before[k].0 != Points(name)
    ensures ParseMembers(Member(name, Quote(x) + ("}" + rest)), before)
         == Parsed(Object(before + [(Points(name), String(Merged(x)))]), rest)
  {
    QuotedReads(x, "}" + rest);
    assert "" + ("}" + rest) == "}" + rest;
    LastMember(name, Quote(x) + ("}" + rest), String(Merged(x)), "", rest, before);
  }

  function StringPair(name: string, x: PyStr): (PyStr, Json)
  {
    (Points(name), String(Merged(x)))
  }

  lemma CommitAndGeneratorRead(s: Source, rest: string)
    ensures ParseMembers(Member("commit", Quote(s.commit) + (", " + Member("generator", Quote(s.generator) + ("}" + rest)))),
                         [StringPair("repository", s.repository)]) == Parsed(SourceJson(s), rest)
  {
    SchemaKeys();
    var r, c := StringPair("repository", s.repository), StringPair("commit", s.commit);
    assert r.0 == SOURCE_KEYS[0] && c.0 == SOURCE_KEYS[1] && Points("generator") == SOURCE_KEYS[2];
    StringMember("commit", s.commit, ", ", Member("generator", Quote(s.generator) + ("}" + rest)), [r]);
    assert [r] + [c] == [r, c];
    LastStringMember("generator", s.generator, rest, [r, c]);
    assert [r, c] + [StringPair("generator", s.generator)] == [r, c, StringPair("generator", s.generator)];
  }

  lemma RepositoryReads(s: Source, rest: string)
    ensures ParseMembers(Member("repository", Quote(s.repository) + (", "
              + Member("commit", Quote(s.commit) + (", " + Member("generator", Quote(s.generator) + ("}" + rest)))))), [])
         == Parsed(SourceJson(s), rest)
  {
    SchemaKeys();
    var m2 := Member("commit", Quote(s.commit) + (", " + Member("generator", Quote(s.generator) + ("}" + rest))));
    StringMember("repository", s.repository, ", ", m2, []);
    assert [] + [StringPair("repository", s.repository)] == [StringPair("repository", s.repository)];
    CommitAndGeneratorRead(s, rest);
  }

  lemma SourceReads(s: Source, rest: string)
    ensures Solid(SourceText(s, rest)) && ParseValue(SourceText(s, rest)) == Parsed(SourceJson(s), rest)
  {
    var m1 := Member("repository", Quote(s.repository) + (", "
            + Member("commit", Quote(s.commit) + (", " + Member("generator", Quote(s.generator) + ("}" + rest))))));
    OpeningReads("{", m1);
    RepositoryReads(s, rest);
  }

  function ValueJson(v: FieldValue): Json
  {
    match v
    case SchemaVersion => Number("1", true)
    case SourceObject(source) => SourceJson(source)
    case Text(text) => String(Merged(text))
    case Names(names) => Array(StringItems(names))
  }

  lemma OneReads(rest: string)
    requires rest != [] && (rest[0] == ',' || rest[0] == '\n')
    ensures ParseValue("1" + rest) == Parsed(Number("1", true), rest)
  {
    var s := "1" + rest;
    assert s[1..] == rest && s[..1] == "1" && s[0..] == s;
    assert Digits(s) == 1;
  }

  lemma ValueReads(v: FieldValue, rest: string)
    requires rest != [] && (rest[0] == ',' || rest[0] == '\n')
    ensures Solid(ValueText(v, rest)) && ParseValue(ValueText(v, rest)) == Parsed(ValueJson(v), rest)
  {
    match v
    case SchemaVersion => OneReads(rest);
    case SourceObject(source) => SourceReads(source, rest);
    case Text(text) => QuotedReads(text, rest);
    case Names(names) => ExportsRead(names, rest);
  }

  function FieldMembers(fields: seq<Field>): (members: seq<(PyStr, Json)>)
    ensures |members| == |fields|
    ensures forall k :: 0 <= k < |fields| ==> members[k] == (Points(fields[k].name), ValueJson(fields[k].value))
  {
    seq(|fields|, k requires 0 <= k < |fields| => (Points(fields[k].name), ValueJson(fields[k].value)))
  }

  predicate DistinctKeys(members: seq<(PyStr, Json)>)
  {
    forall i, j :: 0 <= i < j < |members| ==> members[i].0 != members[j].0
  }

  lemma LastFieldReads(f: Field, before: seq<(PyStr, Json)>)
    requires Plain(f.name) && DistinctKeys(before + [(Points(f.name), ValueJson(f.value))])
    ensures ParseMembers(Member(f.name, ValueText(f.value, "\n}\n")), before)
         == Parsed(Object(before + [(Points(f.name), ValueJson(f.value))]), "\n")
  {
    ValueReads(f.value, "\n}\n");
    assert "\n}\n" == "\n" + ("}" + "\n");
    KeyIsNew(before, Points(f.name), ValueJson(f.value));
    LastMember(f.name, ValueText(f.value, "\n}\n"), ValueJson(f.value), "\n", "\n", before);
  }

  lemma FieldThenNext(f: Field, next: string, before: seq<(PyStr, Json)>)
    requires Plain(f.name) && DistinctKeys(before + [(Points(f.name), ValueJson(f.value))]) && Solid(next)
    ensures ParseMembers(Member(f.name, ValueText(f.value, ",\n  " + next)), before)
         == ParseMembers(next, before + [(Points(f.name), ValueJson(f.value))])
  {
    ValueReads(f.value, ",\n  " + next);
    KeyIsNew(before, Points(f.name), ValueJson(f.value));
    MemberThenNext(f.name, ValueText(f.value, ",\n  " + next), ValueJson(f.value), ",\n  ", next, before);
  }

  lemma KeyIsNew(before: seq<(PyStr, Json)>, key: PyStr, value: Json)
    requires DistinctKeys(before + [(key, value)])
    ensures forall k :: 0 <= k < |before| ==> before[k].0 != key
  {
    var all := before + [(key, value)];
    forall k | 0 <= k < |before| ensures before[k].0 != key {
      assert all[k].0 != all[|before|].0;
    }
  }

  lemma {:induction false} FieldsRead(fields: seq<Field>, before: seq<(PyStr, Json)>)
    requires fields != [] && DistinctKeys(before + FieldMembers(fields))
    requires forall k :: 0 <= k < |fields| ==> Plain(fields[k].name)
    ensures ParseMembers(FieldsText(fields), before) == Parsed(Object(before + FieldMembers(fields)), "\n")
    decreases |fields|
  {
    var f := fields[0];
    var before' := before + [(Points(f.name), ValueJson(f.value))];
    var all := before + FieldMembers(fields);
    assert before' == all[..|before| + 1];
    if |fields| == 1 {
      assert before' == all;
      LastFieldReads(f, before);
    } else {
      assert all == before' + FieldMembers(fields[1..]);
      FieldsRead(fields[1..], before');
      FieldThenNext(f, FieldsText(fields[1..]), before);
    }
  }

  /** The document a rendering spells. */
  function ContractJson(c: Contract): Json
  {
    Object(FieldMembers(Fields(c)))
  }

  lemma FieldsFollowSchema(c: Contract)
    ensures DistinctKeys(FieldMembers(Fields(c))) && Keys(FieldMembers(Fields(c))) == TOP_LEVEL_KEYS
    ensures forall k :: 0 <= k < 5 ==> Plain(Fields(c)[k].name)
  {
    SchemaKeys();
    var keys := Keys(FieldMembers(Fields(c)));
    assert keys == TOP_LEVEL_KEYS;
    forall i, j | 0 <= i < j < 5 ensures FieldMembers(Fields(c))[i].0 != FieldMembers(Fields(c))[j].0 {
      assert keys[i] != keys[j];
    }
  }

  /** A value and a final newline are a whole document. */
  lemma LineLoads(s: string, value: Json)
    requires Solid(s) && ParseValue(s) == Parsed(value, "\n")
    ensures Loads(s) == Some(value)
  {
    assert Skip("\n") == [];
  }

  lemma {:induction false} DocumentReads(fields: seq<Field>)
    requires fields != [] && DistinctKeys(FieldMembers(fields))
    requires forall k :: 0 <= k < |fields| ==> Plain(fields[k].name)
    ensures ParseMembers(FieldsText(fields), []) == Parsed(Object(FieldMembers(fields)), "\n")
  {
    assert [] + FieldMembers(fields) == FieldMembers(fields);
    FieldsRead(fields, []);
  }

  lemma {:induction false} DocumentLoads(fields: seq<Field>)
    requires fields != [] && DistinctKeys(FieldMembers(fields))
    requires forall k :: 0 <= k < |fields| ==> Plain(fields[k].name)
    ensures Loads("{\n  " + FieldsText(fields)) == Some(Object(FieldMembers(fields)))
  {
    var inner := FieldsText(fields);
    DocumentReads(fields);
    assert inner[0] == '\"';
    OpeningReads("{\n  ", inner);
    LineLoads("{\n  " + inner, Object(FieldMembers(fields)));
  }

  /** The canonical rendering is JSON and spells the contract's document. */
  lemma RenderedLoads(c: Contract)
    ensures Loads(Rendered(c)) == Some(ContractJson(c))
  {
    FieldsFollowSchema(c);
    DocumentLoads(Fields(c));
  }

  ghost predicate AllUnpaired(d: Data)
  {
    Unpaired(d.distribution) && Unpaired(d.version) && forall k :: 0 <= k < |d.exports| ==> Unpaired(d.exports[k])
  }

  lemma {:induction false} StringsOfItems(xs: seq<PyStr>)
    ensures Strings(StringItems(xs)).Some?
    ensures Strings(StringItems(xs)).value == xs <==> forall k :: 0 <= k < |xs| ==> Unpaired(xs[k])
  {
    if xs != [] {
      StringItemsStep(xs, []);
      assert StringItems(xs)[1..] == StringItems(xs[1..]);
      StringsOfItems(xs[1..]);
      MergedKeepsExactlyUnpaired(xs[0]);
      var rest := Strings(StringItems(xs[1..])).value;
      assert Strings(StringItems(xs)).value == [Merged(xs[0])] + rest;
      if forall k :: 0 <= k < |xs| ==> Unpaired(xs[k]) {
        assert [xs[0]] + xs[1..] == xs;
      }
      if [Merged(xs[0])] + rest == xs {
        assert ([Merged(xs[0])] + rest)[1..] == rest;
        forall k | 0 <= k < |xs| ensures Unpaired(xs[k]) {
          if k > 0 { assert xs[k] == xs[1..][k - 1]; }
        }
      }
    }
  }

  lemma SourceDecodes(s: Source)
    requires ValidSource(s)
    ensures DecodeSource(SourceJson(s)) == Some(s)
  {
    MergedKeepsExactlyUnpaired(s.repository);
    MergedKeepsExactlyUnpaired(s.commit);
    MergedKeepsExactlyUnpaired(s.generator);
    assert Keys(SourceJson(s).members) == SOURCE_KEYS;
  }

  lemma ContractDecodes(isIdentifier: PyStr -> bool, c: Contract)
    requires ValidContract(isIdentifier, c)
    ensures Decode(isIdentifier, ContractJson(c)) == Some(c) <==> AllUnpaired(c.data)
  {
    var j := ContractJson(c);
    FieldsFollowSchema(c);
    SourceDecodes(c.source);
    StringsOfItems(c.data.exports);
    MergedKeepsExactlyUnpaired(c.data.distribution);
    MergedKeepsExactlyUnpaired(c.data.version);
    assert j.members[0].1 == Number("1", true) && j.members[1].1 == SourceJson(c.source);
    assert j.members[2].1 == String(Merged(c.data.distribution)) && j.members[3].1 == String(Merged(c.data.version));
    assert j.members[4].1 == Array(StringItems(c.data.exports));
  }

  /**
    Reading a rendering back gives the same contract exactly when no string holds an escaped
    surrogate pair as two code points; strings of Unicode scalar values never do.
   */
  lemma RenderedParses(isIdentifier: PyStr -> bool, c: Contract)
    requires ValidContract(isIdentifier, c)
    ensures Parse(isIdentifier, Rendered(c)) == Some(c) <==> AllUnpaired(c.data)
  {
    RenderedLoads(c);
    ContractDecodes(isIdentifier, c);
  }

  /** Different contracts never share a rendering. */
  lemma RenderedIsInjective(isIdentifier: PyStr -> bool, a: Contract, b: Contract)
    requires ValidContract(isIdentifier, a) && ValidContract(isIdentifier, b) && AllUnpaired(a.data) && AllUnpaired(b.data)
    requires Rendered(a) == Rendered(b)
    ensures a == b
  {
    RenderedParses(isIdentifier, a);
    RenderedParses(isIdentifier, b);
  }

  // ---------- the line-by-line writer ----------

  function JoinLines(lines: seq<string>): string
  {
    if lines == [] then [] else lines[0] + if |lines| == 1 then [] else "\n" + JoinLines(lines[1..])
  }

  function Unlines(lines: seq<string>): string
  {
    if lines == [] then [] else lines[0] + ("\n" + Unlines(lines[1..]))
  }

  lemma {:induction false} JoinedLines(lines: seq<string>)
    requires lines != []
    ensures JoinLines(lines) + "\n" == Unlines(lines)
  {
    if |lines| > 1 {
      JoinedLines(lines[1..]);
    } else {
      assert Unlines(lines[1..]) == [];
    }
  }

  lemma {:induction false} UnlinesSnoc(lines: seq<string>, last: string)
    ensures Unlines(lines + [last]) == Unlines(lines) + (last + "\n")
  {
    if lines == [] {
      assert [] + [last] == [last] && Unlines([last][1..]) == [];
    } else {
      UnlinesSnoc(lines[1..], last);
      assert (lines + [last])[1..] == lines[1..] + [last];
      Regroup(lines[0], "\n", Unlines(lines[1..]), last + "\n");
    }
  }

  /** One line of the document, for every field but the last. */
  function FieldLine(f: Field): string
  {
    "  " + Member(f.name, ValueText(f.value, ","))
  }

  lemma MemberThen(name: string, rest: string, more: string)
    ensures Member(name, rest + more) == Member(name, rest) + more
  {
    Regroup(Key(name), ": ", rest, more);
  }

  lemma SourceTextThen(s: Source, rest: string, more: string)
    ensures SourceText(s, rest + more) == SourceText(s, rest) + more
  {
    var g := Quote(s.generator) + ("}" + rest);
    Regroup(Quote(s.generator), "}", rest, more);
    MemberThen("generator", g, more);
    var c := Quote(s.commit) + (", " + Member("generator", g));
    Regroup(Quote(s.commit), ", ", Member("generator", g), more);
    MemberThen("commit", c, more);
    var r := Quote(s.repository) + (", " + Member("commit", c));
    Regroup(Quote(s.repository), ", ", Member("commit", c), more);
    MemberThen("repository", r, more);
    Regroup("", "{", Member("repository", r), more);
  }

  lemma FieldLineThen(f: Field, next: string)
    requires !f.value.Names?
    ensures "  " + Member(f.name, ValueText(f.value, ",\n  " + next)) == FieldLine(f) + ("\n" + ("  " + next))
  {
    var more := "\n" + ("  " + next);
    assert ",\n  " + next == "," + more;
    match f.value {
      case SchemaVersion =>
      case SourceObject(source) => SourceTextThen(source, ",", more);
      case Text(_) =>
    }
    assert ValueText(f.value, "," + more) == ValueText(f.value, ",") + more;
  }

  /** A line per field before the last one spells the same text. */
  lemma {:induction false} FieldLines(lines: seq<string>, fields: seq<Field>)
    requires |fields| > 1 && !fields[0].value.Names?
    ensures Unlines(lines) + ("  " + FieldsText(fields)) == Unlines(lines + [FieldLine(fields[0])]) + ("  " + FieldsText(fields[1..]))
  {
    FieldLineThen(fields[0], FieldsText(fields[1..]));
    UnlinesSnoc(lines, FieldLine(fields[0]));
    Regroup(Unlines(lines), FieldLine(fields[0]), "\n", "  " + FieldsText(fields[1..]));
  }

  function ExportLine(xs: seq<PyStr>, k: nat): string
    requires k < |xs|
  {
    "    " + (Quote(xs[k]) + if k < |xs| - 1 then "," else "")
  }

  /** What is still to be written when the lines of the first k exports are. */
  function ExportsLeft(xs: seq<PyStr>, k: nat): string
    requires k <= |xs|
  {
    if k < |xs| then "    " + ItemsText(xs[k..], "\n}\n") else "  ]\n}\n"
  }

  lemma ExportLineLeft(xs: seq<PyStr>, k: nat)
    requires k < |xs|
    ensures ExportsLeft(xs, k) == ExportLine(xs, k) + ("\n" + ExportsLeft(xs, k + 1))
  {
    var q := Quote(xs[k]);
    assert xs[k..][1..] == xs[k + 1..] && xs[k..][0] == xs[k];
    if k == |xs| - 1 {
      assert ItemsText(xs[k..], "\n}\n") == q + ("\n" + "  ]\n}\n");
      assert ExportLine(xs, k) == "    " + q;
      assert ("    " + q) + ("\n" + "  ]\n}\n") == "    " + (q + ("\n" + "  ]\n}\n"));
    } else {
      var next := ItemsText(xs[k + 1..], "\n}\n");
      assert ",\n    " + next == "," + ("\n" + ("    " + next));
      Regroup("    ", q, ",", "\n" + ("    " + next));
    }
  }

  lemma ExportLineThen(lines: seq<string>, xs: seq<PyStr>, k: nat)
    requires k < |xs|
    ensures Unlines(lines) + ExportsLeft(xs, k) == Unlines(lines + [ExportLine(xs, k)]) + ExportsLeft(xs, k + 1)
  {
    UnlinesSnoc(lines, ExportLine(xs, k));
    ExportLineLeft(xs, k);
    Regroup(Unlines(lines), ExportLine(xs, k), "\n", ExportsLeft(xs, k + 1));
  }

  /** Adds the lines of the first n fields. */
  function AddFieldLines(lines: seq<string>, fields: seq<Field>, n: nat): seq<string>
    requires n <= |fields|
    decreases n
  {
    if n == 0 then lines else AddFieldLines(lines + [FieldLine(fields[0])], fields[1..], n - 1)
  }

  lemma {:induction false} HeaderLines(lines: seq<string>, fields: seq<Field>, n: nat)
    requires n < |fields| && forall k :: 0 <= k < n ==> !fields[k].value.Names?
    ensures Unlines(lines) + ("  " + FieldsText(fields)) == Unlines(AddFieldLines(lines, fields, n)) + ("  " + FieldsText(fields[n..]))
    decreases n
  {
    if n == 0 {
      assert fields[0..] == fields;
    } else {
      var lines', fields' := lines + [FieldLine(fields[0])], fields[1..];
      FieldLines(lines, fields);
      HeaderLines(lines', fields', n - 1);
      assert fields'[n - 1..] == fields[n..] && AddFieldLines(lines, fields, n) == AddFieldLines(lines', fields', n - 1);
    }
  }

  /** How the exports array opens, and what it leaves to be written. */
  lemma ExportsOpen(exports: seq<PyStr>)
    ensures "  " + Member("exports", ExportsText(exports, "\n}\n"))
         == if exports == [] then ("  " + (Key("exports") + ": []")) + ("\n" + ("}" + "\n"))
            else ("  " + (Key("exports") + ": [")) + ("\n" + ExportsLeft(exports, 0))
  {
    if exports == [] {
      assert ": " + ("[]" + "\n}\n") == ": []" + ("\n" + ("}" + "\n"));
    } else {
      assert exports[0..] == exports;
      assert ": " + ("[\n    " + ItemsText(exports, "\n}\n")) == ": [" + ("\n" + ("    " + ItemsText(exports, "\n}\n")));
    }
  }

  lemma LineThen(lines: seq<string>, line: string, rest: string)
    ensures Unlines(lines) + (line + ("\n" + rest)) == Unlines(lines + [line]) + rest
  {
    UnlinesSnoc(lines, line);
    Regroup(Unlines(lines), line, "\n", rest);
  }

  lemma DocumentHeader(fields: seq<Field>, n: nat)
    requires n < |fields| && forall k :: 0 <= k < n ==> !fields[k].value.Names?
    ensures "{\n  " + FieldsText(fields) == Unlines(AddFieldLines(["{"], fields, n)) + ("  " + FieldsText(fields[n..]))
  {
    assert Unlines(["{"]) == "{\n" by { assert ["{"][1..] == [] && Unlines([]) == []; }
    assert "{\n  " + FieldsText(fields) == "{\n" + ("  " + FieldsText(fields)) by { assert "{\n  " == "{\n" + "  "; }
    HeaderLines(["{"], fields, n);
  }

  lemma RenderedHeader(c: Contract)
    ensures Rendered(c) == Unlines(AddFieldLines(["{"], Fields(c), 4))
                           + ("  " + Member("exports", ExportsText(c.data.exports, "\n}\n")))
  {
    DocumentHeader(Fields(c), 4);
    assert Fields(c)[4..] == [Field("exports", Names(c.data.exports))];
    assert FieldsText([Field("exports", Names(c.data.exports))]) == Member("exports", ExportsText(c.data.exports, "\n}\n"));
  }

  /** The writer: one line per field, one line per export, joined by line feeds. */
  method Render(c: Contract) returns (text: string)
    ensures text == Rendered(c)
  {
    var exports := c.data.exports;
    var lines := AddFieldLines(["{"], Fields(c), 4);
    RenderedHeader(c);
    ExportsOpen(exports);
    if exports == [] {
      LineThen(lines, "  " + (Key("exports") + ": []"), "}" + "\n");
      lines := lines + ["  " + (Key("exports") + ": []")];
    } else {
      LineThen(lines, "  " + (Key("exports") + ": ["), ExportsLeft(exports, 0));
      lines := lines + ["  " + (Key("exports") + ": [")];
      for k := 0 to |exports|
        invariant Rendered(c) == Unlines(lines) + ExportsLeft(exports, k)
      {
        ExportLineThen(lines, exports, k);
        lines := lines + ["    " + (Quote(exports[k]) + if k < |exports| - 1 then "," else "")];
      }
      assert "  ]\n}\n" == "  ]" + ("\n" + ("}" + "\n"));
      LineThen(lines, "  ]", "}" + "\n");
      lines := lines + ["  ]"];
    }
    UnlinesSnoc(lines, "}");
    lines := lines + ["}"];
    JoinedLines(lines);
    text := JoinLines(lines) + "\n";
  }

  // ---------- what the parser accepts is written back unchanged ----------

  ghost predicate JsonUnpaired(j: Json)
  {
    match j
    case String(s) => Unpaired(s)
    case Array(items) => forall x :: x in items ==> JsonUnpaired(x)
    case Object(members) => forall m :: m in members ==> JsonUnpaired(m.1)
    case _ => true
  }

  lemma {:induction false} ValueIsUnpaired(s: string)
    ensures ParseValue(s).Parsed? ==> JsonUnpaired(ParseValue(s).value)
    decreases |s|, 0
  {
    if s != [] {
      match s[0]
      case '\"' => ReadStringsAreUnpaired(s[1..]);
      case '{' => MembersAreUnpaired(Skip(s[1..]), []);
      case '[' => ItemsAreUnpaired(Skip(s[1..]), []);
      case _ =>
    }
  }

  lemma {:induction false} InsertKeepsUnpaired(members: seq<(PyStr, Json)>, key: PyStr, value: Json)
    requires JsonUnpaired(value) && forall m :: m in members ==> JsonUnpaired(m.1)
    ensures forall m :: m in Insert(members, key, value) ==> JsonUnpaired(m.1)
  {
    if members != [] && members[0].0 != key {
      InsertKeepsUnpaired(members[1..], key, value);
    }
  }

  lemma {:induction false} MembersAreUnpaired(s: string, before: seq<(PyStr, Json)>)
    requires forall m :: m in before ==> JsonUnpaired(m.1)
    ensures ParseMembers(s, before).Parsed? ==> JsonUnpaired(ParseMembers(s, before).value)
    decreases |s|, 1
  {
    if ParseMembers(s, before).Parsed? {
      var key, afterKey := ParseChars(s[1..]).value, ParseChars(s[1..]).rest;
      var text := Skip(Skip(afterKey)[1..]);
      ValueIsUnpaired(text);
      InsertKeepsUnpaired(before, key, ParseValue(text).value);
      var next := Skip(ParseValue(text).rest);
      if next[0] == ',' {
        MembersAreUnpaired(Skip(next[1..]), Insert(before, key, ParseValue(text).value));
      }
    }
  }

  lemma {:induction false} ItemsAreUnpaired(s: string, before: seq<Json>)
    requires forall x :: x in before ==> JsonUnpaired(x)
    ensures ParseItems(s, before).Parsed? ==> JsonUnpaired(ParseItems(s, before).value)
    decreases |s|, 1
  {
    if ParseItems(s, before).Parsed? {
      ValueIsUnpaired(s);
      var next := Skip(ParseValue(s).rest);
      if next[0] == ',' {
        ItemsAreUnpaired(Skip(next[1..]), before + [ParseValue(s).value]);
      }
    }
  }

  lemma {:induction false} StringsAreUnpaired(items: seq<Json>)
    requires Strings(items).Some? && forall x :: x in items ==> JsonUnpaired(x)
    ensures forall k :: 0 <= k < |Strings(items).value| ==> Unpaired(Strings(items).value[k])
  {
    if items != [] {
      StringsAreUnpaired(items[1..]);
      var s, rest := items[0].s, Strings(items[1..]).value;
      assert items[0] in items && JsonUnpaired(items[0]);
      assert Strings(items).value == [s] + rest;
    }
  }

  /** Rewriting any accepted text canonically keeps the contract it spells. */
  lemma CanonicalFormKeepsContract(isIdentifier: PyStr -> bool, text: string)
    requires Parse(isIdentifier, text).Some?
    ensures Parse(isIdentifier, Rendered(Parse(isIdentifier, text).value)) == Parse(isIdentifier, text)
  {
    var c, j := Parse(isIdentifier, text).value, Loads(text).value;
    ValueIsUnpaired(Skip(text));
    assert |j.members| == |Keys(j.members)|;
    assert j.members[2] in j.members && j.members[3] in j.members && j.members[4] in j.members;
    StringsAreUnpaired(j.members[4].1.items);
    RenderedParses(isIdentifier, c);
  }
}
