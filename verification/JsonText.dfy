/**
  JSON text as Python's `json` module reads and writes it (RFC 8259, section 7 for strings).
  Python strings are sequences of code points and may hold lone surrogates; file text may not.
 */
module JsonText {
  import opened Prelude

  type CodePoint = n: int | 0 <= n < 0x110000
  type PyStr = seq<CodePoint>

  /** The Python string of a text without surrogates. */
  function Points(s: string): (p: PyStr)
    ensures |p| == |s| && forall k :: 0 <= k < |s| ==> p[k] == s[k] as int
  {
    seq(|s|, k requires 0 <= k < |s| => s[k] as int)
  }

  predicate High(n: int) { 0xD800 <= n < 0xDC00 }
  predicate Low(n: int) { 0xDC00 <= n < 0xE000 }

  function Pair(high: int, low: int): CodePoint
    requires High(high) && Low(low)
  {
    0x10000 + (high - 0xD800) * 0x400 + (low - 0xDC00)
  }

  // ---------- writing strings ----------

  function HexDigit(n: int): char
    requires 0 <= n < 16
  {
    if n < 10 then '0' + n as char else 'a' + (n - 10) as char
  }

  function Unit(n: int): string
    requires 0 <= n < 0x10000
  {
    [HexDigit(n / 0x1000), HexDigit(n / 0x100 % 16), HexDigit(n / 16 % 16), HexDigit(n % 16)]
  }

  /** How one code point is written between quotes, in ASCII. */
  function Escape(c: CodePoint): (s: string)
    ensures s != []
  {
    if c == 34 then "\\\""
    else if c == 92 then "\\\\"
    else if c == 10 then "\\n"
    else if c == 13 then "\\r"
    else if c == 9 then "\\t"
    else if c == 12 then "\\f"
    else if c == 8 then "\\b"
    else if 32 <= c < 127 then [c as char]
    else if c < 0x10000 then "\\u" + Unit(c)
    else "\\u" + Unit(0xD800 + (c - 0x10000) / 0x400) + ("\\u" + Unit(0xDC00 + (c - 0x10000) % 0x400))
  }

  function EscapeAll(s: PyStr): string
  {
    if s == [] then [] else Escape(s[0]) + EscapeAll(s[1..])
  }

  function Quote(s: PyStr): string
  {
    "\"" + (EscapeAll(s) + "\"")
  }

  // ---------- reading strings ----------

  datatype Parsed<+T> = Rejected | Parsed(value: T, rest: string)

  function HexValue(c: char): (v: Option<int>)
    ensures v.Some? ==> 0 <= v.value < 16
  {
    if '0' <= c <= '9' then Some((c - '0') as int)
    else if 'a' <= c <= 'f' then Some((c - 'a') as int + 10)
    else if 'A' <= c <= 'F' then Some((c - 'A') as int + 10)
    else None
  }

  function ParseUnit(s: string): (r: Parsed<int>)
    ensures r.Parsed? ==> 0 <= r.value < 0x10000 && |s| >= 4 && r.rest == s[4..]
  {
    if |s| < 4 then Rejected
    else
      var (a, b, c, d) := (HexValue(s[0]), HexValue(s[1]), HexValue(s[2]), HexValue(s[3]));
      if a.None? || b.None? || c.None? || d.None? then Rejected
      else Parsed(a.value * 0x1000 + b.value * 0x100 + c.value * 16 + d.value, s[4..])
  }

  /** A `\uXXXX` escape at the start of s. */
  function ParseEscapedUnit(s: string): (r: Parsed<int>)
    ensures r.Parsed? ==> 0 <= r.value < 0x10000 && |r.rest| + 6 == |s|
  {
    if "\\u" <= s then ParseUnit(s[2..]) else Rejected
  }

  function SimpleEscape(c: char): Option<CodePoint>
  {
    match c
    case '\"' => Some(34)
    case '\\' => Some(92)
    case '/' => Some(47)
    case 'b' => Some(8)
    case 'f' => Some(12)
    case 'n' => Some(10)
    case 'r' => Some(13)
    case 't' => Some(9)
    case _ => None
  }

  /** One character or escape; an escaped surrogate pair is one code point. */
  function ParseChar(s: string): (r: Parsed<CodePoint>)
    requires s != []
    ensures r.Parsed? ==> |r.rest| < |s|
  {
    if s[0] != '\\' then if s[0] as int < 32 then Rejected else Parsed(s[0] as int, s[1..])
    else if |s| < 2 then Rejected
    else if s[1] != 'u' then
      if SimpleEscape(s[1]).None? then Rejected else Parsed(SimpleEscape(s[1]).value, s[2..])
    else match ParseEscapedUnit(s)
      case Rejected => Rejected
      case Parsed(n, rest) =>
        var second := ParseEscapedUnit(rest);
        if High(n) && second.Parsed? && Low(second.value) then Parsed(Pair(n, second.value), second.rest)
        else Parsed(n, rest)
  }

  /** The characters up to the closing quote. */
  function ParseChars(s: string): (r: Parsed<PyStr>)
    ensures r.Parsed? ==> |r.rest| < |s|
    decreases |s|
  {
    if s == [] then Rejected
    else if s[0] == '\"' then Parsed([], s[1..])
    else match ParseChar(s)
      case Rejected => Rejected
      case Parsed(c, rest) =>
        match ParseChars(rest)
        case Rejected => Rejected
        case Parsed(cs, rest') => Parsed([c] + cs, rest')
  }

  // ---------- values ----------

  datatype Json =
    | Null
    | Bool(b: bool)
    | Number(text: string, isInt: bool)
    | String(s: PyStr)
    | Array(items: seq<Json>)
    | Object(members: seq<(PyStr, Json)>)

  predicate Blank(c: char) { c == ' ' || c == '\t' || c == '\n' || c == '\r' }

  function Skip(s: string): (t: string)
    ensures |t| <= |s| && (t == [] || !Blank(t[0]))
  {
    if s != [] && Blank(s[0]) then Skip(s[1..]) else s
  }

  /** A dictionary keeps the place of a key's first occurrence and the value of its last. */
  function Insert(members: seq<(PyStr, Json)>, key: PyStr, value: Json): seq<(PyStr, Json)>
  {
    if members == [] then [(key, value)]
    else if members[0].0 == key then [(key, value)] + members[1..]
    else [members[0]] + Insert(members[1..], key, value)
  }

  function Digits(s: string): (n: nat)
    ensures n <= |s|
  {
    if s != [] && '0' <= s[0] <= '9' then 1 + Digits(s[1..]) else 0
  }

  function FractionLen(s: string): (n: nat)
    ensures n <= |s|
  {
    if s != [] && s[0] == '.' && Digits(s[1..]) > 0 then 1 + Digits(s[1..]) else 0
  }

  function ExponentLen(s: string): (n: nat)
    ensures n <= |s|
  {
    if s == [] || (s[0] != 'e' && s[0] != 'E') then 0
    else
      var sign := if |s| > 1 && (s[1] == '+' || s[1] == '-') then 1 else 0;
      var d := Digits(s[1 + sign..]);
      if d == 0 then 0 else 1 + sign + d
  }

  function SignLen(s: string): (n: nat)
    ensures n <= |s|
  {
    if s != [] && s[0] == '-' then 1 else 0
  }

  /** Length of a sign and the digits after it, a leading zero standing alone; 0 when no digit follows. */
  function WholeLen(s: string): (n: nat)
    ensures n <= |s|
  {
    var d := Digits(s[SignLen(s)..]);
    if d == 0 then 0 else SignLen(s) + if s[SignLen(s)] == '0' then 1 else d
  }

  /** Length of a fraction and an exponent. */
  function TailLen(s: string): (n: nat)
    ensures n <= |s|
  {
    FractionLen(s) + ExponentLen(s[FractionLen(s)..])
  }

  function ParseNumber(s: string): (r: Parsed<Json>)
    ensures r.Parsed? ==> |r.rest| < |s|
  {
    var whole := WholeLen(s);
    if whole == 0 then Rejected
    else
      var tail := TailLen(s[whole..]);
      Parsed(Number(s[..whole + tail], tail == 0), s[whole + tail..])
  }

  /** A number, or the word that starts like one. */
  function ParseNumeral(s: string): (r: Parsed<Json>)
    ensures r.Parsed? ==> |r.rest| < |s|
  {
    if "-Infinity" <= s then Parsed(Number("-Infinity", false), s[9..]) else ParseNumber(s)
  }

  function ParseWord(s: string, word: string, value: Json): (r: Parsed<Json>)
    requires word != []
    ensures r.Parsed? ==> |r.rest| < |s|
  {
    if word <= s then Parsed(value, s[|word|..]) else Rejected
  }

  function ParseValue(s: string): (r: Parsed<Json>)
    ensures r.Parsed? ==> |r.rest| < |s|
    decreases |s|, 0
  {
    if s == [] then Rejected
    else match s[0]
      case '\"' =>
        (match ParseChars(s[1..])
         case Rejected => Rejected
         case Parsed(text, rest) => Parsed(String(text), rest))
      case '{' =>
        var inside := Skip(s[1..]);
        if inside != [] && inside[0] == '}' then Parsed(Object([]), inside[1..]) else ParseMembers(inside, [])
      case '[' =>
        var inside := Skip(s[1..]);
        if inside != [] && inside[0] == ']' then Parsed(Array([]), inside[1..]) else ParseItems(inside, [])
      case 'n' => ParseWord(s, "null", Null)
      case 't' => ParseWord(s, "true", Bool(true))
      case 'f' => ParseWord(s, "false", Bool(false))
      case 'N' => ParseWord(s, "NaN", Number("NaN", false))
      case 'I' => ParseWord(s, "Infinity", Number("Infinity", false))
      case _ => ParseNumeral(s)
  }

  /** The members from one key on; `before` holds the earlier ones. */
  function ParseMembers(s: string, before: seq<(PyStr, Json)>): (r: Parsed<Json>)
    ensures r.Parsed? ==> |r.rest| < |s|
    decreases |s|, 1
  {
    if s == [] || s[0] != '\"' then Rejected
    else match ParseChars(s[1..])
      case Rejected => Rejected
      case Parsed(key, afterKey) =>
        var colon := Skip(afterKey);
        if colon == [] || colon[0] != ':' then Rejected
        else match ParseValue(Skip(colon[1..]))
          case Rejected => Rejected
          case Parsed(value, afterValue) =>
            var next, members := Skip(afterValue), Insert(before, key, value);
            if next == [] then Rejected
            else if next[0] == '}' then Parsed(Object(members), next[1..])
            else if next[0] == ',' then ParseMembers(Skip(next[1..]), members)
            else Rejected
  }

  function ParseItems(s: string, before: seq<Json>): (r: Parsed<Json>)
    ensures r.Parsed? ==> |r.rest| < |s|
    decreases |s|, 1
  {
    match ParseValue(s)
    case Rejected => Rejected
    case Parsed(value, afterValue) =>
      var next, items := Skip(afterValue), before + [value];
      if next == [] then Rejected
      else if next[0] == ']' then Parsed(Array(items), next[1..])
      else if next[0] == ',' then ParseItems(Skip(next[1..]), items)
      else Rejected
  }

  /** The document a text spells, or None when it is not JSON. */
  function Loads(text: string): Option<Json>
  {
    match ParseValue(Skip(text))
    case Rejected => None
    case Parsed(value, rest) => if Skip(rest) == [] then Some(value) else None
  }

  predicate StartsNumber(c: char)
  {
    c != '\"' && c != '{' && c != '[' && c != 'n' && c != 't' && c != 'f' && c != 'N' && c != 'I'
  }

  /** A value that is no string, object, array or other word is a number. */
  lemma ReadsNumber(s: string)
    requires s != [] && StartsNumber(s[0])
    ensures ParseValue(s) == ParseNumeral(s)
  {}

  // ---------- strings read back ----------

  /** The string with each high surrogate directly followed by a low one merged into one code point. */
  function Merged(s: PyStr): (t: PyStr)
    ensures |t| <= |s|
  {
    if |s| >= 2 && High(s[0]) && Low(s[1]) then [Pair(s[0], s[1])] + Merged(s[2..])
    else if s == [] then []
    else [s[0]] + Merged(s[1..])
  }

  /** No high surrogate is directly followed by a low one; text without surrogates is such a string. */
  predicate Unpaired(s: PyStr)
  {
    forall k :: 0 < k < |s| ==> !(High(s[k - 1]) && Low(s[k]))
  }

  lemma {:induction false} MergedKeepsExactlyUnpaired(s: PyStr)
    ensures Merged(s) == s <==> Unpaired(s)
    ensures Unpaired(s) || |Merged(s)| < |s|
  {
    if |s| >= 2 && High(s[0]) && Low(s[1]) {
      assert !Unpaired(s);
    } else if s != [] {
      MergedKeepsExactlyUnpaired(s[1..]);
      if Unpaired(s[1..]) {
        assert Unpaired(s);
      } else {
        var k :| 0 < k < |s[1..]| && High(s[1..][k - 1]) && Low(s[1..][k]);
        assert High(s[k + 1 - 1]) && Low(s[k + 1]);
      }
    }
  }

  lemma HexReads(n: int)
    requires 0 <= n < 16
    ensures HexValue(HexDigit(n)) == Some(n)
  {}

  lemma HexDigitsOf(n: int)
    requires 0 <= n < 0x10000
    ensures n == n / 0x1000 * 0x1000 + n / 0x100 % 16 * 0x100 + n / 16 % 16 * 16 + n % 16
    ensures 0 <= n / 0x1000 < 16
  {}

  lemma UnitReads(n: int, rest: string)
    requires 0 <= n < 0x10000
    ensures ParseEscapedUnit(("\\u" + Unit(n)) + rest) == Parsed(n, rest)
  {
    HexReads(n / 0x1000);
    HexReads(n / 0x100 % 16);
    HexReads(n / 16 % 16);
    HexReads(n % 16);
    HexDigitsOf(n);
    var s, digits := ("\\u" + Unit(n)) + rest, Unit(n) + rest;
    assert s[2..] == digits;
    assert digits[4..] == rest;
    assert digits[0] == HexDigit(n / 0x1000) && digits[1] == HexDigit(n / 0x100 % 16);
    assert digits[2] == HexDigit(n / 16 % 16) && digits[3] == HexDigit(n % 16);
    assert ParseUnit(digits) == Parsed(n, rest);
  }

  /** What stands after a code point is not the escape of a low surrogate. */
  predicate NoLowNext(s: string)
  {
    var r := ParseEscapedUnit(s);
    r.Parsed? ==> !Low(r.value)
  }

  /** A written code point starts with an escaped low surrogate only if it is one. */
  lemma EscapeShowsLow(c: CodePoint, rest: string)
    ensures NoLowNext(Escape(c) + rest) <==> !Low(c)
  {
    var s := Escape(c) + rest;
    if c >= 0x10000 {
      var n := 0xD800 + (c - 0x10000) / 0x400;
      var tail := "\\u" + Unit(0xDC00 + (c - 0x10000) % 0x400);
      assert s == ("\\u" + Unit(n)) + (tail + rest);
      UnitReads(n, tail + rest);
    } else if Escape(c) == "\\u" + Unit(c) {
      UnitReads(c, rest);
    } else {
      assert s[0] == Escape(c)[0] && (|Escape(c)| == 2 ==> s[1] == Escape(c)[1]);
    }
  }

  /** The two surrogates of a code point beyond the basic plane. */
  lemma SurrogatesOf(c: CodePoint)
    requires c >= 0x10000
    ensures var n, m := 0xD800 + (c - 0x10000) / 0x400, 0xDC00 + (c - 0x10000) % 0x400;
      High(n) && Low(m) && Pair(n, m) == c && Escape(c) == ("\\u" + Unit(n)) + ("\\u" + Unit(m))
  {}

  lemma UnitsReadAsPair(n: int, m: int, rest: string)
    requires High(n) && Low(m)
    ensures ParseChar(("\\u" + Unit(n)) + (("\\u" + Unit(m)) + rest)) == Parsed(Pair(n, m), rest)
  {
    UnitReads(n, ("\\u" + Unit(m)) + rest);
    UnitReads(m, rest);
  }

  lemma LongEscapeReads(c: CodePoint, rest: string)
    requires c >= 0x10000
    ensures ParseChar(Escape(c) + rest) == Parsed(c, rest)
  {
    var n, m := 0xD800 + (c - 0x10000) / 0x400, 0xDC00 + (c - 0x10000) % 0x400;
    SurrogatesOf(c);
    UnitsReadAsPair(n, m, rest);
    Regroup("\\u" + Unit(n), "\\u" + Unit(m), rest, []);
  }

  lemma UnitEscapeReads(c: CodePoint, rest: string)
    requires c < 0x10000 && Escape(c) == "\\u" + Unit(c)
    requires High(c) ==> NoLowNext(rest)
    ensures ParseChar(Escape(c) + rest) == Parsed(c, rest)
  {
    UnitReads(c, rest);
  }

  lemma EscapeReads(c: CodePoint, rest: string)
    requires High(c) ==> NoLowNext(rest)
    ensures ParseChar(Escape(c) + rest) == Parsed(c, rest)
    ensures (Escape(c) + rest)[0] != '\"'
  {
    if c >= 0x10000 {
      LongEscapeReads(c, rest);
    } else if Escape(c) == "\\u" + Unit(c) {
      UnitEscapeReads(c, rest);
    } else {
      var s := Escape(c) + rest;
      assert s[|Escape(c)|..] == rest && (|Escape(c)| == 2 ==> s[1] == Escape(c)[1]);
    }
  }

  lemma PairReads(high: CodePoint, low: CodePoint, rest: string)
    requires High(high) && Low(low)
    ensures ParseChar(Escape(high) + (Escape(low) + rest)) == Parsed(Pair(high, low), rest)
    ensures (Escape(high) + (Escape(low) + rest))[0] != '\"'
  {
    UnitReads(high, Escape(low) + rest);
    UnitReads(low, rest);
  }

  lemma EscapeAllStep(s: PyStr, tail: string)
    requires s != []
    ensures EscapeAll(s) + tail == Escape(s[0]) + (EscapeAll(s[1..]) + tail)
  {}

  /** A written string reads back as itself with its surrogate pairs merged. */
  lemma {:induction false} EscapedReads(s: PyStr, rest: string)
    ensures ParseChars(EscapeAll(s) + ("\"" + rest)) == Parsed(Merged(s), rest)
    decreases |s|
  {
    var tail := "\"" + rest;
    if s == [] {
      assert EscapeAll(s) + tail == tail;
    } else {
      EscapeAllStep(s, tail);
      var next := EscapeAll(s[1..]) + tail;
      if |s| >= 2 {
        EscapeAllStep(s[1..], tail);
        assert s[1..][0] == s[1] && s[1..][1..] == s[2..];
        EscapeShowsLow(s[1], EscapeAll(s[2..]) + tail);
      } else {
        assert next == tail;
      }
      if |s| >= 2 && High(s[0]) && Low(s[1]) {
        PairReads(s[0], s[1], EscapeAll(s[2..]) + tail);
        EscapedReads(s[2..], rest);
      } else {
        EscapeReads(s[0], next);
        EscapedReads(s[1..], rest);
      }
    }
  }

  /** Section 7 of RFC 8259: a quoted string is one JSON value. */
  lemma QuotedReads(s: PyStr, rest: string)
    ensures ParseValue(Quote(s) + rest) == Parsed(String(Merged(s)), rest)
    ensures Quote(s) + rest == "\"" + (EscapeAll(s) + ("\"" + rest))
  {
    assert Quote(s) + rest == "\"" + (EscapeAll(s) + ("\"" + rest));
    assert (Quote(s) + rest)[1..] == EscapeAll(s) + ("\"" + rest);
    EscapedReads(s, rest);
  }

  /** A high surrogate is read alone only where no escaped low surrogate follows. */
  lemma HighIsReadAlone(s: string)
    requires s != [] && ParseChar(s).Parsed? && High(ParseChar(s).value)
    ensures NoLowNext(ParseChar(s).rest)
  {}

  /** A low surrogate is read only from its own escape. */
  lemma LowIsEscaped(s: string)
    requires s != [] && ParseChar(s).Parsed? && Low(ParseChar(s).value)
    ensures !NoLowNext(s)
  {}

  /** Whatever the parser reads between quotes is Unpaired, so it is written back as itself. */
  lemma {:induction false} ReadStringsAreUnpaired(s: string)
    ensures ParseChars(s).Parsed? ==> Unpaired(ParseChars(s).value)
    decreases |s|
  {
    if ParseChars(s).Parsed? && s[0] != '\"' {
      var c, rest := ParseChar(s).value, ParseChar(s).rest;
      ReadStringsAreUnpaired(rest);
      if High(c) { HighIsReadAlone(s); }
      if rest[0] != '\"' && Low(ParseChar(rest).value) { LowIsEscaped(rest); }
      UnpairedStep(c, ParseChars(rest).value);
    }
  }

  lemma UnpairedStep(c: CodePoint, cs: PyStr)
    requires Unpaired(cs) && !(High(c) && cs != [] && Low(cs[0]))
    ensures Unpaired([c] + cs)
  {}

  // ---------- the spellings one by one ----------

  const HEX := "0123456789abcdef"

  /** Four hexadecimal digits in lower case. */
  function Hex4(n: int): string
    requires 0 <= n < 0x10000
  {
    [HEX[n / 4096], HEX[n / 256 % 16], HEX[n / 16 % 16], HEX[n % 16]]
  }

  lemma HexDigitIsSpelled(n: int)
    requires 0 <= n < 16
    ensures HexDigit(n) == HEX[n]
  {}

  lemma UnitIsSpelled(n: int)
    requires 0 <= n < 0x10000
    ensures Unit(n) == Hex4(n)
  {
    HexDigitsOf(n);
    HexDigitIsSpelled(n / 0x1000);
    HexDigitIsSpelled(n / 0x100 % 16);
    HexDigitIsSpelled(n / 16 % 16);
    HexDigitIsSpelled(n % 16);
  }

  /** The seven characters with short escapes. */
  lemma ShortEscapesAreSpelled()
    ensures Escape('\"' as int) == "\\\"" && Escape('\\' as int) == "\\\\" && Escape('\n' as int) == "\\n"
    ensures Escape('\r' as int) == "\\r" && Escape('\t' as int) == "\\t" && Escape(12) == "\\f" && Escape(8) == "\\b"
  {}

  /** Other printable ASCII stands for itself, and all other characters are written as UTF-16 units. */
  lemma EscapeIsSpelled(c: CodePoint)
    requires c != 34 && c != 92 && c != 10 && c != 13 && c != 9 && c != 12 && c != 8
    ensures ' ' as int <= c <= '~' as int ==> Escape(c) == [c as char]
    ensures c < ' ' as int || '~' as int < c < 0x10000 ==> Escape(c) == "\\u" + Hex4(c)
  {
    if c < 0x10000 {
      UnitIsSpelled(c);
    }
  }

  /** A character beyond the basic plane is written as its two surrogates, section 7 of RFC 8259. */
  lemma LongEscapeIsSpelled(c: CodePoint)
    requires c >= 0x10000
    ensures Escape(c) == "\\u" + Hex4(0xD7C0 + c / 0x400) + ("\\u" + Hex4(0xDC00 + c % 0x400))
  {
    assert (c - 0x10000) / 0x400 == c / 0x400 - 0x40 && (c - 0x10000) % 0x400 == c % 0x400;
    UnitIsSpelled(0xD7C0 + c / 0x400);
    UnitIsSpelled(0xDC00 + c % 0x400);
  }

  /** Besides what is written, the reader takes an escaped slash and capital hexadecimal digits. */
  lemma OtherSpellingsAreRead(n: int, rest: string)
    requires 0 <= n < 6
    ensures ParseChar("\\/" + rest) == Parsed('/' as int, rest)
    ensures HexValue("ABCDEF"[n]) == HexValue("abcdef"[n]) == Some(10 + n)
  {
    assert ("\\/" + rest)[2..] == rest;
  }

  /** A repeated key keeps its place and takes the last value. */
  lemma {:induction false} RepeatedKeyIsReplaced(members: seq<(PyStr, Json)>, key: PyStr, value: Json, k: nat)
    requires k < |members| && members[k].0 == key && forall j :: 0 <= j < k ==> members[j].0 != key
    ensures Insert(members, key, value) == members[k := (key, value)]
  {
    if k > 0 {
      RepeatedKeyIsReplaced(members[1..], key, value, k - 1);
    }
  }
}
