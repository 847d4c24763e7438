/**
  The grammar that the reader decides: JSON as in RFC 8259, with the three further words that Python
  takes for numbers. A text loads as a value exactly when it spells that value.
 */
module JsonGrammar {
  import opened Prelude
  import opened JsonText

  // ---------- the grammar ----------

  predicate White(s: string) { forall k :: 0 <= k < |s| ==> s[k] in [' ', '\t', '\n', '\r'] }

  predicate Decimal(s: string) { s != [] && forall k :: 0 <= k < |s| ==> '0' <= s[k] <= '9' }

  predicate Whole(s: string) { s == "0" || (Decimal(s) && s[0] != '0') }

  predicate Fraction(s: string) { s == [] || (s[0] == '.' && Decimal(s[1..])) }

  predicate Exponent(s: string)
  {
    || s == []
    || ((s[0] == 'e' || s[0] == 'E') && (Decimal(s[1..]) || (|s| > 1 && (s[1] == '+' || s[1] == '-') && Decimal(s[2..]))))
  }

  /** A number; one without fraction and exponent is an integer. */
  ghost predicate Numeral(t: string, isInt: bool)
  {
    exists sign, whole, fraction, exponent ::
      && t == sign + whole + (fraction + exponent) && (sign == "" || sign == "-")
      && Whole(whole) && Fraction(fraction) && Exponent(exponent) && (isInt <==> fraction + exponent == "")
  }

  /** A UTF-16 unit as an escape. */
  predicate SpellsUnit(t: string, n: int)
  {
    && |t| == 6 && t[0] == '\\' && t[1] == 'u' && (forall k :: 2 <= k < 6 ==> HexValue(t[k]).Some?)
    && n == HexValue(t[2]).value * 4096 + HexValue(t[3]).value * 256 + HexValue(t[4]).value * 16 + HexValue(t[5]).value
  }

  /** One character: itself, a short escape, a unit, or two units that are a surrogate pair. */
  ghost predicate SpellsChar(t: string, c: CodePoint)
  {
    || (|t| == 1 && t[0] != '\"' && t[0] != '\\' && t[0] as int >= 32 && t[0] as int == c)
    || (|t| == 2 && t[0] == '\\' && SimpleEscape(t[1]) == Some(c))
    || SpellsUnit(t, c)
    || (|t| == 12 && exists high, low ::
          High(high) && Low(low) && SpellsUnit(t[..6], high) && SpellsUnit(t[6..], low) && c == Pair(high, low))
  }

  ghost predicate SpellsChars(t: string, s: PyStr)
    decreases |t|, 1
  {
    if s == [] then t == [] else exists u, more :: CharsCut(t, s, u, more)
  }

  /** The first character and the others; a high surrogate stands alone only where no escaped low one follows. */
  ghost predicate CharsCut(t: string, s: PyStr, u: string, more: string)
    requires s != []
    decreases |t|, 0
  {
    t == u + more && u != [] && SpellsChar(u, s[0]) && (High(s[0]) ==> NoLowNext(more)) && SpellsChars(more, s[1..])
  }

  ghost predicate SpellsString(t: string, s: PyStr)
  {
    |t| >= 2 && t[0] == '\"' && t[|t| - 1] == '\"' && SpellsChars(t[1..|t| - 1], s)
  }

  /** The members of a dictionary from the pairs of an object, in order. */
  function Folded(before: seq<(PyStr, Json)>, pairs: seq<(PyStr, Json)>): seq<(PyStr, Json)>
    decreases |pairs|
  {
    if pairs == [] then before else Folded(Insert(before, pairs[0].0, pairs[0].1), pairs[1..])
  }

  ghost predicate Spells(t: string, j: Json)
    decreases |t|, 0
  {
    match j
    case Null => t == "null"
    case Bool(b) => t == if b then "true" else "false"
    case Number(text, isInt) => t == text && (Numeral(t, isInt) || (!isInt && t in ["NaN", "Infinity", "-Infinity"]))
    case String(s) => SpellsString(t, s)
    case Array(items) =>
      && |t| >= 2 && t[0] == '[' && t[|t| - 1] == ']'
      && if items == [] then White(t[1..|t| - 1]) else SpellsItems(t[1..|t| - 1], items)
    case Object(members) =>
      && |t| >= 2 && t[0] == '{' && t[|t| - 1] == '}'
      && if members == [] then White(t[1..|t| - 1])
         else exists pairs :: pairs != [] && SpellsPairs(t[1..|t| - 1], pairs) && members == Folded([], pairs)
  }

  /** Values between white space, with commas between them. */
  ghost predicate SpellsItems(t: string, items: seq<Json>)
    requires items != []
    decreases |t|, 2
  {
    exists w, v, w', more :: ItemsCut(t, items, w, v, w', more)
  }

  /** White space, the first value, white space, and a comma with more values or nothing. */
  ghost predicate ItemsCut(t: string, items: seq<Json>, w: string, v: string, w': string, more: string)
    requires items != []
    decreases |t|, 1
  {
    && t == w + (v + (w' + more)) && White(w) && White(w') && Spells(v, items[0])
    && if |items| == 1 then more == [] else more != [] && more[0] == ',' && SpellsItems(more[1..], items[1..])
  }

  ghost predicate SpellsPairs(t: string, pairs: seq<(PyStr, Json)>)
    requires pairs != []
    decreases |t|, 2
  {
    exists w, key, w', colon, v, w'', more :: PairsCut(t, pairs, w, key, w', colon, v, w'', more)
  }

  /** The same with a key and a colon before each value. */
  ghost predicate PairsCut(t: string, pairs: seq<(PyStr, Json)>, w: string, key: string, w': string, colon: string,
      v: string, w'': string, more: string)
    requires pairs != []
    decreases |t|, 1
  {
    && t == w + (key + (w' + (":" + (colon + (v + (w'' + more)))))) && White(w) && White(w') && White(colon) && White(w'')
    && SpellsString(key, pairs[0].0) && Spells(v, pairs[0].1)
    && if |pairs| == 1 then more == [] else more != [] && more[0] == ',' && SpellsPairs(more[1..], pairs[1..])
  }

  // ---------- what is read is spelled ----------

  /** The part of s that was read. */
  function Read<T>(s: string, r: Parsed<T>): (t: string)
    requires r.Parsed? && |r.rest| <= |s|
    ensures |t| == |s| - |r.rest|
  {
    s[..|s| - |r.rest|]
  }

  lemma {:induction false} SkipsWhite(s: string) returns (w: string)
    ensures White(w) && s == w + Skip(s)
  {
    w := [];
    if s != [] && Blank(s[0]) {
      var rest := SkipsWhite(s[1..]);
      w := [s[0]] + rest;
      assert s == [s[0]] + s[1..];
    }
  }

  lemma EscapedUnitIsSpelled(s: string)
    requires ParseEscapedUnit(s).Parsed?
    ensures SpellsUnit(s[..6], ParseEscapedUnit(s).value) && ParseEscapedUnit(s).rest == s[6..]
  {
    assert s[0] == "\\u"[0] && s[1] == "\\u"[1];
    forall k | 0 <= k < 4 ensures s[2..][k] == s[k + 2] == s[..6][k + 2] {}
    assert s[2..][4..] == s[6..];
  }

  lemma CharIsSpelled(s: string)
    requires s != [] && s[0] != '\"' && ParseChar(s).Parsed?
    ensures var r := ParseChar(s);
      SpellsChar(Read(s, r), r.value) && s == Read(s, r) + r.rest && (High(r.value) ==> NoLowNext(r.rest))
  {
    var r := ParseChar(s);
    if s[0] == '\\' && s[1] == 'u' {
      EscapedUnitIsSpelled(s);
      if ParseEscapedUnit(s[6..]).Parsed? {
        EscapedUnitIsSpelled(s[6..]);
        assert s[6..][6..] == s[12..] && s[..12][..6] == s[..6] && s[..12][6..] == s[6..][..6];
      }
    }
  }

  lemma OneMoreChar(u: string, c: CodePoint, t: string, cs: PyStr)
    requires u != [] && SpellsChar(u, c) && SpellsChars(t, cs) && (High(c) ==> NoLowNext(t))
    ensures SpellsChars(u + t, [c] + cs)
  {
    assert ([c] + cs)[1..] == cs && CharsCut(u + t, [c] + cs, u, t);
  }

  lemma CharsStep(s: string)
    requires s != [] && s[0] != '\"' && ParseChars(s).Parsed?
    ensures var c := ParseChar(s);
      && c.Parsed? && ParseChars(c.rest).Parsed?
      && ParseChars(s) == Parsed([c.value] + ParseChars(c.rest).value, ParseChars(c.rest).rest)
  {}

  lemma CharThenMore(s: string, u: string, c: CodePoint, rest: string, more: string, cs: PyStr, after: string)
    requires s == u + rest && rest == more + ("\"" + after)
    requires u != [] && SpellsChar(u, c) && SpellsChars(more, cs) && (High(c) ==> NoLowNext(rest))
    ensures s == (u + more) + ("\"" + after) && SpellsChars(u + more, [c] + cs)
  {
    if High(c) { NoLowStays(rest, more); }
    OneMoreChar(u, c, more, cs);
    Regroup(u, more, "\"" + after, []);
  }

  /** The characters up to the closing quote, which is cut off. */
  lemma {:induction false} CharsAreSpelled(s: string) returns (t: string)
    requires ParseChars(s).Parsed?
    ensures s == t + ("\"" + ParseChars(s).rest) && SpellsChars(t, ParseChars(s).value)
    decreases |s|
  {
    if s[0] == '\"' {
      t := [];
      assert s == "\"" + s[1..];
    } else {
      CharsStep(s);
      CharIsSpelled(s);
      var c := ParseChar(s);
      var more := CharsAreSpelled(c.rest);
      t := Read(s, c) + more;
      CharThenMore(s, Read(s, c), c.value, c.rest, more, ParseChars(c.rest).value, ParseChars(c.rest).rest);
    }
  }

  /** What an escape would need does not appear by cutting at the closing quote. */
  lemma NoLowStays(s: string, t: string)
    requires t <= s && NoLowNext(s)
    ensures NoLowNext(t)
  {
    if ParseEscapedUnit(t).Parsed? {
      EscapedUnitIsSpelled(t);
      assert t[..6] == s[..6];
      UnitIsRead(s[..6], s[6..], ParseEscapedUnit(t).value);
      assert s[..6] + s[6..] == s;
    }
  }

  lemma UnitIsRead(t: string, rest: string, n: int)
    requires SpellsUnit(t, n)
    ensures ParseEscapedUnit(t + rest) == Parsed(n, rest)
  {
    var s := t + rest;
    assert s[0] == t[0] && s[1] == t[1] && "\\u" <= s;
    forall k | 0 <= k < 4 ensures s[2..][k] == t[k + 2] {}
    assert s[2..][4..] == rest;
  }

  // numbers

  lemma {:induction false} DigitsAreDecimal(s: string)
    ensures forall k :: 0 <= k < Digits(s) ==> '0' <= s[k] <= '9'
  {
    if s != [] && '0' <= s[0] <= '9' {
      DigitsAreDecimal(s[1..]);
      forall k | 0 < k < Digits(s) ensures '0' <= s[k] <= '9' { assert s[k] == s[1..][k - 1]; }
    }
  }

  lemma WholeIsSpelled(s: string)
    requires WholeLen(s) > 0
    ensures SignLen(s) <= WholeLen(s) && Whole(s[SignLen(s)..WholeLen(s)]) && (s[..SignLen(s)] == "" || s[..SignLen(s)] == "-")
  {
    var sign, n := SignLen(s), WholeLen(s);
    var digits := s[sign..];
    DigitsAreDecimal(digits);
    assert s[sign..n] == digits[..n - sign];
    if s[sign] == '0' { assert s[sign..n] == "0"; }
  }

  lemma FractionIsSpelled(s: string)
    ensures Fraction(s[..FractionLen(s)])
  {
    if FractionLen(s) > 0 {
      DigitsAreDecimal(s[1..]);
      assert s[..FractionLen(s)][1..] == s[1..][..FractionLen(s) - 1];
    }
  }

  lemma ExponentIsSpelled(s: string)
    ensures Exponent(s[..ExponentLen(s)])
  {
    if ExponentLen(s) > 0 {
      var sign := if |s| > 1 && (s[1] == '+' || s[1] == '-') then 1 else 0;
      var t, digits := s[..ExponentLen(s)], s[1 + sign..];
      DigitsAreDecimal(digits);
      assert t[1 + sign..] == digits[..Digits(digits)];
    }
  }

  lemma NumeralOf(sign: string, whole: string, fraction: string, exponent: string)
    requires (sign == "" || sign == "-") && Whole(whole) && Fraction(fraction) && Exponent(exponent)
    ensures Numeral(sign + whole + (fraction + exponent), fraction + exponent == "")
  {}

  lemma NumberIsRead(s: string, n: nat, tail: nat)
    requires WholeLen(s) == n > 0 && TailLen(s[n..]) == tail
    ensures ParseNumber(s) == Parsed(Number(s[..n + tail], tail == 0), s[n + tail..])
  {}

  lemma TailIsSpelled(s: string) returns (fraction: string, exponent: string)
    ensures Fraction(fraction) && Exponent(exponent) && s[..TailLen(s)] == fraction + exponent
  {
    var rest := s[FractionLen(s)..];
    FractionIsSpelled(s);
    ExponentIsSpelled(rest);
    fraction, exponent := s[..FractionLen(s)], rest[..ExponentLen(rest)];
  }

  lemma NumberIsSpelled(s: string)
    requires ParseNumber(s).Parsed?
    ensures ParseNumber(s).value.Number? && s == ParseNumber(s).value.text + ParseNumber(s).rest
    ensures Numeral(ParseNumber(s).value.text, ParseNumber(s).value.isInt)
  {
    var n := WholeLen(s);
    var rest := s[n..];
    var tail := TailLen(rest);
    NumberIsRead(s, n, tail);
    WholeIsSpelled(s);
    var fraction, exponent := TailIsSpelled(rest);
    NumeralOf(s[..SignLen(s)], s[SignLen(s)..n], fraction, exponent);
    NumberText(s, SignLen(s), n, tail);
    assert |fraction + exponent| == tail;
  }

  lemma NumberText(s: string, m: nat, n: nat, tail: nat)
    requires m <= n && n + tail <= |s|
    ensures s[..n + tail] == s[..m] + s[m..n] + s[n..][..tail] && s == s[..n + tail] + s[n + tail..]
  {}

  // values

  lemma OneItem(v: string, w: string, j: Json)
    requires Spells(v, j) && White(w)
    ensures SpellsItems(v + w, [j])
  {
    assert v + w == [] + (v + (w + []));
    assert ItemsCut(v + w, [j], [], v, w, []);
  }

  lemma MoreItems(v: string, w: string, j: Json, t: string, items: seq<Json>)
    requires Spells(v, j) && White(w) && items != [] && SpellsItems(t, items)
    ensures SpellsItems(v + (w + ("," + t)), [j] + items)
  {
    var all, more := v + (w + ("," + t)), "," + t;
    assert all == [] + all && more[1..] == t && ([j] + items)[1..] == items;
    assert ItemsCut(all, [j] + items, [], v, w, more);
  }

  lemma WhiteThenItems(w: string, t: string, items: seq<Json>)
    requires White(w) && items != [] && SpellsItems(t, items)
    ensures SpellsItems(w + t, items)
  {
    var w0, v, w', more :| ItemsCut(t, items, w0, v, w', more);
    assert w + t == (w + w0) + (v + (w' + more));
    assert ItemsCut(w + t, items, w + w0, v, w', more);
  }

  lemma OnePair(key: string, w: string, colon: string, v: string, w': string, pair: (PyStr, Json))
    requires SpellsString(key, pair.0) && White(w) && White(colon) && Spells(v, pair.1) && White(w')
    ensures SpellsPairs(key + (w + (":" + (colon + (v + w')))), [pair])
  {
    var t := key + (w + (":" + (colon + (v + w'))));
    assert w' == w' + [] && t == [] + t;
    CutSpells(t, [pair], [], key, w, colon, v, w', []);
  }

  lemma MorePairs(key: string, w: string, colon: string, v: string, w': string, pair: (PyStr, Json), t: string,
      pairs: seq<(PyStr, Json)>)
    requires SpellsString(key, pair.0) && White(w) && White(colon) && Spells(v, pair.1) && White(w')
    requires pairs != [] && SpellsPairs(t, pairs)
    ensures SpellsPairs(key + (w + (":" + (colon + (v + (w' + ("," + t)))))), [pair] + pairs)
  {
    var all, more, both := key + (w + (":" + (colon + (v + (w' + ("," + t)))))), "," + t, [pair] + pairs;
    assert all == "" + all;
    assert more[0] == ',' && more[1..] == t && |both| > 1 && both[0] == pair && both[1..] == pairs;
    CutSpells(all, both, "", key, w, colon, v, w', more);
  }

  lemma CutSpells(t: string, pairs: seq<(PyStr, Json)>, w: string, key: string, w': string, colon: string,
      v: string, w'': string, more: string)
    requires pairs != [] && t == w + (key + (w' + (":" + (colon + (v + (w'' + more))))))
    requires White(w) && White(w') && White(colon) && White(w'')
    requires SpellsString(key, pairs[0].0) && Spells(v, pairs[0].1)
    requires if |pairs| == 1 then more == [] else more != [] && more[0] == ',' && SpellsPairs(more[1..], pairs[1..])
    ensures SpellsPairs(t, pairs)
  {
    assert PairsCut(t, pairs, w, key, w', colon, v, w'', more);
  }

  lemma WhiteThenPairs(w: string, t: string, pairs: seq<(PyStr, Json)>)
    requires White(w) && pairs != [] && SpellsPairs(t, pairs)
    ensures SpellsPairs(w + t, pairs)
  {
    var w0, key, w1, colon, v, w2, more :| PairsCut(t, pairs, w0, key, w1, colon, v, w2, more);
    var rest := key + (w1 + (":" + (colon + (v + (w2 + more)))));
    assert w + (w0 + rest) == (w + w0) + rest;
    assert PairsCut(w + t, pairs, w + w0, key, w1, colon, v, w2, more);
  }

  /** The white space that is skipped. */
  function Skipped(s: string): (w: string)
  {
    s[..|s| - |Skip(s)|]
  }

  lemma SkippedIsWhite(s: string)
    ensures White(Skipped(s)) && s == Skipped(s) + Skip(s)
  {
    var w := SkipsWhite(s);
    assert Skipped(s) == w;
  }

  lemma {:induction false} FoldedIsNotEmpty(before: seq<(PyStr, Json)>, pairs: seq<(PyStr, Json)>)
    requires before != [] || pairs != []
    ensures Folded(before, pairs) != []
    decreases |pairs|
  {
    if pairs != [] {
      FoldedIsNotEmpty(Insert(before, pairs[0].0, pairs[0].1), pairs[1..]);
    }
  }

  /** A closing bracket, or a comma with what is spelled after it. */
  lemma AfterItem(s: string, v: string, j: Json, after: string, close: string, rest: string)
    requires s == v + after && Spells(v, j) && Skip(after) == close + rest
    ensures s == (v + Skipped(after)) + (close + rest) && SpellsItems(v + Skipped(after), [j])
  {
    SkippedIsWhite(after);
    OneItem(v, Skipped(after), j);
    Regroup(v, Skipped(after), close + rest, []);
  }

  lemma ItemThenItems(s: string, v: string, j: Json, after: string, more: string, t: string, items: seq<Json>, close: string)
    requires s == v + after && Spells(v, j) && Skip(after) == "," + more
    requires Skip(more) == t + close && items != [] && SpellsItems(t, items)
    ensures var t' := v + (Skipped(after) + ("," + (Skipped(more) + t)));
      s == t' + close && SpellsItems(t', [j] + items)
  {
    SkippedIsWhite(after);
    SkippedIsWhite(more);
    WhiteThenItems(Skipped(more), t, items);
    MoreItems(v, Skipped(after), j, Skipped(more) + t, items);
    Regroup(Skipped(more), t, close, []);
    Regroup(",", Skipped(more) + t, close, []);
    Regroup(Skipped(after), "," + (Skipped(more) + t), close, []);
    Regroup(v, Skipped(after) + ("," + (Skipped(more) + t)), close, []);
  }

  lemma {:induction false} ItemsAreSpelled(s: string, before: seq<Json>) returns (t: string, items: seq<Json>)
    requires ParseItems(s, before).Parsed?
    ensures items != [] && ParseItems(s, before).value == Array(before + items)
    ensures s == t + ("]" + ParseItems(s, before).rest) && SpellsItems(t, items)
    decreases |s|, 2
  {
    var v := ValueIsSpelled(s);
    var j, after := ParseValue(s).value, ParseValue(s).rest;
    var next := Skip(after);
    items := [j];
    if next[0] == ']' {
      assert next == "]" + next[1..];
      t := v + Skipped(after);
      AfterItem(s, v, j, after, "]", next[1..]);
    } else {
      assert next == "," + next[1..];
      var t', items' := ItemsAreSpelled(Skip(next[1..]), before + [j]);
      items := [j] + items';
      t := v + (Skipped(after) + ("," + (Skipped(next[1..]) + t')));
      ItemThenItems(s, v, j, after, next[1..], t', items', "]" + ParseItems(s, before).rest);
      assert before + items == (before + [j]) + items';
    }
  }

  lemma AfterPair(s: string, head: string, v: string, after: string, close: string, rest: string)
    requires s == head + (v + after) && Skip(after) == close + rest
    ensures s == (head + (v + Skipped(after))) + (close + rest)
  {
    SkippedIsWhite(after);
    Regroup(v, Skipped(after), close + rest, []);
    Regroup(head, v + Skipped(after), close + rest, []);
  }

  lemma PairThenPairs(s: string, head: string, v: string, after: string, more: string, t: string, close: string)
    requires s == head + (v + after) && Skip(after) == "," + more && Skip(more) == t + close
    ensures s == (head + (v + (Skipped(after) + ("," + (Skipped(more) + t))))) + close
  {
    SkippedIsWhite(after);
    SkippedIsWhite(more);
    Regroup(Skipped(more), t, close, []);
    Regroup(",", Skipped(more) + t, close, []);
    Regroup(Skipped(after), "," + (Skipped(more) + t), close, []);
    Regroup(v, Skipped(after) + ("," + (Skipped(more) + t)), close, []);
    Regroup(head, v + (Skipped(after) + ("," + (Skipped(more) + t))), close, []);
  }

  lemma KeyText(inner: string, afterKey: string, w: string, after: string, colon: string, rest: string)
    requires afterKey == w + after && after == ":" + (colon + rest)
    ensures "\"" + (inner + ("\"" + afterKey)) == ("\"" + inner + "\"") + (w + (":" + (colon + rest)))
  {
    Regroup("\"", inner, "\"", afterKey);
  }

  /** A key with its quotes, the white space after it, the colon, the white space after that, and what follows. */
  lemma KeyIsSpelled(s: string) returns (key: string, w: string, colon: string)
    requires s != [] && s[0] == '\"' && ParseChars(s[1..]).Parsed?
    requires Skip(ParseChars(s[1..]).rest) != [] && Skip(ParseChars(s[1..]).rest)[0] == ':'
    ensures var after := Skip(ParseChars(s[1..]).rest);
      s == key + (w + (":" + (colon + Skip(after[1..])))) && SpellsString(key, ParseChars(s[1..]).value) && White(w) && White(colon)
  {
    var inner := CharsAreSpelled(s[1..]);
    var afterKey := ParseChars(s[1..]).rest;
    var after := Skip(afterKey);
    w := SkipsWhite(afterKey);
    colon := SkipsWhite(after[1..]);
    key := "\"" + inner + "\"";
    assert key[1..|key| - 1] == inner;
    assert s == "\"" + s[1..] && after == ":" + after[1..];
    KeyText(inner, afterKey, w, after, colon, Skip(after[1..]));
  }

  lemma Headed(key: string, w: string, colon: string, rest: string)
    ensures key + (w + (":" + (colon + rest))) == (key + (w + (":" + colon))) + rest
  {
    Regroup(":", colon, rest, []);
    Regroup(w, ":" + colon, rest, []);
    Regroup(key, w + (":" + colon), rest, []);
  }

  /** The last pair of an object. */
  lemma LastPair(s: string, key: string, w: string, colon: string, v: string, after: string, pair: (PyStr, Json), rest: string)
    requires s == key + (w + (":" + (colon + (v + after)))) && Skip(after) == "}" + rest
    requires SpellsString(key, pair.0) && White(w) && White(colon) && Spells(v, pair.1)
    ensures var t := key + (w + (":" + (colon + (v + Skipped(after)))));
      s == t + ("}" + rest) && SpellsPairs(t, [pair])
  {
    SkippedIsWhite(after);
    Headed(key, w, colon, v + after);
    Headed(key, w, colon, v + Skipped(after));
    AfterPair(s, key + (w + (":" + colon)), v, after, "}", rest);
    OnePair(key, w, colon, v, Skipped(after), pair);
  }

  /** A pair with a comma and more pairs after it. */
  lemma NextPairs(s: string, key: string, w: string, colon: string, v: string, after: string, pair: (PyStr, Json),
      more: string, t: string, pairs: seq<(PyStr, Json)>, close: string)
    requires s == key + (w + (":" + (colon + (v + after)))) && Skip(after) == "," + more && Skip(more) == t + close
    requires SpellsString(key, pair.0) && White(w) && White(colon) && Spells(v, pair.1)
    requires pairs != [] && SpellsPairs(t, pairs)
    ensures var t' := key + (w + (":" + (colon + (v + (Skipped(after) + ("," + (Skipped(more) + t)))))));
      s == t' + close && SpellsPairs(t', [pair] + pairs)
  {
    var tail := v + (Skipped(after) + ("," + (Skipped(more) + t)));
    SkippedIsWhite(after);
    SkippedIsWhite(more);
    Headed(key, w, colon, v + after);
    Headed(key, w, colon, tail);
    PairThenPairs(s, key + (w + (":" + colon)), v, after, more, t, close);
    WhiteThenPairs(Skipped(more), t, pairs);
    MorePairs(key, w, colon, v, Skipped(after), pair, Skipped(more) + t, pairs);
  }

  lemma {:induction false} MembersAreSpelled(s: string, before: seq<(PyStr, Json)>) returns (t: string, pairs: seq<(PyStr, Json)>)
    requires ParseMembers(s, before).Parsed?
    ensures pairs != [] && ParseMembers(s, before).value == Object(Folded(before, pairs))
    ensures s == t + ("}" + ParseMembers(s, before).rest) && SpellsPairs(t, pairs)
    decreases |s|, 2
  {
    var key, w, colon := KeyIsSpelled(s);
    var name, text := ParseChars(s[1..]).value, Skip(Skip(ParseChars(s[1..]).rest)[1..]);
    var v := ValueIsSpelled(text);
    var after := ParseValue(text).rest;
    var pair: (PyStr, Json) := (name, ParseValue(text).value);
    var next := Skip(after);
    if next[0] == '}' {
      assert next == "}" + next[1..];
      pairs := [pair];
      t := key + (w + (":" + (colon + (v + Skipped(after)))));
      LastPair(s, key, w, colon, v, after, pair, next[1..]);
    } else {
      assert next == "," + next[1..];
      var t', pairs' := MembersAreSpelled(Skip(next[1..]), Insert(before, pair.0, pair.1));
      pairs := [pair] + pairs';
      t := key + (w + (":" + (colon + (v + (Skipped(after) + ("," + (Skipped(next[1..]) + t')))))));
      NextPairs(s, key, w, colon, v, after, pair, next[1..], t', pairs', "}" + ParseMembers(s, before).rest);
    }
    FoldedFirst(before, pair, pairs[1..]);
    assert pairs == [pair] + pairs[1..];
  }

  lemma FoldedFirst(before: seq<(PyStr, Json)>, pair: (PyStr, Json), pairs: seq<(PyStr, Json)>)
    ensures Folded(before, [pair] + pairs) == Folded(Insert(before, pair.0, pair.1), pairs)
  {
    assert ([pair] + pairs)[1..] == pairs;
  }

  lemma Bracketed(s: string, open: string, inside: string, t: string, close: string, rest: string)
    requires |open| == 1 && |close| == 1 && s != [] && s[..1] == open && Skip(s[1..]) == inside && inside == t + (close + rest)
    ensures var all := open + (Skipped(s[1..]) + t) + close;
      s == all + rest && all[0] == open[0] && all[|all| - 1] == close[0] && all[1..|all| - 1] == Skipped(s[1..]) + t
  {
    SkippedIsWhite(s[1..]);
    var w := Skipped(s[1..]);
    assert s == open + s[1..];
    Regroup(w, t, close + rest, []);
    Regroup(open, w + t, close, rest);
  }

  lemma ArrayIsSpelled(t: string, items: seq<Json>)
    requires |t| >= 2 && t[0] == '[' && t[|t| - 1] == ']'
    requires if items == [] then White(t[1..|t| - 1]) else SpellsItems(t[1..|t| - 1], items)
    ensures Spells(t, Array(items))
  {}

  lemma ObjectIsSpelled(t: string, pairs: seq<(PyStr, Json)>)
    requires |t| >= 2 && t[0] == '{' && t[|t| - 1] == '}'
    requires if pairs == [] then White(t[1..|t| - 1]) else SpellsPairs(t[1..|t| - 1], pairs)
    ensures Spells(t, Object(Folded([], pairs)))
  {
    if pairs != [] { FoldedIsNotEmpty([], pairs); }
  }

  lemma {:induction false} BracketsAreSpelled(s: string) returns (t: string)
    requires ParseValue(s).Parsed? && s[0] == '['
    ensures s == t + ParseValue(s).rest && Spells(t, ParseValue(s).value)
    decreases |s|, 0
  {
    var inside, w := Skip(s[1..]), Skipped(s[1..]);
    SkippedIsWhite(s[1..]);
    var body, items: seq<Json> := "", [];
    if inside[0] == ']' {
      assert inside == "" + ("]" + inside[1..]) && w + "" == w;
    } else {
      body, items := ItemsAreSpelled(inside, []);
      assert [] + items == items;
      WhiteThenItems(w, body, items);
    }
    Bracketed(s, "[", inside, body, "]", ParseValue(s).rest);
    t := "[" + (w + body) + "]";
    ArrayIsSpelled(t, items);
  }

  lemma {:induction false} BracesAreSpelled(s: string) returns (t: string)
    requires ParseValue(s).Parsed? && s[0] == '{'
    ensures s == t + ParseValue(s).rest && Spells(t, ParseValue(s).value)
    decreases |s|, 0
  {
    var inside, w := Skip(s[1..]), Skipped(s[1..]);
    SkippedIsWhite(s[1..]);
    var body, pairs: seq<(PyStr, Json)> := "", [];
    if inside[0] == '}' {
      assert inside == "" + ("}" + inside[1..]) && w + "" == w;
    } else {
      body, pairs := MembersAreSpelled(inside, []);
      WhiteThenPairs(w, body, pairs);
    }
    Bracketed(s, "{", inside, body, "}", ParseValue(s).rest);
    t := "{" + (w + body) + "}";
    ObjectIsSpelled(t, pairs);
  }

  lemma WordPrefix(s: string, word: string, value: Json)
    requires word != [] && ParseWord(s, word, value).Parsed?
    ensures ParseWord(s, word, value) == Parsed(value, s[|word|..]) && s == word + s[|word|..]
  {}

  lemma WordIsSpelled(s: string) returns (t: string)
    requires ParseValue(s).Parsed? && (s[0] == 'n' || s[0] == 't' || s[0] == 'f' || s[0] == 'N' || s[0] == 'I')
    ensures s == t + ParseValue(s).rest && Spells(t, ParseValue(s).value)
  {
    match s[0]
    case 'n' => t := "null"; WordPrefix(s, t, Null);
    case 't' => t := "true"; WordPrefix(s, t, Bool(true));
    case 'f' => t := "false"; WordPrefix(s, t, Bool(false));
    case 'N' => t := "NaN"; WordPrefix(s, t, Number("NaN", false));
    case _ => t := "Infinity"; WordPrefix(s, t, Number("Infinity", false));
  }

  lemma NumeralIsSpelled(s: string)
    requires s != [] && StartsNumber(s[0]) && ParseNumeral(s).Parsed?
    ensures var r := ParseNumeral(s); s == s[..|s| - |r.rest|] + r.rest && Spells(s[..|s| - |r.rest|], r.value)
  {
    if "-Infinity" <= s {
      assert s[..9] == "-Infinity";
    } else {
      NumberIsSpelled(s);
      assert s[..|s| - |ParseNumber(s).rest|] == ParseNumber(s).value.text;
    }
  }

  /** Whatever is read of a value is spelled by the part of the text that was read. */
  lemma {:induction false} ValueIsSpelled(s: string) returns (t: string)
    requires ParseValue(s).Parsed?
    ensures s == t + ParseValue(s).rest && Spells(t, ParseValue(s).value)
    decreases |s|, 1
  {
    if s[0] == '\"' {
      var inner := CharsAreSpelled(s[1..]);
      t := "\"" + inner + "\"";
      assert t[1..|t| - 1] == inner && s == "\"" + s[1..];
      Regroup("\"", inner, "\"", ParseValue(s).rest);
    } else if s[0] == '[' {
      t := BracketsAreSpelled(s);
    } else if s[0] == '{' {
      t := BracesAreSpelled(s);
    } else {
      t := s[..|s| - |ParseValue(s).rest|];
      if StartsNumber(s[0]) {
        ReadsNumber(s);
        NumeralIsSpelled(s);
      } else {
        t := WordIsSpelled(s);
      }
    }
  }

  // ---------- what is spelled is read ----------

  /** What may follow a value inside a document. */
  predicate Stops(rest: string)
  {
    rest == [] || rest[0] in [' ', '\t', '\n', '\r', ',', ']', '}']
  }

  lemma CharIsRead(t: string, c: CodePoint, rest: string)
    requires SpellsChar(t, c) && (High(c) ==> NoLowNext(rest))
    ensures t != [] && t[0] != '\"' && ParseChar(t + rest) == Parsed(c, rest)
  {
    if |t| == 1 {
      assert (t + rest)[1..] == rest;
    } else if |t| == 2 {
      assert (t + rest)[2..] == rest && (t + rest)[1] == t[1];
    } else if SpellsUnit(t, c) {
      UnitIsRead(t, rest, c);
      assert (t + rest)[1] == 'u';
    } else {
      var high, low :| High(high) && Low(low) && SpellsUnit(t[..6], high) && SpellsUnit(t[6..], low) && c == Pair(high, low);
      assert t + rest == t[..6] + (t[6..] + rest) && (t + rest)[1] == 'u';
      UnitIsRead(t[..6], t[6..] + rest, high);
      UnitIsRead(t[6..], rest, low);
    }
  }

  /** The closing quote is no part of an escape. */
  lemma QuoteEndsEscape(t: string, rest: string)
    requires NoLowNext(t)
    ensures NoLowNext(t + ("\"" + rest))
  {
    var s := t + ("\"" + rest);
    if ParseEscapedUnit(s).Parsed? {
      EscapedUnitIsSpelled(s);
      forall k | 0 <= k < 6 ensures s[k] != '\"' { assert s[..6][k] == s[k]; }
      assert s[|t|] == '\"' && |t| >= 6;
      assert s[..6] == t[..6] && t == t[..6] + t[6..];
      UnitIsRead(t[..6], t[6..], ParseEscapedUnit(s).value);
    }
  }

  lemma CharThenChars(s: string, c: CodePoint, rest: string)
    requires s != [] && s[0] != '\"' && ParseChar(s) == Parsed(c, rest) && ParseChars(rest).Parsed?
    ensures ParseChars(s) == Parsed([c] + ParseChars(rest).value, ParseChars(rest).rest)
  {}

  lemma NextCharIsRead(u: string, c: CodePoint, more: string, cs: PyStr, rest: string)
    requires SpellsChar(u, c) && (High(c) ==> NoLowNext(more)) && ParseChars(more + ("\"" + rest)) == Parsed(cs, rest)
    ensures ParseChars((u + more) + ("\"" + rest)) == Parsed([c] + cs, rest)
  {
    var tail := "\"" + rest;
    if High(c) { QuoteEndsEscape(more, rest); }
    CharIsRead(u, c, more + tail);
    Regroup(u, more, tail, []);
    CharThenChars(u + (more + tail), c, more + tail);
  }

  lemma QuoteIsRead(rest: string)
    ensures ParseChars("\"" + rest) == Parsed([], rest)
  {
    assert ("\"" + rest)[1..] == rest;
  }

  lemma {:induction false} CharsAreRead(t: string, s: PyStr, rest: string)
    requires SpellsChars(t, s)
    ensures ParseChars(t + ("\"" + rest)) == Parsed(s, rest)
    decreases |t|
  {
    if s == [] {
      QuoteIsRead(rest);
      assert t + ("\"" + rest) == "\"" + rest;
    } else {
      var u, more :| CharsCut(t, s, u, more);
      CharsAreRead(more, s[1..], rest);
      NextCharIsRead(u, s[0], more, s[1..], rest);
      assert s == [s[0]] + s[1..];
    }
  }

  lemma StringIsRead(t: string, s: PyStr, rest: string)
    requires SpellsString(t, s)
    ensures t + rest == "\"" + (t + rest)[1..] && ParseChars((t + rest)[1..]) == Parsed(s, rest)
  {
    var inner := t[1..|t| - 1];
    assert (t + rest)[1..] == inner + ("\"" + rest);
    CharsAreRead(inner, s, rest);
  }

  // numbers

  lemma {:induction false} DigitsEnd(d: string, rest: string)
    requires (forall k :: 0 <= k < |d| ==> '0' <= d[k] <= '9') && (rest == [] || !('0' <= rest[0] <= '9'))
    ensures Digits(d + rest) == |d|
  {
    if d == [] {
      assert d + rest == rest;
    } else {
      assert (d + rest)[1..] == d[1..] + rest;
      DigitsEnd(d[1..], rest);
    }
  }

  lemma ExponentIsRead(t: string, rest: string)
    requires Exponent(t) && Stops(rest)
    ensures ExponentLen(t + rest) == |t|
  {
    var s := t + rest;
    if t != [] {
      if Decimal(t[1..]) {
        assert s[1..] == t[1..] + rest && s[1] == t[1] && t[1..][0] == t[1];
        DigitsEnd(t[1..], rest);
      } else {
        assert s[2..] == t[2..] + rest && s[1] == t[1];
        DigitsEnd(t[2..], rest);
      }
    }
  }

  /** Neither a digit nor what a number could go on with. */
  predicate EndsFraction(s: string)
  {
    s == [] || (s[0] != '.' && !('0' <= s[0] <= '9'))
  }

  lemma FractionIsRead(t: string, rest: string)
    requires Fraction(t) && EndsFraction(rest)
    ensures FractionLen(t + rest) == |t|
  {
    if t == [] {
      assert t + rest == rest;
    } else {
      assert (t + rest)[1..] == t[1..] + rest;
      DigitsEnd(t[1..], rest);
    }
  }

  lemma TailIsRead(fraction: string, exponent: string, rest: string)
    requires Fraction(fraction) && Exponent(exponent) && Stops(rest)
    ensures TailLen(fraction + (exponent + rest)) == |fraction + exponent|
  {
    FractionIsRead(fraction, exponent + rest);
    ExponentIsRead(exponent, rest);
    assert (fraction + (exponent + rest))[|fraction|..] == exponent + rest;
  }

  lemma WholeIsRead(sign: string, whole: string, rest: string)
    requires (sign == "" || sign == "-") && Whole(whole) && (rest == [] || !('0' <= rest[0] <= '9') || whole == "0")
    ensures WholeLen(sign + whole + rest) == |sign + whole| && |whole| > 0
  {
    var s := sign + whole + rest;
    assert s[|sign|] == whole[0] && s[|sign|..] == whole + rest && SignLen(s) == |sign|;
    if whole == "0" {
      assert Digits(whole + rest) > 0;
    } else {
      DigitsEnd(whole, rest);
    }
  }

  lemma NumberInParts(head: string, tail: string, rest: string, more: string)
    requires more == tail + rest && WholeLen(head + more) == |head| > 0 && TailLen(more) == |tail|
    ensures ParseNumber(head + more) == Parsed(Number(head + tail, tail == ""), rest)
  {
    var s := head + more;
    assert s[|head|..] == more;
    NumberIsRead(s, |head|, |tail|);
    assert s[..|head| + |tail|] == head + tail && s[|head| + |tail|..] == rest;
  }

  lemma NumberTextIsRead(sign: string, whole: string, fraction: string, exponent: string, rest: string)
    requires (sign == "" || sign == "-") && Whole(whole) && Fraction(fraction) && Exponent(exponent) && Stops(rest)
    ensures ParseNumber(sign + whole + (fraction + (exponent + rest)))
         == Parsed(Number(sign + whole + (fraction + exponent), fraction + exponent == ""), rest)
  {
    var more := fraction + (exponent + rest);
    Regroup(fraction, exponent, rest, []);
    WholeIsRead(sign, whole, more);
    TailIsRead(fraction, exponent, rest);
    NumberInParts(sign + whole, fraction + exponent, rest, more);
  }

  lemma NumberStarts(sign: string, whole: string, more: string)
    requires (sign == "" || sign == "-") && Whole(whole)
    ensures var s := sign + whole + more;
      s != [] && StartsNumber(s[0]) && !Blank(s[0]) && !("-Infinity" <= s)
  {
    var s := sign + whole + more;
    assert s[|sign|] == whole[0];
    if sign == "-" { assert s[1] == whole[0] && "-Infinity"[1] == 'I'; } else { assert "-Infinity"[0] == '-'; }
  }

  lemma NumeralIsRead(t: string, isInt: bool, rest: string)
    requires Numeral(t, isInt) && Stops(rest)
    ensures t != [] && StartsNumber(t[0]) && !Blank(t[0]) && ParseNumeral(t + rest) == Parsed(Number(t, isInt), rest)
  {
    var sign, whole, fraction, exponent :|
      && t == sign + whole + (fraction + exponent) && (sign == "" || sign == "-")
      && Whole(whole) && Fraction(fraction) && Exponent(exponent) && (isInt <==> fraction + exponent == "");
    NumberTextIsRead(sign, whole, fraction, exponent, rest);
    NumberStarts(sign, whole, fraction + exponent);
    NumberStarts(sign, whole, fraction + (exponent + rest));
    Regroup(fraction, exponent, rest, []);
    Regroup(sign + whole, fraction + exponent, rest, []);
  }

  // values

  lemma {:induction false} WhiteIsSkipped(w: string, s: string)
    requires White(w)
    ensures Skip(w + s) == Skip(s)
  {
    if w == [] {
      assert w + s == s;
    } else {
      assert (w + s)[1..] == w[1..] + s;
      WhiteIsSkipped(w[1..], s);
    }
  }

  predicate Starts(t: string) { t != [] && !Blank(t[0]) }

  lemma SpelledStarts(t: string, j: Json)
    requires Spells(t, j)
    ensures Starts(t)
  {
    if j.Number? && Numeral(t, j.isInt) { NumeralIsRead(t, j.isInt, []); }
  }

  lemma WhiteThenSolid(w: string, s: string)
    requires White(w) && Starts(s)
    ensures Skip(w + s) == s
  {
    WhiteIsSkipped(w, s);
  }

  lemma WordIsRead(t: string, j: Json, rest: string)
    requires Spells(t, j) && (j.Null? || j.Bool? || (j.Number? && !Numeral(t, j.isInt)))
    ensures ParseValue(t + rest) == Parsed(j, rest)
  {
    var s := t + rest;
    assert s[|t|..] == rest && s[..|t|] == t && s[0] == t[0];
    if t == "-Infinity" {
      assert StartsNumber(s[0]) && "-Infinity" <= s;
      ReadsNumber(s);
    }
  }

  lemma NumberValueIsRead(t: string, j: Json, rest: string)
    requires j.Number? && t == j.text && Numeral(t, j.isInt) && Stops(rest)
    ensures ParseValue(t + rest) == Parsed(j, rest)
  {
    NumeralIsRead(t, j.isInt, rest);
    ReadsNumber(t + rest);
  }

  /** What comes after a value and white space: a closing bracket or a comma. */
  predicate Goes(s: string) { s != [] && (s[0] == ',' || s[0] == ']' || s[0] == '}') }

  lemma WhiteStops(w: string, s: string)
    requires White(w) && Goes(s)
    ensures Stops(w + s) && Skip(w + s) == s
  {
    WhiteThenSolid(w, s);
    if w != [] { assert (w + s)[0] == w[0]; } else { assert w + s == s; }
  }

  lemma ItemsTrail(w: string, v: string, w': string, more: string, close: string)
    ensures w + (v + (w' + more)) + close == w + (v + (w' + (more + close)))
  {
    Regroup(w', more, close, []);
    Regroup(v, w' + more, close, []);
    Regroup(w, v + (w' + more), close, []);
  }

  /** The first of several values is read, and reading goes on after the comma. */
  lemma FirstItemIsRead(w: string, v: string, j: Json, w': string, more: string, before: seq<Json>)
    requires White(w) && White(w') && Starts(v) && v[0] != ']' && Goes(more)
    requires ParseValue(v + (w' + more)) == Parsed(j, w' + more)
    ensures var s := Skip(w + (v + (w' + more)));
      && Starts(s) && s[0] != ']'
      && ParseItems(s, before) == if more[0] == ']' then Parsed(Array(before + [j]), more[1..])
                                  else if more[0] == ',' then ParseItems(Skip(more[1..]), before + [j]) else Rejected
  {
    WhiteThenSolid(w, v + (w' + more));
    WhiteStops(w', more);
  }

  /** What follows the first value: the end, or a comma and more. */
  lemma MoreOrEnd(more: string, items: seq<Json>, rest: string)
    requires items != [] && if |items| == 1 then more == [] else more != [] && more[0] == ','
    ensures var s := more + ("]" + rest);
      Goes(s) && if |items| == 1 then s[0] == ']' && s[1..] == rest else s[0] == ',' && s[1..] == more[1..] + ("]" + rest)
  {
    if |items| == 1 { assert more + ("]" + rest) == "]" + rest; }
  }

  /** Reading the first value leads to the end or to the items after the comma. */
  lemma FirstItemLeads(w: string, v: string, w': string, more: string, items: seq<Json>, rest: string, before: seq<Json>)
    requires items != [] && White(w) && White(w') && Spells(v, items[0])
    requires if |items| == 1 then more == [] else more != [] && more[0] == ','
    requires ParseValue(v + (w' + (more + ("]" + rest)))) == Parsed(items[0], w' + (more + ("]" + rest)))
    ensures var s := Skip(w + (v + (w' + (more + ("]" + rest)))));
      && Starts(s) && s[0] != ']'
      && ParseItems(s, before) == if |items| == 1 then Parsed(Array(before + [items[0]]), rest)
                                  else ParseItems(Skip(more[1..] + ("]" + rest)), before + [items[0]])
  {
    SpelledStarts(v, items[0]);
    ItemStart(v, items[0]);
    MoreOrEnd(more, items, rest);
    FirstItemIsRead(w, v, items[0], w', more + ("]" + rest), before);
  }

  lemma {:induction false} ItemsAreRead(t: string, items: seq<Json>, rest: string, before: seq<Json>)
    requires items != [] && SpellsItems(t, items)
    ensures var s := Skip(t + ("]" + rest));
      Starts(s) && s[0] != ']' && ParseItems(s, before) == Parsed(Array(before + items), rest)
    decreases |t|, 2
  {
    var w, v, w', more :| ItemsCut(t, items, w, v, w', more);
    var after := more + ("]" + rest);
    ItemsTrail(w, v, w', more, "]" + rest);
    MoreOrEnd(more, items, rest);
    WhiteStops(w', after);
    ValueIsRead(v, items[0], w' + after);
    FirstItemLeads(w, v, w', more, items, rest, before);
    if |items| > 1 {
      ItemsAreRead(more[1..], items[1..], rest, before + [items[0]]);
    }
    ItemsJoin(before, items);
  }

  lemma ItemsJoin(before: seq<Json>, items: seq<Json>)
    requires items != []
    ensures (before + [items[0]]) + items[1..] == before + items
    ensures |items| == 1 ==> before + [items[0]] == before + items
  {}

  /** No value starts like the end of an array or object. */
  lemma ItemStart(t: string, j: Json)
    requires Spells(t, j)
    ensures t != [] && t[0] != ']' && t[0] != '}'
  {
    if j.Number? && Numeral(t, j.isInt) {
      var sign, whole, fraction, exponent :|
        && t == sign + whole + (fraction + exponent) && (sign == "" || sign == "-")
        && Whole(whole) && Fraction(fraction) && Exponent(exponent) && (j.isInt <==> fraction + exponent == "");
      assert t[|sign|] == whole[0];
    }
  }

  lemma {:induction false} ValueIsRead(t: string, j: Json, rest: string)
    requires Spells(t, j) && Stops(rest)
    ensures ParseValue(t + rest) == Parsed(j, rest)
    decreases |t|, 1
  {
    match j
    case String(s) => StringIsRead(t, s, rest);
    case Array(items) => ArrayIsRead(t, items, rest);
    case Object(members) => ObjectIsRead(t, members, rest);
    case Number(_, isInt) => if Numeral(t, isInt) { NumberValueIsRead(t, j, rest); } else { WordIsRead(t, j, rest); }
    case _ => WordIsRead(t, j, rest);
  }

  lemma InsideOf(t: string, rest: string)
    requires |t| >= 2
    ensures (t + rest)[0] == t[0] && (t + rest)[1..] == t[1..|t| - 1] + ([t[|t| - 1]] + rest)
  {}

  lemma {:induction false} ArrayIsRead(t: string, items: seq<Json>, rest: string)
    requires Spells(t, Array(items))
    ensures ParseValue(t + rest) == Parsed(Array(items), rest)
    decreases |t|, 0
  {
    var body := t[1..|t| - 1];
    InsideOf(t, rest);
    if items == [] {
      WhiteThenSolid(body, "]" + rest);
      assert ("]" + rest)[1..] == rest;
    } else {
      ItemsAreRead(body, items, rest, []);
      assert [] + items == items;
    }
  }

  lemma {:induction false} ObjectIsRead(t: string, members: seq<(PyStr, Json)>, rest: string)
    requires Spells(t, Object(members))
    ensures ParseValue(t + rest) == Parsed(Object(members), rest)
    decreases |t|, 0
  {
    var body := t[1..|t| - 1];
    InsideOf(t, rest);
    if members == [] {
      WhiteThenSolid(body, "}" + rest);
      assert ("}" + rest)[1..] == rest;
    } else {
      var pairs :| pairs != [] && SpellsPairs(body, pairs) && members == Folded([], pairs);
      PairsAreRead(body, pairs, rest, []);
    }
  }

  lemma PairIsRead(key: string, name: PyStr, w: string, colon: string, v: string, j: Json, after: string,
      before: seq<(PyStr, Json)>)
    requires SpellsString(key, name) && White(w) && White(colon) && Starts(v)
    requires ParseValue(v + after) == Parsed(j, after) && Skip(after) != []
    ensures var s, next, members := key + (w + (":" + (colon + (v + after)))), Skip(after), Insert(before, name, j);
      && s[0] == '\"'
      && ParseMembers(s, before) == if next[0] == '}' then Parsed(Object(members), next[1..])
                                    else if next[0] == ',' then ParseMembers(Skip(next[1..]), members) else Rejected
  {
    var rest := w + (":" + (colon + (v + after)));
    StringIsRead(key, name, rest);
    WhiteThenSolid(w, ":" + (colon + (v + after)));
    assert (":" + (colon + (v + after)))[1..] == colon + (v + after);
    WhiteThenSolid(colon, v + after);
  }

  lemma MorePairsOrEnd(more: string, pairs: seq<(PyStr, Json)>, rest: string)
    requires pairs != [] && if |pairs| == 1 then more == [] else more != [] && more[0] == ','
    ensures var s := more + ("}" + rest);
      Goes(s) && if |pairs| == 1 then s[0] == '}' && s[1..] == rest else s[0] == ',' && s[1..] == more[1..] + ("}" + rest)
  {
    if |pairs| == 1 { assert more + ("}" + rest) == "}" + rest; }
  }

  /** Reading the first pair leads to the end or to the pairs after the comma. */
  lemma FirstPairLeads(w: string, key: string, w': string, colon: string, v: string, pair: (PyStr, Json), w'': string,
      after: string, before: seq<(PyStr, Json)>)
    requires White(w) && White(w') && White(colon) && White(w'') && Goes(after)
    requires SpellsString(key, pair.0) && Starts(v) && ParseValue(v + (w'' + after)) == Parsed(pair.1, w'' + after)
    ensures var s := Skip(w + (key + (w' + (":" + (colon + (v + (w'' + after)))))));
      var members := Insert(before, pair.0, pair.1);
      && Starts(s) && s[0] != '}'
      && ParseMembers(s, before) == if after[0] == '}' then Parsed(Object(members), after[1..])
                                    else if after[0] == ',' then ParseMembers(Skip(after[1..]), members) else Rejected
  {
    WhiteStops(w'', after);
    PairIsRead(key, pair.0, w', colon, v, pair.1, w'' + after, before);
    WhiteThenSolid(w, key + (w' + (":" + (colon + (v + (w'' + after))))));
  }

  lemma {:induction false} PairsAreRead(t: string, pairs: seq<(PyStr, Json)>, rest: string, before: seq<(PyStr, Json)>)
    requires pairs != [] && SpellsPairs(t, pairs)
    ensures var s := Skip(t + ("}" + rest));
      Starts(s) && s[0] != '}' && ParseMembers(s, before) == Parsed(Object(Folded(before, pairs)), rest)
    decreases |t|, 2
  {
    var w, key, w', colon, v, w'', more :| PairsCut(t, pairs, w, key, w', colon, v, w'', more);
    var after, members := more + ("}" + rest), Insert(before, pairs[0].0, pairs[0].1);
    Trailing(w, key, w', colon, v, w'', more, "}" + rest);
    MorePairsOrEnd(more, pairs, rest);
    WhiteStops(w'', after);
    SpelledStarts(v, pairs[0].1);
    ValueIsRead(v, pairs[0].1, w'' + after);
    FirstPairLeads(w, key, w', colon, v, pairs[0], w'', after, before);
    if |pairs| > 1 {
      PairsAreRead(more[1..], pairs[1..], rest, members);
    } else {
      assert pairs[1..] == [] && Folded(members, []) == members;
    }
  }

  lemma Trailing(w: string, key: string, w': string, colon: string, v: string, w'': string, more: string, close: string)
    ensures w + (key + (w' + (":" + (colon + (v + (w'' + more)))))) + close
         == w + (key + (w' + (":" + (colon + (v + (w'' + (more + close)))))))
  {
    Regroup(w'', more, close, []);
    Regroup(v, w'' + more, close, []);
    Regroup(colon, v + (w'' + more), close, []);
    Regroup(":", colon + (v + (w'' + more)), close, []);
    Regroup(w', ":" + (colon + (v + (w'' + more))), close, []);
    Regroup(key, w' + (":" + (colon + (v + (w'' + more)))), close, []);
    Regroup(w, key + (w' + (":" + (colon + (v + (w'' + more))))), close, []);
  }

  // ---------- documents ----------

  /** A text loads as a value exactly when it is that value's spelling between white space. */
  lemma LoadsExactlySpelled(text: string, j: Json)
    ensures Loads(text) == Some(j) <==> exists w, t, w' :: text == w + (t + w') && White(w) && White(w') && Spells(t, j)
  {
    if Loads(text) == Some(j) {
      var t := ValueIsSpelled(Skip(text));
      var w, w' := Skipped(text), ParseValue(Skip(text)).rest;
      SkippedIsWhite(text);
      SkippedIsWhite(w');
      assert text == w + (t + w') && w' == Skipped(w') + [];
    }
    if w, t, w' :| text == w + (t + w') && White(w) && White(w') && Spells(t, j) {
      SpelledStarts(t, j);
      WhiteThenSolid(w, t + w');
      assert Stops(w');
      ValueIsRead(t, j, w');
      WhiteIsSkipped(w', []);
      assert w' + [] == w';
    }
  }
}
