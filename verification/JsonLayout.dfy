/**
  Line ends and indentation do not matter to the reader: a text with every line feed replaced by
  other white space, such as the carriage return and line feed of a converted checkout, spells the
  same document.
 */
module JsonLayout {
  import opened Prelude
  import opened JsonText
  import opened JsonGrammar

  /** The text with every line feed replaced. */
  function Relaid(gap: string, s: string): string
  {
    if s == [] then [] else (if s[0] == '\n' then gap else [s[0]]) + Relaid(gap, s[1..])
  }

  lemma {:induction false} RelaidConcat(gap: string, a: string, b: string)
    ensures Relaid(gap, a + b) == Relaid(gap, a) + Relaid(gap, b)
  {
    if a == [] {
      assert a + b == b;
    } else {
      assert (a + b)[1..] == a[1..] + b;
      RelaidConcat(gap, a[1..], b);
    }
  }

  lemma {:induction false} SolidStays(gap: string, s: string)
    requires '\n' !in s
    ensures Relaid(gap, s) == s
  {
    if s != [] {
      SolidStays(gap, s[1..]);
      assert s == [s[0]] + s[1..];
    }
  }

  lemma {:induction false} WhiteStays(gap: string, s: string)
    requires White(gap) && White(s)
    ensures White(Relaid(gap, s))
  {
    if s != [] {
      WhiteStays(gap, s[1..]);
    }
  }

  // ---------- strings and numbers hold no line feed ----------

  lemma UnitIsSolid(t: string, n: int)
    requires SpellsUnit(t, n)
    ensures '\n' !in t
  {}

  lemma CharIsSolid(t: string, c: CodePoint)
    requires SpellsChar(t, c)
    ensures '\n' !in t
  {
    if SpellsUnit(t, c) {
      UnitIsSolid(t, c);
    } else if |t| == 12 {
      var high, low :| High(high) && Low(low) && SpellsUnit(t[..6], high) && SpellsUnit(t[6..], low) && c == Pair(high, low);
      UnitIsSolid(t[..6], high);
      UnitIsSolid(t[6..], low);
      assert t == t[..6] + t[6..];
    }
  }

  lemma {:induction false} CharsAreSolid(t: string, s: PyStr)
    requires SpellsChars(t, s)
    ensures '\n' !in t
    decreases |t|
  {
    if s != [] {
      var u, more :| CharsCut(t, s, u, more);
      CharIsSolid(u, s[0]);
      CharsAreSolid(more, s[1..]);
    }
  }

  lemma StringIsSolid(t: string, s: PyStr)
    requires SpellsString(t, s)
    ensures '\n' !in t
  {
    CharsAreSolid(t[1..|t| - 1], s);
    assert t == [t[0]] + t[1..|t| - 1] + [t[|t| - 1]];
  }

  lemma NumeralIsSolid(t: string, isInt: bool)
    requires Numeral(t, isInt)
    ensures '\n' !in t
  {
    var sign, whole, fraction, exponent :|
      && t == sign + whole + (fraction + exponent) && (sign == "" || sign == "-")
      && Whole(whole) && Fraction(fraction) && Exponent(exponent) && (isInt <==> fraction + exponent == "");
    assert '\n' !in whole && '\n' !in sign;
    if fraction != [] { assert fraction == [fraction[0]] + fraction[1..]; }
    if exponent != [] { ExponentIsSolid(exponent); }
  }

  lemma ExponentIsSolid(t: string)
    requires Exponent(t) && t != []
    ensures '\n' !in t
  {
    if Decimal(t[1..]) {
      assert t == [t[0]] + t[1..];
    } else {
      assert t == [t[0], t[1]] + t[2..];
    }
  }

  // ---------- values ----------

  lemma BracketedStays(gap: string, t: string)
    requires |t| >= 2 && t[0] != '\n' && t[|t| - 1] != '\n'
    ensures var t', body := Relaid(gap, t), t[1..|t| - 1];
      |t'| >= 2 && t'[0] == t[0] && t'[|t'| - 1] == t[|t| - 1] && t'[1..|t'| - 1] == Relaid(gap, body)
  {
    var open, body, close := [t[0]], t[1..|t| - 1], [t[|t| - 1]];
    assert t == open + (body + close);
    RelaidConcat(gap, open, body + close);
    RelaidConcat(gap, body, close);
    SolidStays(gap, open);
    SolidStays(gap, close);
  }

  lemma {:induction false} SpellingStays(gap: string, t: string, j: Json)
    requires White(gap) && Spells(t, j)
    ensures Spells(Relaid(gap, t), j)
    decreases |t|, 0
  {
    match j
    case String(s) =>
      StringIsSolid(t, s);
      SolidStays(gap, t);
    case Array(items) =>
      BracketedStays(gap, t);
      if items == [] { WhiteStays(gap, t[1..|t| - 1]); } else { ItemsStay(gap, t[1..|t| - 1], items); }
    case Object(members) =>
      BracketedStays(gap, t);
      if members == [] {
        WhiteStays(gap, t[1..|t| - 1]);
      } else {
        var pairs :| pairs != [] && SpellsPairs(t[1..|t| - 1], pairs) && members == Folded([], pairs);
        PairsStay(gap, t[1..|t| - 1], pairs);
      }
    case Number(_, isInt) =>
      if Numeral(t, isInt) { NumeralIsSolid(t, isInt); }
      SolidStays(gap, t);
    case _ => SolidStays(gap, t);
  }

  lemma CommaStays(gap: string, more: string)
    requires more != [] && more[0] == ','
    ensures Relaid(gap, more) == "," + Relaid(gap, more[1..])
  {}

  lemma {:induction false} ItemsStay(gap: string, t: string, items: seq<Json>)
    requires White(gap) && items != [] && SpellsItems(t, items)
    ensures SpellsItems(Relaid(gap, t), items)
    decreases |t|, 1
  {
    var w, v, w', more :| ItemsCut(t, items, w, v, w', more);
    RelaidConcat(gap, w, v + (w' + more));
    RelaidConcat(gap, v, w' + more);
    RelaidConcat(gap, w', more);
    WhiteStays(gap, w);
    WhiteStays(gap, w');
    SpellingStays(gap, v, items[0]);
    if |items| > 1 {
      CommaStays(gap, more);
      ItemsStay(gap, more[1..], items[1..]);
    }
    assert ItemsCut(Relaid(gap, t), items, Relaid(gap, w), Relaid(gap, v), Relaid(gap, w'), Relaid(gap, more));
  }

  lemma {:induction false} PairsStay(gap: string, t: string, pairs: seq<(PyStr, Json)>)
    requires White(gap) && pairs != [] && SpellsPairs(t, pairs)
    ensures SpellsPairs(Relaid(gap, t), pairs)
    decreases |t|, 1
  {
    var w, key, w', colon, v, w'', more :| PairsCut(t, pairs, w, key, w', colon, v, w'', more);
    PartsStay(gap, w, key, w', colon, v, w'', more);
    WhiteStays(gap, w);
    WhiteStays(gap, w');
    WhiteStays(gap, colon);
    WhiteStays(gap, w'');
    StringIsSolid(key, pairs[0].0);
    SolidStays(gap, key);
    SpellingStays(gap, v, pairs[0].1);
    if |pairs| > 1 {
      CommaStays(gap, more);
      PairsStay(gap, more[1..], pairs[1..]);
    }
    CutSpells(Relaid(gap, t), pairs, Relaid(gap, w), key, Relaid(gap, w'), Relaid(gap, colon), Relaid(gap, v), Relaid(gap, w''),
              Relaid(gap, more));
  }

  lemma PartsStay(gap: string, w: string, key: string, w': string, colon: string, v: string, w'': string, more: string)
    ensures Relaid(gap, w + (key + (w' + (":" + (colon + (v + (w'' + more)))))))
         == Relaid(gap, w) + (Relaid(gap, key) + (Relaid(gap, w') + (":" + (Relaid(gap, colon) + (Relaid(gap, v)
              + (Relaid(gap, w'') + Relaid(gap, more)))))))
  {
    RelaidConcat(gap, w, key + (w' + (":" + (colon + (v + (w'' + more))))));
    RelaidConcat(gap, key, w' + (":" + (colon + (v + (w'' + more)))));
    RelaidConcat(gap, w', ":" + (colon + (v + (w'' + more))));
    RelaidConcat(gap, ":", colon + (v + (w'' + more)));
    RelaidConcat(gap, colon, v + (w'' + more));
    RelaidConcat(gap, v, w'' + more);
    RelaidConcat(gap, w'', more);
    SolidStays(gap, ":");
  }

  /** Replacing the line feeds of a JSON text by any white space, or none, keeps the document it spells. */
  lemma LayoutDoesNotMatter(gap: string, text: string)
    requires White(gap) && Loads(text).Some?
    ensures Loads(Relaid(gap, text)) == Loads(text)
  {
    var j := Loads(text).value;
    LoadsExactlySpelled(text, j);
    var w, t, w' :| text == w + (t + w') && White(w) && White(w') && Spells(t, j);
    RelaidConcat(gap, w, t + w');
    RelaidConcat(gap, t, w');
    WhiteStays(gap, w);
    WhiteStays(gap, w');
    SpellingStays(gap, t, j);
    LoadsExactlySpelled(Relaid(gap, text), j);
  }
}
