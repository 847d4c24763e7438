/**
  Route templates. A `{param}` is an opening brace, any run of characters other than
  braces and slashes, and a closing brace; the leftmost non-overlapping occurrences count.
 */
module RouteTemplate {
  import opened Prelude

  /** One position of a tokenised path: a literal character, or None for a parameter or a hole. */
  type Token = Option<char>

  predicate Special(c: char) { c == '{' || c == '}' || c == '/' }

  /** Length of the longest prefix without braces and slashes. */
  function Run(s: string): (n: nat)
    ensures n <= |s|
    ensures n < |s| ==> Special(s[n])
  {
    if s == [] || Special(s[0]) then 0 else 1 + Run(s[1..])
  }

  /** Length of the parameter that starts `s`, or 0 when `s` does not start with one. */
  function ParamLen(s: string): (n: nat)
    ensures n <= |s|
    ensures n == 0 || (n >= 2 && s[0] == '{' && s[n - 1] == '}')
  {
    if s == [] || s[0] != '{' then 0
    else
      var k := Run(s[1..]);
      if 1 + k < |s| && s[1 + k] == '}' then k + 2 else 0
  }

  /** A parameter is a name without braces and slashes, possibly empty, between braces. */
  ghost predicate IsParam(s: string)
  {
    exists name :: s == "{" + name + "}" && '{' !in name && '}' !in name && '/' !in name
  }

  lemma {:induction false} RunIsPlain(name: string, c: char, rest: string)
    requires '{' !in name && '}' !in name && '/' !in name && c in ['{', '}', '/']
    ensures Run(name + [c] + rest) == |name|
  {
    var s := name + [c] + rest;
    if name != [] {
      assert s[1..] == name[1..] + [c] + rest;
      RunIsPlain(name[1..], c, rest);
    }
  }

  lemma {:induction false} RunHasNoSpecial(s: string)
    ensures '{' !in s[..Run(s)] && '}' !in s[..Run(s)] && '/' !in s[..Run(s)]
  {
    if s != [] && !Special(s[0]) {
      RunHasNoSpecial(s[1..]);
      assert s[..Run(s)] == [s[0]] + s[1..][..Run(s[1..])];
    }
  }

  /** A text starts with a parameter exactly when its length is found, and there is one such length at most. */
  lemma ParamLenIsThatOfParam(s: string)
    ensures ParamLen(s) > 0 ==> IsParam(s[..ParamLen(s)])
    ensures forall n :: 0 <= n <= |s| && IsParam(s[..n]) ==> ParamLen(s) == n
  {
    if ParamLen(s) > 0 {
      var k := Run(s[1..]);
      RunHasNoSpecial(s[1..]);
      assert s[..ParamLen(s)] == "{" + s[1..][..k] + "}";
    }
    forall n | 0 <= n <= |s| && IsParam(s[..n]) ensures ParamLen(s) == n {
      var name :| s[..n] == "{" + name + "}" && '{' !in name && '}' !in name && '/' !in name;
      assert s == s[..n] + s[n..];
      assert s[1..] == name + ['}'] + s[n..];
      RunIsPlain(name, '}', s[n..]);
    }
  }

  /** The text before the leftmost parameter, that parameter, and what follows it; no parameter leaves both empty. */
  function NextParam(s: string): (cut: (string, string, string))
    ensures s == cut.0 + cut.1 + cut.2
    ensures cut.1 == [] ==> cut.2 == []
  {
    if s == [] then ([], [], [])
    else if ParamLen(s) > 0 then ([], s[..ParamLen(s)], s[ParamLen(s)..])
    else
      var rest := NextParam(s[1..]);
      ([s[0]] + rest.0, rest.1, rest.2)
  }

  /** What a template denotes position by position. */
  function Tokens(s: string): (ts: seq<Token>)
    decreases |s|
  {
    if s == [] then []
    else if ParamLen(s) > 0 then [None] + Tokens(s[ParamLen(s)..])
    else [Some(s[0])] + Tokens(s[1..])
  }

  /** The template with every parameter spelled `{}`. */
  function Normalized(s: string): (t: string)
    decreases |s|
  {
    if s == [] then []
    else if ParamLen(s) > 0 then "{}" + Normalized(s[ParamLen(s)..])
    else [s[0]] + Normalized(s[1..])
  }

  function Params(s: string): (n: nat)
    decreases |s|
  {
    if s == [] then 0
    else if ParamLen(s) > 0 then 1 + Params(s[ParamLen(s)..])
    else Params(s[1..])
  }

  /** The template with its k-th parameter replaced by values[k]. */
  function Fill(s: string, values: seq<string>): (t: string)
    requires |values| == Params(s)
    decreases |s|
  {
    if s == [] then []
    else if ParamLen(s) > 0 then values[0] + Fill(s[ParamLen(s)..], values[1..])
    else [s[0]] + Fill(s[1..], values)
  }

  function Literals(s: string): (ts: seq<Token>)
    ensures |ts| == |s|
    ensures forall i :: 0 <= i < |s| ==> ts[i] == Some(s[i])
  {
    seq(|s|, i requires 0 <= i < |s| => Some(s[i]))
  }

  /** Writes a token sequence back as a normalised path. */
  function Spell(ts: seq<Token>): string
  {
    if ts == [] then [] else (if ts[0].None? then "{}" else [ts[0].value]) + Spell(ts[1..])
  }

  /** The text before the next parameter denotes itself, and the parameter one hole. */
  lemma {:induction false} TokensOfNextPiece(s: string)
    ensures var (text, param, rest) := NextParam(s);
      Tokens(s) == Literals(text) + if param == [] then [] else [None] + Tokens(rest)
    decreases |s|
  {
    if s != [] && ParamLen(s) == 0 {
      TokensOfNextPiece(s[1..]);
      var text := NextParam(s[1..]).0;
      assert Literals([s[0]] + text) == [Some(s[0])] + Literals(text);
    }
  }

  /** The tokeniser: walks the parameters left to right, copying the text between them. */
  method RouteTokens(path: string) returns (tokens: seq<Token>)
    ensures tokens == Tokens(path)
  {
    tokens := [];
    var rest := path;
    while true
      invariant tokens + Tokens(rest) == Tokens(path)
      decreases |rest|
    {
      var (text, param, after) := NextParam(rest);
      TokensOfNextPiece(rest);
      Regroup(tokens, Literals(text), [None], Tokens(after));
      tokens := tokens + Literals(text);
      if param == [] {
        return;
      }
      tokens := tokens + [None];
      rest := after;
    }
  }

  /** Normalising leaves the text up to the next brace or slash alone, and that character too. */
  lemma {:induction false} RunOfNormalized(s: string)
    ensures Run(Normalized(s)) == Run(s)
    ensures Run(s) == |s| ==> |Normalized(s)| == |s|
    ensures Run(s) < |s| ==> Run(s) < |Normalized(s)| && Normalized(s)[Run(s)] == s[Run(s)]
    decreases |s|
  {
    if s != [] && ParamLen(s) == 0 {
      assert Normalized(s)[1..] == Normalized(s[1..]);
      RunOfNormalized(s[1..]);
    }
  }

  /** A stray brace stays stray, and a `{}` is again a parameter, whatever follows it. */
  lemma ParamLenOfNormalized(s: string)
    requires s != []
    ensures ParamLen(s) == 0 ==> ParamLen(Normalized(s)) == 0
    ensures ParamLen(s) > 0 ==> ParamLen(Normalized(s)) == 2
  {
    if ParamLen(s) == 0 {
      RunOfNormalized(s[1..]);
      assert Normalized(s)[1..] == Normalized(s[1..]);
    } else {
      var rest := Normalized(s[ParamLen(s)..]);
      assert Normalized(s)[1..] == ['}'] + rest;
      assert Run(['}'] + rest) == 0;
    }
  }

  /** Spelling a parameter differently never changes what the template denotes. */
  lemma {:induction false} NormalizedKeepsTokens(s: string)
    ensures Tokens(Normalized(s)) == Tokens(s)
    ensures Normalized(Normalized(s)) == Normalized(s)
    decreases |s|
  {
    if s != [] {
      ParamLenOfNormalized(s);
      if ParamLen(s) > 0 {
        NormalizedKeepsTokens(s[ParamLen(s)..]);
        assert Normalized(s)[2..] == Normalized(s[ParamLen(s)..]);
      } else {
        NormalizedKeepsTokens(s[1..]);
        assert Normalized(s)[1..] == Normalized(s[1..]);
      }
    }
  }

  lemma {:induction false} NormalizedIsSpelledTokens(s: string)
    ensures Normalized(s) == Spell(Tokens(s))
    decreases |s|
  {
    if s != [] {
      var k := if ParamLen(s) > 0 then ParamLen(s) else 1;
      assert Tokens(s)[1..] == Tokens(s[k..]);
      NormalizedIsSpelledTokens(s[k..]);
    }
  }

  /** Comparing normalised paths is exactly comparing templates. */
  lemma NormalizedDecidesTokens(s: string, t: string)
    ensures Normalized(s) == Normalized(t) <==> Tokens(s) == Tokens(t)
  {
    NormalizedKeepsTokens(s);
    NormalizedKeepsTokens(t);
    NormalizedIsSpelledTokens(s);
    NormalizedIsSpelledTokens(t);
  }
}
