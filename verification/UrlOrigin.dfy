/**
  The origin at the start of a URL: scheme, host and optional port as in sections 3.1 and 3.2
  of RFC 3986, accepted only when the host is visibly terminated.
 */
module UrlOrigins {
  import opened Prelude

  predicate Alpha(c: char) { 'a' <= c <= 'z' || 'A' <= c <= 'Z' }
  predicate Digit(c: char) { '0' <= c <= '9' }
  predicate SchemeChar(c: char) { Alpha(c) || Digit(c) || c == '+' || c == '.' || c == '-' }
  predicate HostChar(c: char) { Alpha(c) || Digit(c) || c == '.' || c == '-' }
  predicate EndsOrigin(c: char) { c == '/' || c == '?' || c == '#' }

  predicate All(p: char -> bool, s: string) { forall k :: 0 <= k < |s| ==> p(s[k]) }

  /** Cuts s after its longest prefix whose characters all satisfy p. */
  function Cut(p: char -> bool, s: string): (parts: (string, string))
    ensures All(p, parts.0) && (parts.1 == [] || !p(parts.1[0]))
    ensures s == parts.0 + parts.1
  {
    if s == [] || !p(s[0]) then ([], s)
    else
      var rest := Cut(p, s[1..]);
      ([s[0]] + rest.0, rest.1)
  }

  function LowerChar(c: char): char
  {
    if 'A' <= c <= 'Z' then c - 'A' + 'a' else c
  }

  function Lower(s: string): (t: string)
    ensures |t| == |s| && forall k :: 0 <= k < |s| ==> t[k] == LowerChar(s[k])
  {
    seq(|s|, k requires 0 <= k < |s| => LowerChar(s[k]))
  }

  function StripDots(s: string): (t: string)
    ensures t <= s && (t != [] ==> t[|t| - 1] != '.')
  {
    if s != [] && s[|s| - 1] == '.' then StripDots(s[..|s| - 1]) else s
  }

  const LOWER_CASE := "abcdefghijklmnopqrstuvwxyz"
  const UPPER_CASE := "ABCDEFGHIJKLMNOPQRSTUVWXYZ"
  const DIGITS := "0123456789"

  /** The alphabets character by character. */
  lemma Alphabets(c: char)
    ensures Alpha(c) <==> c in LOWER_CASE || c in UPPER_CASE
    ensures Digit(c) <==> c in DIGITS
    ensures SchemeChar(c) <==> c in LOWER_CASE || c in UPPER_CASE || c in DIGITS || c in "+.-"
    ensures HostChar(c) <==> c in LOWER_CASE || c in UPPER_CASE || c in DIGITS || c in ".-"
    ensures EndsOrigin(c) <==> c in "/?#"
  {}

  /** An ASCII capital becomes its small letter 32 code points on, and any other character stays. */
  lemma LowerCaseOf(c: char)
    ensures LowerChar(c) as int == if 65 <= c as int <= 90 then c as int + 32 else c as int
    ensures c in UPPER_CASE <==> 65 <= c as int <= 90
  {}

  /** Stripping takes all trailing dots and nothing else. */
  lemma {:induction false} OnlyDotsAreStripped(s: string)
    ensures exists dots :: s == StripDots(s) + dots && forall k :: 0 <= k < |dots| ==> dots[k] == '.'
  {
    if s != [] && s[|s| - 1] == '.' {
      OnlyDotsAreStripped(s[..|s| - 1]);
      var dots :| s[..|s| - 1] == StripDots(s) + dots && forall k :: 0 <= k < |dots| ==> dots[k] == '.';
      assert s == StripDots(s) + (dots + ".");
    } else {
      assert s == StripDots(s) + "";
    }
  }

  datatype UrlOrigin = UrlOrigin(scheme: string, host: string, port: string, end: int) {
    function Origin(): string
    {
      scheme + "://" + host + PortPart(port)
    }
  }

  function PortPart(port: string): string
  {
    if port == [] then [] else ":" + port
  }

  /** The port digits after a host, if a colon and at least one digit follow it. */
  function CutPort(s: string): (parts: (string, string))
    ensures All(Digit, parts.0) && s == PortPart(parts.0) + parts.1
  {
    if s == [] || s[0] != ':' then ([], s)
    else
      var parts := Cut(Digit, s[1..]);
      if parts.0 == [] then ([], s)
      else
        assert s == ":" + s[1..] && PortPart(parts.0) + parts.1 == ":" + (parts.0 + parts.1);
        parts
  }

  /** What follows "scheme://": a host, a port and the rest of the URL. */
  function CutAuthority(s: string): (parts: Option<(string, string, string)>)
  {
    var (host, afterHost) := Cut(HostChar, s);
    var (port, rest) := CutPort(afterHost);
    if host == [] || !Terminated(rest) then None else Some((host, port, rest))
  }

  function Parse(text: string): Option<UrlOrigin>
  {
    var (scheme, afterScheme) := Cut(SchemeChar, text);
    if scheme == [] || !Alpha(scheme[0]) || !("://" <= afterScheme) then None
    else match CutAuthority(afterScheme[3..])
      case None => None
      case Some((host, port, rest)) =>
        Some(UrlOrigin(Lower(scheme), StripDots(Lower(host)), port, |text| - |rest|))
  }

  predicate Terminated(rest: string)
  {
    rest == [] || EndsOrigin(rest[0])
  }

  predicate IsScheme(s: string) { s != [] && Alpha(s[0]) && All(SchemeChar, s) }
  predicate IsHost(s: string) { s != [] && All(HostChar, s) }

  /** The grammar of accepted texts. */
  ghost predicate Spells(scheme: string, host: string, port: string, rest: string, text: string)
  {
    && IsScheme(scheme) && IsHost(host) && All(Digit, port) && Terminated(rest)
    && text == scheme + ("://" + (host + (PortPart(port) + rest)))
  }

  lemma {:induction false} CutAtBoundary(p: char -> bool, a: string, b: string)
    requires All(p, a) && (b == [] || !p(b[0]))
    ensures Cut(p, a + b) == (a, b)
  {
    if a != [] {
      assert (a + b)[1..] == a[1..] + b && [a[0]] + a[1..] == a;
      CutAtBoundary(p, a[1..], b);
    } else {
      assert a + b == b;
    }
  }

  lemma CutPortAtBoundary(port: string, rest: string)
    requires All(Digit, port) && Terminated(rest)
    ensures CutPort(PortPart(port) + rest) == (port, rest)
  {
    if port != [] {
      assert (PortPart(port) + rest)[1..] == port + rest;
      CutAtBoundary(Digit, port, rest);
    } else {
      assert PortPart(port) + rest == rest;
    }
  }

  lemma CutAuthorityAtBoundary(host: string, port: string, rest: string)
    requires IsHost(host) && All(Digit, port) && Terminated(rest)
    ensures CutAuthority(host + (PortPart(port) + rest)) == Some((host, port, rest))
  {
    CutAtBoundary(HostChar, host, PortPart(port) + rest);
    CutPortAtBoundary(port, rest);
  }

  lemma CutSchemeAtBoundary(scheme: string, authority: string)
    requires IsScheme(scheme)
    ensures var after := "://" + authority;
      Cut(SchemeChar, scheme + after) == (scheme, after) && "://" <= after && after[3..] == authority
  {
    CutAtBoundary(SchemeChar, scheme, "://" + authority);
  }

  /** Every text of the grammar is accepted, with the components it is made of. */
  lemma ParseAccepts(scheme: string, host: string, port: string, rest: string, text: string)
    requires Spells(scheme, host, port, rest, text)
    ensures Parse(text) == Some(UrlOrigin(Lower(scheme), StripDots(Lower(host)), port, |text| - |rest|))
  {
    CutSchemeAtBoundary(scheme, host + (PortPart(port) + rest));
    CutAuthorityAtBoundary(host, port, rest);
  }

  /** Exactly the texts of the grammar are accepted. */
  lemma ParsedIsSpelled(text: string)
    ensures Parse(text).Some? <==> exists scheme, host, port, rest :: Spells(scheme, host, port, rest, text)
  {
    if Parse(text).Some? {
      var (scheme, afterScheme) := Cut(SchemeChar, text);
      var (host, afterHost) := Cut(HostChar, afterScheme[3..]);
      var (port, rest) := CutPort(afterHost);
      assert afterScheme == "://" + afterScheme[3..];
      assert Spells(scheme, host, port, rest, text);
    }
    if scheme, host, port, rest :| Spells(scheme, host, port, rest, text) {
      ParseAccepts(scheme, host, port, rest, text);
    }
  }

  lemma LowerIsStable(s: string)
    ensures Lower(Lower(s)) == Lower(s)
    ensures Lower(StripDots(Lower(s))) == StripDots(Lower(s))
  {
    assert Lower(Lower(s)) == Lower(s);
    var t := StripDots(Lower(s));
    assert Lower(t) == t;
  }

  lemma StripDotsIsStable(s: string)
    ensures StripDots(StripDots(s)) == StripDots(s)
  {}

  lemma PrintedIsSpelled(o: UrlOrigin, rest: string)
    requires IsScheme(o.scheme) && IsHost(o.host) && All(Digit, o.port) && Terminated(rest)
    ensures Spells(o.scheme, o.host, o.port, rest, o.Origin() + rest)
  {
    Regroup(o.scheme + "://", o.host, PortPart(o.port), rest);
    Regroup(o.scheme, "://", o.host + (PortPart(o.port) + rest), []);
  }

  lemma HostReparses(o: UrlOrigin, rest: string)
    requires IsScheme(o.scheme) && IsHost(o.host) && All(Digit, o.port) && Terminated(rest)
    requires Lower(o.scheme) == o.scheme && Lower(o.host) == o.host && StripDots(o.host) == o.host
    ensures Parse(o.Origin() + rest) == Some(o.(end := |o.Origin()|))
  {
    PrintedIsSpelled(o, rest);
    ParseAccepts(o.scheme, o.host, o.port, rest, o.Origin() + rest);
    LengthOfPrinted(o.Origin(), rest);
  }

  lemma LengthOfPrinted(printed: string, rest: string)
    ensures |printed + rest| - |rest| == |printed|
  {
  }

  lemma NoHostIsRejected(o: UrlOrigin, rest: string)
    requires IsScheme(o.scheme) && o.host == [] && Terminated(rest)
    ensures Parse(o.Origin() + rest).None?
  {
    var tail := PortPart(o.port) + rest;
    assert o.Origin() + rest == o.scheme + ("://" + tail);
    CutAtBoundary(SchemeChar, o.scheme, "://" + tail);
    assert ("://" + tail)[3..] == tail;
    CutAtBoundary(HostChar, [], tail);
    assert [] + tail == tail;
  }

  lemma NormalForms(scheme: string, host: string)
    requires IsScheme(scheme) && All(HostChar, host)
    ensures IsScheme(Lower(scheme)) && All(HostChar, StripDots(Lower(host)))
    ensures Lower(Lower(scheme)) == Lower(scheme)
    ensures Lower(StripDots(Lower(host))) == StripDots(Lower(host))
    ensures StripDots(StripDots(Lower(host))) == StripDots(Lower(host))
  {
    LowerIsStable(scheme);
    LowerIsStable(host);
    StripDotsIsStable(Lower(host));
  }

  /**
    Printing an accepted origin and reading it back, with a path, query or fragment after it,
    gives the same origin exactly when the host is not made of dots alone.
   */
  lemma OriginReparses(text: string, rest: string)
    requires Parse(text).Some? && Terminated(rest)
    ensures var o := Parse(text).value;
      && (o.host != [] <==> Parse(o.Origin() + rest).Some?)
      && (o.host != [] ==> Parse(o.Origin() + rest) == Some(o.(end := |o.Origin()|)))
  {
    var o := Parse(text).value;
    ParsedIsSpelled(text);
    var scheme, host, port, rest0 :| Spells(scheme, host, port, rest0, text);
    ParseAccepts(scheme, host, port, rest0, text);
    NormalForms(scheme, host);
    if o.host != [] {
      HostReparses(o, rest);
    } else {
      NoHostIsRejected(o, rest);
    }
  }
}
