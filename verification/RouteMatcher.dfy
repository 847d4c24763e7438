/**
  The route matcher: tokenised templates, traced paths with holes, and the worklist search
  over the product automaton.
 */
module RouteMatching {
  import opened Prelude
  import opened RouteTemplate
  import opened RouteLanguage

  // ---------- traced paths ----------

  /** A piece of a traced path is literal text, or None for a hole. */
  type Piece = Option<string>

  ghost predicate PieceAccepts(piece: Piece, s: string)
  {
    piece.Some? ==> s == piece.value
  }

  /** The language of a traced path: its pieces' texts in order, a hole being any text. */
  ghost predicate PiecesAccept(pieces: seq<Piece>, s: string)
  {
    if pieces == [] then s == []
    else exists n :: 0 <= n <= |s| && PiecesAccept(pieces[..|pieces| - 1], s[..n])
                     && PieceAccepts(pieces[|pieces| - 1], s[n..])
  }

  predicate NoAdjacentHoles(ts: seq<Token>)
  {
    forall k :: 0 < k < |ts| ==> ts[k - 1].Some? || ts[k].Some?
  }

  /** Tokens after one more piece; a hole right after a hole adds nothing. */
  function AddPiece(tokens: seq<Token>, piece: Piece): seq<Token>
  {
    match piece
    case None => if tokens == [] || tokens[|tokens| - 1].Some? then tokens + [None] else tokens
    case Some(text) => tokens + Literals(text)
  }

  function TracedOf(pieces: seq<Piece>): seq<Token>
  {
    if pieces == [] then [] else AddPiece(TracedOf(pieces[..|pieces| - 1]), pieces[|pieces| - 1])
  }

  method TracedTokens(pieces: seq<Piece>) returns (tokens: seq<Token>)
    ensures tokens == TracedOf(pieces)
  {
    tokens := [];
    for k := 0 to |pieces|
      invariant tokens == TracedOf(pieces[..k])
    {
      assert pieces[..k + 1][..k] == pieces[..k];
      match pieces[k]
      case None =>
        if tokens == [] || tokens[|tokens| - 1] != None {
          tokens := tokens + [None];
        }
      case Some(text) =>
        tokens := tokens + Literals(text);
    }
    assert pieces[..|pieces|] == pieces;
  }

  lemma {:induction false} TracedOfHasNoAdjacentHoles(pieces: seq<Piece>)
    ensures NoAdjacentHoles(TracedOf(pieces))
  {
    if pieces != [] {
      TracedOfHasNoAdjacentHoles(pieces[..|pieces| - 1]);
    }
  }

  lemma {:induction false} LiteralsAccept(text: string, s: string)
    ensures TracedAccepts(Literals(text), s) <==> s == text
  {
    if text != [] {
      assert Literals(text)[1..] == Literals(text[1..]);
      if s != [] {
        LiteralsAccept(text[1..], s[1..]);
        assert s == [s[0]] + s[1..] && text == [text[0]] + text[1..];
      }
    }
  }

  lemma {:induction false} TracedAcceptsConcat(a: seq<Token>, b: seq<Token>, s: string, n: nat)
    requires n <= |s| && TracedAccepts(a, s[..n]) && TracedAccepts(b, s[n..])
    ensures TracedAccepts(a + b, s)
    decreases |a|
  {
    if a == [] {
      assert a + b == b && s[n..] == s;
    } else {
      assert (a + b)[1..] == a[1..] + b;
      var m := if a[0].Some? then 1 else var m :| 0 <= m <= n && TracedAccepts(a[1..], s[..n][m..]); m;
      assert s[..n][m..] == s[m..][..n - m] && s[m..][n - m..] == s[n..];
      TracedAcceptsConcat(a[1..], b, s[m..], n - m);
    }
  }

  lemma {:induction false} TracedAcceptsSplit(a: seq<Token>, b: seq<Token>, s: string) returns (n: nat)
    requires TracedAccepts(a + b, s)
    ensures n <= |s| && TracedAccepts(a, s[..n]) && TracedAccepts(b, s[n..])
    decreases |a|
  {
    if a == [] {
      n := 0;
      assert a + b == b && s[0..] == s;
    } else {
      assert (a + b)[1..] == a[1..] + b;
      var m := if a[0].Some? then 1 else var m :| 0 <= m <= |s| && TracedAccepts((a + b)[1..], s[m..]); m;
      var n' := TracedAcceptsSplit(a[1..], b, s[m..]);
      n := m + n';
      assert s[..n][m..] == s[m..][..n'] && s[m..][n'..] == s[n..];
    }
  }

  lemma HoleAccepts(s: string)
    ensures TracedAccepts([None], s)
  {
    assert s[|s|..] == [];
  }

  /** A path that ends in a hole already accepts any further text. */
  lemma TrailingHoleAbsorbs(tokens: seq<Token>, s: string, n: nat)
    requires tokens != [] && tokens[|tokens| - 1].None?
    requires n <= |s| && TracedAccepts(tokens, s[..n])
    ensures TracedAccepts(tokens, s)
  {
    var front := tokens[..|tokens| - 1];
    assert tokens == front + [None];
    var m := TracedAcceptsSplit(front, [None], s[..n]);
    assert s[..n][..m] == s[..m];
    HoleAccepts(s[m..]);
    TracedAcceptsConcat(front, [None], s, m);
  }

  lemma AddPieceLanguage(tokens: seq<Token>, piece: Piece, s: string)
    ensures TracedAccepts(AddPiece(tokens, piece), s)
       <==> exists n :: 0 <= n <= |s| && TracedAccepts(tokens, s[..n]) && PieceAccepts(piece, s[n..])
  {
    if TracedAccepts(AddPiece(tokens, piece), s) {
      if AddPiece(tokens, piece) == tokens && piece.None? {
        assert s[..|s|] == s && PieceAccepts(piece, s[|s|..]);
      } else {
        var last := if piece.None? then [None] else Literals(piece.value);
        var n := TracedAcceptsSplit(tokens, last, s);
        if piece.Some? { LiteralsAccept(piece.value, s[n..]); }
        assert PieceAccepts(piece, s[n..]);
      }
    }
    forall n | 0 <= n <= |s| && TracedAccepts(tokens, s[..n]) && PieceAccepts(piece, s[n..])
      ensures TracedAccepts(AddPiece(tokens, piece), s)
    {
      if piece.Some? {
        LiteralsAccept(piece.value, s[n..]);
        TracedAcceptsConcat(tokens, Literals(piece.value), s, n);
      } else if AddPiece(tokens, piece) == tokens {
        TrailingHoleAbsorbs(tokens, s, n);
      } else {
        HoleAccepts(s[n..]);
        TracedAcceptsConcat(tokens, [None], s, n);
      }
    }
  }

  /** Merging holes and flattening literals keeps the language of the traced path. */
  lemma {:induction false} TracedOfLanguage(pieces: seq<Piece>, s: string)
    ensures TracedAccepts(TracedOf(pieces), s) <==> PiecesAccept(pieces, s)
    decreases |pieces|
  {
    if pieces != [] {
      var front := pieces[..|pieces| - 1];
      AddPieceLanguage(TracedOf(front), pieces[|pieces| - 1], s);
      forall n | 0 <= n <= |s|
        ensures TracedAccepts(TracedOf(front), s[..n]) <==> PiecesAccept(front, s[..n])
      {
        TracedOfLanguage(front, s[..n]);
      }
    }
  }

  /** Forgetting what a piece says can only accept more. */
  lemma {:induction false} HoleAcceptsMore(pieces: seq<Piece>, k: nat, s: string)
    requires k < |pieces| && PiecesAccept(pieces, s)
    ensures PiecesAccept(pieces[k := None], s)
  {
    var last := |pieces| - 1;
    var n :| 0 <= n <= |s| && PiecesAccept(pieces[..last], s[..n]) && PieceAccepts(pieces[last], s[n..]);
    if k == last {
      assert pieces[k := None][..last] == pieces[..last];
    } else {
      HoleAcceptsMore(pieces[..last], k, s[..n]);
      assert pieces[k := None][..last] == pieces[..last][k := None];
    }
  }

  /** The text of a traced path without holes. */
  function Concat(pieces: seq<Piece>): string
    requires forall k :: 0 <= k < |pieces| ==> pieces[k].Some?
  {
    if pieces == [] then [] else Concat(pieces[..|pieces| - 1]) + pieces[|pieces| - 1].value
  }

  lemma {:induction false} HoleFreeAcceptsItself(pieces: seq<Piece>, s: string)
    requires forall k :: 0 <= k < |pieces| ==> pieces[k].Some?
    ensures PiecesAccept(pieces, s) <==> s == Concat(pieces)
  {
    if pieces != [] {
      var front, text := pieces[..|pieces| - 1], pieces[|pieces| - 1].value;
      forall n | 0 <= n <= |s| ensures PiecesAccept(front, s[..n]) <==> s[..n] == Concat(front) {
        HoleFreeAcceptsItself(front, s[..n]);
      }
      if s == Concat(pieces) {
        assert s[..|Concat(front)|] == Concat(front) && s[|Concat(front)|..] == text;
      }
      if PiecesAccept(pieces, s) {
        var n :| 0 <= n <= |s| && PiecesAccept(front, s[..n]) && PieceAccepts(pieces[|pieces| - 1], s[n..]);
        assert s == s[..n] + s[n..];
      }
    }
  }

  // ---------- the search ----------

  /** One side's way to read a character: None reads any character that side allows. */
  datatype RouteOption = RouteOption(read: Option<char>, i: nat, inParam: bool)
  datatype TracedOption = TracedOption(read: Option<char>, j: nat)

  predicate Compatible(r: RouteOption, t: TracedOption)
  {
    && !(r.read.Some? && t.read.Some? && r.read != t.read)
    && !(r.read.None? && t.read == Some('/'))
  }

  method Moves(route: seq<Token>, traced: seq<Token>, st: State) returns (moves: seq<State>)
    requires InRange(route, traced, st)
    ensures forall to :: to in moves <==> Step(route, traced, st, to)
  {
    var State(i, inParam, j) := st;
    moves := [];
    if j < |traced| && traced[j] == None {
      moves := moves + [State(i, inParam, j + 1)];
    }
    if inParam {
      moves := moves + [State(i + 1, false, j)];
    }
    var routeOptions: seq<RouteOption> := [];
    if inParam {
      routeOptions := routeOptions + [RouteOption(None, i, true)];
    } else if i < |route| {
      routeOptions := routeOptions +
        [if route[i] == None then RouteOption(None, i, true) else RouteOption(route[i], i + 1, false)];
    }
    var tracedOptions: seq<TracedOption> := [];
    if j < |traced| {
      tracedOptions := tracedOptions +
        [if traced[j] == None then TracedOption(None, j) else TracedOption(traced[j], j + 1)];
    }
    ghost var empty := moves;
    for a := 0 to |routeOptions|
      invariant forall to :: to in moves <==> to in empty || exists r, t ::
          r in routeOptions[..a] && t in tracedOptions && Compatible(r, t) && to == State(r.i, r.inParam, t.j)
    {
      var r := routeOptions[a];
      ghost var before := moves;
      for b := 0 to |tracedOptions|
        invariant forall to :: to in moves <==> to in before || exists t ::
            t in tracedOptions[..b] && Compatible(r, t) && to == State(r.i, r.inParam, t.j)
      {
        var t := tracedOptions[b];
        if r.read.Some? && t.read.Some? && r.read != t.read {
          continue;
        }
        if r.read.None? && t.read == Some('/') {
          continue;
        }
        moves := moves + [State(r.i, r.inParam, t.j)];
      }
    }
    forall to ensures to in moves <==> Step(route, traced, st, to) {
      if to in moves && to !in empty {
        var r, t :| r in routeOptions && t in tracedOptions && Compatible(r, t) && to == State(r.i, r.inParam, t.j);
        var c := if r.read.Some? then r.read.value else if t.read.Some? then t.read.value else 'a';
        assert ReadsTogether(route, traced, st, c, to);
      }
      if c :| ReadsTogether(route, traced, st, c, to) {
        assert routeOptions != [] && tracedOptions != [] && Compatible(routeOptions[0], tracedOptions[0]);
      }
    }
  }

  /** Every state the search can be in. */
  ghost function StateSpace(route: seq<Token>, traced: seq<Token>): set<State>
  {
    set i, p, j | 0 <= i <= |route| && p in {false, true} && 0 <= j <= |traced| :: State(i, p, j)
  }

  /**
    The worklist search. What it has seen at the end is exactly the reachable state set, and
    its answer is whether some concrete text fits both the template and the traced path.
   */
  method Intersects(route: seq<Token>, traced: seq<Token>) returns (common: bool, ghost seen': set<State>)
    ensures common <==> Meet(route, traced)
    ensures forall st :: st in seen' <==> Reaches(route, traced, START, st)
  {
    var seen := {START};
    var frontier := [START];
    ReachesSelf(route, traced, START);
    while frontier != []
      invariant START in seen
      invariant forall st :: st in frontier ==> st in seen
      invariant forall st :: st in seen ==> InRange(route, traced, st) && Reaches(route, traced, START, st)
      invariant forall st, to :: st in seen && st !in frontier && Step(route, traced, st, to) ==> to in seen
      decreases StateSpace(route, traced) - seen, |frontier|
    {
      var st := frontier[|frontier| - 1];
      frontier := frontier[..|frontier| - 1];
      ghost var rest, seen0 := frontier, seen;
      var moves := Moves(route, traced, st);
      for k := 0 to |moves|
        invariant forall x :: x in frontier ==> x in seen
        invariant seen0 <= seen && (seen == seen0 ==> frontier == rest)
        invariant forall x :: x in rest ==> x in frontier
        invariant forall x :: x in seen ==> x in seen0 || x in frontier
        invariant forall x :: x in seen ==> InRange(route, traced, x) && Reaches(route, traced, START, x)
        invariant forall x :: x in moves[..k] ==> x in seen
      {
        var successor := moves[k];
        assert successor in moves;
        var _ := StepKeepsCommon(route, traced, st, successor, []);
        Extend(route, traced, START, st, successor);
        if successor !in seen {
          seen := seen + {successor};
          frontier := frontier + [successor];
        }
      }
    }
    forall st | Reaches(route, traced, START, st) ensures st in seen {
      SeenIsClosed(route, traced, seen, st);
    }
    ReachingMeansMeeting(route, traced);
    seen' := seen;
    common := State(|route|, false, |traced|) in seen;
  }

  lemma SeenIsClosed(route: seq<Token>, traced: seq<Token>, seen: set<State>, to: State)
    requires START in seen && Reaches(route, traced, START, to)
    requires forall st, to :: st in seen && Step(route, traced, st, to) ==> to in seen
    ensures to in seen
  {
    var run :| IsRun(route, traced, run) && run[0] == START && run[|run| - 1] == to;
    for k := 1 to |run|
      invariant run[k - 1] in seen
    {
    }
  }

  // ---------- matching routes ----------

  /** What matching reads of a contract route. */
  datatype PlatformRoute = PlatformRoute(name: string, path: string)

  ghost predicate UniqueNames(routes: seq<PlatformRoute>)
  {
    forall a, b :: 0 <= a < b < |routes| ==> routes[a].name != routes[b].name
  }

  /** The loader's test: as many distinct names as routes. */
  ghost predicate LoaderAccepts(routes: seq<PlatformRoute>)
  {
    |NameSet(routes)| == |routes|
  }

  lemma LastNameIsNew(routes: seq<PlatformRoute>)
    requires routes != []
    ensures var front, last := routes[..|routes| - 1], routes[|routes| - 1];
      UniqueNames(routes) <==> UniqueNames(front) && forall r :: r in front ==> r.name != last.name
  {
    var front, last := routes[..|routes| - 1], routes[|routes| - 1];
    if UniqueNames(routes) {
      forall r | r in front ensures r.name != last.name {
        var k :| 0 <= k < |front| && front[k] == r;
        assert routes[k].name != routes[|front|].name;
      }
    }
    if UniqueNames(front) && forall r :: r in front ==> r.name != last.name {
      forall a, b | 0 <= a < b < |routes| ensures routes[a].name != routes[b].name {
        assert routes[a] == front[a] && front[a] in front;
      }
    }
  }

  ghost function NameSet(routes: seq<PlatformRoute>): set<string>
  {
    set r | r in routes :: r.name
  }

  lemma {:induction false} NamesCounted(routes: seq<PlatformRoute>)
    ensures |NameSet(routes)| <= |routes|
    ensures LoaderAccepts(routes) <==> UniqueNames(routes)
  {
    if routes != [] {
      var front, last := routes[..|routes| - 1], routes[|routes| - 1];
      NamesCounted(front);
      LastNameIsNew(routes);
      assert routes == front + [last];
      assert NameSet(routes) == NameSet(front) + {last.name};
    }
  }

  /** Some concrete text is both an instance of the template and a text of the traced path. */
  ghost predicate Fits(route: PlatformRoute, pieces: seq<Piece>)
  {
    exists s :: RouteAccepts(Tokens(route.path), s) && PiecesAccept(pieces, s)
  }

  /** The elements that satisfy p, in order. */
  ghost function Select(routes: seq<PlatformRoute>, p: PlatformRoute -> bool): seq<PlatformRoute>
  {
    if routes == [] then []
    else Select(routes[..|routes| - 1], p) + if p(routes[|routes| - 1]) then [routes[|routes| - 1]] else []
  }

  /** The indices ks, in ascending order, are those of the routes that satisfy p. */
  ghost predicate Indices(routes: seq<PlatformRoute>, p: PlatformRoute -> bool, ks: seq<nat>)
  {
    && (forall i, j :: 0 <= i < j < |ks| ==> ks[i] < ks[j])
    && forall k: nat :: k in ks <==> k < |routes| && p(routes[k])
  }

  /** The chosen routes are those at the indices. */
  ghost predicate Chosen(routes: seq<PlatformRoute>, ks: seq<nat>, chosen: seq<PlatformRoute>)
  {
    |chosen| == |ks| && forall i :: 0 <= i < |ks| ==> ks[i] < |routes| && chosen[i] == routes[ks[i]]
  }

  lemma IndicesOfMore(routes: seq<PlatformRoute>, p: PlatformRoute -> bool, ks: seq<nat>)
    requires routes != [] && Indices(routes[..|routes| - 1], p, ks)
    ensures var n := |routes| - 1; Indices(routes, p, if p(routes[n]) then ks + [n] else ks)
  {
    var n := |routes| - 1;
    forall i | 0 <= i < |ks| ensures ks[i] < n { assert ks[i] in ks; }
  }

  lemma ChosenOfMore(routes: seq<PlatformRoute>, ks: seq<nat>, chosen: seq<PlatformRoute>)
    requires routes != [] && Chosen(routes[..|routes| - 1], ks, chosen)
    ensures var n := |routes| - 1; Chosen(routes, ks, chosen) && Chosen(routes, ks + [n], chosen + [routes[n]])
  {}

  lemma {:induction false} SelectPicks(routes: seq<PlatformRoute>, p: PlatformRoute -> bool) returns (ks: seq<nat>)
    ensures Indices(routes, p, ks) && Chosen(routes, ks, Select(routes, p))
  {
    ks := [];
    if routes != [] {
      var n := |routes| - 1;
      var front := SelectPicks(routes[..n], p);
      IndicesOfMore(routes, p, front);
      ChosenOfMore(routes, front, Select(routes[..n], p));
      ks := if p(routes[n]) then front + [n] else front;
    }
  }

  /** A name stands for the last route that has it. */
  lemma {:induction false} JudgedByLast(routes: seq<PlatformRoute>, route: PlatformRoute, k: nat)
    requires k < |routes| && routes[k].name == route.name
    requires forall j :: k < j < |routes| ==> routes[j].name != route.name
    ensures Judged(routes, route) == routes[k]
  {
    if k < |routes| - 1 {
      JudgedByLast(routes[..|routes| - 1], route, k);
    }
  }

  /** Templates are looked up by route name, so a route is judged by the last route of its name. */
  ghost function Judged(routes: seq<PlatformRoute>, route: PlatformRoute): PlatformRoute
  {
    if routes == [] || routes[|routes| - 1].name == route.name
    then if routes == [] then route else route.(path := routes[|routes| - 1].path)
    else Judged(routes[..|routes| - 1], route)
  }

  /** A further route takes over its own name and no other. */
  lemma JudgedAfterLast(routes: seq<PlatformRoute>, last: PlatformRoute, route: PlatformRoute)
    ensures Judged(routes + [last], route) == if last.name == route.name then last else Judged(routes, route)
  {
    assert (routes + [last])[..|routes|] == routes;
  }

  lemma {:induction false} JudgedByOwnTemplate(routes: seq<PlatformRoute>, k: nat)
    requires k < |routes| && UniqueNames(routes)
    ensures Judged(routes, routes[k]) == routes[k]
  {
    if k < |routes| - 1 {
      JudgedByOwnTemplate(routes[..|routes| - 1], k);
    }
  }

  lemma {:induction false} SelectAgrees(routes: seq<PlatformRoute>,
      p: PlatformRoute -> bool, q: PlatformRoute -> bool)
    requires forall r :: r in routes ==> p(r) == q(r)
    ensures Select(routes, p) == Select(routes, q)
  {
    if routes != [] {
      SelectAgrees(routes[..|routes| - 1], p, q);
    }
  }

  /** Route names are unique in a loaded contract, so every route is judged by its own template. */
  lemma UniqueNamesMatchOwnTemplates(routes: seq<PlatformRoute>, pieces: seq<Piece>)
    requires UniqueNames(routes)
    ensures Select(routes, (r: PlatformRoute) => Fits(Judged(routes, r), pieces))
         == Select(routes, (r: PlatformRoute) => Fits(r, pieces))
  {
    forall r | r in routes ensures Judged(routes, r) == r {
      var k :| 0 <= k < |routes| && routes[k] == r;
      JudgedByOwnTemplate(routes, k);
    }
    SelectAgrees(routes, (r: PlatformRoute) => Fits(Judged(routes, r), pieces), (r: PlatformRoute) => Fits(r, pieces));
  }

  lemma MeetMeansFits(route: PlatformRoute, pieces: seq<Piece>)
    ensures Meet(Tokens(route.path), TracedOf(pieces)) <==> Fits(route, pieces)
  {
    if s: string :| RouteAccepts(Tokens(route.path), s) && TracedAccepts(TracedOf(pieces), s) {
      TracedOfLanguage(pieces, s);
    }
    if s: string :| RouteAccepts(Tokens(route.path), s) && PiecesAccept(pieces, s) {
      TracedOfLanguage(pieces, s);
    }
  }

  class RouteMatcher {
    const routes: seq<PlatformRoute>
    const tokens: map<string, seq<Token>>

    /** Every route is looked up by name, so a repeated name keeps only the last template. */
    ghost predicate Valid()
    {
      && (forall r: PlatformRoute :: r in routes ==> r.name in tokens)
      && (forall r :: r in routes ==> tokens[r.name] == Tokens(Judged(routes, r).path))
    }

    constructor (given: seq<PlatformRoute>)
      ensures Valid() && routes == given
    {
      var table: map<string, seq<Token>> := map[];
      for k := 0 to |given|
        invariant forall name :: name in table <==> exists r :: r in given[..k] && r.name == name
        invariant forall r: PlatformRoute :: r.name in table ==> table[r.name] == Tokens(Judged(given[..k], r).path)
      {
        var ts := RouteTokens(given[k].path);
        assert given[..k + 1] == given[..k] + [given[k]];
        forall r: PlatformRoute
          ensures Judged(given[..k + 1], r).path == if r.name == given[k].name then given[k].path else Judged(given[..k], r).path
        {
          JudgedAfterLast(given[..k], given[k], r);
        }
        table := table[given[k].name := ts];
      }
      assert given[..|given|] == given;
      routes := given;
      tokens := table;
    }

    /** The routes, in contract order, that some concrete path shares with the traced pieces. */
    method Match(pieces: seq<Piece>) returns (matched: seq<PlatformRoute>, ghost ks: seq<nat>)
      requires Valid()
      ensures |matched| == |ks| && forall i :: 0 <= i < |ks| ==> ks[i] < |routes| && matched[i] == routes[ks[i]]
      ensures forall i, j :: 0 <= i < j < |ks| ==> ks[i] < ks[j]
      ensures forall k: nat :: k in ks <==> k < |routes| && Fits(Judged(routes, routes[k]), pieces)
      ensures UniqueNames(routes) ==> forall k: nat :: k in ks <==> k < |routes| && Fits(routes[k], pieces)
      ensures matched == Select(routes, (r: PlatformRoute) => Fits(Judged(routes, r), pieces))
      ensures UniqueNames(routes) ==> matched == Select(routes, (r: PlatformRoute) => Fits(r, pieces))
    {
      ghost var p := (r: PlatformRoute) => Fits(Judged(routes, r), pieces);
      var traced := TracedTokens(pieces);
      matched := [];
      for k := 0 to |routes|
        invariant matched == Select(routes[..k], p)
      {
        assert routes[..k + 1][..k] == routes[..k];
        assert routes[k] in routes;
        var hit, _ := Intersects(tokens[routes[k].name], traced);
        MeetMeansFits(Judged(routes, routes[k]), pieces);
        if hit {
          matched := matched + [routes[k]];
        }
      }
      assert routes[..|routes|] == routes;
      if UniqueNames(routes) {
        UniqueNamesMatchOwnTemplates(routes, pieces);
        forall k | 0 <= k < |routes| ensures Judged(routes, routes[k]) == routes[k] { JudgedByOwnTemplate(routes, k); }
      }
      ks := SelectPicks(routes, p);
    }
  }

  // ---------- what a match means ----------

  ghost predicate Segment(value: string) { value != [] && SlashFree(value) }

  /** s is the template with each parameter replaced by non-empty slash-free text. */
  ghost predicate Instance(path: string, s: string)
  {
    exists values :: |values| == Params(path) && (forall v :: v in values ==> Segment(v)) && s == Fill(path, values)
  }

  lemma {:induction false} FillIsAccepted(path: string, values: seq<string>)
    requires |values| == Params(path) && (forall v :: v in values ==> Segment(v))
    ensures RouteAccepts(Tokens(path), Fill(path, values))
    decreases |path|
  {
    if path != [] {
      var k, s := ParamLen(path), Fill(path, values);
      if k > 0 {
        FillIsAccepted(path[k..], values[1..]);
        assert Tokens(path)[1..] == Tokens(path[k..]);
        assert s[..|values[0]|] == values[0] && s[|values[0]|..] == Fill(path[k..], values[1..]);
        assert Segment(values[0]);
      } else {
        FillIsAccepted(path[1..], values);
        assert Tokens(path)[1..] == Tokens(path[1..]) && s[1..] == Fill(path[1..], values);
      }
    }
  }

  lemma {:induction false} AcceptedIsFill(path: string, s: string) returns (values: seq<string>)
    requires RouteAccepts(Tokens(path), s)
    ensures |values| == Params(path) && (forall v :: v in values ==> Segment(v)) && s == Fill(path, values)
    decreases |path|
  {
    if path == [] {
      values := [];
    } else if ParamLen(path) > 0 {
      var k := ParamLen(path);
      assert Tokens(path)[1..] == Tokens(path[k..]);
      var n :| 1 <= n <= |s| && SlashFree(s[..n]) && RouteAccepts(Tokens(path[k..]), s[n..]);
      var rest := AcceptedIsFill(path[k..], s[n..]);
      values := [s[..n]] + rest;
      assert values[1..] == rest && s == s[..n] + s[n..];
    } else {
      assert Tokens(path)[1..] == Tokens(path[1..]);
      values := AcceptedIsFill(path[1..], s[1..]);
      assert s == [s[0]] + s[1..];
    }
  }

  lemma TemplateLanguage(path: string, s: string)
    ensures RouteAccepts(Tokens(path), s) <==> Instance(path, s)
  {
    if RouteAccepts(Tokens(path), s) {
      var _ := AcceptedIsFill(path, s);
    }
    if Instance(path, s) {
      var values :| |values| == Params(path) && (forall v :: v in values ==> Segment(v)) && s == Fill(path, values);
      FillIsAccepted(path, values);
    }
  }

  /** A hole-free request fits a route exactly when it is an instance of the template. */
  lemma HoleFreeFitsInstances(route: PlatformRoute, pieces: seq<Piece>)
    requires forall k :: 0 <= k < |pieces| ==> pieces[k].Some?
    ensures Fits(route, pieces) <==> Instance(route.path, Concat(pieces))
  {
    HoleFreeAcceptsItself(pieces, Concat(pieces));
    TemplateLanguage(route.path, Concat(pieces));
    if s: string :| RouteAccepts(Tokens(route.path), s) && PiecesAccept(pieces, s) {
      HoleFreeAcceptsItself(pieces, s);
    }
  }

  /** Knowing less about a request never loses a route. */
  lemma HolesLoseNoRoute(route: PlatformRoute, pieces: seq<Piece>, k: nat)
    requires k < |pieces| && Fits(route, pieces)
    ensures Fits(route, pieces[k := None])
  {
    var s :| RouteAccepts(Tokens(route.path), s) && PiecesAccept(pieces, s);
    HoleAcceptsMore(pieces, k, s);
  }

  /** Two spellings of one template fit the same requests. */
  lemma EqualNormalizedFitAlike(a: PlatformRoute, b: PlatformRoute, pieces: seq<Piece>)
    requires Normalized(a.path) == Normalized(b.path)
    ensures Fits(a, pieces) <==> Fits(b, pieces)
  {
    NormalizedDecidesTokens(a.path, b.path);
  }
}
