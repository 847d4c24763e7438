/**
  The languages of tokenised routes and traced paths, the product automaton the matcher
  searches, and the proof that the search decides whether the two languages meet.
 */
module RouteLanguage {
  import opened Prelude
  import opened RouteTemplate

  predicate SlashFree(s: string) { '/' !in s }

  /** A route's language: None is one or more characters other than '/'. */
  ghost predicate RouteAccepts(route: seq<Token>, s: string)
  {
    if route == [] then s == []
    else match route[0]
      case Some(c) => s != [] && s[0] == c && RouteAccepts(route[1..], s[1..])
      case None => exists n :: 1 <= n <= |s| && SlashFree(s[..n]) && RouteAccepts(route[1..], s[n..])
  }

  /** A traced path's language: None is any text, the empty text included. */
  ghost predicate TracedAccepts(traced: seq<Token>, s: string)
  {
    if traced == [] then s == []
    else match traced[0]
      case Some(c) => s != [] && s[0] == c && TracedAccepts(traced[1..], s[1..])
      case None => exists n :: 0 <= n <= |s| && TracedAccepts(traced[1..], s[n..])
  }

  ghost predicate Meet(route: seq<Token>, traced: seq<Token>)
  {
    exists s :: RouteAccepts(route, s) && TracedAccepts(traced, s)
  }

  /** A search state: route position, whether inside the parameter there, traced position. */
  datatype State = State(i: nat, inParam: bool, j: nat)

  const START := State(0, false, 0)

  predicate InRange(route: seq<Token>, traced: seq<Token>, st: State)
  {
    && st.i <= |route| && st.j <= |traced|
    && (st.inParam ==> st.i < |route| && route[st.i].None?)
  }

  // ---------- the product automaton, one character or one empty move at a time ----------

  /** The route side can read c and be left at (i', inParam'). */
  predicate RouteReads(route: seq<Token>, i: nat, inParam: bool, c: char, i': nat, inParam': bool)
  {
    if inParam || (i < |route| && route[i].None?) then c != '/' && i' == i && inParam'
    else i < |route| && route[i] == Some(c) && i' == i + 1 && !inParam'
  }

  /** The traced side can read c and be left at j'. */
  predicate TracedReads(traced: seq<Token>, j: nat, c: char, j': nat)
  {
    j < |traced| && if traced[j].None? then j' == j else traced[j] == Some(c) && j' == j + 1
  }

  ghost predicate ReadsTogether(route: seq<Token>, traced: seq<Token>, st: State, c: char, to: State)
  {
    RouteReads(route, st.i, st.inParam, c, to.i, to.inParam) && TracedReads(traced, st.j, c, to.j)
  }

  ghost predicate Step(route: seq<Token>, traced: seq<Token>, st: State, to: State)
  {
    || (st.j < |traced| && traced[st.j].None? && to == State(st.i, st.inParam, st.j + 1))
    || (st.inParam && to == State(st.i + 1, false, st.j))
    || (exists c :: ReadsTogether(route, traced, st, c, to))
  }

  ghost predicate IsRun(route: seq<Token>, traced: seq<Token>, run: seq<State>)
  {
    && run != []
    && forall k :: 0 <= k < |run| - 1 ==> Step(route, traced, run[k], run[k + 1])
  }

  ghost predicate Reaches(route: seq<Token>, traced: seq<Token>, st: State, to: State)
  {
    exists run :: IsRun(route, traced, run) && run[0] == st && run[|run| - 1] == to
  }

  function Accepting(route: seq<Token>, traced: seq<Token>): State
  {
    State(|route|, false, |traced|)
  }

  // ---------- what is still to be read from a state ----------

  ghost predicate RouteRest(route: seq<Token>, i: nat, inParam: bool, s: string)
    requires i <= |route| && (inParam ==> i < |route|)
  {
    if inParam then exists n :: 0 <= n <= |s| && SlashFree(s[..n]) && RouteAccepts(route[i + 1..], s[n..])
    else RouteAccepts(route[i..], s)
  }

  ghost predicate Common(route: seq<Token>, traced: seq<Token>, st: State, s: string)
    requires InRange(route, traced, st)
  {
    RouteRest(route, st.i, st.inParam, s) && TracedAccepts(traced[st.j..], s)
  }

  lemma RouteRestUnread(route: seq<Token>, i: nat, inParam: bool, c: char, i': nat, inParam': bool, s: string)
    requires i <= |route| && (inParam ==> i < |route| && route[i].None?)
    requires RouteReads(route, i, inParam, c, i', inParam')
    requires RouteRest(route, i', inParam', s)
    ensures RouteRest(route, i, inParam, [c] + s)
  {
    if inParam' {
      var n :| 0 <= n <= |s| && SlashFree(s[..n]) && RouteAccepts(route[i + 1..], s[n..]);
      assert ([c] + s)[..n + 1] == [c] + s[..n] && ([c] + s)[n + 1..] == s[n..];
      assert route[i..][1..] == route[i + 1..];
    } else {
      assert route[i..][1..] == route[i + 1..] && ([c] + s)[1..] == s;
    }
  }

  lemma TracedUnread(traced: seq<Token>, j: nat, c: char, j': nat, s: string)
    requires j <= |traced| && TracedReads(traced, j, c, j') && TracedAccepts(traced[j'..], s)
    ensures TracedAccepts(traced[j..], [c] + s)
  {
    assert traced[j..][1..] == traced[j + 1..] && ([c] + s)[1..] == s;
    if traced[j].None? {
      var n :| 0 <= n <= |s| && TracedAccepts(traced[j + 1..], s[n..]);
      assert ([c] + s)[n + 1..] == s[n..];
    }
  }

  /** A step never loses a common string: what is readable after it is readable before it. */
  lemma StepKeepsCommon(route: seq<Token>, traced: seq<Token>, st: State, to: State, s: string) returns (s': string)
    requires InRange(route, traced, st) && Step(route, traced, st, to)
    ensures InRange(route, traced, to)
    ensures Common(route, traced, to, s) ==> Common(route, traced, st, s')
  {
    s' := s;
    if st.j < |traced| && traced[st.j].None? && to == State(st.i, st.inParam, st.j + 1) {
      assert traced[st.j..][1..] == traced[st.j + 1..] && s[0..] == s;
    } else if st.inParam && to == State(st.i + 1, false, st.j) {
      assert s[0..] == s && s[..0] == [];
    } else {
      var c :| ReadsTogether(route, traced, st, c, to);
      s' := [c] + s;
      if Common(route, traced, to, s) {
        RouteRestUnread(route, st.i, st.inParam, c, to.i, to.inParam, s);
        TracedUnread(traced, st.j, c, to.j, s);
      }
    }
  }

  /** Soundness: every run into the accepting state spells a common string. */
  lemma {:induction false} RunSpells(route: seq<Token>, traced: seq<Token>, run: seq<State>) returns (s: string)
    requires IsRun(route, traced, run) && InRange(route, traced, run[0])
    requires run[|run| - 1] == Accepting(route, traced)
    ensures Common(route, traced, run[0], s)
    decreases |run|
  {
    if |run| == 1 {
      s := [];
    } else {
      var _ := StepKeepsCommon(route, traced, run[0], run[1], []);
      var s' := RunSpells(route, traced, run[1..]);
      s := StepKeepsCommon(route, traced, run[0], run[1], s');
    }
  }

  lemma Prepend(route: seq<Token>, traced: seq<Token>, st: State, mid: State, to: State)
    requires Step(route, traced, st, mid) && Reaches(route, traced, mid, to)
    ensures Reaches(route, traced, st, to)
  {
    var run :| IsRun(route, traced, run) && run[0] == mid && run[|run| - 1] == to;
    assert IsRun(route, traced, [st] + run);
  }

  lemma ReachesSelf(route: seq<Token>, traced: seq<Token>, st: State)
    ensures Reaches(route, traced, st, st)
  {
    assert IsRun(route, traced, [st]);
  }

  lemma Extend(route: seq<Token>, traced: seq<Token>, st: State, mid: State, to: State)
    requires Reaches(route, traced, st, mid) && Step(route, traced, mid, to)
    ensures Reaches(route, traced, st, to)
  {
    var run :| IsRun(route, traced, run) && run[0] == st && run[|run| - 1] == mid;
    assert IsRun(route, traced, run + [to]);
  }

  /** A state with a common string that is not accepting has a step keeping the rest readable. */
  lemma CommonHasStep(route: seq<Token>, traced: seq<Token>, st: State, s: string) returns (to: State, s': string)
    requires InRange(route, traced, st) && Common(route, traced, st, s)
    requires st != Accepting(route, traced)
    ensures Step(route, traced, st, to) && InRange(route, traced, to) && Common(route, traced, to, s')
    ensures |s'| < |s| || (s' == s && (to.j > st.j || (to.j == st.j && to.i > st.i)))
  {
    assert st.j < |traced| ==> traced[st.j..][1..] == traced[st.j + 1..];
    assert st.i < |route| ==> route[st.i..][1..] == route[st.i + 1..];
    assert s[0..] == s;
    if st.j < |traced| && traced[st.j].None? && TracedAccepts(traced[st.j + 1..], s) {
      to, s' := State(st.i, st.inParam, st.j + 1), s;
    } else if st.inParam && RouteAccepts(route[st.i + 1..], s) {
      to, s' := State(st.i + 1, false, st.j), s;
    } else {
      assert s != [];
      s' := s[1..];
      var j' := TracedReadsFirst(traced, st.j, s);
      var i', p' := RouteReadsFirst(route, st.i, st.inParam, s);
      to := State(i', p', j');
      assert ReadsTogether(route, traced, st, s[0], to);
    }
  }

  lemma TracedReadsFirst(traced: seq<Token>, j: nat, s: string) returns (j': nat)
    requires j <= |traced| && s != [] && TracedAccepts(traced[j..], s)
    requires j < |traced| && traced[j].None? ==> !TracedAccepts(traced[j + 1..], s)
    ensures j' <= |traced| && TracedReads(traced, j, s[0], j') && TracedAccepts(traced[j'..], s[1..])
  {
    assert traced[j..][1..] == traced[j + 1..];
    if traced[j].None? {
      j' := j;
      var n :| 0 <= n <= |s| && TracedAccepts(traced[j + 1..], s[n..]);
      assert s[0..] == s;
      assert s[1..][n - 1..] == s[n..];
    } else {
      j' := j + 1;
    }
  }

  lemma RouteReadsFirst(route: seq<Token>, i: nat, inParam: bool, s: string) returns (i': nat, inParam': bool)
    requires i <= |route| && (inParam ==> i < |route| && route[i].None?)
    requires s != [] && RouteRest(route, i, inParam, s)
    requires inParam ==> !RouteAccepts(route[i + 1..], s)
    ensures i' <= |route| && (inParam' ==> i' < |route| && route[i'].None?)
    ensures RouteReads(route, i, inParam, s[0], i', inParam') && RouteRest(route, i', inParam', s[1..])
  {
    assert i < |route| ==> route[i..][1..] == route[i + 1..];
    if inParam || route[i].None? {
      i', inParam' := i, true;
      var n :| 0 <= n <= |s| && (n == 0 ==> inParam) && SlashFree(s[..n]) && RouteAccepts(route[i + 1..], s[n..]);
      assert s[0..] == s;
      assert s[0] == s[..n][0];
      assert s[1..][..n - 1] == s[..n][1..] && s[1..][n - 1..] == s[n..];
    } else {
      i', inParam' := i + 1, false;
    }
  }

  /** Completeness: a common string leads the search to the accepting state. */
  lemma {:induction false} CommonReaches(route: seq<Token>, traced: seq<Token>, st: State, s: string)
    requires InRange(route, traced, st) && Common(route, traced, st, s)
    ensures Reaches(route, traced, st, Accepting(route, traced))
    decreases |s|, |traced| - st.j, |route| - st.i
  {
    if st == Accepting(route, traced) {
      ReachesSelf(route, traced, st);
    } else {
      var to, s' := CommonHasStep(route, traced, st, s);
      CommonReaches(route, traced, to, s');
      Prepend(route, traced, st, to, Accepting(route, traced));
    }
  }

  /** The search answers the language question, for all token sequences. */
  lemma ReachingMeansMeeting(route: seq<Token>, traced: seq<Token>)
    ensures Reaches(route, traced, START, Accepting(route, traced)) <==> Meet(route, traced)
  {
    assert route[0..] == route && traced[0..] == traced;
    if Reaches(route, traced, START, Accepting(route, traced)) {
      var run :| IsRun(route, traced, run) && run[0] == START && run[|run| - 1] == Accepting(route, traced);
      var s := RunSpells(route, traced, run);
      assert RouteAccepts(route, s) && TracedAccepts(traced, s);
    }
    if Meet(route, traced) {
      var s :| RouteAccepts(route, s) && TracedAccepts(traced, s);
      assert Common(route, traced, START, s);
      CommonReaches(route, traced, START, s);
    }
  }
}
