/** The classes reachable through resolved base edges, in breadth-first order. */
module BaseClasses {

  /** The resolved bases of each class, left to right; cycles and diamonds may occur. */
  type Bases = map<string, seq<string>>

  predicate Closed(g: Bases)
  {
    forall c, b :: c in g && b in g[c] ==> b in g
  }

  ghost function NextLayer(g: Bases, layer: set<string>): set<string>
    requires Closed(g) && layer <= g.Keys
    ensures NextLayer(g, layer) <= g.Keys
  {
    set c, b | c in layer && b in g[c] :: b
  }

  /** The classes at most n base edges away. */
  ghost function Within(g: Bases, cls: string, n: nat): set<string>
    requires Closed(g) && cls in g
    ensures Within(g, cls, n) <= g.Keys
  {
    if n == 0 then {cls}
    else Within(g, cls, n - 1) + NextLayer(g, Within(g, cls, n - 1))
  }

  ghost predicate Reachable(g: Bases, cls: string, c: string)
    requires Closed(g) && cls in g
  {
    exists n: nat :: c in Within(g, cls, n)
  }

  lemma {:induction false} WithinGrows(g: Bases, cls: string, m: nat, n: nat)
    requires Closed(g) && cls in g && m <= n
    ensures Within(g, cls, m) <= Within(g, cls, n)
    decreases n
  {
    if m < n {
      WithinGrows(g, cls, m, n - 1);
    }
  }

  lemma BaseIsNext(g: Bases, cls: string, c: string, b: string, n: nat)
    requires Closed(g) && cls in g && c in Within(g, cls, n) && b in g[c]
    ensures b in Within(g, cls, n + 1)
  {}

  /** The entries of the queue, each with the length of the path it was found by. */
  ghost predicate Layered(pending: seq<string>, level: seq<nat>)
  {
    && |level| == |pending|
    && (forall i :: 0 <= i < |level| ==> level[0] <= level[i] <= level[0] + 1)
    && (forall i, j :: 0 <= i < j < |level| ==> level[i] <= level[j])
  }

  /** A base of an emitted class was emitted no more than one layer later, or still waits to be. */
  ghost predicate Followed(order: seq<string>, depth: map<string, nat>, pending: seq<string>, level: seq<nat>,
      b: string, n: nat)
    requires |level| == |pending|
  {
    || (b in order && b in depth && depth[b] <= n)
    || exists i :: 0 <= i < |pending| && pending[i] == b && level[i] <= n
  }

  ghost predicate AllFollowed(g: Bases, order: seq<string>, depth: map<string, nat>, pending: seq<string>,
      level: seq<nat>)
    requires |level| == |pending|
  {
    forall c, b :: c in order && c in depth && c in g && b in g[c] ==> Followed(order, depth, pending, level, b, depth[c] + 1)
  }

  /** Anything within n edges was emitted by depth n, or something waits at depth n or less. */
  lemma {:induction false} NearOrWaiting(g: Bases, cls: string, order: seq<string>, depth: map<string, nat>,
      pending: seq<string>, level: seq<nat>, c: string, n: nat)
    requires Closed(g) && cls in g && |level| == |pending| && c in Within(g, cls, n)
    requires forall x :: x in order <==> x in depth
    requires Followed(order, depth, pending, level, cls, 0)
    requires AllFollowed(g, order, depth, pending, level)
    ensures (c in depth && depth[c] <= n) || exists i :: 0 <= i < |level| && level[i] <= n
    decreases n
  {
    if n > 0 {
      if c in Within(g, cls, n - 1) {
        NearOrWaiting(g, cls, order, depth, pending, level, c, n - 1);
      } else {
        var parent :| parent in Within(g, cls, n - 1) && c in g[parent];
        NearOrWaiting(g, cls, order, depth, pending, level, parent, n - 1);
        if parent in depth && depth[parent] <= n - 1 {
          assert Followed(order, depth, pending, level, c, depth[parent] + 1);
        }
      }
    }
  }

  ghost predicate Distinct(order: seq<string>)
  {
    forall i, j :: 0 <= i < j < |order| ==> order[i] != order[j]
  }

  /** Emitted in non-decreasing depth, each depth being the exact distance. */
  ghost predicate InDepthOrder(g: Bases, cls: string, order: seq<string>, depth: map<string, nat>)
    requires Closed(g) && cls in g
  {
    && (forall x :: x in order <==> x in depth)
    && (forall i, j :: 0 <= i < j < |order| ==> depth[order[i]] <= depth[order[j]])
    && (forall x :: x in order ==> x in Within(g, cls, depth[x]))
    && (forall x, n: nat :: x in order && n < depth[x] ==> x !in Within(g, cls, n))
  }

  /** What the walk keeps: emitted classes with exact depths, and a queue of at most two layers. */
  ghost predicate Walked(g: Bases, cls: string, order: seq<string>, depth: map<string, nat>, pending: seq<string>,
      level: seq<nat>)
    requires Closed(g) && cls in g
  {
    && Distinct(order) && (forall x :: x in order ==> x in g) && (forall x :: x in pending ==> x in g)
    && (if order == [] then pending == [cls] && level == [0] else order[0] == cls)
    && Layered(pending, level) && InDepthOrder(g, cls, order, depth)
    && (forall x, i :: x in order && 0 <= i < |level| ==> depth[x] <= level[i])
    && AllNear(g, cls, pending, level)
    && Followed(order, depth, pending, level, cls, 0)
    && AllFollowed(g, order, depth, pending, level)
  }

  lemma StillFollowed(order: seq<string>, depth: map<string, nat>, pending: seq<string>, level: seq<nat>, b: string,
      n: nat)
    requires |level| == |pending| && pending != []
    requires pending[0] in order && pending[0] in depth && depth[pending[0]] <= level[0]
    requires Followed(order, depth, pending, level, b, n)
    ensures Followed(order, depth, pending[1..], level[1..], b, n)
  {
    if !(b in order && b in depth && depth[b] <= n) {
      var i :| 0 <= i < |pending| && pending[i] == b && level[i] <= n;
      assert i > 0 && pending[1..][i - 1] == b && level[1..][i - 1] <= n;
    }
  }

  /** A class that was emitted before is dropped from the queue. */
  lemma SkipsEmitted(g: Bases, cls: string, order: seq<string>, depth: map<string, nat>, pending: seq<string>,
      level: seq<nat>)
    requires Closed(g) && cls in g && Walked(g, cls, order, depth, pending, level)
    requires pending != [] && pending[0] in order
    ensures Walked(g, cls, order, depth, pending[1..], level[1..])
  {
    StillFollowed(order, depth, pending, level, cls, 0);
    forall c, b | c in order && c in depth && c in g && b in g[c]
      ensures Followed(order, depth, pending[1..], level[1..], b, depth[c] + 1)
    {
      StillFollowed(order, depth, pending, level, b, depth[c] + 1);
    }
  }

  /** The first class in the queue is as near as its queue entry says, and no nearer. */
  lemma QueueIsExact(g: Bases, cls: string, order: seq<string>, depth: map<string, nat>, pending: seq<string>,
      level: seq<nat>)
    requires Closed(g) && cls in g && Walked(g, cls, order, depth, pending, level)
    requires pending != [] && pending[0] !in order
    ensures forall n: nat :: n < level[0] ==> pending[0] !in Within(g, cls, n)
  {
    forall n: nat | n < level[0] ensures pending[0] !in Within(g, cls, n) {
      if pending[0] in Within(g, cls, n) {
        NearOrWaiting(g, cls, order, depth, pending, level, pending[0], n);
      }
    }
  }

  lemma FollowedAfterEmit(order: seq<string>, depth: map<string, nat>, pending: seq<string>, level: seq<nat>,
      added: seq<string>, b: string, n: nat)
    requires |level| == |pending| && pending != [] && pending[0] !in order
    requires Followed(order, depth, pending, level, b, n)
    ensures Followed(order + [pending[0]], depth[pending[0] := level[0]], pending[1..] + added,
                     level[1..] + seq(|added|, _ => level[0] + 1), b, n)
  {
    if !(b in order && b in depth && depth[b] <= n) {
      var i :| 0 <= i < |pending| && pending[i] == b && level[i] <= n;
      var pending', level' := pending[1..] + added, level[1..] + seq(|added|, _ => level[0] + 1);
      if i > 0 {
        assert pending'[i - 1] == b && level'[i - 1] <= n;
      }
    }
  }

  lemma BaseWaits(order: seq<string>, depth: map<string, nat>, pending: seq<string>, level: seq<nat>,
      added: seq<string>, b: string)
    requires |level| == |pending| && pending != [] && b in added
    ensures Followed(order, depth, pending[1..] + added, level[1..] + seq(|added|, _ => level[0] + 1), b, level[0] + 1)
  {
    var k :| 0 <= k < |added| && added[k] == b;
    var pending', level' := pending[1..] + added, level[1..] + seq(|added|, _ => level[0] + 1);
    assert pending'[|pending| - 1 + k] == b && level'[|pending| - 1 + k] == level[0] + 1;
  }

  /** Emitting a class keeps what was followed, and its own bases join the queue. */
  lemma EmitFollows(g: Bases, order: seq<string>, depth: map<string, nat>, pending: seq<string>, level: seq<nat>)
    requires |level| == |pending| && pending != [] && pending[0] !in order && pending[0] in g
    requires forall x :: x in order <==> x in depth
    requires AllFollowed(g, order, depth, pending, level)
    ensures var c, l := pending[0], level[0];
      AllFollowed(g, order + [c], depth[c := l], pending[1..] + g[c], level[1..] + seq(|g[c]|, _ => l + 1))
  {
    var c, l := pending[0], level[0];
    var order', depth' := order + [c], depth[c := l];
    var pending', level' := pending[1..] + g[c], level[1..] + seq(|g[c]|, _ => l + 1);
    forall x, b | x in order' && x in depth' && x in g && b in g[x]
      ensures Followed(order', depth', pending', level', b, depth'[x] + 1)
    {
      if x == c {
        BaseWaits(order', depth', pending, level, g[c], b);
      } else {
        assert x in order && Followed(order, depth, pending, level, b, depth[x] + 1);
        FollowedAfterEmit(order, depth, pending, level, g[c], b, depth[x] + 1);
      }
    }
  }

  lemma EmitKeepsDepthOrder(g: Bases, cls: string, order: seq<string>, depth: map<string, nat>, c: string, l: nat)
    requires Closed(g) && cls in g && InDepthOrder(g, cls, order, depth) && c !in order
    requires forall x :: x in order ==> depth[x] <= l
    requires c in Within(g, cls, l) && forall n: nat :: n < l ==> c !in Within(g, cls, n)
    ensures InDepthOrder(g, cls, order + [c], depth[c := l])
  {
    var order', depth' := order + [c], depth[c := l];
    forall i | 0 <= i < |order| ensures order'[i] == order[i] && order[i] in depth && depth'[order[i]] == depth[order[i]] <= l {
      assert order[i] in order;
    }
    forall x ensures x in order' <==> x in depth' { assert x in order' <==> x in order || x == c; }
    forall i, j | 0 <= i < j < |order'| ensures depth'[order'[i]] <= depth'[order'[j]] {
      if j < |order| { assert depth[order[i]] <= depth[order[j]]; }
    }
  }

  lemma QueueStaysLayered(level: seq<nat>, added: nat)
    requires |level| > 0 && (forall i :: 0 <= i < |level| ==> level[0] <= level[i] <= level[0] + 1)
    requires forall i, j :: 0 <= i < j < |level| ==> level[i] <= level[j]
    ensures var level' := level[1..] + seq(added, _ => level[0] + 1);
      && (forall i :: 0 <= i < |level'| ==> level[0] <= level'[i] <= level'[0] + 1)
      && (forall i :: 0 <= i < |level'| ==> level'[0] <= level'[i])
      && (forall i, j :: 0 <= i < j < |level'| ==> level'[i] <= level'[j])
  {
    var level' := level[1..] + seq(added, _ => level[0] + 1);
    forall i | 0 <= i < |level'| ensures level'[i] == if i < |level| - 1 then level[i + 1] else level[0] + 1 {}
  }

  /** Every entry is within as many edges as its level says. */
  ghost predicate AllNear(g: Bases, cls: string, pending: seq<string>, level: seq<nat>)
    requires Closed(g) && cls in g
  {
    |level| == |pending| && forall i :: 0 <= i < |pending| ==> pending[i] in Within(g, cls, level[i])
  }

  lemma NearConcat(g: Bases, cls: string, a: seq<string>, la: seq<nat>, b: seq<string>, lb: seq<nat>)
    requires Closed(g) && cls in g && AllNear(g, cls, a, la) && AllNear(g, cls, b, lb)
    ensures AllNear(g, cls, a + b, la + lb)
  {}

  lemma BasesAreNear(g: Bases, cls: string, c: string, l: nat)
    requires Closed(g) && cls in g && c in Within(g, cls, l)
    ensures AllNear(g, cls, g[c], seq(|g[c]|, _ => l + 1))
  {
    var level := seq(|g[c]|, _ => l + 1);
    forall i | 0 <= i < |g[c]| ensures g[c][i] in Within(g, cls, level[i]) {
      assert g[c][i] in g[c] && level[i] == l + 1;
      BaseIsNext(g, cls, c, g[c][i], l);
    }
  }

  lemma QueueStaysNear(g: Bases, cls: string, pending: seq<string>, level: seq<nat>)
    requires Closed(g) && cls in g && pending != [] && AllNear(g, cls, pending, level) && pending[0] in g
    ensures AllNear(g, cls, pending[1..] + g[pending[0]], level[1..] + seq(|g[pending[0]]|, _ => level[0] + 1))
  {
    var c, l := pending[0], level[0];
    assert AllNear(g, cls, pending[1..], level[1..]) by {
      forall i | 0 <= i < |pending| - 1 ensures pending[1..][i] in Within(g, cls, level[1..][i]) {
        assert pending[i + 1] in Within(g, cls, level[i + 1]);
      }
    }
    BasesAreNear(g, cls, c, l);
    NearConcat(g, cls, pending[1..], level[1..], g[c], seq(|g[c]|, _ => l + 1));
  }

  lemma EmitKeepsWalked(g: Bases, cls: string, order: seq<string>, depth: map<string, nat>, pending: seq<string>,
      level: seq<nat>)
    requires Closed(g) && cls in g && Walked(g, cls, order, depth, pending, level)
    requires pending != [] && pending[0] !in order
    ensures var c, l := pending[0], level[0];
      Walked(g, cls, order + [c], depth[c := l], pending[1..] + g[c], level[1..] + seq(|g[c]|, _ => l + 1))
  {
    QueueStaysLayered(level, |g[pending[0]]|);
    QueueStaysNear(g, cls, pending, level);
    EmitFollows(g, order, depth, pending, level);
    FollowedAfterEmit(order, depth, pending, level, g[pending[0]], cls, 0);
    QueueIsExact(g, cls, order, depth, pending, level);
    EmitKeepsDepthOrder(g, cls, order, depth, pending[0], level[0]);
  }

  lemma FewerLeft(g: Bases, order: seq<string>, c: string)
    requires c in g && c !in order
    ensures g.Keys - (set x | x in order + [c]) < g.Keys - (set x | x in order)
  {
    assert c in g.Keys - (set x | x in order) && c in order + [c];
  }

  /** When nothing waits, exactly the reachable classes were emitted, nearest first. */
  lemma NothingWaits(g: Bases, cls: string, order: seq<string>, depth: map<string, nat>)
    requires Closed(g) && cls in g && InDepthOrder(g, cls, order, depth)
    requires Followed(order, depth, [], [], cls, 0) && AllFollowed(g, order, depth, [], [])
    ensures forall x :: x in order <==> Reachable(g, cls, x)
    ensures forall i, j, n: nat :: 0 <= i < j < |order| && order[j] in Within(g, cls, n) ==> order[i] in Within(g, cls, n)
  {
    forall x, n: nat | x in Within(g, cls, n) ensures x in order && depth[x] <= n {
      NearOrWaiting(g, cls, order, depth, [], [], x, n);
    }
    forall i, j, n: nat | 0 <= i < j < |order| && order[j] in Within(g, cls, n) ensures order[i] in Within(g, cls, n) {
      assert order[i] in order && order[j] in order;
      WithinGrows(g, cls, depth[order[i]], n);
    }
  }

  // ---------- left to right ----------

  /** The bases of these classes in order, those of one class left to right. */
  function BasesInOrder(g: Bases, order: seq<string>): seq<string>
    requires forall c :: c in order ==> c in g
  {
    if order == [] then [] else BasesInOrder(g, order[..|order| - 1]) + g[order[|order| - 1]]
  }

  /** The list without repeats, each element where it stands first. */
  function Firsts(xs: seq<string>): seq<string>
  {
    if xs == [] then []
    else
      var front := Firsts(xs[..|xs| - 1]);
      if xs[|xs| - 1] in front then front else front + [xs[|xs| - 1]]
  }

  /** What was taken from the queue and what waits are the class and the bases of the classes emitted. */
  ghost predicate Consumed(g: Bases, cls: string, order: seq<string>, taken: seq<string>, pending: seq<string>)
  {
    (forall c :: c in order ==> c in g) && order == Firsts(taken) && taken + pending == [cls] + BasesInOrder(g, order)
  }

  lemma TakesNext(g: Bases, cls: string, order: seq<string>, taken: seq<string>, pending: seq<string>)
    requires Consumed(g, cls, order, taken, pending) && pending != [] && pending[0] in g
    ensures var c, taken' := pending[0], taken + [pending[0]];
      if c in order then Consumed(g, cls, order, taken', pending[1..])
      else Consumed(g, cls, order + [c], taken', pending[1..] + g[c])
  {
    var c, taken' := pending[0], taken + [pending[0]];
    assert taken'[..|taken|] == taken;
    assert taken' + pending[1..] == taken + pending;
    if c !in order {
      assert (order + [c])[..|order|] == order;
      assert BasesInOrder(g, order + [c]) == BasesInOrder(g, order) + g[c];
      assert taken' + (pending[1..] + g[c]) == (taken' + pending[1..]) + g[c];
      assert [cls] + (BasesInOrder(g, order) + g[c]) == ([cls] + BasesInOrder(g, order)) + g[c];
    }
  }

  lemma WalkStarts(g: Bases, cls: string)
    requires Closed(g) && cls in g
    ensures Walked(g, cls, [], map[], [cls], [0]) && Consumed(g, cls, [], [], [cls])
  {
    assert [cls][0] == cls && [0][0] == 0;
  }

  /**
    The queue walk: every reachable class exactly once, the class itself first, never a farther
    class before a nearer one, and else in the order in which the classes before them name them.
   */
  method BasesOf(g: Bases, cls: string) returns (order: seq<string>)
    requires Closed(g) && cls in g
    ensures order != [] && order[0] == cls && Distinct(order) && forall c :: c in order ==> c in g
    ensures order == Firsts([cls] + BasesInOrder(g, order))
    ensures forall x :: x in order <==> Reachable(g, cls, x)
    ensures forall i, j, n: nat :: 0 <= i < j < |order| && order[j] in Within(g, cls, n) ==> order[i] in Within(g, cls, n)
  {
    order := [];
    var pending := [cls];
    ghost var level, depth: map<string, nat> := [0], map[];
    ghost var taken: seq<string> := [];
    WalkStarts(g, cls);
    while pending != []
      invariant Walked(g, cls, order, depth, pending, level) && Consumed(g, cls, order, taken, pending)
      decreases g.Keys - (set x | x in order), |pending|
    {
      var current := pending[0];
      TakesNext(g, cls, order, taken, pending);
      taken := taken + [current];
      if current in order {
        SkipsEmitted(g, cls, order, depth, pending, level);
        pending, level := pending[1..], level[1..];
        continue;
      }
      EmitKeepsWalked(g, cls, order, depth, pending, level);
      FewerLeft(g, order, current);
      order, depth := order + [current], depth[current := level[0]];
      level := level[1..] + seq(|g[current]|, _ => level[0] + 1);
      pending := pending[1..];
      pending := pending + g[current];
    }
    NothingWaits(g, cls, order, depth);
    assert taken + pending == taken;
  }
}
