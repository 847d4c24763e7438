/**
  Which nodes the two call walks find, and in which order, stated on paths through the tree: the
  calls that no scope encloses, each once, siblings in reading order or mirrored.
 */
module CallOrder {
  import opened DirectCalls

  /** The path of child positions leads to this call and meets no scope on the way. */
  predicate IsCallAt(nodes: seq<Node>, path: seq<nat>, call: Node)
    decreases |path|
  {
    && path != [] && path[0] < |nodes| && !nodes[path[0]].kind.Scope?
    && if |path| == 1 then nodes[path[0]] == call && call.kind.Call?
       else IsCallAt(nodes[path[0]].children, path[1..], call)
  }

  /** A node comes before those inside it, and siblings in reading order or, mirrored, in the opposite order. */
  predicate Earlier(mirrored: bool, p: seq<nat>, q: seq<nat>)
    decreases |p|
  {
    if p == [] || q == [] then p == [] && q != []
    else if p[0] == q[0] then Earlier(mirrored, p[1..], q[1..])
    else if mirrored then p[0] > q[0] else p[0] < q[0]
  }

  /** The paths lead to these calls, one each. */
  ghost predicate LeadTo(nodes: seq<Node>, paths: seq<seq<nat>>, calls: seq<Node>)
  {
    |paths| == |calls| && forall i :: 0 <= i < |paths| ==> IsCallAt(nodes, paths[i], calls[i])
  }

  /** No call outside scopes is missing among those whose first step is in the range. */
  ghost predicate Cover(nodes: seq<Node>, from: nat, to: nat, paths: seq<seq<nat>>)
  {
    forall p, n :: IsCallAt(nodes, p, n) && from <= p[0] < to ==> p in paths
  }

  ghost predicate InOrder(mirrored: bool, paths: seq<seq<nat>>)
  {
    forall i, j :: 0 <= i < j < |paths| ==> Earlier(mirrored, paths[i], paths[j])
  }

  /** All of this for the calls whose first step is in the range. */
  ghost predicate Finds(mirrored: bool, nodes: seq<Node>, from: nat, to: nat, paths: seq<seq<nat>>, calls: seq<Node>)
  {
    && LeadTo(nodes, paths, calls) && InOrder(mirrored, paths) && Cover(nodes, from, to, paths)
    && forall i :: 0 <= i < |paths| ==> paths[i] != [] && from <= paths[i][0] < to
  }

  /** The reader's walk, or mirrored the stack's. */
  function Walked(mirrored: bool, nodes: seq<Node>): seq<Node> { if mirrored then StackOrder(nodes) else CallsOf(nodes) }

  /** The same paths one node deeper. */
  function Deeper(paths: seq<seq<nat>>): (deeper: seq<seq<nat>>)
    ensures |deeper| == |paths| && forall i :: 0 <= i < |paths| ==> deeper[i] == [0] + paths[i]
  {
    seq(|paths|, i requires 0 <= i < |paths| => [0] + paths[i])
  }

  function Aside(path: seq<nat>): seq<nat>
  {
    if path == [] then [] else [path[0] + 1] + path[1..]
  }

  /** The same paths one sibling further on. */
  function AllAside(paths: seq<seq<nat>>): (aside: seq<seq<nat>>)
    ensures |aside| == |paths| && forall i :: 0 <= i < |paths| ==> aside[i] == Aside(paths[i])
  {
    seq(|paths|, i requires 0 <= i < |paths| => Aside(paths[i]))
  }

  lemma DeeperCall(nodes: seq<Node>, p: seq<nat>, n: Node)
    requires nodes != [] && !nodes[0].kind.Scope? && p != []
    ensures IsCallAt(nodes, [0] + p, n) <==> IsCallAt(nodes[0].children, p, n)
  {
    assert ([0] + p)[1..] == p;
  }

  lemma AsideCall(nodes: seq<Node>, p: seq<nat>, n: Node)
    requires nodes != []
    ensures IsCallAt(nodes, Aside(p), n) <==> IsCallAt(nodes[1..], p, n)
  {
    if p != [] { assert Aside(p)[1..] == p[1..] && Aside(p)[0] == p[0] + 1; }
  }

  lemma DeeperPaths(mirrored: bool, nodes: seq<Node>, paths: seq<seq<nat>>, calls: seq<Node>)
    requires nodes != [] && !nodes[0].kind.Scope?
    requires LeadTo(nodes[0].children, paths, calls) && InOrder(mirrored, paths)
    ensures LeadTo(nodes, Deeper(paths), calls) && InOrder(mirrored, Deeper(paths))
  {
    forall i | 0 <= i < |paths| ensures IsCallAt(nodes, Deeper(paths)[i], calls[i]) {
      assert IsCallAt(nodes[0].children, paths[i], calls[i]);
      DeeperCall(nodes, paths[i], calls[i]);
    }
    forall i, j | 0 <= i < j < |paths| ensures Earlier(mirrored, Deeper(paths)[i], Deeper(paths)[j]) {
      assert ([0] + paths[i])[1..] == paths[i] && ([0] + paths[j])[1..] == paths[j];
    }
  }

  lemma AsideCovers(nodes: seq<Node>, paths: seq<seq<nat>>)
    requires nodes != [] && Cover(nodes[1..], 0, |nodes| - 1, paths)
    ensures Cover(nodes, 1, |nodes|, AllAside(paths))
  {
    forall p, n | IsCallAt(nodes, p, n) && 1 <= p[0] < |nodes| ensures p in AllAside(paths) {
      var q := [p[0] - 1] + p[1..];
      assert q[1..] == p[1..] && Aside(q) == p;
      AsideCall(nodes, q, n);
      assert IsCallAt(nodes[1..], q, n) && q in paths;
      var i :| 0 <= i < |paths| && paths[i] == q;
      assert AllAside(paths)[i] == p;
    }
  }

  lemma AsidePaths(mirrored: bool, nodes: seq<Node>, paths: seq<seq<nat>>, calls: seq<Node>)
    requires nodes != [] && Finds(mirrored, nodes[1..], 0, |nodes| - 1, paths, calls)
    ensures Finds(mirrored, nodes, 1, |nodes|, AllAside(paths), calls)
  {
    AsideCovers(nodes, paths);
    forall i | 0 <= i < |paths|
      ensures IsCallAt(nodes, AllAside(paths)[i], calls[i]) && AllAside(paths)[i] != [] && 1 <= AllAside(paths)[i][0] < |nodes|
    {
      AsideCall(nodes, paths[i], calls[i]);
    }
    forall i, j | 0 <= i < j < |paths| ensures Earlier(mirrored, AllAside(paths)[i], AllAside(paths)[j]) {
      assert Earlier(mirrored, paths[i], paths[j]);
      assert Aside(paths[i])[1..] == paths[i][1..] && Aside(paths[j])[1..] == paths[j][1..];
    }
  }

  lemma FirstCovers(nodes: seq<Node>, inside: seq<seq<nat>>, paths: seq<seq<nat>>)
    requires nodes != [] && !nodes[0].kind.Scope? && Cover(nodes[0].children, 0, |nodes[0].children|, inside)
    requires paths == FromFirst(nodes[0], inside)
    ensures Cover(nodes, 0, 1, paths)
  {
    forall p, n | IsCallAt(nodes, p, n) && p[0] == 0 ensures p in paths {
      assert p == [0] + p[1..];
      if |p| == 1 {
        assert p == [0] && paths[0] == [0];
      } else {
        DeeperCall(nodes, p[1..], n);
        var i :| 0 <= i < |inside| && inside[i] == p[1..];
        assert Deeper(inside)[i] == p && p in Deeper(inside);
      }
    }
  }

  /** What a walk lists of one node. */
  function WalkedIn(mirrored: bool, node: Node): seq<Node>
  {
    if node.kind.Scope? then [] else (if node.kind.Call? then [node] else []) + Walked(mirrored, node.children)
  }

  /** The first node itself, when it is a call, and the calls inside it. */
  function FromFirst(node: Node, inside: seq<seq<nat>>): seq<seq<nat>>
  {
    (if node.kind.Call? then [[0]] else []) + Deeper(inside)
  }

  lemma FirstInOrder(mirrored: bool, node: Node, inside: seq<seq<nat>>)
    requires InOrder(mirrored, Deeper(inside)) && forall i :: 0 <= i < |inside| ==> inside[i] != []
    ensures InOrder(mirrored, FromFirst(node, inside))
  {
    forall i | 0 <= i < |inside| ensures Earlier(mirrored, [0], Deeper(inside)[i]) {
      assert [0][1..] == [] && Deeper(inside)[i][1..] == inside[i];
    }
  }

  lemma FirstPaths(mirrored: bool, nodes: seq<Node>, inside: seq<seq<nat>>)
    requires nodes != [] && !nodes[0].kind.Scope?
    requires Finds(mirrored, nodes[0].children, 0, |nodes[0].children|, inside, Walked(mirrored, nodes[0].children))
    ensures Finds(mirrored, nodes, 0, 1, FromFirst(nodes[0], inside), WalkedIn(mirrored, nodes[0]))
  {
    var calls := Walked(mirrored, nodes[0].children);
    DeeperPaths(mirrored, nodes, inside, calls);
    FirstInOrder(mirrored, nodes[0], inside);
    FirstCovers(nodes, inside, FromFirst(nodes[0], inside));
    FirstLeads(nodes, inside, calls);
  }

  lemma FirstLeads(nodes: seq<Node>, inside: seq<seq<nat>>, calls: seq<Node>)
    requires nodes != [] && !nodes[0].kind.Scope? && LeadTo(nodes, Deeper(inside), calls)
    ensures LeadTo(nodes, FromFirst(nodes[0], inside), (if nodes[0].kind.Call? then [nodes[0]] else []) + calls)
    ensures var paths := FromFirst(nodes[0], inside);
      forall i :: 0 <= i < |paths| ==> paths[i] != [] && paths[i][0] == 0
  {
    if nodes[0].kind.Call? {
      assert IsCallAt(nodes, [0], nodes[0]);
      BothLead(nodes, [[0]], [nodes[0]], Deeper(inside), calls);
    } else {
      assert FromFirst(nodes[0], inside) == Deeper(inside) && [] + calls == calls;
    }
  }

  /** Two ranges of siblings, in reading order or mirrored. */
  lemma BothInOrder(mirrored: bool, here: seq<seq<nat>>, there: seq<seq<nat>>)
    requires InOrder(mirrored, here) && InOrder(mirrored, there)
    requires forall i :: 0 <= i < |here| ==> here[i] != [] && here[i][0] == 0
    requires forall i :: 0 <= i < |there| ==> there[i] != [] && there[i][0] > 0
    ensures InOrder(mirrored, if mirrored then there + here else here + there)
  {
    forall i, j | 0 <= i < |here| && 0 <= j < |there|
      ensures if mirrored then Earlier(mirrored, there[j], here[i]) else Earlier(mirrored, here[i], there[j])
    {}
    var paths := if mirrored then there + here else here + there;
    forall i, j | 0 <= i < j < |paths| ensures Earlier(mirrored, paths[i], paths[j]) {
      var n := if mirrored then |there| else |here|;
      if i < n <= j {
        assert paths[i] == (if mirrored then there[i] else here[i]);
        assert paths[j] == if mirrored then here[j - n] else there[j - n];
      }
    }
  }

  lemma BothLead(nodes: seq<Node>, a: seq<seq<nat>>, x: seq<Node>, b: seq<seq<nat>>, y: seq<Node>)
    requires LeadTo(nodes, a, x) && LeadTo(nodes, b, y)
    ensures LeadTo(nodes, a + b, x + y)
  {}

  lemma BothCover(nodes: seq<Node>, here: seq<seq<nat>>, there: seq<seq<nat>>)
    requires Cover(nodes, 0, 1, here) && Cover(nodes, 1, |nodes|, there)
    ensures Cover(nodes, 0, |nodes|, here + there) && Cover(nodes, 0, |nodes|, there + here)
  {}

  lemma BothFind(mirrored: bool, nodes: seq<Node>, here: seq<seq<nat>>, calls: seq<Node>, there: seq<seq<nat>>,
      others: seq<Node>)
    requires nodes != [] && Finds(mirrored, nodes, 0, 1, here, calls) && Finds(mirrored, nodes, 1, |nodes|, there, others)
    ensures if mirrored then Finds(mirrored, nodes, 0, |nodes|, there + here, others + calls)
            else Finds(mirrored, nodes, 0, |nodes|, here + there, calls + others)
  {
    BothInOrder(mirrored, here, there);
    BothCover(nodes, here, there);
    if mirrored { BothLead(nodes, there, others, here, calls); } else { BothLead(nodes, here, calls, there, others); }
  }

  lemma NothingInScopes(mirrored: bool, nodes: seq<Node>)
    requires nodes != [] && nodes[0].kind.Scope?
    ensures Finds(mirrored, nodes, 0, 1, [], [])
  {}

  lemma WalkedStep(mirrored: bool, nodes: seq<Node>)
    requires nodes != []
    ensures var first, rest := WalkedIn(mirrored, nodes[0]), Walked(mirrored, nodes[1..]);
      Walked(mirrored, nodes) == if mirrored then rest + first else first + rest
  {
    if mirrored {
      assert StackOrderIn(nodes[0]) == WalkedIn(mirrored, nodes[0]);
    } else {
      assert CallsIn(nodes[0]) == WalkedIn(mirrored, nodes[0]);
    }
  }

  /**
    Both walks find exactly the calls that no scope encloses, each once: the reader in reading order
    and the stack with siblings in the opposite order, a call before those inside it in both.
   */
  lemma {:induction false} WalksFindCalls(mirrored: bool, nodes: seq<Node>) returns (paths: seq<seq<nat>>)
    ensures Finds(mirrored, nodes, 0, |nodes|, paths, Walked(mirrored, nodes))
    decreases nodes
  {
    paths := [];
    if nodes != [] {
      var rest := WalksFindCalls(mirrored, nodes[1..]);
      AsidePaths(mirrored, nodes, rest, Walked(mirrored, nodes[1..]));
      var here := [];
      if nodes[0].kind.Scope? {
        NothingInScopes(mirrored, nodes);
      } else {
        var inside := WalksFindCalls(mirrored, nodes[0].children);
        FirstPaths(mirrored, nodes, inside);
        here := FromFirst(nodes[0], inside);
      }
      BothFind(mirrored, nodes, here, WalkedIn(mirrored, nodes[0]), AllAside(rest), Walked(mirrored, nodes[1..]));
      WalkedStep(mirrored, nodes);
      paths := if mirrored then AllAside(rest) + here else here + AllAside(rest);
    }
  }
}
