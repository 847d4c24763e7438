/**
  Two traversals of a function body that must agree: the recursive body reader, and the
  explicit-stack walk. Both stay out of nested functions, classes and lambdas.
 */
module DirectCalls {
  import opened Prelude

  datatype Kind = Scope | Call | Plain

  /** A syntax node; nested functions, classes and lambdas are Scope nodes. */
  datatype Node = Node(kind: Kind, id: nat, children: seq<Node>)

  /** The calls of a list of nodes in reading order. */
  function CallsOf(nodes: seq<Node>): seq<Node>
    decreases nodes
  {
    if nodes == [] then [] else CallsIn(nodes[0]) + CallsOf(nodes[1..])
  }

  function CallsIn(node: Node): seq<Node>
    decreases node
  {
    if node.kind.Scope? then [] else (if node.kind.Call? then [node] else []) + CallsOf(node.children)
  }

  /** The calls in the order the stack yields them: last nodes first, a call before those inside it. */
  function StackOrder(nodes: seq<Node>): seq<Node>
    decreases nodes
  {
    if nodes == [] then [] else StackOrder(nodes[1..]) + StackOrderIn(nodes[0])
  }

  function StackOrderIn(node: Node): seq<Node>
    decreases node
  {
    if node.kind.Scope? then [] else (if node.kind.Call? then [node] else []) + StackOrder(node.children)
  }

  function Size(nodes: seq<Node>): nat
    decreases nodes
  {
    if nodes == [] then 0 else SizeIn(nodes[0]) + Size(nodes[1..])
  }

  function SizeIn(node: Node): (n: nat)
    ensures n > 0
    decreases node
  {
    1 + Size(node.children)
  }

  lemma {:induction false} SizeConcat(a: seq<Node>, b: seq<Node>)
    ensures Size(a + b) == Size(a) + Size(b)
    decreases |a|
  {
    if a == [] {
      assert a + b == b;
    } else {
      assert (a + b)[1..] == a[1..] + b;
      SizeConcat(a[1..], b);
    }
  }

  lemma {:induction false} StackOrderConcat(a: seq<Node>, b: seq<Node>)
    ensures StackOrder(a + b) == StackOrder(b) + StackOrder(a)
    decreases |a|
  {
    if a == [] {
      assert a + b == b;
    } else {
      assert (a + b)[1..] == a[1..] + b;
      StackOrderConcat(a[1..], b);
    }
  }

  lemma {:induction false} SameCalls(nodes: seq<Node>)
    ensures multiset(StackOrder(nodes)) == multiset(CallsOf(nodes))
    decreases nodes
  {
    if nodes != [] {
      SameCallsIn(nodes[0]);
      SameCalls(nodes[1..]);
    }
  }

  lemma {:induction false} SameCallsIn(node: Node)
    ensures multiset(StackOrderIn(node)) == multiset(CallsIn(node))
    decreases node
  {
    SameCalls(node.children);
  }

  class BodyReader {
    var calls: seq<Node>

    constructor ()
      ensures calls == []
    {
      calls := [];
    }

    method Read(body: seq<Node>)
      modifies this
      ensures calls == old(calls) + CallsOf(body)
      decreases body
    {
      if body != [] {
        Visit(body[0]);
        Read(body[1..]);
      }
    }

    /** Records a node, then its children, unless it opens a scope of its own. */
    method Visit(node: Node)
      modifies this
      ensures calls == old(calls) + CallsIn(node)
      decreases node
    {
      if node.kind.Scope? {
        return;
      }
      if node.kind.Call? {
        calls := calls + [node];
      }
      Read(node.children);
    }
  }

  /** What taking the last node off the stack leaves to be found, and putting its children there. */
  lemma TakesLast(pending: seq<Node>)
    requires pending != []
    ensures var rest, node := pending[..|pending| - 1], pending[|pending| - 1];
      && StackOrder(pending) == StackOrderIn(node) + StackOrder(rest) && Size(pending) == Size(rest) + SizeIn(node)
      && StackOrder(rest + node.children) == StackOrder(node.children) + StackOrder(rest)
      && Size(rest + node.children) == Size(rest) + Size(node.children)
  {
    var rest, node := pending[..|pending| - 1], pending[|pending| - 1];
    assert pending == rest + [node] && [node][1..] == [];
    StackOrderConcat(rest, [node]);
    SizeConcat(rest, [node]);
    StackOrderConcat(rest, node.children);
    SizeConcat(rest, node.children);
    assert StackOrder([node]) == StackOrderIn(node) && Size([node]) == SizeIn(node) by {
      assert StackOrder([]) == [] && Size([]) == 0;
    }
  }

  /** The explicit-stack walk finds the calls the body reader records, in its own order. */
  method DirectCallsOf(body: seq<Node>) returns (calls: seq<Node>)
    ensures calls == StackOrder(body)
    ensures multiset(calls) == multiset(CallsOf(body))
  {
    calls := [];
    var pending := body;
    while pending != []
      invariant calls + StackOrder(pending) == StackOrder(body)
      decreases Size(pending)
    {
      var node, rest := pending[|pending| - 1], pending[..|pending| - 1];
      TakesLast(pending);
      Regroup(calls, if node.kind.Call? then [node] else [], StackOrder(node.children), StackOrder(rest));
      pending := rest;
      if node.kind.Scope? {
        continue;
      }
      if node.kind.Call? {
        calls := calls + [node];
      }
      pending := pending + node.children;
    }
    SameCalls(body);
  }
}
