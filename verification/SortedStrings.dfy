/** Python's order on strings, by code point, and sorting without duplicates. */
module SortedStrings {
  import opened JsonText

  predicate Less(a: PyStr, b: PyStr)
  {
    if b == [] then false
    else if a == [] then true
    else a[0] < b[0] || (a[0] == b[0] && Less(a[1..], b[1..]))
  }

  lemma {:induction false} LessIsStrictOrder(a: PyStr, b: PyStr, c: PyStr)
    ensures !Less(a, a)
    ensures Less(a, b) && Less(b, c) ==> Less(a, c)
    ensures Less(a, b) || a == b || Less(b, a)
    decreases |a|
  {
    if a != [] {
      if b != [] && c != [] {
        LessIsStrictOrder(a[1..], b[1..], c[1..]);
      } else {
        LessIsStrictOrder(a[1..], [], []);
        if b != [] { LessIsStrictOrder(a[1..], b[1..], []); }
      }
      if b != [] && a[0] == b[0] && a[1..] == b[1..] {
        assert a == [a[0]] + a[1..] && b == [b[0]] + b[1..];
      }
    }
  }

  /** The order by the first difference: a proper prefix comes first, or the smaller code point does. */
  ghost predicate Before(a: PyStr, b: PyStr)
  {
    (a <= b && |a| < |b|) || exists k :: 0 <= k < |a| && k < |b| && a[..k] == b[..k] && a[k] < b[k]
  }

  lemma {:induction false} LessIsBefore(a: PyStr, b: PyStr)
    ensures Less(a, b) <==> Before(a, b)
    decreases |a|
  {
    if a != [] && b != [] && a[0] == b[0] {
      LessIsBefore(a[1..], b[1..]);
      RestIsBefore(a, b);
    } else if a != [] && b != [] && a[0] < b[0] {
      assert a[..0] == b[..0];
    } else if a != [] && b != [] {
      forall k | 0 < k < |a| && k < |b| ensures a[..k] != b[..k] {
        assert a[..k][0] == a[0] && b[..k][0] == b[0];
      }
    }
  }

  /** An equal first code point decides nothing. */
  lemma RestIsBefore(a: PyStr, b: PyStr)
    requires a != [] && b != [] && a[0] == b[0]
    ensures Before(a, b) <==> Before(a[1..], b[1..])
  {
    assert a == [a[0]] + a[1..] && b == [b[0]] + b[1..];
    if k :| 0 <= k < |a| && k < |b| && a[..k] == b[..k] && a[k] < b[k] {
      assert a[1..][..k - 1] == a[..k][1..] && b[1..][..k - 1] == b[..k][1..];
      assert a[1..][k - 1] == a[k] && b[1..][k - 1] == b[k];
    }
    if k :| 0 <= k < |a[1..]| && k < |b[1..]| && a[1..][..k] == b[1..][..k] && a[1..][k] < b[1..][k] {
      assert a[..k + 1] == [a[0]] + a[1..][..k] && b[..k + 1] == [b[0]] + b[1..][..k];
    }
  }

  /** Sorted and unique, stated on neighbours. */
  ghost predicate Ascending(xs: seq<PyStr>)
  {
    forall k :: 0 < k < |xs| ==> Before(xs[k - 1], xs[k])
  }

  /** Neighbours in ascending order are enough, and what sorting gives. */
  lemma {:induction false} SortedUniqueIsAscending(xs: seq<PyStr>)
    ensures SortedUnique(xs) <==> Ascending(xs)
    decreases |xs|
  {
    if SortedUnique(xs) {
      forall k | 0 < k < |xs| ensures Before(xs[k - 1], xs[k]) { LessIsBefore(xs[k - 1], xs[k]); }
    }
    if Ascending(xs) {
      forall i, j | 0 <= i < j < |xs| ensures Less(xs[i], xs[j]) { NeighboursDecide(xs, i, j); }
    }
  }

  lemma {:induction false} NeighboursDecide(xs: seq<PyStr>, i: nat, j: nat)
    requires Ascending(xs) && i < j < |xs|
    ensures Less(xs[i], xs[j])
    decreases j
  {
    LessIsBefore(xs[j - 1], xs[j]);
    if i < j - 1 {
      NeighboursDecide(xs, i, j - 1);
      LessIsStrictOrder(xs[i], xs[j - 1], xs[j]);
    }
  }

  /** Equal to its own `sorted(set(...))`. */
  predicate SortedUnique(xs: seq<PyStr>)
  {
    forall i, j :: 0 <= i < j < |xs| ==> Less(xs[i], xs[j])
  }

  function Place(x: PyStr, xs: seq<PyStr>): seq<PyStr>
  {
    if xs == [] then [x]
    else if x == xs[0] then xs
    else if Less(x, xs[0]) then [x] + xs
    else [xs[0]] + Place(x, xs[1..])
  }

  /** `sorted(set(xs))`. */
  function Sorted(xs: seq<PyStr>): seq<PyStr>
  {
    if xs == [] then [] else Place(xs[0], Sorted(xs[1..]))
  }

  lemma {:induction false} PlaceSorts(x: PyStr, xs: seq<PyStr>)
    requires SortedUnique(xs)
    ensures SortedUnique(Place(x, xs))
    ensures forall y :: y in Place(x, xs) <==> y == x || y in xs
  {
    if xs != [] && x != xs[0] {
      var placed := Place(x, xs);
      if Less(x, xs[0]) {
        forall j | 0 <= j < |xs| ensures Less(x, xs[j]) {
          LessIsStrictOrder(x, xs[0], xs[j]);
        }
      } else {
        LessIsStrictOrder(x, xs[0], xs[0]);
        PlaceSorts(x, xs[1..]);
        var rest := Place(x, xs[1..]);
        forall y | y in rest ensures Less(xs[0], y) {
          assert y == x || y in xs[1..];
        }
        assert placed == [xs[0]] + rest;
        forall y ensures y in placed <==> y == x || y in xs {
          assert xs == [xs[0]] + xs[1..];
        }
      }
    }
  }

  lemma {:induction false} SortedSorts(xs: seq<PyStr>)
    ensures SortedUnique(Sorted(xs))
    ensures forall y :: y in Sorted(xs) <==> y in xs
  {
    if xs != [] {
      SortedSorts(xs[1..]);
      PlaceSorts(xs[0], Sorted(xs[1..]));
      assert xs == [xs[0]] + xs[1..];
    }
  }

  /** Two sorted lists without duplicates are equal when they have the same elements. */
  lemma {:induction false} SameElementsSameList(a: seq<PyStr>, b: seq<PyStr>)
    requires SortedUnique(a) && SortedUnique(b)
    requires forall x :: x in a <==> x in b
    ensures a == b
    decreases |a|
  {
    assert a == [] || a[0] in b;
    assert b == [] || b[0] in a;
    if a != [] {
      FirstsAgree(a, b);
      assert a == [a[0]] + a[1..] && b == [b[0]] + b[1..];
      forall x ensures x in a[1..] <==> x in b[1..] {
        NotAgain(a, x);
        NotAgain(b, x);
      }
      SameElementsSameList(a[1..], b[1..]);
    }
  }

  lemma NotAgain(xs: seq<PyStr>, x: PyStr)
    requires SortedUnique(xs) && xs != []
    ensures x in xs[1..] <==> x in xs && x != xs[0]
  {
    assert xs == [xs[0]] + xs[1..];
    LessIsStrictOrder(xs[0], xs[0], xs[0]);
    if x in xs[1..] {
      var k :| 0 <= k < |xs[1..]| && xs[1..][k] == x;
      assert Less(xs[0], xs[k + 1]);
    }
  }

  lemma FirstsAgree(a: seq<PyStr>, b: seq<PyStr>)
    requires SortedUnique(a) && SortedUnique(b) && a != [] && b != []
    requires a[0] in b && b[0] in a
    ensures a[0] == b[0]
  {
    var i :| 0 <= i < |a| && a[i] == b[0];
    var j :| 0 <= j < |b| && b[j] == a[0];
    if i > 0 && j > 0 {
      LessIsStrictOrder(a[0], b[0], a[0]);
    }
  }
}
