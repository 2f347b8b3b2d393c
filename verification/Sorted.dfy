/** Strictly sorted sequences are determined by their elements.  Both the
    grouped totals and the leaderboard are pinned down with this. */
module Sorted {

  ghost predicate StrictOrder<T(!new)>(lt: (T, T) -> bool) {
    && (forall x :: !lt(x, x))
    && (forall x, y, z :: lt(x, y) && lt(y, z) ==> lt(x, z))
  }

  ghost predicate SortedBy<T>(lt: (T, T) -> bool, s: seq<T>) {
    forall i, j | 0 <= i < j < |s| :: lt(s[i], s[j])
  }

  lemma HeadFirst<T>(lt: (T, T) -> bool, s: seq<T>)
    requires SortedBy(lt, s) && |s| > 0
    ensures SortedBy(lt, s[1..]) && forall x <- s[1..] :: lt(s[0], x)
  {
    forall x | x in s[1..] ensures lt(s[0], x) {
      var i :| 0 <= i < |s[1..]| && s[1..][i] == x;
      assert lt(s[0], s[i + 1]);
    }
  }

  lemma ConsSorted<T>(lt: (T, T) -> bool, x: T, s: seq<T>)
    requires SortedBy(lt, s) && forall y <- s :: lt(x, y)
    ensures SortedBy(lt, [x] + s)
  {
    forall i, j | 0 <= i < j < |[x] + s| ensures lt(([x] + s)[i], ([x] + s)[j]) {
      assert ([x] + s)[j] == s[j - 1] && s[j - 1] in s;
    }
  }

  lemma {:induction false} SortedUnique<T(!new)>(lt: (T, T) -> bool, a: seq<T>, b: seq<T>)
    requires StrictOrder(lt) && SortedBy(lt, a) && SortedBy(lt, b)
    requires forall x :: x in a <==> x in b
    ensures a == b
  {
    assert |b| > 0 ==> b[0] in a;
    if a != [] {
      assert a[0] in b;
      SameHead(lt, a, b);
      TailElements(lt, a, b);
      SortedUnique(lt, a[1..], b[1..]);
    }
  }

  lemma SameHead<T(!new)>(lt: (T, T) -> bool, a: seq<T>, b: seq<T>)
    requires StrictOrder(lt) && SortedBy(lt, a) && SortedBy(lt, b)
    requires |a| > 0 && |b| > 0 && a[0] in b && b[0] in a
    ensures a[0] == b[0]
  {
    var j :| 0 <= j < |b| && b[j] == a[0];
    var i :| 0 <= i < |a| && a[i] == b[0];
  }

  lemma TailElements<T(!new)>(lt: (T, T) -> bool, a: seq<T>, b: seq<T>)
    requires StrictOrder(lt) && SortedBy(lt, a) && SortedBy(lt, b)
    requires |a| > 0 && |b| > 0 && a[0] == b[0]
    requires forall x :: x in a <==> x in b
    ensures forall x :: x in a[1..] <==> x in b[1..]
  {
    forall x ensures x in a[1..] <==> x in a && x != a[0] {
      if x in a && x != a[0] {
        var i :| 0 <= i < |a| && a[i] == x;
        assert a[1..][i - 1] == x;
      }
    }
    forall x ensures x in b[1..] <==> x in b && x != b[0] {
      if x in b && x != b[0] {
        var i :| 0 <= i < |b| && b[i] == x;
        assert b[1..][i - 1] == x;
      }
    }
  }

  /** The elements before an element are exactly the smaller ones, so the place
      of an element counts them. */
  lemma PlaceCounts<T(!new)>(lt: (T, T) -> bool, s: seq<T>, k: nat)
    requires StrictOrder(lt) && SortedBy(lt, s) && k < |s|
    ensures (set x | x in s && lt(x, s[k])) == (set x | x in s[..k])
    ensures |set x | x in s[..k]| == k
  {
    forall x ensures x in s && lt(x, s[k]) <==> x in s[..k] {
      if x in s && lt(x, s[k]) {
        var i :| 0 <= i < |s| && s[i] == x;
      }
    }
    DistinctCardinality(lt, s[..k]);
  }

  lemma {:induction false} DistinctCardinality<T(!new)>(lt: (T, T) -> bool, s: seq<T>)
    requires StrictOrder(lt) && SortedBy(lt, s)
    ensures |set x | x in s| == |s|
  {
    if s != [] {
      var init, last := s[..|s| - 1], s[|s| - 1];
      DistinctCardinality(lt, init);
      assert (set x | x in s) == (set x | x in init) + {last};
    }
  }
}
