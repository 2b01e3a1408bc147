/** Sorting a finite set into a sequence, the shape of Go code that collects map keys or
    directory entries and then calls `sort.Strings` / `sort.Slice` on them. */
module Sorting {

  /** `lt` is a strict total order on the elements of `s`. */
  ghost predicate StrictTotalOn<T(!new)>(lt: (T, T) -> bool, s: set<T>) {
    (forall a | a in s :: !lt(a, a))
    && (forall a, b | a in s && b in s :: a == b || lt(a, b) || lt(b, a))
    && (forall a, b, c | a in s && b in s && c in s && lt(a, b) && lt(b, c) :: lt(a, c))
  }

  /** Every earlier element is strictly below every later one (so there are no duplicates). */
  predicate Increasing<T>(r: seq<T>, lt: (T, T) -> bool) {
    forall i, j | 0 <= i < j < |r| :: lt(r[i], r[j])
  }

  /** `r` lists exactly the elements of `s`, in increasing order. */
  ghost predicate SortedListing<T(!new)>(r: seq<T>, s: set<T>, lt: (T, T) -> bool) {
    Increasing(r, lt) && (forall x :: x in r <==> x in s)
  }

  lemma {:induction false} IncreasingDistinct<T>(r: seq<T>, lt: (T, T) -> bool, i: int, j: int)
    requires Increasing(r, lt) && 0 <= i < |r| && 0 <= j < |r| && i != j
    requires forall k | 0 <= k < |r| :: !lt(r[k], r[k])
    ensures r[i] != r[j]
  {
    if i < j { assert lt(r[i], r[j]); } else { assert lt(r[j], r[i]); }
  }

  /** A sorted listing of a set has one entry per element. */
  lemma {:induction false} SortedListingLength<T(!new)>(r: seq<T>, s: set<T>, lt: (T, T) -> bool)
    requires StrictTotalOn(lt, s) && SortedListing(r, s, lt)
    ensures |r| == |s|
    decreases |r|
  {
    if |r| > 0 {
      var r' := r[1..];
      var s' := s - {r[0]};
      forall x ensures x in r' <==> x in s' {
        if x in r' {
          var k :| 0 <= k < |r'| && r'[k] == x;
          IncreasingDistinct(r, lt, 0, k + 1);
        }
        if x in s' {
          var k :| 0 <= k < |r| && r[k] == x;
          assert k != 0;
          assert r'[k - 1] == x;
        }
      }
      assert Increasing(r', lt) by {
        forall i, j | 0 <= i < j < |r'| ensures lt(r'[i], r'[j]) { assert lt(r[i + 1], r[j + 1]); }
      }
      SortedListingLength(r', s', lt);
    }
  }

  lemma HeadIsLeast<T(!new)>(r: seq<T>, s: set<T>, lt: (T, T) -> bool, x: T)
    requires SortedListing(r, s, lt) && x in s
    ensures |r| > 0 && (x == r[0] || lt(r[0], x))
  {
    var k :| 0 <= k < |r| && r[k] == x;
    if k > 0 { assert lt(r[0], r[k]); }
  }

  /** A set has at most one sorted listing: sorting is deterministic. */
  lemma {:induction false} SortedListingUnique<T(!new)>(r1: seq<T>, r2: seq<T>, s: set<T>, lt: (T, T) -> bool)
    requires StrictTotalOn(lt, s)
    requires SortedListing(r1, s, lt) && SortedListing(r2, s, lt)
    ensures r1 == r2
    decreases |r1|
  {
    SortedListingLength(r1, s, lt);
    SortedListingLength(r2, s, lt);
    if |r1| > 0 {
      // both heads are the least element of s
      HeadIsLeast(r1, s, lt, r2[0]);
      HeadIsLeast(r2, s, lt, r1[0]);
      assert r1[0] == r2[0];
      var s' := s - {r1[0]};
      forall x ensures x in r1[1..] <==> x in s' {
        if x in r1[1..] {
          var k :| 0 <= k < |r1[1..]| && r1[1..][k] == x;
          assert lt(r1[0], r1[k + 1]);
        }
        if x in s' {
          var k :| 0 <= k < |r1| && r1[k] == x;
          assert r1[1..][k - 1] == x;
        }
      }
      forall x ensures x in r2[1..] <==> x in s' {
        if x in r2[1..] {
          var k :| 0 <= k < |r2[1..]| && r2[1..][k] == x;
          assert lt(r2[0], r2[k + 1]);
        }
        if x in s' {
          var k :| 0 <= k < |r2| && r2[k] == x;
          assert r2[1..][k - 1] == x;
        }
      }
      assert Increasing(r1[1..], lt) by {
        forall i, j | 0 <= i < j < |r1[1..]| ensures lt(r1[1..][i], r1[1..][j]) { assert lt(r1[i + 1], r1[j + 1]); }
      }
      assert Increasing(r2[1..], lt) by {
        forall i, j | 0 <= i < j < |r2[1..]| ensures lt(r2[1..][i], r2[1..][j]) { assert lt(r2[i + 1], r2[j + 1]); }
      }
      SortedListingUnique(r1[1..], r2[1..], s', lt);
      assert r1 == [r1[0]] + r1[1..] && r2 == [r2[0]] + r2[1..];
    }
  }

  /** `x` is the least element of `s`. */
  ghost predicate IsLeast<T(!new)>(x: T, s: set<T>, lt: (T, T) -> bool) {
    x in s && forall y | y in s :: y == x || lt(x, y)
  }

  /** A finite set has a least element under a strict total order. */
  lemma {:induction false} LeastExists<T(!new)>(s: set<T>, lt: (T, T) -> bool)
    requires StrictTotalOn(lt, s) && s != {}
    ensures exists x :: IsLeast(x, s, lt)
    decreases |s|
  {
    var a :| a in s;
    var rest := s - {a};
    if rest == {} {
      assert s == rest + {a};
      assert IsLeast(a, s, lt);
    } else {
      LeastExists(rest, lt);
      var b :| IsLeast(b, rest, lt);
      LeastOfTwo(s, lt, a, b);
    }
  }

  lemma LeastOfTwo<T(!new)>(s: set<T>, lt: (T, T) -> bool, a: T, b: T)
    requires StrictTotalOn(lt, s) && a in s && IsLeast(b, s - {a}, lt)
    ensures IsLeast(a, s, lt) || IsLeast(b, s, lt)
  {
    if lt(a, b) {
      forall y | y in s ensures y == a || lt(a, y) {
        if y != a && y != b { assert y in s - {a}; assert lt(b, y); }
      }
    } else {
      assert lt(b, a);
      forall y | y in s ensures y == b || lt(b, y) {
        if y != a { assert y in s - {a}; }
      }
    }
  }

  /** The sorted listing of a set, as a function (for specifications; `SortSet` computes
      it). */
  ghost function SortedOf<T(!new)>(s: set<T>, lt: (T, T) -> bool): (r: seq<T>)
    requires StrictTotalOn(lt, s)
    ensures SortedListing(r, s, lt)
    decreases |s|
  {
    if s == {} then []
    else
      LeastExists(s, lt);
      var x :| IsLeast(x, s, lt);
      var rest := SortedOf(s - {x}, lt);
      assert forall k | 0 <= k < |rest| :: lt(x, rest[k]) by {
        forall k | 0 <= k < |rest| ensures lt(x, rest[k]) { assert rest[k] in s - {x}; }
      }
      assert Increasing([x] + rest, lt) by {
        forall i, j | 0 <= i < j < |[x] + rest| ensures lt(([x] + rest)[i], ([x] + rest)[j]) {
          if i > 0 { assert lt(rest[i - 1], rest[j - 1]); }
        }
      }
      [x] + rest
  }

  /** Sorts the elements of `s` by insertion: each element is placed after every
      element below it. */
  method SortSet<T(==,!new)>(s: set<T>, lt: (T, T) -> bool) returns (r: seq<T>)
    requires StrictTotalOn(lt, s)
    ensures SortedListing(r, s, lt)
    ensures |r| == |s|
  {
    r := [];
    var rest := s;
    while rest != {}
      invariant rest <= s
      invariant Increasing(r, lt)
      invariant forall x :: x in r <==> x in s && x !in rest
      decreases |rest|
    {
      var x :| x in rest;
      var i := 0;
      while i < |r| && lt(r[i], x)
        invariant 0 <= i <= |r|
        invariant forall k | 0 <= k < i :: lt(r[k], x)
      {
        i := i + 1;
      }
      // every element from i on is above x
      forall k | i <= k < |r| ensures lt(x, r[k]) {
        assert r[k] in s && r[k] != x;
        if k > i { assert lt(r[i], r[k]); }
      }
      r := r[..i] + [x] + r[i..];
      rest := rest - {x};
    }
    SortedListingLength(r, s, lt);
  }
}
