/**
 * Facts about Python lists used by the engine and the validators:
 * duplicate-freedom, `set(list)`, and `sorted(list)` on integers.
 */
module Seqs {

  /** No element occurs twice. */
  ghost predicate NoDuplicates<T>(s: seq<T>) {
    forall i, j :: 0 <= i < j < |s| ==> s[i] != s[j]
  }

  /** Python's `set(value)`. */
  function ToSet<T>(s: seq<T>): set<T> {
    set x | x in s
  }

  lemma ToSetCons<T>(s: seq<T>)
    requires s != []
    ensures ToSet(s) == {s[0]} + ToSet(s[1..])
  {
    assert forall x :: x in s <==> x == s[0] || x in s[1..];
  }

  /** A set built from a list never has more elements than the list. */
  lemma {:induction false} ToSetSizeAtMost<T>(s: seq<T>)
    ensures |ToSet(s)| <= |s|
  {
    if s != [] {
      ToSetCons(s);
      ToSetSizeAtMost(s[1..]);
    }
  }

  /**
   * `len(value) == len(set(value))` holds exactly when the list has no
   * repeated element: the test the discard validator relies on.
   */
  lemma {:induction false} DistinctIffSetSize<T>(s: seq<T>)
    ensures |ToSet(s)| == |s| <==> NoDuplicates(s)
  {
    if s != [] {
      ToSetCons(s);
      DistinctIffSetSize(s[1..]);
      if s[0] in s[1..] {
        ToSetSizeAtMost(s[1..]);
        assert ToSet(s) == ToSet(s[1..]);
        var k :| 0 <= k < |s[1..]| && s[1..][k] == s[0];
        assert s[0] == s[k + 1];
      } else {
        assert s[0] !in ToSet(s[1..]);
        if NoDuplicates(s[1..]) {
          forall i, j | 0 <= i < j < |s| ensures s[i] != s[j] {
            if i == 0 {
              assert s[j] == s[1..][j - 1];
            } else {
              assert s[i] == s[1..][i - 1] && s[j] == s[1..][j - 1];
            }
          }
        } else {
          var i, j :| 0 <= i < j < |s[1..]| && s[1..][i] == s[1..][j];
          assert s[i + 1] == s[j + 1];
        }
      }
    }
  }

  /** Every element of `s` lies in the half-open range [lo, hi). */
  predicate AllInRange(s: seq<int>, lo: int, hi: int) {
    forall i :: 0 <= i < |s| ==> lo <= s[i] < hi
  }

  /** A list whose elements all occur in an in-range list is in range too. */
  lemma InRangeByMembership(a: seq<int>, b: seq<int>, lo: int, hi: int)
    requires forall x :: x in a ==> x in b
    requires AllInRange(b, lo, hi)
    ensures AllInRange(a, lo, hi)
  {
    forall i | 0 <= i < |a| ensures lo <= a[i] < hi {
      assert a[i] in a;
    }
  }

  /** The integers of [lo, hi), as a set. */
  function Range(lo: int, hi: int): set<int>
    decreases hi - lo
  {
    if lo >= hi then {} else {lo} + Range(lo + 1, hi)
  }

  lemma {:induction false} RangeFacts(lo: int, hi: int)
    requires lo <= hi
    ensures |Range(lo, hi)| == hi - lo
    ensures forall x :: x in Range(lo, hi) <==> lo <= x < hi
    decreases hi - lo
  {
    if lo < hi {
      RangeFacts(lo + 1, hi);
    }
  }

  /** Distinct integers drawn from [lo, hi) number at most hi - lo. */
  lemma {:induction false} DistinctInRangeBound(s: seq<int>, lo: int, hi: int)
    requires lo <= hi
    requires AllInRange(s, lo, hi) && NoDuplicates(s)
    ensures |s| <= hi - lo
  {
    DistinctIffSetSize(s);
    RangeFacts(lo, hi);
    assert ToSet(s) <= Range(lo, hi);
    SubsetSize(ToSet(s), Range(lo, hi));
  }

  lemma {:induction false} SubsetSize<T>(a: set<T>, b: set<T>)
    requires a <= b
    ensures |a| <= |b|
    decreases b
  {
    if a != {} {
      var x :| x in a;
      SubsetSize(a - {x}, b - {x});
    }
  }

  /** A set inside another of the same size is that set. */
  lemma SubsetSameSize<T>(a: set<T>, b: set<T>)
    requires a <= b && |a| == |b|
    ensures a == b
  {
    if a != b {
      assert !(forall x :: x in a <==> x in b);
      var x :| x in b && x !in a;
      SubsetSize(a, b - {x});
      assert false;
    }
  }

  lemma {:induction false} NoDuplicatesConcat<T>(a: seq<T>, b: seq<T>)
    requires NoDuplicates(a) && NoDuplicates(b)
    requires forall x :: x in a ==> x !in b
    ensures NoDuplicates(a + b)
  {
    forall i, j | 0 <= i < j < |a + b| ensures (a + b)[i] != (a + b)[j] {
      if i < |a| && j >= |a| {
        assert (a + b)[i] in a && (a + b)[j] == b[j - |a|];
      }
    }
  }

  /**
   * `n` distinct indices drawn from [0, n) use every index: a permutation
   * of 0..n-1 is onto.
   */
  lemma PermutationIsOnto(perm: seq<int>, n: nat)
    requires |perm| == n && AllInRange(perm, 0, n) && NoDuplicates(perm)
    ensures forall j :: 0 <= j < n ==> j in perm
  {
    DistinctIffSetSize(perm);
    RangeFacts(0, n);
    assert ToSet(perm) <= Range(0, n);
    SubsetSameSize(ToSet(perm), Range(0, n));
    forall j | 0 <= j < n ensures j in perm {
      assert j in ToSet(perm);
    }
  }

  /** Removing the entry at `i` removes one occurrence of it. */
  lemma MultisetRemoveAt<T>(s: seq<T>, i: int)
    requires 0 <= i < |s|
    ensures multiset(s) == multiset(s[..i] + s[i + 1..]) + multiset{s[i]}
  {
    assert s == s[..i] + [s[i]] + s[i + 1..];
  }

  /**
   * Removing from a permutation of 0..n-1 the entry that holds n-1 leaves a
   * permutation of 0..n-2.
   */
  lemma PermutationRemoveLast(perm: seq<int>, n: int, i0: int)
    requires |perm| == n && AllInRange(perm, 0, n) && NoDuplicates(perm)
    requires 0 <= i0 < n && perm[i0] == n - 1
    ensures var p := perm[..i0] + perm[i0 + 1..];
      |p| == n - 1 && AllInRange(p, 0, n - 1) && NoDuplicates(p)
  {
    var p := perm[..i0] + perm[i0 + 1..];
    forall k | 0 <= k < n - 1 ensures 0 <= p[k] < n - 1 {
      var g := if k < i0 then k else k + 1;
      assert p[k] == perm[g];
      if g < i0 { assert perm[g] != perm[i0]; } else { assert perm[i0] != perm[g]; }
    }
    forall a, b | 0 <= a < b < n - 1 ensures p[a] != p[b] {
      var ga, gb := (if a < i0 then a else a + 1), (if b < i0 then b else b + 1);
      assert ga < gb && p[a] == perm[ga] && p[b] == perm[gb];
    }
  }

  /**
   * Dropping entry i0 from both `perm` and `r`, where perm[i0] names the last
   * position of `d`, keeps `r` reading `d` without its last element.
   */
  lemma ReadThroughAfterRemoval<T>(d: seq<T>, perm: seq<int>, r: seq<T>, i0: int)
    requires |perm| == |d| && |r| == |d| && 0 <= i0 < |d|
    requires forall i :: 0 <= i < |r| ==> 0 <= perm[i] < |d| && r[i] == d[perm[i]]
    requires forall i :: 0 <= i < |perm| && i != i0 ==> perm[i] != |d| - 1
    ensures var p, q := perm[..i0] + perm[i0 + 1..], r[..i0] + r[i0 + 1..];
      forall k :: 0 <= k < |d| - 1 ==> 0 <= p[k] < |d| - 1 && q[k] == d[..|d| - 1][p[k]]
  {
    var p, q := perm[..i0] + perm[i0 + 1..], r[..i0] + r[i0 + 1..];
    forall k | 0 <= k < |d| - 1 ensures 0 <= p[k] < |d| - 1 && q[k] == d[..|d| - 1][p[k]] {
      var g := if k < i0 then k else k + 1;
      assert q[k] == r[g] && p[k] == perm[g];
    }
  }

  /**
   * Reading `d` through a permutation of its positions yields every element
   * exactly as often as `d` holds it. By induction on |d|: the position that
   * holds the last element of `d` is removed from both sides.
   */
  lemma {:induction false} PermutedMultiset<T>(d: seq<T>, perm: seq<int>, r: seq<T>)
    requires |perm| == |d| && AllInRange(perm, 0, |d|) && NoDuplicates(perm)
    requires |r| == |d| && forall i :: 0 <= i < |r| ==> r[i] == d[perm[i]]
    ensures multiset(r) == multiset(d)
    decreases |d|
  {
    if d != [] {
      var n := |d|;
      PermutationIsOnto(perm, n);
      assert n - 1 in perm;
      var i0 :| 0 <= i0 < n && perm[i0] == n - 1;
      var perm' := perm[..i0] + perm[i0 + 1..];
      var r' := r[..i0] + r[i0 + 1..];
      var d' := d[..n - 1];
      PermutationRemoveLast(perm, n, i0);
      ReadThroughAfterRemoval(d, perm, r, i0);
      PermutedMultiset(d', perm', r');
      MultisetRemoveAt(r, i0);
      MultisetRemoveAt(d, n - 1);
      assert d[..n - 1] + d[n..] == d';
    }
  }

  /** Non-decreasing order, as produced by `sorted`. */
  ghost predicate Ascending(s: seq<int>) {
    forall i, j :: 0 <= i < j < |s| ==> s[i] <= s[j]
  }

  /** Inserts `x` before the first element not smaller than it. */
  function Insert(x: int, s: seq<int>): seq<int> {
    if s == [] || x <= s[0] then [x] + s else [s[0]] + Insert(x, s[1..])
  }

  /** Python's `sorted` on a list of integers (insertion sort). */
  function Sort(s: seq<int>): seq<int> {
    if s == [] then [] else Insert(s[0], Sort(s[1..]))
  }

  lemma {:induction false} InsertMultiset(x: int, s: seq<int>)
    ensures multiset(Insert(x, s)) == multiset(s) + multiset{x}
  {
    if s != [] && x > s[0] {
      InsertMultiset(x, s[1..]);
      assert s == [s[0]] + s[1..];
    }
  }

  lemma {:induction false} InsertAscending(x: int, s: seq<int>)
    requires Ascending(s)
    ensures Ascending(Insert(x, s))
  {
    if s != [] && x > s[0] {
      InsertAscending(x, s[1..]);
      InsertMultiset(x, s[1..]);
      var t := Insert(x, s[1..]);
      forall k | 0 <= k < |t| ensures s[0] <= t[k] {
        assert t[k] in multiset(t);
        assert t[k] == x || t[k] in multiset(s[1..]);
      }
    }
  }

  /** `sorted` returns the same elements, each as often, in ascending order. */
  lemma {:induction false} SortFacts(s: seq<int>)
    ensures Ascending(Sort(s))
    ensures multiset(Sort(s)) == multiset(s)
  {
    if s != [] {
      SortFacts(s[1..]);
      InsertAscending(s[0], Sort(s[1..]));
      InsertMultiset(s[0], Sort(s[1..]));
      assert s == [s[0]] + s[1..];
    }
  }

  /** Equal multisets carry the same elements, so ranges and distinctness transfer. */
  lemma {:induction false} SameMultisetFacts(a: seq<int>, b: seq<int>)
    requires multiset(a) == multiset(b)
    ensures |a| == |b|
    ensures forall x :: x in a <==> x in b
    ensures NoDuplicates(b) ==> NoDuplicates(a)
  {
    assert |multiset(a)| == |multiset(b)|;
    forall x ensures x in a <==> x in b {
      assert x in a <==> x in multiset(a);
      assert x in b <==> x in multiset(b);
    }
    if NoDuplicates(b) && !NoDuplicates(a) {
      var i, j :| 0 <= i < j < |a| && a[i] == a[j];
      CountTwice(a, i, j);
      AtMostOnce(b, a[i]);
    }
  }

  lemma {:induction false} CountTwice(a: seq<int>, i: int, j: int)
    requires 0 <= i < j < |a| && a[i] == a[j]
    ensures multiset(a)[a[i]] >= 2
  {
    assert a == a[..i] + [a[i]] + a[i + 1..j] + [a[j]] + a[j + 1..];
  }

  lemma {:induction false} AtMostOnce(b: seq<int>, x: int)
    requires NoDuplicates(b)
    ensures multiset(b)[x] <= 1
  {
    if b != [] {
      assert b == [b[0]] + b[1..];
      AtMostOnce(b[1..], x);
      if b[0] == x {
        assert forall k :: 0 <= k < |b[1..]| ==> b[1..][k] == b[k + 1] != x;
      }
    }
  }

  /** How many elements of `s` are smaller than `x`. */
  function CountBelow(s: seq<int>, x: int): (n: nat)
    ensures n <= |s|
    ensures x in s ==> n < |s|
  {
    if s == [] then 0 else (if s[0] < x then 1 else 0) + CountBelow(s[1..], x)
  }

  lemma {:induction false} CountBelowInsert(y: int, s: seq<int>, x: int)
    ensures CountBelow(Insert(y, s), x) == CountBelow(s, x) + (if y < x then 1 else 0)
  {
    if s != [] && y > s[0] {
      CountBelowInsert(y, s[1..], x);
      assert Insert(y, s)[1..] == Insert(y, s[1..]);
    } else {
      assert Insert(y, s)[1..] == s;
    }
  }

  /** Sorting does not change how many elements lie below `x`. */
  lemma {:induction false} CountBelowSort(s: seq<int>, x: int)
    ensures CountBelow(Sort(s), x) == CountBelow(s, x)
  {
    if s != [] {
      CountBelowSort(s[1..], x);
      CountBelowInsert(s[0], Sort(s[1..]), x);
    }
  }

  lemma {:induction false} CountBelowNone(s: seq<int>, x: int)
    requires forall i :: 0 <= i < |s| ==> x <= s[i]
    ensures CountBelow(s, x) == 0
  {
    if s != [] {
      CountBelowNone(s[1..], x);
    }
  }

  /** In an ascending duplicate-free list, exactly k elements lie below s[k]. */
  lemma {:induction false} CountBelowAscending(s: seq<int>, k: int)
    requires Ascending(s) && NoDuplicates(s) && 0 <= k < |s|
    ensures CountBelow(s, s[k]) == k
  {
    var t := s[1..];
    assert Ascending(t) && NoDuplicates(t) by {
      forall i, j | 0 <= i < j < |t| ensures t[i] <= t[j] && t[i] != t[j] {
        assert t[i] == s[i + 1] && t[j] == s[j + 1];
      }
    }
    if k == 0 {
      CountBelowNone(t, s[0]);
    } else {
      assert s[0] < s[k];
      CountBelowAscending(t, k - 1);
      assert t[k - 1] == s[k];
    }
  }

  /**
   * In `sorted(s)` of a duplicate-free list, an element x of `s` sits at the
   * index given by the number of elements of `s` below it.
   */
  lemma SortedPosition(s: seq<int>)
    requires NoDuplicates(s)
    ensures forall x :: x in s ==>
      CountBelow(s, x) < |Sort(s)| && Sort(s)[CountBelow(s, x)] == x
  {
    var order := Sort(s);
    SortFacts(s);
    SameMultisetFacts(order, s);
    forall x | x in s ensures CountBelow(s, x) < |order| && order[CountBelow(s, x)] == x {
      var k :| 0 <= k < |order| && order[k] == x;
      CountBelowSort(s, x);
      CountBelowAscending(order, k);
    }
  }
}
