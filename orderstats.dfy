/**
 * The order statistics DIAMetric computes: the first-crossing percentile of a
 * cumulative sum (TIC-weighted retention-time percentiles and histogram
 * quartiles), sorting, and floor-index quartiles of a sorted array.
 */
module OrderStatistics {
  import opened Basics

  /** Sum of the first `n` weights, accumulated left to right. */
  function PrefixSum(w: seq<real>, n: nat): real
    requires n <= |w|
  {
    if n == 0 then 0.0 else PrefixSum(w, n - 1) + w[n - 1]
  }

  /** Sum of all the weights. */
  function Sum(w: seq<real>): real
  {
    PrefixSum(w, |w|)
  }

  predicate NonNegative(w: seq<real>)
  {
    forall i :: 0 <= i < |w| ==> w[i] >= 0.0
  }

  /**
   * Element `i` is where the running sum crosses `t`: the sum before it is
   * below `t` and the sum including it reaches `t`.
   */
  predicate Crosses(w: seq<real>, i: nat, t: real)
    requires i < |w|
  {
    PrefixSum(w, i) < t <= PrefixSum(w, i + 1)
  }

  /**
   * The index a left-to-right scan over the first `n` elements remembers: each
   * crossing overwrites the previous one, so this is the last crossing before
   * `n`, or None when there is none.
   */
  function CrossingBefore(w: seq<real>, n: nat, t: real): (r: Option<nat>)
    requires n <= |w|
    ensures r.Some? ==> r.value < n
  {
    if n == 0 then None
    else if Crosses(w, n - 1, t) then Some(n - 1)
    else CrossingBefore(w, n - 1, t)
  }

  /** CrossingBefore finds a crossing when there is one, and no crossing comes after it. */
  lemma {:induction false} CrossingBeforeIsLast(w: seq<real>, n: nat, t: real)
    requires n <= |w|
    ensures var r := CrossingBefore(w, n, t);
      && (r.Some? ==> Crosses(w, r.value, t))
      && (r.Some? ==> forall j :: r.value < j < n ==> !Crosses(w, j, t))
      && (r.None? ==> forall j :: 0 <= j < n ==> !Crosses(w, j, t))
  {
    if n > 0 && !Crosses(w, n - 1, t) {
      CrossingBeforeIsLast(w, n - 1, t);
    }
  }

  /** The crossing of `t` that a scan over all of `w` remembers. */
  function LastCrossing(w: seq<real>, t: real): Option<nat>
  {
    CrossingBefore(w, |w|, t)
  }

  /** With non-negative weights the running sum never decreases. */
  lemma {:induction false} PrefixSumMonotone(w: seq<real>, i: nat, j: nat)
    requires NonNegative(w) && i <= j <= |w|
    ensures PrefixSum(w, i) <= PrefixSum(w, j)
    decreases j - i
  {
    if i < j {
      PrefixSumMonotone(w, i, j - 1);
    }
  }

  /** With non-negative weights, a crossing before `n` exists exactly when 0 < t <= PrefixSum(w, n). */
  lemma {:induction false} CrossingBeforeExists(w: seq<real>, n: nat, t: real)
    requires NonNegative(w) && n <= |w|
    ensures CrossingBefore(w, n, t).Some? <==> 0.0 < t <= PrefixSum(w, n)
  {
    if n > 0 {
      var m := n - 1;
      CrossingBeforeExists(w, m, t);
      PrefixSumMonotone(w, 0, m);
    }
  }

  /**
   * With non-negative weights the threshold `t` is crossed exactly once when
   * 0 < t <= Sum(w), and never otherwise; the crossing is the first element at
   * which the running sum, inclusive, reaches `t`.
   */
  lemma CrossingExactlyOnce(w: seq<real>, t: real)
    requires NonNegative(w)
    ensures LastCrossing(w, t).Some? <==> 0.0 < t <= Sum(w)
    ensures LastCrossing(w, t).Some? ==>
      var i := LastCrossing(w, t).value;
      && PrefixSum(w, i + 1) >= t
      && (forall j :: 0 <= j <= i ==> PrefixSum(w, j) < t)
      && (forall j :: 0 <= j < |w| && Crosses(w, j, t) ==> j == i)
  {
    CrossingBeforeExists(w, |w|, t);
    CrossingBeforeIsLast(w, |w|, t);
    if LastCrossing(w, t).Some? {
      var i := LastCrossing(w, t).value;
      forall j | 0 <= j <= i ensures PrefixSum(w, j) < t {
        PrefixSumMonotone(w, j, i);
      }
    }
  }

  /**
   * Raising the threshold never moves the crossing earlier: this is why the
   * 25th, 50th and 75th percentiles come out in order.
   */
  lemma CrossingMonotone(w: seq<real>, t1: real, t2: real)
    requires NonNegative(w) && 0.0 < t1 <= t2 <= Sum(w)
    ensures LastCrossing(w, t1).Some? && LastCrossing(w, t2).Some?
    ensures LastCrossing(w, t1).value <= LastCrossing(w, t2).value
  {
    CrossingExactlyOnce(w, t1);
    CrossingExactlyOnce(w, t2);
  }

  /** An element at which the running sum crosses a threshold carries positive weight. */
  lemma CrossingHasWeight(w: seq<real>, i: nat, t: real)
    requires i < |w| && Crosses(w, i, t)
    ensures w[i] > 0.0
  {
  }

  // ----- sorting -----

  predicate Sorted(s: seq<real>)
  {
    forall i, j :: 0 <= i < j < |s| ==> s[i] <= s[j]
  }

  /** `s` with `x` placed before the first element not smaller than it. */
  function Insert(s: seq<real>, x: real): (r: seq<real>)
    ensures |r| == |s| + 1
  {
    if s == [] then [x]
    else if x <= s[0] then [x] + s
    else [s[0]] + Insert(s[1..], x)
  }

  /** The ascending rearrangement of `s` (what Array.Sort leaves in the array). */
  function SortSeq(s: seq<real>): (r: seq<real>)
    ensures |r| == |s|
  {
    if s == [] then [] else Insert(SortSeq(s[1..]), s[0])
  }

  /** Every element of `s` is at least `y`. */
  predicate AllAtLeast(s: seq<real>, y: real)
  {
    forall i :: 0 <= i < |s| ==> y <= s[i]
  }

  /** A sorted sequence behind a head no larger than any of its elements is sorted. */
  lemma SortedCons(y: real, t: seq<real>)
    requires Sorted(t) && AllAtLeast(t, y)
    ensures Sorted([y] + t)
  {
    var r := [y] + t;
    assert forall i :: 0 < i < |r| ==> r[i] == t[i - 1];
  }

  /** The tail of a sorted sequence is sorted and bounded below by its head. */
  lemma SortedTail(s: seq<real>)
    requires Sorted(s) && s != []
    ensures Sorted(s[1..]) && AllAtLeast(s[1..], s[0])
  {
  }

  /** Inserting an element no smaller than a lower bound keeps the bound. */
  lemma {:induction false} InsertBounded(s: seq<real>, x: real, y: real)
    requires AllAtLeast(s, y) && y <= x
    ensures AllAtLeast(Insert(s, x), y)
  {
    if s != [] && x > s[0] {
      InsertBounded(s[1..], x, y);
    }
  }

  /** Inserting adds exactly one occurrence of `x`. */
  lemma {:induction false} InsertPerm(s: seq<real>, x: real)
    ensures multiset(Insert(s, x)) == multiset(s) + multiset{x}
  {
    if s != [] {
      assert s == [s[0]] + s[1..];
      if x > s[0] {
        InsertPerm(s[1..], x);
      }
    }
  }

  /** Inserting into a sorted sequence keeps it sorted and adds exactly `x`. */
  lemma {:induction false} InsertSorted(s: seq<real>, x: real)
    requires Sorted(s)
    ensures Sorted(Insert(s, x))
    ensures multiset(Insert(s, x)) == multiset(s) + multiset{x}
  {
    InsertPerm(s, x);
    if s == [] {
    } else if x <= s[0] {
      SortedCons(x, s);
    } else {
      SortedTail(s);
      InsertSorted(s[1..], x);
      InsertBounded(s[1..], x, s[0]);
      SortedCons(s[0], Insert(s[1..], x));
    }
  }

  /** SortSeq is sorted and a permutation of its input. */
  lemma {:induction false} SortSeqSorted(s: seq<real>)
    ensures Sorted(SortSeq(s))
    ensures multiset(SortSeq(s)) == multiset(s)
  {
    if s != [] {
      assert s == [s[0]] + s[1..];
      SortSeqSorted(s[1..]);
      InsertSorted(SortSeq(s[1..]), s[0]);
    }
  }

  /** The head of a sorted sequence is at most each of its elements. */
  lemma SortedHeadIsMin(a: seq<real>, x: real)
    requires Sorted(a) && x in a
    ensures a[0] <= x
  {
    var k :| 0 <= k < |a| && a[k] == x;
  }

  /** A non-empty sequence is its head followed by its tail, which is sorted when it is. */
  lemma HeadAndTail(a: seq<real>)
    requires a != []
    ensures a == [a[0]] + a[1..]
    ensures multiset(a[1..]) == multiset(a) - multiset{a[0]}
    ensures Sorted(a) ==> Sorted(a[1..])
  {
    assert a == [a[0]] + a[1..];
  }

  /** A multiset has only one ascending arrangement. */
  lemma {:induction false} SortedUnique(a: seq<real>, b: seq<real>)
    requires Sorted(a) && Sorted(b) && multiset(a) == multiset(b)
    ensures a == b
  {
    if a == [] || b == [] {
      assert |a| == |multiset(a)| == |multiset(b)| == |b|;
    } else {
      assert a[0] in multiset(b) && b[0] in multiset(a);
      SortedHeadIsMin(a, b[0]);
      SortedHeadIsMin(b, a[0]);
      var x := a[0];
      assert x == b[0];
      HeadAndTail(a);
      HeadAndTail(b);
      var ta, tb := a[1..], b[1..];
      assert multiset(ta) == multiset(tb);
      SortedUnique(ta, tb);
    }
  }

  /**
   * One step of insertion sort: sinks `a[i]` into the sorted prefix `a[..i]`
   * by adjacent swaps.
   */
  method SinkInto(a: array<real>, i: int)
    requires 0 <= i < a.Length && Sorted(a[..i])
    modifies a
    ensures Sorted(a[..i + 1])
    ensures multiset(a[..]) == multiset(old(a[..]))
  {
    var j := i;
    while j > 0 && a[j - 1] > a[j]
      invariant 0 <= j <= i
      invariant forall p, q :: 0 <= p < q <= i && p != j && q != j ==> a[p] <= a[q]
      invariant forall q :: j < q <= i ==> a[j] < a[q]
      invariant multiset(a[..]) == multiset(old(a[..]))
    {
      SwapDown(a, j);
      j := j - 1;
    }
  }

  /** Exchanges `a[j - 1]` and `a[j]`, leaving the rest of the array as it was. */
  method SwapDown(a: array<real>, j: int)
    requires 0 < j < a.Length
    modifies a
    ensures a[j - 1] == old(a[j]) && a[j] == old(a[j - 1])
    ensures forall p :: 0 <= p < a.Length && p != j - 1 && p != j ==> a[p] == old(a[p])
    ensures multiset(a[..]) == multiset(old(a[..]))
  {
    a[j - 1], a[j] := a[j], a[j - 1];
  }

  /** Array.Sort: rearranges the array into ascending order. */
  method SortInPlace(a: array<real>)
    modifies a
    ensures a[..] == SortSeq(old(a[..]))
  {
    var i := 0;
    while i < a.Length
      invariant 0 <= i <= a.Length
      invariant Sorted(a[..i])
      invariant multiset(a[..]) == multiset(old(a[..]))
    {
      SinkInto(a, i);
      i := i + 1;
    }
    assert a[..i] == a[..];
    SortSeqSorted(old(a[..]));
    SortedUnique(a[..], SortSeq(old(a[..])));
  }

  // ----- floor-index quartiles -----

  /**
   * For every length n >= 1 the indices n/4, n/2, n/4 + n/2 and n - 1 are in
   * range and ascending.
   */
  lemma QuartileIndicesInRange(n: int)
    requires n >= 1
    ensures 0 <= n / 4 <= n / 2 <= n / 4 + n / 2 <= n - 1
  {
  }

  /** The elements at the floor indices n/4, n/2, n/4 + n/2 and n - 1 of `s`. */
  function QuartileReads(s: seq<real>): (real, real, real, real)
    requires s != []
  {
    var n := |s|;
    (s[n / 4], s[n / 2], s[n / 4 + n / 2], s[n - 1])
  }

  /** The last element of the sorted sequence is the largest element, and is one of them. */
  lemma SortedLastIsMax(s: seq<real>)
    requires s != []
    ensures SortSeq(s)[|s| - 1] in s
    ensures forall i :: 0 <= i < |s| ==> s[i] <= SortSeq(s)[|s| - 1]
  {
    var r := SortSeq(s);
    SortSeqSorted(s);
    assert r[|s| - 1] in multiset(s);
    forall i | 0 <= i < |s| ensures s[i] <= r[|s| - 1] {
      assert s[i] in multiset(r);
      var k :| 0 <= k < |r| && r[k] == s[i];
    }
  }

  /** The running maximum that starts from 0 and takes every larger element. */
  function RunningMax(w: seq<real>): real
  {
    if w == [] then 0.0
    else if w[|w| - 1] > RunningMax(w[..|w| - 1]) then w[|w| - 1]
    else RunningMax(w[..|w| - 1])
  }

  lemma {:induction false} RunningMaxBounds(w: seq<real>)
    ensures RunningMax(w) == 0.0 || RunningMax(w) in w
    ensures forall i :: 0 <= i < |w| ==> w[i] <= RunningMax(w)
  {
    if w != [] {
      var p := w[..|w| - 1];
      RunningMaxBounds(p);
      assert forall i :: 0 <= i < |p| ==> w[i] == p[i];
      assert forall x :: x in p ==> x in w;
    }
  }

  /**
   * For non-negative counts, the running maximum kept while scanning agrees
   * with the last element after sorting.
   */
  lemma RunningMaxIsSortedLast(w: seq<real>)
    requires w != [] && NonNegative(w)
    ensures RunningMax(w) == SortSeq(w)[|w| - 1]
  {
    RunningMaxBounds(w);
    SortedLastIsMax(w);
    var m := SortSeq(w)[|w| - 1];
    var k :| 0 <= k < |w| && w[k] == m;
    if RunningMax(w) != 0.0 {
      var j :| 0 <= j < |w| && w[j] == RunningMax(w);
    }
  }
}
