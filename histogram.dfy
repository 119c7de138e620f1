/**
 * Quartiles of a histogram (the spectrum peak-count distribution of a run):
 * the lowest and highest occupied bins, and the bins at which the running
 * count first reaches a quarter, a half and three quarters of the total.
 */
module Histogram {
  import opened Basics
  import opened OrderStatistics

  /** The bin counts as weights for the running-sum crossing. */
  function Weights(h: seq<int>): (w: seq<real>)
    ensures |w| == |h|
  {
    seq(|h|, i requires 0 <= i < |h| => h[i] as real)
  }

  /** Sum of the first `n` bin counts. */
  function Count(h: seq<int>, n: nat): int
    requires n <= |h|
  {
    if n == 0 then 0 else Count(h, n - 1) + h[n - 1]
  }

  /** The integer running count agrees with the running sum of the weights. */
  lemma {:induction false} CountAsReal(h: seq<int>, n: nat)
    requires n <= |h|
    ensures Count(h, n) as real == PrefixSum(Weights(h), n)
  {
    if n > 0 {
      CountAsReal(h, n - 1);
    }
  }

  /** The first occupied bin among the first `n`. */
  function FirstOccupied(h: seq<int>, n: nat): (r: Option<nat>)
    requires n <= |h|
    ensures r.Some? ==> r.value < n
  {
    if n == 0 then None
    else if FirstOccupied(h, n - 1).Some? then FirstOccupied(h, n - 1)
    else if h[n - 1] > 0 then Some(n - 1)
    else None
  }

  /** The last occupied bin among the first `n`. */
  function LastOccupied(h: seq<int>, n: nat): (r: Option<nat>)
    requires n <= |h|
    ensures r.Some? ==> r.value < n
  {
    if n == 0 then None
    else if h[n - 1] > 0 then Some(n - 1)
    else LastOccupied(h, n - 1)
  }

  /** An index the source leaves at its initial 0 when nothing was found. */
  function OrZero(o: Option<nat>): int
  {
    if o.Some? then o.value else 0
  }

  /** The three counts the quartile bins must reach: C#'s truncating `/`. */
  function Thresholds(total: int): (int, int, int)
  {
    var c1 := TruncDiv(total, 4);
    var c2 := TruncDiv(total, 2);
    (c1, c2, c1 + c2)
  }

  /** The five entries of the array QuartilesOf returns. */
  function QuartileBins(h: seq<int>): (q: seq<int>)
    ensures |q| == 5
  {
    var (c1, c2, c3) := Thresholds(Count(h, |h|));
    var w := Weights(h);
    [ OrZero(FirstOccupied(h, |h|)),
      OrZero(LastCrossing(w, c1 as real)),
      OrZero(LastCrossing(w, c2 as real)),
      OrZero(LastCrossing(w, c3 as real)),
      OrZero(LastOccupied(h, |h|)) ]
  }

  // ----- what the bins mean -----

  predicate NonNegativeCounts(h: seq<int>)
  {
    forall i :: 0 <= i < |h| ==> h[i] >= 0
  }

  /**
   * The values the histogram records, in ascending order: bin `i` contributes
   * `h[i]` copies of `i` (none when its count is not positive).
   */
  function Expand(h: seq<int>, n: nat): seq<int>
    requires n <= |h|
  {
    if n == 0 then []
    else Expand(h, n - 1) + Repeat(n - 1, if h[n - 1] > 0 then h[n - 1] else 0)
  }

  /** `k` copies of `x`. */
  function Repeat(x: int, k: nat): (r: seq<int>)
    ensures |r| == k && forall i :: 0 <= i < k ==> r[i] == x
  {
    if k == 0 then [] else Repeat(x, k - 1) + [x]
  }

  predicate Ascending(s: seq<int>)
  {
    forall i, j :: 0 <= i < j < |s| ==> s[i] <= s[j]
  }

  /** With non-negative counts there are as many recorded values as the total count. */
  lemma {:induction false} ExpandLength(h: seq<int>, n: nat)
    requires NonNegativeCounts(h) && n <= |h|
    ensures |Expand(h, n)| == Count(h, n)
  {
    if n > 0 {
      ExpandLength(h, n - 1);
    }
  }

  /** The recorded values come out in ascending order, each below `n`. */
  lemma {:induction false} ExpandAscending(h: seq<int>, n: nat)
    requires n <= |h|
    ensures Ascending(Expand(h, n))
    ensures forall i :: 0 <= i < |Expand(h, n)| ==> 0 <= Expand(h, n)[i] < n
  {
    if n > 0 {
      ExpandAscending(h, n - 1);
      var e := Expand(h, n - 1);
      var r := Expand(h, n);
      assert forall i :: |e| <= i < |r| ==> r[i] == n - 1;
      assert forall i :: 0 <= i < |e| ==> r[i] == e[i];
    }
  }

  /** The first occupied bin is the smallest recorded value. */
  lemma {:induction false} FirstOccupiedIsSmallest(h: seq<int>, n: nat)
    requires n <= |h|
    ensures FirstOccupied(h, n).Some? <==> Expand(h, n) != []
    ensures Expand(h, n) != [] ==> FirstOccupied(h, n).value == Expand(h, n)[0]
  {
    if n > 0 {
      FirstOccupiedIsSmallest(h, n - 1);
      var e := Expand(h, n - 1);
      if e != [] {
        assert Expand(h, n)[0] == e[0];
      }
    }
  }

  /** The last occupied bin is the largest recorded value. */
  lemma {:induction false} LastOccupiedIsLargest(h: seq<int>, n: nat)
    requires n <= |h|
    ensures LastOccupied(h, n).Some? <==> Expand(h, n) != []
    ensures Expand(h, n) != [] ==> LastOccupied(h, n).value == Expand(h, n)[|Expand(h, n)| - 1]
  {
    if n > 0 {
      LastOccupiedIsLargest(h, n - 1);
      if h[n - 1] <= 0 {
        assert Expand(h, n) == Expand(h, n - 1);
      }
    }
  }

  /**
   * The bin at which the running count crosses `t` (1 <= t <= total) holds
   * the `t`-th smallest recorded value.
   */
  lemma {:induction false} CrossingIsOrderStatistic(h: seq<int>, n: nat, t: int)
    requires NonNegativeCounts(h) && n <= |h|
    requires 1 <= t <= Count(h, n)
    ensures |Expand(h, n)| == Count(h, n)
    ensures CrossingBefore(Weights(h), n, t as real) == Some(Expand(h, n)[t - 1])
  {
    ExpandLength(h, n);
    var m := n - 1;
    ExpandLength(h, m);
    CountAsReal(h, m);
    CountAsReal(h, n);
    var e := Expand(h, m);
    if Count(h, m) < t {
      assert Crosses(Weights(h), m, t as real);
      assert Expand(h, n)[t - 1] == m;
    } else {
      CrossingIsOrderStatistic(h, m, t);
      assert Expand(h, n)[t - 1] == e[t - 1];
    }
  }

  /**
   * What QuartilesOf returns, read off the ascending list of recorded values:
   * the smallest and the largest, and for each threshold c (a quarter, a half,
   * three quarters of the total, truncated) the c-th smallest, or 0 when c is 0.
   */
  lemma QuartileBinsAreOrderStatistics(h: seq<int>)
    requires NonNegativeCounts(h)
    ensures var e := Expand(h, |h|);
      var q := QuartileBins(h);
      var c := Thresholds(|e|);
      && |e| == Count(h, |h|)
      && 0 <= c.0 <= c.1 <= c.2 <= |e|
      && (e != [] ==> q[0] == e[0] && q[4] == e[|e| - 1])
      && q[1] == (if c.0 > 0 then e[c.0 - 1] else 0)
      && q[2] == (if c.1 > 0 then e[c.1 - 1] else 0)
      && q[3] == (if c.2 > 0 then e[c.2 - 1] else 0)
  {
    var e := Expand(h, |h|);
    ExpandLength(h, |h|);
    FirstOccupiedIsSmallest(h, |h|);
    LastOccupiedIsLargest(h, |h|);
    var c := Thresholds(|e|);
    CountAsReal(h, |h|);
    var w := Weights(h);
    assert NonNegative(w);
    if c.0 > 0 {
      CrossingIsOrderStatistic(h, |h|, c.0);
    } else {
      CrossingBeforeExists(w, |h|, c.0 as real);
    }
    if c.1 > 0 {
      CrossingIsOrderStatistic(h, |h|, c.1);
    } else {
      CrossingBeforeExists(w, |h|, c.1 as real);
    }
    if c.2 > 0 {
      CrossingIsOrderStatistic(h, |h|, c.2);
    } else {
      CrossingBeforeExists(w, |h|, c.2 as real);
    }
  }

  /** The first occupied bin comes no later than any occupied bin. */
  lemma {:induction false} FirstOccupiedAtMost(h: seq<int>, n: nat, i: nat)
    requires i < n <= |h| && h[i] > 0
    ensures FirstOccupied(h, n).Some? && FirstOccupied(h, n).value <= i
  {
    if i < n - 1 {
      FirstOccupiedAtMost(h, n - 1, i);
    }
  }

  /** The last occupied bin comes no earlier than any occupied bin. */
  lemma {:induction false} LastOccupiedAtLeast(h: seq<int>, n: nat, i: nat)
    requires i < n <= |h| && h[i] > 0
    ensures LastOccupied(h, n).Some? && LastOccupied(h, n).value >= i
  {
    if h[n - 1] <= 0 {
      LastOccupiedAtLeast(h, n - 1, i);
    }
  }

  /** From four recorded values on, every threshold is at least 1 and at most the total. */
  lemma ThresholdsPositive(total: int)
    requires total >= 4
    ensures var c := Thresholds(total); 1 <= c.0 <= c.1 <= c.2 <= total
  {
  }

  /**
   * With at least four recorded values the five bins come out in ascending
   * order: a larger threshold is crossed no earlier, and every crossing bin is
   * occupied, so it lies between the first and the last occupied bins.
   */
  lemma QuartileBinsOrdered(h: seq<int>)
    requires NonNegativeCounts(h) && Count(h, |h|) >= 4
    ensures var q := QuartileBins(h); q[0] <= q[1] <= q[2] <= q[3] <= q[4]
  {
    var total := Count(h, |h|);
    var w := Weights(h);
    var c := Thresholds(total);
    ThresholdsPositive(total);
    CountAsReal(h, |h|);
    assert NonNegative(w);
    CrossingMonotone(w, c.0 as real, c.1 as real);
    CrossingMonotone(w, c.1 as real, c.2 as real);
    var first := LastCrossing(w, c.0 as real).value;
    CrossingBeforeIsLast(w, |w|, c.0 as real);
    CrossingHasWeight(w, first, c.0 as real);
    FirstOccupiedAtMost(h, |h|, first);
    var last := LastCrossing(w, c.2 as real).value;
    CrossingBeforeIsLast(w, |w|, c.2 as real);
    CrossingHasWeight(w, last, c.2 as real);
    LastOccupiedAtLeast(h, |h|, last);
  }

  /** With no recorded value every bin stays 0. */
  lemma EmptyHistogramBins(h: seq<int>)
    requires NonNegativeCounts(h) && Count(h, |h|) == 0
    ensures QuartileBins(h) == [0, 0, 0, 0, 0]
  {
    ExpandLength(h, |h|);
    FirstOccupiedIsSmallest(h, |h|);
    LastOccupiedIsLargest(h, |h|);
    assert NonNegative(Weights(h));
    CrossingBeforeExists(Weights(h), |h|, 0.0);
  }

  /** `if (Sum < c && c <= Sum + count) Quartiles[k] = index;` */
  function NoteCrossing(prev: int, sum: int, count: int, c: int, index: int): int
  {
    if sum < c && c <= sum + count then index else prev
  }

  /**
   * The first pass of QuartilesOf: the lowest and highest occupied bins
   * (0 when there is none) and the total count.
   */
  method OccupiedRange(h: array<int>) returns (lo: int, hi: int, sum: int)
    ensures lo == OrZero(FirstOccupied(h[..], h.Length))
    ensures hi == OrZero(LastOccupied(h[..], h.Length))
    ensures sum == Count(h[..], h.Length)
  {
    lo, hi, sum := 0, 0, 0;
    var awaitingMin := true;
    var index := 0;
    while index < h.Length
      invariant 0 <= index <= h.Length
      invariant sum == Count(h[..], index)
      invariant awaitingMin <==> FirstOccupied(h[..], index).None?
      invariant lo == OrZero(FirstOccupied(h[..], index))
      invariant hi == OrZero(LastOccupied(h[..], index))
    {
      if awaitingMin && h[index] > 0 {
        awaitingMin := false;
        lo := index;
      }
      if h[index] > 0 {
        hi := index;
      }
      sum := sum + h[index];
      index := index + 1;
    }
  }

  /** The second pass: the last bin at which the running count crosses each threshold. */
  method CrossingBins(h: array<int>, c1: int, c2: int, c3: int) returns (b1: int, b2: int, b3: int)
    ensures b1 == OrZero(LastCrossing(Weights(h[..]), c1 as real))
    ensures b2 == OrZero(LastCrossing(Weights(h[..]), c2 as real))
    ensures b3 == OrZero(LastCrossing(Weights(h[..]), c3 as real))
  {
    ghost var w := Weights(h[..]);
    b1, b2, b3 := 0, 0, 0;
    var sum := 0;
    var index := 0;
    while index < h.Length
      invariant 0 <= index <= h.Length
      invariant sum == Count(h[..], index)
      invariant b1 == OrZero(CrossingBefore(w, index, c1 as real))
      invariant b2 == OrZero(CrossingBefore(w, index, c2 as real))
      invariant b3 == OrZero(CrossingBefore(w, index, c3 as real))
    {
      CountAsReal(h[..], index);
      CountAsReal(h[..], index + 1);
      var thisCount := h[index];
      b1 := NoteCrossing(b1, sum, thisCount, c1, index);
      b2 := NoteCrossing(b2, sum, thisCount, c2, index);
      b3 := NoteCrossing(b3, sum, thisCount, c3, index);
      sum := sum + thisCount;
      index := index + 1;
    }
  }

  /** QuartilesOf: the occupied range and total, then the three crossings. */
  method QuartilesOf(h: array<int>) returns (q: array<int>)
    ensures fresh(q) && q.Length == 5 && q[..] == QuartileBins(h[..])
  {
    q := new int[5];
    var lo, hi, sum := OccupiedRange(h);
    var (countQ1, countQ2, countQ3) := Thresholds(sum);
    var b1, b2, b3 := CrossingBins(h, countQ1, countQ2, countQ3);
    q[0], q[1], q[2], q[3], q[4] := lo, b1, b2, b3, hi;
  }
}
