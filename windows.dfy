/**
 * Per-isolation-window statistics (SWATHMetrics in DIAMetric.cs) and the
 * run-level minimum/maximum trackers folded over the windows.
 */
module Windows {
  import opened Basics
  import opened Scans
  import opened OrderStatistics

  /** The statistics of one isolation window. */
  datatype SwathMetrics = SwathMetrics(
    loMZ: real,
    hiMZ: real,
    widthMZ: real,
    faims: real,
    msmsCount: int,
    loRT: real,
    hiRT: real,
    cycleTimeMedian: real,
    tic25ileRT: real,
    tic50ileRT: real,
    tic75ileRT: real,
    totalTIC: real,
    pkCount25ile: real,
    pkCount50ile: real,
    pkCount75ile: real,
    pkCountMax: real)

  function Tics(g: seq<Scan>): (w: seq<real>)
    ensures |w| == |g|
    ensures forall i :: 0 <= i < |g| ==> w[i] == g[i].tic
  {
    seq(|g|, i requires 0 <= i < |g| => g[i].tic)
  }

  function PeakCounts(g: seq<Scan>): (w: seq<real>)
    ensures |w| == |g|
    ensures forall i :: 0 <= i < |g| ==> w[i] == g[i].peakCount as real
  {
    seq(|g|, i requires 0 <= i < |g| => g[i].peakCount as real)
  }

  function CrossingRT(g: seq<Scan>, c: Option<nat>): real
    requires c.Some? ==> c.value < |g|
  {
    if c.Some? then g[c.value].scanStartTime else 0.0
  }

  /** The retention time the second pass has recorded for threshold `t` after `i` scans. */
  function RTSoFar(g: seq<Scan>, i: nat, t: real): real
    requires i <= |g|
  {
    CrossingRT(g, CrossingBefore(Tics(g), i, t))
  }

  /**
   * The update of one percentile tracker by a scan: the tracker takes the
   * scan's start time when the scan carries the cumulative TIC from below
   * `t` to `t` or above.
   */
  function Track(rt: real, t: real, before: real, after: real, startTime: real): real
  {
    if t > before && t <= after then startTime else rt
  }

  /** One more scan seen by the second pass: the running TIC and the recorded retention time. */
  lemma RTSoFarStep(g: seq<Scan>, i: nat, t: real)
    requires i < |g|
    ensures PrefixSum(Tics(g), i + 1) == PrefixSum(Tics(g), i) + g[i].tic
    ensures RTSoFar(g, i + 1, t) ==
      Track(RTSoFar(g, i, t), t, PrefixSum(Tics(g), i), PrefixSum(Tics(g), i) + g[i].tic, g[i].scanStartTime)
  {
  }

  /** The start-time difference between scan `k + 1` and scan `k` of the window. */
  function CycleTime(g: seq<Scan>, k: nat): real
    requires k + 1 < |g|
  {
    g[k + 1].scanStartTime - g[k].scanStartTime
  }

  /** The start-time differences between consecutive scans of the window. */
  function CycleTimes(g: seq<Scan>): (d: seq<real>)
    requires g != []
    ensures |d| == |g| - 1
    ensures forall k :: 0 <= k < |g| - 1 ==> d[k] == CycleTime(g, k)
  {
    seq(|g| - 1, k requires 0 <= k < |g| - 1 => CycleTime(g, k))
  }

  /**
   * The start time of the scan at which the cumulative TIC crosses `t`
   * (the last such scan), or 0 when it is never crossed.
   */
  function PercentileRT(g: seq<Scan>, t: real): real
  {
    CrossingRT(g, LastCrossing(Tics(g), t))
  }

  /** Index of the median of `m` sorted values (the upper one when m is even). */
  function MedianIndex(m: nat): nat
  {
    m / 2
  }

  /** The index DIAMetric.cs uses for the cycle-time median of an `n`-scan window. */
  function CycleTimeIndexAsWritten(n: nat): nat
  {
    n / 2
  }

  /** The middle element of a sorted sequence (the upper one of the two when its length is even). */
  function Middle(s: seq<real>): real
    requires s != []
  {
    s[MedianIndex(|s|)]
  }

  /**
   * The statistics record of a window `g` (scans in list order): the m/z
   * bounds, FAIMS voltage and first retention time come from its first scan,
   * the rest from the two passes and the two sorts.
   */
  function Assemble(g: seq<Scan>, count: int, hiRT: real, total: real, rts: (real, real, real),
                    pq: (real, real, real, real), median: real): SwathMetrics
    requires g != []
  {
    var first := g[0];
    var loMZ := first.isolationTarget - first.isolationLowerOffset;
    var hiMZ := first.isolationTarget + first.isolationHigherOffset;
    SwathMetrics(
      loMZ, hiMZ, hiMZ - loMZ, first.faimsCompVoltage, count,
      first.scanStartTime, hiRT, median, rts.0, rts.1, rts.2, total,
      pq.0, pq.1, pq.2, pq.3)
  }

  /**
   * The statistics of a window `g` (scans in list order), as the loop body of
   * ComputeMetricsForSwaths computes them, with the corrected cycle-time index.
   */
  function WindowOf(g: seq<Scan>): SwathMetrics
    requires |g| >= 2
  {
    var total := Sum(Tics(g));
    Assemble(g, |g|, g[|g| - 1].scanStartTime, total,
      (PercentileRT(g, total / 4.0), PercentileRT(g, total / 2.0), PercentileRT(g, total / 4.0 + total / 2.0)),
      QuartileReads(SortSeq(PeakCounts(g))), 60.0 * Middle(SortSeq(CycleTimes(g))))
  }

  /** The record assembled from the results of the passes and the sorts is WindowOf. */
  lemma AssembledIsWindow(g: seq<Scan>, count: int, hiRT: real, total: real, rts: (real, real, real),
                          pq: (real, real, real, real), median: real)
    requires |g| >= 2 && count == |g| && hiRT == g[|g| - 1].scanStartTime && total == Sum(Tics(g))
    requires rts.0 == PercentileRT(g, total / 4.0) && rts.1 == PercentileRT(g, total / 2.0)
    requires rts.2 == PercentileRT(g, total / 4.0 + total / 2.0)
    requires pq == QuartileReads(SortSeq(PeakCounts(g)))
    requires median == 60.0 * Middle(SortSeq(CycleTimes(g)))
    ensures Assemble(g, count, hiRT, total, rts, pq, median) == WindowOf(g)
  {
  }

  /**
   * The first pass over a window: scan count, the last start time, the TIC sum
   * and the running peak-count maximum.
   */
  method FirstPass(g: seq<Scan>) returns (count: int, hiRT: real, ticSum: real, pkCountMax: real)
    requires g != []
    ensures count == |g| && hiRT == g[|g| - 1].scanStartTime
    ensures ticSum == Sum(Tics(g))
    ensures pkCountMax == RunningMax(PeakCounts(g))
  {
    count, hiRT, ticSum, pkCountMax := 0, 0.0, 0.0, 0.0;
    var i := 0;
    while i < |g|
      invariant 0 <= i <= |g| && count == i
      invariant hiRT == if i == 0 then 0.0 else g[i - 1].scanStartTime
      invariant ticSum == PrefixSum(Tics(g), i)
      invariant pkCountMax == RunningMax(PeakCounts(g)[..i])
    {
      assert PeakCounts(g)[..i + 1][..i] == PeakCounts(g)[..i];
      count := count + 1;
      hiRT := g[i].scanStartTime;
      ticSum := ticSum + g[i].tic;
      if g[i].peakCount as real > pkCountMax {
        pkCountMax := g[i].peakCount as real;
      }
      i := i + 1;
    }
    assert PeakCounts(g)[..|g|] == PeakCounts(g);
  }

  /**
   * Stores the peak count of scan `i` and, after the first scan, its cycle
   * time: the gap from the previous scan's start time.
   */
  method RecordScan(g: seq<Scan>, i: nat, lastScanStartTime: real, pkCounts: array<real>,
                    cycleTimes: array<real>)
    requires i < |g| == pkCounts.Length && cycleTimes.Length == |g| - 1 && pkCounts != cycleTimes
    requires i > 0 ==> lastScanStartTime == g[i - 1].scanStartTime
    modifies pkCounts, cycleTimes
    ensures pkCounts[i] == g[i].peakCount as real
    ensures forall k :: 0 <= k < pkCounts.Length && k != i ==> pkCounts[k] == old(pkCounts[k])
    ensures i > 0 ==> cycleTimes[i - 1] == CycleTime(g, i - 1)
    ensures forall k :: 0 <= k < cycleTimes.Length && k != i - 1 ==> cycleTimes[k] == old(cycleTimes[k])
  {
    pkCounts[i] := g[i].peakCount as real;
    if i > 0 {
      cycleTimes[i - 1] := g[i].scanStartTime - lastScanStartTime;
    }
  }

  /**
   * The second pass over a window: the scans at which the cumulative TIC
   * crosses a quarter, a half and three quarters of `ticSum`, and the arrays
   * of peak counts and cycle times, still unsorted.
   */
  method SecondPass(g: seq<Scan>, ticSum: real)
      returns (rt25: real, rt50: real, rt75: real, pkCounts: array<real>, cycleTimes: array<real>)
    requires g != []
    ensures fresh(pkCounts) && fresh(cycleTimes) && pkCounts != cycleTimes
    ensures rt25 == PercentileRT(g, ticSum / 4.0) && rt50 == PercentileRT(g, ticSum / 2.0)
    ensures rt75 == PercentileRT(g, ticSum / 4.0 + ticSum / 2.0)
    ensures pkCounts[..] == PeakCounts(g) && cycleTimes[..] == CycleTimes(g)
  {
    var tic25 := ticSum / 4.0;
    var tic50 := ticSum / 2.0;
    var tic75 := tic25 + tic50;
    var ticSoFar := 0.0;
    rt25, rt50, rt75 := 0.0, 0.0, 0.0;
    pkCounts := new real[|g|];
    cycleTimes := new real[|g| - 1];
    var lastScanStartTime := 0.0;
    var i := 0;
    while i < |g|
      invariant 0 <= i <= |g|
      invariant ticSoFar == PrefixSum(Tics(g), i)
      invariant rt25 == RTSoFar(g, i, tic25) && rt50 == RTSoFar(g, i, tic50)
      invariant rt75 == RTSoFar(g, i, tic75)
      invariant forall k :: 0 <= k < i ==> pkCounts[k] == g[k].peakCount as real
      invariant forall k :: 0 <= k < i - 1 ==> cycleTimes[k] == CycleTime(g, k)
      invariant i > 0 ==> lastScanStartTime == g[i - 1].scanStartTime
    {
      RTSoFarStep(g, i, tic25);
      RTSoFarStep(g, i, tic50);
      RTSoFarStep(g, i, tic75);
      var ticAfterThisScan := ticSoFar + g[i].tic;
      rt25 := Track(rt25, tic25, ticSoFar, ticAfterThisScan, g[i].scanStartTime);
      rt50 := Track(rt50, tic50, ticSoFar, ticAfterThisScan, g[i].scanStartTime);
      rt75 := Track(rt75, tic75, ticSoFar, ticAfterThisScan, g[i].scanStartTime);
      ticSoFar := ticAfterThisScan;
      RecordScan(g, i, lastScanStartTime, pkCounts, cycleTimes);
      lastScanStartTime := g[i].scanStartTime;
      i := i + 1;
    }
    assert rt25 == PercentileRT(g, ticSum / 4.0) && rt50 == PercentileRT(g, ticSum / 2.0);
    assert rt75 == PercentileRT(g, ticSum / 4.0 + ticSum / 2.0);
    forall k | 0 <= k < |g| - 1 ensures cycleTimes[k] == CycleTimes(g)[k] {
    }
  }

  /**
   * Sorts the peak counts `w` of a window in place and reads its 25th, 50th
   * and 75th percentile and its maximum at floor indices.
   */
  method PeakCountQuartiles(pkCounts: array<real>, ghost w: seq<real>)
      returns (q25: real, q50: real, q75: real, qMax: real)
    requires pkCounts[..] == w && w != []
    modifies pkCounts
    ensures pkCounts[..] == SortSeq(w)
    ensures (q25, q50, q75, qMax) == QuartileReads(SortSeq(w))
  {
    SortInPlace(pkCounts);
    var n := pkCounts.Length;
    q25 := pkCounts[n / 4];
    q50 := pkCounts[n / 2];
    q75 := pkCounts[n / 4 + n / 2];
    qMax := pkCounts[n - 1];
  }

  /**
   * Sorts the cycle times `w` of a window in place and returns the middle
   * one, converted from minutes to seconds.
   */
  method MedianCycleTime(cycleTimes: array<real>, ghost w: seq<real>) returns (median: real)
    requires cycleTimes[..] == w && w != []
    modifies cycleTimes
    ensures cycleTimes[..] == SortSeq(w)
    ensures median == 60.0 * Middle(SortSeq(w))
  {
    SortInPlace(cycleTimes);
    median := 60.0 * cycleTimes[MedianIndex(cycleTimes.Length)];
  }

  /**
   * The tail of a window's computation: sorts the peak counts and the cycle
   * times of the window `g` in place and reads the quartiles and the median.
   */
  method SortedStatistics(pkCounts: array<real>, cycleTimes: array<real>, ghost g: seq<Scan>)
      returns (pq: (real, real, real, real), median: real)
    requires |g| >= 2 && pkCounts != cycleTimes
    requires pkCounts[..] == PeakCounts(g) && cycleTimes[..] == CycleTimes(g)
    modifies pkCounts, cycleTimes
    ensures pkCounts[..] == SortSeq(PeakCounts(g)) && cycleTimes[..] == SortSeq(CycleTimes(g))
    ensures pq == QuartileReads(SortSeq(PeakCounts(g)))
    ensures median == 60.0 * Middle(SortSeq(CycleTimes(g)))
  {
    var pk25, pk50, pk75, pkMax := PeakCountQuartiles(pkCounts, PeakCounts(g));
    pq := (pk25, pk50, pk75, pkMax);
    median := MedianCycleTime(cycleTimes, CycleTimes(g));
  }

  /**
   * One window's statistics: two passes over the window's scans, then the
   * peak counts and the cycle times are sorted in place.
   */
  method ComputeWindow(g: seq<Scan>) returns (m: SwathMetrics)
    requires |g| >= 2
    ensures m == WindowOf(g)
  {
    var count, hiRT, ticSum, _ := FirstPass(g);
    var rt25, rt50, rt75, pkCounts, cycleTimes := SecondPass(g, ticSum);
    var pq, cycleTimeMedian := SortedStatistics(pkCounts, cycleTimes, g);
    m := Assemble(g, count, hiRT, ticSum, (rt25, rt50, rt75), pq, cycleTimeMedian);
    AssembledIsWindow(g, count, hiRT, ticSum, (rt25, rt50, rt75), pq, cycleTimeMedian);
  }

  // ----- properties of one window -----

  /** Start times never decrease along the window (the list is in retention-time order). */
  predicate StartTimesAscending(g: seq<Scan>)
  {
    forall i, j :: 0 <= i < j < |g| ==> g[i].scanStartTime <= g[j].scanStartTime
  }

  /** The fields read off the scans: count, first and last start time, TIC total, m/z bounds. */
  lemma WindowBasicFields(g: seq<Scan>)
    requires |g| >= 2
    ensures var m := WindowOf(g);
      && m.msmsCount == |g|
      && m.loRT == g[0].scanStartTime && m.hiRT == g[|g| - 1].scanStartTime
      && m.totalTIC == Sum(Tics(g))
      && m.loMZ == g[0].isolationTarget - g[0].isolationLowerOffset
      && m.hiMZ == g[0].isolationTarget + g[0].isolationHigherOffset
      && m.widthMZ == m.hiMZ - m.loMZ
      && m.faims == g[0].faimsCompVoltage
  {
  }

  /**
   * With non-negative TICs and a threshold in (0, total], the recorded start
   * time is written by exactly one scan: the first whose inclusive cumulative
   * TIC reaches the threshold.
   */
  lemma TicPercentileSetOnce(g: seq<Scan>, t: real)
    requires NonNegative(Tics(g)) && 0.0 < t <= Sum(Tics(g))
    ensures LastCrossing(Tics(g), t).Some?
    ensures var i := LastCrossing(Tics(g), t).value;
      && PercentileRT(g, t) == g[i].scanStartTime
      && PrefixSum(Tics(g), i + 1) >= t
      && (forall j :: 0 <= j <= i ==> PrefixSum(Tics(g), j) < t)
      && (forall j :: 0 <= j < |g| && Crosses(Tics(g), j, t) ==> j == i)
  {
    CrossingExactlyOnce(Tics(g), t);
  }

  /** A threshold the cumulative TIC never crosses leaves the recorded start time at 0. */
  lemma TicPercentileUnset(g: seq<Scan>, t: real)
    requires NonNegative(Tics(g)) && (t <= 0.0 || t > Sum(Tics(g)))
    ensures PercentileRT(g, t) == 0.0
  {
    CrossingExactlyOnce(Tics(g), t);
  }

  /** A window whose TIC total is 0 keeps all three TIC percentile times at 0. */
  lemma ZeroTicWindow(g: seq<Scan>)
    requires |g| >= 2 && NonNegative(Tics(g)) && Sum(Tics(g)) == 0.0
    ensures WindowOf(g).tic25ileRT == 0.0 && WindowOf(g).tic50ileRT == 0.0
    ensures WindowOf(g).tic75ileRT == 0.0
  {
    TicPercentileUnset(g, 0.0);
  }

  /**
   * When start times ascend and TICs are non-negative, the 25th, 50th and
   * 75th percentile retention times come out in order.
   */
  lemma TicPercentilesOrdered(g: seq<Scan>)
    requires |g| >= 2 && NonNegative(Tics(g)) && StartTimesAscending(g)
    ensures WindowOf(g).tic25ileRT <= WindowOf(g).tic50ileRT <= WindowOf(g).tic75ileRT
  {
    var total := Sum(Tics(g));
    PrefixSumMonotone(Tics(g), 0, |g|);
    if total == 0.0 {
      ZeroTicWindow(g);
    } else {
      CrossingMonotone(Tics(g), total / 4.0, total / 2.0);
      CrossingMonotone(Tics(g), total / 2.0, total / 4.0 + total / 2.0);
    }
  }

  /**
   * The peak-count order statistics are ascending, the maximum is the largest
   * peak count of the window and one of them, and for non-negative counts it
   * agrees with the running maximum of the first pass.
   */
  lemma PeakCountStatistics(g: seq<Scan>)
    requires |g| >= 2
    ensures var m := WindowOf(g);
      m.pkCount25ile <= m.pkCount50ile <= m.pkCount75ile <= m.pkCountMax
    ensures WindowOf(g).pkCountMax in PeakCounts(g)
    ensures forall i :: 0 <= i < |g| ==> g[i].peakCount as real <= WindowOf(g).pkCountMax
    ensures NonNegative(PeakCounts(g)) ==> WindowOf(g).pkCountMax == RunningMax(PeakCounts(g))
  {
    var w := PeakCounts(g);
    SortSeqSorted(w);
    QuartileIndicesInRange(|w|);
    SortedLastIsMax(w);
    if NonNegative(w) {
      RunningMaxIsSortedLast(w);
    }
  }

  // ----- the cycle-time median index -----

  /**
   * The corrected index splits the sorted cycle times evenly: the elements
   * before it and after it differ in number by at most one.
   */
  lemma MedianIndexBalanced(m: nat)
    requires m >= 1
    ensures MedianIndex(m) < m
    ensures m - 1 - MedianIndex(m) <= MedianIndex(m) <= m - MedianIndex(m)
  {
  }

  /**
   * The index DIAMetric.cs uses lies inside the m = n - 1 cycle times only
   * for windows of three scans or more.
   */
  lemma CycleTimeIndexAsWrittenInRange(n: nat)
    requires n >= 1
    ensures CycleTimeIndexAsWritten(n) < n - 1 <==> n >= 3
  {
  }

  /**
   * For an even number of scans the index as written lands above the middle:
   * start times 0, 1, 2, 4 give sorted cycle times 1, 1, 2, of which it reads
   * 2 where the median is 1.
   */
  lemma CycleTimeIndexAsWrittenMissesMedian()
    ensures var g := [EMPTY_SCAN, EMPTY_SCAN.(scanStartTime := 1.0),
                      EMPTY_SCAN.(scanStartTime := 2.0), EMPTY_SCAN.(scanStartTime := 4.0)];
      && SortSeq(CycleTimes(g)) == [1.0, 1.0, 2.0]
      && 60.0 * SortSeq(CycleTimes(g))[CycleTimeIndexAsWritten(|g|)] == 120.0
      && WindowOf(g).cycleTimeMedian == 60.0
  {
    var g := [EMPTY_SCAN, EMPTY_SCAN.(scanStartTime := 1.0),
              EMPTY_SCAN.(scanStartTime := 2.0), EMPTY_SCAN.(scanStartTime := 4.0)];
    assert CycleTimes(g) == [1.0, 1.0, 2.0];
    assert SortSeq([2.0]) == [2.0];
    assert SortSeq([1.0, 2.0]) == Insert([2.0], 1.0) == [1.0, 2.0];
    assert [1.0, 1.0, 2.0][1..] == [1.0, 2.0];
  }
}
