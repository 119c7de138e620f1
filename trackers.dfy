/**
 * The run-level minimum/maximum trackers of LCMSMSExperiment, folded over
 * the statistics of each isolation window, and the sum of the per-window
 * cycle-time medians.
 */
module Trackers {
  import opened Basics
  import opened Windows

  /**
   * The tracker fields of one run. Minimums of floating-point quantities start
   * at +infinity and are ExtReal; maximums start at 0.
   */
  datatype RunExtrema = RunExtrema(
    loMZRange: ExtReal,
    hiMZRange: real,
    widest: real,
    narrowest: ExtReal,
    cycleCountMin: int,
    cycleCountMax: int,
    tic50RTMin: ExtReal,
    tic50RTMax: real,
    totalTICMin: ExtReal,
    totalTICMax: real,
    pkCount50Min: ExtReal,
    pkCount50Max: real)

  /** The field initialisers of a new LCMSMSExperiment. */
  const INITIAL_EXTREMA := RunExtrema(
    PositiveInfinity, 0.0, 0.0, PositiveInfinity, INT32_MAX, 0,
    PositiveInfinity, 0.0, PositiveInfinity, 0.0, PositiveInfinity, 0.0)

  /** `if (x < min) min = x;` */
  function LowerMin(e: ExtReal, x: real): (r: ExtReal)
  {
    if Below(x, e) then Finite(x) else e
  }

  /** `if (x > max) max = x;` */
  function RaiseMax(e: real, x: real): (r: real)
  {
    if x > e then x else e
  }

  /** The twelve tracker updates the loop body makes for one window. */
  function Absorb(e: RunExtrema, w: SwathMetrics): RunExtrema
  {
    RunExtrema(
      LowerMin(e.loMZRange, w.loMZ),
      RaiseMax(e.hiMZRange, w.hiMZ),
      RaiseMax(e.widest, w.widthMZ),
      LowerMin(e.narrowest, w.widthMZ),
      if w.msmsCount < e.cycleCountMin then w.msmsCount else e.cycleCountMin,
      if w.msmsCount > e.cycleCountMax then w.msmsCount else e.cycleCountMax,
      LowerMin(e.tic50RTMin, w.tic50ileRT),
      RaiseMax(e.tic50RTMax, w.tic50ileRT),
      LowerMin(e.totalTICMin, w.totalTIC),
      RaiseMax(e.totalTICMax, w.totalTIC),
      LowerMin(e.pkCount50Min, w.pkCount50ile),
      RaiseMax(e.pkCount50Max, w.pkCount50ile))
  }

  /** The trackers after absorbing the windows `ws` in order. */
  function FoldExtrema(e: RunExtrema, ws: seq<SwathMetrics>): RunExtrema
    decreases |ws|
  {
    if ws == [] then e else FoldExtrema(Absorb(e, ws[0]), ws[1..])
  }

  /** The sum of the windows' cycle-time medians, accumulated front to back. */
  function SumCycleMedians(ws: seq<SwathMetrics>): real
  {
    if ws == [] then 0.0 else SumCycleMedians(ws[..|ws| - 1]) + ws[|ws| - 1].cycleTimeMedian
  }

  /** `SumMedianCycleTime / (float)SWATHCount`: NaN exactly when there is no window. */
  function AverageOf(sum: real, count: nat): (r: Average)
    ensures r.NotANumber? <==> count == 0
  {
    if count == 0 then NotANumber else Value(sum / count as real)
  }

  /** The average times the number of windows gives back the sum. */
  lemma AverageTimesCount(sum: real, count: nat)
    requires count > 0
    ensures AverageOf(sum, count).value * count as real == sum
  {
  }

  /** Every window lies within the bounds the trackers hold after it. */
  predicate Brackets(e: RunExtrema, w: SwathMetrics)
  {
    && AtMost(e.loMZRange, w.loMZ) && w.hiMZ <= e.hiMZRange
    && AtMost(e.narrowest, w.widthMZ) && w.widthMZ <= e.widest
    && e.cycleCountMin <= w.msmsCount <= e.cycleCountMax
    && AtMost(e.tic50RTMin, w.tic50ileRT) && w.tic50ileRT <= e.tic50RTMax
    && AtMost(e.totalTICMin, w.totalTIC) && w.totalTIC <= e.totalTICMax
    && AtMost(e.pkCount50Min, w.pkCount50ile) && w.pkCount50ile <= e.pkCount50Max
  }

  /** Absorbing a window brackets it. */
  lemma AbsorbBrackets(e: RunExtrema, w: SwathMetrics)
    ensures Brackets(Absorb(e, w), w)
  {
  }

  /** Absorbing more windows only widens the bounds, so a bracketed window stays bracketed. */
  lemma AbsorbKeepsBrackets(e: RunExtrema, w: SwathMetrics, v: SwathMetrics)
    requires Brackets(e, v)
    ensures Brackets(Absorb(e, w), v)
  {
  }

  lemma {:induction false} FoldKeepsBrackets(e: RunExtrema, ws: seq<SwathMetrics>, v: SwathMetrics)
    requires Brackets(e, v)
    ensures Brackets(FoldExtrema(e, ws), v)
    decreases |ws|
  {
    if ws != [] {
      AbsorbKeepsBrackets(e, ws[0], v);
      FoldKeepsBrackets(Absorb(e, ws[0]), ws[1..], v);
    }
  }

  /** After the loop, every window lies within the run's min/max trackers. */
  lemma {:induction false} FoldBracketsAll(e: RunExtrema, ws: seq<SwathMetrics>)
    ensures forall i :: 0 <= i < |ws| ==> Brackets(FoldExtrema(e, ws), ws[i])
    decreases |ws|
  {
    if ws != [] {
      AbsorbBrackets(e, ws[0]);
      FoldKeepsBrackets(Absorb(e, ws[0]), ws[1..], ws[0]);
      FoldBracketsAll(Absorb(e, ws[0]), ws[1..]);
      forall i | 1 <= i < |ws| ensures Brackets(FoldExtrema(e, ws), ws[i]) {
        assert ws[i] == ws[1..][i - 1];
      }
    }
  }

  /**
   * Each maximum tracker ends at its initial value or at some window's value:
   * the trackers never hold a value no window had.
   */
  lemma {:induction false} FoldMaxAttained(e: RunExtrema, ws: seq<SwathMetrics>)
    ensures var f := FoldExtrema(e, ws);
      && (f.hiMZRange == e.hiMZRange || exists i :: 0 <= i < |ws| && f.hiMZRange == ws[i].hiMZ)
      && (f.widest == e.widest || exists i :: 0 <= i < |ws| && f.widest == ws[i].widthMZ)
      && (f.cycleCountMax == e.cycleCountMax || exists i :: 0 <= i < |ws| && f.cycleCountMax == ws[i].msmsCount)
      && (f.tic50RTMax == e.tic50RTMax || exists i :: 0 <= i < |ws| && f.tic50RTMax == ws[i].tic50ileRT)
      && (f.totalTICMax == e.totalTICMax || exists i :: 0 <= i < |ws| && f.totalTICMax == ws[i].totalTIC)
      && (f.pkCount50Max == e.pkCount50Max || exists i :: 0 <= i < |ws| && f.pkCount50Max == ws[i].pkCount50ile)
    decreases |ws|
  {
    if ws != [] {
      var a := Absorb(e, ws[0]);
      FoldMaxAttained(a, ws[1..]);
      var f := FoldExtrema(e, ws);
      if f.hiMZRange != a.hiMZRange && f.hiMZRange != e.hiMZRange {
        var i :| 0 <= i < |ws[1..]| && f.hiMZRange == ws[1..][i].hiMZ;
        assert f.hiMZRange == ws[i + 1].hiMZ;
      }
      if f.widest != a.widest && f.widest != e.widest {
        var i :| 0 <= i < |ws[1..]| && f.widest == ws[1..][i].widthMZ;
        assert f.widest == ws[i + 1].widthMZ;
      }
      if f.cycleCountMax != a.cycleCountMax && f.cycleCountMax != e.cycleCountMax {
        var i :| 0 <= i < |ws[1..]| && f.cycleCountMax == ws[1..][i].msmsCount;
        assert f.cycleCountMax == ws[i + 1].msmsCount;
      }
      if f.tic50RTMax != a.tic50RTMax && f.tic50RTMax != e.tic50RTMax {
        var i :| 0 <= i < |ws[1..]| && f.tic50RTMax == ws[1..][i].tic50ileRT;
        assert f.tic50RTMax == ws[i + 1].tic50ileRT;
      }
      if f.totalTICMax != a.totalTICMax && f.totalTICMax != e.totalTICMax {
        var i :| 0 <= i < |ws[1..]| && f.totalTICMax == ws[1..][i].totalTIC;
        assert f.totalTICMax == ws[i + 1].totalTIC;
      }
      if f.pkCount50Max != a.pkCount50Max && f.pkCount50Max != e.pkCount50Max {
        var i :| 0 <= i < |ws[1..]| && f.pkCount50Max == ws[1..][i].pkCount50ile;
        assert f.pkCount50Max == ws[i + 1].pkCount50ile;
      }
    }
  }

  /**
   * Each minimum tracker ends at its initial value or at some window's value,
   * so with FoldBracketsAll it is the least value over the windows.
   */
  lemma {:induction false} FoldMinAttained(e: RunExtrema, ws: seq<SwathMetrics>)
    ensures var f := FoldExtrema(e, ws);
      && (f.loMZRange == e.loMZRange || exists i :: 0 <= i < |ws| && f.loMZRange == Finite(ws[i].loMZ))
      && (f.narrowest == e.narrowest || exists i :: 0 <= i < |ws| && f.narrowest == Finite(ws[i].widthMZ))
      && (f.cycleCountMin == e.cycleCountMin || exists i :: 0 <= i < |ws| && f.cycleCountMin == ws[i].msmsCount)
      && (f.tic50RTMin == e.tic50RTMin || exists i :: 0 <= i < |ws| && f.tic50RTMin == Finite(ws[i].tic50ileRT))
      && (f.totalTICMin == e.totalTICMin || exists i :: 0 <= i < |ws| && f.totalTICMin == Finite(ws[i].totalTIC))
      && (f.pkCount50Min == e.pkCount50Min || exists i :: 0 <= i < |ws| && f.pkCount50Min == Finite(ws[i].pkCount50ile))
    decreases |ws|
  {
    if ws != [] {
      var a := Absorb(e, ws[0]);
      FoldMinAttained(a, ws[1..]);
      var f := FoldExtrema(e, ws);
      if f.loMZRange != a.loMZRange && f.loMZRange != e.loMZRange {
        var i :| 0 <= i < |ws[1..]| && f.loMZRange == Finite(ws[1..][i].loMZ);
        assert f.loMZRange == Finite(ws[i + 1].loMZ);
      }
      if f.narrowest != a.narrowest && f.narrowest != e.narrowest {
        var i :| 0 <= i < |ws[1..]| && f.narrowest == Finite(ws[1..][i].widthMZ);
        assert f.narrowest == Finite(ws[i + 1].widthMZ);
      }
      if f.cycleCountMin != a.cycleCountMin && f.cycleCountMin != e.cycleCountMin {
        var i :| 0 <= i < |ws[1..]| && f.cycleCountMin == ws[1..][i].msmsCount;
        assert f.cycleCountMin == ws[i + 1].msmsCount;
      }
      if f.tic50RTMin != a.tic50RTMin && f.tic50RTMin != e.tic50RTMin {
        var i :| 0 <= i < |ws[1..]| && f.tic50RTMin == Finite(ws[1..][i].tic50ileRT);
        assert f.tic50RTMin == Finite(ws[i + 1].tic50ileRT);
      }
      if f.totalTICMin != a.totalTICMin && f.totalTICMin != e.totalTICMin {
        var i :| 0 <= i < |ws[1..]| && f.totalTICMin == Finite(ws[1..][i].totalTIC);
        assert f.totalTICMin == Finite(ws[i + 1].totalTIC);
      }
      if f.pkCount50Min != a.pkCount50Min && f.pkCount50Min != e.pkCount50Min {
        var i :| 0 <= i < |ws[1..]| && f.pkCount50Min == Finite(ws[1..][i].pkCount50ile);
        assert f.pkCount50Min == Finite(ws[i + 1].pkCount50ile);
      }
    }
  }

  /** Each minimum tracker still at +infinity means there was no window. */
  lemma {:induction false} FoldMinFinite(e: RunExtrema, ws: seq<SwathMetrics>)
    requires ws != []
    ensures var f := FoldExtrema(e, ws);
      f.loMZRange.Finite? && f.narrowest.Finite? && f.tic50RTMin.Finite?
      && f.totalTICMin.Finite? && f.pkCount50Min.Finite?
    decreases |ws|
  {
    var a := Absorb(e, ws[0]);
    if |ws| > 1 {
      FoldMinFinite(a, ws[1..]);
    }
  }

  /** Adding one more window to the end of the fold. */
  lemma {:induction false} FoldExtremaSnoc(e: RunExtrema, ws: seq<SwathMetrics>, w: SwathMetrics)
    ensures FoldExtrema(e, ws + [w]) == Absorb(FoldExtrema(e, ws), w)
    decreases |ws|
  {
    if ws != [] {
      assert (ws + [w])[1..] == ws[1..] + [w];
      FoldExtremaSnoc(Absorb(e, ws[0]), ws[1..], w);
    }
  }

  /** One more window at the end: the trackers absorb it and the sum of medians grows by its median. */
  lemma TrackersSnoc(e: RunExtrema, ws: seq<SwathMetrics>, w: SwathMetrics)
    ensures FoldExtrema(e, ws + [w]) == Absorb(FoldExtrema(e, ws), w)
    ensures SumCycleMedians(ws + [w]) == SumCycleMedians(ws) + w.cycleTimeMedian
  {
    FoldExtremaSnoc(e, ws, w);
    assert (ws + [w])[..|ws|] == ws;
  }
}
