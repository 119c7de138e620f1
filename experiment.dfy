/**
 * One LC-MS/MS run (LCMSMSExperiment): the fields read from its mzML file, the
 * list of its MS/MS scan records, the per-window statistics and the run-level
 * trackers computed from them, and the searches over runs and scans.
 */
module Experiments {
  import opened Basics
  import opened Scans
  import opened Partition
  import opened Windows
  import opened Trackers
  import opened ScanNumbers
  import opened Mzml

  /**
   * Every window present holds at least two scans: the source reads the
   * cycle-time array at a position that only exists from two scans on.
   */
  ghost predicate EveryWindowRepeats(s: seq<Scan>)
  {
    forall k :: k in KeySet(s) ==> |WithKey(s, k)| >= 2
  }

  /** Removing one window leaves every other window as it was. */
  lemma RepeatsAfterRemoval(s: seq<Scan>, k: WindowKey)
    requires EveryWindowRepeats(s)
    ensures EveryWindowRepeats(WithoutKey(s, k))
  {
    KeySetWithout(s, k);
    forall j | j in KeySet(WithoutKey(s, k)) ensures |WithKey(WithoutKey(s, k), j)| >= 2 {
      WithKeyAfterRemoval(s, k, j);
    }
  }

  /** The first excision: a window of at least two scans, and what remains keeps the property. */
  lemma FirstWindowStep(s: seq<Scan>)
    requires EveryWindowRepeats(s) && s != []
    ensures var k := KeyOf(s[0]);
      && |WithKey(s, k)| >= 2 && |WithoutKey(s, k)| < |s| && EveryWindowRepeats(WithoutKey(s, k))
  {
    ExcisionKeepsFirst(s);
    KeySetCons(s);
    RepeatsAfterRemoval(s, KeyOf(s[0]));
  }

  /** The window statistics that repeated excision produces from `s`, in order. */
  ghost function SwathsOf(s: seq<Scan>): seq<SwathMetrics>
    requires EveryWindowRepeats(s)
    decreases |s|
  {
    if s == [] then []
    else
      FirstWindowStep(s);
      [WindowOf(WithKey(s, KeyOf(s[0])))] + SwathsOf(WithoutKey(s, KeyOf(s[0])))
  }

  /** One SwathMetrics per excised group, the statistics of that group. */
  lemma {:induction false} SwathsOfGroups(s: seq<Scan>)
    requires EveryWindowRepeats(s)
    ensures |SwathsOf(s)| == |Groups(s)|
    ensures forall i :: 0 <= i < |Groups(s)| ==>
      |Groups(s)[i]| >= 2 && SwathsOf(s)[i] == WindowOf(Groups(s)[i])
    decreases |s|
  {
    if s != [] {
      var k := KeyOf(s[0]);
      var rest := WithoutKey(s, k);
      FirstWindowStep(s);
      SwathsOfGroups(rest);
      var gs, ws := Groups(s), SwathsOf(s);
      assert gs == [WithKey(s, k)] + Groups(rest);
      forall i | 0 <= i < |gs| ensures |gs[i]| >= 2 && ws[i] == WindowOf(gs[i]) {
        if i > 0 {
          assert gs[i] == Groups(rest)[i - 1] && ws[i] == SwathsOf(rest)[i - 1];
        }
      }
    }
  }

  /**
   * One SwathMetrics per distinct (FAIMS voltage, isolation target) pair, in
   * order of first appearance, each the statistics of all that window's scans.
   */
  lemma SwathPerWindow(s: seq<Scan>)
    requires EveryWindowRepeats(s)
    ensures |SwathsOf(s)| == |WindowOrder(s)| == |KeySet(s)|
    ensures forall i :: 0 <= i < |SwathsOf(s)| ==>
      |WithKey(s, WindowOrder(s)[i])| >= 2 && SwathsOf(s)[i] == WindowOf(WithKey(s, WindowOrder(s)[i]))
  {
    SwathsOfGroups(s);
    GroupsAreWindows(s);
    DistinctWindows(s);
  }

  /**
   * What the window loop carries from one window to the next: the window list
   * with SWATHRunner's position in it, SWATHCount, the trackers and the sum of
   * the median cycle times.
   */
  datatype PassState = PassState(swaths: seq<SwathMetrics>, runner: nat, count: nat,
                                 extrema: RunExtrema, sum: real)

  /** One iteration of the window loop, for a window whose statistics are `m`. */
  function NextWindow(st: PassState, m: SwathMetrics): (r: PassState)
    requires st.runner <= |st.swaths|
    ensures r.runner <= |r.swaths|
  {
    PassState(st.swaths[..st.runner] + [m], st.runner + 1, st.count + 1, Absorb(st.extrema, m),
              st.sum + m.cycleTimeMedian)
  }

  /** The window loop run over the scans `rest` still in the list. */
  ghost function PassFrom(st: PassState, rest: seq<Scan>): (r: PassState)
    requires EveryWindowRepeats(rest) && st.runner <= |st.swaths|
    decreases |rest|
  {
    if rest == [] then st
    else
      FirstWindowStep(rest);
      var k := KeyOf(rest[0]);
      PassFrom(NextWindow(st, WindowOf(WithKey(rest, k))), WithoutKey(rest, k))
  }

  /**
   * The state after the windows `done`, starting from window list `swaths0`,
   * count `count0` and trackers `extrema0`.
   */
  ghost predicate After(st: PassState, swaths0: seq<SwathMetrics>, count0: nat, extrema0: RunExtrema,
                        done: seq<SwathMetrics>)
  {
    && st.swaths == (if done == [] then swaths0 else done) && st.runner == |done|
    && st.count == count0 + |done| && st.extrema == FoldExtrema(extrema0, done)
    && st.sum == SumCycleMedians(done)
  }

  /** One iteration moves a window from the loop's input to the windows done. */
  lemma NextWindowAfter(st: PassState, swaths0: seq<SwathMetrics>, count0: nat, extrema0: RunExtrema,
                        done: seq<SwathMetrics>, m: SwathMetrics)
    requires After(st, swaths0, count0, extrema0, done)
    ensures st.runner <= |st.swaths|
    ensures After(NextWindow(st, m), swaths0, count0, extrema0, done + [m])
  {
    TrackersSnoc(extrema0, done, m);
    assert st.swaths[..st.runner] == done;
  }

  /** The first iteration of the loop over `rest`, and the first window of `rest`. */
  lemma PassFromStep(st: PassState, rest: seq<Scan>)
    requires EveryWindowRepeats(rest) && st.runner <= |st.swaths| && rest != []
    ensures var k := KeyOf(rest[0]);
      && |WithKey(rest, k)| >= 2 && |WithoutKey(rest, k)| < |rest| && EveryWindowRepeats(WithoutKey(rest, k))
      && PassFrom(st, rest) == PassFrom(NextWindow(st, WindowOf(WithKey(rest, k))), WithoutKey(rest, k))
      && SwathsOf(rest) == [WindowOf(WithKey(rest, k))] + SwathsOf(WithoutKey(rest, k))
  {
    FirstWindowStep(rest);
  }

  /** The loop body applied to the windows `ws` in order. */
  function FoldPass(st: PassState, ws: seq<SwathMetrics>): (r: PassState)
    requires st.runner <= |st.swaths|
    ensures r.runner <= |r.swaths|
    decreases |ws|
  {
    if ws == [] then st else FoldPass(NextWindow(st, ws[0]), ws[1..])
  }

  /** The loop over the scans `rest` is the loop body applied to the windows of `rest`. */
  lemma {:induction false} PassFromFolds(st: PassState, rest: seq<Scan>)
    requires EveryWindowRepeats(rest) && st.runner <= |st.swaths|
    ensures PassFrom(st, rest) == FoldPass(st, SwathsOf(rest))
    decreases |rest|
  {
    if rest != [] {
      PassFromStep(st, rest);
      var k := KeyOf(rest[0]);
      var m, later := WindowOf(WithKey(rest, k)), WithoutKey(rest, k);
      PassFromFolds(NextWindow(st, m), later);
      assert ([m] + SwathsOf(later))[1..] == SwathsOf(later);
    }
  }

  /** Folding the windows `ws` extends the windows done by `ws`. */
  lemma {:induction false} FoldPassAppends(st: PassState, swaths0: seq<SwathMetrics>, count0: nat,
                                           extrema0: RunExtrema, done: seq<SwathMetrics>, ws: seq<SwathMetrics>)
    requires After(st, swaths0, count0, extrema0, done)
    ensures st.runner <= |st.swaths|
    ensures After(FoldPass(st, ws), swaths0, count0, extrema0, done + ws)
    decreases |ws|
  {
    if ws == [] {
      assert done + [] == done;
    } else {
      NextWindowAfter(st, swaths0, count0, extrema0, done, ws[0]);
      FoldPassAppends(NextWindow(st, ws[0]), swaths0, count0, extrema0, done + [ws[0]], ws[1..]);
      assert done + [ws[0]] + ws[1..] == done + ws;
    }
  }

  /**
   * The window loop started with no window linked and a zero sum, over all
   * the scans `s`: what it leaves in each field, in terms of SwathsOf(s).
   */
  lemma PassResult(st: PassState, s: seq<Scan>)
    requires EveryWindowRepeats(s) && st.runner == 0 && st.sum == 0.0
    ensures var r, ws := PassFrom(st, s), SwathsOf(s);
      && r.swaths == (if ws == [] then st.swaths else ws) && r.count == st.count + |ws|
      && r.extrema == FoldExtrema(st.extrema, ws) && r.sum == SumCycleMedians(ws)
  {
    var ws := SwathsOf(s);
    assert After(FoldPass(st, ws), st.swaths, st.count, st.extrema, ws) by {
      assert After(st, st.swaths, st.count, st.extrema, []);
      FoldPassAppends(st, st.swaths, st.count, st.extrema, [], ws);
      assert [] + ws == ws;
    }
    assert PassFrom(st, s) == FoldPass(st, ws) by {
      PassFromFolds(st, s);
    }
  }

  class Experiment {
    var sourceFile: string
    var instrument: string
    var serialNumber: string
    var startTimeStamp: string
    var maxScanStartTime: real
    var ms1Count: int
    var msnCount: int
    var swathCount: nat
    var extrema: RunExtrema
    var medianCycleTimeAverage: Average
    var peakCountDistn: array<int>
    var scansTable: ScanList
    var swaths: seq<SwathMetrics>
    /** ScansRunner, as a position in the scan list: 0 is the header. */
    var runner: nat
    var lastPeakCount: int
    var lastNativeId: string

    /** A run as `new LCMSMSExperiment()` creates it, named after its source file. */
    constructor (sourceFile: string)
      ensures this.sourceFile == sourceFile
      ensures instrument == "" && serialNumber == "" && startTimeStamp == ""
      ensures maxScanStartTime == 0.0 && ms1Count == 0 && msnCount == 0
      ensures swathCount == 0 && extrema == INITIAL_EXTREMA && medianCycleTimeAverage == Value(0.0)
      ensures fresh(peakCountDistn) && peakCountDistn.Length == MAX_PK_COUNT + 1
      ensures forall i :: 0 <= i < peakCountDistn.Length ==> peakCountDistn[i] == 0
      ensures fresh(scansTable) && scansTable.header == EMPTY_SCAN && scansTable.scans == []
      ensures swaths == [] && runner == 0 && lastPeakCount == 0 && lastNativeId == ""
    {
      this.sourceFile := sourceFile;
      instrument, serialNumber, startTimeStamp := "", "", "";
      maxScanStartTime, ms1Count, msnCount := 0.0, 0, 0;
      swathCount, extrema, medianCycleTimeAverage := 0, INITIAL_EXTREMA, Value(0.0);
      peakCountDistn := new int[MAX_PK_COUNT + 1](_ => 0);
      scansTable := new ScanList();
      swaths := [];
      runner, lastPeakCount, lastNativeId := 0, 0, "";
    }

    /** The fields the mzML reader writes, as one value. */
    function ReaderState(): Reader
      reads this, scansTable, peakCountDistn
    {
      Reader(startTimeStamp, instrument, serialNumber, maxScanStartTime, ms1Count, msnCount,
        scansTable.header, scansTable.scans, runner, lastPeakCount, lastNativeId, peakCountDistn[..])
    }

    /** The fields the mzML reader leaves alone are those it leaves alone. */
    twostate predicate ReaderOnly()
      reads this
    {
      && sourceFile == old(sourceFile) && swathCount == old(swathCount)
      && extrema == old(extrema) && medianCycleTimeAverage == old(medianCycleTimeAverage)
      && swaths == old(swaths)
      && scansTable == old(scansTable) && peakCountDistn == old(peakCountDistn)
    }

    /** Writes a decimal parameter into the runner's record. */
    method WriteDecimal(v: Option<real>, term: CvTerm) returns (ok: bool)
      requires runner <= |scansTable.scans|
      modifies this, scansTable
      ensures ReaderOnly()
      ensures (ReaderState(), ok) == SetDecimal(old(ReaderState()), v, term)
    {
      if v.None? {
        return false;
      }
      var x := v.value;
      var s := scansTable.Record(runner);
      match term {
        case ScanStartTime =>
          s := s.(scanStartTime := x);
          if x > maxScanStartTime {
            maxScanStartTime := x;
          }
        case FaimsCompensationVoltage => s := s.(faimsCompVoltage := x);
        case IsolationWindowTarget => s := s.(isolationTarget := x);
        case IsolationWindowLowerOffset => s := s.(isolationLowerOffset := x);
        case IsolationWindowUpperOffset => s := s.(isolationHigherOffset := x);
        case _ => s := s.(tic := x);
      }
      scansTable.SetRecord(runner, s);
      ok := true;
    }

    /** The MS level parameter: count an MS1, or link and count a new MS/MS record. */
    method ReadLevel(level: Option<int>) returns (ok: bool)
      requires runner <= |scansTable.scans|
      modifies this, scansTable, peakCountDistn
      ensures ReaderOnly()
      ensures (ReaderState(), ok) == ReadMsLevel(old(ReaderState()), level)
    {
      if level.None? {
        return false;
      }
      if level.value == 1 {
        ms1Count := ms1Count + 1;
        return true;
      }
      msnCount := msnCount + 1;
      scansTable.LinkAfter(runner, EMPTY_SCAN.(nativeId := lastNativeId, peakCount := lastPeakCount));
      runner := runner + 1;
      var bin := if lastPeakCount > MAX_PK_COUNT then MAX_PK_COUNT else lastPeakCount;
      if !(0 <= bin < peakCountDistn.Length) {
        return false;
      }
      peakCountDistn[bin] := peakCountDistn[bin] + 1;
      ok := true;
    }

    /** A cvParam element: the switch on its accession. */
    method ReadCvParamNode(attributes: map<string, string>, parse: RealParser) returns (ok: bool)
      requires runner <= |scansTable.scans|
      modifies this, scansTable, peakCountDistn
      ensures ReaderOnly()
      ensures (ReaderState(), ok) == ReadCvParam(old(ReaderState()), attributes, parse)
    {
      ok := true;
      var value := Attribute(attributes, "value");
      var term := Classify(Attribute(attributes, "accession"));
      match term {
        case InstrumentModel => instrument := Text(Attribute(attributes, "name"));
        case InstrumentSerialNumber => serialNumber := Text(value);
        case MsLevel => ok := ReadLevel(ParseIntAttribute(value));
        case Unrecognised =>
        case _ => ok := WriteDecimal(ParseRealAttribute(value, parse), term);
      }
    }

    /** One node of the document. */
    method ReadNode(node: Node, parse: RealParser) returns (ok: bool)
      requires runner <= |scansTable.scans|
      modifies this, scansTable, peakCountDistn
      ensures ReaderOnly()
      ensures (ReaderState(), ok) == Step(old(ReaderState()), node, parse)
    {
      ok := true;
      if node.NonElement? {
        return;
      }
      var attributes := node.attributes;
      if node.name == "run" {
        startTimeStamp := Text(Attribute(attributes, "startTimeStamp"));
      } else if node.name == "spectrum" {
        var count := ParseIntAttribute(Attribute(attributes, "defaultArrayLength"));
        if count.None? {
          return false;
        }
        lastPeakCount := count.value;
        lastNativeId := Text(Attribute(attributes, "id"));
      } else if node.name == "cvParam" {
        ok := ReadCvParamNode(attributes, parse);
      }
    }

    /**
     * ReadFromMZML: the runner starts at the header and the nodes are read in
     * order; `ok` is false when reading throws, leaving the state reached.
     */
    method ReadFromMZML(nodes: seq<Node>, parse: RealParser) returns (ok: bool)
      modifies this, scansTable, peakCountDistn
      ensures ReaderOnly()
      ensures (ReaderState(), ok) == Run(old(ReaderState()).(runner := 0), nodes, parse)
    {
      runner := 0;
      ghost var goal := Run(ReaderState(), nodes, parse);
      var i := 0;
      while i < |nodes|
        invariant 0 <= i <= |nodes| && runner <= |scansTable.scans|
        invariant ReaderOnly()
        invariant Run(ReaderState(), nodes[i..], parse) == goal
      {
        assert nodes[i..][1..] == nodes[i + 1..];
        ok := ReadNode(nodes[i], parse);
        if !ok {
          return;
        }
        i := i + 1;
      }
      ok := true;
    }

    /** Everything but the scan list and the window results is as it was. */
    twostate predicate WindowPassOnly()
      reads this
    {
      && sourceFile == old(sourceFile) && instrument == old(instrument)
      && serialNumber == old(serialNumber) && startTimeStamp == old(startTimeStamp)
      && maxScanStartTime == old(maxScanStartTime) && ms1Count == old(ms1Count) && msnCount == old(msnCount)
      && peakCountDistn == old(peakCountDistn) && runner == old(runner)
      && lastPeakCount == old(lastPeakCount) && lastNativeId == old(lastNativeId)
      && scansTable == old(scansTable)
    }

    /**
     * One pass of the window loop's body: the statistics of the window just
     * excised (`these`) are linked after position `at` and folded into the
     * trackers and `sum`; then the next window is excised.
     */
    method MeasureWindow(these: ScanList, ghost rest: seq<Scan>, at: nat, sum: real)
        returns (next: ScanList?, sum': real)
      requires these != scansTable && rest != [] && EveryWindowRepeats(rest) && at <= |swaths|
      requires these.scans == WithKey(rest, KeyOf(rest[0]))
      requires scansTable.scans == WithoutKey(rest, KeyOf(rest[0]))
      modifies this, scansTable
      ensures WindowPassOnly() && scansTable.header == old(scansTable.header)
      ensures medianCycleTimeAverage == old(medianCycleTimeAverage)
      ensures var later := old(scansTable.scans);
        && |later| < |rest| && EveryWindowRepeats(later) && at + 1 <= |swaths|
        && PassFrom(PassState(swaths, at + 1, swathCount, extrema, sum'), later)
           == PassFrom(PassState(old(swaths), at, old(swathCount), old(extrema), sum), rest)
        && (next == null <==> later == [])
        && (next == null ==> scansTable.scans == [])
        && (next != null ==>
              && next != scansTable
              && next.scans == WithKey(later, KeyOf(later[0]))
              && scansTable.scans == WithoutKey(later, KeyOf(later[0])))
    {
      ghost var st := PassState(swaths, at, swathCount, extrema, sum);
      PassFromStep(st, rest);
      var m := ComputeWindow(these.scans);
      sum' := LinkWindow(m, at, sum);
      next := scansTable.ExciseAllAtFirstIsolationTarget();
    }

    /**
     * Links the statistics `m` of one window after position `at` of the
     * window list and folds them into the trackers and `sum`.
     */
    method LinkWindow(m: SwathMetrics, at: nat, sum: real) returns (sum': real)
      requires at <= |swaths|
      modifies this
      ensures WindowPassOnly() && medianCycleTimeAverage == old(medianCycleTimeAverage)
      ensures PassState(swaths, at + 1, swathCount, extrema, sum')
              == NextWindow(PassState(old(swaths), at, old(swathCount), old(extrema), sum), m)
    {
      swathCount := swathCount + 1;
      swaths := swaths[..at] + [m];
      extrema := Absorb(extrema, m);
      sum' := sum + m.cycleTimeMedian;
    }

    /**
     * The window loop of ComputeMetricsForSwaths: excises the windows one
     * after another, links each window's statistics and folds them into the
     * run's trackers; returns the sum of the median cycle times.
     */
    method MeasureWindows() returns (sumMedianCycleTime: real)
      requires EveryWindowRepeats(scansTable.scans)
      modifies this, scansTable
      ensures WindowPassOnly() && scansTable.header == old(scansTable.header)
      ensures medianCycleTimeAverage == old(medianCycleTimeAverage)
      ensures scansTable.scans == []
      ensures var ws := SwathsOf(old(scansTable.scans));
        && swaths == (if ws == [] then old(swaths) else ws)
        && swathCount == old(swathCount) + |ws|
        && extrema == FoldExtrema(old(extrema), ws)
        && sumMedianCycleTime == SumCycleMedians(ws)
    {
      ghost var original := scansTable.scans;
      ghost var rest := original;
      ghost var start := PassState(swaths, 0, swathCount, extrema, 0.0);
      ghost var goal := PassFrom(start, original);
      var swathRunner := 0;
      sumMedianCycleTime := 0.0;
      var these := scansTable.ExciseAllAtFirstIsolationTarget();
      while these != null
        invariant WindowPassOnly() && scansTable.header == old(scansTable.header)
        invariant medianCycleTimeAverage == old(medianCycleTimeAverage)
        invariant EveryWindowRepeats(rest) && swathRunner <= |swaths|
        invariant PassFrom(PassState(swaths, swathRunner, swathCount, extrema, sumMedianCycleTime), rest) == goal
        invariant these == null <==> rest == []
        invariant these == null ==> scansTable.scans == []
        invariant these != null ==>
          && these != scansTable && rest != []
          && these.scans == WithKey(rest, KeyOf(rest[0]))
          && scansTable.scans == WithoutKey(rest, KeyOf(rest[0]))
        decreases |rest|
      {
        ghost var later := scansTable.scans;
        these, sumMedianCycleTime := MeasureWindow(these, rest, swathRunner, sumMedianCycleTime);
        swathRunner := swathRunner + 1;
        rest := later;
      }
      PassResult(start, original);
    }

    /**
     * ComputeMetricsForSwaths: the window loop, then the average of the
     * median cycle times over all windows counted so far.
     */
    method ComputeMetricsForSwaths()
      requires EveryWindowRepeats(scansTable.scans)
      modifies this, scansTable
      ensures WindowPassOnly() && scansTable.header == old(scansTable.header)
      ensures scansTable.scans == []
      ensures var ws := SwathsOf(old(scansTable.scans));
        && swaths == (if ws == [] then old(swaths) else ws)
        && swathCount == old(swathCount) + |ws|
        && extrema == FoldExtrema(old(extrema), ws)
        && medianCycleTimeAverage == AverageOf(SumCycleMedians(ws), swathCount)
    {
      var sumMedianCycleTime := MeasureWindows();
      medianCycleTimeAverage := if swathCount == 0 then NotANumber
                                else Value(sumMedianCycleTime / swathCount as real);
    }

    /**
     * ParseScanNumbers: each MS/MS record's scan number becomes the value read
     * from its native identifier; `ok` is false where int.Parse or a missing
     * '=' throws, after which the remaining records keep their numbers.
     */
    method ParseScanNumbers() returns (ok: bool)
      modifies scansTable
      ensures scansTable.header == old(scansTable.header)
      ensures (scansTable.scans, ok) == NumberScans(old(scansTable.scans))
    {
      ghost var original := scansTable.scans;
      NumberScansRenumbers(original);
      var i := 0;
      while i < |scansTable.scans|
        invariant scansTable.header == old(scansTable.header)
        invariant i <= |original| && scansTable.scans == Renumbered(original, i)
        invariant forall j :: 0 <= j < i ==> ReadingOf(original[j]).ok
      {
        var record := scansTable.scans[i];
        var number, read := ReadScanNumber(record.nativeId, record.scanNumber);
        scansTable.SetRecord(i + 1, record.(scanNumber := number));
        RenumberedStep(original, i);
        if !read {
          return false;
        }
        i := i + 1;
      }
      ok := true;
    }

    /** GoToScan: the first MS/MS record carrying scan number `target`, if any. */
    method GoToScan(target: int) returns (r: Option<nat>)
      ensures r.Some? ==> r.value < |scansTable.scans| && scansTable.scans[r.value].scanNumber == target
      ensures r.Some? ==> forall j :: 0 <= j < r.value ==> scansTable.scans[j].scanNumber != target
      ensures r.None? ==> forall j :: 0 <= j < |scansTable.scans| ==> scansTable.scans[j].scanNumber != target
    {
      var i := 0;
      while i < |scansTable.scans|
        invariant i <= |scansTable.scans|
        invariant forall j :: 0 <= j < i ==> scansTable.scans[j].scanNumber != target
      {
        if scansTable.scans[i].scanNumber == target {
          return Some(i);
        }
        i := i + 1;
      }
      return None;
    }
  }

  /**
   * Find: the first run after the list's head whose source file is
   * `basename`, or null when there is none.
   */
  method Find(runs: seq<Experiment>, basename: string) returns (found: Experiment?)
    ensures found == null <==> forall i :: 0 <= i < |runs| ==> runs[i].sourceFile != basename
    ensures found != null ==>
      exists i :: 0 <= i < |runs| && runs[i] == found && found.sourceFile == basename
        && forall j :: 0 <= j < i ==> runs[j].sourceFile != basename
  {
    var i := 0;
    while i < |runs|
      invariant i <= |runs|
      invariant forall j :: 0 <= j < i ==> runs[j].sourceFile != basename
    {
      if basename == runs[i].sourceFile {
        return runs[i];
      }
      i := i + 1;
    }
    return null;
  }
}
