/**
 * The single pass over an mzML document that fills in a run: the `run`
 * element's time stamp, each `spectrum` element's peak count and native
 * identifier, and the controlled-vocabulary parameters (`cvParam`) that name
 * the instrument or describe the current scan record.
 *
 * The XML reader is abstracted to the sequence of nodes it yields; only
 * element nodes matter. Parsing decimal text (Single.Parse and Double.Parse
 * under the invariant culture) is a parameter of the reader.
 */
module Mzml {
  import opened Basics
  import opened Scans
  import opened ScanNumbers
  import opened Histogram

  /** The last bin of the peak-count histogram collects every larger count. */
  const MAX_PK_COUNT: int := 10000

  /** A node of the document: an element with its attributes, or anything else. */
  datatype Node = Element(name: string, attributes: map<string, string>) | NonElement

  /** `GetAttribute`: None (null) when the attribute is absent. */
  function Attribute(attributes: map<string, string>, key: string): Option<string>
  {
    if key in attributes then Some(attributes[key]) else None
  }

  /** A string field assigned from an attribute; null is kept as the empty string. */
  function Text(a: Option<string>): string
  {
    if a.Some? then a.value else ""
  }

  /** A decimal parser (Single.Parse or Double.Parse); None where it throws. */
  type RealParser = string -> Option<real>

  /** A decimal attribute: parsing a missing attribute throws as well. */
  function ParseRealAttribute(a: Option<string>, parse: RealParser): Option<real>
  {
    if a.Some? then parse(a.value) else None
  }

  /** An integer attribute, read with int.Parse. */
  function ParseIntAttribute(a: Option<string>): Option<int>
  {
    if a.Some? then ParseInt(a.value) else None
  }

  /** The controlled-vocabulary terms the reader acts on. */
  datatype CvTerm =
    | InstrumentModel
    | InstrumentSerialNumber
    | ScanStartTime
    | FaimsCompensationVoltage
    | IsolationWindowTarget
    | IsolationWindowLowerOffset
    | IsolationWindowUpperOffset
    | TotalIonCurrent
    | MsLevel
    | Unrecognised

  /** The accession numbers of the PSI-MS instrument models the reader recognises. */
  const INSTRUMENT_MODELS: set<string> := {
    "MS:1000557", "MS:1000932", "MS:1001742", "MS:1001910", "MS:1001911",
    "MS:1002416", "MS:1002523", "MS:1002533", "MS:1002634", "MS:1002732",
    "MS:1002877", "MS:1003005", "MS:1003028", "MS:1003029", "MS:1003094",
    "MS:1003123", "MS:1003293" }

  /** The `switch` on a cvParam's accession; a missing accession matches no case. */
  function Classify(accession: Option<string>): CvTerm
  {
    if accession.None? then Unrecognised
    else
      var a := accession.value;
      if a in INSTRUMENT_MODELS then InstrumentModel
      else if a == "MS:1000529" then InstrumentSerialNumber
      else if a == "MS:1000016" then ScanStartTime
      else if a == "MS:1001581" then FaimsCompensationVoltage
      else if a == "MS:1000827" then IsolationWindowTarget
      else if a == "MS:1000828" then IsolationWindowLowerOffset
      else if a == "MS:1000829" then IsolationWindowUpperOffset
      else if a == "MS:1000285" then TotalIonCurrent
      else if a == "MS:1000511" then MsLevel
      else Unrecognised
  }

  /**
   * The fields of a run that the reader writes. The scan list is the header
   * record followed by `scans`; `runner` is the record the reader writes to:
   * 0 for the header, k for `scans[k - 1]`.
   */
  datatype Reader = Reader(
    startTimeStamp: string,
    instrument: string,
    serialNumber: string,
    maxScanStartTime: real,
    ms1Count: int,
    msnCount: int,
    header: Scan,
    scans: seq<Scan>,
    runner: nat,
    lastPeakCount: int,
    lastNativeId: string,
    peakCountDistn: seq<int>)

  predicate Valid(r: Reader)
  {
    r.runner <= |r.scans|
  }

  /** The record the runner points at. */
  function Current(r: Reader): Scan
    requires Valid(r)
  {
    if r.runner == 0 then r.header else r.scans[r.runner - 1]
  }

  /** The reader with the record under the runner replaced. */
  function WithCurrent(r: Reader, s: Scan): (r': Reader)
    requires Valid(r)
    ensures Valid(r') && Current(r') == s
  {
    if r.runner == 0 then r.(header := s) else r.(scans := r.scans[r.runner - 1 := s])
  }

  /** The histogram bin of a peak count: counts above the maximum share the last bin. */
  function PeakCountBin(n: int): int
  {
    if n > MAX_PK_COUNT then MAX_PK_COUNT else n
  }

  /**
   * An MS/MS level: a new record after the runner, carrying the native
   * identifier and peak count of the last spectrum element, becomes the
   * runner's record (any records after the runner are dropped).
   */
  function LinkNewRecord(r: Reader): (r': Reader)
    requires Valid(r)
  {
    var linked := EMPTY_SCAN.(nativeId := r.lastNativeId, peakCount := r.lastPeakCount);
    r.(msnCount := r.msnCount + 1, scans := r.scans[..r.runner] + [linked], runner := r.runner + 1)
  }

  /** A decimal value written into the runner's record by `set`; the step throws when parsing does. */
  function SetDecimal(r: Reader, v: Option<real>, term: CvTerm): (result: (Reader, bool))
    requires Valid(r)
    ensures var r' := result.0;
      && r'.runner == r.runner && |r'.scans| == |r.scans| && r'.msnCount == r.msnCount
      && r'.peakCountDistn == r.peakCountDistn
  {
    if v.None? then (r, false)
    else
      var s := Current(r);
      var x := v.value;
      match term
      case ScanStartTime =>
        (WithCurrent(r, s.(scanStartTime := x)).(maxScanStartTime := if x > r.maxScanStartTime then x else r.maxScanStartTime), true)
      case FaimsCompensationVoltage => (WithCurrent(r, s.(faimsCompVoltage := x)), true)
      case IsolationWindowTarget => (WithCurrent(r, s.(isolationTarget := x)), true)
      case IsolationWindowLowerOffset => (WithCurrent(r, s.(isolationLowerOffset := x)), true)
      case IsolationWindowUpperOffset => (WithCurrent(r, s.(isolationHigherOffset := x)), true)
      case _ => (WithCurrent(r, s.(tic := x)), true)
  }

  /** The MS level parameter: MS1 is only counted; any other level links a new record. */
  function ReadMsLevel(r: Reader, level: Option<int>): (Reader, bool)
    requires Valid(r)
  {
    if level.None? then (r, false)
    else if level.value == 1 then (r.(ms1Count := r.ms1Count + 1), true)
    else
      var r1 := LinkNewRecord(r);
      var bin := PeakCountBin(r.lastPeakCount);
      if 0 <= bin < |r1.peakCountDistn| then
        (r1.(peakCountDistn := r1.peakCountDistn[bin := r1.peakCountDistn[bin] + 1]), true)
      else (r1, false)
  }

  /** One cvParam element. */
  function ReadCvParam(r: Reader, attributes: map<string, string>, parse: RealParser): (Reader, bool)
    requires Valid(r)
  {
    var value := Attribute(attributes, "value");
    match Classify(Attribute(attributes, "accession"))
    case InstrumentModel => (r.(instrument := Text(Attribute(attributes, "name"))), true)
    case InstrumentSerialNumber => (r.(serialNumber := Text(value)), true)
    case MsLevel => ReadMsLevel(r, ParseIntAttribute(value))
    case Unrecognised => (r, true)
    case term => SetDecimal(r, ParseRealAttribute(value, parse), term)
  }

  /**
   * One node. The second component is false where the source throws; the
   * state is then what it was when the exception was raised.
   */
  function Step(r: Reader, node: Node, parse: RealParser): (result: (Reader, bool))
    requires Valid(r)
    ensures Valid(result.0)
    ensures |result.0.peakCountDistn| == |r.peakCountDistn|
  {
    match node
    case NonElement => (r, true)
    case Element(name, attributes) =>
      if name == "run" then
        (r.(startTimeStamp := Text(Attribute(attributes, "startTimeStamp"))), true)
      else if name == "spectrum" then
        var count := ParseIntAttribute(Attribute(attributes, "defaultArrayLength"));
        if count.None? then (r, false)
        else (r.(lastPeakCount := count.value, lastNativeId := Text(Attribute(attributes, "id"))), true)
      else if name == "cvParam" then ReadCvParam(r, attributes, parse)
      else (r, true)
  }

  /** The nodes read in order until the end or the first exception. */
  function Run(r: Reader, nodes: seq<Node>, parse: RealParser): (result: (Reader, bool))
    requires Valid(r)
    ensures Valid(result.0)
    ensures |result.0.peakCountDistn| == |r.peakCountDistn|
    decreases |nodes|
  {
    if nodes == [] then (r, true)
    else
      var (r1, ok) := Step(r, nodes[0], parse);
      if !ok then (r1, false) else Run(r1, nodes[1..], parse)
  }

  // ----- what a pass over the document keeps -----

  /** The runner is at the last record, as it is from the first MS/MS spectrum on. */
  predicate AtLast(r: Reader)
  {
    r.runner == |r.scans|
  }

  /** One more in one bin adds one to the total. */
  lemma {:induction false} CountIncrement(h: seq<int>, i: nat, n: nat)
    requires i < |h| && n <= |h|
    ensures Count(h[i := h[i] + 1], n) == Count(h, n) + if i < n then 1 else 0
  {
    if n > 0 {
      CountIncrement(h, i, n - 1);
    }
  }

  /** The MS level parameter, for StepCounts. */
  lemma MsLevelCounts(r: Reader, level: Option<int>)
    requires AtLast(r)
    ensures var (r', ok) := ReadMsLevel(r, level);
      && AtLast(r')
      && r'.msnCount - |r'.scans| == r.msnCount - |r.scans|
      && (ok ==> Count(r'.peakCountDistn, |r'.peakCountDistn|) - r'.msnCount
                 == Count(r.peakCountDistn, |r.peakCountDistn|) - r.msnCount)
      && (ok && NonNegativeCounts(r.peakCountDistn) ==> NonNegativeCounts(r'.peakCountDistn))
  {
    var d := r.peakCountDistn;
    var bin := PeakCountBin(r.lastPeakCount);
    if level.Some? && level.value != 1 && 0 <= bin < |d| {
      CountIncrement(d, bin, |d|);
    }
  }

  /**
   * Each step keeps the runner at the last record and links exactly one record
   * per MS/MS level read; when it does not throw it also records exactly one
   * histogram entry per MS/MS level, and keeps the counts non-negative.
   */
  lemma StepCounts(r: Reader, node: Node, parse: RealParser)
    requires AtLast(r)
    ensures var (r', ok) := Step(r, node, parse);
      && AtLast(r')
      && r'.msnCount - |r'.scans| == r.msnCount - |r.scans|
      && (ok ==> Count(r'.peakCountDistn, |r'.peakCountDistn|) - r'.msnCount
                 == Count(r.peakCountDistn, |r.peakCountDistn|) - r.msnCount)
      && (ok && NonNegativeCounts(r.peakCountDistn) ==> NonNegativeCounts(r'.peakCountDistn))
  {
    if node.Element? && node.name == "cvParam" {
      MsLevelCounts(r, ParseIntAttribute(Attribute(node.attributes, "value")));
    }
  }

  /**
   * Over a whole pass started at the last record: there are as many new
   * records as MS/MS levels read, and, when no exception is raised, as many
   * new histogram entries as well.
   */
  lemma {:induction false} RunCounts(r: Reader, nodes: seq<Node>, parse: RealParser)
    requires AtLast(r)
    ensures var (r', ok) := Run(r, nodes, parse);
      && AtLast(r')
      && r'.msnCount - |r'.scans| == r.msnCount - |r.scans|
      && (ok ==> Count(r'.peakCountDistn, |r'.peakCountDistn|) - r'.msnCount
                 == Count(r.peakCountDistn, |r.peakCountDistn|) - r.msnCount)
      && (ok && NonNegativeCounts(r.peakCountDistn) ==> NonNegativeCounts(r'.peakCountDistn))
    decreases |nodes|
  {
    if nodes != [] {
      StepCounts(r, nodes[0], parse);
      var (r1, ok) := Step(r, nodes[0], parse);
      if ok {
        RunCounts(r1, nodes[1..], parse);
      }
    }
  }

  /** MaxScanStartTime is non-negative and at least the start time of every record. */
  predicate StartTimesBounded(r: Reader)
  {
    && 0.0 <= r.maxScanStartTime
    && r.header.scanStartTime <= r.maxScanStartTime
    && forall i :: 0 <= i < |r.scans| ==> r.scans[i].scanStartTime <= r.maxScanStartTime
  }

  /** A decimal parameter never lowers MaxScanStartTime and keeps every start time below it. */
  lemma SetDecimalBoundsStartTimes(r: Reader, v: Option<real>, term: CvTerm)
    requires Valid(r) && StartTimesBounded(r)
    ensures var r' := SetDecimal(r, v, term).0;
      StartTimesBounded(r') && r.maxScanStartTime <= r'.maxScanStartTime
  {
    var r' := SetDecimal(r, v, term).0;
    if v.Some? && r.runner > 0 {
      forall i | 0 <= i < |r'.scans| ensures r'.scans[i].scanStartTime <= r'.maxScanStartTime {
        if i != r.runner - 1 {
          assert r'.scans[i] == r.scans[i];
        }
      }
    }
  }

  /** A step never lowers MaxScanStartTime and keeps every record's start time below it. */
  lemma StepBoundsStartTimes(r: Reader, node: Node, parse: RealParser)
    requires Valid(r) && StartTimesBounded(r)
    ensures var r' := Step(r, node, parse).0;
      StartTimesBounded(r') && r.maxScanStartTime <= r'.maxScanStartTime
  {
    if node.Element? && node.name == "cvParam" {
      var value := Attribute(node.attributes, "value");
      SetDecimalBoundsStartTimes(r, ParseRealAttribute(value, parse), Classify(Attribute(node.attributes, "accession")));
      var r1 := LinkNewRecord(r);
      assert forall i :: 0 <= i < |r1.scans| - 1 ==> r1.scans[i] == r.scans[i];
    }
  }

  /**
   * After a pass, MaxScanStartTime is at least its old value and at least the
   * start time of every record.
   */
  lemma {:induction false} RunBoundsStartTimes(r: Reader, nodes: seq<Node>, parse: RealParser)
    requires Valid(r) && StartTimesBounded(r)
    ensures var r' := Run(r, nodes, parse).0;
      StartTimesBounded(r') && r.maxScanStartTime <= r'.maxScanStartTime
    decreases |nodes|
  {
    if nodes != [] {
      StepBoundsStartTimes(r, nodes[0], parse);
      var (r1, ok) := Step(r, nodes[0], parse);
      if ok {
        RunBoundsStartTimes(r1, nodes[1..], parse);
      }
    }
  }

  /** The start time a node carries: the value of a scan-start-time cvParam that parses. */
  function StartTimeOf(node: Node, parse: RealParser): Option<real>
  {
    if node.Element? && node.name == "cvParam"
       && Classify(Attribute(node.attributes, "accession")) == ScanStartTime
    then ParseRealAttribute(Attribute(node.attributes, "value"), parse)
    else None
  }

  /** Only a start-time parameter moves MaxScanStartTime, and only upwards to its value. */
  lemma StepMaxStartTime(r: Reader, node: Node, parse: RealParser)
    requires Valid(r)
    ensures var t := StartTimeOf(node, parse);
      Step(r, node, parse).0.maxScanStartTime
        == if t.Some? && t.value > r.maxScanStartTime then t.value else r.maxScanStartTime
  {
    if node.Element? && node.name == "cvParam" {
      StepCvParam(r, node.attributes, parse);
    }
  }

  /**
   * A pass that raises no exception leaves MaxScanStartTime at the largest of
   * its old value and every start time read.
   */
  lemma {:induction false} RunMaxStartTime(r: Reader, nodes: seq<Node>, parse: RealParser)
    requires Valid(r)
    ensures var (r', ok) := Run(r, nodes, parse);
      ok ==>
        && r.maxScanStartTime <= r'.maxScanStartTime
        && (forall i :: 0 <= i < |nodes| && StartTimeOf(nodes[i], parse).Some? ==>
              StartTimeOf(nodes[i], parse).value <= r'.maxScanStartTime)
        && (r'.maxScanStartTime == r.maxScanStartTime
            || exists i :: 0 <= i < |nodes| && StartTimeOf(nodes[i], parse) == Some(r'.maxScanStartTime))
    decreases |nodes|
  {
    if nodes != [] {
      var (r1, ok) := Step(r, nodes[0], parse);
      StepMaxStartTime(r, nodes[0], parse);
      if ok {
        RunMaxStartTime(r1, nodes[1..], parse);
        var (r', ok') := Run(r1, nodes[1..], parse);
        assert Run(r, nodes, parse) == (r', ok');
        if ok' {
          forall i | 1 <= i < |nodes| ensures StartTimeOf(nodes[i], parse) == StartTimeOf(nodes[1..][i - 1], parse) {
            assert nodes[i] == nodes[1..][i - 1];
          }
          if r'.maxScanStartTime != r1.maxScanStartTime {
            var i :| 0 <= i < |nodes[1..]| && StartTimeOf(nodes[1..][i], parse) == Some(r'.maxScanStartTime);
            assert StartTimeOf(nodes[i + 1], parse) == Some(r'.maxScanStartTime);
          }
        }
      }
    }
  }

  /**
   * An MS/MS level read after a spectrum element with a non-negative peak
   * count never throws on a histogram of MAX_PK_COUNT + 1 bins: it links a
   * record carrying that spectrum's identifier and peak count and adds one
   * to the bin of the count, capped at MAX_PK_COUNT.
   */
  lemma MsnLevelRecorded(r: Reader, level: int)
    requires Valid(r) && level != 1
    requires 0 <= r.lastPeakCount && |r.peakCountDistn| == MAX_PK_COUNT + 1
    ensures var (r', ok) := ReadMsLevel(r, Some(level));
      var bin := if r.lastPeakCount > MAX_PK_COUNT then MAX_PK_COUNT else r.lastPeakCount;
      && ok
      && r'.scans == r.scans[..r.runner] + [Current(r')]
      && Current(r').nativeId == r.lastNativeId && Current(r').peakCount == r.lastPeakCount
      && KeyOf(Current(r')) == KeyOf(EMPTY_SCAN)
      && r'.peakCountDistn == r.peakCountDistn[bin := r.peakCountDistn[bin] + 1]
      && r'.msnCount == r.msnCount + 1 && r'.ms1Count == r.ms1Count
  {
  }

  /** A cvParam element is read by ReadCvParam. */
  lemma StepCvParam(r: Reader, attributes: map<string, string>, parse: RealParser)
    requires Valid(r)
    ensures Step(r, Element("cvParam", attributes), parse) == ReadCvParam(r, attributes, parse)
  {
    assert "cvParam" != "run" && "cvParam" != "spectrum";
  }

  /** Two nodes in a row. */
  lemma RunTwo(r: Reader, a: Node, b: Node, parse: RealParser)
    requires Valid(r)
    ensures var (r1, ok) := Step(r, a, parse);
      Run(r, [a, b], parse) == if ok then Step(r1, b, parse) else (r1, false)
  {
    assert [a, b][1..] == [b];
    var (r1, ok) := Step(r, a, parse);
    if ok {
      RunOne(r1, b, parse);
    }
  }

  /** A single node. */
  lemma RunOne(r: Reader, a: Node, parse: RealParser)
    requires Valid(r)
    ensures Run(r, [a], parse) == Step(r, a, parse)
  {
    assert [a][1..] == [];
  }

  /** An MS level of 1 only counts an MS1 spectrum. */
  lemma CvParamMs1(r: Reader, attributes: map<string, string>, parse: RealParser)
    requires Valid(r)
    requires Classify(Attribute(attributes, "accession")) == MsLevel
    requires ParseIntAttribute(Attribute(attributes, "value")) == Some(1)
    ensures ReadCvParam(r, attributes, parse) == (r.(ms1Count := r.ms1Count + 1), true)
  {
  }

  /** A start time that parses is written into the runner's record. */
  lemma CvParamStartTime(r: Reader, attributes: map<string, string>, parse: RealParser, t: real)
    requires Valid(r)
    requires Classify(Attribute(attributes, "accession")) == ScanStartTime
    requires ParseRealAttribute(Attribute(attributes, "value"), parse) == Some(t)
    ensures ReadCvParam(r, attributes, parse).1
    ensures ReadCvParam(r, attributes, parse).0.scans
      == if r.runner == 0 then r.scans else r.scans[r.runner - 1 := Current(r).(scanStartTime := t)]
  {
  }

  /**
   * Parameters always go to the runner's record. The MS level of a spectrum
   * comes before its start time, so the start time of an MS1 spectrum read
   * after an MS/MS spectrum is written into that MS/MS spectrum's record.
   */
  lemma Ms1StartTimeLandsOnLastRecord(r: Reader, level: map<string, string>, time: map<string, string>,
                                      parse: RealParser, t: real)
    requires AtLast(r) && r.scans != []
    requires Classify(Attribute(level, "accession")) == MsLevel
    requires ParseIntAttribute(Attribute(level, "value")) == Some(1)
    requires Classify(Attribute(time, "accession")) == ScanStartTime
    requires ParseRealAttribute(Attribute(time, "value"), parse) == Some(t)
    ensures var (r', ok) := Run(r, [Element("cvParam", level), Element("cvParam", time)], parse);
      && ok && |r'.scans| == |r.scans| && r'.ms1Count == r.ms1Count + 1
      && r'.scans[|r'.scans| - 1] == r.scans[|r.scans| - 1].(scanStartTime := t)
  {
    RunTwo(r, Element("cvParam", level), Element("cvParam", time), parse);
    StepCvParam(r, level, parse);
    CvParamMs1(r, level, parse);
    var r1 := r.(ms1Count := r.ms1Count + 1);
    StepCvParam(r1, time, parse);
    CvParamStartTime(r1, time, parse, t);
  }
}
