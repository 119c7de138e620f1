/**
 * Scan numbers from vendor native identifiers: the identifier is split on
 * spaces, each token on '=', and a token whose key is `cycle`, `scan` or
 * `scanStart` sets the scan number to the integer after its first '='.
 */
module ScanNumbers {
  import opened Basics
  import opened Scans

  // ----- String.Split(char) and its inverse -----

  /**
   * C#'s `s.Split(c)`: the maximal runs between occurrences of `c`, empty runs
   * included, so there is always at least one part.
   */
  function Split(s: string, c: char): (parts: seq<string>)
    ensures |parts| >= 1
  {
    if s == [] then [""]
    else
      var rest := Split(s[1..], c);
      if s[0] == c then [""] + rest else [[s[0]] + rest[0]] + rest[1..]
  }

  /** The parts joined back together with `c` between consecutive parts. */
  function Join(parts: seq<string>, c: char): string
    requires |parts| >= 1
    decreases |parts|
  {
    if |parts| == 1 then parts[0] else parts[0] + [c] + Join(parts[1..], c)
  }

  /** Splitting loses nothing: joining the parts gives the string back. */
  lemma {:induction false} JoinSplit(s: string, c: char)
    ensures Join(Split(s, c), c) == s
  {
    if s != [] {
      var rest := Split(s[1..], c);
      JoinSplit(s[1..], c);
      assert s == [s[0]] + s[1..];
      if s[0] == c {
        assert Split(s, c)[1..] == rest;
      } else if |rest| > 1 {
        assert Split(s, c)[1..] == rest[1..];
      }
    }
  }

  /** No part contains the separator. */
  lemma {:induction false} SplitPartsClean(s: string, c: char)
    ensures forall i :: 0 <= i < |Split(s, c)| ==> c !in Split(s, c)[i]
  {
    if s != [] {
      var rest := Split(s[1..], c);
      SplitPartsClean(s[1..], c);
      var parts := Split(s, c);
      forall i | 0 <= i < |parts| ensures c !in parts[i] {
        if s[0] == c {
          if i > 0 { assert parts[i] == rest[i - 1]; }
        } else if i > 0 {
          assert parts[i] == rest[i];
        }
      }
    }
  }

  /** A string without the separator is a single part. */
  lemma {:induction false} SplitNoSeparator(a: string, c: char)
    requires c !in a
    ensures Split(a, c) == [a]
  {
    if a != [] {
      SplitNoSeparator(a[1..], c);
      assert a == [a[0]] + a[1..];
    }
  }

  /** Splitting at the first separator. */
  lemma {:induction false} SplitAtFirst(a: string, c: char, b: string)
    requires c !in a
    ensures Split(a + [c] + b, c) == [a] + Split(b, c)
  {
    var s := a + [c] + b;
    if a == [] {
      assert s[1..] == b;
    } else {
      assert s[1..] == a[1..] + [c] + b;
      SplitAtFirst(a[1..], c, b);
      assert a == [a[0]] + a[1..];
    }
  }

  /** Parts without the separator are recovered by splitting their join. */
  lemma {:induction false} SplitJoin(parts: seq<string>, c: char)
    requires |parts| >= 1
    requires forall i :: 0 <= i < |parts| ==> c !in parts[i]
    ensures Split(Join(parts, c), c) == parts
    decreases |parts|
  {
    if |parts| == 1 {
      SplitNoSeparator(parts[0], c);
    } else {
      SplitJoin(parts[1..], c);
      SplitAtFirst(parts[0], c, Join(parts[1..], c));
      assert parts == [parts[0]] + parts[1..];
    }
  }

  // ----- int.Parse -----

  predicate IsDigit(ch: char)
  {
    '0' <= ch <= '9'
  }

  predicate AllDigits(s: string)
  {
    forall i :: 0 <= i < |s| ==> IsDigit(s[i])
  }

  /** The value of a string of decimal digits, most significant first. */
  function DigitsValue(s: string): nat
    requires AllDigits(s)
  {
    if s == [] then 0 else DigitsValue(s[..|s| - 1]) * 10 + (s[|s| - 1] as int - '0' as int)
  }

  /**
   * `int.Parse` under the invariant culture: an optional sign, one or more
   * digits, and a value within the range of `int`; None where it throws.
   */
  function ParseInt(s: string): (r: Option<int>)
    ensures r.Some? ==> INT32_MIN <= r.value <= INT32_MAX
  {
    var negative := |s| > 0 && s[0] == '-';
    var body := if |s| > 0 && (s[0] == '-' || s[0] == '+') then s[1..] else s;
    if body == [] || !AllDigits(body) then None
    else
      var v: int := if negative then -(DigitsValue(body) as int) else DigitsValue(body);
      if INT32_MIN <= v <= INT32_MAX then Some(v) else None
  }

  /** The decimal digits of `n`, without leading zeros. */
  function ShowNat(n: nat): (s: string)
    ensures s != []
  {
    if n < 10 then [(n + '0' as int) as char]
    else ShowNat(n / 10) + [(n % 10 + '0' as int) as char]
  }

  /** `n.ToString()` under the invariant culture. */
  function ShowInt(n: int): string
  {
    if n < 0 then "-" + ShowNat(-n) else ShowNat(n)
  }

  lemma {:induction false} ShowNatDigits(n: nat)
    ensures AllDigits(ShowNat(n)) && DigitsValue(ShowNat(n)) == n
  {
    if n >= 10 {
      ShowNatDigits(n / 10);
      var s := ShowNat(n);
      assert s[..|s| - 1] == ShowNat(n / 10);
    }
  }

  /** Every `int` prints to a string that `int.Parse` reads back. */
  lemma ParseShowInt(n: int)
    requires INT32_MIN <= n <= INT32_MAX
    ensures ParseInt(ShowInt(n)) == Some(n)
  {
    var s := ShowInt(n);
    if n < 0 {
      var d := ShowNat(-n);
      ShowNatDigits(-n);
      assert s == "-" + d && s[0] == '-' && s[1..] == d;
    } else {
      ShowNatDigits(n);
      assert IsDigit(s[0]);
    }
  }

  // ----- scan numbers -----

  /** The keys whose value is a scan number. */
  predicate IsScanKey(key: string)
  {
    key == "cycle" || key == "scan" || key == "scanStart"
  }

  /** The outcome of reading one identifier: the number it left and whether it threw. */
  datatype Reading = Reading(number: int, ok: bool)

  /**
   * The scan number after reading `tokens` in order, starting from `current`.
   * A key token whose '=' is missing (IndexOutOfRange) or whose value
   * `int.Parse` rejects stops the reading with `ok` false.
   */
  function ReadTokens(tokens: seq<string>, current: int): Reading
  {
    if tokens == [] then Reading(current, true)
    else
      var kv := Split(tokens[0], '=');
      if !IsScanKey(kv[0]) then ReadTokens(tokens[1..], current)
      else if |kv| < 2 then Reading(current, false)
      else match ParseInt(kv[1])
        case None => Reading(current, false)
        case Some(v) => ReadTokens(tokens[1..], v)
  }

  /** Token `t` carries a scan number, namely `v`. */
  predicate Carries(t: string, v: int)
  {
    var kv := Split(t, '=');
    IsScanKey(kv[0]) && |kv| >= 2 && ParseInt(kv[1]) == Some(v)
  }

  /** Token `t` has a scan-number key. */
  predicate HasScanKey(t: string)
  {
    IsScanKey(Split(t, '=')[0])
  }

  /**
   * Last match wins: a reading that does not throw yields the number of the
   * last token with a scan-number key, or the starting value when there is none.
   */
  lemma {:induction false} LastMatchWins(tokens: seq<string>, current: int)
    requires ReadTokens(tokens, current).ok
    ensures var r := ReadTokens(tokens, current).number;
      || ((forall i :: 0 <= i < |tokens| ==> !HasScanKey(tokens[i])) && r == current)
      || (exists k :: 0 <= k < |tokens| && Carries(tokens[k], r)
            && forall j :: k < j < |tokens| ==> !HasScanKey(tokens[j]))
  {
    if tokens != [] {
      var kv := Split(tokens[0], '=');
      var next := if IsScanKey(kv[0]) then ParseInt(kv[1]).value else current;
      LastMatchWins(tokens[1..], next);
      var r := ReadTokens(tokens, current).number;
      assert r == ReadTokens(tokens[1..], next).number;
      if exists k :: 0 <= k < |tokens[1..]| && Carries(tokens[1..][k], r)
           && forall j :: k < j < |tokens[1..]| ==> !HasScanKey(tokens[1..][j]) {
        var k :| 0 <= k < |tokens[1..]| && Carries(tokens[1..][k], r)
           && forall j :: k < j < |tokens[1..]| ==> !HasScanKey(tokens[1..][j]);
        assert Carries(tokens[k + 1], r);
        forall j | k + 1 < j < |tokens| ensures !HasScanKey(tokens[j]) {
          assert tokens[j] == tokens[1..][j - 1];
        }
      } else {
        assert forall i :: 1 <= i < |tokens| ==> tokens[i] == tokens[1..][i - 1];
        if IsScanKey(kv[0]) {
          assert Carries(tokens[0], r);
        }
      }
    }
  }

  /** The scan number recorded for a native identifier when the record still holds `current`. */
  function ScanNumberOf(nativeId: string, current: int): Reading
  {
    ReadTokens(Split(nativeId, ' '), current)
  }

  // ----- the vendor examples -----

  /** A `key=value` token with a single '=' splits into its key and its value. */
  lemma SplitPair(key: string, value: string)
    requires '=' !in key && '=' !in value
    ensures Split(key + "=" + value, '=') == [key, value]
  {
    SplitAtFirst(key, '=', value);
    SplitNoSeparator(value, '=');
  }

  /** A token without a scan-number key is passed over. */
  lemma SkipToken(t: string, rest: seq<string>, current: int)
    requires !HasScanKey(t)
    ensures ReadTokens([t] + rest, current) == ReadTokens(rest, current)
  {
    assert ([t] + rest)[1..] == rest;
  }

  /** A token carrying a scan number replaces the current one. */
  lemma TakeToken(t: string, rest: seq<string>, current: int, v: int)
    requires Carries(t, v)
    ensures ReadTokens([t] + rest, current) == ReadTokens(rest, v)
  {
    assert ([t] + rest)[1..] == rest;
  }

  /** A key token whose value is the printed form of `v` carries `v`. */
  lemma CarriesShown(key: string, value: string, v: int)
    requires IsScanKey(key) && '=' !in key && '=' !in value
    requires INT32_MIN <= v <= INT32_MAX && value == ShowInt(v)
    ensures Carries(key + "=" + value, v)
  {
    SplitPair(key, value);
    ParseShowInt(v);
  }

  /** A token whose key is not a scan-number key. */
  lemma OtherKey(key: string, value: string)
    requires !IsScanKey(key) && '=' !in key && '=' !in value
    ensures !HasScanKey(key + "=" + value)
  {
    SplitPair(key, value);
  }

  lemma ControllerTypeToken()
    ensures !HasScanKey("controllerType=0")
  {
    OtherKey("controllerType", "0");
    assert "controllerType" + "=" + "0" == "controllerType=0";
  }

  lemma ControllerNumberToken()
    ensures !HasScanKey("controllerNumber=1")
  {
    OtherKey("controllerNumber", "1");
    assert "controllerNumber" + "=" + "1" == "controllerNumber=1";
  }

  lemma SampleToken()
    ensures !HasScanKey("sample=1")
  {
    OtherKey("sample", "1");
    assert "sample" + "=" + "1" == "sample=1";
  }

  lemma PeriodToken()
    ensures !HasScanKey("period=1")
  {
    OtherKey("period", "1");
    assert "period" + "=" + "1" == "period=1";
  }

  lemma ExperimentToken()
    ensures !HasScanKey("experiment=2")
  {
    OtherKey("experiment", "2");
    assert "experiment" + "=" + "2" == "experiment=2";
  }

  lemma MergedToken()
    ensures !HasScanKey("merged=102")
  {
    OtherKey("merged", "102");
    assert "merged" + "=" + "102" == "merged=102";
  }

  lemma FrameToken()
    ensures !HasScanKey("frame=13")
  {
    OtherKey("frame", "13");
    assert "frame" + "=" + "13" == "frame=13";
  }

  lemma ScanEndToken()
    ensures !HasScanKey("scanEnd=834")
  {
    OtherKey("scanEnd", "834");
    assert "scanEnd" + "=" + "834" == "scanEnd=834";
  }

  lemma ScanToken()
    ensures Carries("scan=12", 12)
  {
    assert ShowInt(12) == "12";
    CarriesShown("scan", "12", 12);
    assert "scan" + "=" + "12" == "scan=12";
  }

  lemma CycleToken()
    ensures Carries("cycle=806", 806)
  {
    assert ShowInt(806) == "806";
    CarriesShown("cycle", "806", 806);
    assert "cycle" + "=" + "806" == "cycle=806";
  }

  lemma ScanStartToken()
    ensures Carries("scanStart=810", 810)
  {
    assert ShowInt(810) == "810";
    CarriesShown("scanStart", "810", 810);
    assert "scanStart" + "=" + "810" == "scanStart=810";
  }

  /** Two tokens without a key, then one carrying `v`: the reading is `v`. */
  lemma ReadThree(a: string, b: string, c: string, current: int, v: int)
    requires !HasScanKey(a) && !HasScanKey(b) && Carries(c, v)
    ensures ReadTokens([a, b, c], current) == Reading(v, true)
  {
    TakeToken(c, [], current, v);
    SkipToken(b, [c], current);
    SkipToken(a, [b, c], current);
    assert [a, b, c] == [a] + [b, c] && [b, c] == [b] + [c] && [c] == [c] + [];
  }

  /** As `ReadThree`, followed by one more token without a key. */
  lemma ReadFour(a: string, b: string, c: string, d: string, current: int, v: int)
    requires !HasScanKey(a) && !HasScanKey(b) && Carries(c, v) && !HasScanKey(d)
    ensures ReadTokens([a, b, c, d], current) == Reading(v, true)
  {
    SkipToken(d, [], v);
    TakeToken(c, [d], current, v);
    SkipToken(b, [c, d], current);
    SkipToken(a, [b, c, d], current);
    assert [a, b, c, d] == [a] + [b, c, d] && [b, c, d] == [b] + [c, d];
    assert [c, d] == [c] + [d] && [d] == [d] + [];
  }

  /** Thermo (ProteoWizard): `controllerType=0 controllerNumber=1 scan=12` gives 12. */
  lemma ThermoExample()
    ensures ScanNumberOf(Join(["controllerType=0", "controllerNumber=1", "scan=12"], ' '), 0) == Reading(12, true)
  {
    var t := ["controllerType=0", "controllerNumber=1", "scan=12"];
    SplitJoin(t, ' ');
    ControllerTypeToken();
    ControllerNumberToken();
    ScanToken();
    ReadThree(t[0], t[1], t[2], 0, 12);
  }

  /** SCIEX (ProteoWizard): `sample=1 period=1 cycle=806 experiment=2` gives 806. */
  lemma SciexExample()
    ensures ScanNumberOf(Join(["sample=1", "period=1", "cycle=806", "experiment=2"], ' '), 0) == Reading(806, true)
  {
    var t := ["sample=1", "period=1", "cycle=806", "experiment=2"];
    SplitJoin(t, ' ');
    SampleToken();
    PeriodToken();
    CycleToken();
    ExperimentToken();
    ReadFour(t[0], t[1], t[2], t[3], 0, 806);
  }

  /** Bruker (ProteoWizard): `merged=102 frame=13 scanStart=810 scanEnd=834` gives 810. */
  lemma BrukerExample()
    ensures ScanNumberOf(Join(["merged=102", "frame=13", "scanStart=810", "scanEnd=834"], ' '), 0) == Reading(810, true)
  {
    var t := ["merged=102", "frame=13", "scanStart=810", "scanEnd=834"];
    SplitJoin(t, ' ');
    MergedToken();
    FrameToken();
    ScanStartToken();
    ScanEndToken();
    ReadFour(t[0], t[1], t[2], t[3], 0, 810);
  }

  /**
   * ParseScanNumbers over the records after the header: each record's scan
   * number is rewritten from its native identifier, up to and including the
   * first record whose identifier throws; the later records are left alone.
   */
  function NumberScans(s: seq<Scan>): (result: (seq<Scan>, bool))
    ensures |result.0| == |s|
  {
    if s == [] then ([], true)
    else
      var reading := ScanNumberOf(s[0].nativeId, s[0].scanNumber);
      var first := s[0].(scanNumber := reading.number);
      if !reading.ok then ([first] + s[1..], false)
      else
        var (rest, ok) := NumberScans(s[1..]);
        ([first] + rest, ok)
  }

  /** The reading of record `x`, carrying its current scan number as the default. */
  function ReadingOf(x: Scan): Reading
  {
    ScanNumberOf(x.nativeId, x.scanNumber)
  }

  /** Only scan numbers change. */
  lemma {:induction false} NumberScansOnlyNumbers(s: seq<Scan>)
    ensures var r := NumberScans(s).0;
      forall i :: 0 <= i < |s| ==> r[i] == s[i].(scanNumber := r[i].scanNumber)
  {
    if s != [] {
      NumberScansOnlyNumbers(s[1..]);
      var r := NumberScans(s).0;
      var rest := NumberScans(s[1..]).0;
      forall i | 1 <= i < |s| ensures r[i] == s[i].(scanNumber := r[i].scanNumber) {
        assert s[i] == s[1..][i - 1];
        if ReadingOf(s[0]).ok {
          assert r[i] == rest[i - 1];
        }
      }
    }
  }

  /** Without an exception every record holds the number read from its identifier. */
  lemma {:induction false} NumberScansComplete(s: seq<Scan>)
    ensures var (r, ok) := NumberScans(s);
      ok ==> forall i :: 0 <= i < |s| ==> r[i].scanNumber == ReadingOf(s[i]).number
  {
    if s != [] && ReadingOf(s[0]).ok {
      NumberScansComplete(s[1..]);
      var r := NumberScans(s).0;
      var rest := NumberScans(s[1..]).0;
      forall i | 1 <= i < |s| ensures r[i] == rest[i - 1] && s[i] == s[1..][i - 1] {
      }
    }
  }

  /** The first record whose identifier makes the reading throw. */
  function FirstThrow(s: seq<Scan>): (k: Option<nat>)
    ensures k.Some? ==> k.value < |s| && !ReadingOf(s[k.value]).ok
    ensures k.Some? ==> forall i :: 0 <= i < k.value ==> ReadingOf(s[i]).ok
    ensures k.None? ==> forall i :: 0 <= i < |s| ==> ReadingOf(s[i]).ok
  {
    if s == [] then None
    else if !ReadingOf(s[0]).ok then Some(0)
    else
      var k := FirstThrow(s[1..]);
      assert forall i :: 1 <= i < |s| ==> s[i] == s[1..][i - 1];
      if k.None? then None else Some(k.value + 1)
  }

  /**
   * The pass throws exactly when some record's identifier does; then every
   * record up to that one holds the number reached, and the records after it
   * are unchanged.
   */
  lemma {:induction false} NumberScansStopsAtThrow(s: seq<Scan>)
    ensures var (r, ok) := NumberScans(s);
      && (ok <==> FirstThrow(s).None?)
      && (FirstThrow(s).Some? ==>
            var k := FirstThrow(s).value;
            && (forall i :: 0 <= i <= k ==> r[i].scanNumber == ReadingOf(s[i]).number)
            && (forall i :: k < i < |s| ==> r[i] == s[i]))
  {
    if s != [] {
      var (r, ok) := NumberScans(s);
      if !ReadingOf(s[0]).ok {
        assert forall i :: 1 <= i < |s| ==> r[i] == s[i];
      } else {
        NumberScansStopsAtThrow(s[1..]);
        var rest := NumberScans(s[1..]).0;
        assert forall i :: 1 <= i < |s| ==> r[i] == rest[i - 1] && s[i] == s[1..][i - 1];
      }
    }
  }

  /** `s` with its first `n` records renumbered from their identifiers. */
  function Renumbered(s: seq<Scan>, n: nat): (r: seq<Scan>)
    ensures |r| == |s|
  {
    seq(|s|, j requires 0 <= j < |s| => if j < n then s[j].(scanNumber := ReadingOf(s[j]).number) else s[j])
  }

  /** Renumbering one more record in place extends the renumbered prefix. */
  lemma RenumberedStep(s: seq<Scan>, n: nat)
    requires n < |s|
    ensures Renumbered(s, n)[n := s[n].(scanNumber := ReadingOf(s[n]).number)] == Renumbered(s, n + 1)
  {
  }

  /**
   * The pass renumbers every record when no identifier throws, and otherwise
   * exactly the records up to and including the first that throws.
   */
  lemma NumberScansRenumbers(s: seq<Scan>)
    ensures var (r, ok) := NumberScans(s);
      && (FirstThrow(s).None? ==> ok && r == Renumbered(s, |s|))
      && (FirstThrow(s).Some? ==> !ok && r == Renumbered(s, FirstThrow(s).value + 1))
  {
    var (r, ok) := NumberScans(s);
    NumberScansStopsAtThrow(s);
    NumberScansOnlyNumbers(s);
    var n := if FirstThrow(s).Some? then FirstThrow(s).value + 1 else |s|;
    if FirstThrow(s).None? {
      NumberScansComplete(s);
    }
    assert |r| == |s|;
    forall j | 0 <= j < |s|
      ensures r[j] == Renumbered(s, n)[j]
    {
      if j < n {
        assert r[j].scanNumber == ReadingOf(s[j]).number;
      }
    }
  }

  /**
   * One identifier, token by token as the foreach loop reads it, from the
   * number `current` the record holds.
   */
  method ReadScanNumber(nativeId: string, current: int) returns (number: int, ok: bool)
    ensures Reading(number, ok) == ScanNumberOf(nativeId, current)
  {
    var tokens := Split(nativeId, ' ');
    number := current;
    var i := 0;
    while i < |tokens|
      invariant 0 <= i <= |tokens|
      invariant ReadTokens(tokens[i..], number) == ScanNumberOf(nativeId, current)
    {
      assert tokens[i..][1..] == tokens[i + 1..];
      var kv := Split(tokens[i], '=');
      if IsScanKey(kv[0]) {
        if |kv| < 2 {
          return number, false;
        }
        var v := ParseInt(kv[1]);
        if v.None? {
          return number, false;
        }
        number := v.value;
      }
      i := i + 1;
    }
    ok := true;
  }
}
