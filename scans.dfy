/**
 * The per-MS/MS scan record (ScanMetrics in DIAMetric.cs), the isolation-window
 * key that groups scans, and the excision of one isolation window from the
 * sentinel-headed scan list.
 *
 * Single- and double-precision fields are modelled as exact reals.
 */
module Scans {

  /** One MS/MS scan record; field defaults are those of `new ScanMetrics()`. */
  datatype Scan = Scan(
    nativeId: string,
    scanNumber: int,
    scanStartTime: real,
    peakCount: int,
    faimsCompVoltage: real,
    tic: real,
    isolationTarget: real,
    isolationLowerOffset: real,
    isolationHigherOffset: real)

  /** A freshly constructed record: empty native identifier, every number zero. */
  const EMPTY_SCAN := Scan("", 0, 0.0, 0, 0.0, 0.0, 0.0, 0.0, 0.0)

  /** An isolation window is identified by its FAIMS compensation voltage and target m/z. */
  datatype WindowKey = WindowKey(faims: real, target: real)

  function KeyOf(s: Scan): WindowKey
  {
    WindowKey(s.faimsCompVoltage, s.isolationTarget)
  }

  /**
   * The pairwise test of the (unused) bubble sort: true as soon as ANY of the
   * three fields of `a` is smaller than that of `b`.
   */
  predicate ComesBefore(a: Scan, b: Scan)
  {
    a.faimsCompVoltage < b.faimsCompVoltage
    || a.isolationTarget < b.isolationTarget
    || a.scanStartTime < b.scanStartTime
  }

  /** Lexicographic order on (FAIMS voltage, isolation target, start time). */
  predicate LexBefore(a: Scan, b: Scan)
  {
    a.faimsCompVoltage < b.faimsCompVoltage
    || (a.faimsCompVoltage == b.faimsCompVoltage && a.isolationTarget < b.isolationTarget)
    || (a.faimsCompVoltage == b.faimsCompVoltage && a.isolationTarget == b.isolationTarget
        && a.scanStartTime < b.scanStartTime)
  }

  /** ComesBefore holds wherever the lexicographic order does, and never of a scan and itself. */
  lemma ComesBeforeContainsLexicographic(a: Scan, b: Scan)
    ensures LexBefore(a, b) ==> ComesBefore(a, b)
    ensures !ComesBefore(a, a)
  {
  }

  /**
   * ComesBefore is not asymmetric: two scans can each come before the other,
   * so it is not a strict order.
   */
  lemma ComesBeforeNotAsymmetric()
    ensures exists a: Scan, b: Scan :: ComesBefore(a, b) && ComesBefore(b, a)
  {
    var a := EMPTY_SCAN.(faimsCompVoltage := 1.0);
    var b := EMPTY_SCAN.(isolationTarget := 1.0);
    assert ComesBefore(a, b) && ComesBefore(b, a);
  }

  /** The scans whose window key is `k`, in their original order. */
  function WithKey(s: seq<Scan>, k: WindowKey): (r: seq<Scan>)
    ensures |r| <= |s|
    ensures forall i :: 0 <= i < |r| ==> KeyOf(r[i]) == k
  {
    if s == [] then []
    else if KeyOf(s[0]) == k then [s[0]] + WithKey(s[1..], k)
    else WithKey(s[1..], k)
  }

  /** The scans whose window key is not `k`, in their original order. */
  function WithoutKey(s: seq<Scan>, k: WindowKey): (r: seq<Scan>)
    ensures |r| <= |s|
    ensures forall i :: 0 <= i < |r| ==> KeyOf(r[i]) != k
  {
    if s == [] then []
    else if KeyOf(s[0]) != k then [s[0]] + WithoutKey(s[1..], k)
    else WithoutKey(s[1..], k)
  }

  /**
   * `s` is an order-preserving merge of `a` and `b`: every element of `s` is
   * taken, in turn, from the front of `a` or of `b`.
   */
  predicate Interleaves(s: seq<Scan>, a: seq<Scan>, b: seq<Scan>)
    decreases |s|
  {
    if s == [] then a == [] && b == []
    else
      (a != [] && a[0] == s[0] && Interleaves(s[1..], a[1..], b))
      || (b != [] && b[0] == s[0] && Interleaves(s[1..], a, b[1..]))
  }

  lemma {:induction false} InterleavesMultiset(s: seq<Scan>, a: seq<Scan>, b: seq<Scan>)
    requires Interleaves(s, a, b)
    ensures multiset(s) == multiset(a) + multiset(b)
    ensures |s| == |a| + |b|
    decreases |s|
  {
    if s != [] {
      assert s == [s[0]] + s[1..];
      if a != [] && a[0] == s[0] && Interleaves(s[1..], a[1..], b) {
        InterleavesMultiset(s[1..], a[1..], b);
        assert a == [a[0]] + a[1..];
      } else {
        InterleavesMultiset(s[1..], a, b[1..]);
        assert b == [b[0]] + b[1..];
      }
    }
  }

  /**
   * Excision splits the list into the scans of window `k` and the rest:
   * the list is an order-preserving merge of the two, so no scan is lost or
   * duplicated and both parts keep their relative order.
   */
  lemma {:induction false} ExcisionIsStablePartition(s: seq<Scan>, k: WindowKey)
    ensures Interleaves(s, WithKey(s, k), WithoutKey(s, k))
    ensures multiset(s) == multiset(WithKey(s, k)) + multiset(WithoutKey(s, k))
    ensures |s| == |WithKey(s, k)| + |WithoutKey(s, k)|
  {
    if s != [] {
      ExcisionIsStablePartition(s[1..], k);
    }
    InterleavesMultiset(s, WithKey(s, k), WithoutKey(s, k));
  }

  /** The window of the first scan always contains that scan, first. */
  lemma ExcisionKeepsFirst(s: seq<Scan>)
    requires s != []
    ensures WithKey(s, KeyOf(s[0])) != []
    ensures WithKey(s, KeyOf(s[0]))[0] == s[0]
    ensures |WithoutKey(s, KeyOf(s[0]))| < |s|
  {
  }

  /** Filtering distributes over concatenation. */
  lemma {:induction false} FilterConcat(a: seq<Scan>, b: seq<Scan>, k: WindowKey)
    ensures WithKey(a + b, k) == WithKey(a, k) + WithKey(b, k)
    ensures WithoutKey(a + b, k) == WithoutKey(a, k) + WithoutKey(b, k)
  {
    if a == [] {
      assert a + b == b;
    } else {
      assert (a + b)[1..] == a[1..] + b;
      FilterConcat(a[1..], b, k);
    }
  }

  /** Removing window `k` does not disturb the scans of another window `j`. */
  lemma {:induction false} WithKeyAfterRemoval(s: seq<Scan>, k: WindowKey, j: WindowKey)
    requires j != k
    ensures WithKey(WithoutKey(s, k), j) == WithKey(s, j)
  {
    if s != [] {
      WithKeyAfterRemoval(s[1..], k, j);
    }
  }

  /** One more scan visited by the excision loop. */
  lemma ExcisionStep(s: seq<Scan>, n: nat, k: WindowKey)
    requires n < |s|
    ensures WithKey(s[..n + 1], k) == WithKey(s[..n], k) + (if KeyOf(s[n]) == k then [s[n]] else [])
    ensures WithoutKey(s[..n + 1], k) == WithoutKey(s[..n], k) + (if KeyOf(s[n]) != k then [s[n]] else [])
    ensures s[n..] == [s[n]] + s[n + 1..]
  {
    assert s[..n + 1] == s[..n] + [s[n]];
    FilterConcat(s[..n], [s[n]], k);
  }

  /**
   * The list during excision: the kept prefix of the visited scans followed
   * by the unvisited ones; visiting scan `n` either splices it out or keeps it.
   */
  lemma {:induction false} SpliceStep(s: seq<Scan>, n: nat, k: WindowKey, cur: seq<Scan>, i: nat)
    requires n < |s| && cur == WithoutKey(s[..n], k) + s[n..] && i == |WithoutKey(s[..n], k)|
    ensures i < |cur| && cur[i] == s[n]
    ensures KeyOf(s[n]) == k ==>
      && WithKey(s[..n + 1], k) == WithKey(s[..n], k) + [s[n]]
      && cur[..i] + cur[i + 1..] == WithoutKey(s[..n + 1], k) + s[n + 1..]
      && i == |WithoutKey(s[..n + 1], k)|
    ensures KeyOf(s[n]) != k ==>
      && WithKey(s[..n + 1], k) == WithKey(s[..n], k)
      && cur == WithoutKey(s[..n + 1], k) + s[n + 1..]
      && i + 1 == |WithoutKey(s[..n + 1], k)|
  {
    ExcisionStep(s, n, k);
    var kept := WithoutKey(s[..n], k);
    var rest := s[n + 1..];
    assert cur == kept + ([s[n]] + rest);
    if KeyOf(s[n]) == k {
      assert cur[..i] == kept && cur[i + 1..] == rest;
    } else {
      assert kept + ([s[n]] + rest) == (kept + [s[n]]) + rest;
    }
  }

  /** A window key occurs in the list exactly when its window is non-empty. */
  lemma {:induction false} WithKeyNonEmpty(s: seq<Scan>, k: WindowKey)
    ensures WithKey(s, k) != [] <==> exists x :: x in s && KeyOf(x) == k
  {
    if s != [] {
      WithKeyNonEmpty(s[1..], k);
      assert forall x :: x in s <==> x == s[0] || x in s[1..];
    }
  }

  /**
   * The sentinel-headed singly linked list of ScanMetrics: `header` holds the
   * fields of the sentinel node itself, `scans` the nodes chained after it.
   */
  class ScanList {
    var header: Scan
    var scans: seq<Scan>

    /** `new ScanMetrics()` used as a list header. */
    constructor ()
      ensures header == EMPTY_SCAN && scans == []
    {
      header := EMPTY_SCAN;
      scans := [];
    }

    /** Links one more node after the current last node of this list. */
    method Append(x: Scan)
      modifies this
      ensures header == old(header) && scans == old(scans) + [x]
    {
      scans := scans + [x];
    }

    /** The record at position `k`: 0 is the header, k > 0 is the k-th scan. */
    function Record(k: nat): Scan
      reads this
      requires k <= |scans|
    {
      if k == 0 then header else scans[k - 1]
    }

    /** Overwrites the record at position `k` (a runner's field assignments). */
    method SetRecord(k: nat, x: Scan)
      requires k <= |scans|
      modifies this
      ensures k == 0 ==> header == x && scans == old(scans)
      ensures k > 0 ==> header == old(header) && scans == old(scans)[k - 1 := x]
    {
      if k == 0 {
        header := x;
      } else {
        scans := scans[k - 1 := x];
      }
    }

    /** `runner.Next = new ScanMetrics()`: the new node replaces whatever followed position `k`. */
    method LinkAfter(k: nat, x: Scan)
      requires k <= |scans|
      modifies this
      ensures header == old(header) && scans == old(scans)[..k] + [x]
    {
      scans := scans[..k] + [x];
    }

    /** Bypasses the node after position `k`, dropping the scan at index `k`. */
    method Unlink(k: nat)
      requires k < |scans|
      modifies this
      ensures header == old(header) && scans == old(scans)[..k] + old(scans)[k + 1..]
    {
      scans := scans[..k] + scans[k + 1..];
    }

    /**
     * Splices every scan sharing the first scan's (FAIMS voltage, isolation
     * target) out of this list into a new sentinel-headed list; null when the
     * list holds no scan.
     */
    method ExciseAllAtFirstIsolationTarget() returns (r: ScanList?)
      modifies this
      ensures header == old(header)
      ensures r == null <==> old(scans) == []
      ensures r == null ==> scans == old(scans)
      ensures r != null ==>
        && fresh(r)
        && r.header == EMPTY_SCAN
        && r.scans == WithKey(old(scans), KeyOf(old(scans)[0]))
        && scans == WithoutKey(old(scans), KeyOf(old(scans)[0]))
    {
      if scans == [] {
        return null;
      }
      ghost var original := scans;
      var target := KeyOf(scans[0]);
      r := new ScanList();
      // the runner sits at position i: scans[..i] are kept, scans[i..] are unvisited
      var i := 0;
      ghost var consumed := 0;
      while i < |scans|
        invariant 0 <= consumed <= |original|
        invariant fresh(r) && header == old(header) && r.header == EMPTY_SCAN
        invariant scans == WithoutKey(original[..consumed], target) + original[consumed..]
        invariant i == |WithoutKey(original[..consumed], target)|
        invariant r.scans == WithKey(original[..consumed], target)
        decreases |scans| - i
      {
        SpliceStep(original, consumed, target, scans, i);
        var x := scans[i];
        if KeyOf(x) == target {
          r.Append(x);
          Unlink(i);
        } else {
          i := i + 1;
        }
        consumed := consumed + 1;
      }
      assert original[..consumed] == original;
    }
  }
}
