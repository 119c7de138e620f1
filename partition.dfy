/**
 * What repeated excision produces: the isolation windows of a scan list, in
 * the order in which each window first appears, each holding exactly that
 * window's scans in their original order.
 */
module Partition {
  import opened Scans

  /** The window keys that occur in `s`. */
  ghost function KeySet(s: seq<Scan>): set<WindowKey>
  {
    set i | 0 <= i < |s| :: KeyOf(s[i])
  }

  /** The groups that repeated calls of the excision take from `s`, in order. */
  ghost function Groups(s: seq<Scan>): seq<seq<Scan>>
    decreases |s|
  {
    if s == [] then []
    else
      ExcisionKeepsFirst(s);
      [WithKey(s, KeyOf(s[0]))] + Groups(WithoutKey(s, KeyOf(s[0])))
  }

  /** The window key of each group, in the order the groups are taken. */
  ghost function WindowOrder(s: seq<Scan>): seq<WindowKey>
    decreases |s|
  {
    if s == [] then []
    else
      ExcisionKeepsFirst(s);
      [KeyOf(s[0])] + WindowOrder(WithoutKey(s, KeyOf(s[0])))
  }

  /** Index of the first scan of window `k`. */
  ghost function FirstIndex(s: seq<Scan>, k: WindowKey): (i: nat)
    requires k in KeySet(s)
    ensures i < |s| && KeyOf(s[i]) == k
    ensures forall j :: 0 <= j < i ==> KeyOf(s[j]) != k
  {
    if KeyOf(s[0]) == k then 0
    else
      assert k in KeySet(s[1..]) by {
        var j :| 0 <= j < |s| && KeyOf(s[j]) == k;
        assert KeyOf(s[1..][j - 1]) == k;
      }
      1 + FirstIndex(s[1..], k)
  }

  /** The concatenation of a sequence of groups. */
  function Flatten(gs: seq<seq<Scan>>): seq<Scan>
  {
    if gs == [] then [] else gs[0] + Flatten(gs[1..])
  }

  lemma KeySetCons(s: seq<Scan>)
    requires s != []
    ensures KeySet(s) == {KeyOf(s[0])} + KeySet(s[1..])
  {
    forall k | k in KeySet(s) ensures k in {KeyOf(s[0])} + KeySet(s[1..]) {
      var j :| 0 <= j < |s| && KeyOf(s[j]) == k;
      if j > 0 { assert KeyOf(s[1..][j - 1]) == k; }
    }
    forall k | k in KeySet(s[1..]) ensures k in KeySet(s) {
      var j :| 0 <= j < |s[1..]| && KeyOf(s[1..][j]) == k;
      assert KeyOf(s[j + 1]) == k;
    }
  }

  /** Removing window `k` removes exactly the key `k` from the keys present. */
  lemma {:induction false} KeySetWithout(s: seq<Scan>, k: WindowKey)
    ensures KeySet(WithoutKey(s, k)) == KeySet(s) - {k}
  {
    if s == [] {
    } else {
      KeySetWithout(s[1..], k);
      KeySetCons(s);
      if KeyOf(s[0]) != k {
        KeySetCons(WithoutKey(s, k));
        assert WithoutKey(s, k)[1..] == WithoutKey(s[1..], k);
      }
    }
  }

  /** Each group is the non-empty window of its key, in the original order of `s`. */
  lemma {:induction false} GroupsAreWindows(s: seq<Scan>)
    ensures |Groups(s)| == |WindowOrder(s)|
    ensures forall i :: 0 <= i < |Groups(s)| ==>
      Groups(s)[i] != [] && Groups(s)[i] == WithKey(s, WindowOrder(s)[i])
    decreases |s|
  {
    if s != [] {
      var k := KeyOf(s[0]);
      var rest := WithoutKey(s, k);
      ExcisionKeepsFirst(s);
      GroupsAreWindows(rest);
      forall i | 1 <= i < |Groups(s)|
        ensures Groups(s)[i] == WithKey(s, WindowOrder(s)[i])
      {
        OrderTail(s, i);
        assert Groups(s)[i] == Groups(rest)[i - 1];
        WithKeyAfterRemoval(s, k, WindowOrder(rest)[i - 1]);
      }
    }
  }

  /**
   * The windows are pairwise distinct and are exactly the keys present in `s`,
   * so there are as many groups as distinct (FAIMS voltage, isolation target) pairs.
   */
  lemma {:induction false} DistinctWindows(s: seq<Scan>)
    ensures forall i, j :: 0 <= i < j < |WindowOrder(s)| ==> WindowOrder(s)[i] != WindowOrder(s)[j]
    ensures forall i :: 0 <= i < |WindowOrder(s)| ==> WindowOrder(s)[i] in KeySet(s)
    ensures forall k :: k in KeySet(s) ==> k in WindowOrder(s)
    ensures |WindowOrder(s)| == |KeySet(s)|
    decreases |s|
  {
    if s != [] {
      var k := KeyOf(s[0]);
      var rest := WithoutKey(s, k);
      ExcisionKeepsFirst(s);
      DistinctWindows(rest);
      KeySetWithout(s, k);
      assert k in KeySet(s) by { assert KeyOf(s[0]) == k; }
      assert KeySet(s) == KeySet(rest) + {k};
    }
  }

  /**
   * Removing window `k` keeps the relative order in which the other windows
   * first appear.
   */
  lemma {:induction false} FirstIndexAfterRemoval(s: seq<Scan>, k: WindowKey, a: WindowKey, b: WindowKey)
    requires a != k && b != k && a != b
    requires a in KeySet(WithoutKey(s, k)) && b in KeySet(WithoutKey(s, k))
    requires FirstIndex(WithoutKey(s, k), a) < FirstIndex(WithoutKey(s, k), b)
    ensures a in KeySet(s) && b in KeySet(s)
    ensures FirstIndex(s, a) < FirstIndex(s, b)
  {
    KeySetWithout(s, k);
    KeySetCons(s);
    var w := WithoutKey(s, k);
    var c := KeyOf(s[0]);
    if c == k {
      assert w == WithoutKey(s[1..], k);
      KeySetWithout(s[1..], k);
      FirstIndexAfterRemoval(s[1..], k, a, b);
    } else if c != a {
      assert w[0] == s[0] && w[1..] == WithoutKey(s[1..], k);
      KeySetWithout(s[1..], k);
      KeySetCons(w);
      if c != b {
        FirstIndexAfterRemoval(s[1..], k, a, b);
      }
    }
  }

  /** Every window after the first is a window of what the first excision leaves. */
  lemma OrderTail(s: seq<Scan>, i: nat)
    requires 0 < i < |WindowOrder(s)|
    ensures s != []
    ensures var rest := WithoutKey(s, KeyOf(s[0]));
      && i - 1 < |WindowOrder(rest)| && WindowOrder(s)[i] == WindowOrder(rest)[i - 1]
      && WindowOrder(s)[i] in KeySet(rest) && WindowOrder(s)[i] in KeySet(s)
      && WindowOrder(s)[i] != KeyOf(s[0])
  {
    var rest := WithoutKey(s, KeyOf(s[0]));
    ExcisionKeepsFirst(s);
    DistinctWindows(rest);
    KeySetWithout(s, KeyOf(s[0]));
  }

  /** Of two windows in the order, the earlier one first appears earlier in `s`. */
  lemma {:induction false} FirstAppearancePair(s: seq<Scan>, i: nat, j: nat)
    requires i < j < |WindowOrder(s)|
    ensures WindowOrder(s)[i] in KeySet(s) && WindowOrder(s)[j] in KeySet(s)
    ensures FirstIndex(s, WindowOrder(s)[i]) < FirstIndex(s, WindowOrder(s)[j])
    decreases |s|
  {
    OrderTail(s, j);
    var k := KeyOf(s[0]);
    var rest := WithoutKey(s, k);
    if i == 0 {
      assert WindowOrder(s)[0] == k;
      assert k in KeySet(s) by { assert KeyOf(s[0]) == k; }
    } else {
      OrderTail(s, i);
      FirstAppearancePair(rest, i - 1, j - 1);
      FirstIndexAfterRemoval(s, k, WindowOrder(rest)[i - 1], WindowOrder(rest)[j - 1]);
    }
  }

  /** The groups come in the order in which their windows first appear in `s`. */
  lemma WindowsInFirstAppearanceOrder(s: seq<Scan>)
    ensures forall i :: 0 <= i < |WindowOrder(s)| ==> WindowOrder(s)[i] in KeySet(s)
    ensures forall i, j :: 0 <= i < j < |WindowOrder(s)| ==>
      FirstIndex(s, WindowOrder(s)[i]) < FirstIndex(s, WindowOrder(s)[j])
  {
    DistinctWindows(s);
    forall i, j | 0 <= i < j < |WindowOrder(s)|
      ensures FirstIndex(s, WindowOrder(s)[i]) < FirstIndex(s, WindowOrder(s)[j])
    {
      FirstAppearancePair(s, i, j);
    }
  }

  /** Excising every window in turn loses and duplicates no scan. */
  lemma {:induction false} GroupsArePermutation(s: seq<Scan>)
    ensures multiset(Flatten(Groups(s))) == multiset(s)
    decreases |s|
  {
    if s != [] {
      var k := KeyOf(s[0]);
      ExcisionKeepsFirst(s);
      ExcisionIsStablePartition(s, k);
      GroupsArePermutation(WithoutKey(s, k));
      assert Groups(s)[1..] == Groups(WithoutKey(s, k));
    }
  }
}
