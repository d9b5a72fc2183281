/**
  The two alignment searches of the SOLA pitch shifter
  (maxSimIndex and maxSimIndex2 in DafxPitchShifting/dafx-ps-sola.c).
  Each scans a range of offsets, sums a per-sample cost for every offset and
  keeps the first offset whose sum is smallest.
 */
module Alignment {
  import opened Samples

  // ---------------------------------------------------------------------------
  // maxSimIndex: biased sum of absolute differences over offsets [-|u|, vLen)

  /** The sample of v that the interior search pairs with position j. Positions
      before 0 and after vLen read as silence; position vLen itself is read from v. */
  function Padded(v: seq<real>, vLen: int, j: int): real
    requires vLen < |v|
  {
    if j < 0 then 0.0 else if j <= vLen then v[j] else 0.0
  }

  /** An exact match counts -1, any other absolute difference counts itself. */
  function Bias(term: real): real
  {
    if term == 0.0 then -1.0 else term
  }

  /** Sum of the first k biased terms of offset i. */
  function BiasedPartial(u: seq<real>, v: seq<real>, vLen: int, i: int, k: nat): real
    requires vLen < |v| && k <= |u|
  {
    if k == 0 then 0.0
    else BiasedPartial(u, v, vLen, i, k - 1) + Bias(Abs(u[k - 1] - Padded(v, vLen, i + k - 1)))
  }

  /** The cost maxSimIndex computes for offset i. */
  function BiasedCost(u: seq<real>, v: seq<real>, vLen: int, i: int): real
    requires vLen < |v|
  {
    BiasedPartial(u, v, vLen, i, |u|)
  }

  /** The candidate the scan of maxSimIndex holds once it has tried the offsets
      -|u| .. hi-1: it moves to a later offset only on a strictly smaller cost. */
  function BiasedScan(u: seq<real>, v: seq<real>, vLen: int, hi: int): (offset: int)
    requires vLen < |v| && -|u| < hi
    ensures -|u| <= offset < hi
    decreases hi + |u|
  {
    if hi == -|u| + 1 then -|u|
    else
      var best := BiasedScan(u, v, vLen, hi - 1);
      if BiasedCost(u, v, vLen, hi - 1) < BiasedCost(u, v, vLen, best) then hi - 1 else best
  }

  /** The scan's candidate is the first offset of least cost among those tried. */
  lemma {:induction false} BiasedScanIsFirstMin(u: seq<real>, v: seq<real>, vLen: int, hi: int)
    requires vLen < |v| && -|u| < hi
    ensures var k := BiasedScan(u, v, vLen, hi);
      && (forall i :: -|u| <= i < hi ==> BiasedCost(u, v, vLen, k) <= BiasedCost(u, v, vLen, i))
      && (forall i :: -|u| <= i < k ==> BiasedCost(u, v, vLen, k) < BiasedCost(u, v, vLen, i))
    decreases hi + |u|
  {
    if hi > -|u| + 1 {
      BiasedScanIsFirstMin(u, v, vLen, hi - 1);
    }
  }

  /** The offset maxSimIndex returns. */
  function BiasedArgMin(u: seq<real>, v: seq<real>, vLen: int): (offset: int)
    requires 0 <= vLen < |v| && |u| + vLen > 0
    ensures -|u| <= offset < vLen
  {
    BiasedScan(u, v, vLen, vLen)
  }

  /** maxSimIndex picks the first offset of minimal biased cost in [-|u|, vLen). */
  lemma BiasedArgMinIsFirstMin(u: seq<real>, v: seq<real>, vLen: int)
    requires 0 <= vLen < |v| && |u| + vLen > 0
    ensures var k := BiasedArgMin(u, v, vLen);
      && (forall i :: -|u| <= i < vLen ==> BiasedCost(u, v, vLen, k) <= BiasedCost(u, v, vLen, i))
      && (forall i :: -|u| <= i < k ==> BiasedCost(u, v, vLen, k) < BiasedCost(u, v, vLen, i))
  {
    BiasedScanIsFirstMin(u, v, vLen, vLen);
  }

  /** maxSimIndex(u, |u|, v, vLen). The scan range must not be empty: otherwise
      the source returns an uninitialised index. v must hold vLen + 1 samples,
      because the source reads v[vLen]. */
  method MaxSimIndex(u: seq<real>, v: seq<real>, vLen: int) returns (index: int)
    requires 0 <= vLen < |v| && |u| + vLen > 0
    ensures -|u| <= index < vLen
    ensures index == BiasedArgMin(u, v, vLen)
  {
    var uLen := |u|;
    var min := 0.0;
    index := -uLen;
    var i := -uLen;
    while i < vLen
      invariant -uLen <= i <= vLen
      invariant i > -uLen ==> index == BiasedScan(u, v, vLen, i) && min == BiasedCost(u, v, vLen, index)
    {
      var sum := 0.0;
      var j := i;
      while j < i + uLen
        invariant i <= j <= i + uLen
        invariant sum == BiasedPartial(u, v, vLen, i, j - i)
      {
        var term;
        if j < 0 {
          term := Abs(u[j - i] - 0.0);
        } else if j <= vLen {
          term := Abs(u[j - i] - v[j]);
        } else {
          term := Abs(u[j - i] - 0.0);
        }
        if term == 0.0 {
          sum := sum + -1.0;
        } else {
          sum := sum + term;
        }
        j := j + 1;
      }
      if i == -uLen || sum < min {
        min := sum;
        index := i;
      }
      i := i + 1;
    }
  }

  /** Every biased term is at least -1, so every cost is at least -|u|. */
  lemma {:induction false} BiasedPartialAtLeast(u: seq<real>, v: seq<real>, vLen: int, i: int, k: nat)
    requires vLen < |v| && k <= |u|
    ensures BiasedPartial(u, v, vLen, i, k) >= -(k as real)
  {
    if k > 0 {
      BiasedPartialAtLeast(u, v, vLen, i, k - 1);
    }
  }

  lemma BiasedCostAtLeast(u: seq<real>, v: seq<real>, vLen: int, i: int)
    requires vLen < |v|
    ensures BiasedCost(u, v, vLen, i) >= -(|u| as real)
  {
    BiasedPartialAtLeast(u, v, vLen, i, |u|);
  }

  /** Sum of k terms that are all exact matches. */
  lemma {:induction false} BiasedPartialAllMatch(u: seq<real>, v: seq<real>, vLen: int, i: int, k: nat)
    requires vLen < |v| && k <= |u|
    requires forall m :: 0 <= m < k ==> u[m] == Padded(v, vLen, i + m)
    ensures BiasedPartial(u, v, vLen, i, k) == -(k as real)
  {
    if k > 0 {
      BiasedPartialAllMatch(u, v, vLen, i, k - 1);
    }
  }

  /** When v starts with u, offset 0 has the least possible cost -|u|, so the
      chosen offset has that cost too (it need not be 0: see SilentWindowPicksFirstOffset). */
  lemma IdenticalWindowsAttainFloor(u: seq<real>, v: seq<real>, vLen: int)
    requires 0 < vLen < |v| && |u| <= vLen + 1
    requires v[..|u|] == u
    ensures BiasedCost(u, v, vLen, 0) == -(|u| as real)
    ensures BiasedCost(u, v, vLen, BiasedArgMin(u, v, vLen)) == -(|u| as real)
  {
    forall m | 0 <= m < |u| ensures u[m] == Padded(v, vLen, 0 + m) {
      assert v[..|u|][m] == v[m];
    }
    BiasedPartialAllMatch(u, v, vLen, 0, |u|);
    BiasedArgMinIsFirstMin(u, v, vLen);
    BiasedCostAtLeast(u, v, vLen, BiasedArgMin(u, v, vLen));
  }

  /** An all-zero window matches the silence before v exactly, so the first
      offset of the scan, -|u|, already attains the least cost and wins. */
  lemma SilentWindowPicksFirstOffset(u: seq<real>, v: seq<real>, vLen: int)
    requires 0 <= vLen < |v| && |u| > 0
    requires forall m :: 0 <= m < |u| ==> u[m] == 0.0
    ensures BiasedArgMin(u, v, vLen) == -|u|
  {
    BiasedPartialAllMatch(u, v, vLen, -|u|, |u|);
    assert BiasedCost(u, v, vLen, -|u|) == -(|u| as real);
    var k := BiasedArgMin(u, v, vLen);
    BiasedArgMinIsFirstMin(u, v, vLen);
    BiasedCostAtLeast(u, v, vLen, k);
  }

  // ---------------------------------------------------------------------------
  // maxSimIndex2: plain sum of absolute differences over offsets [0, |v|)

  /** The sample of v paired with position j >= 0; past the end of v it is silence. */
  function ZeroPadded(v: seq<real>, j: nat): real
  {
    if j < |v| then v[j] else 0.0
  }

  function SadPartial(u: seq<real>, v: seq<real>, i: nat, k: nat): real
    requires k <= |u|
  {
    if k == 0 then 0.0
    else SadPartial(u, v, i, k - 1) + Abs(u[k - 1] - ZeroPadded(v, i + k - 1))
  }

  /** The cost maxSimIndex2 computes for offset i. */
  function SadCost(u: seq<real>, v: seq<real>, i: nat): real
  {
    SadPartial(u, v, i, |u|)
  }

  /** The candidate the scan of maxSimIndex2 holds once it has tried the
      offsets 0 .. hi-1: it moves to a later offset only on a strictly smaller cost. */
  function SadScan(u: seq<real>, v: seq<real>, hi: nat): (offset: nat)
    requires 0 < hi
    ensures offset < hi
  {
    if hi == 1 then 0
    else
      var best := SadScan(u, v, hi - 1);
      if SadCost(u, v, hi - 1) < SadCost(u, v, best) then hi - 1 else best
  }

  /** The scan's candidate is the first offset of least cost among those tried. */
  lemma {:induction false} SadScanIsFirstMin(u: seq<real>, v: seq<real>, hi: nat)
    requires 0 < hi
    ensures var k := SadScan(u, v, hi);
      && (forall i :: 0 <= i < hi ==> SadCost(u, v, k) <= SadCost(u, v, i))
      && (forall i :: 0 <= i < k ==> SadCost(u, v, k) < SadCost(u, v, i))
  {
    if hi > 1 {
      SadScanIsFirstMin(u, v, hi - 1);
    }
  }

  /** The offset maxSimIndex2 returns. */
  function SadArgMin(u: seq<real>, v: seq<real>): (offset: nat)
    requires |v| > 0
    ensures offset < |v|
  {
    SadScan(u, v, |v|)
  }

  /** maxSimIndex2 picks the first offset of minimal cost in [0, |v|). */
  lemma SadArgMinIsFirstMin(u: seq<real>, v: seq<real>)
    requires |v| > 0
    ensures var k := SadArgMin(u, v);
      && (forall i :: 0 <= i < |v| ==> SadCost(u, v, k) <= SadCost(u, v, i))
      && (forall i :: 0 <= i < k ==> SadCost(u, v, k) < SadCost(u, v, i))
  {
    SadScanIsFirstMin(u, v, |v|);
  }

  /** maxSimIndex2(u, |u|, v, |v|). The scan range must not be empty: otherwise
      the source returns an uninitialised index. */
  method MaxSimIndex2(u: seq<real>, v: seq<real>) returns (index: int)
    requires |v| > 0
    ensures 0 <= index < |v|
    ensures index == SadArgMin(u, v)
  {
    var uLen, vLen := |u|, |v|;
    var min := 0.0;
    index := 0;
    var i := 0;
    while i < vLen
      invariant 0 <= i <= vLen
      invariant i > 0 ==> index == SadScan(u, v, i) && min == SadCost(u, v, index)
    {
      var sum := 0.0;
      var j := i;
      while j < i + uLen
        invariant i <= j <= i + uLen
        invariant sum == SadPartial(u, v, i, j - i)
      {
        if j < vLen {
          sum := sum + Abs(u[j - i] - v[j]);
        } else {
          sum := sum + Abs(u[j - i] - 0.0);
        }
        j := j + 1;
      }
      if i == 0 || sum < min {
        min := sum;
        index := i;
      }
      i := i + 1;
    }
  }

  lemma {:induction false} SadPartialNonNegative(u: seq<real>, v: seq<real>, i: nat, k: nat)
    requires k <= |u|
    ensures SadPartial(u, v, i, k) >= 0.0
  {
    if k > 0 {
      SadPartialNonNegative(u, v, i, k - 1);
    }
  }

  lemma {:induction false} SadPartialOfPrefix(u: seq<real>, v: seq<real>, k: nat)
    requires k <= |u| <= |v| && v[..|u|] == u
    ensures SadPartial(u, v, 0, k) == 0.0
  {
    if k > 0 {
      assert v[..|u|][k - 1] == v[k - 1];
      SadPartialOfPrefix(u, v, k - 1);
    }
  }

  /** When v starts with u, offset 0 costs nothing and the boundary search returns 0. */
  lemma MatchingPrefixPicksZero(u: seq<real>, v: seq<real>)
    requires 0 < |v| && |u| <= |v| && v[..|u|] == u
    ensures SadArgMin(u, v) == 0
  {
    SadPartialOfPrefix(u, v, |u|);
    assert SadCost(u, v, 0) == 0.0;
    SadArgMinIsFirstMin(u, v);
    SadPartialNonNegative(u, v, SadArgMin(u, v), |u|);
  }
}
