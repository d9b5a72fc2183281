/**
  A value-level description of one call of run in DafxPitchShifting/dafx-ps-sola.c:
  the constants and buffer sizes, the rounding relations that tie the integer
  hops to the pitch ratio, one TimeScaleSOLA frame, the whole frame loop, the
  linear-interpolation resampler, the boundary blend and what one call emits.
  The methods of module Sola are proved to compute exactly these values.
 */
module SolaSpec {
  import opened Samples
  import opened Alignment

  /** Analysis hop and grain length. */
  const Sa: int := 128
  const N: int := 512

  /** Sizes of the fixed buffers of run and of the instance. */
  const InCap: int := 8192
  const ResultCap: int := 8192
  const GrainCap: int := 2048
  const GrainLCap: int := 256
  const OverlapCap: int := 256
  const TailCap: int := 4096
  const XCap: int := 2048
  const LastInputCap: int := 4096
  const LastLOutCap: int := 256

  /** k is C's round(r): the nearest integer, halves away from zero. */
  predicate IsRounded(k: int, r: real)
  {
    if r >= 0.0 then k as real - 0.5 <= r < k as real + 0.5
    else k as real - 0.5 < r <= k as real + 0.5
  }

  /** k is floor(r). */
  predicate IsFloor(k: int, r: real)
  {
    k as real <= r < k as real + 1.0
  }

  /** Number of analysis frames M = ceilf(data_size / Sa). */
  function Frames(dataSize: nat): nat
  {
    (dataSize + Sa - 1) / Sa
  }

  lemma FramesIsCeiling(dataSize: nat)
    requires dataSize > 0
    ensures (Frames(dataSize) - 1) * Sa < dataSize <= Frames(dataSize) * Sa
  {
  }

  /** Ss = round(Sa*alpha) and L = round(Sa*alpha/2) differ from each other by
      at most one rounding step: 2L - 1 <= Ss <= 2L + 1. */
  lemma HopsFromRounding(alpha: real, Ss: int, L: int)
    requires IsRounded(Ss, 128.0 * alpha) && IsRounded(L, 64.0 * alpha)
    ensures 2 * L - 1 <= Ss <= 2 * L + 1
  {
  }

  /** The relation between synthesis hop and overlap length the frame loop needs. */
  predicate HopsFit(Ss: int, L: int)
  {
    1 <= L && 2 * L - 1 <= Ss && Ss + 2 * L - 1 <= N
  }

  /** What a call after the first demands of its inputs, its state and the
      rounded quantities so that every buffer access stays inside its buffer and
      no division by zero occurs. n is the block length, lastN and lastL the
      stored last_n and last_L. A negative last_L is admitted: see CarriedLength. */
  predicate CallFits(n: int, lastN: int, lastL: int, alpha: real, Ss: int, L: int, lx: int)
  {
    && 0 <= n && 0 <= lastN && n + lastN <= XCap
    && IsRounded(Ss, Sa as real * alpha)
    && IsRounded(L, Sa as real * alpha / 2.0)
    && IsFloor(lx, (n + lastN) as real * alpha)
    && 1 <= L && Ss + 2 * L - 1 <= N
    && (lastL <= 0 || 2 <= lastL <= LastLOutCap)
  }

  /** The number of carried samples lines 250-257 touch. For a negative last_L
      the copy of line 250, the inner loop of maxSimIndex2 (which then returns
      0, as for an empty window: Alignment.MatchingPrefixPicksZero) and the
      blend loop all run zero times, exactly as for last_L == 0. */
  function CarriedLength(lastL: int): nat
  {
    if lastL < 0 then 0 else lastL
  }

  /** The contents of run's local buffers before the call writes them (in C,
      whatever the stack holds). Every cell the call reads before writing it is
      read from here. */
  datatype Scratch = Scratch(inBuf: seq<real>, result: seq<real>, overlap: seq<real>, tail: seq<real>)
  {
    predicate Sized()
    {
      |inBuf| == InCap && |result| == ResultCap && |overlap| == OverlapCap && |tail| == TailCap
    }
  }

  // ---------------------------------------------------------------------------
  // TimeScaleSOLA

  /** The state of the frame loop: the synthesis buffer result, the contents of
      the scratch buffer tail, the last splice point cut (0 before the first
      frame) and the synthesis length resLen. */
  datatype Synthesis = Synthesis(result: seq<real>, scratch: seq<real>, cut: int, resLen: int)

  /** The loop invariant once the frame with nominal splice position nominal
      (i*Ss for frame i, 0 before the first frame) is done: resLen == cut + N and
      the splice point lies within one overlap length of its nominal place. */
  predicate Fits(st: Synthesis, nominal: int, L: int)
  {
    && |st.result| == ResultCap && |st.scratch| == TailCap
    && st.resLen == st.cut + N
    && 0 <= st.cut
    && nominal - L <= st.cut <= nominal + L - 1
  }

  /** Scaling a non-negative amount by a weight in [0, 1] stays within [0, amount]. */
  lemma ScaleBetween(d: real, t: real)
    requires 0.0 <= d && 0.0 <= t <= 1.0
    ensures 0.0 <= d * t <= d
  {
    assert d * (1.0 - t) >= 0.0;
  }

  /** The crossfade of prev into next at step k of a fade of length len:
      the weight of next is k/len. */
  function Crossfade(prev: real, next: real, k: int, len: int): real
    requires len > 0
  {
    var w := k as real / len as real;
    prev * (1.0 - w) + next * w
  }

  lemma WeightInUnitInterval(k: int, len: int)
    requires 0 <= k < len
    ensures 0.0 <= k as real / len as real < 1.0
  {
  }

  /** A weighted mean with weight t in [0, 1] lies between its two ends. */
  lemma LerpBetween(a: real, b: real, t: real)
    requires 0.0 <= t <= 1.0
    ensures a <= b ==> a <= a * (1.0 - t) + b * t <= b
    ensures b <= a ==> b <= a * (1.0 - t) + b * t <= a
  {
    var m := a * (1.0 - t) + b * t;
    if a <= b {
      ScaleBetween(b - a, t);
      ScaleBetween(b - a, 1.0 - t);
      assert m == a + (b - a) * t;
      assert m == b - (b - a) * (1.0 - t);
    } else {
      ScaleBetween(a - b, t);
      ScaleBetween(a - b, 1.0 - t);
      assert m == a - (a - b) * t;
      assert m == b + (a - b) * (1.0 - t);
    }
  }

  /** Each faded sample lies between the old sample and the grain sample; at the
      splice point itself the old sample is kept. */
  lemma CrossfadeIsConvex(prev: real, next: real, k: int, len: int)
    requires 0 <= k < len
    ensures k == 0 ==> Crossfade(prev, next, k, len) == prev
    ensures prev <= next ==> prev <= Crossfade(prev, next, k, len) <= next
    ensures next <= prev ==> next <= Crossfade(prev, next, k, len) <= prev
  {
    WeightInUnitInterval(k, len);
    LerpBetween(prev, next, k as real / len as real);
  }

  /** The first |prev| samples of tail after the fade loop of lines 218-222. */
  function Faded(prev: seq<real>, grain: seq<real>): (r: seq<real>)
    requires |prev| <= |grain|
    ensures |r| == |prev|
  {
    seq(|prev|, k requires 0 <= k < |prev| => Crossfade(prev[k], grain[k], k, |prev|))
  }

  /** The splice offset a frame chooses: grainL is the grain's first L samples,
      overlap the synthesis buffer at the nominal position followed by the
      never-written cell overlap[L] (guard). */
  function FrameOffset(grain: seq<real>, result: seq<real>, nominal: int, L: int, guard: real): (offset: int)
    requires 1 <= L <= |grain| && 0 <= nominal && nominal + L <= |result|
    ensures -L <= offset < L
  {
    BiasedArgMin(grain[..L], result[nominal .. nominal + L] + [guard], L)
  }

  /** result after a grain is spliced in at cut while the synthesis length is
      resLen: [cut, resLen) becomes the crossfade of the old samples into the
      grain, [resLen, cut + |grain|) the rest of the grain (lines 216-231). */
  function Splice(result: seq<real>, grain: seq<real>, cut: int, resLen: int): (r: seq<real>)
    requires 0 <= cut <= resLen <= cut + |grain| <= |result|
    ensures |r| == |result|
  {
    result[..cut] + Faded(result[cut .. resLen], grain) + grain[resLen - cut ..] + result[cut + |grain| ..]
  }

  /** A splice changes result only in [cut, cut + |grain|); there it is the
      crossfade followed by the rest of the grain, and result[cut] keeps its old
      value when something is faded. */
  lemma SpliceFacts(result: seq<real>, grain: seq<real>, cut: int, resLen: int)
    requires 0 <= cut <= resLen <= cut + |grain| <= |result|
    ensures var r := Splice(result, grain, cut, resLen);
      && (forall j :: 0 <= j < |result| && !(cut <= j < cut + |grain|) ==> r[j] == result[j])
      && (forall j :: cut <= j < resLen ==> r[j] == Crossfade(result[j], grain[j - cut], j - cut, resLen - cut))
      && (forall j :: resLen <= j < cut + |grain| ==> r[j] == grain[j - cut])
      && (cut < resLen ==> r[cut] == result[cut])
  {
    var r := Splice(result, grain, cut, resLen);
    var head, faded, rest, after := result[..cut], Faded(result[cut .. resLen], grain), grain[resLen - cut ..], result[cut + |grain| ..];
    assert r == head + faded + rest + after;
    forall j | 0 <= j < |result| && !(cut <= j < cut + |grain|) ensures r[j] == result[j] {
      if j < cut {
        assert r[j] == head[j];
      } else {
        assert r[j] == after[j - cut - |grain|];
      }
    }
    forall j | cut <= j < resLen ensures r[j] == Crossfade(result[j], grain[j - cut], j - cut, resLen - cut) {
      assert r[j] == faded[j - cut];
    }
    forall j | resLen <= j < cut + |grain| ensures r[j] == grain[j - cut] {
      assert r[j] == rest[j - resLen];
    }
    if cut < resLen {
      CrossfadeIsConvex(result[cut], grain[0], 0, resLen - cut);
      assert r[cut] == faded[0];
    }
  }

  /** The frame whose grain starts at grainAt (i*Sa) and whose nominal splice
      position is nominal (i*Ss): one iteration of the loop at lines 207-233. */
  function SolaStep(inBuf: seq<real>, st: Synthesis, grainAt: int, nominal: int, Ss: int, L: int, guard: real): (r: Synthesis)
    requires HopsFit(Ss, L) && Ss <= nominal && Fits(st, nominal - Ss, L)
    requires 0 <= grainAt && grainAt + N <= |inBuf| && nominal + L - 1 + N <= ResultCap
    ensures Fits(r, nominal, L)
  {
    var grain := inBuf[grainAt .. grainAt + N];
    var cut := nominal + FrameOffset(grain, st.result, nominal, L, guard);
    var fadeLen := st.resLen - cut;
    var faded := Faded(st.result[cut .. st.resLen], grain);
    Synthesis(Splice(st.result, grain, cut, st.resLen), faded + st.scratch[fadeLen..], cut, cut + N)
  }

  /** One frame: the splice point does not move backwards, 0 <= fadeLen <= N,
      resLen becomes cut + N, and result changes only in [cut, cut + N), as
      SpliceFacts describes. */
  lemma SolaStepFacts(inBuf: seq<real>, st: Synthesis, grainAt: int, nominal: int, Ss: int, L: int, guard: real)
    requires HopsFit(Ss, L) && Ss <= nominal && Fits(st, nominal - Ss, L)
    requires 0 <= grainAt && grainAt + N <= |inBuf| && nominal + L - 1 + N <= ResultCap
    ensures var r := SolaStep(inBuf, st, grainAt, nominal, Ss, L, guard);
      && st.cut <= r.cut
      && 0 <= st.resLen - r.cut <= N
      && r.resLen == r.cut + N
      && r.result == Splice(st.result, inBuf[grainAt .. grainAt + N], r.cut, st.resLen)
      && (forall j :: 0 <= j < ResultCap && !(r.cut <= j < r.cut + N) ==> r.result[j] == st.result[j])
  {
    var r := SolaStep(inBuf, st, grainAt, nominal, Ss, L, guard);
    SpliceFacts(st.result, inBuf[grainAt .. grainAt + N], r.cut, st.resLen);
  }

  /** The parts of one frame's result, named. */
  lemma SolaStepParts(inBuf: seq<real>, st: Synthesis, grainAt: int, nominal: int, Ss: int, L: int, guard: real)
    requires HopsFit(Ss, L) && Ss <= nominal && Fits(st, nominal - Ss, L)
    requires 0 <= grainAt && grainAt + N <= |inBuf| && nominal + L - 1 + N <= ResultCap
    ensures var grain := inBuf[grainAt .. grainAt + N];
      var cut := nominal + FrameOffset(grain, st.result, nominal, L, guard);
      && cut <= st.resLen <= cut + N
      && SolaStep(inBuf, st, grainAt, nominal, Ss, L, guard)
         == Synthesis(Splice(st.result, grain, cut, st.resLen),
                      Faded(st.result[cut .. st.resLen], grain) + st.scratch[st.resLen - cut ..], cut, cut + N)
  {
  }

  /** k hops of length s, added up one hop at a time: the position k*s. Kept
      recursive so that positions stay linear terms; HopIsProduct connects it
      to the product. */
  function Hop(k: nat, s: int): int
  {
    if k == 0 then 0 else Hop(k - 1, s) + s
  }

  lemma {:induction false} HopIsProduct(k: nat, s: int)
    ensures Hop(k, s) == k * s
  {
    if k > 0 {
      HopIsProduct(k - 1, s);
    }
  }

  lemma {:induction false} HopMonotone(j: nat, k: nat, s: int)
    requires j <= k && 0 <= s
    ensures Hop(j, s) <= Hop(k, s)
    decreases k
  {
    if j < k {
      HopMonotone(j, k - 1, s);
    }
  }

  /** The loop state after frames 1 .. j (the loop runs i = 1 .. M-1). */
  function FramesDone(inBuf: seq<real>, init: Synthesis, j: int, Ss: int, L: int, guard: real): (st: Synthesis)
    requires HopsFit(Ss, L) && 0 <= j && Fits(init, 0, L)
    requires j * Sa + N <= |inBuf| && Hop(j, Ss) + L - 1 + N <= ResultCap
    ensures Fits(st, Hop(j, Ss), L)
    decreases j, 1
  {
    if j == 0 then init else AfterFrame(inBuf, init, j, Ss, L, guard)
  }

  /** The loop state after frame k: frame k, which reads its grain at k*Sa and
      splices near k*Ss, applied to the state the frames before it left. */
  function AfterFrame(inBuf: seq<real>, init: Synthesis, k: int, Ss: int, L: int, guard: real): (st: Synthesis)
    requires HopsFit(Ss, L) && 1 <= k && Fits(init, 0, L)
    requires k * Sa + N <= |inBuf| && Hop(k, Ss) + L - 1 + N <= ResultCap
    ensures Fits(st, Hop(k, Ss), L)
    decreases k, 0
  {
    HopMonotone(0, k - 1, Ss);
    SolaStep(inBuf, FramesDone(inBuf, init, k - 1, Ss, L, guard), k * Sa, Hop(k, Ss), Ss, L, guard)
  }

  /** The loop state on entry to frame i. */
  function SolaAfter(inBuf: seq<real>, init: Synthesis, i: int, Ss: int, L: int, guard: real): (st: Synthesis)
    requires HopsFit(Ss, L) && 1 <= i && Fits(init, 0, L)
    requires (i - 1) * Sa + N <= |inBuf| && Hop(i - 1, Ss) + L - 1 + N <= ResultCap
    ensures Fits(st, Hop(i - 1, Ss), L)
  {
    FramesDone(inBuf, init, i - 1, Ss, L, guard)
  }

  /** Frame i of a call with m frames (at most 16) fits the buffers. */
  lemma FrameFits(i: int, m: int, Ss: int, L: int)
    requires HopsFit(Ss, L) && Ss <= 257 && 1 <= i < m <= 16
    ensures (i - 1) * Sa + N <= InCap && Hop(i - 1, Ss) + L - 1 + N <= ResultCap
    ensures i * Sa + N <= InCap && Hop(i, Ss) + L - 1 + N <= ResultCap
  {
    HopMonotone(i, 15, Ss);
    HopIsProduct(15, Ss);
  }

  /** The state before frame i + 1 is frame i applied to the state before it. */
  lemma SolaAfterNext(inBuf: seq<real>, init: Synthesis, i: int, Ss: int, L: int, guard: real)
    requires HopsFit(Ss, L) && 1 <= i && Fits(init, 0, L)
    requires i * Sa + N <= |inBuf| && Hop(i, Ss) + L - 1 + N <= ResultCap
    ensures (i - 1) * Sa + N <= |inBuf| && Hop(i - 1, Ss) + L - 1 + N <= ResultCap
    ensures Ss <= Hop(i, Ss) && Fits(SolaAfter(inBuf, init, i, Ss, L, guard), Hop(i, Ss) - Ss, L)
    ensures SolaAfter(inBuf, init, i + 1, Ss, L, guard)
         == SolaStep(inBuf, SolaAfter(inBuf, init, i, Ss, L, guard), i * Sa, Hop(i, Ss), Ss, L, guard)
  {
    HopMonotone(0, i - 1, Ss);
    assert FramesDone(inBuf, init, i, Ss, L, guard) == AfterFrame(inBuf, init, i, Ss, L, guard);
  }

  /** Frame i never splices before frame i - 1 did. */
  lemma CutNondecreasing(inBuf: seq<real>, init: Synthesis, i: int, Ss: int, L: int, guard: real)
    requires HopsFit(Ss, L) && 1 <= i && Fits(init, 0, L)
    requires i * Sa + N <= |inBuf| && Hop(i, Ss) + L - 1 + N <= ResultCap
    ensures (i - 1) * Sa + N <= |inBuf| && Hop(i - 1, Ss) + L - 1 + N <= ResultCap
    ensures SolaAfter(inBuf, init, i, Ss, L, guard).cut <= SolaAfter(inBuf, init, i + 1, Ss, L, guard).cut
  {
    SolaAfterNext(inBuf, init, i, Ss, L, guard);
    SolaStepFacts(inBuf, SolaAfter(inBuf, init, i, Ss, L, guard), i * Sa, Hop(i, Ss), Ss, L, guard);
  }

  // ---------------------------------------------------------------------------
  // Resampling (lines 236-248)

  /** x[i] = i*lx/lfen. */
  function Position(i: int, lfen: int, lx: int): real
    requires lfen > 0
  {
    (i * lx) as real / lfen as real
  }

  lemma FloorOfQuotient(p: int, q: int)
    requires 0 <= p && 0 < q
    ensures ((p as real) / (q as real)).Floor == p / q
  {
    var k, r := p / q, p % q;
    assert p == k * q + r && 0 <= r < q;
    var x := (p as real) / (q as real);
    assert x == (k as real) + (r as real) / (q as real);
    assert 0.0 <= (r as real) / (q as real) < 1.0;
  }

  lemma QuotientBelow(p: int, q: int, c: int)
    requires 0 <= p < q * c && 0 < q
    ensures p / q < c
  {
  }

  /** The integer part of x[i] is (i*lx)/lfen; it is at least 0 and at most
      lx - 1 (0 when lx is 0). */
  lemma PositionFacts(i: int, lfen: int, lx: int)
    requires 0 <= i < lfen && 0 <= lx
    ensures 0.0 <= Position(i, lfen, lx)
    ensures Position(i, lfen, lx).Floor == (i * lx) / lfen
    ensures 0 <= (i * lx) / lfen
    ensures lx > 0 ==> (i * lx) / lfen + 1 <= lx
    ensures lx == 0 ==> (i * lx) / lfen == 0
  {
    var p := i * lx;
    assert 0 <= p;
    FloorOfQuotient(p, lfen);
    if lx > 0 {
      assert p < lfen * lx by {
        assert (lfen - i) * lx > 0;
      }
      QuotientBelow(p, lfen, lx);
    }
  }

  /** The integer part of x[i] does not decrease with i. */
  lemma ResampleIndexMonotone(i: int, i': int, lfen: int, lx: int)
    requires 0 <= i <= i' < lfen && 0 <= lx
    ensures (i * lx) / lfen <= (i' * lx) / lfen
  {
    assert i * lx <= i' * lx by {
      assert (i' - i) * lx >= 0;
    }
    QuotientMonotone(i * lx, i' * lx, lfen);
  }

  lemma MulMonotone(x: int, y: int, q: int)
    requires x <= y && 0 <= q
    ensures x * q <= y * q
  {
    assert y * q - x * q == (y - x) * q;
  }

  lemma QuotientMonotone(a: int, b: int, q: int)
    requires 0 <= a <= b && 0 < q
    ensures a / q <= b / q
  {
    var ka, kb := a / q, b / q;
    assert a == ka * q + a % q && b == kb * q + b % q;
    if ka > kb {
      MulMonotone(kb + 1, ka, q);
      assert false;
    }
  }

  /** Linear interpolation of result at fractional position x. */
  function Interpolate(result: seq<real>, x: real): real
    requires 0.0 <= x && x.Floor + 1 < |result|
  {
    var k := x.Floor;
    var t := x - k as real;
    result[k] * (1.0 - t) + result[k + 1] * t
  }

  /** An interpolated sample lies between its two neighbours. */
  lemma InterpolateIsConvex(result: seq<real>, x: real)
    requires 0.0 <= x && x.Floor + 1 < |result|
    ensures var a, b := result[x.Floor], result[x.Floor + 1];
      (a <= b ==> a <= Interpolate(result, x) <= b) && (b <= a ==> b <= Interpolate(result, x) <= a)
  {
    var k := x.Floor;
    LerpBetween(result[k], result[k + 1], x - k as real);
  }

  /** The first lfen samples of tail after the resampler. */
  function Resampled(result: seq<real>, lfen: int, lx: int): (r: seq<real>)
    requires 0 <= lfen && 0 <= lx && lx + 1 < |result|
    ensures |r| == lfen
  {
    seq(lfen, i requires 0 <= i < lfen =>
      PositionFacts(i, lfen, lx);
      Interpolate(result, Position(i, lfen, lx)))
  }

  /** Each resampled sample lies between the two samples of result around its
      position, at k = (i*lx)/lfen and k + 1, with 0 <= k and k + 1 <= max(lx, 1). */
  lemma ResampledIsConvex(result: seq<real>, lfen: int, lx: int, i: int)
    requires 0 <= lfen && 0 <= lx && lx + 1 < |result| && 0 <= i < lfen
    ensures var k := (i * lx) / lfen;
      && 0 <= k && k + 1 <= (if lx == 0 then 1 else lx)
      && var a, b, s := result[k], result[k + 1], Resampled(result, lfen, lx)[i];
         (a <= b ==> a <= s <= b) && (b <= a ==> b <= s <= a)
  {
    PositionFacts(i, lfen, lx);
    InterpolateIsConvex(result, Position(i, lfen, lx));
  }

  // ---------------------------------------------------------------------------
  // Boundary blend (lines 250-257)

  /** Weight of the current signal at step i of a blend over len samples. */
  function Ramp(i: int, len: int): real
    requires len >= 2
  {
    i as real / (len - 1) as real
  }

  /** tail after the blend: from position at, the carried tail prev fades out
      and the current signal fades in. */
  function Blended(tail: seq<real>, prev: seq<real>, at: int): (r: seq<real>)
    requires |prev| != 1 && 0 <= at && at + |prev| <= |tail|
    ensures |r| == |tail|
  {
    seq(|tail|, j requires 0 <= j < |tail| =>
      if at <= j < at + |prev| then tail[j] * Ramp(j - at, |prev|) + prev[j - at] * (1.0 - Ramp(j - at, |prev|))
      else tail[j])
  }

  /** The blend starts exactly on the carried sample, ends exactly on the current
      signal and changes nothing outside [at, at + |prev|). */
  lemma BlendEnds(tail: seq<real>, prev: seq<real>, at: int)
    requires |prev| >= 2 && 0 <= at && at + |prev| <= |tail|
    ensures Blended(tail, prev, at)[at] == prev[0]
    ensures Blended(tail, prev, at)[at + |prev| - 1] == tail[at + |prev| - 1]
    ensures forall j :: 0 <= j < |tail| && !(at <= j < at + |prev|) ==> Blended(tail, prev, at)[j] == tail[j]
  {
    assert Ramp(0, |prev|) == 0.0;
    assert Ramp(|prev| - 1, |prev|) == 1.0;
  }

  // ---------------------------------------------------------------------------
  // One call after the first

  /** Numbers the frame loop needs, derived from CallFits. */
  lemma CallBounds(n: int, lastN: int, lastL: int, alpha: real, Ss: int, L: int, lx: int)
    requires CallFits(n, lastN, lastL, alpha, Ss, L, lx)
    ensures HopsFit(Ss, L) && Ss <= 257 && L <= 128
    ensures 0 <= lx <= 4200
    ensures Frames(n + lastN) <= 16
    ensures var m := if Frames(n + lastN) == 0 then 1 else Frames(n + lastN);
      (m - 1) * Sa + N <= InCap && Hop(m - 1, Ss) + L - 1 + N <= ResultCap
  {
    HopsFromRounding(alpha, Ss, L);
    var ds := n + lastN;
    assert 0.0 < alpha < 2.02;
    assert ds as real * alpha <= 2048.0 * alpha by {
      assert (2048 - ds) as real * alpha >= 0.0;
    }
    var m := if Frames(ds) == 0 then 1 else Frames(ds);
    HopMonotone(m - 1, 15, Ss);
    HopIsProduct(15, Ss);
  }

  /** The length of the prefix of the resampled signal that the boundary search covers. */
  function SearchSpan(L: int): int { N - L }

  /** The loop state before the first frame: result holds the first dataSize
      samples of in (line 205), tail its scratch contents. */
  function InitialSynthesis(inBuf: seq<real>, dataSize: nat, scratch: Scratch): (st: Synthesis)
    requires scratch.Sized() && dataSize <= |inBuf| && dataSize <= ResultCap
    ensures |st.result| == ResultCap && |st.scratch| == TailCap && st.cut == 0 && st.resLen == N
  {
    Synthesis(inBuf[..dataSize] + scratch.result[dataSize..], scratch.tail, 0, N)
  }

  /** The synthesis-loop state after all frames of a call. */
  function Synthesised(inBuf: seq<real>, dataSize: nat, Ss: int, L: int, scratch: Scratch): (st: Synthesis)
    requires scratch.Sized() && |inBuf| == InCap && dataSize <= XCap
    requires HopsFit(Ss, L) && Ss <= 257 && Frames(dataSize) <= 16
    ensures |st.result| == ResultCap && |st.scratch| == TailCap
  {
    var m := if Frames(dataSize) == 0 then 1 else Frames(dataSize);
    HopMonotone(m - 1, 15, Ss);
    HopIsProduct(15, Ss);
    SolaAfter(inBuf, InitialSynthesis(inBuf, dataSize, scratch), m, Ss, L, scratch.overlap[L])
  }

  /** The frame loop of a call starts from InitialSynthesis and ends after
      max(M, 1) - 1 frames. */
  lemma SynthesisedBounds(inBuf: seq<real>, dataSize: nat, Ss: int, L: int, scratch: Scratch)
    requires scratch.Sized() && |inBuf| == InCap && dataSize <= XCap
    requires HopsFit(Ss, L) && Ss <= 257 && Frames(dataSize) <= 16
    ensures var m := if Frames(dataSize) == 0 then 1 else Frames(dataSize);
      && (m - 1) * Sa + N <= InCap && Hop(m - 1, Ss) + L - 1 + N <= ResultCap
      && var init := InitialSynthesis(inBuf, dataSize, scratch);
         && SolaAfter(inBuf, init, 1, Ss, L, scratch.overlap[L]) == init
         && Synthesised(inBuf, dataSize, Ss, L, scratch) == SolaAfter(inBuf, init, m, Ss, L, scratch.overlap[L])
  {
    var m := if Frames(dataSize) == 0 then 1 else Frames(dataSize);
    HopMonotone(m - 1, 15, Ss);
    HopIsProduct(15, Ss);
  }

  /** What a call emits: the output block and the L samples carried to the next call. */
  datatype Emission = Emission(output: seq<real>, carry: seq<real>)

  /** One call after the first: prevInput is last_input[0..last_n), prevTail is
      last_L_out[0..last_L), input the current block. */
  function NextBlock(prevInput: seq<real>, prevTail: seq<real>, input: seq<real>,
                     alpha: real, Ss: int, L: int, lx: int, scratch: Scratch): (e: Emission)
    requires CallFits(|input|, |prevInput|, |prevTail|, alpha, Ss, L, lx) && scratch.Sized()
    ensures |e.output| == |input| && |e.carry| == L
  {
    CallBounds(|input|, |prevInput|, |prevTail|, alpha, Ss, L, lx);
    var ds := |prevInput| + |input|;
    var inBuf := prevInput + input + scratch.inBuf[ds..];
    var synth := Synthesised(inBuf, ds, Ss, L, scratch);
    var tail := Resampled(synth.result, ds, lx) + synth.scratch[ds..];
    var at := SadArgMin(prevTail, tail[..SearchSpan(L)]);
    var blended := Blended(tail, prevTail, at);
    Emission(blended[at .. at + |input|], blended[|input| + at .. |input| + at + L])
  }

  /** NextBlock in terms of the buffer in, the resampled tail and the blend
      position of the call. */
  lemma NextBlockParts(prevInput: seq<real>, prevTail: seq<real>, input: seq<real>,
                       alpha: real, Ss: int, L: int, lx: int, scratch: Scratch,
                       inBuf: seq<real>, tail: seq<real>, at: int)
    requires CallFits(|input|, |prevInput|, |prevTail|, alpha, Ss, L, lx) && scratch.Sized()
    requires inBuf == prevInput + input + scratch.inBuf[|prevInput| + |input| ..]
    requires HopsFit(Ss, L) && Ss <= 257 && 0 <= lx <= 4200 && Frames(|prevInput| + |input|) <= 16
    requires var synth := Synthesised(inBuf, |prevInput| + |input|, Ss, L, scratch);
      tail == Resampled(synth.result, |prevInput| + |input|, lx) + synth.scratch[|prevInput| + |input| ..]
    requires |tail| == TailCap && SearchSpan(L) <= TailCap && at == SadArgMin(prevTail, tail[..SearchSpan(L)])
    ensures at + |input| + L <= TailCap
    ensures var blended := Blended(tail, prevTail, at);
      NextBlock(prevInput, prevTail, input, alpha, Ss, L, lx, scratch)
      == Emission(blended[at .. at + |input|], blended[|input| + at .. |input| + at + L])
  {
    CallBounds(|input|, |prevInput|, |prevTail|, alpha, Ss, L, lx);
  }

  /** When the carried tail has at least two samples, the first sample a
      non-empty call emits is the first carried sample. */
  lemma OutputStartsOnCarry(prevInput: seq<real>, prevTail: seq<real>, input: seq<real>,
                            alpha: real, Ss: int, L: int, lx: int, scratch: Scratch)
    requires CallFits(|input|, |prevInput|, |prevTail|, alpha, Ss, L, lx) && scratch.Sized()
    requires |prevTail| >= 2 && |input| >= 1
    ensures NextBlock(prevInput, prevTail, input, alpha, Ss, L, lx, scratch).output[0] == prevTail[0]
  {
    CallBounds(|input|, |prevInput|, |prevTail|, alpha, Ss, L, lx);
    var ds := |prevInput| + |input|;
    var inBuf := prevInput + input + scratch.inBuf[ds..];
    var synth := Synthesised(inBuf, ds, Ss, L, scratch);
    var tail := Resampled(synth.result, ds, lx) + synth.scratch[ds..];
    var at := SadArgMin(prevTail, tail[..SearchSpan(L)]);
    BlendEnds(tail, prevTail, at);
  }
}
