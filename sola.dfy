/**
  The pitch shifter of DafxPitchShifting/dafx-ps-sola.c as it runs: the
  instance state it keeps between calls, run's fixed local buffers as arrays,
  and the loops of run, each proved to compute the value SolaSpec describes.
 */
module Sola {
  import opened Alignment
  import opened SolaSpec

  /** copy: destination[0..len) := source[ini .. ini+len). */
  method Copy(source: array<real>, ini: int, destination: array<real>, len: int)
    requires source != destination
    requires len > 0 ==> 0 <= ini && ini + len <= source.Length && len <= destination.Length
    modifies destination
    ensures len <= 0 ==> destination[..] == old(destination[..])
    ensures len > 0 ==> destination[..] == source[ini .. ini + len] + old(destination[len..])
  {
    var i := 0;
    while i < len
      invariant 0 <= i <= (if len > 0 then len else 0)
      invariant forall k :: 0 <= k < i ==> destination[k] == source[ini + k]
      invariant forall k :: i <= k < destination.Length ==> destination[k] == old(destination[k])
    {
      destination[i] := source[ini + i];
      i := i + 1;
    }
    if len > 0 {
      assert destination[..] == source[ini .. ini + len] + old(destination[len..]);
    }
  }

  /** A fresh buffer holding init. */
  method Buffer(init: seq<real>) returns (a: array<real>)
    ensures fresh(a) && a[..] == init
  {
    a := new real[|init|](k requires 0 <= k < |init| => init[k]);
  }

  /** The fade loop of lines 218-222: tail[0 .. resLen-cut) fades from its
      contents into the grain. */
  method FadeIn(tail: array<real>, grain: array<real>, cut: int, resLen: int)
    requires tail != grain && 0 <= cut <= resLen && resLen - cut <= tail.Length && N <= grain.Length
    requires resLen - cut <= N
    modifies tail
    ensures tail[..] == Faded(old(tail[..resLen - cut]), grain[..N]) + old(tail[resLen - cut ..])
  {
    ghost var prev := tail[..resLen - cut];
    var j := cut;
    while j < resLen
      invariant cut <= j <= resLen
      invariant forall k :: 0 <= k < j - cut ==> tail[k] == Crossfade(prev[k], grain[k], k, resLen - cut)
      invariant forall k :: j - cut <= k < tail.Length ==> tail[k] == old(tail[k])
    {
      var term := (j - cut) as real / (resLen - cut) as real;
      tail[j - cut] := tail[j - cut] * (1.0 - term);
      tail[j - cut] := tail[j - cut] + grain[j - cut] * term;
      j := j + 1;
    }
    assert tail[..] == Faded(prev, grain[..N]) + old(tail[resLen - cut ..]);
  }

  /** The write-back loops of lines 226-231: the faded samples, then the rest of
      the grain, go to result from cut on. */
  method WriteBack(result: array<real>, tail: array<real>, grain: array<real>, cut: int, fadeLen: int)
    requires result != tail && result != grain
    requires 0 <= cut && 0 <= fadeLen <= N && N <= grain.Length && fadeLen <= tail.Length && cut + N <= result.Length
    requires tail[..fadeLen] == Faded(result[cut .. cut + fadeLen], grain[..N])
    modifies result
    ensures result[..] == Splice(old(result[..]), grain[..N], cut, cut + fadeLen)
  {
    ghost var target := Splice(result[..], grain[..N], cut, cut + fadeLen);
    SpliceFacts(result[..], grain[..N], cut, cut + fadeLen);
    var j := 0;
    while j < fadeLen
      invariant 0 <= j <= fadeLen
      invariant forall k :: 0 <= k < cut + j ==> result[k] == target[k]
      invariant forall k :: cut + j <= k < result.Length ==> result[k] == old(result[k])
    {
      result[cut + j] := tail[j];
      j := j + 1;
    }
    j := 0;
    while j < N - fadeLen
      invariant 0 <= j <= N - fadeLen
      invariant forall k :: 0 <= k < cut + fadeLen + j ==> result[k] == target[k]
      invariant forall k :: cut + fadeLen + j <= k < result.Length ==> result[k] == old(result[k])
    {
      result[cut + fadeLen + j] := grain[fadeLen + j];
      j := j + 1;
    }
    assert result[..] == target;
  }

  /** run's local buffers in, result, grain, grainL, overlap and tail: their
      sizes, and six distinct arrays. */
  predicate Workspace(inBuf: array<real>, result: array<real>, grain: array<real>, grainL: array<real>,
                      overlap: array<real>, tail: array<real>)
  {
    && inBuf.Length == InCap && result.Length == ResultCap && grain.Length == GrainCap
    && grainL.Length == GrainLCap && overlap.Length == OverlapCap && tail.Length == TailCap
    && inBuf != result && inBuf != grain && inBuf != grainL && inBuf != overlap && inBuf != tail
    && result != grain && result != grainL && result != overlap && result != tail
    && grain != grainL && grain != overlap && grain != tail
    && grainL != overlap && grainL != tail && overlap != tail
  }

  /** Lines 208-212: the grain of a frame and its splice offset. */
  method Align(inBuf: array<real>, result: array<real>, grain: array<real>, grainL: array<real>,
               overlap: array<real>, tail: array<real>, grainAt: int, nominal: int, L: int, ghost guard: real)
      returns (maxIndex: int)
    requires Workspace(inBuf, result, grain, grainL, overlap, tail)
    requires 1 <= L < OverlapCap && 0 <= grainAt && grainAt + N <= InCap && 0 <= nominal && nominal + L <= ResultCap
    requires overlap[L] == guard
    modifies grain, grainL, overlap
    ensures grain[..N] == inBuf[grainAt .. grainAt + N] && overlap[L] == guard
    ensures maxIndex == FrameOffset(inBuf[grainAt .. grainAt + N], result[..], nominal, L, guard)
  {
    Copy(inBuf, grainAt, grain, N);
    assert grain[..N] == inBuf[grainAt .. grainAt + N];
    Copy(grain, 0, grainL, L);
    assert grainL[..L] == inBuf[grainAt .. grainAt + N][..L];
    Copy(result, nominal, overlap, L);
    assert overlap[..L + 1] == result[nominal .. nominal + L] + [guard];
    maxIndex := MaxSimIndex(grainL[..L], overlap[..L + 1], L);
  }

  /** Lines 216-231: the grain is spliced into result at cut, crossfading over
      [cut, resLen); tail keeps the faded samples at its front. */
  method SpliceGrain(result: array<real>, tail: array<real>, grain: array<real>, cut: int, resLen: int)
    requires result != tail && result != grain && tail != grain
    requires 0 <= cut <= resLen <= cut + N && N <= grain.Length && N <= tail.Length && cut + N <= result.Length
    modifies result, tail
    ensures tail[..] == Faded(old(result[cut .. resLen]), grain[..N]) + old(tail[resLen - cut ..])
    ensures result[..] == Splice(old(result[..]), grain[..N], cut, resLen)
  {
    ghost var prev := result[cut .. resLen];
    Copy(result, cut, tail, resLen - cut);
    assert tail[..resLen - cut] == prev && tail[resLen - cut ..] == old(tail[resLen - cut ..]);
    FadeIn(tail, grain, cut, resLen);
    WriteBack(result, tail, grain, cut, resLen - cut);
  }

  /** One frame of the TimeScaleSOLA loop (lines 208-232), with grainAt = i*Sa
      and nominal = i*Ss. st is the loop state the arrays hold on entry. */
  method Frame(inBuf: array<real>, result: array<real>, grain: array<real>, grainL: array<real>,
               overlap: array<real>, tail: array<real>, grainAt: int, nominal: int, Ss: int, L: int,
               resLen: int, ghost inSeq: seq<real>, ghost st: Synthesis, ghost guard: real)
      returns (newResLen: int)
    requires Workspace(inBuf, result, grain, grainL, overlap, tail) && inBuf[..] == inSeq
    requires HopsFit(Ss, L) && L < OverlapCap && Ss <= nominal && Fits(st, nominal - Ss, L)
    requires 0 <= grainAt && grainAt + N <= InCap && nominal + L - 1 + N <= ResultCap
    requires st.result == result[..] && st.scratch == tail[..] && st.resLen == resLen
    requires overlap[L] == guard
    modifies result, grain, grainL, overlap, tail
    ensures var r := SolaStep(inSeq, st, grainAt, nominal, Ss, L, guard);
      result[..] == r.result && tail[..] == r.scratch && newResLen == r.resLen
    ensures overlap[L] == guard
  {
    SolaStepParts(inSeq, st, grainAt, nominal, Ss, L, guard);
    var maxIndex := Align(inBuf, result, grain, grainL, overlap, tail, grainAt, nominal, L, guard);
    var cut := nominal + maxIndex;
    SpliceGrain(result, tail, grain, cut, resLen);
    newResLen := cut + N;
  }

  /** Frame i of the TimeScaleSOLA loop, taking the loop state before frame i
      to the state before frame i + 1. */
  method FrameAt(inBuf: array<real>, result: array<real>, grain: array<real>, grainL: array<real>,
                 overlap: array<real>, tail: array<real>, i: int, ghost m: int, Ss: int, L: int,
                 resLen: int, ghost inSeq: seq<real>, ghost init: Synthesis, ghost guard: real)
      returns (newResLen: int)
    requires Workspace(inBuf, result, grain, grainL, overlap, tail) && inBuf[..] == inSeq
    requires HopsFit(Ss, L) && Ss <= 257 && 1 <= i < m <= 16 && Fits(init, 0, L)
    requires (i - 1) * Sa + N <= InCap && Hop(i - 1, Ss) + L - 1 + N <= ResultCap
    requires var st := SolaAfter(inSeq, init, i, Ss, L, guard);
      result[..] == st.result && tail[..] == st.scratch && resLen == st.resLen
    requires overlap[L] == guard
    modifies result, grain, grainL, overlap, tail
    ensures i * Sa + N <= InCap && Hop(i, Ss) + L - 1 + N <= ResultCap
    ensures var st := SolaAfter(inSeq, init, i + 1, Ss, L, guard);
      result[..] == st.result && tail[..] == st.scratch && newResLen == st.resLen
    ensures overlap[L] == guard
  {
    FrameFits(i, m, Ss, L);
    SolaAfterNext(inSeq, init, i, Ss, L, guard);
    ghost var st := SolaAfter(inSeq, init, i, Ss, L, guard);
    var grainAt, nominal := i * Sa, i * Ss;
    HopIsProduct(i, Ss);
    newResLen := Frame(inBuf, result, grain, grainL, overlap, tail, grainAt, nominal, Ss, L, resLen, inSeq, st, guard);
  }

  /** The TimeScaleSOLA loop (lines 205-233): result and tail end as the last
      frame leaves them. */
  method Synthesise(inBuf: array<real>, result: array<real>, grain: array<real>, grainL: array<real>,
                    overlap: array<real>, tail: array<real>, dataSize: int, Ss: int, L: int,
                    ghost inSeq: seq<real>, ghost scratch: Scratch)
    requires Workspace(inBuf, result, grain, grainL, overlap, tail) && inBuf[..] == inSeq
    requires scratch.Sized() && 0 <= dataSize <= XCap
    requires HopsFit(Ss, L) && Ss <= 257 && Frames(dataSize) <= 16
    requires result[..] == scratch.result && tail[..] == scratch.tail && overlap[..] == scratch.overlap
    modifies result, grain, grainL, overlap, tail
    ensures var st := Synthesised(inSeq, dataSize, Ss, L, scratch);
      result[..] == st.result && tail[..] == st.scratch
  {
    ghost var guard := scratch.overlap[L];
    ghost var init := InitialSynthesis(inSeq, dataSize, scratch);
    SynthesisedBounds(inSeq, dataSize, Ss, L, scratch);
    Copy(inBuf, 0, result, dataSize);
    assert result[..] == init.result;
    var resLen := N;
    var M := Frames(dataSize);
    ghost var m := if M == 0 then 1 else M;
    var i := 1;
    while i < M
      invariant 1 <= i <= m
      invariant (i - 1) * Sa + N <= InCap && Hop(i - 1, Ss) + L - 1 + N <= ResultCap
      invariant var st := SolaAfter(inSeq, init, i, Ss, L, guard);
        result[..] == st.result && tail[..] == st.scratch && resLen == st.resLen
      invariant overlap[L] == guard
    {
      resLen := FrameAt(inBuf, result, grain, grainL, overlap, tail, i, m, Ss, L, resLen, inSeq, init, guard);
      i := i + 1;
    }
    assert i == m;
  }

  /** The loop of lines 240-242: x[i] := i*lx/lfen. */
  method Positions(x: array<real>, lfen: int, lx: int)
    requires 0 <= lfen <= x.Length
    modifies x
    ensures forall k :: 0 <= k < lfen ==> x[k] == Position(k, lfen, lx)
    ensures x[lfen..] == old(x[lfen..])
  {
    var i := 0;
    while i < lfen
      invariant 0 <= i <= lfen
      invariant forall k :: 0 <= k < i ==> x[k] == Position(k, lfen, lx)
      invariant forall k :: lfen <= k < x.Length ==> x[k] == old(x[k])
    {
      x[i] := (i * lx) as real / lfen as real;
      i := i + 1;
    }
  }

  /** The resampler (lines 236-248): tail[0..lfen) := the synthesis buffer read
      at positions i*lx/lfen with linear interpolation. */
  method Resample(result: array<real>, tail: array<real>, x: array<real>, lfen: int, lx: int)
    requires result != tail && x != tail && x != result
    requires 0 <= lfen <= x.Length && lfen <= tail.Length && 0 <= lx && lx + 1 < result.Length
    modifies x, tail
    ensures tail[..] == Resampled(result[..], lfen, lx) + old(tail[lfen..])
  {
    Positions(x, lfen, lx);
    ghost var want := Resampled(result[..], lfen, lx);
    var i := 0;
    while i < lfen
      modifies tail
      invariant 0 <= i <= lfen
      invariant forall k :: 0 <= k < lfen ==> x[k] == Position(k, lfen, lx)
      invariant forall k :: 0 <= k < i ==> tail[k] == want[k]
      invariant forall k :: i <= k < tail.Length ==> tail[k] == old(tail[k])
    {
      PositionFacts(i, lfen, lx);
      var f := x[i].Floor;
      var term := x[i] - f as real;
      tail[i] := result[f] * (1.0 - term);
      tail[i] := tail[i] + result[f + 1] * term;
      i := i + 1;
    }
    assert tail[..] == want + old(tail[lfen..]);
  }

  /** The boundary blend (lines 253-257): from maxIndex on, the carried samples
      fade out and the resampled signal fades in. */
  method BlendTail(tail: array<real>, lastLOut: array<real>, lastL: int, maxIndex: int)
    requires tail != lastLOut
    requires (lastL == 0 || 2 <= lastL) && lastL <= lastLOut.Length
    requires 0 <= maxIndex && maxIndex + lastL <= tail.Length
    modifies tail
    ensures tail[..] == Blended(old(tail[..]), lastLOut[..lastL], maxIndex)
  {
    ghost var want := Blended(tail[..], lastLOut[..lastL], maxIndex);
    var i := 0;
    while i < lastL
      invariant 0 <= i <= lastL
      invariant forall k :: 0 <= k < maxIndex + i ==> tail[k] == want[k]
      invariant forall k :: maxIndex + i <= k < tail.Length ==> tail[k] == old(tail[k])
      invariant forall k :: maxIndex + lastL <= k < tail.Length ==> want[k] == old(tail[k])
    {
      var term := i as real / (lastL - 1) as real;
      assert term == Ramp(i, lastL);
      tail[i + maxIndex] := tail[i + maxIndex] * term;
      tail[i + maxIndex] := tail[i + maxIndex] + lastLOut[i] * (1.0 - term);
      i := i + 1;
    }
    assert tail[..] == want;
  }

  /** The loops of lines 195-201: the stored block followed by the current one. */
  method Gather(inBuf: array<real>, lastInput: array<real>, lastN: int, input: seq<real>)
    requires inBuf != lastInput && 0 <= lastN <= lastInput.Length && lastN + |input| <= inBuf.Length
    modifies inBuf
    ensures inBuf[..] == lastInput[..lastN] + input + old(inBuf[lastN + |input| ..])
  {
    var i := 0;
    while i < lastN
      invariant 0 <= i <= lastN
      invariant forall k :: 0 <= k < i ==> inBuf[k] == lastInput[k]
      invariant forall k :: i <= k < inBuf.Length ==> inBuf[k] == old(inBuf[k])
    {
      inBuf[i] := lastInput[i];
      i := i + 1;
    }
    i := 0;
    while i < |input|
      invariant 0 <= i <= |input|
      invariant forall k :: 0 <= k < lastN ==> inBuf[k] == lastInput[k]
      invariant forall k :: 0 <= k < i ==> inBuf[lastN + k] == input[k]
      invariant forall k :: lastN + i <= k < inBuf.Length ==> inBuf[k] == old(inBuf[k])
    {
      inBuf[i + lastN] := input[i];
      i := i + 1;
    }
    assert inBuf[..] == lastInput[..lastN] + input + old(inBuf[lastN + |input| ..]);
  }

  /** Lines 188-233 of a call after the first: gathers the stored and the
      current block into in and runs the frame loop; returns in, result, tail
      and overlap as the loop leaves them. */
  method Stretch(lastInput: array<real>, lastN: int, input: seq<real>, Ss: int, L: int, scratch: Scratch)
      returns (inBuf: array<real>, result: array<real>, tail: array<real>, overlap: array<real>)
    requires 0 <= lastN <= lastInput.Length && lastN + |input| <= XCap && scratch.Sized()
    requires HopsFit(Ss, L) && Ss <= 257 && Frames(lastN + |input|) <= 16
    ensures fresh(inBuf) && fresh(result) && fresh(tail) && fresh(overlap)
    ensures inBuf.Length == InCap && result.Length == ResultCap && tail.Length == TailCap && overlap.Length == OverlapCap
    ensures result != tail && overlap != tail && overlap != result
    ensures inBuf[..] == lastInput[..lastN] + input + scratch.inBuf[lastN + |input| ..]
    ensures var st := Synthesised(inBuf[..], lastN + |input|, Ss, L, scratch);
      result[..] == st.result && tail[..] == st.scratch
  {
    var dataSize := |input| + lastN;
    inBuf := Buffer(scratch.inBuf);
    result := Buffer(scratch.result);
    var grain := new real[GrainCap];
    var grainL := new real[GrainLCap];
    overlap := Buffer(scratch.overlap);
    tail := Buffer(scratch.tail);
    Gather(inBuf, lastInput, lastN, input);
    Synthesise(inBuf, result, grain, grainL, overlap, tail, dataSize, Ss, L, inBuf[..], scratch);
  }

  /** Lines 236-257 of a call after the first: the synthesis buffer is
      resampled into tail, the carried samples are aligned with its start and
      blended in; returns the blend position. */
  method JoinTail(result: array<real>, tail: array<real>, overlap: array<real>, lastLOut: array<real>,
                  lastL: int, lfen: int, lx: int, L: int)
      returns (maxIndex: int)
    requires result != tail && overlap != tail && overlap != result && lastLOut != tail && lastLOut != overlap
    requires 0 <= lfen <= XCap && lfen <= tail.Length && 0 <= lx && lx + 1 < result.Length
    requires (lastL == 0 || 2 <= lastL) && lastL <= lastLOut.Length && lastL <= overlap.Length
    requires 0 < SearchSpan(L) && SearchSpan(L) + lastL <= tail.Length
    modifies tail, overlap
    ensures var resampled := Resampled(result[..], lfen, lx) + old(tail[lfen..]);
      && maxIndex == SadArgMin(lastLOut[..lastL], resampled[..SearchSpan(L)])
      && tail[..] == Blended(resampled, lastLOut[..lastL], maxIndex)
  {
    var x := new real[XCap];
    Resample(result, tail, x, lfen, lx);
    Copy(lastLOut, 0, overlap, lastL);
    assert overlap[..lastL] == lastLOut[..lastL];
    maxIndex := MaxSimIndex2(overlap[..lastL], tail[..SearchSpan(L)]);
    BlendTail(tail, lastLOut, lastL, maxIndex);
  }

  /** Lines 188-257 of a call after the first: returns the buffer in and tail
      after the boundary blend, and the blend position maxIndex, from which the
      call takes its output and the samples it carries. */
  method Shift(lastInput: array<real>, lastLOut: array<real>, lastN: int, lastL: int, input: seq<real>,
               alpha: real, Ss: int, L: int, lx: int, scratch: Scratch)
      returns (inBuf: array<real>, tail: array<real>, maxIndex: int)
    requires 0 <= lastN <= lastInput.Length && 0 <= lastL <= lastLOut.Length
    requires CallFits(|input|, lastN, lastL, alpha, Ss, L, lx) && scratch.Sized()
    ensures fresh(inBuf) && fresh(tail) && inBuf.Length == InCap && tail.Length == TailCap
    ensures inBuf[lastN .. lastN + |input|] == input
    ensures 0 <= maxIndex && maxIndex + |input| + L <= TailCap
    ensures var e := NextBlock(lastInput[..lastN], lastLOut[..lastL], input, alpha, Ss, L, lx, scratch);
      e.output == tail[maxIndex .. maxIndex + |input|] && e.carry == tail[|input| + maxIndex .. |input| + maxIndex + L]
  {
    var n := |input|;
    CallBounds(n, lastN, lastL, alpha, Ss, L, lx);
    var dataSize := n + lastN;
    var result, overlap;
    inBuf, result, tail, overlap := Stretch(lastInput, lastN, input, Ss, L, scratch);
    assert inBuf[lastN .. lastN + n] == input;
    ghost var resampled := Resampled(result[..], dataSize, lx) + tail[dataSize..];
    maxIndex := JoinTail(result, tail, overlap, lastLOut, lastL, dataSize, lx, L);
    NextBlockParts(lastInput[..lastN], lastLOut[..lastL], input, alpha, Ss, L, lx, scratch, inBuf[..], resampled, maxIndex);
  }

  /** The first call (lines 169-184): the block is stored, the carried tail
      cleared and the output silenced. */
  method Prime(input: seq<real>, lastInput: array<real>, lastLOut: array<real>, output: array<real>)
    requires lastInput != lastLOut && lastInput != output && lastLOut != output
    requires |input| <= lastInput.Length && |input| <= output.Length
    modifies lastInput, lastLOut, output
    ensures lastInput[..] == input + old(lastInput[|input|..])
    ensures lastLOut[..] == seq(lastLOut.Length, _ => 0.0)
    ensures output[..] == seq(|input|, _ => 0.0) + old(output[|input|..])
  {
    var n := |input|;
    var i := 0;
    while i < n
      modifies lastInput
      invariant 0 <= i <= n
      invariant forall k :: 0 <= k < i ==> lastInput[k] == input[k]
      invariant forall k :: i <= k < lastInput.Length ==> lastInput[k] == old(lastInput[k])
    {
      lastInput[i] := input[i];
      i := i + 1;
    }
    i := 0;
    while i < lastLOut.Length
      modifies lastLOut
      invariant 0 <= i <= lastLOut.Length
      invariant forall k :: 0 <= k < i ==> lastLOut[k] == 0.0
    {
      lastLOut[i] := 0.0;
      i := i + 1;
    }
    i := 0;
    while i < n
      modifies output
      invariant 0 <= i <= n
      invariant forall k :: 0 <= k < i ==> output[k] == 0.0
      invariant forall k :: i <= k < output.Length ==> output[k] == old(output[k])
    {
      output[i] := 0.0;
      i := i + 1;
    }
    assert lastInput[..] == input + old(lastInput[n..]);
    assert output[..] == seq(n, _ => 0.0) + old(output[n..]);
  }

  /** Lines 259-271 of a call after the first: the current block is stored
      from in, the L samples after the output block are stored as the carried
      tail, and the output block is read from tail at maxIndex. */
  method Emit(inBuf: array<real>, tail: array<real>, maxIndex: int, n: int, lastN: int, L: int,
              lastInput: array<real>, lastLOut: array<real>, output: array<real>)
    requires lastInput != lastLOut && lastInput != output && lastLOut != output
    requires inBuf != lastInput && inBuf != lastLOut && inBuf != output
    requires tail != lastInput && tail != lastLOut && tail != output
    requires 0 <= n && 0 <= lastN && lastN + n <= inBuf.Length && n <= lastInput.Length && n <= output.Length
    requires 0 <= L <= lastLOut.Length && 0 <= maxIndex && maxIndex + n + L <= tail.Length
    modifies lastInput, lastLOut, output
    ensures lastInput[..] == inBuf[lastN .. lastN + n] + old(lastInput[n..])
    ensures lastLOut[..] == tail[n + maxIndex .. n + maxIndex + L] + old(lastLOut[L..])
    ensures output[..] == tail[maxIndex .. maxIndex + n] + old(output[n..])
  {
    var i := 0;
    while i < n
      modifies lastInput
      invariant 0 <= i <= n
      invariant forall k :: 0 <= k < i ==> lastInput[k] == inBuf[k + lastN]
      invariant forall k :: i <= k < lastInput.Length ==> lastInput[k] == old(lastInput[k])
    {
      lastInput[i] := inBuf[i + lastN];
      i := i + 1;
    }
    i := 0;
    while i < L
      modifies lastLOut
      invariant 0 <= i <= L
      invariant forall k :: 0 <= k < i ==> lastLOut[k] == tail[n + maxIndex + k]
      invariant forall k :: i <= k < lastLOut.Length ==> lastLOut[k] == old(lastLOut[k])
    {
      lastLOut[i] := tail[n + maxIndex + i];
      i := i + 1;
    }
    i := 0;
    while i < n
      modifies output
      invariant 0 <= i <= n
      invariant forall k :: 0 <= k < i ==> output[k] == tail[k + maxIndex]
      invariant forall k :: i <= k < output.Length ==> output[k] == old(output[k])
    {
      output[i] := tail[i + maxIndex];
      i := i + 1;
    }
    assert lastInput[..] == inBuf[lastN .. lastN + n] + old(lastInput[n..]);
    assert lastLOut[..] == tail[n + maxIndex .. n + maxIndex + L] + old(lastLOut[L..]);
    assert output[..] == tail[maxIndex .. maxIndex + n] + old(output[n..]);
  }

  /** One plugin instance: the block and carried tail kept between calls. */
  class PitchShifter {
    var lastInput: array<real>
    var lastLOut: array<real>
    var isFirst: bool
    var lastN: int
    var lastL: int

    predicate Valid()
      reads this
    {
      && lastInput.Length == LastInputCap && lastLOut.Length == LastLOutCap
      && lastInput != lastLOut
      && 0 <= lastN <= LastInputCap
    }

    /** instantiate (lines 295-305): nothing stored yet. */
    constructor ()
      ensures Valid() && fresh(lastInput) && fresh(lastLOut)
      ensures isFirst && lastN == 0 && lastL == 0
    {
      lastLOut := new real[LastLOutCap];
      lastInput := new real[LastInputCap];
      isFirst := true;
      lastN := 0;
      lastL := 0;
    }

    /** run (lines 150-275). alpha is the value of run's local alpha: on the first
        call it is never assigned, afterwards it is the control port; Ss, L and
        lx are round(Sa*alpha), round(Sa*alpha/2) and floor(data_size*alpha);
        scratch is what run's local buffers hold before it writes them. */
    method Run(input: seq<real>, output: array<real>, alpha: real, Ss: int, L: int, lx: int, scratch: Scratch)
      requires Valid() && |input| <= output.Length && output != lastInput && output != lastLOut
      requires IsRounded(L, Sa as real * alpha / 2.0)
      requires isFirst ==> |input| <= LastInputCap
      requires !isFirst ==> CallFits(|input|, lastN, lastL, alpha, Ss, L, lx) && scratch.Sized()
      modifies this, lastInput, lastLOut, output
      ensures Valid() && lastInput == old(lastInput) && lastLOut == old(lastLOut)
      ensures !isFirst && lastN == |input| && lastL == L
      ensures lastInput[..|input|] == input && lastInput[|input|..] == old(lastInput[|input|..])
      ensures output[|input|..] == old(output[|input|..])
      ensures old(isFirst) ==>
        output[..|input|] == seq(|input|, _ => 0.0) && lastLOut[..] == seq(LastLOutCap, _ => 0.0)
      ensures !old(isFirst) ==>
        var e := NextBlock(old(lastInput[..lastN]), old(lastLOut[..CarriedLength(lastL)]), input, alpha, Ss, L, lx, scratch);
        output[..|input|] == e.output && lastLOut[..L] == e.carry && lastLOut[L..] == old(lastLOut[L..])
    {
      var n := |input|;
      if isFirst {
        Prime(input, lastInput, lastLOut, output);
        isFirst := false;
        lastN := n;
        lastL := L;
      } else {
        var inBuf, tail, maxIndex := Shift(lastInput, lastLOut, lastN, CarriedLength(lastL), input, alpha, Ss, L, lx, scratch);
        Emit(inBuf, tail, maxIndex, n, lastN, L, lastInput, lastLOut, output);
        lastN := n;
        lastL := L;
      }
    }
  }
}
