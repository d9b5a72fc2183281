/**
  The fuzz of DafxFuzz/dafx_fuzz.c. run normalises the block by its peak,
  bends every sample through 1 - exp(-|q|) with the sign of q, mixes the
  result back at the input's scale, and rescales the mix so that its peak is
  the input's peak. Every pass is guarded against a zero peak. exp is a
  parameter: nothing here depends on what it computes.
 */
module Fuzz {
  import opened Samples

  /** The capacity of the local buffers q and z (lines 104-105). */
  const BlockCap := 5000

  /** sign (lines 47-51). */
  function Sign(n: real): (s: real)
    ensures s == -1.0 || s == 0.0 || s == 1.0
    ensures s * n == Abs(n)
    ensures s == 0.0 <==> n == 0.0
  {
    if n < 0.0 then -1.0
    else if n > 0.0 then 1.0
    else 0.0
  }

  /** The exponent of line 124 is -|q|. */
  lemma NegatedExponent(q: real)
    ensures Sign(-q) * q == -Abs(q)
  {
    assert Sign(-q) * (-q) == Abs(-q);
  }

  // ---------------------------------------------------------------------------
  // Peaks

  /** The value a running-max pass over s leaves (lines 113-116, 127-130 and
      141-144): it starts at 0 and moves to |s[pos]| only when that is strictly
      larger. */
  function PeakAbs(s: seq<real>): real
    decreases |s|
  {
    if |s| == 0 then 0.0
    else
      var m := PeakAbs(s[..|s| - 1]);
      if Abs(s[|s| - 1]) > m then Abs(s[|s| - 1]) else m
  }

  /** The peak bounds every magnitude and is itself non-negative. */
  lemma {:induction false} PeakIsUpperBound(s: seq<real>)
    ensures PeakAbs(s) >= 0.0
    ensures forall i :: 0 <= i < |s| ==> Abs(s[i]) <= PeakAbs(s)
    decreases |s|
  {
    if |s| > 0 {
      var init := s[..|s| - 1];
      PeakIsUpperBound(init);
      assert forall i :: 0 <= i < |init| ==> init[i] == s[i];
    }
  }

  /** The peak is 0 or the magnitude of some sample. */
  lemma {:induction false} PeakIsAttained(s: seq<real>)
    ensures PeakAbs(s) == 0.0 || exists i :: 0 <= i < |s| && Abs(s[i]) == PeakAbs(s)
    decreases |s|
  {
    if |s| > 0 {
      var init := s[..|s| - 1];
      PeakIsAttained(init);
      if PeakAbs(s) != 0.0 && PeakAbs(s) == PeakAbs(init) {
        var i :| 0 <= i < |init| && Abs(init[i]) == PeakAbs(init);
        assert Abs(s[i]) == PeakAbs(s);
      }
    }
  }

  /** The peak is 0 exactly when every sample is silent. */
  lemma PeakZeroIffSilent(s: seq<real>)
    ensures PeakAbs(s) == 0.0 <==> forall i :: 0 <= i < |s| ==> s[i] == 0.0
  {
    PeakIsUpperBound(s);
    PeakIsAttained(s);
  }

  /** A bound that some magnitude attains is the peak. */
  lemma PeakIsAttainedBound(s: seq<real>, bound: real, j: int)
    requires forall i :: 0 <= i < |s| ==> Abs(s[i]) <= bound
    requires 0 <= j < |s| && Abs(s[j]) == bound
    ensures PeakAbs(s) == bound
  {
    PeakIsUpperBound(s);
    PeakIsAttained(s);
  }

  /** One running-max pass (lines 113-116, 127-130, 141-144). */
  method Peak(s: seq<real>) returns (m: real)
    ensures m == PeakAbs(s)
  {
    m := 0.0;
    var pos := 0;
    while pos < |s|
      invariant 0 <= pos <= |s|
      invariant m == PeakAbs(s[..pos])
    {
      assert s[..pos + 1][..pos] == s[..pos];
      if Abs(s[pos]) > m {
        m := Abs(s[pos]);
      }
      pos := pos + 1;
    }
    assert s[..|s|] == s;
  }

  // ---------------------------------------------------------------------------
  // The passes as functions of the block

  /** Lines 118-121: the input scaled by gain/maxX, or silence when maxX is 0. */
  function Normalised(input: seq<real>, gain: real, maxX: real): (q: seq<real>)
    ensures |q| == |input|
  {
    seq(|input|, i requires 0 <= i < |input| => if maxX > 0.0 then input[i] * gain / maxX else 0.0)
  }

  /** Lines 123-125: sign(q)*(1 - exp(sign(-q)*q)). */
  function Shaped(q: seq<real>, exp: real -> real): (z: seq<real>)
    ensures |z| == |q|
  {
    seq(|q|, i requires 0 <= i < |q| => Sign(q[i]) * (1.0 - exp(Sign(-q[i]) * q[i])))
  }

  /** Lines 134-138: the shaped block brought to the input's scale and mixed
      with the input, or silence when either peak is 0. */
  function Mixed(z: seq<real>, input: seq<real>, mix: real, maxX: real, maxZ: real): (y: seq<real>)
    requires |z| == |input|
    ensures |y| == |z|
  {
    seq(|z|, i requires 0 <= i < |z| =>
      if maxX > 0.0 && maxZ > 0.0 then mix * z[i] * maxX / maxZ + (1.0 - mix) * input[i] else 0.0)
  }

  /** Lines 146-149: the mix rescaled by maxX/maxY, or silence when either
      peak is 0. */
  function Renormalised(y: seq<real>, maxX: real, maxY: real): (r: seq<real>)
    ensures |r| == |y|
  {
    seq(|y|, i requires 0 <= i < |y| => if maxX > 0.0 && maxY > 0.0 then Rescale(y[i], maxX, maxY) else 0.0)
  }

  /** One sample of line 147: v*maxX/maxY. */
  function Rescale(v: real, maxX: real, maxY: real): real
    requires maxY != 0.0
  {
    v * maxX / maxY
  }

  /** The mix of lines 113-139, before the renormalisation. */
  function Blend(input: seq<real>, gain: real, mix: real, exp: real -> real): (y: seq<real>)
    ensures |y| == |input|
  {
    var maxX := PeakAbs(input);
    var z := Shaped(Normalised(input, gain, maxX), exp);
    Mixed(z, input, mix, maxX, PeakAbs(z))
  }

  /** The block run writes to output (lines 113-154). */
  function FuzzOut(input: seq<real>, gain: real, mix: real, exp: real -> real): (out: seq<real>)
    ensures |out| == |input|
  {
    var y := Blend(input, gain, mix, exp);
    Renormalised(y, PeakAbs(input), PeakAbs(y))
  }

  // ---------------------------------------------------------------------------
  // Properties of the block

  /** Rescaling a magnitude at most my by mx/my gives a magnitude at most mx,
      and exactly mx when the magnitude was my. */
  lemma ScaleToPeak(v: real, mx: real, my: real)
    requires mx > 0.0 && my > 0.0 && Abs(v) <= my
    ensures Abs(Rescale(v, mx, my)) <= mx
    ensures Abs(v) == my ==> Abs(Rescale(v, mx, my)) == mx
  {
    var r := v * mx / my;
    assert r * my == v * mx;
    if v >= 0.0 {
      assert v * mx <= my * mx;
      assert r >= 0.0;
      assert r <= mx;
    } else {
      assert (-v) * mx <= my * mx;
      assert r < 0.0;
      assert -r <= mx;
    }
  }

  /** The renormalisation keeps every magnitude within maxX and, when both
      peaks are positive, brings the block's peak to exactly maxX. */
  lemma RenormalisedPeak(y: seq<real>, maxX: real)
    requires maxX >= 0.0
    ensures var r := Renormalised(y, maxX, PeakAbs(y));
      && (forall i :: 0 <= i < |r| ==> Abs(r[i]) <= maxX)
      && (maxX > 0.0 && PeakAbs(y) > 0.0 ==> PeakAbs(r) == maxX)
  {
    var maxY := PeakAbs(y);
    var r := Renormalised(y, maxX, maxY);
    PeakIsUpperBound(y);
    if maxX > 0.0 && maxY > 0.0 {
      forall i | 0 <= i < |r|
        ensures Abs(r[i]) <= maxX
      {
        ScaleToPeak(y[i], maxX, maxY);
      }
      PeakIsAttained(y);
      var j :| 0 <= j < |y| && Abs(y[j]) == maxY;
      ScaleToPeak(y[j], maxX, maxY);
      PeakIsAttainedBound(r, maxX, j);
    }
  }

  /** Silence in, silence out: an all-zero block has peak 0 and every guard
      yields 0. */
  lemma SilenceInSilenceOut(input: seq<real>, gain: real, mix: real, exp: real -> real)
    requires forall i :: 0 <= i < |input| ==> input[i] == 0.0
    ensures FuzzOut(input, gain, mix, exp) == seq(|input|, _ => 0.0)
  {
    PeakZeroIffSilent(input);
  }

  /** The output is silent exactly when the input's peak or the mix's peak
      is 0. */
  lemma SilentOutputIffZeroPeak(input: seq<real>, gain: real, mix: real, exp: real -> real)
    ensures var y := Blend(input, gain, mix, exp);
      (FuzzOut(input, gain, mix, exp) == seq(|input|, _ => 0.0)) <==> (PeakAbs(input) == 0.0 || PeakAbs(y) == 0.0)
  {
    var y := Blend(input, gain, mix, exp);
    var out := FuzzOut(input, gain, mix, exp);
    PeakIsUpperBound(input);
    if PeakAbs(input) > 0.0 && PeakAbs(y) > 0.0 {
      RenormalisedPeak(y, PeakAbs(input));
      PeakZeroIffSilent(out);
      assert out != seq(|input|, _ => 0.0);
    }
  }

  /** No output sample exceeds the input's peak in magnitude. */
  lemma OutputBounded(input: seq<real>, gain: real, mix: real, exp: real -> real)
    ensures var out := FuzzOut(input, gain, mix, exp);
      forall i :: 0 <= i < |out| ==> Abs(out[i]) <= PeakAbs(input)
  {
    PeakIsUpperBound(input);
    RenormalisedPeak(Blend(input, gain, mix, exp), PeakAbs(input));
  }

  /** When both guards pass, the output's peak is the input's peak: some
      sample has magnitude exactly maxX. */
  lemma PeakRestored(input: seq<real>, gain: real, mix: real, exp: real -> real)
    requires PeakAbs(input) > 0.0 && PeakAbs(Blend(input, gain, mix, exp)) > 0.0
    ensures var out := FuzzOut(input, gain, mix, exp);
      && PeakAbs(out) == PeakAbs(input)
      && exists i :: 0 <= i < |out| && Abs(out[i]) == PeakAbs(input)
  {
    var out := FuzzOut(input, gain, mix, exp);
    RenormalisedPeak(Blend(input, gain, mix, exp), PeakAbs(input));
    PeakIsAttained(out);
  }

  /** With mix 0 the mix of lines 134-138 is the input itself. */
  lemma DryMix(z: seq<real>, input: seq<real>, maxX: real, maxZ: real)
    requires |z| == |input| && maxX > 0.0 && maxZ > 0.0
    ensures Mixed(z, input, 0.0, maxX, maxZ) == input
  {
    var y := Mixed(z, input, 0.0, maxX, maxZ);
    forall i | 0 <= i < |y|
      ensures y[i] == input[i]
    {
      assert 0.0 * z[i] * maxX / maxZ == 0.0;
    }
  }

  /** Renormalising a block to its own peak leaves it unchanged. */
  lemma RenormaliseToOwnPeak(y: seq<real>, maxY: real)
    requires maxY > 0.0
    ensures Renormalised(y, maxY, maxY) == y
  {
    var r := Renormalised(y, maxY, maxY);
    forall i | 0 <= i < |r|
      ensures r[i] == y[i]
    {
      assert Rescale(y[i], maxY, maxY) == y[i];
    }
  }

  /** With mix 0 and both guards open, the fuzz passes the input through
      unchanged. */
  lemma DryMixPassesThrough(input: seq<real>, gain: real, exp: real -> real)
    requires PeakAbs(input) > 0.0
    requires PeakAbs(Shaped(Normalised(input, gain, PeakAbs(input)), exp)) > 0.0
    ensures FuzzOut(input, gain, 0.0, exp) == input
  {
    var maxX := PeakAbs(input);
    var z := Shaped(Normalised(input, gain, maxX), exp);
    DryMix(z, input, maxX, PeakAbs(z));
    assert Blend(input, gain, 0.0, exp) == input;
    RenormaliseToOwnPeak(input, maxX);
  }

  // ---------------------------------------------------------------------------
  // The loops of run

  /** Lines 118-121 into q. */
  method Normalise(input: seq<real>, gain: real, maxX: real, q: array<real>)
    requires |input| <= q.Length
    modifies q
    ensures q[..|input|] == Normalised(input, gain, maxX)
    ensures q[|input|..] == old(q[|input|..])
  {
    var pos := 0;
    while pos < |input|
      invariant 0 <= pos <= |input|
      invariant forall j :: 0 <= j < pos ==> q[j] == Normalised(input, gain, maxX)[j]
      invariant q[|input|..] == old(q[|input|..])
    {
      if maxX > 0.0 {
        q[pos] := input[pos] * gain / maxX;
      } else {
        q[pos] := 0.0;
      }
      pos := pos + 1;
    }
    assert q[..|input|] == Normalised(input, gain, maxX);
  }

  /** Lines 123-125 from q into z. */
  method ShapeBlock(q: array<real>, n: int, exp: real -> real, z: array<real>)
    requires q != z && 0 <= n <= q.Length && n <= z.Length
    modifies z
    ensures z[..n] == Shaped(q[..n], exp)
    ensures z[n..] == old(z[n..])
  {
    var pos := 0;
    while pos < n
      invariant 0 <= pos <= n
      invariant z[..pos] == Shaped(q[..n], exp)[..pos]
      invariant z[n..] == old(z[n..])
    {
      z[pos] := Sign(q[pos]) * (1.0 - exp(Sign(-q[pos]) * q[pos]));
      pos := pos + 1;
    }
  }

  /** Lines 134-138 from z and the input into q. */
  method MixBlock(z: array<real>, input: seq<real>, mix: real, maxX: real, maxZ: real, q: array<real>)
    requires q != z && |input| <= z.Length && |input| <= q.Length
    modifies q
    ensures q[..|input|] == Mixed(z[..|input|], input, mix, maxX, maxZ)
    ensures q[|input|..] == old(q[|input|..])
  {
    var pos := 0;
    while pos < |input|
      invariant 0 <= pos <= |input|
      invariant forall j :: 0 <= j < pos ==> q[j] == Mixed(z[..|input|], input, mix, maxX, maxZ)[j]
      invariant q[|input|..] == old(q[|input|..])
    {
      var y;
      if maxX > 0.0 && maxZ > 0.0 {
        y := mix * z[pos] * maxX / maxZ + (1.0 - mix) * input[pos];
      } else {
        y := 0.0;
      }
      q[pos] := y;
      pos := pos + 1;
    }
    assert q[..|input|] == Mixed(z[..|input|], input, mix, maxX, maxZ);
  }

  /** Lines 146-149, rescaling q in place. */
  method RenormaliseBlock(q: array<real>, n: int, maxX: real, maxY: real)
    requires 0 <= n <= q.Length
    modifies q
    ensures q[..n] == Renormalised(old(q[..n]), maxX, maxY)
    ensures q[n..] == old(q[n..])
  {
    var pos := 0;
    while pos < n
      invariant 0 <= pos <= n
      invariant forall j :: 0 <= j < pos ==> q[j] == Renormalised(old(q[..n]), maxX, maxY)[j]
      invariant forall j :: pos <= j < q.Length ==> q[j] == old(q[j])
    {
      if maxX > 0.0 && maxY > 0.0 {
        q[pos] := q[pos] * maxX / maxY;
      } else {
        q[pos] := 0.0;
      }
      pos := pos + 1;
    }
    assert q[..n] == Renormalised(old(q[..n]), maxX, maxY);
  }

  /** Lines 152-154. */
  method CopyOut(q: array<real>, n: int, output: array<real>)
    requires q != output && 0 <= n <= q.Length && n <= output.Length
    modifies output
    ensures output[..n] == q[..n]
    ensures output[n..] == old(output[n..])
  {
    var pos := 0;
    while pos < n
      invariant 0 <= pos <= n
      invariant output[..pos] == q[..pos]
      invariant output[n..] == old(output[n..])
    {
      output[pos] := q[pos];
      pos := pos + 1;
    }
  }

  /** run (lines 113-154): the block of n = |input| samples, n at most the
      capacity of q and z. The input is read as a value: every read of it
      happens before the first write to output. */
  method Run(input: seq<real>, output: array<real>, gain: real, mix: real, exp: real -> real)
    requires |input| <= BlockCap && |input| <= output.Length
    modifies output
    ensures output[..|input|] == FuzzOut(input, gain, mix, exp)
    ensures output[|input|..] == old(output[|input|..])
  {
    var n := |input|;
    var q := new real[BlockCap];
    var z := new real[BlockCap];
    var maxX := Peak(input);
    Normalise(input, gain, maxX, q);
    ShapeBlock(q, n, exp, z);
    var maxZ := Peak(z[..n]);
    MixBlock(z, input, mix, maxX, maxZ, q);
    var maxY := Peak(q[..n]);
    RenormaliseBlock(q, n, maxX, maxY);
    CopyOut(q, n, output);
  }
}
