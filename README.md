# LV2 effects: SOLA pitch shifter, two overdrives and a fuzz

This project is a Dafny model of the signal-processing cores of four LV2 audio plugins.
Each plugin's `run` callback processes one block of `n_samples` floats.

- **SOLA pitch shifter** (`DafxPitchShifting/dafx-ps-sola.c`). Each call joins the
  previous block to the current one. The joined signal is time-stretched by
  synchronous overlap-add (TimeScaleSOLA). Frames of `N = 512` samples are read
  every `Sa = 128` samples and spliced every `Ss = round(Sa*alpha)` samples, each
  at the offset where it best matches what is already there (`maxSimIndex`). The
  result is resampled back to the original length by linear interpolation. The
  boundary with the tail carried over from the previous call is found by
  `maxSimIndex2` and crossfaded. Finally the block and `L = round(Sa*alpha/2)`
  samples of tail are stored for the next call. The plugin instance is the class
  `Sola.PitchShifter`. Each part of `run` is a method that works on arrays, and is
  proved to compute exactly a value-level description in module `SolaSpec`.
  Properties of the algorithm are proved about that description: the argmin
  searches, convexity of the crossfades and the interpolation, buffer bounds, and
  what a call emits.
- **One-knob overdrive** (`MyOverdrive/my_od.c`). With `th = 1 - knob` the curve
  is linear below `th`, quadratic up to `2*th`, and clips to ±1 beyond. The model
  proves the curve continuous at both joins, odd, and bounded by 1 for `th > 0`.
- **Two-knob overdrive** (`MyOverdrive2Params/my_od2.c`). This is the same shape,
  but with a movable clip point `th2`. Its coefficients solve a small linear
  system whose denominator vanishes at `th2 = 1 - sqrt(1 - th^2)`; the code guards
  that value. The model shows that the guard's test value is exactly the root of
  the denominator at or below 1. It also proves that over the reals the guard
  removes the pole, and that the curve is continuous and odd.
- **Fuzz** (`DafxFuzz/dafx_fuzz.c`). The block is normalised by its peak and bent
  through `sign(q)*(1 - exp(-|q|))`. It is then mixed with the dry signal and
  rescaled so that its peak equals the input's peak. The model proves that the
  output never exceeds the input's peak, that the output's peak equals the
  input's peak if both guards pass (input peak and mix peak positive), that the
  output is silent exactly when a guard fails, and that with mix 0 the input
  passes through unchanged when both the input's peak and the shaped block's
  peak are positive (with gain 0 the shaped block is silent and so is the
  output, whatever the mix).

Samples are `real`, so single-precision float rounding is not modelled. C's `round`,
`floor` and `ceilf` results are represented as integer parameters tied to
their real arguments by the predicates `SolaSpec.IsRounded` and `SolaSpec.IsFloor`;
`ceilf(data_size/Sa)` is computed exactly by `SolaSpec.Frames`.

The model follows the code where it differs from a plain reading of the algorithm:

- `maxSimIndex` reads `v[vLen]`: the test at line 73 is `j <= vLen`, not `j < vLen`.
  In `run` that cell is `overlap[L]`, which the call never writes. The model
  carries its value as the parameter `guard` of `SolaSpec.FrameOffset`, so every
  frame result is stated for whatever that cell holds.
- An exact match counts `-1` in `maxSimIndex` (line 80). So an all-zero grain
  matches the zero padding before the overlap, and the search returns `-uLen`,
  not 0 (`Alignment.SilentWindowPicksFirstOffset`). Identical windows reach the
  least possible cost, but the offset chosen need not be 0
  (`Alignment.IdenticalWindowsAttainFloor`).
- On the first call `run` rounds its local `alpha` before assigning it (line 179).
  `Sola.PitchShifter.Run` takes that value as its parameter `alpha`.
- Every cell `run` reads before writing it comes from the parameter
  `SolaSpec.Scratch`: the tail of `in` past `data_size`, `result` past
  `data_size`, the cell `overlap[L]`, and `tail` past the resampled length. The
  contracts hold for every content of those buffers. `result` past `data_size`
  is read in three places. A frame's overlap copy (line 211) reads
  `result[i*Ss .. i*Ss+L)`, which for the first frame lies past `data_size`
  when `data_size < Ss + L` (for example `n = last_n = 75` and `alpha = 1`:
  `Ss = 128`, `L = 64`, `data_size = 150`, and `result[150 .. 192)` goes into
  `overlap`). The splice point that `maxSimIndex` picks then depends on
  stack contents. The first frame's copy into `tail` (line 216, with
  `resLen = N` from line 193) reads `result[data_size .. N)` when
  `data_size < N`. The resampler reads up to `result[lx]` (lines 246-247), and
  `lx = floor(data_size*alpha)` exceeds `data_size` when `alpha > 1`. So with
  `alpha > 1` the code can interpolate stack contents that were never written:
  for a short joined block (`data_size <= 128`, no frame runs), and also when
  frames run but a splice point `cut` lies past `data_size`, which leaves
  `result[data_size .. cut)` unwritten (for example `alpha = 2`, so `lx = 2*data_size`,
  with `data_size` under 256 and a frame whose `cut` exceeds `data_size`). `tail` past the
  resampled length `lfen = data_size` is read too. The boundary search of line
  251 scans `tail[0 .. N-L)`, and the output and carry of lines 264 and 270 read
  `tail[maxIndex .. n+maxIndex+L)`. Both can reach past `lfen`, into cells the
  frame loop left there or cells that nothing wrote. For example, with `n =
  last_n = 256` and `alpha = 1`, the carry can come from `tail[512 .. 767)`.

## Model

| member | source | states |
|---|---|---|
| Alignment.Padded | DafxPitchShifting/dafx-ps-sola.c:70-78 | definition: the sample of v paired with position j, 0 before 0 and after vLen, v[j] for 0 <= j <= vLen |
| Alignment.Bias | DafxPitchShifting/dafx-ps-sola.c:80-81 | definition: an exact match (term 0) counts -1, any other term counts itself |
| Alignment.BiasedPartial | DafxPitchShifting/dafx-ps-sola.c:69-82 | definition: the sum of the first k biased terms |u[m] - Padded(v, i+m)| of offset i |
| Alignment.BiasedCost | DafxPitchShifting/dafx-ps-sola.c:69-82 | definition: the sum maxSimIndex computes for offset i, all uLen biased terms |
| Alignment.ZeroPadded | DafxPitchShifting/dafx-ps-sola.c:99-100 | definition: v[j] for j < vLen, 0 after |
| Alignment.SadPartial | DafxPitchShifting/dafx-ps-sola.c:98-101 | definition: the sum of the first k terms |u[m] - ZeroPadded(v, i+m)| of offset i |
| Alignment.SadCost | DafxPitchShifting/dafx-ps-sola.c:97-101 | definition: the sum maxSimIndex2 computes for offset i, all uLen terms |
| Alignment.BiasedScan | DafxPitchShifting/dafx-ps-sola.c:68-87 | the candidate held after trying offsets -uLen .. hi-1 is one of those offsets |
| Alignment.BiasedScanIsFirstMin | DafxPitchShifting/dafx-ps-sola.c:83-86 | the candidate has the least biased cost among the offsets tried, and every earlier offset costs strictly more |
| Alignment.BiasedArgMin | DafxPitchShifting/dafx-ps-sola.c:64-90 | the offset maxSimIndex returns lies in [-uLen, vLen) |
| Alignment.BiasedArgMinIsFirstMin | DafxPitchShifting/dafx-ps-sola.c:64-90 | maxSimIndex returns the first offset of minimal biased cost in [-uLen, vLen) |
| Alignment.MaxSimIndex | DafxPitchShifting/dafx-ps-sola.c:64-90 | the nested loops return BiasedArgMin: the first offset of least biased cost, within [-uLen, vLen) |
| Alignment.BiasedPartialAtLeast | DafxPitchShifting/dafx-ps-sola.c:69-82 | every biased term is at least -1, so k terms sum to at least -k |
| Alignment.BiasedCostAtLeast | DafxPitchShifting/dafx-ps-sola.c:69-82 | every offset's cost is at least -uLen |
| Alignment.BiasedPartialAllMatch | DafxPitchShifting/dafx-ps-sola.c:80-81 | k exact matches sum to exactly -k |
| Alignment.IdenticalWindowsAttainFloor | DafxPitchShifting/dafx-ps-sola.c:64-90 | when v starts with u, offset 0 and the chosen offset both reach the least possible cost -uLen |
| Alignment.SilentWindowPicksFirstOffset | DafxPitchShifting/dafx-ps-sola.c:68-86 | an all-zero window makes maxSimIndex return -uLen |
| Alignment.SadScan | DafxPitchShifting/dafx-ps-sola.c:97-106 | the candidate held after trying offsets 0 .. hi-1 is one of those offsets |
| Alignment.SadScanIsFirstMin | DafxPitchShifting/dafx-ps-sola.c:102-105 | the candidate has the least sum of absolute differences among the offsets tried, and every earlier offset has a strictly larger sum |
| Alignment.SadArgMin | DafxPitchShifting/dafx-ps-sola.c:93-109 | the offset maxSimIndex2 returns lies in [0, vLen) |
| Alignment.SadArgMinIsFirstMin | DafxPitchShifting/dafx-ps-sola.c:93-109 | maxSimIndex2 returns the first offset of minimal cost in [0, vLen) |
| Alignment.MaxSimIndex2 | DafxPitchShifting/dafx-ps-sola.c:93-109 | the nested loops return SadArgMin, within [0, vLen) |
| Alignment.SadPartialNonNegative | DafxPitchShifting/dafx-ps-sola.c:98-101 | sums of absolute differences are non-negative |
| Alignment.SadPartialOfPrefix | DafxPitchShifting/dafx-ps-sola.c:98-101 | at offset 0, a v that starts with u gives sum 0 |
| Alignment.MatchingPrefixPicksZero | DafxPitchShifting/dafx-ps-sola.c:93-109 | when v starts with u, maxSimIndex2 returns 0 |
| SolaSpec.IsRounded | DafxPitchShifting/dafx-ps-sola.c:191-192 | definition: k is C round(r), the nearest integer with halves away from zero |
| SolaSpec.IsFloor | DafxPitchShifting/dafx-ps-sola.c:238 | definition: k is floor(r) |
| SolaSpec.Frames | DafxPitchShifting/dafx-ps-sola.c:190 | definition: M = (data_size + 127) / 128, the exact ceiling of data_size/Sa (FramesIsCeiling) |
| SolaSpec.CallFits | DafxPitchShifting/dafx-ps-sola.c:186-192 | definition: the conditions under which a call after the first stays inside its buffers (declared at lines 156-163) and does not divide by zero: n + last_n <= 2048, the rounding relations for Ss, L and lx, 1 <= L, Ss + 2L - 1 <= N, and last_L <= 0 or 2 <= last_L <= 256 |
| SolaSpec.CarriedLength | DafxPitchShifting/dafx-ps-sola.c:250-257 | definition: the number of carried samples the boundary copy, search and blend touch: last_L, or 0 for a negative last_L, for which all three loops run zero times |
| SolaSpec.Crossfade | DafxPitchShifting/dafx-ps-sola.c:219-221 | definition: prev*(1 - k/len) + next*(k/len), the fade of the old sample into the grain sample |
| SolaSpec.Hop | DafxPitchShifting/dafx-ps-sola.c:211-215 | definition: the frame offset i*Ss, written as i hops of Ss added one by one; equal to i*Ss (HopIsProduct) |
| SolaSpec.Position | DafxPitchShifting/dafx-ps-sola.c:241 | definition: x[i] = i*lx/lfen |
| SolaSpec.Interpolate | DafxPitchShifting/dafx-ps-sola.c:245-247 | definition: result[k]*(1 - t) + result[k+1]*t with k = floor(x) and t = x - k |
| SolaSpec.Ramp | DafxPitchShifting/dafx-ps-sola.c:254 | definition: the blend weight i/(last_L - 1) |
| SolaSpec.FramesIsCeiling | DafxPitchShifting/dafx-ps-sola.c:190 | M = ceilf(data_size/Sa) satisfies (M-1)*Sa < data_size <= M*Sa |
| SolaSpec.HopsFromRounding | DafxPitchShifting/dafx-ps-sola.c:191-192 | the rounded hops satisfy 2L-1 <= Ss <= 2L+1 |
| SolaSpec.WeightInUnitInterval | DafxPitchShifting/dafx-ps-sola.c:219 | the fade weight (j-cut)/(resLen-cut) lies in [0, 1) |
| SolaSpec.CrossfadeIsConvex | DafxPitchShifting/dafx-ps-sola.c:218-222 | a faded sample lies between the old sample and the grain sample, and the first one is the old sample |
| SolaSpec.Faded | DafxPitchShifting/dafx-ps-sola.c:216-222 | the faded prefix of tail has resLen-cut samples |
| SolaSpec.FrameOffset | DafxPitchShifting/dafx-ps-sola.c:208-212 | a frame's splice offset lies in [-L, L) |
| SolaSpec.Splice | DafxPitchShifting/dafx-ps-sola.c:226-231 | a splice keeps the length of result |
| SolaSpec.SpliceFacts | DafxPitchShifting/dafx-ps-sola.c:216-231 | a splice changes result only in [cut, cut+N): crossfaded in [cut, resLen), the grain from resLen on |
| SolaSpec.SolaStep | DafxPitchShifting/dafx-ps-sola.c:208-232 | one frame keeps the loop invariant: resLen == cut+N and cut within L of i*Ss |
| SolaSpec.SolaStepFacts | DafxPitchShifting/dafx-ps-sola.c:215-232 | one frame never moves the splice point back, fades 0..N samples, sets resLen to cut+N, and changes result only in [cut, cut+N) |
| SolaSpec.SolaStepParts | DafxPitchShifting/dafx-ps-sola.c:208-232 | proof aid for the method contracts, mostly unfolding SolaStep: one frame is the splice of the grain in[i*Sa .. i*Sa+N) at cut = i*Ss + offset, with tail holding the faded samples followed by its old contents |
| SolaSpec.HopIsProduct | DafxPitchShifting/dafx-ps-sola.c:211 | adding Ss i times gives the nominal splice position i*Ss |
| SolaSpec.HopMonotone | DafxPitchShifting/dafx-ps-sola.c:207-215 | nominal splice positions do not decrease with the frame index |
| SolaSpec.FramesDone | DafxPitchShifting/dafx-ps-sola.c:207-233 | after frames 1..j the loop invariant holds at i*Ss |
| SolaSpec.AfterFrame | DafxPitchShifting/dafx-ps-sola.c:207-233 | after frame k the loop invariant holds at k*Ss |
| SolaSpec.SolaAfter | DafxPitchShifting/dafx-ps-sola.c:207-233 | on entry to frame i the loop invariant holds at (i-1)*Ss |
| SolaSpec.FrameFits | DafxPitchShifting/dafx-ps-sola.c:163 | with at most 16 frames every grain read and every splice stays inside in[8192] and result[8192] |
| SolaSpec.SolaAfterNext | DafxPitchShifting/dafx-ps-sola.c:207-233 | the state before frame i+1 is frame i applied to the state before frame i |
| SolaSpec.CutNondecreasing | DafxPitchShifting/dafx-ps-sola.c:215 | frame i never splices before frame i-1 did |
| SolaSpec.PositionFacts | DafxPitchShifting/dafx-ps-sola.c:240-247 | the resampling position x[i] = i*lx/lfen is non-negative, its floor is (i*lx)/lfen, and floor(x[i])+1 stays at most max(lx, 1) |
| SolaSpec.ResampleIndexMonotone | DafxPitchShifting/dafx-ps-sola.c:241-246 | the integer part of x[i] does not decrease with i |
| SolaSpec.InterpolateIsConvex | DafxPitchShifting/dafx-ps-sola.c:245-247 | an interpolated sample lies between its two neighbours in result |
| SolaSpec.Resampled | DafxPitchShifting/dafx-ps-sola.c:244-248 | the resampler writes exactly lfen samples |
| SolaSpec.ResampledIsConvex | DafxPitchShifting/dafx-ps-sola.c:244-248 | each resampled sample lies between result[k] and result[k+1] for k = (i*lx)/lfen, with 0 <= k and k+1 <= max(lx, 1); those cells need not have been written by the call |
| SolaSpec.Blended | DafxPitchShifting/dafx-ps-sola.c:253-257 | the blend keeps the length of tail |
| SolaSpec.BlendEnds | DafxPitchShifting/dafx-ps-sola.c:253-257 | the blend starts exactly on the first carried sample, ends exactly on the current signal, and changes nothing outside [maxIndex, maxIndex+last_L) |
| SolaSpec.CallBounds | DafxPitchShifting/dafx-ps-sola.c:156-163 | under the call conditions the hops fit a frame, lx <= 4200, there are at most 16 frames, and every buffer access of the frame loop is in bounds |
| SolaSpec.InitialSynthesis | DafxPitchShifting/dafx-ps-sola.c:193-205 | before the first frame result holds in[0..data_size), cut is 0 and resLen is N |
| SolaSpec.Synthesised | DafxPitchShifting/dafx-ps-sola.c:205-233 | the frame loop ends with result and tail at their full sizes |
| SolaSpec.SynthesisedBounds | DafxPitchShifting/dafx-ps-sola.c:205-233 | proof aid, mostly unfolding Synthesised: the frame loop starts from InitialSynthesis and ends after max(M,1)-1 frames, within the buffers |
| SolaSpec.NextBlock | DafxPitchShifting/dafx-ps-sola.c:186-271 | a call after the first emits n_samples samples and carries L samples, both taken from the resampled tail blended with the carried tail at the maxSimIndex2 boundary: the output from the boundary on, the carry right after it (NextBlockParts, Sola.Shift) |
| SolaSpec.NextBlockParts | DafxPitchShifting/dafx-ps-sola.c:236-271 | proof aid, mostly unfolding NextBlock: the output is blended tail[maxIndex .. maxIndex+n) and the carry is blended tail[n+maxIndex .. n+maxIndex+L), where maxIndex is the maxSimIndex2 boundary and all of it lies inside tail |
| SolaSpec.OutputStartsOnCarry | DafxPitchShifting/dafx-ps-sola.c:253-270 | with at least two carried samples, the first output sample of a non-empty call is the first carried sample |
| Sola.Copy | DafxPitchShifting/dafx-ps-sola.c:56-61 | destination[0..len) becomes source[ini..ini+len), and nothing else changes; len <= 0 changes nothing |
| Sola.FadeIn | DafxPitchShifting/dafx-ps-sola.c:218-222 | tail[0..resLen-cut) becomes the crossfade of the old tail into the grain, and the rest of tail keeps its contents |
| Sola.WriteBack | DafxPitchShifting/dafx-ps-sola.c:226-231 | result becomes the splice of the grain at cut with fade length fadeLen |
| Sola.Align | DafxPitchShifting/dafx-ps-sola.c:208-212 | grain becomes in[i*Sa .. i*Sa+N), and the offset returned is FrameOffset of that grain |
| Sola.SpliceGrain | DafxPitchShifting/dafx-ps-sola.c:216-231 | tail holds the faded samples, and result is the splice of the grain at cut |
| Sola.Frame | DafxPitchShifting/dafx-ps-sola.c:208-232 | one iteration leaves result, tail, cut and resLen exactly as SolaStep describes |
| Sola.FrameAt | DafxPitchShifting/dafx-ps-sola.c:207-233 | iteration i takes the state SolaAfter(i) to SolaAfter(i+1) |
| Sola.Synthesise | DafxPitchShifting/dafx-ps-sola.c:205-233 | the TimeScaleSOLA loop leaves result and tail as Synthesised describes |
| Sola.Positions | DafxPitchShifting/dafx-ps-sola.c:240-242 | x[i] == i*lx/lfen for every i < lfen, and x past lfen is kept |
| Sola.Resample | DafxPitchShifting/dafx-ps-sola.c:244-248 | tail[0..lfen) becomes the linear interpolation of result at x[i], and the rest of tail keeps its contents |
| Sola.BlendTail | DafxPitchShifting/dafx-ps-sola.c:253-257 | tail becomes Blended: the carried samples fade out and the current signal fades in from maxIndex |
| Sola.Gather | DafxPitchShifting/dafx-ps-sola.c:195-201 | in[0..last_n+n) becomes last_input[0..last_n) followed by the current block |
| Sola.Stretch | DafxPitchShifting/dafx-ps-sola.c:188-233 | in holds the stored block, the current block, then scratch; result and tail are the stretched signal Synthesised describes |
| Sola.JoinTail | DafxPitchShifting/dafx-ps-sola.c:236-257 | tail becomes the resampled signal blended with the carried tail at the maxSimIndex2 boundary |
| Sola.Shift | DafxPitchShifting/dafx-ps-sola.c:188-257 | the buffers that a call after the first leaves determine exactly the NextBlock output and carry |
| Sola.Prime | DafxPitchShifting/dafx-ps-sola.c:170-184 | the first call stores the block, zeroes all 256 cells of last_L_out, and outputs silence |
| Sola.Emit | DafxPitchShifting/dafx-ps-sola.c:259-271 | last_input[0..n) gets the current block, last_L_out[0..L) gets tail[n+maxIndex ..), output gets tail[maxIndex .. maxIndex+n), and nothing else changes |
| Sola.PitchShifter.constructor | DafxPitchShifting/dafx-ps-sola.c:295-305 | a fresh instance is in its first call, with last_n and last_L both 0 |
| Sola.PitchShifter.Run | DafxPitchShifting/dafx-ps-sola.c:150-275 | the first call outputs silence and zeroes the carried tail; later calls output NextBlock of the stored state; both store the block, last_n = n and last_L = L |
| Overdrive.Threshold | MyOverdrive/my_od.c:100 | definition: th = 1 - knob |
| Overdrive.A | MyOverdrive/my_od.c:102 | definition: a = 2/((2+th)*th) |
| Overdrive.C | MyOverdrive/my_od.c:103 | definition: c = -1/((2+th)*th) |
| Overdrive.D | MyOverdrive/my_od.c:104 | definition: d = 4/(2+th) |
| Overdrive.E | MyOverdrive/my_od.c:105 | definition: e = (2-3*th)/(2+th) |
| Overdrive.Knee | MyOverdrive/my_od.c:121 | definition: e + d*x + c*x^2, the branch for a positive sample in [th, 2*th] |
| Overdrive.Drive | MyOverdrive/my_od.c:107-126 | definition: the value written for sample x: the sign of x beyond 2*th, a*x below th, the knee (mirrored for x < 0) between, and None where no branch assigns (x == 0 with th <= 0) |
| Overdrive.Written | MyOverdrive/my_od.c:107-126 | definition: the cell after the loop, the driven value or the old contents when nothing is assigned |
| Overdrive.Run | MyOverdrive/my_od.c:100-127 | output[pos] is the Drive curve at th = 1 - knob for pos < n_samples; cells that no branch assigns, and cells past the block, keep their contents |
| Overdrive.ClipsAboveTwiceThreshold | MyOverdrive/my_od.c:108-115 | for |x| > 2*th the output is the sign of x |
| Overdrive.LinearBelowThreshold | MyOverdrive/my_od.c:116-118 | for |x| < th the output is a*x; silence stays silent |
| Overdrive.SilenceUnwrittenWithoutThreshold | MyOverdrive/my_od.c:107-126 | for th <= 0 a zero sample matches no assigning branch |
| Overdrive.AssignedWithThreshold | MyOverdrive/my_od.c:107-126 | for th > 0 every sample is assigned |
| Overdrive.KneeAsSquare | MyOverdrive/my_od.c:102-105 | the knee e + d*x + c*x^2 equals 1 + c*(x - 2*th)^2 |
| Overdrive.VertexAtTwiceThreshold | MyOverdrive/my_od.c:103-104 | the vertex -d/(2c) of the knee lies at 2*th |
| Overdrive.ContinuousAtThreshold | MyOverdrive/my_od.c:102-121 | the line and the knee meet at th with value 2/(2+th) |
| Overdrive.ContinuousAtSaturation | MyOverdrive/my_od.c:108-121 | the knee reaches 1 at 2*th, where clipping starts |
| Overdrive.KneeBetween | MyOverdrive/my_od.c:119-122 | on [th, 2*th] the knee rises from 2/(2+th) to at most 1 |
| Overdrive.OddSymmetry | MyOverdrive/my_od.c:107-126 | the curve is odd: f(-x) == -f(x), and a sample left unassigned stays so when negated |
| Overdrive.Bounded | MyOverdrive/my_od.c:107-126 | for th > 0 every output lies in [-1, 1] |
| Overdrive2.Threshold | MyOverdrive2Params/my_od2.c:106 | definition: th = 1 - knob1 |
| Overdrive2.ClipPoint | MyOverdrive2Params/my_od2.c:110-111 | definition: th2 = th + (1 - knob2)*(1 - th) |
| Overdrive2.Denominator | MyOverdrive2Params/my_od2.c:117 | definition: th^2 - 2*(th2 - th2^2/2), the denominator of e with b = 0 |
| Overdrive2.OnPole | MyOverdrive2Params/my_od2.c:112 | definition: th2 == 1 - sqrt(1 - th^2), stated without sqrt as 1 - th^2 >= 0, 1 - th2 >= 0 and (1 - th2)^2 == 1 - th^2 |
| Overdrive2.Guarded | MyOverdrive2Params/my_od2.c:112-113 | definition: the clip point after the guard, the nudged value on the pole and th2 otherwise |
| Overdrive2.Derived | MyOverdrive2Params/my_od2.c:115-120 | definition: the relations lines 115-120 establish between a, b, c, d, e, th and th2 |
| Overdrive2.Line | MyOverdrive2Params/my_od2.c:132 | definition: a*x |
| Overdrive2.Knee | MyOverdrive2Params/my_od2.c:136 | definition: e + d*x + c*x^2 |
| Overdrive2.MirrorKnee | MyOverdrive2Params/my_od2.c:139 | definition: e - d*x + c*x^2, which the negative branch negates |
| Overdrive2.Shape | MyOverdrive2Params/my_od2.c:122-141 | definition: the value written for sample x: the sign of x beyond th2, a*x below th, the knee (negated mirror for x < 0) between, and None where no branch assigns (x == 0 with th2 < 0 or th <= 0) |
| Overdrive2.Written | MyOverdrive2Params/my_od2.c:122-141 | definition: the cell after the loop, the shaped value or the old contents when nothing is assigned |
| Overdrive2.CoefficientsOf | MyOverdrive2Params/my_od2.c:115-120 | the computed a, b, c, d, e satisfy b = 0, e*den = th^2, d*th^2 = -2e, c*th^2 = e and a = d + 2*th*c |
| Overdrive2.Apply | MyOverdrive2Params/my_od2.c:122-142 | output[pos] is the Shape curve for pos < n_samples; unassigned cells and cells past the block keep their contents |
| Overdrive2.Run | MyOverdrive2Params/my_od2.c:106-142 | th = 1 - knob1, th2 is the guarded clip point, the coefficients are CoefficientsOf(th, th2), and output is shaped as Apply states |
| Overdrive2.ClipPointBetween | MyOverdrive2Params/my_od2.c:110-111 | for th <= 1 and knob2 in [0, 1] the clip point lies in [th, 1] |
| Overdrive2.DenominatorFactors | MyOverdrive2Params/my_od2.c:117 | the denominator of e is (1-th2)^2 - (1-th^2) |
| Overdrive2.GuardRootIsPole | MyOverdrive2Params/my_od2.c:112-117 | the value the guard tests for is a root of the denominator |
| Overdrive2.PoleBelowOneIsGuarded | MyOverdrive2Params/my_od2.c:112-117 | for th2 <= 1 every root of the denominator is the value the guard tests for |
| Overdrive2.GuardAvoidsPole | MyOverdrive2Params/my_od2.c:112-117 | when the nudged value differs from th2 and neither exceeds 1, the guarded clip point is not a root of the denominator |
| Overdrive2.ContinuousAtThreshold | MyOverdrive2Params/my_od2.c:131-136 | the line and the knee meet at th |
| Overdrive2.ContinuousAtClipPoint | MyOverdrive2Params/my_od2.c:123-136 | the knee reaches exactly 1 at th2, where clipping starts |
| Overdrive2.LinearSlope | MyOverdrive2Params/my_od2.c:118-120 | the slope of the linear zone satisfies a*th^2 = 2*e*(th - 1) |
| Overdrive2.ClipsBeyondClipPoint | MyOverdrive2Params/my_od2.c:123-130 | for |x| > th2 the output is the sign of x |
| Overdrive2.Mirror | MyOverdrive2Params/my_od2.c:136-139 | the quadratic of the negative branch at -x is the positive knee at x |
| Overdrive2.OddSymmetry | MyOverdrive2Params/my_od2.c:122-141 | the curve is odd: f(-x) == -f(x), and a sample left unassigned stays so when negated |
| Fuzz.PeakAbs | DafxFuzz/dafx_fuzz.c:113-116 | definition: the value a running-max pass leaves, starting at 0 and moving to |s[pos]| only when it is strictly larger (also lines 127-130 and 141-144) |
| Fuzz.Rescale | DafxFuzz/dafx_fuzz.c:147 | definition: v*maxX/maxY |
| Fuzz.Sign | DafxFuzz/dafx_fuzz.c:47-51 | sign(n) is -1, 0 or 1, sign(n)*n == |n|, and sign(n) is 0 exactly when n is 0 |
| Fuzz.NegatedExponent | DafxFuzz/dafx_fuzz.c:124 | the exponent sign(-q)*q is -|q| |
| Fuzz.PeakIsUpperBound | DafxFuzz/dafx_fuzz.c:113-116 | the running maximum is non-negative and bounds every magnitude |
| Fuzz.PeakIsAttained | DafxFuzz/dafx_fuzz.c:113-116 | the running maximum is 0 or the magnitude of some sample |
| Fuzz.PeakZeroIffSilent | DafxFuzz/dafx_fuzz.c:113-116 | the peak is 0 exactly when every sample is 0 |
| Fuzz.PeakIsAttainedBound | DafxFuzz/dafx_fuzz.c:141-144 | a bound on every magnitude that some sample attains is the peak |
| Fuzz.Peak | DafxFuzz/dafx_fuzz.c:113-116 | the loop computes the peak PeakAbs of the block |
| Fuzz.Normalised | DafxFuzz/dafx_fuzz.c:118-121 | the normalised block has n_samples samples |
| Fuzz.Shaped | DafxFuzz/dafx_fuzz.c:123-125 | the shaped block has n_samples samples |
| Fuzz.Mixed | DafxFuzz/dafx_fuzz.c:134-138 | the mixed block has n_samples samples |
| Fuzz.Renormalised | DafxFuzz/dafx_fuzz.c:146-149 | the renormalised block has n_samples samples |
| Fuzz.Blend | DafxFuzz/dafx_fuzz.c:113-139 | the mix before renormalisation has n_samples samples |
| Fuzz.FuzzOut | DafxFuzz/dafx_fuzz.c:113-154 | the block run writes has n_samples samples |
| Fuzz.ScaleToPeak | DafxFuzz/dafx_fuzz.c:147 | scaling a magnitude at most maxY by maxX/maxY gives at most maxX, and exactly maxX when the magnitude was maxY |
| Fuzz.RenormalisedPeak | DafxFuzz/dafx_fuzz.c:141-149 | the renormalised block stays within maxX, and its peak is exactly maxX when both peaks are positive |
| Fuzz.SilenceInSilenceOut | DafxFuzz/dafx_fuzz.c:113-154 | an all-zero block gives an all-zero output |
| Fuzz.SilentOutputIffZeroPeak | DafxFuzz/dafx_fuzz.c:113-154 | the output is all zero exactly when the input peak or the mix peak is 0 |
| Fuzz.OutputBounded | DafxFuzz/dafx_fuzz.c:113-154 | no output sample exceeds the input peak in magnitude |
| Fuzz.PeakRestored | DafxFuzz/dafx_fuzz.c:141-154 | if both guards pass (input peak and mix peak positive), the output peak equals the input peak and some output sample attains it |
| Fuzz.DryMix | DafxFuzz/dafx_fuzz.c:134-135 | with mix 0 and both guards open the mix is the input itself |
| Fuzz.RenormaliseToOwnPeak | DafxFuzz/dafx_fuzz.c:146-149 | renormalising a block to its own peak leaves it unchanged |
| Fuzz.DryMixPassesThrough | DafxFuzz/dafx_fuzz.c:113-154 | with mix 0, a positive input peak and a positive peak of the shaped block, the output is the input |
| Fuzz.Normalise | DafxFuzz/dafx_fuzz.c:118-121 | q[0..n) becomes the Normalised block, and the rest of q keeps its contents |
| Fuzz.ShapeBlock | DafxFuzz/dafx_fuzz.c:123-125 | z[0..n) becomes the Shaped block of q[0..n), and the rest of z keeps its contents |
| Fuzz.MixBlock | DafxFuzz/dafx_fuzz.c:134-138 | q[0..n) becomes the Mixed block, and the rest of q keeps its contents |
| Fuzz.RenormaliseBlock | DafxFuzz/dafx_fuzz.c:146-149 | q[0..n) becomes the Renormalised block of its old contents, and the rest of q keeps its contents |
| Fuzz.CopyOut | DafxFuzz/dafx_fuzz.c:152-154 | output[0..n) becomes q[0..n), and the rest of output keeps its contents |
| Fuzz.Run | DafxFuzz/dafx_fuzz.c:104-154 | output[0..n) becomes FuzzOut of the input block, and the rest of output keeps its contents |

## Left out

- LV2 plumbing is not modelled: the descriptors, `connect_port`, `activate`, `deactivate`, `cleanup` and `extension_data`. Neither is the `stderr` message of a NULL instance. That NULL check comes after the instance is dereferenced, so it cannot help.
- Float arithmetic is modelled by reals. `round`, `floor` and `ceilf` are represented as integer parameters related to their arguments (`SolaSpec.IsRounded`, `SolaSpec.IsFloor`). `exp` in the fuzz is a parameter `exp: real -> real`, and `nextafterf` at line 113 of `my_od2.c` is the parameter `nudged`.
- Sola.PitchShifter.Run: a call after the first must have `n_samples + last_n <= 2048`, because `x` holds 2048 positions. It must also have `1 <= L` and `Ss + 2L - 1 <= N` (pitch ratios up to about 2). With `L == 0` the frame search has an empty range and returns an uninitialised index. For larger ratios cut can pass resLen. The stored `last_L` must be at most 0 or between 2 and 256. A negative `last_L` can follow a first call whose uninitialised `alpha` is negative; it is covered and behaves as 0 (`SolaSpec.CarriedLength`). `last_L == 1` is excluded because line 254 divides by zero. `last_L > 256` can follow a first call with `alpha > 4`; it is excluded because line 250 then writes past `overlap[256]` and line 256 reads past `last_L_out[256]`. Calls outside these conditions are not covered.
- Sola.PitchShifter.Run: the first call must have `n_samples <= 4096`, the size of `last_input`. The output array must not alias the instance's stored buffers. The input block is read as a value, so `input` aliasing `output` is not modelled.
- Sola.Copy: requires that source and destination are different arrays. The source's in-place overlapping copy is not modelled.
- `activate` not resetting `is_first` is not modelled, because `activate` is outside the model. A fresh instance comes only from the constructor.
- Overdrive.Run: the coefficients a, c, d, e are not computed where `th <= 0`, because for `th == 0` (knob at 1) or `th == -2` the C code divides by zero. No branch uses them for `th <= 0`: the model states the value written exactly (±1 or nothing).
- Overdrive2.Run: requires `th != 0` and a non-zero denominator of `e`. In C these cases give infinities or NaN, which reals do not model. The commented-out guards of lines 107-108 are not part of the code and are not modelled.
- Fuzz.Run: the input block is read as a value before `output` is written, which is the order of the C loops, so in-place processing gives the same result. Blocks larger than 5000 samples overflow `q` and `z` in C and are excluded by a precondition.
- The other plugins of the repository, `DafxTube/dafx_tube.c` and `DafxWah/dafx_wah.c`, are not part of this model.
