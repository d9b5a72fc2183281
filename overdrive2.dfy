/**
  The two-knob overdrive of MyOverdrive2Params/my_od2.c. The first knob sets
  the end th of the linear zone, the second the point th2 in [th, 1] where the
  curve clips; between them a quadratic joins the line to the clip level. With
  b = 0 the coefficients are rational in th and th2; their common denominator
  th^2 - 2*th2 + th2^2 vanishes at th2 = 1 - sqrt(1 - th^2), the value the
  guard of lines 112-113 moves th2 away from.
 */
module Overdrive2 {
  import opened Samples

  /** th = 1 - knob1 (line 106). */
  function Threshold(knob1: real): real
  {
    1.0 - knob1
  }

  /** th2 = th + (1 - knob2)*(1 - th) (lines 110-111). */
  function ClipPoint(th: real, knob2: real): real
  {
    th + (1.0 - knob2) * (1.0 - th)
  }

  /** The denominator of e with b = 0 (line 117):
      th^2 - 2*(th2 - th2^2/2) == th^2 - 2*th2 + th2^2. */
  function Denominator(th: real, th2: real): real
  {
    th * th - 2.0 * (th2 - th2 * th2 / 2.0)
  }

  /** th2 == 1 - sqrt(1 - th^2), the test of line 112, stated without sqrt:
      1 - th2 is the non-negative square root of 1 - th^2. When 1 - th^2 < 0
      the square root is NaN and the test fails. */
  predicate OnPole(th: real, th2: real)
  {
    1.0 - th * th >= 0.0 && 1.0 - th2 >= 0.0 && (1.0 - th2) * (1.0 - th2) == 1.0 - th * th
  }

  /** The guard of lines 112-113: on the pole th2 is replaced by nudged, the
      value nextafterf returns (the float next to th2 towards the largest
      float below 1). */
  function Guarded(th: real, th2: real, nudged: real): real
  {
    if OnPole(th, th2) then nudged else th2
  }

  /** The coefficients of lines 115-120. */
  datatype Coefficients = Coefficients(a: real, b: real, c: real, d: real, e: real)

  /** The relations lines 115-120 establish between the coefficients: b = 0,
      e*(th^2 - 2*th2 + th2^2) == th^2, d*th^2 == -2*e, c*th^2 == e (that is,
      c == -d/2) and a == d + 2*th*c. */
  predicate Derived(k: Coefficients, th: real, th2: real)
  {
    && th != 0.0
    && k.b == 0.0
    && k.e * Denominator(th, th2) == th * th
    && k.d * (th * th) == -2.0 * k.e
    && k.c * (th * th) == k.e
    && k.a == k.d + 2.0 * th * k.c
  }

  /** Lines 115-120, with b = 0. */
  function CoefficientsOf(th: real, th2: real): (k: Coefficients)
    requires th != 0.0 && Denominator(th, th2) != 0.0
    ensures Derived(k, th, th2)
  {
    var b := 0.0;
    var e := (th * th - 2.0 * b * (th2 - th2 * th2 / 2.0)) / (th * th - 2.0 * (th2 - th2 * th2 / 2.0));
    var d := 2.0 * (b - e) / (th * th);
    var c := -d / 2.0;
    var a := d + 2.0 * th * c;
    assert th * th != 0.0;
    assert e * Denominator(th, th2) == th * th;
    assert d * (th * th) == -2.0 * e;
    Coefficients(a, b, c, d, e)
  }

  /** The linear zone, a*x (line 132). */
  function Line(k: Coefficients, x: real): real
  {
    k.a * x
  }

  /** The quadratic for a positive sample, e + d*x + c*x^2 (line 136). */
  function Knee(k: Coefficients, x: real): real
  {
    k.e + k.d * x + k.c * (x * x)
  }

  /** The quadratic the negative branch negates, e - d*x + c*x^2 (line 139). */
  function MirrorKnee(k: Coefficients, x: real): real
  {
    k.e - k.d * x + k.c * (x * x)
  }

  /** The value run writes to output[pos] for the sample x (lines 122-141);
      None when no branch assigns (x == 0 with th2 < 0 or th <= 0). */
  function Shape(k: Coefficients, th: real, th2: real, x: real): Option<real>
  {
    if Abs(x) > th2 then
      if x > 0.0 then Some(1.0)
      else if x < 0.0 then Some(-1.0)
      else None
    else if Abs(x) < th then
      Some(Line(k, x))
    else if x > 0.0 then
      Some(Knee(k, x))
    else if x < 0.0 then
      Some(-1.0 * MirrorKnee(k, x))
    else
      None
  }

  /** The cell after the loop: the shaped value, or the old contents when the
      sample is not assigned. */
  function Written(o: Option<real>, previous: real): real
  {
    match o
    case Some(v) => v
    case None => previous
  }

  /** The loop of lines 122-141: output[pos] is shaped for pos < |input|
      with the coefficients k and the bounds th, th2. */
  method Apply(input: seq<real>, output: array<real>, k: Coefficients, th: real, th2: real)
    requires |input| <= output.Length
    modifies output
    ensures forall pos :: 0 <= pos < |input| ==> output[pos] == Written(Shape(k, th, th2, input[pos]), old(output[pos]))
    ensures output[|input|..] == old(output[|input|..])
  {
    var pos := 0;
    while pos < |input|
      invariant 0 <= pos <= |input|
      invariant forall j :: 0 <= j < pos ==> output[j] == Written(Shape(k, th, th2, input[j]), old(output[j]))
      invariant forall j :: pos <= j < output.Length ==> output[j] == old(output[j])
    {
      var x := input[pos];
      if Abs(x) > th2 {
        if x > 0.0 {
          output[pos] := 1.0;
        }
        if x < 0.0 {
          output[pos] := -1.0;
        }
      } else if Abs(x) < th {
        output[pos] := k.a * x;
      } else {
        if x > 0.0 {
          output[pos] := k.e + (k.d * x) + (k.c * (x * x));
        }
        if x < 0.0 {
          output[pos] := -1.0 * (k.e - (k.d * x) + (k.c * (x * x)));
        }
      }
      pos := pos + 1;
    }
    assert output[|input|..] == old(output[|input|..]);
  }

  /** run (lines 106-142). nudged is what nextafterf returns at line 113.
      The coefficients divide by th^2 and by the denominator, so both must be
      non-zero. */
  method Run(input: seq<real>, output: array<real>, knob1: real, knob2: real, nudged: real)
      returns (k: Coefficients, th: real, th2: real)
    requires |input| <= output.Length
    requires Threshold(knob1) != 0.0
    requires Denominator(Threshold(knob1), Guarded(Threshold(knob1), ClipPoint(Threshold(knob1), knob2), nudged)) != 0.0
    modifies output
    ensures th == Threshold(knob1) && th2 == Guarded(th, ClipPoint(th, knob2), nudged)
    ensures k == CoefficientsOf(th, th2)
    ensures forall pos :: 0 <= pos < |input| ==> output[pos] == Written(Shape(k, th, th2, input[pos]), old(output[pos]))
    ensures output[|input|..] == old(output[|input|..])
  {
    th := Threshold(knob1);
    var percentage := 1.0 - knob2;
    th2 := th + percentage * (1.0 - th);
    if OnPole(th, th2) {
      th2 := nudged;
    }
    k := CoefficientsOf(th, th2);
    Apply(input, output, k, th, th2);
  }

  // ---------------------------------------------------------------------------
  // The derivation of th2 and the coefficients

  /** With th <= 1 and knob2 in [0, 1], th2 lies in [th, 1]. */
  lemma ClipPointBetween(th: real, knob2: real)
    requires th <= 1.0 && 0.0 <= knob2 <= 1.0
    ensures th <= ClipPoint(th, knob2) <= 1.0
  {
    var p := 1.0 - knob2;
    assert 0.0 <= p * (1.0 - th) <= 1.0 - th by {
      assert p * (1.0 - th) + knob2 * (1.0 - th) == 1.0 - th;
      assert knob2 * (1.0 - th) >= 0.0;
    }
  }

  /** The denominator is (1 - th2)^2 - (1 - th^2). */
  lemma DenominatorFactors(th: real, th2: real)
    ensures Denominator(th, th2) == (1.0 - th2) * (1.0 - th2) - (1.0 - th * th)
  {
  }

  /** The value the guard tests for is a root of the denominator. */
  lemma GuardRootIsPole(th: real, th2: real)
    requires OnPole(th, th2)
    ensures Denominator(th, th2) == 0.0
  {
    DenominatorFactors(th, th2);
  }

  /** Up to 1, the value the guard tests for is the only root of the
      denominator. */
  lemma PoleBelowOneIsGuarded(th: real, th2: real)
    requires th2 <= 1.0 && Denominator(th, th2) == 0.0
    ensures OnPole(th, th2)
  {
    DenominatorFactors(th, th2);
  }

  /** Squaring is strictly monotone on the non-negative reals. */
  lemma SquaresDiffer(u: real, v: real)
    requires 0.0 <= v < u
    ensures v * v < u * u
  {
    calc {
      v * v;
    <=  v * u;
    <   u * u;
    }
  }

  /** Over the reals the guard removes the pole: when th2 and the nudged value
      are at most 1 and the nudge moves th2, the denominator after the guard is
      non-zero. */
  lemma GuardAvoidsPole(th: real, th2: real, nudged: real)
    requires th2 <= 1.0 && nudged <= 1.0 && nudged != th2
    ensures Denominator(th, Guarded(th, th2, nudged)) != 0.0
  {
    DenominatorFactors(th, th2);
    DenominatorFactors(th, nudged);
    if OnPole(th, th2) {
      if nudged < th2 {
        SquaresDiffer(1.0 - nudged, 1.0 - th2);
      } else {
        SquaresDiffer(1.0 - th2, 1.0 - nudged);
      }
    } else if 1.0 - th * th >= 0.0 {
      assert (1.0 - th2) * (1.0 - th2) != 1.0 - th * th;
    }
  }

  // ---------------------------------------------------------------------------
  // The shape of the curve

  /** Continuity where the line meets the quadratic: a*th == e + d*th + c*th^2. */
  lemma ContinuousAtThreshold(k: Coefficients, th: real, th2: real)
    requires Derived(k, th, th2)
    ensures Line(k, th) == Knee(k, th)
  {
    assert k.a * th == k.d * th + 2.0 * (k.c * (th * th));
  }

  /** A product of two positive reals is positive. */
  lemma ProductPositive(u: real, v: real, q: real)
    requires u > 0.0 && v > 0.0 && q == u * v
    ensures q > 0.0
  {
  }

  /** The square of a non-zero real is positive. */
  lemma SquarePositive(x: real, q: real)
    requires x != 0.0 && q == x * x
    ensures q > 0.0
  {
    if x > 0.0 {
      ProductPositive(x, x, q);
    } else {
      ProductPositive(-x, -x, q);
    }
  }

  /** A factor that leaves a positive q unchanged is 1. */
  lemma CancelPositive(v: real, q: real)
    requires q > 0.0 && v * q - q == 0.0
    ensures v == 1.0
  {
  }

  /** A factor that leaves th^2 unchanged, for th != 0, is 1. */
  lemma CancelSquare(v: real, th: real)
    requires th != 0.0 && v * (th * th) - th * th == 0.0
    ensures v == 1.0
  {
    var q := th * th;
    SquarePositive(th, q);
    assert v * q - q == 0.0;
    CancelPositive(v, q);
  }

  /** Continuity where the quadratic meets the clip: e + d*th2 + c*th2^2 == 1. */
  lemma ContinuousAtClipPoint(k: Coefficients, th: real, th2: real)
    requires Derived(k, th, th2)
    ensures Knee(k, th2) == 1.0
  {
    assert Knee(k, th2) * (th * th)
      == k.e * (th * th) + (k.d * (th * th)) * th2 + (k.c * (th * th)) * (th2 * th2);
    assert Knee(k, th2) * (th * th) - k.e * Denominator(th, th2) == 0.0;
    assert Knee(k, th2) * (th * th) - th * th == 0.0;
    CancelSquare(Knee(k, th2), th);
  }

  /** The slope of the linear zone: a*th^2 == 2*e*(th - 1). */
  lemma LinearSlope(k: Coefficients, th: real, th2: real)
    requires Derived(k, th, th2)
    ensures k.a * (th * th) == 2.0 * k.e * (th - 1.0)
  {
    assert k.a * (th * th) == k.d * (th * th) + 2.0 * th * (k.c * (th * th));
  }

  /** Beyond th2 the output clips to the sign of the sample. */
  lemma ClipsBeyondClipPoint(k: Coefficients, th: real, th2: real, x: real)
    requires Abs(x) > th2 && x != 0.0
    ensures Shape(k, th, th2, x) == Some(if x > 0.0 then 1.0 else -1.0)
  {
  }

  /** The quadratic of the negative branch at -x is the one of the positive
      branch at x. */
  lemma Mirror(k: Coefficients, x: real)
    ensures MirrorKnee(k, -x) == Knee(k, x)
  {
    assert (-x) * (-x) == x * x;
  }

  /** The negative-sample branches mirror the positive ones: f(-x) == -f(x). */
  lemma OddSymmetry(k: Coefficients, th: real, th2: real, x: real)
    ensures Shape(k, th, th2, -x) == match Shape(k, th, th2, x) case Some(v) => Some(-v) case None => None
  {
    assert Abs(-x) == Abs(x);
    if Abs(x) > th2 {
    } else if Abs(x) < th {
      assert Line(k, -x) == -Line(k, x);
    } else if x > 0.0 {
      Mirror(k, x);
    } else if x < 0.0 {
      Mirror(k, -x);
    }
  }
}
