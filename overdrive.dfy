/**
  The one-knob overdrive of MyOverdrive/my_od.c. With threshold th = 1 - knob,
  run shapes every sample with a curve that is linear below th, quadratic
  between th and 2*th and clips to +-1 above 2*th. The coefficients are
  rational functions of th; the curve is continuous, odd and bounded by 1.
 */
module Overdrive {
  import opened Samples

  /** The knob is read as th = 1 - knob (line 100). */
  function Threshold(knob: real): real
  {
    1.0 - knob
  }

  /** a = 2/((2+th)*th), the slope of the linear zone (line 102). */
  function A(th: real): real
    requires (2.0 + th) * th != 0.0
  {
    2.0 / ((2.0 + th) * th)
  }

  /** c = -1/((2+th)*th), the quadratic coefficient (line 103). */
  function C(th: real): real
    requires (2.0 + th) * th != 0.0
  {
    -1.0 / ((2.0 + th) * th)
  }

  /** d = 4/(2+th), the linear coefficient of the quadratic (line 104). */
  function D(th: real): real
    requires 2.0 + th != 0.0
  {
    4.0 / (2.0 + th)
  }

  /** e = (2-3*th)/(2+th), the constant of the quadratic (line 105). */
  function E(th: real): real
    requires 2.0 + th != 0.0
  {
    (2.0 - 3.0 * th) / (2.0 + th)
  }

  /** The quadratic branch for a positive sample, e + d*x + c*x^2 (line 121). */
  function Knee(th: real, x: real): real
    requires th > 0.0
  {
    E(th) + D(th) * x + C(th) * (x * x)
  }

  /** The value run writes to output[pos] for the sample x (lines 107-126);
      None when no branch assigns, which happens only for x == 0 with th <= 0.
      The coefficients are only used where th > 0 holds. */
  function Drive(th: real, x: real): Option<real>
  {
    if Abs(x) > 2.0 * th then
      if x > 0.0 then Some(1.0)
      else if x < 0.0 then Some(-1.0)
      else None
    else if Abs(x) < th then
      Some(A(th) * x)
    else if x > 0.0 then
      Some(Knee(th, x))
    else if x < 0.0 then
      Some(-1.0 * (E(th) - D(th) * x + C(th) * (x * x)))
    else
      None
  }

  /** The cell after the loop: the driven value, or the old contents when the
      sample is not assigned. */
  function Written(o: Option<real>, previous: real): real
  {
    match o
    case Some(v) => v
    case None => previous
  }

  /** run (lines 100-127): output[pos] is driven for pos < |input|. */
  method Run(input: seq<real>, output: array<real>, knob: real)
    requires |input| <= output.Length
    modifies output
    ensures forall pos :: 0 <= pos < |input| ==>
      output[pos] == Written(Drive(Threshold(knob), input[pos]), old(output[pos]))
    ensures output[|input|..] == old(output[|input|..])
  {
    var th := Threshold(knob);
    var pos := 0;
    while pos < |input|
      invariant 0 <= pos <= |input|
      invariant forall k :: 0 <= k < pos ==> output[k] == Written(Drive(th, input[k]), old(output[k]))
      invariant forall k :: pos <= k < output.Length ==> output[k] == old(output[k])
    {
      var x := input[pos];
      if Abs(x) > 2.0 * th {
        if x > 0.0 {
          output[pos] := 1.0;
        }
        if x < 0.0 {
          output[pos] := -1.0;
        }
      } else if Abs(x) < th {
        output[pos] := A(th) * x;
      } else {
        if x > 0.0 {
          output[pos] := E(th) + (D(th) * x) + (C(th) * (x * x));
        }
        if x < 0.0 {
          output[pos] := -1.0 * (E(th) - (D(th) * x) + (C(th) * (x * x)));
        }
      }
      pos := pos + 1;
    }
    assert output[|input|..] == old(output[|input|..]);
  }

  // ---------------------------------------------------------------------------
  // The shape of the curve

  /** Beyond 2*th the output clips to the sign of the sample. */
  lemma ClipsAboveTwiceThreshold(th: real, x: real)
    requires Abs(x) > 2.0 * th && x != 0.0
    ensures Drive(th, x) == Some(if x > 0.0 then 1.0 else -1.0)
  {
  }

  /** Below th the curve is the line a*x; in particular silence stays silent. */
  lemma LinearBelowThreshold(th: real, x: real)
    requires Abs(x) < th
    ensures th > 0.0 && Drive(th, x) == Some(A(th) * x)
    ensures x == 0.0 ==> Drive(th, x) == Some(0.0)
  {
  }

  /** For th <= 0 a silent sample matches no assigning branch: output[pos]
      keeps what it held. */
  lemma SilenceUnwrittenWithoutThreshold(th: real)
    requires th <= 0.0
    ensures Drive(th, 0.0) == None
  {
  }

  /** For th > 0 every sample is assigned. */
  lemma AssignedWithThreshold(th: real, x: real)
    requires th > 0.0
    ensures Drive(th, x).Some?
  {
  }

  /** The quadratic completes to a square with apex 1 at 2*th:
      e + d*x + c*x^2 == 1 + c*(x - 2*th)^2. */
  lemma KneeAsSquare(th: real, x: real)
    requires th > 0.0
    ensures Knee(th, x) == 1.0 + C(th) * ((x - 2.0 * th) * (x - 2.0 * th))
  {
    var k := (2.0 + th) * th;
    assert k > 0.0;
    var u := 2.0 + th;
    assert D(th) == 4.0 * th / k by {
      assert 4.0 * th / k == 4.0 * th / (u * th);
    }
    assert E(th) == 1.0 - 4.0 * th * th / k by {
      assert E(th) * u == 2.0 - 3.0 * th;
      assert (1.0 - 4.0 * th * th / k) * u == u - 4.0 * th * th * u / k;
      assert 4.0 * th * th * u / k == 4.0 * th;
    }
    assert C(th) * ((x - 2.0 * th) * (x - 2.0 * th))
      == -(x * x) / k + 4.0 * th * x / k - 4.0 * th * th / k;
  }

  /** The vertex -d/(2c) of the quadratic lies at 2*th. */
  lemma VertexAtTwiceThreshold(th: real)
    requires th > 0.0
    ensures -D(th) / (2.0 * C(th)) == 2.0 * th
  {
    var k := (2.0 + th) * th;
    assert C(th) * k == -1.0;
    assert D(th) * (2.0 + th) == 4.0;
    assert 2.0 * th * (2.0 * C(th)) == -4.0 / (2.0 + th) by {
      assert 2.0 * th * (2.0 * C(th)) * k == -4.0 * th;
    }
  }

  /** Continuity where the line meets the quadratic:
      a*th == e + d*th + c*th^2 == 2/(2+th). */
  lemma ContinuousAtThreshold(th: real)
    requires th > 0.0
    ensures A(th) * th == 2.0 / (2.0 + th)
    ensures Knee(th, th) == 2.0 / (2.0 + th)
  {
    var k := (2.0 + th) * th;
    assert A(th) * k == 2.0;
    assert A(th) * th * (2.0 + th) == 2.0;
    KneeAsSquare(th, th);
    assert C(th) * (th * th) * (2.0 + th) == -th by {
      assert C(th) * k == -1.0;
    }
  }

  /** Continuity where the quadratic meets the clip: e + d*2th + c*(2th)^2 == 1. */
  lemma ContinuousAtSaturation(th: real)
    requires th > 0.0
    ensures Knee(th, 2.0 * th) == 1.0
  {
    KneeAsSquare(th, 2.0 * th);
  }

  /** On the knee the output rises from 2/(2+th) to 1. */
  lemma KneeBetween(th: real, x: real)
    requires th > 0.0 && th <= x <= 2.0 * th
    ensures 2.0 / (2.0 + th) <= Knee(th, x) <= 1.0
  {
    KneeAsSquare(th, x);
    KneeAsSquare(th, th);
    ContinuousAtThreshold(th);
    var k := (2.0 + th) * th;
    assert C(th) * k == -1.0;
    assert C(th) < 0.0;
    var s := (x - 2.0 * th) * (x - 2.0 * th);
    assert 0.0 <= s <= th * th by {
      assert 0.0 <= 2.0 * th - x <= th;
    }
    assert C(th) * s >= C(th) * (th * th) by {
      assert C(th) * (th * th - s) <= 0.0;
    }
  }

  /** The negative-sample branches mirror the positive ones: f(-x) == -f(x). */
  lemma OddSymmetry(th: real, x: real)
    ensures Drive(th, -x) == match Drive(th, x) case Some(v) => Some(-v) case None => None
  {
    if x != 0.0 && Abs(x) <= 2.0 * th && Abs(x) >= th {
      assert (-x) * (-x) == x * x;
      if x > 0.0 {
        assert D(th) * (-x) == -(D(th) * x);
        var v := Knee(th, x);
        assert Drive(th, x) == Some(v);
        assert Abs(-x) == x;
        assert E(th) - D(th) * (-x) + C(th) * ((-x) * (-x)) == v;
        assert Drive(th, -x) == Some(-1.0 * v);
      } else {
        var v := Knee(th, -x);
        assert Drive(th, -x) == Some(v);
        assert Abs(x) == -x;
        assert D(th) * (-x) == -(D(th) * x);
        assert E(th) - D(th) * x + C(th) * (x * x) == v;
        assert Drive(th, x) == Some(-1.0 * v);
      }
    } else if Abs(x) < th {
      assert A(th) * (-x) == -(A(th) * x);
    }
  }

  /** With th > 0 every output lies in [-1, 1]. */
  lemma Bounded(th: real, x: real)
    requires th > 0.0
    ensures Drive(th, x).Some? && -1.0 <= Drive(th, x).value <= 1.0
  {
    var k := (2.0 + th) * th;
    if Abs(x) > 2.0 * th {
    } else if Abs(x) < th {
      var a := A(th);
      assert a * k == 2.0;
      assert a > 0.0;
      ContinuousAtThreshold(th);
      assert 2.0 / (2.0 + th) < 1.0;
      if x >= 0.0 {
        assert a * (th - x) >= 0.0 by {
          assert th - x >= 0.0;
        }
        assert a * x >= 0.0;
      } else {
        assert a * (th + x) >= 0.0 by {
          assert th + x >= 0.0;
        }
        assert a * x <= 0.0;
      }
    } else if x > 0.0 {
      KneeBetween(th, x);
    } else {
      OddSymmetry(th, -x);
      KneeBetween(th, -x);
      assert x < 0.0;
    }
  }
}
