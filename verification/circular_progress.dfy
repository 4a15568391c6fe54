/**
 * The round gauge: a new value is clamped to [0, Maximum] before it is animated
 * towards, and each drawn frame is a background ring plus, for a positive sweep,
 * a clockwise arc starting at the top.
 */
module CircularProgress {
  /** `Math.Max(0, Math.Min(maximum, v))`: the value the gauge animates towards. */
  function Target(maximum: real, v: real): (t: real)
    ensures maximum >= 0.0 ==> 0.0 <= t <= maximum
    ensures maximum < 0.0 ==> t == 0.0
    ensures t == v || t == 0.0 || t == maximum
  {
    var m := if v < maximum then v else maximum;
    if m > 0.0 then m else 0.0
  }

  /** Values already on the scale pass through unchanged. */
  lemma TargetOnScale(maximum: real, v: real)
    requires 0.0 <= v <= maximum
    ensures Target(maximum, v) == v
  {
  }

  /** Values off the scale stick to the nearer end. */
  lemma TargetOffScale(maximum: real, v: real)
    requires maximum >= 0.0
    ensures v < 0.0 ==> Target(maximum, v) == 0.0
    ensures v > maximum ==> Target(maximum, v) == maximum
  {
  }

  lemma TargetIdempotent(maximum: real, v: real)
    ensures Target(maximum, Target(maximum, v)) == Target(maximum, v)
  {
  }

  /** Clamping never reverses the order of two values. */
  lemma TargetMonotone(maximum: real, v: real, w: real)
    requires v <= w
    ensures Target(maximum, v) <= Target(maximum, w)
  {
  }

  /** `Math.Max(1, Maximum)`: the scale's length as the angle computation sees it. */
  function Scale(maximum: real): (d: real)
    ensures d >= 1.0 && d >= maximum
    ensures maximum >= 1.0 ==> d == maximum
  {
    if maximum > 1.0 then maximum else 1.0
  }

  /** `360 * (value / Math.Max(1, Maximum))`: the arc's sweep in degrees. */
  function SweepAngle(value: real, maximum: real): (angle: real)
    ensures angle > 0.0 <==> value > 0.0
    ensures 0.0 <= value <= maximum ==> angle <= 360.0
  {
    FractionBounds(value, maximum);
    360.0 * (value / Scale(maximum))
  }

  lemma FractionBounds(value: real, maximum: real)
    ensures value / Scale(maximum) > 0.0 <==> value > 0.0
    ensures value <= maximum ==> value / Scale(maximum) <= 1.0
  {
    var d := Scale(maximum);
    if value <= maximum {
      assert value <= d;
      assert value / d <= d / d;
    }
  }

  /** One shape on the gauge's canvas. */
  datatype Shape = Ring | Arc(startAngle: real, endAngle: real, largeArc: bool)

  /** The top of the circle, where every arc starts. */
  const Top: real := -90.0

  /** `DrawArc`: the shapes drawn for a value, in drawing order. */
  function Draw(value: real, maximum: real): (shapes: seq<Shape>)
    ensures |shapes| >= 1 && shapes[0] == Ring
    ensures |shapes| == 2 <==> SweepAngle(value, maximum) > 0.0
    ensures |shapes| <= 2
    ensures |shapes| == 2 ==>
              && shapes[1].Arc? && shapes[1].startAngle == Top
              && shapes[1].endAngle - shapes[1].startAngle == SweepAngle(value, maximum)
              && (shapes[1].largeArc <==> SweepAngle(value, maximum) > 180.0)
  {
    var angle := SweepAngle(value, maximum);
    if angle <= 0.0 then [Ring] else [Ring, Arc(Top, Top + angle, angle > 180.0)]
  }

  /** Whatever value is set, the arc eventually drawn for it stays within one full turn. */
  lemma TargetSweepWithinTurn(maximum: real, v: real)
    ensures 0.0 <= SweepAngle(Target(maximum, v), maximum) <= 360.0
  {
    var t := Target(maximum, v);
    if maximum < 0.0 {
      assert t == 0.0;
    }
  }

  /** On a scale of at least 1, the long way round is taken exactly when the value passes the half-way mark. */
  lemma LargeArcPastHalf(value: real, maximum: real)
    requires maximum >= 1.0
    ensures SweepAngle(value, maximum) > 180.0 <==> 2.0 * value > maximum
  {
    var f := value / maximum;
    assert value == f * maximum;
    if 2.0 * value > maximum {
      assert 2.0 * f * maximum > maximum;
      assert f > 0.5;
    } else {
      assert 2.0 * f * maximum <= maximum;
      assert f <= 0.5;
    }
  }

  /** A zero reading draws only the ring; a full reading draws a full-turn arc the long way round. */
  lemma DrawExamples()
    ensures Draw(0.0, 100.0) == [Ring]
    ensures Draw(100.0, 100.0) == [Ring, Arc(-90.0, 270.0, true)]
    ensures Draw(25.0, 100.0) == [Ring, Arc(-90.0, 0.0, false)]
  {
  }
}
