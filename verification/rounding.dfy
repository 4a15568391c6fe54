/**
 * `Math.Round(x, 0)` and `Math.Round(x, 1)` with .NET's default midpoint rule
 * (ties go to the even neighbour), stated over exact reals. Double-precision
 * representation error is outside the model.
 */
module Rounding {
  import opened Wrappers

  /** The nearest integer; an exact tie goes to the even one. */
  function RoundHalfEven(x: real): (n: int)
    ensures x - 0.5 <= n as real <= x + 0.5
    ensures (n as real - x == 0.5 || x - n as real == 0.5) ==> n % 2 == 0
  {
    var f := x.Floor;
    var d := x - f as real;
    if d < 0.5 then f
    else if d > 0.5 then f + 1
    else if f % 2 == 0 then f
    else f + 1
  }

  /** `Math.Round(x)`. */
  function Round0(x: real): real
  {
    RoundHalfEven(x) as real
  }

  /** `Math.Round(x, 1)`. */
  function Round1(x: real): real
  {
    RoundHalfEven(x * 10.0) as real / 10.0
  }

  /** `v == null ? null : Math.Round(v, 1)`. */
  function Round1Opt(v: Option<real>): (r: Option<real>)
    ensures r.Some? <==> v.Some?
  {
    match v
    case Some(x) => Some(Round1(x))
    case None => None
  }

  lemma RoundHalfEvenOfInt(k: int)
    ensures RoundHalfEven(k as real) == k
  {
  }

  lemma RoundHalfEvenMonotone(x: real, y: real)
    requires x <= y
    ensures RoundHalfEven(x) <= RoundHalfEven(y)
  {
    var fx, fy := x.Floor, y.Floor;
    assert fx <= fy;
    if fx == fy {
      assert x - fx as real <= y - fy as real;
    }
  }

  /** Rounding to one decimal moves a value by at most 0.05. */
  lemma Round1Near(x: real)
    ensures x - 0.05 <= Round1(x) <= x + 0.05
  {
  }

  /** A value that already has one decimal is left alone. */
  lemma Round1OfTenths(k: int)
    ensures Round1(k as real / 10.0) == k as real / 10.0
  {
    assert k as real / 10.0 * 10.0 == k as real;
    RoundHalfEvenOfInt(k);
  }

  lemma Round1OfInt(k: int)
    ensures Round1(k as real) == k as real
  {
    Round1OfTenths(10 * k);
    assert (10 * k) as real / 10.0 == k as real;
  }

  lemma Round1Idempotent(x: real)
    ensures Round1(Round1(x)) == Round1(x)
  {
    Round1OfTenths(RoundHalfEven(x * 10.0));
  }

  lemma Round1Monotone(x: real, y: real)
    requires x <= y
    ensures Round1(x) <= Round1(y)
  {
    RoundHalfEvenMonotone(x * 10.0, y * 10.0);
  }

  lemma Round0Monotone(x: real, y: real)
    requires x <= y
    ensures Round0(x) <= Round0(y)
  {
    RoundHalfEvenMonotone(x, y);
  }

  lemma Round0OfInt(k: int)
    ensures Round0(k as real) == k as real
  {
    RoundHalfEvenOfInt(k);
  }

  /** A value inside [lo, hi] rounds into [Round1(lo), Round1(hi)]. */
  lemma Round1Within(x: real, lo: real, hi: real)
    requires lo <= x <= hi
    ensures Round1(lo) <= Round1(x) <= Round1(hi)
  {
    Round1Monotone(lo, x);
    Round1Monotone(x, hi);
  }

  /** In particular a percentage stays a percentage. */
  lemma Round1Percent(x: real)
    requires 0.0 <= x <= 100.0
    ensures 0.0 <= Round1(x) <= 100.0
  {
    Round1Within(x, 0.0, 100.0);
    Round1OfInt(0);
    Round1OfInt(100);
  }
}
