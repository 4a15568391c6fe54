/** Sums and means over sequences of readings, shared by the histories and the temperature average. */
module Stats {
  import opened Rounding

  /** The sum, accumulated oldest to newest as `Enumerable.Average` does. */
  function Sum(s: seq<real>): real
    decreases |s|
  {
    if |s| == 0 then 0.0 else Sum(s[..|s| - 1]) + s[|s| - 1]
  }

  /** All samples lie in [lo, hi]. */
  ghost predicate AllWithin(s: seq<real>, lo: real, hi: real)
  {
    forall i :: 0 <= i < |s| ==> lo <= s[i] <= hi
  }

  lemma {:induction false} SumWithin(s: seq<real>, lo: real, hi: real)
    requires AllWithin(s, lo, hi)
    ensures lo * |s| as real <= Sum(s) <= hi * |s| as real
    decreases |s|
  {
    if |s| > 0 {
      var init := s[..|s| - 1];
      var n := |init| as real;
      assert AllWithin(init, lo, hi) by {
        forall i | 0 <= i < |init| ensures lo <= init[i] <= hi {
          assert init[i] == s[i];
        }
      }
      SumWithin(init, lo, hi);
      assert Sum(s) == Sum(init) + s[|s| - 1];
      assert lo * |s| as real == lo * n + lo;
      assert hi * |s| as real == hi * n + hi;
    }
  }

  /** The arithmetic mean of a non-empty sequence. */
  function Mean(s: seq<real>): real
    requires |s| > 0
  {
    Sum(s) / |s| as real
  }

  lemma DivideWithin(sum: real, n: real, lo: real, hi: real)
    requires n > 0.0 && lo * n <= sum <= hi * n
    ensures lo <= sum / n <= hi
  {
  }

  /** The mean lies between the smallest and the largest bound of the samples. */
  lemma MeanWithin(s: seq<real>, lo: real, hi: real)
    requires |s| > 0 && AllWithin(s, lo, hi)
    ensures lo <= Mean(s) <= hi
  {
    SumWithin(s, lo, hi);
    DivideWithin(Sum(s), |s| as real, lo, hi);
  }

  /** `Math.Round(mean, 1)` lies between the rounded bounds. */
  lemma RoundedMeanWithin(s: seq<real>, lo: real, hi: real)
    requires |s| > 0 && AllWithin(s, lo, hi)
    ensures Round1(lo) <= Round1(Mean(s)) <= Round1(hi)
  {
    MeanWithin(s, lo, hi);
    Round1Within(Mean(s), lo, hi);
  }
}
