/** The bounded rolling histories of the main window: `Push` and the moving average. */
module History {
  import opened Rounding
  import opened Stats

  /** Samples kept per metric. */
  const Capacity: nat := 30

  /** `while (q.Count > max) q.Dequeue()`: drop from the front until at most `max` remain. */
  function Trim(q: seq<real>, max: nat): (r: seq<real>)
    ensures |r| == if |q| <= max then |q| else max
    decreases |q|
  {
    if |q| > max then Trim(q[1..], max) else q
  }

  /** Trimming keeps the newest entries, in order. */
  lemma {:induction false} TrimKeepsNewest(q: seq<real>, max: nat)
    ensures Trim(q, max) == q[|q| - |Trim(q, max)|..]
    decreases |q|
  {
    if |q| > max {
      TrimKeepsNewest(q[1..], max);
      assert q[1..][|q| - 1 - max..] == q[|q| - max..];
    }
  }

  /** `Push`: enqueue `v`, then trim to `max`. */
  function Push(q: seq<real>, v: real, max: nat): (r: seq<real>)
    ensures |r| <= max
    ensures |r| == if |q| + 1 <= max then |q| + 1 else max
  {
    Trim(q + [v], max)
  }

  /** The buffer after a push is the newest part of the old buffer followed by the new sample. */
  lemma PushKeepsNewest(q: seq<real>, v: real, max: nat)
    ensures Push(q, v, max) == (q + [v])[|q| + 1 - |Push(q, v, max)|..]
    ensures max > 0 ==> Push(q, v, max)[|Push(q, v, max)| - 1] == v
  {
    TrimKeepsNewest(q + [v], max);
  }

  /** Pushing onto a buffer that is not yet full keeps every earlier sample in order. */
  lemma PushWhileFilling(q: seq<real>, v: real, max: nat)
    requires |q| < max
    ensures Push(q, v, max) == q + [v]
  {
    PushKeepsNewest(q, v, max);
  }

  /** Pushing onto a full buffer drops exactly the oldest sample. */
  lemma PushWhenFull(q: seq<real>, v: real, max: nat)
    requires |q| == max > 0
    ensures Push(q, v, max) == q[1..] + [v]
  {
    PushKeepsNewest(q, v, max);
    assert (q + [v])[1..] == q[1..] + [v];
  }

  /** The newest `n` entries of `q` (all of them when there are fewer). */
  function Recent(q: seq<real>, n: nat): seq<real>
  {
    if |q| <= n then q else q[|q| - n..]
  }

  /** Pushing onto the recent window of a series gives the recent window of the extended series. */
  lemma PushRecent(q: seq<real>, v: real, n: nat)
    ensures Push(Recent(q, n), v, n) == Recent(q + [v], n)
  {
    if |q| < n {
      PushWhileFilling(q, v, n);
    } else if n == 0 {
      assert Recent(q + [v], n) == [];
    } else {
      var w := q[|q| - n..];
      assert Recent(q, n) == w;
      PushWhenFull(w, v, n);
      assert Recent(q + [v], n) == (q + [v])[|q| + 1 - n..];
      assert (q + [v])[|q| + 1 - n..] == w[1..] + [v];
    }
  }

  /** Pushing a value in [lo, hi] onto samples in [lo, hi] keeps every sample in [lo, hi]. */
  lemma PushWithin(q: seq<real>, v: real, max: nat, lo: real, hi: real)
    requires AllWithin(q, lo, hi) && lo <= v <= hi
    ensures AllWithin(Push(q, v, max), lo, hi)
  {
    var r := Push(q, v, max);
    PushKeepsNewest(q, v, max);
    forall i | 0 <= i < |r|
      ensures lo <= r[i] <= hi
    {
      assert r[i] == (q + [v])[|q| + 1 - |r| + i];
    }
  }

  /** `history.Count > 0 ? Math.Round(history.Average(), 1) : 0`. */
  function Average(h: seq<real>): (r: real)
    ensures |h| == 0 ==> r == 0.0
    ensures |h| > 0 ==> r == Round1(Sum(h) / |h| as real)
  {
    if |h| > 0 then Round1(Mean(h)) else 0.0
  }

  /** A non-empty history whose samples lie in [lo, hi] averages between the rounded bounds. */
  lemma AverageWithin(h: seq<real>, lo: real, hi: real)
    requires |h| > 0 && AllWithin(h, lo, hi)
    ensures Round1(lo) <= Average(h) <= Round1(hi)
  {
    RoundedMeanWithin(h, lo, hi);
  }

  /** A non-empty history of equal samples averages to that sample, rounded. */
  lemma AverageConstant(h: seq<real>, v: real)
    requires |h| > 0 && AllWithin(h, v, v)
    ensures Average(h) == Round1(v)
  {
    AverageWithin(h, v, v);
  }

  /** Percentages average to a percentage. */
  lemma AverageOfPercentages(h: seq<real>)
    requires AllWithin(h, 0.0, 100.0)
    ensures 0.0 <= Average(h) <= 100.0
  {
    if |h| > 0 {
      AverageWithin(h, 0.0, 100.0);
      Round1OfInt(0);
      Round1OfInt(100);
    }
  }

  /** The average of [10, 20, 30] is 20. */
  lemma AverageExample()
    ensures Average([10.0, 20.0, 30.0]) == 20.0
  {
    assert Sum([10.0, 20.0, 30.0]) == 60.0 by {
      assert [10.0, 20.0, 30.0][..2] == [10.0, 20.0];
      assert [10.0, 20.0][..1] == [10.0];
      assert [10.0][..0] == [];
    }
    Round1OfInt(20);
  }

  /** Pushing 10, 20, 30 into a buffer of capacity 2 keeps [20, 30], which average 25. */
  lemma PushExample()
    ensures Push(Push(Push([], 10.0, 2), 20.0, 2), 30.0, 2) == [20.0, 30.0]
    ensures Average([20.0, 30.0]) == 25.0
  {
    PushWhileFilling([], 10.0, 2);
    assert Push([], 10.0, 2) == [10.0];
    PushWhileFilling([10.0], 20.0, 2);
    assert Push([10.0], 20.0, 2) == [10.0, 20.0];
    PushWhenFull([10.0, 20.0], 30.0, 2);
    assert [10.0, 20.0][1..] + [30.0] == [20.0, 30.0];
    assert Sum([20.0, 30.0]) == 50.0 by {
      assert [20.0, 30.0][..1] == [20.0];
      assert [20.0][..0] == [];
    }
    Round1OfInt(25);
  }
}
