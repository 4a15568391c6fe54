/**
 * The first-match loop that every fallback in the reader is built from:
 * `foreach (x in xs) { ... return/break ... }`, where an iteration either
 * moves on, settles the answer, or throws out of the whole loop.
 */
module Search {

  /** What one iteration decides. */
  datatype Step<+T> = Continue | Stop(value: T) | Abort

  /** How the whole loop ends. */
  datatype Outcome<+T> = Found(value: T) | Exhausted | Aborted

  /** Every iteration before position `k` moved on. */
  ghost predicate ContinuesBefore<H, T>(xs: seq<H>, step: H -> Step<T>, k: int)
  {
    forall j :: 0 <= j < k && j < |xs| ==> step(xs[j]).Continue?
  }

  /** The outcome decided by an iteration that did not move on. */
  function Settle<T>(s: Step<T>): Outcome<T>
  {
    match s
    case Stop(v) => Found(v)
    case Abort => Aborted
    case Continue => Exhausted
  }

  /**
   * Runs `step` over `xs` in order and ends at the first iteration that does
   * not move on. The contract says exactly that: the loop is exhausted iff
   * every iteration moves on, and otherwise the first iteration that does not
   * move on decides.
   */
  function Scan<H, T>(xs: seq<H>, step: H -> Step<T>): (r: Outcome<T>)
    ensures r.Exhausted? <==> ContinuesBefore(xs, step, |xs|)
    ensures forall k :: 0 <= k < |xs| && ContinuesBefore(xs, step, k) && !step(xs[k]).Continue? ==>
              r == Settle(step(xs[k]))
    ensures r.Found? ==> exists k :: 0 <= k < |xs| && ContinuesBefore(xs, step, k) && step(xs[k]) == Stop(r.value)
    ensures r.Aborted? ==> exists k :: 0 <= k < |xs| && ContinuesBefore(xs, step, k) && step(xs[k]).Abort?
    decreases |xs|
  {
    if |xs| == 0 then Exhausted
    else
      match step(xs[0])
      case Continue =>
        var r := Scan(xs[1..], step);
        assert forall j :: 1 <= j < |xs| ==> xs[j] == xs[1..][j - 1];
        r
      case Stop(v) => Found(v)
      case Abort => Aborted
  }

  /** An element whose step stops, with only moving-on steps before it, decides the loop. */
  lemma ScanFound<H, T>(xs: seq<H>, step: H -> Step<T>, k: int, v: T)
    requires 0 <= k < |xs| && ContinuesBefore(xs, step, k) && step(xs[k]) == Stop(v)
    ensures Scan(xs, step) == Found(v)
  {
  }

  /** A loop that is not found either ran out or threw before any element stopped it. */
  lemma NotFoundMeansNoStop<H, T>(xs: seq<H>, step: H -> Step<T>)
    requires !Scan(xs, step).Found?
    ensures forall k :: 0 <= k < |xs| && ContinuesBefore(xs, step, k) ==> !step(xs[k]).Stop?
  {
  }
}
