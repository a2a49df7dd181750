/** One-dimensional fixed-step gradient descent.

    A run starts at `start`, repeatedly computes the step
    `learnRate * gradient(x)`, stops as soon as that step is smaller than
    `tol` in magnitude, and otherwise moves to `x - step` and records the new
    point. The number of passes is bounded by `maxIter`; the run returns the
    recorded history of points and the final point.

    `History` and `Estimate` are the specification (the run as recursion on
    the remaining budget); `GradientDescent` is the loop, proved equal to them.
 */
module Descent {

  /** Tolerance used when the caller does not give one. */
  const DefaultTol: real := 0.01

  function Abs(r: real): real
  {
    if r < 0.0 then -r else r
  }

  /** Number of passes a budget of `maxIter` allows: a loop over
      `0 .. maxIter - 1`, which is empty when `maxIter` is zero or negative. */
  function Iterations(maxIter: int): nat
  {
    if maxIter < 0 then 0 else maxIter
  }

  /** The step the run would take from `x`. */
  function Step(gradient: real -> real, learnRate: real, x: real): real
  {
    learnRate * gradient(x)
  }

  /** The run stops at `x`: the step from there is below the tolerance. */
  predicate Converged(gradient: real -> real, learnRate: real, tol: real, x: real)
  {
    Abs(Step(gradient, learnRate, x)) < tol
  }

  function Last(s: seq<real>): real
    requires |s| > 0
  {
    s[|s| - 1]
  }

  /** The points a run visits, starting at `start`, with `maxIter` passes left. */
  function History(start: real, gradient: real -> real, learnRate: real, maxIter: int, tol: real): (h: seq<real>)
    ensures |h| >= 1 && h[0] == start
    ensures |h| <= Iterations(maxIter) + 1
    decreases Iterations(maxIter)
  {
    if maxIter <= 0 || Converged(gradient, learnRate, tol, start) then [start]
    else [start] + History(start - Step(gradient, learnRate, start), gradient, learnRate, maxIter - 1, tol)
  }

  /** The point a run ends at, tracked on its own as the loop tracks `x`. */
  function Estimate(start: real, gradient: real -> real, learnRate: real, maxIter: int, tol: real): real
    decreases Iterations(maxIter)
  {
    if maxIter <= 0 || Converged(gradient, learnRate, tol, start) then start
    else Estimate(start - Step(gradient, learnRate, start), gradient, learnRate, maxIter - 1, tol)
  }

  /** The returned estimate is the last point of the returned history. */
  lemma {:induction false} EstimateIsLast(start: real, gradient: real -> real, learnRate: real, maxIter: int, tol: real)
    ensures Estimate(start, gradient, learnRate, maxIter, tol) == Last(History(start, gradient, learnRate, maxIter, tol))
    decreases Iterations(maxIter)
  {
    if maxIter > 0 && !Converged(gradient, learnRate, tol, start) {
      EstimateIsLast(start - Step(gradient, learnRate, start), gradient, learnRate, maxIter - 1, tol);
    }
  }

  /** The run records only the starting point exactly when it has no
      budget or the very first step is already below the tolerance. */
  lemma StopsAtStart(start: real, gradient: real -> real, learnRate: real, maxIter: int, tol: real)
    ensures History(start, gradient, learnRate, maxIter, tol) == [start]
        <==> maxIter <= 0 || Converged(gradient, learnRate, tol, start)
    ensures maxIter <= 0 || Converged(gradient, learnRate, tol, start)
        ==> Estimate(start, gradient, learnRate, maxIter, tol) == start
  {
  }

  /** Neighbouring points of the history are one applied step apart, and
      every applied step was at least the tolerance in magnitude. */
  lemma {:induction false} HistoryRecurrence(start: real, gradient: real -> real, learnRate: real, maxIter: int, tol: real, i: nat)
    requires i + 1 < |History(start, gradient, learnRate, maxIter, tol)|
    ensures var h := History(start, gradient, learnRate, maxIter, tol);
      h[i + 1] == h[i] - Step(gradient, learnRate, h[i]) &&
      Abs(Step(gradient, learnRate, h[i])) >= tol
    decreases Iterations(maxIter)
  {
    var next := start - Step(gradient, learnRate, start);
    if i > 0 {
      HistoryRecurrence(next, gradient, learnRate, maxIter - 1, tol, i - 1);
    }
  }

  /** A history shorter than the whole budget allows ended by convergence:
      the step from its last point is below the tolerance. */
  lemma {:induction false} HistoryStopReason(start: real, gradient: real -> real, learnRate: real, maxIter: int, tol: real)
    ensures var h := History(start, gradient, learnRate, maxIter, tol);
      |h| < Iterations(maxIter) + 1 ==> Converged(gradient, learnRate, tol, Last(h))
    decreases Iterations(maxIter)
  {
    if maxIter > 0 && !Converged(gradient, learnRate, tol, start) {
      HistoryStopReason(start - Step(gradient, learnRate, start), gradient, learnRate, maxIter - 1, tol);
    }
  }

  /** One more pass of budget only ever extends the history. */
  lemma {:induction false} HistoryPrefix(start: real, gradient: real -> real, learnRate: real, maxIter: int, tol: real)
    ensures History(start, gradient, learnRate, maxIter, tol) <= History(start, gradient, learnRate, maxIter + 1, tol)
    decreases Iterations(maxIter)
  {
    if maxIter > 0 && !Converged(gradient, learnRate, tol, start) {
      HistoryPrefix(start - Step(gradient, learnRate, start), gradient, learnRate, maxIter - 1, tol);
    }
  }

  /** Any larger budget only ever extends the history. */
  lemma {:induction false} HistoryMonotone(start: real, gradient: real -> real, learnRate: real, maxIter: int, more: int, tol: real)
    requires maxIter <= more
    ensures History(start, gradient, learnRate, maxIter, tol) <= History(start, gradient, learnRate, more, tol)
    decreases more - maxIter
  {
    if maxIter < more {
      HistoryPrefix(start, gradient, learnRate, maxIter, tol);
      HistoryMonotone(start, gradient, learnRate, maxIter + 1, more, tol);
    }
  }

  /** Once a run has stopped by convergence, any larger budget gives the
      same history and the same estimate. */
  lemma {:induction false} HistoryStable(start: real, gradient: real -> real, learnRate: real, maxIter: int, more: int, tol: real)
    requires maxIter <= more
    requires |History(start, gradient, learnRate, maxIter, tol)| < Iterations(maxIter) + 1
    ensures History(start, gradient, learnRate, more, tol) == History(start, gradient, learnRate, maxIter, tol)
    ensures Estimate(start, gradient, learnRate, more, tol) == Estimate(start, gradient, learnRate, maxIter, tol)
    decreases Iterations(maxIter)
  {
    if !Converged(gradient, learnRate, tol, start) {
      HistoryStable(start - Step(gradient, learnRate, start), gradient, learnRate, maxIter - 1, more - 1, tol);
    }
  }

  /** A step whose magnitude equals the tolerance exactly is applied. */
  lemma StepAtToleranceApplied(start: real, gradient: real -> real, learnRate: real, maxIter: int, tol: real)
    requires maxIter >= 1
    requires Abs(Step(gradient, learnRate, start)) == tol
    ensures var h := History(start, gradient, learnRate, maxIter, tol);
      |h| >= 2 && h[1] == start - Step(gradient, learnRate, start)
  {
  }

  /** What a run's history is, stated without recursion: it begins at the
      start, each point is one applied step from the previous one, no
      applied step is below the tolerance, it fits the budget, and if it
      does not use the whole budget the step from its last point is below
      the tolerance. */
  ghost predicate IsRun(h: seq<real>, start: real, gradient: real -> real, learnRate: real, maxIter: int, tol: real)
  {
    && 1 <= |h| <= Iterations(maxIter) + 1
    && h[0] == start
    && (forall i :: 0 <= i < |h| - 1 ==>
          h[i + 1] == h[i] - Step(gradient, learnRate, h[i]) && !Converged(gradient, learnRate, tol, h[i]))
    && (|h| < Iterations(maxIter) + 1 ==> Converged(gradient, learnRate, tol, h[|h| - 1]))
  }

  /** `History` satisfies `IsRun`. */
  lemma HistoryIsRun(start: real, gradient: real -> real, learnRate: real, maxIter: int, tol: real)
    ensures IsRun(History(start, gradient, learnRate, maxIter, tol), start, gradient, learnRate, maxIter, tol)
  {
    var h := History(start, gradient, learnRate, maxIter, tol);
    forall i | 0 <= i < |h| - 1
      ensures h[i + 1] == h[i] - Step(gradient, learnRate, h[i]) && !Converged(gradient, learnRate, tol, h[i])
    {
      HistoryRecurrence(start, gradient, learnRate, maxIter, tol, i);
    }
    HistoryStopReason(start, gradient, learnRate, maxIter, tol);
  }

  /** Any sequence satisfying `IsRun` is `History`: the description
      determines the history completely. */
  lemma {:induction false} RunIsHistory(h: seq<real>, start: real, gradient: real -> real, learnRate: real, maxIter: int, tol: real)
    requires IsRun(h, start, gradient, learnRate, maxIter, tol)
    ensures h == History(start, gradient, learnRate, maxIter, tol)
    decreases Iterations(maxIter)
  {
    if maxIter > 0 && !Converged(gradient, learnRate, tol, start) {
      var next := start - Step(gradient, learnRate, start);
      var tail := h[1..];
      assert IsRun(tail, next, gradient, learnRate, maxIter - 1, tol) by {
        forall i | 0 <= i < |tail| - 1
          ensures tail[i + 1] == tail[i] - Step(gradient, learnRate, tail[i]) && !Converged(gradient, learnRate, tol, tail[i])
        {
          assert tail[i] == h[i + 1] && tail[i + 1] == h[i + 2];
        }
      }
      RunIsHistory(tail, next, gradient, learnRate, maxIter - 1, tol);
      assert h == [start] + tail;
    }
  }

  /** `History` is the one and only sequence satisfying `IsRun`. */
  lemma HistoryIsTheRun(h: seq<real>, start: real, gradient: real -> real, learnRate: real, maxIter: int, tol: real)
    ensures IsRun(h, start, gradient, learnRate, maxIter, tol) <==> h == History(start, gradient, learnRate, maxIter, tol)
  {
    HistoryIsRun(start, gradient, learnRate, maxIter, tol);
    if IsRun(h, start, gradient, learnRate, maxIter, tol) {
      RunIsHistory(h, start, gradient, learnRate, maxIter, tol);
    }
  }

  /** One pass of the run, seen from the specification: from `x` with budget
      left, either the run stops there or it moves one step on. */
  lemma Unfold(x: real, gradient: real -> real, learnRate: real, maxIter: int, tol: real)
    requires maxIter > 0
    ensures Converged(gradient, learnRate, tol, x) ==>
      History(x, gradient, learnRate, maxIter, tol) == [x] && Estimate(x, gradient, learnRate, maxIter, tol) == x
    ensures !Converged(gradient, learnRate, tol, x) ==>
      var next := x - Step(gradient, learnRate, x);
      History(x, gradient, learnRate, maxIter, tol) == [x] + History(next, gradient, learnRate, maxIter - 1, tol) &&
      Estimate(x, gradient, learnRate, maxIter, tol) == Estimate(next, gradient, learnRate, maxIter - 1, tol)
  {
  }

  /** The loop's bookkeeping for one applied step: the points recorded so
      far followed by the rest of the run from `x` stay the whole history. */
  lemma Advance(steps: seq<real>, x: real, gradient: real -> real, learnRate: real, n: int, tol: real)
    requires n > 0 && !Converged(gradient, learnRate, tol, x)
    ensures var next := x - Step(gradient, learnRate, x);
      && steps + History(x, gradient, learnRate, n, tol)[1..] == (steps + [next]) + History(next, gradient, learnRate, n - 1, tol)[1..]
      && Estimate(x, gradient, learnRate, n, tol) == Estimate(next, gradient, learnRate, n - 1, tol)
  {
  }

  /** The run itself: a bounded loop that leaves early once the step is
      below the tolerance, and otherwise applies it and records the new point. */
  method GradientDescent(start: real, gradient: real -> real, learnRate: real, maxIter: int, tol: real := DefaultTol)
    returns (steps: seq<real>, x: real)
    ensures steps == History(start, gradient, learnRate, maxIter, tol)
    ensures x == Estimate(start, gradient, learnRate, maxIter, tol)
    ensures |steps| >= 1 && steps[0] == start && x == Last(steps)
  {
    x := start;
    steps := [start];
    var left := maxIter;
    ghost var full := History(start, gradient, learnRate, maxIter, tol);
    while left > 0
      invariant left <= Iterations(maxIter)
      invariant steps + History(x, gradient, learnRate, left, tol)[1..] == full
      invariant Estimate(x, gradient, learnRate, left, tol) == Estimate(start, gradient, learnRate, maxIter, tol)
    {
      var diff := Step(gradient, learnRate, x);
      if Abs(diff) < tol {
        Unfold(x, gradient, learnRate, left, tol);
        assert steps == full by {
          assert steps + [x][1..] == full;
        }
        break;
      }
      Advance(steps, x, gradient, learnRate, left, tol);
      x := x - diff;
      steps := steps + [x];
      left := left - 1;
    }
    EstimateIsLast(start, gradient, learnRate, maxIter, tol);
  }
}
