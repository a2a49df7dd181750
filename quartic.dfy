/** The sample objective the script descends, f(x) = x^4 - 2x^3 + 2, and
    its derivative f'(x) = 4x^3 - 6x^2, used as a concrete gradient. */
module Quartic {
  import opened Descent

  function Objective(x: real): real
  {
    x * x * x * x - 2.0 * x * x * x + 2.0
  }

  function Derivative(x: real): real
  {
    4.0 * x * x * x - 6.0 * x * x
  }

  /** The derivative vanishes exactly at 0 and at 3/2. */
  lemma CriticalPoints(x: real)
    ensures Derivative(x) == 0.0 <==> x == 0.0 || x == 1.5
  {
    assert Derivative(x) == 4.0 * (x * x) * (x - 1.5);
    if x != 0.0 && x != 1.5 {
      var p, c := x * x, x - 1.5;
      if x < 0.0 {
        assert p == (-x) * (-x);
      }
      assert p > 0.0;
      if c > 0.0 {
        assert p * c > 0.0;
      } else {
        assert p * c < 0.0;
      }
    }
  }

  /** With a non-zero learning rate, a descent step on the sample
      derivative leaves `x` where it is exactly at the critical points. */
  lemma FixedPoints(x: real, learnRate: real)
    requires learnRate != 0.0
    ensures x - Step(Derivative, learnRate, x) == x <==> x == 0.0 || x == 1.5
  {
    CriticalPoints(x);
  }

  /** 3/2 is where the objective is smallest. */
  lemma GlobalMinimum(x: real)
    ensures Objective(x) >= Objective(1.5)
  {
    var d := x - 1.5;
    var q := (x + 0.5) * (x + 0.5) + 0.5;
    assert Objective(x) - Objective(1.5) == (d * d) * q;
    assert d * d >= 0.0 && q > 0.0;
  }

  /** Started at a critical point with a positive tolerance, the run never
      moves: the first step is zero. */
  lemma StartAtCriticalPoint(start: real, learnRate: real, maxIter: int, tol: real)
    requires start == 0.0 || start == 1.5
    requires tol > 0.0
    ensures History(start, Derivative, learnRate, maxIter, tol) == [start]
    ensures Estimate(start, Derivative, learnRate, maxIter, tol) == start
  {
  }

  /** The script's third setting (start 2, rate 0.3, default tolerance):
      with any budget of at least one pass, the first step, 0.3 * f'(2) = 2.4,
      is applied and carries the run past the minimum to -0.4. */
  lemma FirstStepFromTwo(maxIter: int)
    requires maxIter >= 1
    ensures var h := History(2.0, Derivative, 0.3, maxIter, DefaultTol);
      |h| >= 2 && h[0] == 2.0 && h[1] == -0.4
  {
  }
}
