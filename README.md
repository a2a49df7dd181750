# Fixed-step gradient descent in one dimension

This project models `gradient_descent` from the teaching script
`3.1_gradient_descent_plots.py`. The function takes a start point, a
gradient function, a learning rate, an iteration budget `max_iter` and a
tolerance `tol` (0.01 by default). On each pass it computes the step
`learn_rate * gradient(x)`. If the step's magnitude is below `tol`, it
stops without applying the step. Otherwise it moves `x` to `x - step` and
appends the new point to the history. It returns the history and the
final point.

The model has two modules:

- `Descent` (`descent.dfy`) holds the operation written twice:
  - `History` and `Estimate` are the specification: recursive functions on
    the remaining budget.
  - `GradientDescent` is the loop, with early exit and a sequence
    accumulator. It is proved to return exactly `History` and `Estimate`.

  The lemmas state what the history is:
  - it starts at the start point and fits the budget;
  - neighbouring points are one applied step apart;
  - every applied step was at least the tolerance;
  - a history that ends early ended by convergence;
  - a larger budget only extends the history.

  `IsRun` describes a run without recursion. `HistoryIsTheRun` proves that
  `History` is the only sequence that fits this description.
- `Quartic` (`quartic.dfy`) holds the script's sample objective
  `x^4 - 2x^3 + 2` and its derivative, used as a concrete gradient.

Python floats are modelled as exact `real` numbers and the gradient as a
total function `real -> real`. `np.abs` is `Abs`. The tolerance default is
a default parameter value of `GradientDescent` (`DefaultTol`).

`max_iter` is meant to be non-negative, but the code loops over
`range(max_iter)`, and that range is empty for a negative budget. The model
follows the code: it accepts any integer budget and treats a negative one as
zero passes (`Iterations`). The loop counts the passes that are left rather
than the passes done, which gives the same number of passes.

## Model

| member | source | states |
|---|---|---|
| `Descent.History` | 3.1_gradient_descent_plots.py:19-27 | the history is never empty, its first element is the start point, and it has at most one entry more than the number of passes allowed |
| `Descent.GradientDescent` | 3.1_gradient_descent_plots.py:17-29 | the loop with early exit returns exactly the specified history and final point; the history starts at `start` and the returned `x` is its last element |
| `Descent.EstimateIsLast` | 3.1_gradient_descent_plots.py:26-29 | the final point, tracked on its own as the loop's `x`, is the last element of the history |
| `Descent.StopsAtStart` | 3.1_gradient_descent_plots.py:19-25 | the history is `[start]` if and only if the budget is zero or negative or the first step is below the tolerance; in those cases the estimate is `start` |
| `Descent.HistoryRecurrence` | 3.1_gradient_descent_plots.py:23-27 | each point is the previous point minus `learn_rate * gradient(previous)`, and that step's magnitude was at least `tol` |
| `Descent.StepAtToleranceApplied` | 3.1_gradient_descent_plots.py:24-27 | the convergence test is strict: a first step whose magnitude is exactly `tol` is applied and recorded |
| `Descent.HistoryStopReason` | 3.1_gradient_descent_plots.py:22-25 | a history shorter than the budget allows ended by convergence: the step from its last point is below `tol` |
| `Descent.HistoryPrefix` | 3.1_gradient_descent_plots.py:22-27 | the history for budget `n` is a prefix of the history for budget `n + 1`, all other inputs fixed |
| `Descent.HistoryMonotone` | 3.1_gradient_descent_plots.py:22-27 | for any budget `m` at least `n`, the history for budget `n` is a prefix of the history for budget `m`, all other inputs fixed |
| `Descent.HistoryStable` | 3.1_gradient_descent_plots.py:22-25 | once a run has stopped by convergence, every larger budget gives the same history and the same final point |
| `Descent.HistoryIsRun` | 3.1_gradient_descent_plots.py:19-27 | the history fits the non-recursive description `IsRun`: it starts at `start`, fits the budget, is linked by applied steps of at least `tol`, and, if it is short, ends at a converged point |
| `Descent.RunIsHistory` | 3.1_gradient_descent_plots.py:19-27 | any sequence that fits `IsRun` is the history, so the description determines the result |
| `Descent.HistoryIsTheRun` | 3.1_gradient_descent_plots.py:19-27 | a sequence fits `IsRun` if and only if it is the history |
| `Quartic.CriticalPoints` | 3.1_gradient_descent_plots.py:35-36 | the sample derivative `4x^3 - 6x^2` is zero exactly at `0` and at `3/2` |
| `Quartic.FixedPoints` | 3.1_gradient_descent_plots.py:23-26 | with the sample derivative as gradient and a non-zero learning rate, the update `x - learn_rate * gradient(x)` leaves `x` unchanged exactly at `0` and `3/2` |
| `Quartic.GlobalMinimum` | 3.1_gradient_descent_plots.py:32-33 | the sample objective `x^4 - 2x^3 + 2` takes its smallest value at `3/2` |
| `Quartic.StartAtCriticalPoint` | 3.1_gradient_descent_plots.py:35-36 | a run started at a critical point of the sample derivative, with a positive tolerance, records only the start point and returns it |
| `Quartic.FirstStepFromTwo` | 3.1_gradient_descent_plots.py:110-115 | in the script's third setting (start 2, rate 0.3, default tolerance), with any budget of at least one pass, the first step of 2.4 is applied and takes the run to -0.4 |

## Left out

- Floating point: the model computes with exact reals. Rounding, NaN and
  infinity are not modelled, so nothing is said about a non-finite value
  passing through the history unchanged.
- Numeric convergence claims are not modelled: how many passes the sample
  quartic needs from each start, or which critical point a run approaches.
  These depend on floating-point evaluation.
- A gradient that raises an exception is not modelled. The gradient is a
  total function.
- `learn_rate` and `tol` are not validated, in the code or in the model.
  The lemmas of `Descent` hold for every real value of both.
- The history is a `seq` value that the loop reassigns. Python's in-place
  `append` to a list is modelled that way. The list is local to the call,
  so no aliasing is lost.
- `update` (lines 10-15), which moves the animated line. It is plotting.
- Figure setup, `FuncAnimation`, titles, `plt.show()` and the GIF export.
  They are presentation and I/O.
- The animation `frames=` counts. They are presentation choices, not
  statements about the history length.
- The module-level driver code, which redefines `f_ej1`, `dfdx_ej1`,
  `start`, `learn_rate` and `max_iter` four times. Only one objective and
  derivative pair is modelled, as `Quartic`.
- The NumPy conversions (`np.array`, `np.linspace`). They are used only
  for plotting.
