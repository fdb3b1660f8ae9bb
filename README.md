# Mandelbrot escape time, modelled in Dafny

This project models the escape-time logic of `mandelbrot.py`:

- `mandelbrot_generator(x, y)` gives the y-th term of the Mandelbrot
  sequence with initial term `x`: `z_0 = x` and `z_y = z_{y-1} ** 2 + x`.
  It is modelled by the recursive function `Mandelbrot.Term`.
- `get_escape_time(c, max_iterations)` first checks the last term
  `z_N` (with `N = max_iterations`). If `|z_N| <= 2` it returns `None`.
  Otherwise it scans `0..N` in ascending order and returns the first index
  whose term has `|z_i| > 2`. It is modelled by the method
  `Mandelbrot.GetEscapeTime`, which has the same guard and the same
  `while` loop with early return. Its specification function is
  `Mandelbrot.EscapeTimeOf`.

Python's `complex` values become `ComplexNumbers.Complex`, a pair of exact
`real`s. `z ** 2` is `Square(z) = Mul(z, z)`. The test `abs(z) > 2` is
written `NormSq(z) > 4` (`Mandelbrot.Escaped`), and `abs(z) <= 2` is its
negation. The Python result `int | None` becomes `Option<nat>`.

The main proof obligation is the loop at mandelbrot.py:33-35. The function
would return `None` implicitly if the loop ran to completion. The guard at
line 30 rules that out, and the method proves it with the loop invariant
"`z_N` escapes and no index before `i` escapes" followed by `assert false`
after the loop.

Beyond the source's own promises, the model proves that an escaped orbit
stays out. If `|z| > 2` and `|z| >= |c|`, then `|z^2 + c| > |z|`. This is
proved on squared norms with a Cauchy-Schwarz bound and no square roots
(`StepMovesOut`, `EscapeInequality`). From it follow:

- the final-term guard never changes the answer (`GuardAgreesWithSearch`);
- `None` means no term in `0..N` escapes (`BoundedIffNoTermEscapes`);
- an escape time does not depend on the bound once the bound reaches it
  (`EscapeTimeStable`).

The code re-derives each term recursively and checks the last term first.
An evaluator that iterates step by step and has no final-term guard gives the
same result in exact arithmetic (`GuardAgreesWithSearch`).

## Model

| member | source | states |
|---|---|---|
| ComplexNumbers.NormSq | mandelbrot.py:30 | the squared magnitude that replaces `abs` is never negative |
| ComplexNumbers.MulNormSq | mandelbrot.py:16 | the norm is multiplicative, so `abs(z ** 2)^2 == (abs(z)^2)^2` |
| Mandelbrot.Term | mandelbrot.py:1-16 | no contract; the body is the two defining equations (`z_0 = x`, `z_y = z_{y-1}^2 + x`); the forward iteration `Iterate` is tied to it by `TermIsIteration` |
| Mandelbrot.TermShift | mandelbrot.py:13-16 | running z -> z^2 + x for k more steps from term m gives term m + k |
| Mandelbrot.TermIsIteration | mandelbrot.py:1-16 | the backward recursion (`z_0 = x`, `z_y = z_{y-1}^2 + x`) equals y forward applications of z -> z^2 + x to x |
| Mandelbrot.FirstEscape | mandelbrot.py:33-35 | the ascending scan's result: if Some(i), then i <= n, term i escapes and no earlier term does; if None, no term in 0..n escapes |
| Mandelbrot.LeastEscapeIsFirst | mandelbrot.py:33-35 | the least escaping index up to n is exactly what the scan returns |
| Mandelbrot.EscapeTimeOf | mandelbrot.py:30-35 | the guard on term N, then `FirstEscape`: None exactly when term N does not escape; a returned i is at most N, escapes, and no earlier term escapes |
| Mandelbrot.GetEscapeTime | mandelbrot.py:18-35 | the result equals EscapeTimeOf; None exactly when term N has `abs(z_N) <= 2`; a returned i has 0 <= i <= N, `abs(z_i) > 2` and `abs(z_j) <= 2` for every j < i; the loop never falls off its end |
| Mandelbrot.StepMovesOut | mandelbrot.py:16 | if `abs(z) > 2` and `abs(c) <= abs(z)`, then `abs(z^2 + c) > abs(z)`, so the condition holds again after one step |
| Mandelbrot.EscapePersists | mandelbrot.py:13-16 | once term n of an orbit has `abs(z_n) > 2`, every later term does too |
| Mandelbrot.GuardAgreesWithSearch | mandelbrot.py:30-35 | the final-term guard is redundant: the result is the first escaping index in 0..N, or None if there is none |
| Mandelbrot.BoundedIffNoTermEscapes | mandelbrot.py:26-31 | the result is None if and only if no term z_0 .. z_N escapes |
| Mandelbrot.EscapeTimeStable | mandelbrot.py:26-35 | if the result for bound N is i, the result for every bound M >= i is also i |
| Mandelbrot.BoundedForSmallerBound | mandelbrot.py:30-31 | if the result for bound N is None, the result for every bound M <= N is None |
| Mandelbrot.OutsideSeedEscapesAtZero | mandelbrot.py:30-35 | a seed with `abs(c) > 2` has escape time 0 for every bound |
| Mandelbrot.ZeroOrbit | mandelbrot.py:13-16 | every term of the orbit of 0 is 0 |
| Mandelbrot.ZeroSeedBounded | mandelbrot.py:30-31 | the seed 0 gives None for every max_iterations >= 0 |

## Left out

- Floating point: Python `complex` arithmetic (rounding, `inf`, `nan`) is modelled with exact reals. Under floating point, escape persistence and the agreement of the guard with the scan are not guaranteed.
- Overflow of `** 2`: CPython raises `OverflowError` when squaring gives an infinite component. The guard at mandelbrot.py:30 computes `z_N` first, so the source raises for an escaping seed once N is a few steps past the escape (for example `get_escape_time(3+0j, 10)`, where squaring `z_9` overflows). The model returns the escape time instead (`Some(0)` there).
- GetEscapeTime: "the loop never falls off its end" holds in exact arithmetic only. For a NaN seed both tests at lines 30 and 34 are false, so the source runs off the end of the loop and returns `None` implicitly. The model has no NaN.
- `abs` and its square root: `abs(z) <= 2` is modelled as `NormSq(z) <= 4`, which is equivalent for exact reals.
- Negative `max_iterations`: in the source, `mandelbrot_generator` recurses without end and raises `RecursionError`. The model takes `max_iterations` as a `nat`.
- Recursion depth: the source hits Python's recursion limit for large `max_iterations` (around 1000). The model has no such limit.
- Cost: line 34 re-derives every term from scratch, so the source does quadratically many generator calls. The model captures only what is computed, not the cost.
- Term: the two defining equations (`z_0 = x`, `z_y = z_{y-1}^2 + x`) are the body of `Term` itself. They are not restated as a separate contract. Their partner is the forward iteration `Iterate`, related to `Term` by `TermShift` and `TermIsIteration`.
- Grid sampling, normalisation to [0, 1], Julia-set mode and image output do not appear in mandelbrot.py, so they are not part of this model.
