/** The escape-time logic of the Mandelbrot set: the orbit of a seed under
    z |-> z^2 + seed, and the escape time of that orbit within a bound. */
module Mandelbrot {
  import opened ComplexNumbers

  datatype Option<T> = None | Some(value: T)

  /** One step of the recurrence: z |-> z^2 + c. */
  function Step(z: Complex, c: Complex): Complex
  {
    Add(Square(z), c)
  }

  /** The n-th term of the Mandelbrot sequence with initial term x:
      the zeroth term is x itself, each later term is the square of the
      one before plus x. Defined backwards, as the source recursion is. */
  function Term(x: Complex, n: nat): Complex
  {
    if n == 0 then x else Step(Term(x, n - 1), x)
  }

  /** An independent, forward reading of the orbit: k applications of
      z |-> z^2 + c starting from z. */
  function Iterate(z: Complex, c: Complex, k: nat): Complex
    decreases k
  {
    if k == 0 then z else Iterate(Step(z, c), c, k - 1)
  }

  /** Running the recurrence k more steps from the m-th term gives the
      (m + k)-th term. */
  lemma {:induction false} TermShift(x: Complex, m: nat, k: nat)
    ensures Term(x, m + k) == Iterate(Term(x, m), x, k)
    decreases k
  {
    if k > 0 {
      TermShift(x, m + 1, k - 1);
      assert m + 1 + (k - 1) == m + k;
    }
  }

  /** The backward recursion and the forward iteration agree: the n-th
      term is n applications of z |-> z^2 + x to x. */
  lemma TermIsIteration(x: Complex, n: nat)
    ensures Term(x, n) == Iterate(x, x, n)
  {
    TermShift(x, 0, n);
  }

  /** The escape test |z| > 2, on squared norms. */
  predicate Escaped(z: Complex)
  {
    NormSq(z) > 4.0
  }

  /** The n-th orbit term of seed c has left the disc of radius 2. */
  predicate EscapesAt(c: Complex, n: nat)
  {
    Escaped(Term(c, n))
  }

  /** The least index in 0..n whose orbit term escapes, if any: the
      ascending search with early return. */
  function FirstEscape(c: Complex, n: nat): (r: Option<nat>)
    ensures r.Some? ==> r.value <= n && EscapesAt(c, r.value)
    ensures r.Some? ==> forall j :: 0 <= j < r.value ==> !EscapesAt(c, j)
    ensures r.None? ==> forall j :: 0 <= j <= n ==> !EscapesAt(c, j)
  {
    if n == 0 then
      (if EscapesAt(c, 0) then Some(0) else None)
    else
      match FirstEscape(c, n - 1)
      case Some(k) => Some(k)
      case None => if EscapesAt(c, n) then Some(n) else None
  }

  /** FirstEscape finds exactly the least escaping index. */
  lemma LeastEscapeIsFirst(c: Complex, n: nat, i: nat)
    requires i <= n && EscapesAt(c, i)
    requires forall j :: 0 <= j < i ==> !EscapesAt(c, j)
    ensures FirstEscape(c, n) == Some(i)
  {
  }

  /** What the source computes: nothing when the last term is within the
      radius, otherwise the first escaping index. */
  function EscapeTimeOf(c: Complex, maxIterations: nat): (r: Option<nat>)
    ensures r.None? <==> !EscapesAt(c, maxIterations)
    ensures r.Some? ==> r.value <= maxIterations && EscapesAt(c, r.value)
    ensures r.Some? ==> forall j :: 0 <= j < r.value ==> !EscapesAt(c, j)
  {
    if !EscapesAt(c, maxIterations) then None else FirstEscape(c, maxIterations)
  }

  /** The escape time of the orbit of c within maxIterations steps: the
      guard on the last term, then the ascending scan with early return. */
  method GetEscapeTime(c: Complex, maxIterations: nat) returns (r: Option<nat>)
    ensures r == EscapeTimeOf(c, maxIterations)
    ensures r.None? <==> !EscapesAt(c, maxIterations)
    ensures r.Some? ==> r.value <= maxIterations && EscapesAt(c, r.value)
    ensures r.Some? ==> forall j :: 0 <= j < r.value ==> !EscapesAt(c, j)
  {
    if !Escaped(Term(c, maxIterations)) {
      return None;
    }
    var i := 0;
    while i <= maxIterations
      invariant i <= maxIterations + 1
      invariant EscapesAt(c, maxIterations)
      invariant forall j :: 0 <= j < i ==> !EscapesAt(c, j)
    {
      if Escaped(Term(c, i)) {
        LeastEscapeIsFirst(c, maxIterations, i);
        return Some(i);
      }
      i := i + 1;
    }
    // Falling off the end of the scan would return None implicitly; the
    // last index escapes, so the scan always returns first.
    assert false;
  }

  // ---------------------------------------------------------------------
  // Once out, always out

  /** A point is trapped outside the disc when it lies beyond radius 2 and
      at least as far out as the parameter c. */
  predicate Trapped(z: Complex, c: Complex)
  {
    NormSq(z) > 4.0 && NormSq(c) <= NormSq(z)
  }

  /** One step moves a trapped point strictly further out, so it stays trapped. */
  lemma StepMovesOut(z: Complex, c: Complex)
    requires Trapped(z, c)
    ensures NormSq(Step(z, c)) > NormSq(z)
    ensures Trapped(Step(z, c), c)
  {
    var u := Square(z);
    MulNormSq(z, z);
    AddNormSq(u, c);
    InnerProductBound(u, c);
    EscapeInequality(NormSq(z), NormSq(c), Dot(u, c));
  }

  lemma {:induction false} TrappedForever(z: Complex, c: Complex, k: nat)
    requires Trapped(z, c)
    ensures Trapped(Iterate(z, c, k), c)
    decreases k
  {
    if k > 0 {
      StepMovesOut(z, c);
      TrappedForever(Step(z, c), c, k - 1);
    }
  }

  /** Once an orbit term of seed c has left the disc of radius 2, every
      later term stays outside it. */
  lemma EscapePersists(c: Complex, n: nat, m: nat)
    requires n <= m && EscapesAt(c, n)
    ensures EscapesAt(c, m)
  {
    if NormSq(c) > 4.0 {
      // The seed itself is outside: the whole orbit from z_0 = c is trapped.
      TrappedForever(c, c, n);
      TermIsIteration(c, n);
    }
    assert Trapped(Term(c, n), c);
    TrappedForever(Term(c, n), c, m - n);
    TermShift(c, n, m - n);
  }

  // ---------------------------------------------------------------------
  // Consequences for the escape time

  /** The guard on the last term is redundant: the escape time is exactly
      the first escaping index in 0..maxIterations. */
  lemma GuardAgreesWithSearch(c: Complex, maxIterations: nat)
    ensures EscapeTimeOf(c, maxIterations) == FirstEscape(c, maxIterations)
  {
    var r := FirstEscape(c, maxIterations);
    if r.Some? {
      EscapePersists(c, r.value, maxIterations);
    }
  }

  /** The result is None exactly when no term z_0 .. z_N escapes. */
  lemma BoundedIffNoTermEscapes(c: Complex, maxIterations: nat)
    ensures EscapeTimeOf(c, maxIterations) == None
            <==> forall j :: 0 <= j <= maxIterations ==> !EscapesAt(c, j)
  {
    GuardAgreesWithSearch(c, maxIterations);
  }

  /** An escape time k found within one bound is the escape time for every
      bound at least k. */
  lemma EscapeTimeStable(c: Complex, n: nat, m: nat, k: nat)
    requires EscapeTimeOf(c, n) == Some(k) && k <= m
    ensures EscapeTimeOf(c, m) == Some(k)
  {
    GuardAgreesWithSearch(c, n);
    GuardAgreesWithSearch(c, m);
  }

  /** A seed bounded for bound n is bounded for every smaller bound. */
  lemma BoundedForSmallerBound(c: Complex, n: nat, m: nat)
    requires EscapeTimeOf(c, n) == None && m <= n
    ensures EscapeTimeOf(c, m) == None
  {
    if EscapesAt(c, m) {
      EscapePersists(c, m, n);
    }
  }

  /** A seed outside the disc of radius 2 escapes at step 0, whatever the bound. */
  lemma OutsideSeedEscapesAtZero(c: Complex, maxIterations: nat)
    requires NormSq(c) > 4.0
    ensures EscapeTimeOf(c, maxIterations) == Some(0)
  {
    assert EscapesAt(c, 0);
    GuardAgreesWithSearch(c, maxIterations);
  }

  /** Every orbit term of the seed 0 is 0. */
  lemma {:induction false} ZeroOrbit(n: nat)
    ensures Term(Zero, n) == Zero
  {
    if n > 0 {
      ZeroOrbit(n - 1);
    }
  }

  /** The seed 0 never escapes, whatever the bound. */
  lemma ZeroSeedBounded(maxIterations: nat)
    ensures EscapeTimeOf(Zero, maxIterations) == None
  {
    ZeroOrbit(maxIterations);
  }
}
