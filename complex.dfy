/** Complex numbers with exact real components: the arithmetic that the
    Mandelbrot recurrence uses (addition, squaring, and the comparison of a
    magnitude against the escape radius 2, carried out on squared norms). */
module ComplexNumbers {

  datatype Complex = Complex(re: real, im: real)

  const Zero: Complex := Complex(0.0, 0.0)

  function Add(a: Complex, b: Complex): Complex
  {
    Complex(a.re + b.re, a.im + b.im)
  }

  function Mul(a: Complex, b: Complex): Complex
  {
    Complex(a.re * b.re - a.im * b.im, a.re * b.im + a.im * b.re)
  }

  /** z ** 2. CPython evaluates it by repeated squaring and raises an
      overflow error when a component of the result is infinite; in exact
      arithmetic it is z * z. */
  function Square(z: Complex): Complex
  {
    Mul(z, z)
  }

  /** The squared magnitude: |z| <= 2 exactly when NormSq(z) <= 4. */
  function NormSq(z: Complex): (r: real)
    ensures r >= 0.0
  {
    z.re * z.re + z.im * z.im
  }

  /** The norm is multiplicative: |a * b|^2 == |a|^2 * |b|^2. */
  lemma MulNormSq(a: Complex, b: Complex)
    ensures NormSq(Mul(a, b)) == NormSq(a) * NormSq(b)
  {
  }

  /** Cauchy-Schwarz without square roots: the real part of a * conj(b)
      is, squared, at most |a|^2 * |b|^2. */
  lemma InnerProductBound(a: Complex, b: Complex)
    ensures Dot(a, b) * Dot(a, b) <= NormSq(a) * NormSq(b)
  {
    var p, q, s, t := a.re, a.im, b.re, b.im;
    calc {
      NormSq(a) * NormSq(b) - Dot(a, b) * Dot(a, b);
      (p * p + q * q) * (s * s + t * t) - (p * s + q * t) * (p * s + q * t);
      (p * t - q * s) * (p * t - q * s);
    >=
      0.0;
    }
  }

  /** The real part of a * conj(b). */
  function Dot(a: Complex, b: Complex): real
  {
    a.re * b.re + a.im * b.im
  }

  /** |a + b|^2 == |a|^2 + 2 Re(a * conj(b)) + |b|^2. */
  lemma AddNormSq(a: Complex, b: Complex)
    ensures NormSq(Add(a, b)) == NormSq(a) + 2.0 * Dot(a, b) + NormSq(b)
  {
  }

  // ---------------------------------------------------------------------
  // Real arithmetic behind the escape radius

  lemma MulPos(x: real, y: real)
    requires x > 0.0 && y > 0.0
    ensures x * y > 0.0
  {
  }

  lemma MulNonNeg(x: real, y: real)
    requires x >= 0.0 && y >= 0.0
    ensures x * y >= 0.0
  {
  }

  /** The escape-radius inequality on squared norms: with a = |z|^2 > 4,
      b = |c|^2 <= a and d = Re(z^2 * conj(c)), d^2 <= a^2 * b (Cauchy-Schwarz),
      the squared norm |z^2 + c|^2 = a^2 + 2d + b exceeds a. */
  lemma EscapeInequality(a: real, b: real, d: real)
    requires a > 4.0 && 0.0 <= b <= a
    requires d * d <= a * a * b
    ensures a * a + 2.0 * d + b > a
  {
    if a * a + 2.0 * d + b <= a {
      var p := a * a - a + b;
      MulPos(a, a - 1.0);
      assert a * (a - 1.0) == a * a - a;
      var u := -2.0 * d;
      assert u >= p > 0.0;
      MulNonNeg(u - p, u + p);
      assert (u - p) * (u + p) == u * u - p * p;
      assert u * u == 4.0 * (d * d);
      MulNonNeg(a - b, a - b + 2.0 * a * a);
      assert (a - b) * (a - b + 2.0 * a * a) == (b - a) * (b - a - 2.0 * a * a);
      MulPos(a * a * a, a - 4.0);
      assert false;
    }
  }
}
