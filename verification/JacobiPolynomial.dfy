/**
 Which polynomial the recurrence of `PolyFilter` computes: the Jacobi polynomial, given by
 its explicit sum in powers of (x - 1)/2 (equation 18.5.7 of the NIST Digital Library of
 Mathematical Functions).
 */
module JacobiPolynomial {
  import opened Sums
  import opened PolyFilter
  import L = Laplacian
  import G = Graph

  // ---------------------------------------------------------------------
  // The explicit sum
  // ---------------------------------------------------------------------

  /** a (a + 1) ... (a + m - 1) */
  ghost function Rising(a: real, m: nat): real { if m == 0 then 1.0 else Rising(a, m - 1) * (a + (m - 1) as real) }

  ghost function Factorial(m: nat): real { if m == 0 then 1.0 else m as real * Factorial(m - 1) }

  lemma {:induction false} FactorialPositive(m: nat)
    ensures Factorial(m) > 0.0
  {
    if m > 0 { FactorialPositive(m - 1); }
  }

  /** What stands before ((x - 1)/2)^k in the polynomial of degree n; zero outside 0..n */
  ghost function Coefficient(n: nat, k: int, alpha: real, beta: real): real {
    if k < 0 || k > n then 0.0
    else
      FactorialPositive(n - k); FactorialPositive(k);
      Quotient(Rising(alpha + k as real + 1.0, n - k) * Rising(n as real + (alpha + beta) + 1.0, k), Factorial(n - k), Factorial(k))
  }

  ghost function Quotient(a: real, f: real, g: real): real
    requires f > 0.0 && g > 0.0
  {
    a / (f * g)
  }

  /** c_0 + c_1 y + c_2 y^2 + ..., term by term */
  ghost function Series(c: int -> real, y: real): Vector { i => if i < 0 then 0.0 else c(i) * Power(y, i) }

  ghost function Coefficients(n: nat, alpha: real, beta: real): int -> real { k => Coefficient(n, k, alpha, beta) }

  ghost function ExplicitSum(n: nat, alpha: real, beta: real, y: real): real { Sum(n + 1, Series(Coefficients(n, alpha, beta), y)) }

  lemma {:induction false} RisingFront(a: real, m: nat)
    ensures Rising(a, m + 1) == a * Rising(a + 1.0, m)
  {
    if m > 0 {
      RisingFront(a, m - 1);
      FrontArithmetic(a, Rising(a + 1.0, m - 1), (m - 1) as real, m as real);
    } else {
      assert Rising(a, 1) == Rising(a, 0) * (a + 0.0);
    }
  }

  lemma FrontArithmetic(a: real, r: real, i: real, j: real)
    requires j == i + 1.0
    ensures (a * r) * (a + j) == a * (r * ((a + 1.0) + i))
  {
  }

  // ---------------------------------------------------------------------
  // Ratios of neighbouring coefficients
  // ---------------------------------------------------------------------

  lemma Cancel(a: real, b: real, c: real)
    requires c != 0.0 && a * c == b * c
    ensures a == b
  {
    assert (a - b) * c == 0.0;
  }

  lemma QuotientTimes(a: real, f: real, g: real, z: real)
    requires f > 0.0 && g > 0.0 && z == Quotient(a, f, g)
    ensures z * (f * g) == a && f * g > 0.0
  {
  }

  /** One more factor above and below: z = xy/(fg) and w = (x a)y'/((p f)g), where y' stands to y as s to e. */
  lemma UpRatio(z: real, w: real, x: real, y: real, y': real, f: real, g: real, p: real, a: real, s: real, e: real)
    requires f * g > 0.0 && z * (f * g) == x * y && w * ((p * f) * g) == (x * a) * y' && y' * s == y * e
    ensures (w * p) * s == z * (a * e)
  {
    var h := f * g;
    assert ((p * f) * g) == p * h;
    assert ((w * p) * s) * h == (w * (p * h)) * s;
    assert (w * (p * h)) * s == (x * a) * (y' * s);
    assert (x * a) * (y * e) == (x * y) * (a * e);
    assert (z * (a * e)) * h == (z * h) * (a * e);
    Cancel((w * p) * s, z * (a * e), h);
  }

  lemma DownRatio(z: real, w: real, x: real, y: real, y': real, f: real, g: real, g': real, p: real, u: real, k: real, e: real)
    requires f * g' > 0.0 && z * (f * g) == x * y && w * ((p * f) * g') == (u * x) * y' && y == y' * e && g == k * g'
    ensures (w * p) * e == z * (u * k)
  {
    var h := f * g';
    assert ((p * f) * g') == p * h && f * g == k * h;
    assert ((w * p) * e) * h == (w * (p * h)) * e;
    assert ((u * x) * y') * e == u * (x * (y' * e));
    assert (z * (u * k)) * h == u * (z * (k * h));
    Cancel((w * p) * e, z * (u * k), h);
  }

  /** The real numbers behind Coefficient(n, k) */
  ghost predicate IsCoefficient(n: nat, k: nat, alpha: real, beta: real, x: real, y: real, f: real, g: real, z: real) {
    && k <= n && x == Rising(alpha + k as real + 1.0, n - k) && y == Rising(n as real + (alpha + beta) + 1.0, k)
    && f == Factorial(n - k) && g == Factorial(k) && z == Coefficient(n, k, alpha, beta)
  }

  lemma Unfolded(n: nat, k: nat, alpha: real, beta: real, x: real, y: real, f: real, g: real, z: real)
    requires IsCoefficient(n, k, alpha, beta, x, y, f, g, z)
    ensures z * (f * g) == x * y && f > 0.0 && g > 0.0 && f * g > 0.0
  {
    FactorialPositive(n - k);
    FactorialPositive(k);
    QuotientTimes(x * y, f, g, z);
  }

  lemma RisingShift(a: real, m: nat, up: real, same: real)
    requires up == Rising(a + 1.0, m) && same == Rising(a, m)
    ensures up * a == same * (a + m as real)
  {
    RisingFront(a, m);
  }

  lemma RisingAt(a: real, b: real, m: nat)
    requires a == b
    ensures Rising(a, m) == Rising(b, m)
  {
  }

  lemma UpperNeighbour(n: nat, k: nat, alpha: real, beta: real, x: real, y': real, f: real, g: real, w: real)
    requires k < n && x == Rising(alpha + k as real + 1.0, n - 1 - k) && y' == Rising(n as real + (alpha + beta) + 1.0, k)
    requires f == Factorial(n - 1 - k) && g == Factorial(k) && w == Coefficient(n, k, alpha, beta)
    ensures w * (((n - k) as real * f) * g) == (x * (alpha + n as real)) * y'
  {
    LastFactors(alpha, n, k, x, f);
    Unfolded(n, k, alpha, beta, x * (alpha + n as real), y', (n - k) as real * f, g, w);
  }

  lemma RatioUp(n: nat, k: nat, alpha: real, beta: real)
    requires k < n
    ensures (Coefficient(n, k, alpha, beta) * (n - k) as real) * (n as real + (alpha + beta))
      == Coefficient(n - 1, k, alpha, beta) * ((alpha + n as real) * (n as real + (alpha + beta) + k as real))
  {
    var a, z, w := n as real + (alpha + beta), Coefficient(n - 1, k, alpha, beta), Coefficient(n, k, alpha, beta);
    var x, f, g := Rising(alpha + k as real + 1.0, n - 1 - k), Factorial(n - 1 - k), Factorial(k);
    var y, y' := Rising(a, k), Rising(a + 1.0, k);
    SameDegree(n, k, alpha, beta, x, y, f, g, z);
    UpperNeighbour(n, k, alpha, beta, x, y', f, g, w);
    RisingShift(a, k, y', y);
    UpRatio(z, w, x, y, y', f, g, (n - k) as real, alpha + n as real, a, a + k as real);
  }

  lemma LastFactors(alpha: real, n: nat, k: nat, x: real, f: real)
    requires k < n && x == Rising(alpha + k as real + 1.0, n - 1 - k) && f == Factorial(n - 1 - k)
    ensures Rising(alpha + k as real + 1.0, n - k) == x * (alpha + n as real) && Factorial(n - k) == (n - k) as real * f
  {
    assert alpha + k as real + 1.0 + (n - k - 1) as real == alpha + n as real;
  }

  /** Coefficient(n - 1, k) in the terms its neighbours share with it */
  lemma SameDegree(n: nat, k: nat, alpha: real, beta: real, x: real, y: real, f: real, g: real, z: real)
    requires k < n && x == Rising(alpha + k as real + 1.0, n - 1 - k) && y == Rising(n as real + (alpha + beta), k)
    requires f == Factorial(n - 1 - k) && g == Factorial(k) && z == Coefficient(n - 1, k, alpha, beta)
    ensures z * (f * g) == x * y && f > 0.0 && g > 0.0 && f * g > 0.0
  {
    RisingAt((n - 1) as real + (alpha + beta) + 1.0, n as real + (alpha + beta), k);
    Unfolded(n - 1, k, alpha, beta, x, y, f, g, z);
  }

  lemma LowerNeighbour(n: nat, k: nat, alpha: real, beta: real, x: real, y': real, f: real, g': real, w: real)
    requires 1 <= k < n && x == Rising(alpha + k as real + 1.0, n - 1 - k) && y' == Rising(n as real + (alpha + beta), k - 1)
    requires f == Factorial(n - 1 - k) && g' == Factorial(k - 1) && w == Coefficient(n - 1, k - 1, alpha, beta)
    ensures w * (((n - k) as real * f) * g') == ((alpha + k as real) * x) * y'
  {
    FrontFactor(n, k, alpha, x, f);
    SameDegree(n, k - 1, alpha, beta, (alpha + k as real) * x, y', (n - k) as real * f, g', w);
  }

  lemma FrontFactor(n: nat, k: nat, alpha: real, x: real, f: real)
    requires 1 <= k < n && x == Rising(alpha + k as real + 1.0, n - 1 - k) && f == Factorial(n - 1 - k)
    ensures Rising(alpha + (k - 1) as real + 1.0, n - 1 - (k - 1)) == (alpha + k as real) * x && Factorial(n - 1 - (k - 1)) == (n - k) as real * f
  {
    RisingFront(alpha + k as real, n - 1 - k);
    RisingAt(alpha + (k - 1) as real + 1.0, alpha + k as real, n - k);
  }

  lemma LastOf(a: real, k: nat, y: real, y': real, g: real, g': real)
    requires k >= 1 && y == Rising(a, k) && y' == Rising(a, k - 1) && g == Factorial(k) && g' == Factorial(k - 1)
    ensures y == y' * (a + k as real - 1.0) && g == k as real * g' && g' > 0.0
  {
    FactorialPositive(k - 1);
    assert a + (k - 1) as real == a + k as real - 1.0;
  }

  lemma RatioDown(n: nat, k: nat, alpha: real, beta: real)
    requires 1 <= k < n
    ensures (Coefficient(n - 1, k - 1, alpha, beta) * (n - k) as real) * (n as real + (alpha + beta) + k as real - 1.0)
      == Coefficient(n - 1, k, alpha, beta) * ((alpha + k as real) * k as real)
  {
    var a, z, w := n as real + (alpha + beta), Coefficient(n - 1, k, alpha, beta), Coefficient(n - 1, k - 1, alpha, beta);
    var x, f, g, g' := Rising(alpha + k as real + 1.0, n - 1 - k), Factorial(n - 1 - k), Factorial(k), Factorial(k - 1);
    var y, y' := Rising(a, k), Rising(a, k - 1);
    SameDegree(n, k, alpha, beta, x, y, f, g, z);
    LowerNeighbour(n, k, alpha, beta, x, y', f, g', w);
    LastOf(a, k, y, y', g, g');
    Positive(f, g');
    DownRatio(z, w, x, y, y', f, g, g', (n - k) as real, alpha + k as real, k as real, a + k as real - 1.0);
  }

  lemma Positive(a: real, b: real)
    requires a > 0.0 && b > 0.0
    ensures a * b > 0.0
  {
  }

  /** At k = 0 the common factor of `RatioUp` cancels. */
  lemma RatioBackZero(n: nat, alpha: real, beta: real)
    requires n >= 2
    ensures Coefficient(n - 2, 0, alpha, beta) * (alpha + n as real - 1.0) == Coefficient(n - 1, 0, alpha, beta) * (n - 1) as real
  {
    var z, v := Coefficient(n - 1, 0, alpha, beta), Coefficient(n - 2, 0, alpha, beta);
    var x, f := Rising(alpha + 0.0 + 1.0, n - 2), Factorial(n - 2);
    FirstCoefficient(n - 2, alpha, beta, x, f, v);
    LastFactors(alpha, n - 1, 0, x, f);
    FirstCoefficient(n - 1, alpha, beta, x * (alpha + (n - 1) as real), (n - 1) as real * f, z);
    ZeroRatio(z, v, x, f, (n - 1) as real, alpha + n as real - 1.0);
  }

  lemma FirstCoefficient(n: nat, alpha: real, beta: real, x: real, f: real, z: real)
    requires x == Rising(alpha + 0.0 + 1.0, n) && f == Factorial(n) && z == Coefficient(n, 0, alpha, beta)
    ensures z * f == x && f > 0.0
  {
    Unfolded(n, 0, alpha, beta, x, 1.0, f, 1.0, z);
  }

  lemma ZeroRatio(z: real, v: real, x: real, f: real, q: real, a: real)
    requires f > 0.0 && v * f == x && z * (q * f) == x * a
    ensures v * a == z * q
  {
    assert (v * a) * f == (v * f) * a && (z * q) * f == z * (q * f);
    Cancel(v * a, z * q, f);
  }

  lemma LastCoefficient(n: nat, alpha: real, beta: real, y: real, g: real, z: real)
    requires y == Rising(n as real + (alpha + beta) + 1.0, n) && g == Factorial(n) && z == Coefficient(n, n, alpha, beta)
    ensures z * g == y && g > 0.0
  {
    Unfolded(n, n, alpha, beta, 1.0, y, 1.0, g, z);
  }

  lemma RatioTop(n: nat, alpha: real, beta: real)
    requires n >= 1
    ensures (Coefficient(n, n, alpha, beta) * n as real) * (n as real + (alpha + beta))
      == Coefficient(n - 1, n - 1, alpha, beta) * ((2.0 * n as real + (alpha + beta) - 1.0) * (2.0 * n as real + (alpha + beta)))
  {
    var a, z, w := n as real + (alpha + beta), Coefficient(n - 1, n - 1, alpha, beta), Coefficient(n, n, alpha, beta);
    var y, r, y', g, g' := Rising(a, n - 1), Rising(a, n), Rising(a + 1.0, n), Factorial(n), Factorial(n - 1);
    RisingAt((n - 1) as real + (alpha + beta) + 1.0, a, n - 1);
    LastCoefficient(n - 1, alpha, beta, y, g', z);
    LastCoefficient(n, alpha, beta, y', g, w);
    RisingShift(a, n, y', r);
    LastOf(a, n, r, y, g, g');
    TopRatio(z, w, y, y', g', n as real, a, r, a + n as real - 1.0, a + n as real);
  }

  lemma TopRatio(z: real, w: real, y: real, y': real, g: real, n: real, a: real, r: real, e: real, e': real)
    requires g > 0.0 && z * g == y && w * (n * g) == y' && y' * a == r * e' && r == y * e
    ensures (w * n) * a == z * (e * e')
  {
    assert ((w * n) * a) * g == (w * (n * g)) * a;
    assert (y * e) * e' == y * (e * e');
    assert (z * (e * e')) * g == (z * g) * (e * e');
    Cancel((w * n) * a, z * (e * e'), g);
  }

  // ---------------------------------------------------------------------
  // The coefficients obey the recurrence
  // ---------------------------------------------------------------------

  // In the variables p = n - k, m = n + alpha + beta + k - 1 and u = alpha + k the recurrence,
  // times p m, is the identity X0 == X1 + X2 - X3 between these four polynomials.

  ghost predicate FourTerms(p: real, m: real, u: real, k: real, x0: real, x1: real, x2: real, x3: real) {
    && x0 == 2.0 * ((p + m - 1.0) * ((m + 1.0) * m)) * ((k + p) * (u + p))
    && x1 == (p + m) * (p * m) * ((p + m + 1.0) * (p + m - 1.0) + (2.0 * u - (m + 1.0 - p)) * ((m + 1.0 - p) - 2.0 * k))
    && x2 == 2.0 * ((p + m) * ((p + m + 1.0) * (p + m - 1.0))) * (u * k)
    && x3 == 2.0 * ((p + m + 1.0) * ((p - 1.0) * p)) * ((m - u) * (m - k))
  }

  lemma CoreIdentity(p: real, m: real, u: real, k: real)
    ensures 2.0 * ((p + m - 1.0) * ((m + 1.0) * m)) * ((k + p) * (u + p)) ==
      (p + m) * (p * m) * ((p + m + 1.0) * (p + m - 1.0) + (2.0 * u - (m + 1.0 - p)) * ((m + 1.0 - p) - 2.0 * k))
      + 2.0 * ((p + m) * ((p + m + 1.0) * (p + m - 1.0))) * (u * k) - 2.0 * ((p + m + 1.0) * ((p - 1.0) * p)) * ((m - u) * (m - k))
  {
  }

  lemma FourTermsBalance(p: real, m: real, u: real, k: real, x0: real, x1: real, x2: real, x3: real)
    requires FourTerms(p, m, u, k, x0, x1, x2, x3)
    ensures x0 == x1 + x2 - x3
  {
    CoreIdentity(p, m, u, k);
  }

  lemma Combine(w: real, x: real, y: real, v: real, g: real, z: real, w': real, x': real, y': real, v': real)
    requires g != 0.0 && w * g == z * w' && x * g == z * x' && y * g == z * y' && v * g == z * v' && w' == x' + y' - v'
    ensures w == x + y - v
  {
    assert z * w' == z * x' + z * y' - z * v';
    assert (x + y - v) * g == x * g + y * g - v * g;
    Cancel(w, x + y - v, g);
  }

  // Each term of the recurrence times p m, through its ratio to z

  lemma LeftFactors(p: real, m: real, kp: real, up: real, m1: real, t: real, ns: real, z: real, c: real, a: real, x: real)
    requires c * (p * ns) == z * (up * m1) && a == 2.0 * kp * ns * t && x == 2.0 * (t * (m1 * m)) * (kp * up)
    ensures (a * c) * (p * m) == z * x
  {
    assert (a * c) * (p * m) == (c * (p * ns)) * (2.0 * kp * t * m);
    assert (z * (up * m1)) * (2.0 * kp * t * m) == z * x;
  }

  lemma HereFactors(g: real, z: real, t: real, b: real, e: real, x: real)
    requires e == t * b && x == t * g * b
    ensures (e * z) * g == z * x
  {
  }

  lemma RightFactors(g: real, z: real, uk: real, t: real, q: real, c: real, e: real, x: real)
    requires c * g == z * uk && e == t * (2.0 * q) && x == 2.0 * (t * q) * uk
    ensures (e * c) * g == z * x
  {
    assert (e * c) * g == (c * g) * (2.0 * (t * q));
    assert (z * uk) * (2.0 * (t * q)) == z * x;
  }

  lemma BackFactors(p: real, m: real, up1: real, mu: real, mk: real, p1: real, t: real, z: real, c: real, a: real, x: real)
    requires c * (up1 * m) == z * (p1 * mk) && a == 2.0 * up1 * mu * t && x == 2.0 * (t * (p1 * p)) * (mu * mk)
    ensures (a * c) * (p * m) == z * x
  {
    assert (a * c) * (p * m) == (c * (up1 * m)) * (2.0 * mu * t * p);
    assert (z * (p1 * mk)) * (2.0 * mu * t * p) == z * x;
  }

  lemma LeftTerm(p: real, m: real, u: real, k: real, ns: real, z: real, c: real, a: real, x: real)
    requires c * (p * ns) == z * ((u + p) * (m + 1.0)) && a == 2.0 * (k + p) * ns * (p + m - 1.0)
    requires x == 2.0 * ((p + m - 1.0) * ((m + 1.0) * m)) * ((k + p) * (u + p))
    ensures (a * c) * (p * m) == z * x
  {
    LeftFactors(p, m, k + p, u + p, m + 1.0, p + m - 1.0, ns, z, c, a, x);
  }

  lemma HereTerm(p: real, m: real, u: real, k: real, z: real, e: real, x: real)
    requires e == (p + m) * ((p + m + 1.0) * (p + m - 1.0) + (2.0 * u - (m + 1.0 - p)) * ((m + 1.0 - p) - 2.0 * k))
    requires x == (p + m) * (p * m) * ((p + m + 1.0) * (p + m - 1.0) + (2.0 * u - (m + 1.0 - p)) * ((m + 1.0 - p) - 2.0 * k))
    ensures (e * z) * (p * m) == z * x
  {
    HereFactors(p * m, z, p + m, (p + m + 1.0) * (p + m - 1.0) + (2.0 * u - (m + 1.0 - p)) * ((m + 1.0 - p) - 2.0 * k), e, x);
  }

  lemma RightTerm(p: real, m: real, u: real, k: real, z: real, c: real, e: real, x: real)
    requires c * (p * m) == z * (u * k) && e == (p + m) * (2.0 * ((p + m + 1.0) * (p + m - 1.0)))
    requires x == 2.0 * ((p + m) * ((p + m + 1.0) * (p + m - 1.0))) * (u * k)
    ensures (e * c) * (p * m) == z * x
  {
    RightFactors(p * m, z, u * k, p + m, (p + m + 1.0) * (p + m - 1.0), c, e, x);
  }

  lemma BackTerm(p: real, m: real, u: real, k: real, z: real, c: real, a: real, x: real)
    requires c * ((u + p - 1.0) * m) == z * ((p - 1.0) * (m - k)) && a == 2.0 * (u + p - 1.0) * (m - u) * (p + m + 1.0)
    requires x == 2.0 * ((p + m + 1.0) * ((p - 1.0) * p)) * ((m - u) * (m - k))
    ensures (a * c) * (p * m) == z * x
  {
    BackFactors(p, m, u + p - 1.0, m - u, m - k, p - 1.0, p + m + 1.0, z, c, a, x);
  }

  /** The recurrence's own coefficients in these variables */
  ghost predicate InVariables(p: real, m: real, u: real, k: real, ns: real, a: real, e1: real, e2: real, c: real) {
    && a == 2.0 * (k + p) * ns * (p + m - 1.0)
    && e1 == (p + m) * ((p + m + 1.0) * (p + m - 1.0) + (2.0 * u - (m + 1.0 - p)) * ((m + 1.0 - p) - 2.0 * k))
    && e2 == (p + m) * (2.0 * ((p + m + 1.0) * (p + m - 1.0))) && c == 2.0 * (u + p - 1.0) * (m - u) * (p + m + 1.0)
  }

  lemma MiddleStep(p: real, m: real, u: real, k: real, ns: real, z: real, c0: real, c1: real, c2: real, a: real, e1: real, e2: real, c: real)
    requires p > 0.0 && m > 0.0 && InVariables(p, m, u, k, ns, a, e1, e2, c)
    requires c0 * (p * ns) == z * ((u + p) * (m + 1.0)) && c1 * (p * m) == z * (u * k) && c2 * ((u + p - 1.0) * m) == z * ((p - 1.0) * (m - k))
    ensures a * c0 == e1 * z + e2 * c1 - c * c2
  {
    MiddleTerms(p, m, u, k, ns, z, c0, c1, c2, a, e1, e2, c,
                2.0 * ((p + m - 1.0) * ((m + 1.0) * m)) * ((k + p) * (u + p)),
                (p + m) * (p * m) * ((p + m + 1.0) * (p + m - 1.0) + (2.0 * u - (m + 1.0 - p)) * ((m + 1.0 - p) - 2.0 * k)),
                2.0 * ((p + m) * ((p + m + 1.0) * (p + m - 1.0))) * (u * k), 2.0 * ((p + m + 1.0) * ((p - 1.0) * p)) * ((m - u) * (m - k)));
  }

  lemma MiddleTerms(p: real, m: real, u: real, k: real, ns: real, z: real, c0: real, c1: real, c2: real, a: real, e1: real, e2: real, c: real,
                    x0: real, x1: real, x2: real, x3: real)
    requires p > 0.0 && m > 0.0 && FourTerms(p, m, u, k, x0, x1, x2, x3) && InVariables(p, m, u, k, ns, a, e1, e2, c)
    requires c0 * (p * ns) == z * ((u + p) * (m + 1.0)) && c1 * (p * m) == z * (u * k) && c2 * ((u + p - 1.0) * m) == z * ((p - 1.0) * (m - k))
    ensures a * c0 == e1 * z + e2 * c1 - c * c2
  {
    LeftTerm(p, m, u, k, ns, z, c0, a, x0);
    HereTerm(p, m, u, k, z, e1, x1);
    RightTerm(p, m, u, k, z, c1, e2, x2);
    BackTerm(p, m, u, k, z, c2, c, x3);
    FourTermsBalance(p, m, u, k, x0, x1, x2, x3);
    Positive(p, m);
    Combine(a * c0, e1 * z, e2 * c1, c * c2, p * m, z, x0, x1, x2, x3);
  }

  /** The case k = 0 of the identity, where a factor m may vanish and has been cancelled */
  lemma CoreAtZero(p: real, m: real, u: real)
    ensures 2.0 * ((p + m - 1.0) * ((u + p) * (m + 1.0))) ==
      (p + m) * ((p + m + 1.0) * (p + m - 1.0) + (2.0 * u - (m + 1.0 - p)) * ((m + 1.0 - p) - 2.0 * 0.0)) - 2.0 * ((m - u) * ((p + m + 1.0) * (p - 1.0)))
  {
  }

  lemma TwoTermsBalance(p: real, m: real, u: real, e1: real, x0: real, x3: real)
    requires e1 == (p + m) * ((p + m + 1.0) * (p + m - 1.0) + (2.0 * u - (m + 1.0 - p)) * ((m + 1.0 - p) - 2.0 * 0.0))
    requires x0 == (p + m - 1.0) * ((u + p) * (m + 1.0)) && x3 == (m - u) * ((p + m + 1.0) * (p - 1.0))
    ensures 2.0 * x0 == e1 - 2.0 * x3
  {
    CoreAtZero(p, m, u);
  }

  // The recurrence, with B(x) split at x = 1 + 2y into a constant and a multiple of y

  ghost function AtConstant(n: nat, alpha: real, beta: real): real {
    var t := 2.0 * n as real + (alpha + beta);
    (t - 1.0) * (t * (t - 2.0) + (alpha * alpha - beta * beta))
  }

  ghost function AtShift(n: nat, alpha: real, beta: real): real {
    var t := 2.0 * n as real + (alpha + beta);
    (t - 1.0) * (2.0 * (t * (t - 2.0)))
  }

  ghost predicate Balanced(a: real, c0: real, e1: real, z: real, e2: real, c1: real, c: real, c2: real) {
    a * c0 == e1 * z + e2 * c1 - c * c2
  }

  ghost predicate Obeys(n: nat, k: int, alpha: real, beta: real)
    requires n >= 2
  {
    Balanced(ACoef(n, alpha, beta), Coefficient(n, k, alpha, beta), AtConstant(n, alpha, beta), Coefficient(n - 1, k, alpha, beta),
             AtShift(n, alpha, beta), Coefficient(n - 1, k - 1, alpha, beta), CCoef(n, alpha, beta), Coefficient(n - 2, k, alpha, beta))
  }

  /** Where the new variables stand for n, k, alpha and beta */
  ghost predicate StandFor(n: nat, k: nat, alpha: real, beta: real, p: real, m: real, u: real, r: real, ns: real) {
    r == k as real && p == n as real - r && m == n as real + (alpha + beta) + r - 1.0 && u == alpha + r && ns == n as real + (alpha + beta)
  }

  lemma SmallRatios(n: nat, k: nat, alpha: real, beta: real, p: real, m: real, u: real, r: real, ns: real, z: real, c0: real, c1: real, c2: real)
    requires n >= 2 && 1 <= k < n && StandFor(n, k, alpha, beta, p, m, u, r, ns)
    requires z == Coefficient(n - 1, k, alpha, beta) && c0 == Coefficient(n, k, alpha, beta)
    requires c1 == Coefficient(n - 1, k - 1, alpha, beta) && c2 == Coefficient(n - 2, k, alpha, beta)
    ensures c0 * (p * ns) == z * ((u + p) * (m + 1.0))
    ensures c1 * (p * m) == z * (u * r)
    ensures c2 * ((u + p - 1.0) * m) == z * ((p - 1.0) * (m - r))
  {
    UpRewritten(n, k, alpha, beta, p, m, u, ns, z, c0);
    DownRewritten(n, k, alpha, beta, p, m, u, r, z, c1);
    BackRewritten(n, k, alpha, beta, p, m, u, r, z, c2);
  }

  lemma Regroup(a: real, b: real, c: real)
    ensures (a * b) * c == a * (b * c)
  {
  }

  lemma UpRewritten(n: nat, k: nat, alpha: real, beta: real, p: real, m: real, u: real, ns: real, z: real, c0: real)
    requires k < n && p == (n - k) as real && m == n as real + (alpha + beta) + k as real - 1.0 && u == alpha + k as real && ns == n as real + (alpha + beta)
    requires z == Coefficient(n - 1, k, alpha, beta) && c0 == Coefficient(n, k, alpha, beta)
    ensures c0 * (p * ns) == z * ((u + p) * (m + 1.0))
  {
    RatioUp(n, k, alpha, beta);
    Regroup(c0, p, ns);
    assert u + p == alpha + n as real && m + 1.0 == n as real + (alpha + beta) + k as real;
  }

  lemma DownRewritten(n: nat, k: nat, alpha: real, beta: real, p: real, m: real, u: real, r: real, z: real, c1: real)
    requires 1 <= k < n && r == k as real && p == (n - k) as real && m == n as real + (alpha + beta) + k as real - 1.0 && u == alpha + k as real
    requires z == Coefficient(n - 1, k, alpha, beta) && c1 == Coefficient(n - 1, k - 1, alpha, beta)
    ensures c1 * (p * m) == z * (u * r)
  {
    RatioDown(n, k, alpha, beta);
    Regroup(c1, p, m);
  }

  lemma BackRewritten(n: nat, k: nat, alpha: real, beta: real, p: real, m: real, u: real, r: real, z: real, c2: real)
    requires n >= 2 && 1 <= k < n && r == k as real && p == (n - k) as real && m == n as real + (alpha + beta) + k as real - 1.0 && u == alpha + k as real
    requires z == Coefficient(n - 1, k, alpha, beta) && c2 == Coefficient(n - 2, k, alpha, beta)
    ensures c2 * ((u + p - 1.0) * m) == z * ((p - 1.0) * (m - r))
  {
    if k == n - 1 {
      assert c2 == 0.0 && p - 1.0 == 0.0;
    } else {
      UpRewritten(n - 1, k, alpha, beta, p - 1.0, m - 1.0, u, m - r, c2, z);
      BackArithmetic(z, c2, p - 1.0, m - r, u + p - 1.0, m);
    }
  }

  lemma BackArithmetic(z: real, c: real, p: real, s: real, a: real, m: real)
    requires z * (p * s) == c * (a * m)
    ensures c * (a * m) == z * (p * s)
  {
  }

  lemma InNewVariables(n: nat, k: nat, alpha: real, beta: real, p: real, m: real, u: real, r: real, ns: real, a: real, e1: real, e2: real, c: real)
    requires n >= 2 && StandFor(n, k, alpha, beta, p, m, u, r, ns)
    requires a == ACoef(n, alpha, beta) && e1 == AtConstant(n, alpha, beta) && e2 == AtShift(n, alpha, beta) && c == CCoef(n, alpha, beta)
    ensures InVariables(p, m, u, r, ns, a, e1, e2, c)
  {
    var t := 2.0 * n as real + (alpha + beta);
    assert r + p == n as real && p + m - 1.0 == t - 2.0 && p + m == t - 1.0 && p + m + 1.0 == t;
    assert 2.0 * u - (m + 1.0 - p) == alpha - beta && (m + 1.0 - p) - 2.0 * r == alpha + beta;
    assert (alpha - beta) * (alpha + beta) == alpha * alpha - beta * beta;
    assert u + p - 1.0 == n as real + alpha - 1.0 && m - u == n as real + beta - 1.0;
  }

  lemma NoTerm(a: real, c: real)
    requires c == 0.0
    ensures a * c == 0.0
  {
  }

  lemma MiddleIn(n: nat, k: nat, alpha: real, beta: real, p: real, m: real, u: real, r: real, ns: real,
                 z: real, c0: real, c1: real, c2: real, a: real, e1: real, e2: real, c: real)
    requires n >= 2 && 1 <= k < n && ValidParams(alpha, beta) && StandFor(n, k, alpha, beta, p, m, u, r, ns)
    requires z == Coefficient(n - 1, k, alpha, beta) && c0 == Coefficient(n, k, alpha, beta)
    requires c1 == Coefficient(n - 1, k - 1, alpha, beta) && c2 == Coefficient(n - 2, k, alpha, beta)
    requires a == ACoef(n, alpha, beta) && e1 == AtConstant(n, alpha, beta) && e2 == AtShift(n, alpha, beta) && c == CCoef(n, alpha, beta)
    ensures Balanced(a, c0, e1, z, e2, c1, c, c2)
  {
    SmallRatios(n, k, alpha, beta, p, m, u, r, ns, z, c0, c1, c2);
    InNewVariables(n, k, alpha, beta, p, m, u, r, ns, a, e1, e2, c);
    MiddleStep(p, m, u, r, ns, z, c0, c1, c2, a, e1, e2, c);
  }

  lemma ObeysMiddle(n: nat, k: nat, alpha: real, beta: real)
    requires n >= 2 && 1 <= k < n && ValidParams(alpha, beta)
    ensures Obeys(n, k, alpha, beta)
  {
    var r, s := k as real, alpha + beta;
    MiddleIn(n, k, alpha, beta, n as real - r, n as real + s + r - 1.0, alpha + r, r, n as real + s,
             Coefficient(n - 1, k, alpha, beta), Coefficient(n, k, alpha, beta), Coefficient(n - 1, k - 1, alpha, beta), Coefficient(n - 2, k, alpha, beta),
             ACoef(n, alpha, beta), AtConstant(n, alpha, beta), AtShift(n, alpha, beta), CCoef(n, alpha, beta));
  }

  lemma ZeroStep(p: real, m: real, u: real, ns: real, z: real, c0: real, c2: real, a: real, e1: real, e2: real, c: real)
    requires InVariables(p, m, u, 0.0, ns, a, e1, e2, c)
    requires c0 * (p * ns) == z * ((u + p) * (m + 1.0)) && c2 * (u + p - 1.0) == z * (p - 1.0)
    ensures a * c0 == e1 * z - c * c2
  {
    ZeroTerms(p, m, u, ns, z, c0, c2, a, e1, e2, c, (p + m - 1.0) * ((u + p) * (m + 1.0)), (m - u) * ((p + m + 1.0) * (p - 1.0)));
  }

  lemma ZeroTerms(p: real, m: real, u: real, ns: real, z: real, c0: real, c2: real, a: real, e1: real, e2: real, c: real, x0: real, x3: real)
    requires InVariables(p, m, u, 0.0, ns, a, e1, e2, c)
    requires c0 * (p * ns) == z * ((u + p) * (m + 1.0)) && c2 * (u + p - 1.0) == z * (p - 1.0)
    requires x0 == (p + m - 1.0) * ((u + p) * (m + 1.0)) && x3 == (m - u) * ((p + m + 1.0) * (p - 1.0))
    ensures a * c0 == e1 * z - c * c2
  {
    ZeroLeftTerm(p, m, u, ns, z, c0, a, x0);
    ZeroBackTerm(p, m, u, z, c2, c, x3);
    TwoTermsBalance(p, m, u, e1, x0, x3);
    ZeroCombine(z, x0, e1, x3);
  }

  lemma ZeroLeftTerm(p: real, m: real, u: real, ns: real, z: real, c0: real, a: real, x: real)
    requires c0 * (p * ns) == z * ((u + p) * (m + 1.0)) && a == 2.0 * (0.0 + p) * ns * (p + m - 1.0) && x == (p + m - 1.0) * ((u + p) * (m + 1.0))
    ensures a * c0 == 2.0 * (z * x)
  {
    ZeroLeft(p, ns, p + m - 1.0, c0, z, (u + p) * (m + 1.0), a, x);
  }

  lemma ZeroBackTerm(p: real, m: real, u: real, z: real, c2: real, c: real, x: real)
    requires c2 * (u + p - 1.0) == z * (p - 1.0) && c == 2.0 * (u + p - 1.0) * (m - u) * (p + m + 1.0) && x == (m - u) * ((p + m + 1.0) * (p - 1.0))
    ensures c * c2 == 2.0 * (z * x)
  {
    ZeroBack(u + p - 1.0, m - u, p + m + 1.0, c2, z, p - 1.0, c, x);
  }

  lemma ZeroLeft(p: real, ns: real, t: real, c: real, z: real, v: real, a: real, x: real)
    requires c * (p * ns) == z * v && a == 2.0 * (0.0 + p) * ns * t && x == t * v
    ensures a * c == 2.0 * (z * x)
  {
    assert a * c == 2.0 * (t * (c * (p * ns)));
    assert t * (z * v) == z * x;
  }

  lemma ZeroBack(a: real, b: real, t: real, c: real, z: real, q: real, w: real, x: real)
    requires c * a == z * q && w == 2.0 * a * b * t && x == b * (t * q)
    ensures w * c == 2.0 * (z * x)
  {
    assert w * c == 2.0 * ((b * t) * (c * a));
    assert (b * t) * (z * q) == z * x;
  }

  lemma ZeroCombine(z: real, x: real, y: real, v: real)
    requires 2.0 * x == y - 2.0 * v
    ensures 2.0 * (z * x) == z * y - 2.0 * (z * v)
  {
    assert z * (2.0 * x) == z * (y - 2.0 * v);
  }

  lemma BackZeroIn(n: nat, alpha: real, beta: real, p: real, u: real, z: real, v: real, a: real, q: real)
    requires n >= 2 && z == Coefficient(n - 1, 0, alpha, beta) && v == Coefficient(n - 2, 0, alpha, beta)
    requires a == alpha + n as real - 1.0 && q == (n - 1) as real && u == alpha + 0.0 && p == n as real - 0.0
    ensures v * (u + p - 1.0) == z * (p - 1.0)
  {
    RatioBackZero(n, alpha, beta);
    SameProducts(v, a, u + p - 1.0);
    SameProducts(z, q, p - 1.0);
  }

  lemma SameProducts(c: real, a: real, b: real)
    requires a == b
    ensures c * a == c * b
  {
  }

  lemma ZeroIn(n: nat, alpha: real, beta: real, p: real, m: real, u: real, r: real, ns: real,
               z: real, c0: real, c1: real, c2: real, a: real, e1: real, e2: real, c: real)
    requires n >= 2 && ValidParams(alpha, beta) && StandFor(n, 0, alpha, beta, p, m, u, r, ns)
    requires z == Coefficient(n - 1, 0, alpha, beta) && c0 == Coefficient(n, 0, alpha, beta) && c2 == Coefficient(n - 2, 0, alpha, beta)
    requires a == ACoef(n, alpha, beta) && e1 == AtConstant(n, alpha, beta) && e2 == AtShift(n, alpha, beta) && c == CCoef(n, alpha, beta)
    requires c1 == 0.0
    ensures Balanced(a, c0, e1, z, e2, c1, c, c2)
  {
    UpRewritten(n, 0, alpha, beta, p, m, u, ns, z, c0);
    BackZeroIn(n, alpha, beta, p, u, z, c2, alpha + n as real - 1.0, (n - 1) as real);
    InNewVariables(n, 0, alpha, beta, p, m, u, r, ns, a, e1, e2, c);
    ZeroStep(p, m, u, ns, z, c0, c2, a, e1, e2, c);
    NoTerm(e2, c1);
  }

  lemma ObeysZero(n: nat, alpha: real, beta: real)
    requires n >= 2 && ValidParams(alpha, beta)
    ensures Obeys(n, 0, alpha, beta)
  {
    var s := alpha + beta;
    ZeroIn(n, alpha, beta, n as real - 0.0, n as real + s + 0.0 - 1.0, alpha + 0.0, 0.0, n as real + s,
           Coefficient(n - 1, 0, alpha, beta), Coefficient(n, 0, alpha, beta), Coefficient(n - 1, -1, alpha, beta), Coefficient(n - 2, 0, alpha, beta),
           ACoef(n, alpha, beta), AtConstant(n, alpha, beta), AtShift(n, alpha, beta), CCoef(n, alpha, beta));
  }

  lemma TopStep(n: real, ns: real, t: real, a: real, c0: real, e1: real, z: real, e2: real, c1: real, c: real, c2: real)
    requires (c0 * n) * ns == c1 * ((t - 1.0) * t) && a == 2.0 * n * ns * (t - 2.0) && e2 == (t - 1.0) * (2.0 * (t * (t - 2.0))) && z == 0.0 && c2 == 0.0
    ensures Balanced(a, c0, e1, z, e2, c1, c, c2)
  {
    assert a * c0 == (2.0 * (t - 2.0)) * ((c0 * n) * ns);
    assert (2.0 * (t - 2.0)) * (c1 * ((t - 1.0) * t)) == e2 * c1;
    NoTerm(e1, z);
    NoTerm(c, c2);
  }

  lemma ObeysTop(n: nat, alpha: real, beta: real)
    requires n >= 2
    ensures Obeys(n, n, alpha, beta)
  {
    RatioTop(n, alpha, beta);
    TopStep(n as real, n as real + (alpha + beta), 2.0 * n as real + (alpha + beta),
            ACoef(n, alpha, beta), Coefficient(n, n, alpha, beta), AtConstant(n, alpha, beta), Coefficient(n - 1, n, alpha, beta),
            AtShift(n, alpha, beta), Coefficient(n - 1, n - 1, alpha, beta), CCoef(n, alpha, beta), Coefficient(n - 2, n, alpha, beta));
  }

  lemma ObeysAll(n: nat, k: nat, alpha: real, beta: real)
    requires n >= 2 && k <= n && ValidParams(alpha, beta)
    ensures Obeys(n, k, alpha, beta)
  {
    if k == 0 { ObeysZero(n, alpha, beta); } else if k == n { ObeysTop(n, alpha, beta); } else { ObeysMiddle(n, k, alpha, beta); }
  }

  // ---------------------------------------------------------------------
  // The sums obey it too
  // ---------------------------------------------------------------------

  /** Every coefficient one power up */
  ghost function Up(c: int -> real): int -> real { i => c(i - 1) }

  lemma {:induction false} SeriesUp(c: int -> real, y: real, count: nat)
    requires c(-1) == 0.0
    ensures Sum(count + 1, Series(Up(c), y)) == y * Sum(count, Series(c, y))
  {
    if count == 0 {
      assert Sum(1, Series(Up(c), y)) == Sum(0, Series(Up(c), y)) + Series(Up(c), y)(0);
      NoTerm(Power(y, 0), c(-1));
    } else {
      SeriesUp(c, y, count - 1);
      SameProducts(c(count - 1), Power(y, count), y * Power(y, count - 1));
      ShiftArithmetic(y, c(count - 1), Power(y, count - 1), Sum(count - 1, Series(c, y)));
    }
  }

  lemma ShiftArithmetic(y: real, c: real, p: real, s: real)
    ensures y * s + c * (y * p) == y * (s + c * p)
  {
  }

  /** Past the last coefficient there is nothing to add. */
  lemma {:induction false} SeriesPad(c: int -> real, y: real, count: nat, more: nat)
    requires forall i :: i >= count ==> c(i) == 0.0
    ensures Sum(count + more, Series(c, y)) == Sum(count, Series(c, y))
  {
    if more > 0 {
      SeriesPad(c, y, count, more - 1);
      NoTerm(Power(y, count + more - 1), c(count + more - 1));
    }
  }

  lemma BalancedTimes(a: real, c0: real, e1: real, z: real, e2: real, c1: real, c: real, c2: real, q: real)
    requires Balanced(a, c0, e1, z, e2, c1, c, c2)
    ensures Balanced(a, c0 * q, e1, z * q, e2, c1 * q, c, c2 * q)
  {
    assert (a * c0) * q == (e1 * z + e2 * c1 - c * c2) * q;
  }

  lemma BalancedPlus(a: real, e1: real, e2: real, c: real, s0: real, s1: real, s2: real, s3: real, x0: real, x1: real, x2: real, x3: real)
    requires Balanced(a, s0, e1, s1, e2, s2, c, s3) && Balanced(a, x0, e1, x1, e2, x2, c, x3)
    ensures Balanced(a, s0 + x0, e1, s1 + x1, e2, s2 + x2, c, s3 + x3)
  {
  }

  lemma {:induction false} SeriesObey(count: nat, y: real, a: real, c0: int -> real, e1: real, c1: int -> real, e2: real, up: int -> real, c: real, c2: int -> real)
    requires forall i :: 0 <= i < count ==> Balanced(a, c0(i), e1, c1(i), e2, up(i), c, c2(i))
    ensures Balanced(a, Sum(count, Series(c0, y)), e1, Sum(count, Series(c1, y)), e2, Sum(count, Series(up, y)), c, Sum(count, Series(c2, y)))
  {
    if count > 0 {
      var i := count - 1;
      SeriesObey(i, y, a, c0, e1, c1, e2, up, c, c2);
      BalancedTimes(a, c0(i), e1, c1(i), e2, up(i), c, c2(i), Power(y, i));
      BalancedPlus(a, e1, e2, c, Sum(i, Series(c0, y)), Sum(i, Series(c1, y)), Sum(i, Series(up, y)), Sum(i, Series(c2, y)),
                   c0(i) * Power(y, i), c1(i) * Power(y, i), up(i) * Power(y, i), c2(i) * Power(y, i));
    }
  }

  /** The sums cut to the degrees they have */
  lemma SeriesTrim(n: nat, y: real, a: real, s0: real, e1: real, c1: int -> real, e2: real, c: real, c2: int -> real)
    requires n >= 2 && c1(-1) == 0.0 && (forall i :: i >= n ==> c1(i) == 0.0) && (forall i :: i >= n - 1 ==> c2(i) == 0.0)
    requires Balanced(a, s0, e1, Sum(n + 1, Series(c1, y)), e2, Sum(n + 1, Series(Up(c1), y)), c, Sum(n + 1, Series(c2, y)))
    ensures Balanced(a, s0, e1, Sum(n, Series(c1, y)), e2, y * Sum(n, Series(c1, y)), c, Sum(n - 1, Series(c2, y)))
  {
    SeriesPad(c1, y, n, 1);
    SeriesPad(c2, y, n - 1, 2);
    SeriesUp(c1, y, n);
    BalancedSame(a, s0, e1, Sum(n + 1, Series(c1, y)), e2, Sum(n + 1, Series(Up(c1), y)), c, Sum(n + 1, Series(c2, y)),
                 Sum(n, Series(c1, y)), y * Sum(n, Series(c1, y)), Sum(n - 1, Series(c2, y)));
  }

  lemma BalancedSame(a: real, s0: real, e1: real, s1: real, e2: real, u: real, c: real, s2: real, s1': real, u': real, s2': real)
    requires Balanced(a, s0, e1, s1, e2, u, c, s2) && s1 == s1' && u == u' && s2 == s2'
    ensures Balanced(a, s0, e1, s1', e2, u', c, s2')
  {
  }

  lemma ObeysAt(n: nat, i: nat, alpha: real, beta: real, a: real, e1: real, e2: real, c: real)
    requires n >= 2 && i <= n && ValidParams(alpha, beta)
    requires a == ACoef(n, alpha, beta) && e1 == AtConstant(n, alpha, beta) && e2 == AtShift(n, alpha, beta) && c == CCoef(n, alpha, beta)
    ensures Balanced(a, Coefficients(n, alpha, beta)(i), e1, Coefficients(n - 1, alpha, beta)(i),
                     e2, Up(Coefficients(n - 1, alpha, beta))(i), c, Coefficients(n - 2, alpha, beta)(i))
  {
    ObeysAll(n, i, alpha, beta);
  }

  lemma NoTail(n: nat, alpha: real, beta: real)
    ensures Coefficients(n, alpha, beta)(-1) == 0.0 && forall i :: i >= n + 1 ==> Coefficients(n, alpha, beta)(i) == 0.0
  {
  }

  lemma SumsObey(n: nat, alpha: real, beta: real, y: real, a: real, e1: real, e2: real, c: real)
    requires n >= 2 && ValidParams(alpha, beta)
    requires a == ACoef(n, alpha, beta) && e1 == AtConstant(n, alpha, beta) && e2 == AtShift(n, alpha, beta) && c == CCoef(n, alpha, beta)
    ensures Balanced(a, ExplicitSum(n, alpha, beta, y), e1, ExplicitSum(n - 1, alpha, beta, y),
                     e2, y * ExplicitSum(n - 1, alpha, beta, y), c, ExplicitSum(n - 2, alpha, beta, y))
  {
    SumsObeyIn(n, alpha, beta, y, a, e1, e2, c, Coefficients(n, alpha, beta), Coefficients(n - 1, alpha, beta), Coefficients(n - 2, alpha, beta));
  }

  lemma UntrimmedObey(n: nat, alpha: real, beta: real, y: real, a: real, e1: real, e2: real, c: real, c0: int -> real, c1: int -> real, c2: int -> real)
    requires n >= 2 && ValidParams(alpha, beta)
    requires a == ACoef(n, alpha, beta) && e1 == AtConstant(n, alpha, beta) && e2 == AtShift(n, alpha, beta) && c == CCoef(n, alpha, beta)
    requires c0 == Coefficients(n, alpha, beta) && c1 == Coefficients(n - 1, alpha, beta) && c2 == Coefficients(n - 2, alpha, beta)
    ensures Balanced(a, Sum(n + 1, Series(c0, y)), e1, Sum(n + 1, Series(c1, y)), e2, Sum(n + 1, Series(Up(c1), y)), c, Sum(n + 1, Series(c2, y)))
  {
    forall i | 0 <= i < n + 1 ensures Balanced(a, c0(i), e1, c1(i), e2, Up(c1)(i), c, c2(i)) { ObeysAt(n, i, alpha, beta, a, e1, e2, c); }
    SeriesObey(n + 1, y, a, c0, e1, c1, e2, Up(c1), c, c2);
  }

  lemma SumsObeyIn(n: nat, alpha: real, beta: real, y: real, a: real, e1: real, e2: real, c: real, c0: int -> real, c1: int -> real, c2: int -> real)
    requires n >= 2 && ValidParams(alpha, beta)
    requires a == ACoef(n, alpha, beta) && e1 == AtConstant(n, alpha, beta) && e2 == AtShift(n, alpha, beta) && c == CCoef(n, alpha, beta)
    requires c0 == Coefficients(n, alpha, beta) && c1 == Coefficients(n - 1, alpha, beta) && c2 == Coefficients(n - 2, alpha, beta)
    ensures Balanced(a, Sum(n + 1, Series(c0, y)), e1, Sum(n, Series(c1, y)), e2, y * Sum(n, Series(c1, y)), c, Sum(n - 1, Series(c2, y)))
  {
    UntrimmedObey(n, alpha, beta, y, a, e1, e2, c, c0, c1, c2);
    NoTail(n - 1, alpha, beta);
    NoTail(n - 2, alpha, beta);
    SeriesTrim(n, y, a, Sum(n + 1, Series(c0, y)), e1, c1, e2, c, c2);
  }

  // ---------------------------------------------------------------------
  // What `jacobi_value` computes
  // ---------------------------------------------------------------------

  lemma BAtShift(n: nat, alpha: real, beta: real, x: real, y: real)
    requires x == 1.0 + 2.0 * y
    ensures BCoef(n, alpha, beta, x) == AtConstant(n, alpha, beta) + AtShift(n, alpha, beta) * y
  {
    var t := 2.0 * n as real + (alpha + beta);
    BArithmetic(t - 1.0, t * (t - 2.0), alpha * alpha, beta * beta, x, y);
  }

  lemma BArithmetic(u: real, v: real, a: real, b: real, x: real, y: real)
    requires x == 1.0 + 2.0 * y
    ensures u * (v * x + a - b) == u * (v + (a - b)) + (u * (2.0 * v)) * y
  {
  }

  lemma StepIsQuotient(b: real, c: real, a: real, p1: real, p2: real, r: real, s: real, e1: real, e2: real, y: real)
    requires a > 0.0 && r == (b * p1 - c * p2) / a && b == e1 + e2 * y && Balanced(a, s, e1, p1, e2, y * p1, c, p2)
    ensures r == s
  {
    assert r * a == b * p1 - c * p2;
    assert (e1 + e2 * y) * p1 == e1 * p1 + e2 * (y * p1);
    Cancel(r, s, a);
  }

  lemma TwoTerms(c: int -> real, y: real)
    ensures Sum(1, Series(c, y)) == c(0) && Sum(2, Series(c, y)) == c(0) + c(1) * y
  {
    var f := Series(c, y);
    assert Sum(2, f) == Sum(1, f) + f(1) && Sum(1, f) == Sum(0, f) + f(0);
    assert Power(y, 1) == y * Power(y, 0) && Power(y, 0) == 1.0;
    assert f(0) == c(0) * Power(y, 0) && f(1) == c(1) * Power(y, 1);
  }

  lemma SmallCoefficients(alpha: real, beta: real)
    ensures Coefficient(0, 0, alpha, beta) == 1.0 && Coefficient(1, 0, alpha, beta) == alpha + 1.0 && Coefficient(1, 1, alpha, beta) == alpha + beta + 2.0
  {
    assert Rising(alpha + 0.0 + 1.0, 1) == Rising(alpha + 0.0 + 1.0, 0) * (alpha + 0.0 + 1.0 + 0.0);
    assert Rising(1.0 + (alpha + beta) + 1.0, 1) == Rising(1.0 + (alpha + beta) + 1.0, 0) * (1.0 + (alpha + beta) + 1.0 + 0.0);
    assert Factorial(1) == 1.0 * Factorial(0);
    FirstCoefficient(0, alpha, beta, 1.0, 1.0, Coefficient(0, 0, alpha, beta));
    FirstCoefficient(1, alpha, beta, alpha + 1.0, 1.0, Coefficient(1, 0, alpha, beta));
    LastCoefficient(1, alpha, beta, alpha + beta + 2.0, 1.0, Coefficient(1, 1, alpha, beta));
  }

  lemma FirstDegree(alpha: real, beta: real, x: real, y: real)
    requires x == 1.0 + 2.0 * y
    ensures P1(alpha, beta, x) == ExplicitSum(1, alpha, beta, y) && 1.0 == ExplicitSum(0, alpha, beta, y)
  {
    SmallCoefficients(alpha, beta);
    TwoTerms(Coefficients(1, alpha, beta), y);
    TwoTerms(Coefficients(0, alpha, beta), y);
    FirstArithmetic(alpha, beta, x, y);
  }

  lemma FirstArithmetic(alpha: real, beta: real, x: real, y: real)
    requires x == 1.0 + 2.0 * y
    ensures 0.5 * ((alpha + beta + 2.0) * x + (alpha - beta)) == (alpha + 1.0) + (alpha + beta + 2.0) * y
  {
  }

  /** The recurrence computes the Jacobi polynomial: for every degree and all alpha, beta > -1, its explicit sum in powers of (x - 1)/2. */
  lemma {:induction false} RecurrenceIsExplicitSum(n: nat, alpha: real, beta: real, x: real, y: real)
    requires ValidParams(alpha, beta) && x == 1.0 + 2.0 * y
    ensures JacobiP(n, alpha, beta, x) == ExplicitSum(n, alpha, beta, y)
  {
    if n <= 1 {
      FirstDegree(alpha, beta, x, y);
    } else {
      RecurrenceIsExplicitSum(n - 1, alpha, beta, x, y);
      RecurrenceIsExplicitSum(n - 2, alpha, beta, x, y);
      SumStep(n, alpha, beta, x, y, JacobiP(n - 1, alpha, beta, x), JacobiP(n - 2, alpha, beta, x));
    }
  }

  /** The first m coefficients, each with its own explicit polynomial */
  ghost function Combination(coeffs: seq<real>, m: nat, alpha: real, beta: real, y: real): real
    requires m <= |coeffs|
  {
    if m == 0 then 0.0 else Combination(coeffs, m - 1, alpha, beta, y) + coeffs[m - 1] * ExplicitSum(m - 1, alpha, beta, y)
  }

  /** What one pass over the coefficients evaluates */
  lemma {:induction false} PolyValueExplicit(coeffs: seq<real>, m: nat, alpha: real, beta: real, x: real, y: real)
    requires ValidParams(alpha, beta) && m <= |coeffs| && x == 1.0 + 2.0 * y
    ensures PolyValue(coeffs, m, alpha, beta, x) == Combination(coeffs, m, alpha, beta, y)
  {
    if m > 0 {
      PolyValueExplicit(coeffs, m - 1, alpha, beta, x, y);
      RecurrenceIsExplicitSum(m - 1, alpha, beta, x, y);
    }
  }

  /** The filter multiplies an eigenvector by the explicit polynomial at (x - 1)/2, x the image of the eigenvalue. */
  lemma FilterOnEigenvectorExplicit(adj: G.Adjacency, f: Filter, lambda: real, v: Vector, y: real)
    requires f.Valid() && L.Eigenpair(adj, lambda, v) && Affine(f, lambda, 1.0) == 1.0 + 2.0 * y
    ensures Multiple(|adj|, Filtered(adj, f, v, |f.coeffs|), Combination(f.coeffs, |f.coeffs|, f.alpha, f.beta, y), v)
  {
    FilterOnEigenvector(adj, f, lambda, v, |f.coeffs|);
    PolyValueExplicit(f.coeffs, |f.coeffs|, f.alpha, f.beta, Affine(f, lambda, 1.0), y);
  }

  lemma SumStep(n: nat, alpha: real, beta: real, x: real, y: real, p1: real, p2: real)
    requires n >= 2 && ValidParams(alpha, beta) && x == 1.0 + 2.0 * y
    requires p1 == ExplicitSum(n - 1, alpha, beta, y) && p2 == ExplicitSum(n - 2, alpha, beta, y)
    ensures Step(n, alpha, beta, x, p1, p2) == ExplicitSum(n, alpha, beta, y)
  {
    SumStepIn(n, alpha, beta, x, y, p1, p2, Step(n, alpha, beta, x, p1, p2), ExplicitSum(n, alpha, beta, y),
              ACoef(n, alpha, beta), BCoef(n, alpha, beta, x), CCoef(n, alpha, beta), AtConstant(n, alpha, beta), AtShift(n, alpha, beta));
  }

  lemma StepUnfolds(n: nat, alpha: real, beta: real, x: real, p1: real, p2: real, r: real, a: real, b: real, c: real)
    requires n >= 2 && ValidParams(alpha, beta) && r == Step(n, alpha, beta, x, p1, p2)
    requires a == ACoef(n, alpha, beta) && b == BCoef(n, alpha, beta, x) && c == CCoef(n, alpha, beta)
    ensures a > 0.0 && r == (b * p1 - c * p2) / a
  {
    DenominatorPositive(n, alpha, beta);
  }

  lemma SumStepIn(n: nat, alpha: real, beta: real, x: real, y: real, p1: real, p2: real, r: real, s: real, a: real, b: real, c: real, e1: real, e2: real)
    requires n >= 2 && ValidParams(alpha, beta) && x == 1.0 + 2.0 * y && r == Step(n, alpha, beta, x, p1, p2) && s == ExplicitSum(n, alpha, beta, y)
    requires p1 == ExplicitSum(n - 1, alpha, beta, y) && p2 == ExplicitSum(n - 2, alpha, beta, y)
    requires a == ACoef(n, alpha, beta) && b == BCoef(n, alpha, beta, x) && c == CCoef(n, alpha, beta)
    requires e1 == AtConstant(n, alpha, beta) && e2 == AtShift(n, alpha, beta)
    ensures r == s
  {
    StepUnfolds(n, alpha, beta, x, p1, p2, r, a, b, c);
    SumsObey(n, alpha, beta, y, a, e1, e2, c);
    BAtShift(n, alpha, beta, x, y);
    StepIsQuotient(b, c, a, p1, p2, r, s, e1, e2, y);
  }

  // ---------------------------------------------------------------------
  // Consequences
  // ---------------------------------------------------------------------

  /** (alpha + 1)/1 (alpha + 2)/2 ... (alpha + n)/n */
  ghost function ProductAtOne(n: nat, alpha: real): real {
    if n == 0 then 1.0 else ProductAtOne(n - 1, alpha) * ((alpha + n as real) / n as real)
  }

  lemma {:induction false} FirstIsProduct(n: nat, alpha: real, beta: real)
    ensures Coefficient(n, 0, alpha, beta) == ProductAtOne(n, alpha)
  {
    if n == 0 {
      SmallCoefficients(alpha, beta);
    } else {
      FirstIsProduct(n - 1, alpha, beta);
      var x, f := Rising(alpha + 0.0 + 1.0, n - 1), Factorial(n - 1);
      FirstCoefficient(n - 1, alpha, beta, x, f, Coefficient(n - 1, 0, alpha, beta));
      LastFactors(alpha, n, 0, x, f);
      FirstCoefficient(n, alpha, beta, x * (alpha + n as real), n as real * f, Coefficient(n, 0, alpha, beta));
      ProductStep(Coefficient(n - 1, 0, alpha, beta), Coefficient(n, 0, alpha, beta), x, f, alpha + n as real, n as real);
    }
  }

  lemma ProductStep(v: real, w: real, x: real, f: real, a: real, n: real)
    requires f > 0.0 && n > 0.0 && v * f == x && w * (n * f) == x * a
    ensures w == v * (a / n)
  {
    ZeroRatio(w, v, x, f, n, a);
    assert (v * (a / n)) * n == v * a;
    Cancel(w, v * (a / n), n);
  }

  lemma {:induction false} SeriesAtZero(c: int -> real, count: nat)
    requires count > 0
    ensures Sum(count, Series(c, 0.0)) == c(0)
  {
    if count == 1 {
      TwoTerms(c, 0.0);
    } else {
      SeriesAtZero(c, count - 1);
      assert Power(0.0, count - 1) == 0.0 * Power(0.0, count - 2);
      NoTerm(c(count - 1), Power(0.0, count - 1));
    }
  }

  /** At 1 the polynomial of degree n is the product of (alpha + j)/j for j = 1 to n. */
  lemma ValueAtOne(n: nat, alpha: real, beta: real)
    requires ValidParams(alpha, beta)
    ensures JacobiP(n, alpha, beta, 1.0) == ProductAtOne(n, alpha)
  {
    RecurrenceIsExplicitSum(n, alpha, beta, 1.0, 0.0);
    SeriesAtZero(Coefficients(n, alpha, beta), n + 1);
    FirstIsProduct(n, alpha, beta);
  }

  ghost function Sign(n: nat): real { if n % 2 == 0 then 1.0 else -1.0 }

  /** Mirroring x exchanges alpha and beta, with the sign of the degree. */
  lemma {:induction false} Mirror(n: nat, alpha: real, beta: real, x: real)
    requires ValidParams(alpha, beta)
    ensures JacobiP(n, alpha, beta, -x) == Sign(n) * JacobiP(n, beta, alpha, x)
  {
    if n == 1 {
      assert (alpha + beta + 2.0) * -x == -((alpha + beta + 2.0) * x);
    } else if n > 1 {
      Mirror(n - 1, alpha, beta, x);
      Mirror(n - 2, alpha, beta, x);
      MirrorStep(n, alpha, beta, x, JacobiP(n - 1, beta, alpha, x), JacobiP(n - 2, beta, alpha, x), Sign(n));
    }
  }

  lemma MirrorStep(n: nat, alpha: real, beta: real, x: real, p1: real, p2: real, s: real)
    requires n >= 2 && ValidParams(alpha, beta) && s * s == 1.0
    ensures Step(n, alpha, beta, -x, (-s) * p1, s * p2) == s * Step(n, beta, alpha, x, p1, p2)
  {
    var a, b, c := ACoef(n, beta, alpha), BCoef(n, beta, alpha, x), CCoef(n, beta, alpha);
    MirrorCoefficients(n, alpha, beta, x);
    StepUnfolds(n, beta, alpha, x, p1, p2, Step(n, beta, alpha, x, p1, p2), a, b, c);
    StepUnfolds(n, alpha, beta, -x, (-s) * p1, s * p2, Step(n, alpha, beta, -x, (-s) * p1, s * p2), a, -b, c);
    MirrorArithmetic(a, b, c, s, p1, p2);
  }

  lemma MirrorArithmetic(a: real, b: real, c: real, s: real, p1: real, p2: real)
    requires a > 0.0
    ensures ((-b) * ((-s) * p1) - c * (s * p2)) / a == s * ((b * p1 - c * p2) / a)
  {
    assert (-b) * ((-s) * p1) - c * (s * p2) == s * (b * p1 - c * p2);
    QuotientLinear(s, b * p1 - c * p2, 0.0, 0.0, a);
  }

  lemma MirrorCoefficients(n: nat, alpha: real, beta: real, x: real)
    ensures ACoef(n, alpha, beta) == ACoef(n, beta, alpha) && CCoef(n, alpha, beta) == CCoef(n, beta, alpha)
    ensures BCoef(n, alpha, beta, -x) == -BCoef(n, beta, alpha, x)
  {
    var t := 2.0 * n as real + (alpha + beta);
    assert 2.0 * n as real + (beta + alpha) == t;
    MirrorB(t - 1.0, t * (t - 2.0), alpha * alpha, beta * beta, x);
  }

  lemma MirrorB(u: real, v: real, a: real, b: real, x: real)
    ensures u * (v * -x + a - b) == -(u * (v * x + b - a))
  {
  }
}
