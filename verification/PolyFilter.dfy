/**
 Jacobi polynomials by the three-term recurrence (equation 18.9.2 of the NIST Digital
 Library of Mathematical Functions), evaluated at a number and, matrix-free, at the
 graph Laplacian.
 */
module PolyFilter {
  import opened Sums
  import opened Laplacian
  import G = Graph

  /** `check_params` */
  predicate ValidParams(alpha: real, beta: real) { alpha > -1.0 && beta > -1.0 }

  // The coefficients of step k, all sharing t = 2k + alpha + beta
  function ACoef(k: nat, alpha: real, beta: real): real {
    2.0 * k as real * (k as real + (alpha + beta)) * (2.0 * k as real + (alpha + beta) - 2.0)
  }
  function BCoef(k: nat, alpha: real, beta: real, x: real): real {
    var t := 2.0 * k as real + (alpha + beta);
    (t - 1.0) * (t * (t - 2.0) * x + alpha * alpha - beta * beta)
  }
  // BCoef split into the factor of x and the rest, as the vector filter needs it
  function BScale(k: nat, alpha: real, beta: real): real {
    var t := 2.0 * k as real + (alpha + beta);
    (t - 1.0) * (t * (t - 2.0))
  }
  function BConst(k: nat, alpha: real, beta: real): real {
    (2.0 * k as real + (alpha + beta) - 1.0) * (alpha * alpha - beta * beta)
  }
  function CCoef(k: nat, alpha: real, beta: real): real {
    2.0 * (k as real + alpha - 1.0) * (k as real + beta - 1.0) * (2.0 * k as real + (alpha + beta))
  }

  /** No step divides by zero. */
  lemma DenominatorPositive(k: nat, alpha: real, beta: real)
    requires ValidParams(alpha, beta) && k >= 2
    ensures ACoef(k, alpha, beta) > 0.0
  {
    ThreePositive(2.0 * k as real, k as real + (alpha + beta), 2.0 * k as real + (alpha + beta) - 2.0, ACoef(k, alpha, beta));
  }

  lemma ThreePositive(a: real, b: real, c: real, d: real)
    requires a > 0.0 && b > 0.0 && c > 0.0 && d == a * b * c
    ensures d > 0.0
  {
    assert a * b > 0.0;
    PositiveProduct(a * b, c, d);
  }

  /** One step of the recurrence from the two values before */
  function Step(k: nat, alpha: real, beta: real, x: real, prev1: real, prev2: real): real
    requires ValidParams(alpha, beta) && k >= 2
  {
    DenominatorPositive(k, alpha, beta);
    (BCoef(k, alpha, beta, x) * prev1 - CCoef(k, alpha, beta) * prev2) / ACoef(k, alpha, beta)
  }

  function P1(alpha: real, beta: real, x: real): real { 0.5 * ((alpha + beta + 2.0) * x + (alpha - beta)) }

  /** The degree-k Jacobi polynomial at x */
  ghost function JacobiP(k: nat, alpha: real, beta: real, x: real): real
    requires ValidParams(alpha, beta)
  {
    if k == 0 then 1.0
    else if k == 1 then P1(alpha, beta, x)
    else Step(k, alpha, beta, x, JacobiP(k - 1, alpha, beta, x), JacobiP(k - 2, alpha, beta, x))
  }

  function AddTerm(s: real, c: real, p: real): real { s + c * p }

  /** c_0 P_0(x) + c_1 P_1(x) + ..., over the first m coefficients */
  ghost function PolyValue(coeffs: seq<real>, m: nat, alpha: real, beta: real, x: real): real
    requires ValidParams(alpha, beta) && m <= |coeffs|
  {
    if m == 0 then 0.0 else AddTerm(PolyValue(coeffs, m - 1, alpha, beta, x), coeffs[m - 1], JacobiP(m - 1, alpha, beta, x))
  }

  lemma BSplits(k: nat, alpha: real, beta: real, x: real)
    ensures BCoef(k, alpha, beta, x) == BScale(k, alpha, beta) * x + BConst(k, alpha, beta)
  {
    var t := 2.0 * k as real + (alpha + beta);
    SplitArithmetic(t - 1.0, t * (t - 2.0), x, alpha * alpha, beta * beta);
  }

  lemma SplitArithmetic(u: real, v: real, x: real, a: real, b: real)
    ensures u * (v * x + a - b) == (u * v) * x + u * (a - b)
  {
  }

  /** `jacobi_value` */
  method JacobiValue(n: nat, alpha: real, beta: real, x: real) returns (p: real)
    requires ValidParams(alpha, beta)
    ensures p == JacobiP(n, alpha, beta, x)
  {
    if n == 0 { return 1.0; }
    var prev2, prev1 := 1.0, P1(alpha, beta, x);
    var k := 2;
    while k <= n
      invariant 2 <= k <= n + 1
      invariant prev1 == JacobiP(k - 1, alpha, beta, x) && prev2 == JacobiP(k - 2, alpha, beta, x)
    {
      var curr := Step(k, alpha, beta, x, prev1, prev2);
      prev2, prev1 := prev1, curr;
      k := k + 1;
    }
    return prev1;
  }

  /** `JacobiPoly::eval`: the coefficient-weighted sum in one pass */
  method Eval(coeffs: seq<real>, alpha: real, beta: real, x: real) returns (sum: real)
    requires ValidParams(alpha, beta) && |coeffs| > 0
    ensures sum == PolyValue(coeffs, |coeffs|, alpha, beta, x)
  {
    sum := coeffs[0];
    assert sum == PolyValue(coeffs, 1, alpha, beta, x);
    if |coeffs| == 1 { return; }
    var prev2, prev1 := 1.0, P1(alpha, beta, x);
    sum := AddTerm(sum, coeffs[1], prev1);
    var k := 2;
    while k < |coeffs|
      invariant 2 <= k <= |coeffs|
      invariant prev1 == JacobiP(k - 1, alpha, beta, x) && prev2 == JacobiP(k - 2, alpha, beta, x)
      invariant sum == PolyValue(coeffs, k, alpha, beta, x)
    {
      var curr := Step(k, alpha, beta, x, prev1, prev2);
      sum := AddTerm(sum, coeffs[k], curr);
      prev2, prev1 := prev1, curr;
      k := k + 1;
    }
  }

  // ---------------------------------------------------------------------
  // The same recurrence with the Laplacian in place of x
  // ---------------------------------------------------------------------

  datatype Filter = Filter(alpha: real, beta: real, coeffs: seq<real>, lambdaMin: real, lambdaMax: real) {
    predicate Valid() { ValidParams(alpha, beta) && |coeffs| > 0 && lambdaMin < lambdaMax }
  }

  /** The affine map of [lambdaMin, lambdaMax] onto [-1, 1], given the product with L and the entry itself */
  function Affine(f: Filter, lx: real, x: real): real
    requires f.Valid()
  {
    (2.0 * lx - (f.lambdaMax + f.lambdaMin) * x) / (f.lambdaMax - f.lambdaMin)
  }

  /** The ends of the interval go to -1 and 1; being linear, the map is determined by that. */
  lemma AffineMaps(f: Filter)
    requires f.Valid()
    ensures Affine(f, f.lambdaMin, 1.0) == -1.0 && Affine(f, f.lambdaMax, 1.0) == 1.0
  {
    var w := f.lambdaMax - f.lambdaMin;
    assert 2.0 * f.lambdaMin - (f.lambdaMax + f.lambdaMin) * 1.0 == -w && 2.0 * f.lambdaMax - (f.lambdaMax + f.lambdaMin) * 1.0 == w;
    OwnQuotient(w, w / w, (-w) / w);
  }

  lemma OwnQuotient(w: real, p: real, q: real)
    requires w > 0.0 && p == w / w && q == (-w) / w
    ensures p == 1.0 && q == -1.0
  {
    assert p * w == w && q * w == -w;
    assert (p - 1.0) * w == 0.0 && (q + 1.0) * w == 0.0;
  }

  function VectorP1(alpha: real, beta: real, mapped: real, v: real): real {
    0.5 * ((alpha + beta + 2.0) * mapped + (alpha - beta) * v)
  }

  function VectorStep(k: nat, alpha: real, beta: real, mapped: real, prev1: real, prev2: real): real
    requires ValidParams(alpha, beta) && k >= 2
  {
    DenominatorPositive(k, alpha, beta);
    (BScale(k, alpha, beta) * mapped + BConst(k, alpha, beta) * prev1 - CCoef(k, alpha, beta) * prev2) / ACoef(k, alpha, beta)
  }

  ghost function Mapped(adj: G.Adjacency, f: Filter, x: Vector): Vector
    requires f.Valid()
  {
    i => Affine(f, Times(|adj|, LaplacianOf(adj), x)(i), x(i))
  }

  ghost function First(f: Filter, mapped: Vector, v: Vector): Vector {
    i => VectorP1(f.alpha, f.beta, mapped(i), v(i))
  }

  ghost function Next(f: Filter, k: nat, mapped: Vector, p1: Vector, p2: Vector): Vector
    requires f.Valid() && k >= 2
  {
    i => VectorStep(k, f.alpha, f.beta, mapped(i), p1(i), p2(i))
  }

  ghost function PlusScaled(s: Vector, c: real, p: Vector): Vector { i => AddTerm(s(i), c, p(i)) }

  ghost function Zeros(): Vector { i => 0.0 }

  /** P_k of the mapped Laplacian, applied to v */
  ghost function VectorP(adj: G.Adjacency, f: Filter, v: Vector, k: nat): Vector
    requires f.Valid()
  {
    if k == 0 then v
    else if k == 1 then First(f, Mapped(adj, f, v), v)
    else Next(f, k, Mapped(adj, f, VectorP(adj, f, v, k - 1)), VectorP(adj, f, v, k - 1), VectorP(adj, f, v, k - 2))
  }

  /** The sum over the first m coefficients */
  ghost function Filtered(adj: G.Adjacency, f: Filter, v: Vector, m: nat): Vector
    requires f.Valid() && m <= |f.coeffs|
  {
    if m == 0 then Zeros() else PlusScaled(Filtered(adj, f, v, m - 1), f.coeffs[m - 1], VectorP(adj, f, v, m - 1))
  }

  // Each step is linear in the vectors it reads.

  lemma QuotientLinear(a: real, p: real, b: real, q: real, d: real)
    requires d != 0.0
    ensures (a * p + b * q) / d == a * (p / d) + b * (q / d)
  {
    assert (a * (p / d) + b * (q / d)) * d == a * p + b * q;
  }

  lemma AffineLinear(f: Filter, a: real, lx: real, x: real, b: real, ly: real, y: real, lz: real, z: real)
    requires f.Valid() && lz == a * lx + b * ly && z == a * x + b * y
    ensures Affine(f, lz, z) == a * Affine(f, lx, x) + b * Affine(f, ly, y)
  {
    var s := f.lambdaMax + f.lambdaMin;
    assert 2.0 * (a * lx + b * ly) - s * (a * x + b * y) == a * (2.0 * lx - s * x) + b * (2.0 * ly - s * y);
    QuotientLinear(a, 2.0 * lx - s * x, b, 2.0 * ly - s * y, f.lambdaMax - f.lambdaMin);
  }

  lemma ThreeTermLinear(r: real, s: real, t: real, a: real, m: real, p: real, q: real, b: real, m': real, p': real, q': real)
    ensures r * (a * m + b * m') + s * (a * p + b * p') - t * (a * q + b * q')
      == a * (r * m + s * p - t * q) + b * (r * m' + s * p' - t * q')
  {
    assert r * (a * m + b * m') == a * (r * m) + b * (r * m');
    assert s * (a * p + b * p') == a * (s * p) + b * (s * p');
    assert t * (a * q + b * q') == a * (t * q) + b * (t * q');
  }

  lemma StepLinear(k: nat, alpha: real, beta: real, a: real, m: real, p: real, q: real, b: real, m': real, p': real, q': real,
                   m'': real, p'': real, q'': real)
    requires ValidParams(alpha, beta) && k >= 2
    requires m'' == a * m + b * m' && p'' == a * p + b * p' && q'' == a * q + b * q'
    ensures VectorStep(k, alpha, beta, m'', p'', q'')
      == a * VectorStep(k, alpha, beta, m, p, q) + b * VectorStep(k, alpha, beta, m', p', q')
  {
    DenominatorPositive(k, alpha, beta);
    var r, s, t := BScale(k, alpha, beta), BConst(k, alpha, beta), CCoef(k, alpha, beta);
    ThreeTermLinear(r, s, t, a, m, p, q, b, m', p', q');
    QuotientLinear(a, r * m + s * p - t * q, b, r * m' + s * p' - t * q', ACoef(k, alpha, beta));
  }

  lemma P1Linear(alpha: real, beta: real, a: real, m: real, p: real, b: real, m': real, p': real, m'': real, p'': real)
    requires m'' == a * m + b * m' && p'' == a * p + b * p'
    ensures VectorP1(alpha, beta, m'', p'') == a * VectorP1(alpha, beta, m, p) + b * VectorP1(alpha, beta, m', p')
  {
    ThreeTermLinear(alpha + beta + 2.0, alpha - beta, 0.0, a, m, p, 0.0, b, m', p', 0.0);
  }

  /** On the first n entries z is a x + b y. */
  ghost predicate Combines(n: nat, z: Vector, a: real, x: Vector, b: real, y: Vector) {
    forall i :: 0 <= i < n ==> z(i) == a * x(i) + b * y(i)
  }

  lemma TimesLinear(n: nat, l: Matrix, z: Vector, a: real, x: Vector, b: real, y: Vector, i: int)
    requires Combines(n, z, a, x, b, y)
    ensures Times(n, l, z)(i) == a * Times(n, l, x)(i) + b * Times(n, l, y)(i)
  {
    DotCommutes(n, Row(l, i), z);
    DotCombine(n, a, x, b, y, z, Row(l, i));
    DotCommutes(n, Row(l, i), x);
    DotCommutes(n, Row(l, i), y);
  }

  lemma MappedLinear(adj: G.Adjacency, f: Filter, z: Vector, a: real, x: Vector, b: real, y: Vector)
    requires f.Valid() && Combines(|adj|, z, a, x, b, y)
    ensures Combines(|adj|, Mapped(adj, f, z), a, Mapped(adj, f, x), b, Mapped(adj, f, y))
  {
    var n, l := |adj|, LaplacianOf(adj);
    forall i | 0 <= i < n ensures Mapped(adj, f, z)(i) == a * Mapped(adj, f, x)(i) + b * Mapped(adj, f, y)(i) {
      TimesLinear(n, l, z, a, x, b, y, i);
      AffineLinear(f, a, Times(n, l, x)(i), x(i), b, Times(n, l, y)(i), y(i), Times(n, l, z)(i), z(i));
    }
  }

  lemma NextCombines(n: nat, f: Filter, k: nat, a: real, b: real, zm: Vector, z1: Vector, z2: Vector,
                     xm: Vector, x1: Vector, x2: Vector, ym: Vector, y1: Vector, y2: Vector)
    requires f.Valid() && k >= 2
    requires Combines(n, zm, a, xm, b, ym) && Combines(n, z1, a, x1, b, y1) && Combines(n, z2, a, x2, b, y2)
    ensures Combines(n, Next(f, k, zm, z1, z2), a, Next(f, k, xm, x1, x2), b, Next(f, k, ym, y1, y2))
  {
    forall i | 0 <= i < n ensures Next(f, k, zm, z1, z2)(i) == a * Next(f, k, xm, x1, x2)(i) + b * Next(f, k, ym, y1, y2)(i) {
      StepLinear(k, f.alpha, f.beta, a, xm(i), x1(i), x2(i), b, ym(i), y1(i), y2(i), zm(i), z1(i), z2(i));
    }
  }

  lemma FirstCombines(n: nat, f: Filter, a: real, b: real, zm: Vector, z: Vector, xm: Vector, x: Vector, ym: Vector, y: Vector)
    requires Combines(n, zm, a, xm, b, ym) && Combines(n, z, a, x, b, y)
    ensures Combines(n, First(f, zm, z), a, First(f, xm, x), b, First(f, ym, y))
  {
    forall i | 0 <= i < n ensures First(f, zm, z)(i) == a * First(f, xm, x)(i) + b * First(f, ym, y)(i) {
      P1Linear(f.alpha, f.beta, a, xm(i), x(i), b, ym(i), y(i), zm(i), z(i));
    }
  }

  lemma {:induction false} VectorPLinear(adj: G.Adjacency, f: Filter, z: Vector, a: real, x: Vector, b: real, y: Vector, k: nat)
    requires f.Valid() && Combines(|adj|, z, a, x, b, y)
    ensures Combines(|adj|, VectorP(adj, f, z, k), a, VectorP(adj, f, x, k), b, VectorP(adj, f, y, k))
  {
    var n := |adj|;
    if k == 1 {
      MappedLinear(adj, f, z, a, x, b, y);
      FirstCombines(n, f, a, b, Mapped(adj, f, z), z, Mapped(adj, f, x), x, Mapped(adj, f, y), y);
    } else if k > 1 {
      VectorPLinear(adj, f, z, a, x, b, y, k - 1);
      VectorPLinear(adj, f, z, a, x, b, y, k - 2);
      var z1, x1, y1 := VectorP(adj, f, z, k - 1), VectorP(adj, f, x, k - 1), VectorP(adj, f, y, k - 1);
      MappedLinear(adj, f, z1, a, x1, b, y1);
      NextCombines(n, f, k, a, b, Mapped(adj, f, z1), z1, VectorP(adj, f, z, k - 2),
                   Mapped(adj, f, x1), x1, VectorP(adj, f, x, k - 2), Mapped(adj, f, y1), y1, VectorP(adj, f, y, k - 2));
    }
  }

  lemma TermLinear(s: real, c: real, p: real, a: real, sx: real, px: real, b: real, sy: real, py: real)
    requires s == a * sx + b * sy && p == a * px + b * py
    ensures AddTerm(s, c, p) == a * AddTerm(sx, c, px) + b * AddTerm(sy, c, py)
  {
    assert c * (a * px + b * py) == a * (c * px) + b * (c * py);
  }

  lemma PlusScaledCombines(n: nat, c: real, a: real, b: real, zs: Vector, zp: Vector, xs: Vector, xp: Vector, ys: Vector, yp: Vector)
    requires Combines(n, zs, a, xs, b, ys) && Combines(n, zp, a, xp, b, yp)
    ensures Combines(n, PlusScaled(zs, c, zp), a, PlusScaled(xs, c, xp), b, PlusScaled(ys, c, yp))
  {
    forall i | 0 <= i < n ensures PlusScaled(zs, c, zp)(i) == a * PlusScaled(xs, c, xp)(i) + b * PlusScaled(ys, c, yp)(i) {
      TermLinear(zs(i), c, zp(i), a, xs(i), xp(i), b, ys(i), yp(i));
    }
  }

  /** The filter is linear. */
  lemma {:induction false} FilterIsLinear(adj: G.Adjacency, f: Filter, z: Vector, a: real, x: Vector, b: real, y: Vector, m: nat)
    requires f.Valid() && m <= |f.coeffs| && Combines(|adj|, z, a, x, b, y)
    ensures Combines(|adj|, Filtered(adj, f, z, m), a, Filtered(adj, f, x, m), b, Filtered(adj, f, y, m))
  {
    if m > 0 {
      FilterIsLinear(adj, f, z, a, x, b, y, m - 1);
      VectorPLinear(adj, f, z, a, x, b, y, m - 1);
      PlusScaledCombines(|adj|, f.coeffs[m - 1], a, b, Filtered(adj, f, z, m - 1), VectorP(adj, f, z, m - 1),
                         Filtered(adj, f, x, m - 1), VectorP(adj, f, x, m - 1), Filtered(adj, f, y, m - 1), VectorP(adj, f, y, m - 1));
    }
  }

  // ---------------------------------------------------------------------
  // On an eigenvector the filter is the scalar polynomial
  // ---------------------------------------------------------------------

  /** On the first n entries z is c v. */
  ghost predicate Multiple(n: nat, z: Vector, c: real, v: Vector) {
    forall i :: 0 <= i < n ==> z(i) == c * v(i)
  }

  lemma MultipleCombines(n: nat, z: Vector, c: real, v: Vector)
    ensures Multiple(n, z, c, v) <==> Combines(n, z, c, v, 0.0, v)
  {
  }

  lemma MappedEigen(adj: G.Adjacency, f: Filter, lambda: real, v: Vector)
    requires f.Valid() && Eigenpair(adj, lambda, v)
    ensures Multiple(|adj|, Mapped(adj, f, v), Affine(f, lambda, 1.0), v)
  {
    forall i | 0 <= i < |adj| ensures Mapped(adj, f, v)(i) == Affine(f, lambda, 1.0) * v(i) {
      AffineLinear(f, v(i), lambda, 1.0, 0.0, 0.0, 0.0, lambda * v(i), v(i));
    }
  }

  /** The vector step on multiples of v is the scalar step, times v. */
  lemma StepOnMultiples(k: nat, alpha: real, beta: real, x: real, p: real, q: real, v: real, m': real, p': real, q': real)
    requires ValidParams(alpha, beta) && k >= 2
    requires m' == p * (x * v) && p' == p * v && q' == q * v
    ensures VectorStep(k, alpha, beta, m', p', q') == Step(k, alpha, beta, x, p, q) * v
  {
    DenominatorPositive(k, alpha, beta);
    BSplits(k, alpha, beta, x);
    StepArithmetic(BScale(k, alpha, beta), BConst(k, alpha, beta), CCoef(k, alpha, beta), ACoef(k, alpha, beta),
                   x, p, q, v, BCoef(k, alpha, beta, x));
  }

  lemma StepArithmetic(r: real, s: real, t: real, d: real, x: real, p: real, q: real, v: real, b: real)
    requires b == r * x + s && d != 0.0
    ensures (r * (p * (x * v)) + s * (p * v) - t * (q * v)) / d == (b * p - t * q) / d * v
  {
    MultiplesArithmetic(r, s, t, x, p, q, v, b);
    QuotientLinear(v, b * p - t * q, 0.0, 0.0, d);
  }

  lemma MultiplesArithmetic(r: real, s: real, t: real, x: real, p: real, q: real, v: real, b: real)
    requires b == r * x + s
    ensures r * (p * (x * v)) + s * (p * v) - t * (q * v) == v * (b * p - t * q)
  {
    assert b * p == (r * x) * p + s * p;
    assert v * (b * p - t * q) == v * (b * p) - v * (t * q);
  }

  lemma P1OnMultiples(alpha: real, beta: real, x: real, v: real)
    ensures VectorP1(alpha, beta, x * v, v) == P1(alpha, beta, x) * v
  {
    assert (alpha + beta + 2.0) * (x * v) + (alpha - beta) * v == ((alpha + beta + 2.0) * x + (alpha - beta)) * v;
  }

  lemma NextMultiple(n: nat, f: Filter, k: nat, x: real, p: real, q: real, v: Vector, xv: Vector, m': Vector, p': Vector, q': Vector)
    requires f.Valid() && k >= 2
    requires Multiple(n, xv, x, v) && Multiple(n, m', p, xv) && Multiple(n, p', p, v) && Multiple(n, q', q, v)
    ensures Multiple(n, Next(f, k, m', p', q'), Step(k, f.alpha, f.beta, x, p, q), v)
  {
    forall i | 0 <= i < n ensures Next(f, k, m', p', q')(i) == Step(k, f.alpha, f.beta, x, p, q) * v(i) {
      StepOnMultiples(k, f.alpha, f.beta, x, p, q, v(i), m'(i), p'(i), q'(i));
    }
  }

  lemma FirstMultiple(n: nat, f: Filter, x: real, v: Vector, m': Vector)
    requires Multiple(n, m', x, v)
    ensures Multiple(n, First(f, m', v), P1(f.alpha, f.beta, x), v)
  {
    forall i | 0 <= i < n ensures First(f, m', v)(i) == P1(f.alpha, f.beta, x) * v(i) { P1OnMultiples(f.alpha, f.beta, x, v(i)); }
  }

  lemma MappedMultiple(adj: G.Adjacency, f: Filter, z: Vector, p: real, v: Vector)
    requires f.Valid() && Multiple(|adj|, z, p, v)
    ensures Multiple(|adj|, Mapped(adj, f, z), p, Mapped(adj, f, v))
  {
    MultipleCombines(|adj|, z, p, v);
    MappedLinear(adj, f, z, p, v, 0.0, v);
    MultipleCombines(|adj|, Mapped(adj, f, z), p, Mapped(adj, f, v));
  }

  lemma {:induction false} VectorPOnEigen(adj: G.Adjacency, f: Filter, lambda: real, v: Vector, k: nat)
    requires f.Valid() && Eigenpair(adj, lambda, v)
    ensures Multiple(|adj|, VectorP(adj, f, v, k), JacobiP(k, f.alpha, f.beta, Affine(f, lambda, 1.0)), v)
  {
    var x := Affine(f, lambda, 1.0);
    MappedEigen(adj, f, lambda, v);
    if k == 1 {
      FirstMultiple(|adj|, f, x, v, Mapped(adj, f, v));
    } else if k > 1 {
      VectorPOnEigen(adj, f, lambda, v, k - 1);
      VectorPOnEigen(adj, f, lambda, v, k - 2);
      var p, q, v1 := JacobiP(k - 1, f.alpha, f.beta, x), JacobiP(k - 2, f.alpha, f.beta, x), VectorP(adj, f, v, k - 1);
      MappedMultiple(adj, f, v1, p, v);
      NextMultiple(|adj|, f, k, x, p, q, v, Mapped(adj, f, v), Mapped(adj, f, v1), v1, VectorP(adj, f, v, k - 2));
    }
  }

  lemma PlusScaledMultiple(n: nat, s: Vector, c: real, p: Vector, v: Vector, sc: real, pc: real)
    requires Multiple(n, s, sc, v) && Multiple(n, p, pc, v)
    ensures Multiple(n, PlusScaled(s, c, p), AddTerm(sc, c, pc), v)
  {
    forall i | 0 <= i < n ensures PlusScaled(s, c, p)(i) == AddTerm(sc, c, pc) * v(i) { ScaledSum(sc, c, pc, v(i), s(i), p(i)); }
  }

  lemma ScaledSum(s: real, c: real, p: real, v: real, s': real, p': real)
    requires s' == s * v && p' == p * v
    ensures AddTerm(s', c, p') == AddTerm(s, c, p) * v
  {
  }

  /** If L v = lambda v, the filter returns p(x) v, where x is the affine image of lambda and p the scalar polynomial. */
  lemma {:induction false} FilterOnEigenvector(adj: G.Adjacency, f: Filter, lambda: real, v: Vector, m: nat)
    requires f.Valid() && Eigenpair(adj, lambda, v) && m <= |f.coeffs|
    ensures Multiple(|adj|, Filtered(adj, f, v, m), PolyValue(f.coeffs, m, f.alpha, f.beta, Affine(f, lambda, 1.0)), v)
  {
    if m > 0 {
      var x := Affine(f, lambda, 1.0);
      FilterOnEigenvector(adj, f, lambda, v, m - 1);
      VectorPOnEigen(adj, f, lambda, v, m - 1);
      PlusScaledMultiple(|adj|, Filtered(adj, f, v, m - 1), f.coeffs[m - 1], VectorP(adj, f, v, m - 1), v,
                         PolyValue(f.coeffs, m - 1, f.alpha, f.beta, x), JacobiP(m - 1, f.alpha, f.beta, x));
    }
  }

  // ---------------------------------------------------------------------
  // `ResolventFilter::apply`
  // ---------------------------------------------------------------------

  /** On the first |s| entries s lists v. */
  ghost predicate Lists(s: seq<real>, v: Vector) { forall i :: 0 <= i < |s| ==> s[i] == v(i) }

  lemma MappedLists(adj: G.Adjacency, f: Filter, s: seq<real>, v: Vector, i: int)
    requires f.Valid() && |s| == |adj| && Lists(s, v)
    ensures Times(|adj|, LaplacianOf(adj), AsVector(s))(i) == Times(|adj|, LaplacianOf(adj), v)(i)
  {
    DotExt(|adj|, Row(LaplacianOf(adj), i), AsVector(s), Row(LaplacianOf(adj), i), v);
  }

  method ApplyMapped(g: G.Graph, f: Filter, s: seq<real>, ghost v: Vector) returns (r: seq<real>)
    requires g.Valid() && f.Valid() && |s| == g.nodes && Lists(s, v)
    ensures |r| == g.nodes && Lists(r, Mapped(g.adjacency, f, v))
  {
    var ls := LaplacianMatvec(g, s);
    r := [];
    while |r| < |s|
      invariant |r| <= |s| && Lists(r, Mapped(g.adjacency, f, v))
    {
      var i := |r|;
      MappedLists(g.adjacency, f, s, v, i);
      r := r + [Affine(f, ls[i], s[i])];
    }
  }

  method AddScaled(s: seq<real>, c: real, p: seq<real>, ghost sv: Vector, ghost pv: Vector) returns (r: seq<real>)
    requires |s| == |p| && Lists(s, sv) && Lists(p, pv)
    ensures |r| == |s| && Lists(r, PlusScaled(sv, c, pv))
  {
    r := [];
    while |r| < |s|
      invariant |r| <= |s| && Lists(r, PlusScaled(sv, c, pv))
    {
      r := r + [AddTerm(s[|r|], c, p[|r|])];
    }
  }

  method FirstEntries(f: Filter, m: seq<real>, p: seq<real>, ghost mv: Vector, ghost pv: Vector) returns (r: seq<real>)
    requires |m| == |p| && Lists(m, mv) && Lists(p, pv)
    ensures |r| == |p| && Lists(r, First(f, mv, pv))
  {
    r := [];
    while |r| < |p|
      invariant |r| <= |p| && Lists(r, First(f, mv, pv))
    {
      r := r + [VectorP1(f.alpha, f.beta, m[|r|], p[|r|])];
    }
  }

  method NextEntries(f: Filter, k: nat, m: seq<real>, p: seq<real>, q: seq<real>, ghost mv: Vector, ghost pv: Vector, ghost qv: Vector)
    returns (r: seq<real>)
    requires f.Valid() && k >= 2 && |m| == |p| == |q| && Lists(m, mv) && Lists(p, pv) && Lists(q, qv)
    ensures |r| == |p| && Lists(r, Next(f, k, mv, pv, qv))
  {
    r := [];
    while |r| < |p|
      invariant |r| <= |p| && Lists(r, Next(f, k, mv, pv, qv))
    {
      r := r + [VectorStep(k, f.alpha, f.beta, m[|r|], p[|r|], q[|r|])];
    }
  }

  /** P_k(L) w from the two before */
  method NextP(f: Filter, g: G.Graph, k: nat, prev1: seq<real>, prev2: seq<real>, ghost w: Vector) returns (curr: seq<real>)
    requires f.Valid() && g.Valid() && k >= 2 && |prev1| == |prev2| == g.nodes
    requires Lists(prev1, VectorP(g.adjacency, f, w, k - 1)) && Lists(prev2, VectorP(g.adjacency, f, w, k - 2))
    ensures |curr| == g.nodes && Lists(curr, VectorP(g.adjacency, f, w, k))
  {
    ghost var p1, p2 := VectorP(g.adjacency, f, w, k - 1), VectorP(g.adjacency, f, w, k - 2);
    var mapped := ApplyMapped(g, f, prev1, p1);
    curr := NextEntries(f, k, mapped, prev1, prev2, Mapped(g.adjacency, f, p1), p1, p2);
  }

  method FirstP(f: Filter, g: G.Graph, v: seq<real>, ghost w: Vector) returns (curr: seq<real>)
    requires f.Valid() && g.Valid() && |v| == g.nodes && Lists(v, w)
    ensures |curr| == g.nodes && Lists(curr, VectorP(g.adjacency, f, w, 1))
  {
    var mapped := ApplyMapped(g, f, v, w);
    curr := FirstEntries(f, mapped, v, Mapped(g.adjacency, f, w), w);
  }

  /** The loop returns the coefficient-weighted sum of P_k(L) v. */
  method Apply(f: Filter, g: G.Graph, v: seq<real>) returns (sum: seq<real>)
    requires f.Valid() && g.Valid() && |v| == g.nodes
    ensures |sum| == |v| && Lists(sum, Filtered(g.adjacency, f, AsVector(v), |f.coeffs|))
  {
    ghost var adj, w := g.adjacency, AsVector(v);
    var zeros := seq(|v|, i => 0.0);
    sum := AddScaled(zeros, f.coeffs[0], v, Zeros(), w);
    assert Lists(sum, Filtered(adj, f, w, 1));
    if |f.coeffs| == 1 { return; }
    var prev1 := FirstP(f, g, v, w);
    sum := AddScaled(sum, f.coeffs[1], prev1, Filtered(adj, f, w, 1), VectorP(adj, f, w, 1));
    sum := AddHigher(f, g, v, w, prev1, sum);
  }

  /** The terms from degree two on */
  method AddHigher(f: Filter, g: G.Graph, v: seq<real>, ghost w: Vector, first: seq<real>, low: seq<real>) returns (sum: seq<real>)
    requires f.Valid() && g.Valid() && |v| == |first| == |low| == g.nodes && |f.coeffs| >= 2 && Lists(v, w)
    requires Lists(first, VectorP(g.adjacency, f, w, 1)) && Lists(low, Filtered(g.adjacency, f, w, 2))
    ensures |sum| == |v| && Lists(sum, Filtered(g.adjacency, f, w, |f.coeffs|))
  {
    ghost var adj := g.adjacency;
    sum := low;
    var prev2, prev1 := v, first;
    var k := 2;
    while k < |f.coeffs|
      invariant 2 <= k <= |f.coeffs| && |prev1| == |prev2| == |sum| == |v|
      invariant Lists(prev1, VectorP(adj, f, w, k - 1)) && Lists(prev2, VectorP(adj, f, w, k - 2))
      invariant Lists(sum, Filtered(adj, f, w, k))
    {
      var curr := NextP(f, g, k, prev1, prev2, w);
      sum := AddScaled(sum, f.coeffs[k], curr, Filtered(adj, f, w, k), VectorP(adj, f, w, k));
      prev2, prev1 := prev1, curr;
      k := k + 1;
    }
  }
}
