/** `SpectralEmbedding::embed`: the Jacobi sweep on the Laplacian, in place on two matrices. */
module Embedding {
  import opened Sums
  import opened Jacobi
  import opened Laplacian
  import G = Graph

  /** The values held by a matrix at one moment */
  ghost function Entries(a: array2<real>): (t: seq<seq<real>>)
    reads a
    ensures |t| == a.Length0
    ensures forall i, j :: 0 <= i < a.Length0 && 0 <= j < a.Length1 ==> |t[i]| == a.Length1 && t[i][j] == a[i, j]
  {
    seq(a.Length0, i requires 0 <= i < a.Length0 reads a =>
      seq(a.Length1, j requires 0 <= j < a.Length1 reads a => a[i, j]))
  }

  ghost function AsMatrix(t: seq<seq<real>>): Matrix {
    (i, j) => if 0 <= i < |t| && 0 <= j < |t[i]| then t[i][j] else 0.0
  }

  ghost function View(a: array2<real>): Matrix
    reads a
  {
    AsMatrix(Entries(a))
  }

  ghost predicate IsSquare(a: array2<real>, n: nat) { a.Length0 == n && a.Length1 == n }

  /** Two matrices agree on the n x n block. */
  ghost predicate Agree(n: nat, m: Matrix, m': Matrix) {
    forall i, j :: 0 <= i < n && 0 <= j < n ==> m(i, j) == m'(i, j)
  }

  function Magnitude(x: real): (r: real)
    ensures r == Abs(x) && r >= 0.0
  {
    if x < 0.0 then -x else x
  }

  /** Some entry off the diagonal has this magnitude. */
  ghost predicate Attained(n: nat, m: Matrix, bound: real) { exists p, q :: 0 <= p < q < n && Abs(m(p, q)) == bound }

  /** The largest off-diagonal entry and where it is */
  method OffDiagonalMax(l: array2<real>, n: nat) returns (maxVal: real, p: nat, q: nat)
    requires n >= 2 && IsSquare(l, n)
    ensures p < q < n && maxVal == Abs(l[p, q])
    ensures forall i, j :: 0 <= i < j < n ==> Abs(l[i, j]) <= maxVal
    ensures Symmetric(n, View(l)) ==> BoundedOff(n, View(l), maxVal)
    ensures Attained(n, View(l), maxVal)
  {
    maxVal, p, q := 0.0, 0, 1;
    var found := false;
    var i: nat := 0;
    while i < n
      invariant i <= n && p < q < n && maxVal >= 0.0
      invariant if found then maxVal == Abs(l[p, q]) else maxVal == 0.0 && p == 0 && q == 1
      invariant forall a, b :: 0 <= a < i && a < b < n ==> Abs(l[a, b]) <= maxVal
    {
      var j: nat := i + 1;
      while j < n
        invariant i + 1 <= j && (i + 1 <= n ==> j <= n) && p < q < n && maxVal >= 0.0
        invariant if found then maxVal == Abs(l[p, q]) else maxVal == 0.0 && p == 0 && q == 1
        invariant forall a, b :: 0 <= a < i && a < b < n ==> Abs(l[a, b]) <= maxVal
        invariant forall b :: i < b < j ==> Abs(l[i, b]) <= maxVal
      {
        var v := Magnitude(l[i, j]);
        if v > maxVal { maxVal, p, q, found := v, i, j, true; }
        j := j + 1;
      }
      i := i + 1;
    }
    assert Abs(l[0, 1]) <= maxVal;
    UpperBoundsAll(n, View(l), maxVal);
    assert View(l)(p, q) == l[p, q];
  }

  ghost predicate IsSqrt(sqrt: real -> real) {
    forall x: real :: x >= 0.0 ==> sqrt(x) >= 0.0 && sqrt(x) * sqrt(x) == x
  }

  /** r is a square root of theta^2 + 1, t the smaller root of t^2 + 2 theta t - 1. */
  lemma SmallRoot(theta: real, r: real, d: real, t: real)
    requires r >= 0.0 && r * r == theta * theta + 1.0
    requires (theta >= 0.0 && d == theta + r && t * d == 1.0) || (theta < 0.0 && d == -theta + r && t * d == -1.0)
    ensures t * t + 2.0 * theta * t == 1.0
  {
    var u := if theta >= 0.0 then theta else -theta;
    assert d * d == 1.0 + 2.0 * u * d;
    assert (t * d) * (t * d) == 1.0;
    assert t * t * (d * d) == t * t + 2.0 * u * t * (t * d);
  }

  lemma RootPositive(theta: real, r: real)
    requires r >= 0.0 && r * r == theta * theta + 1.0
    ensures (theta >= 0.0 ==> theta + r > 0.0) && (theta < 0.0 ==> -theta + r > 0.0)
  {
    if r == 0.0 { assert r * r == 0.0; }
  }

  lemma PivotCancels(c: real, t: real, s: real, theta: real, lpp: real, lqq: real, lpq: real)
    requires s == t * c && lqq - lpp == 2.0 * lpq * theta && t * t + 2.0 * theta * t == 1.0
    ensures (c * c - s * s) * lpq + c * s * (lpp - lqq) == 0.0
  {
    var k := c * c * lpq;
    assert s * s == t * t * (c * c);
    calc {
      (c * c - s * s) * lpq + c * s * (lpp - lqq);
      k - t * t * k - 2.0 * theta * t * k;
      k * (1.0 - (t * t + 2.0 * theta * t));
      0.0;
    }
  }

  lemma TangentPositive(t: real, w: real)
    requires w >= 0.0 && w * w == 1.0 + t * t && t * t >= 0.0
    ensures w > 0.0
  {
  }

  lemma UnitFromTangent(c: real, w: real, t: real, s: real)
    requires w * c == 1.0 && w * w == 1.0 + t * t && s == t * c
    ensures Unit(c, s)
  {
    assert s * s == t * t * (c * c);
    assert (w * c) * (w * c) == w * w * (c * c);
    assert w * w * (c * c) == c * c + t * t * (c * c);
  }

  /** Cosine and sine of the rotation that zeroes the pivot */
  function JacobiCs(lpp: real, lqq: real, lpq: real, sqrt: real -> real): (cs: (real, real))
    requires lpq != 0.0 && IsSqrt(sqrt)
    ensures Unit(cs.0, cs.1)
    ensures (cs.0 * cs.0 - cs.1 * cs.1) * lpq + cs.0 * cs.1 * (lpp - lqq) == 0.0
  {
    var theta := (lqq - lpp) / (2.0 * lpq);
    var r := sqrt(theta * theta + 1.0);
    RootPositive(theta, r);
    var t := if theta >= 0.0 then 1.0 / (theta + r) else -1.0 / (-theta + r);
    SmallRoot(theta, r, if theta >= 0.0 then theta + r else -theta + r, t);
    SquareNonNegative(t);
    var w := sqrt(1.0 + t * t);
    TangentPositive(t, w);
    var c := 1.0 / w;
    UnitFromTangent(c, w, t, t * c);
    PivotCancels(c, t, t * c, theta, lpp, lqq, lpq);
    (c, t * c)
  }

  /** The matrix once the corner and the first k rows and columns have been rotated */
  ghost function Partly(m: Matrix, p: int, q: int, c: real, s: real, k: int): Matrix {
    (a, b) =>
      if ((a == p || a == q) && (b == p || b == q || b < k)) || ((b == p || b == q) && a < k)
      then Rotated(m, p, q, c, s)(a, b) else m(a, b)
  }

  ghost predicate Holds(l: array2<real>, n: nat, m: Matrix)
    requires IsSquare(l, n)
    reads l
  {
    forall a, b :: 0 <= a < n && 0 <= b < n ==> l[a, b] == m(a, b)
  }

  /** One turn of the rotation loop */
  method RotateAcross(l: array2<real>, n: nat, p: nat, q: nat, c: real, s: real, i: nat, ghost m: Matrix)
    requires IsSquare(l, n) && p < n && q < n && p != q && i < n && i != p && i != q
    requires Holds(l, n, Partly(m, p, q, c, s, i))
    modifies l
    ensures Holds(l, n, Partly(m, p, q, c, s, i + 1))
  {
    var lip, liq := l[i, p], l[i, q];
    assert lip == m(i, p) && liq == m(i, q);
    var rp, rq := c * lip - s * liq, s * lip + c * liq;
    assert rp == Rotated(m, p, q, c, s)(i, p) && rq == Rotated(m, p, q, c, s)(i, q);
    assert rp == Rotated(m, p, q, c, s)(p, i) && rq == Rotated(m, p, q, c, s)(q, i);
    l[i, p] := rp;
    l[p, i] := l[i, p];
    l[i, q] := rq;
    l[q, i] := l[i, q];
  }

  /** `apply_jacobi_rotation_to_l`, in place */
  method ApplyRotation(l: array2<real>, n: nat, p: nat, q: nat, c: real, s: real)
    requires IsSquare(l, n) && p < n && q < n && p != q
    modifies l
    ensures Agree(n, View(l), Rotated(old(View(l)), p, q, c, s))
  {
    ghost var m := View(l);
    var lpp, lqq, lpq := l[p, p], l[q, q], l[p, q];
    assert lpp == m(p, p) && lqq == m(q, q) && lpq == m(p, q);
    l[p, p] := c * c * lpp - 2.0 * s * c * lpq + s * s * lqq;
    l[q, q] := s * s * lpp + 2.0 * s * c * lpq + c * c * lqq;
    l[p, q] := 0.0;
    l[q, p] := 0.0;
    assert l[p, p] == Rotated(m, p, q, c, s)(p, p) && l[q, q] == Rotated(m, p, q, c, s)(q, q);
    var i := 0;
    while i < n
      invariant 0 <= i <= n && Holds(l, n, Partly(m, p, q, c, s, i))
    {
      if i != p && i != q { RotateAcross(l, n, p, q, c, s, i, m); }
      i := i + 1;
    }
  }

  /** The accumulation loop of `embed`: every row of u is rotated. */
  method RotateRows(u: array2<real>, n: nat, p: nat, q: nat, c: real, s: real)
    requires IsSquare(u, n) && p < n && q < n && p != q
    modifies u
    ensures Agree(n, View(u), RotatedRows(old(View(u)), p, q, c, s))
  {
    ghost var m := View(u);
    var i := 0;
    while i < n
      invariant 0 <= i <= n
      invariant forall a, b :: 0 <= a < n && 0 <= b < n ==> u[a, b] == if a < i then RotatedRows(m, p, q, c, s)(a, b) else m(a, b)
    {
      var up, uq := u[i, p], u[i, q];
      u[i, p] := c * up - s * uq;
      u[i, q] := s * up + c * uq;
      i := i + 1;
    }
  }

  // ---------------------------------------------------------------------
  // The sweep
  // ---------------------------------------------------------------------

  /** After k rotations: still a decomposition of l0, with the off-diagonal mass down by the rate to the k. */
  ghost predicate Swept(n: nat, l0: Matrix, l: Matrix, u: Matrix, k: nat)
    requires n >= 2
  {
    Decomposes(n, l0, l, u) && Off(n, l) <= Power(Rate(n), k) * Off(n, l0)
  }

  lemma DecomposesExt(n: nat, l0: Matrix, l: Matrix, u: Matrix, l': Matrix, u': Matrix)
    requires Decomposes(n, l0, l, u) && Agree(n, l', l) && Agree(n, u', u)
    ensures Decomposes(n, l0, l', u')
  {
    SumExt(n, Diagonal(l'), Diagonal(l));
    forall i, j | 0 <= i < n && 0 <= j < n
      ensures Dot(n, Row(u', i), Row(u', j)) == Delta(i, j) && Dot(n, Column(u', i), Column(u', j)) == Delta(i, j)
    {
      DotExt(n, Row(u', i), Row(u', j), Row(u, i), Row(u, j));
      DotExt(n, Column(u', i), Column(u', j), Column(u, i), Column(u, j));
    }
    forall i, j | 0 <= i < n && 0 <= j < n ensures Form(n, l', Row(u', i), Row(u', j)) == l0(i, j) {
      FormExt(n, l', Row(u', i), Row(u', j), l, Row(u, i), Row(u, j));
    }
    forall i, a | 0 <= i < n && 0 <= a < n ensures Times(n, l0, Column(u', a))(i) == Times(n, l', Row(u', i))(a) {
      DotExt(n, Row(l0, i), Column(u', a), Row(l0, i), Column(u, a));
      DotExt(n, Row(l', a), Row(u', i), Row(l, a), Row(u, i));
    }
  }

  lemma OffExt(n: nat, l: Matrix, l': Matrix)
    requires Agree(n, l', l)
    ensures Off(n, l') == Off(n, l)
  {
    forall i | 0 <= i < n ensures OffRows(n, l')(i) == OffRows(n, l)(i) {
      SumExt(n, OffRow(l', i), OffRow(l, i));
    }
    SumExt(n, OffRows(n, l'), OffRows(n, l));
  }

  lemma RateNonNegative(n: nat)
    requires n >= 2
    ensures Rate(n) >= 0.0
  {
    PairsPositive(n);
    assert 2.0 / Pairs(n) * Pairs(n) == 2.0;
  }

  lemma PowerStep(rate: real, off: real, power: real, off0: real, next: real)
    requires rate >= 0.0 && off <= power * off0 && next <= rate * off
    ensures next <= (rate * power) * off0
  {
    assert rate * off <= rate * (power * off0);
  }

  lemma SweepStep(n: nat, l0: Matrix, l: Matrix, u: Matrix, k: nat, l': Matrix, u': Matrix, p: int, q: int, c: real, s: real)
    requires n >= 2 && Swept(n, l0, l, u, k) && Pivot(n, p, q) && BoundedOff(n, l, Abs(l(p, q)))
    requires Unit(c, s) && Annihilates(l, p, q, c, s)
    requires Agree(n, l', Rotated(l, p, q, c, s)) && Agree(n, u', RotatedRows(u, p, q, c, s))
    ensures Swept(n, l0, l', u', k + 1)
  {
    DecomposesKept(n, l0, l, u, p, q, c, s);
    DecomposesExt(n, l0, Rotated(l, p, q, c, s), RotatedRows(u, p, q, c, s), l', u');
    OffShrinks(n, l, p, q, c, s);
    OffExt(n, Rotated(l, p, q, c, s), l');
    RateNonNegative(n);
    PowerStep(Rate(n), Off(n, l), Power(Rate(n), k), Off(n, l0), Off(n, l'));
  }

  /** The largest entry above the diagonal of a symmetric matrix bounds all of them. */
  lemma UpperBoundsAll(n: nat, l: Matrix, bound: real)
    requires forall i, j :: 0 <= i < j < n ==> Abs(l(i, j)) <= bound
    ensures Symmetric(n, l) ==> BoundedOff(n, l, bound)
  {
    if Symmetric(n, l) {
      forall i, j | 0 <= i < n && 0 <= j < n && i != j ensures Abs(l(i, j)) <= bound {
        if i > j { assert Abs(l(j, i)) <= bound; }
      }
    }
  }

  method ChooseRotation(l: array2<real>, n: nat, p: nat, q: nat, sqrt: real -> real) returns (c: real, s: real)
    requires IsSquare(l, n) && p < n && q < n && l[p, q] != 0.0 && IsSqrt(sqrt)
    ensures Unit(c, s) && Annihilates(View(l), p, q, c, s)
  {
    var cs := JacobiCs(l[p, p], l[q, q], l[p, q], sqrt);
    c, s := cs.0, cs.1;
  }

  /** One iteration: rotate away the pivot, in both matrices. */
  method RotateOnce(l: array2<real>, u: array2<real>, n: nat, p: nat, q: nat, sqrt: real -> real, ghost l0: Matrix, ghost k: nat)
    requires n >= 2 && l != u && IsSquare(l, n) && IsSquare(u, n) && p < q < n && l[p, q] != 0.0 && IsSqrt(sqrt)
    requires Swept(n, l0, View(l), View(u), k) && BoundedOff(n, View(l), Abs(l[p, q]))
    modifies l, u
    ensures Swept(n, l0, View(l), View(u), k + 1)
  {
    ghost var m, w := View(l), View(u);
    var c, s := ChooseRotation(l, n, p, q, sqrt);
    ApplyRotation(l, n, p, q, c, s);
    RotateRows(u, n, p, q, c, s);
    SweepStep(n, l0, m, w, k, View(l), View(u), p, q, c, s);
  }

  /** k rotations bring the off-diagonal mass under twice the squared threshold. */
  ghost predicate Suffices(n: nat, l0: Matrix, epsilon: real, k: nat) {
    n >= 2 && Power(Rate(n), k) * Off(n, l0) < 2.0 * (epsilon * epsilon)
  }

  lemma OffRowNonNegative(n: nat, l: Matrix, i: int, j: int)
    requires 0 <= j < n
    ensures OffRows(n, l)(i) >= 0.0 && OffRow(l, i)(j) <= OffRows(n, l)(i)
  {
    var f := OffRow(l, i);
    var g: Vector := b => if b == j then 0.0 else f(b);
    forall b | 0 <= b < n ensures f(b) >= 0.0 && g(b) >= 0.0 { SquareNonNegative(l(i, b)); }
    SumNonNegative(n, f);
    SumNonNegative(n, g);
    SumOnePoint(n, f, g, j);
  }

  /** An entry counts twice in the off-diagonal mass of a symmetric matrix. */
  lemma EntryBelowOff(n: nat, l: Matrix, p: int, q: int)
    requires Symmetric(n, l) && Pivot(n, p, q)
    ensures 2.0 * (l(p, q) * l(p, q)) <= Off(n, l)
  {
    var f := OffRows(n, l);
    var g: Vector := i => if i == p || i == q then 0.0 else f(i);
    forall i | 0 <= i < n ensures g(i) >= 0.0 { OffRowNonNegative(n, l, i, 0); }
    SumNonNegative(n, g);
    SumTwoPoint(n, f, g, p, q);
    OffRowNonNegative(n, l, p, q);
    OffRowNonNegative(n, l, q, p);
  }

  lemma SquareOrder(a: real, b: real, x: real)
    requires 0.0 < b <= a && (x == a || x == -a)
    ensures b * b <= x * x
  {
    assert b * b <= a * b <= a * a;
  }

  /** While the largest entry is at or above the threshold, the rotations done so far do not suffice. */
  lemma NotYetEnough(n: nat, l0: Matrix, l: Matrix, u: Matrix, k: nat, p: int, q: int, maxVal: real, epsilon: real)
    requires n >= 2 && Swept(n, l0, l, u, k) && Pivot(n, p, q) && maxVal == Abs(l(p, q)) && 0.0 < epsilon <= maxVal
    ensures !Suffices(n, l0, epsilon, k)
  {
    EntryBelowOff(n, l, p, q);
    SquareOrder(maxVal, epsilon, l(p, q));
  }

  /** Bernoulli's inequality for the shrink factor */
  lemma {:induction false} PowerBound(d: real, k: nat)
    requires 0.0 <= d <= 1.0
    ensures 0.0 <= Power(1.0 - d, k) && Power(1.0 - d, k) * (1.0 + k as real * d) <= 1.0
  {
    if k > 0 {
      PowerBound(d, k - 1);
      BernoulliStep(Power(1.0 - d, k - 1), d, (k - 1) as real);
      assert (k - 1) as real + 1.0 == k as real;
    }
  }

  lemma BernoulliStep(p: real, d: real, m: real)
    requires 0.0 <= d <= 1.0 && p >= 0.0 && m >= 0.0 && p * (1.0 + m * d) <= 1.0
    ensures (1.0 - d) * p >= 0.0 && ((1.0 - d) * p) * (1.0 + (m + 1.0) * d) <= 1.0
  {
    var gain := (m + 1.0) * (d * d);
    assert (1.0 - d) * (1.0 + (m + 1.0) * d) == (1.0 + m * d) - gain;
    assert d * d >= 0.0;
    assert gain >= 0.0;
    assert p * gain >= 0.0;
    assert ((1.0 - d) * p) * (1.0 + (m + 1.0) * d) == p * ((1.0 - d) * (1.0 + (m + 1.0) * d));
    assert p * ((1.0 + m * d) - gain) == p * (1.0 + m * d) - p * gain;
  }

  /** A number of iterations that suffices, for any symmetric matrix and any threshold */
  lemma BudgetSuffices(n: nat, l0: Matrix, epsilon: real, k: nat)
    requires n >= 2 && epsilon > 0.0
    requires Off(n, l0) < 2.0 * (epsilon * epsilon) * (1.0 + k as real * (1.0 - Rate(n)))
    ensures Suffices(n, l0, epsilon, k)
  {
    PairsPositive(n);
    var d := 1.0 - Rate(n);
    ShareOfPairs(Pairs(n), d);
    assert 1.0 - d == Rate(n);
    PowerBound(d, k);
    PositiveProduct(epsilon, epsilon, epsilon * epsilon);
    BudgetArithmetic(Power(Rate(n), k), Off(n, l0), 2.0 * (epsilon * epsilon), 1.0 + k as real * d);
  }

  lemma ShareOfPairs(pairs: real, d: real)
    requires pairs >= 2.0 && d == 2.0 / pairs
    ensures 0.0 <= d <= 1.0
  {
    assert d * pairs == 2.0;
  }

  lemma BudgetArithmetic(p: real, off: real, e: real, b: real)
    requires p >= 0.0 && e > 0.0 && off < e * b && p * b <= 1.0
    ensures p * off < e
  {
    if p > 0.0 {
      assert p * off < p * (e * b);
      assert p * (e * b) == e * (p * b);
      assert e * (p * b) <= e;
    }
  }

  /** Fewer than k rotations never suffice. */
  ghost predicate NoneSuffice(n: nat, l0: Matrix, epsilon: real, k: nat) {
    forall enough: nat :: Suffices(n, l0, epsilon, enough) ==> k <= enough
  }

  lemma NoneSufficeMore(n: nat, l0: Matrix, epsilon: real, k: nat)
    requires NoneSuffice(n, l0, epsilon, k) && !Suffices(n, l0, epsilon, k)
    ensures NoneSuffice(n, l0, epsilon, k + 1)
  {
    forall enough: nat | Suffices(n, l0, epsilon, enough) ensures k + 1 <= enough { assert enough != k; }
  }

  /** One pass of the loop: stop, or rotate */
  method Iterate(l: array2<real>, u: array2<real>, n: nat, absEpsilon: real, sqrt: real -> real, ghost l0: Matrix, ghost k: nat)
    returns (converged: bool, ghost bound: real)
    requires n >= 2 && l != u && IsSquare(l, n) && IsSquare(u, n) && absEpsilon > 0.0 && IsSqrt(sqrt)
    requires Swept(n, l0, View(l), View(u), k) && NoneSuffice(n, l0, absEpsilon, k)
    modifies l, u
    ensures converged ==> bound < absEpsilon && BoundedOff(n, View(l), bound) && Attained(n, View(l), bound) && Swept(n, l0, View(l), View(u), k)
    ensures !converged ==> Swept(n, l0, View(l), View(u), k + 1) && NoneSuffice(n, l0, absEpsilon, k + 1)
  {
    var maxVal, p, q := OffDiagonalMax(l, n);
    bound := maxVal;
    if maxVal < absEpsilon {
      SweptSymmetric(n, l0, View(l), View(u), k);
      return true, bound;
    }
    NotYetEnough(n, l0, View(l), View(u), k, p, q, maxVal, absEpsilon);
    NoneSufficeMore(n, l0, absEpsilon, k);
    SweptSymmetric(n, l0, View(l), View(u), k);
    RotateOnce(l, u, n, p, q, sqrt, l0, k);
    return false, bound;
  }

  /** The sweep proper: at most `maxIterations` rotations, stopping when the largest entry is below the threshold */
  method Sweep(l: array2<real>, u: array2<real>, n: nat, maxIterations: nat, absEpsilon: real, sqrt: real -> real, ghost l0: Matrix)
    returns (converged: bool, ghost k: nat, ghost bound: real)
    requires n >= 2 && l != u && IsSquare(l, n) && IsSquare(u, n) && absEpsilon > 0.0 && IsSqrt(sqrt)
    requires Swept(n, l0, View(l), View(u), 0)
    modifies l, u
    ensures k <= maxIterations && Swept(n, l0, View(l), View(u), k)
    ensures converged ==> bound < absEpsilon && BoundedOff(n, View(l), bound) && Attained(n, View(l), bound)
    ensures !converged ==> k == maxIterations
    ensures NoneSuffice(n, l0, absEpsilon, k) && (converged || NoneSuffice(n, l0, absEpsilon, maxIterations))
  {
    converged, k, bound := false, 0, 0.0;
    var iter := 0;
    while iter < maxIterations
      invariant 0 <= iter <= maxIterations && k == iter && Swept(n, l0, View(l), View(u), k)
      invariant NoneSuffice(n, l0, absEpsilon, k)
    {
      converged, bound := Iterate(l, u, n, absEpsilon, sqrt, l0, k);
      if converged { return; }
      iter, k := iter + 1, k + 1;
    }
  }

  /** What the sweep left is how far the columns of u are from eigenvectors of l0, and lambda is never negative on a Laplacian. */
  lemma SweptMeansEigen(adj: G.Adjacency, l: Matrix, u: Matrix, k: nat, bound: real, a: int)
    requires G.WellFormed(adj) && |adj| >= 2 && 0 <= a < |adj|
    requires Swept(|adj|, LaplacianOf(adj), l, u, k) && BoundedOff(|adj|, l, bound)
    ensures l(a, a) >= 0.0
    ensures var r := Residual(|adj|, LaplacianOf(adj), l, u, a);
      Dot(|adj|, r, r) <= |adj| as real * (bound * bound) - bound * bound
  {
    DiagonalIsRayleigh(|adj|, LaplacianOf(adj), l, u, a);
    FormNonNegative(adj, Column(u, a));
    ResidualNorm(|adj|, LaplacianOf(adj), l, u, a);
    OffRowBelowPivot(|adj|, l, bound, bound * bound, a);
  }

  datatype EmbedResult = TooFewNodes(nodes: nat) | NotConverged(residual: real) | Embedded

  /** The magnitude the threshold is relative to: the largest degree, at least 1 */
  function Scale(adj: G.Adjacency): real { if MaxDegree(adj) > 1 then MaxDegree(adj) as real else 1.0 }

  /** It is at least 1 and every degree, and it is one of them. */
  lemma ScaleExact(adj: G.Adjacency)
    ensures Scale(adj) >= 1.0 && forall i :: 0 <= i < |adj| ==> |adj[i]| as real <= Scale(adj)
    ensures Scale(adj) == 1.0 || exists i :: 0 <= i < |adj| && |adj[i]| as real == Scale(adj)
  {
    if adj != [] { MaxDegreeExact(adj); }
  }

  method ScaleOf(l: array2<real>, adj: G.Adjacency) returns (scale: real)
    requires IsSquare(l, |adj|) && Holds(l, |adj|, LaplacianOf(adj))
    ensures scale == Scale(adj)
  {
    scale := 1.0;
    var i := 0;
    while i < |adj|
      invariant 0 <= i <= |adj| && scale == Scale(adj[..i])
    {
      assert adj[..i + 1][..i] == adj[..i];
      assert l[i, i] == |adj[i]| as real;
      if Magnitude(l[i, i]) > scale { scale := Magnitude(l[i, i]); }
      i := i + 1;
    }
    assert adj[..|adj|] == adj;
  }

  lemma StartOfSweep(n: nat, l0: Matrix, l: Matrix, u: Matrix)
    requires n >= 2 && Symmetric(n, l0) && Agree(n, l, l0) && Agree(n, u, Identity())
    ensures Swept(n, l0, l, u, 0)
  {
    DecomposesAtStart(n, l0);
    DecomposesExt(n, l0, l0, Identity(), l, u);
    OffExt(n, l0, l);
  }

  /** The Laplacian, the identity and the scale */
  method Prepare(g: G.Graph) returns (l: array2<real>, u: array2<real>, scale: real)
    requires g.Valid() && g.nodes >= 2
    ensures fresh(l) && fresh(u) && l != u && IsSquare(l, g.nodes) && IsSquare(u, g.nodes)
    ensures scale == Scale(g.adjacency) && scale >= 1.0
    ensures Swept(g.nodes, LaplacianOf(g.adjacency), View(l), View(u), 0)
  {
    l := DenseLaplacian(g);
    u := new real[g.nodes, g.nodes]((i, j) => if i == j then 1.0 else 0.0);
    scale := ScaleOf(l, g.adjacency);
    LaplacianSymmetric(g.adjacency);
    StartOfSweep(g.nodes, LaplacianOf(g.adjacency), View(l), View(u));
  }

  function Relative(residual: real, scale: real): (r: real)
    requires scale >= 1.0
    ensures r * scale == residual
  {
    residual / scale
  }

  function AbsEpsilon(epsilon: real, scale: real): real { epsilon * scale }

  /** Where a successful sweep may stop: below the threshold, or out of iterations with a small relative residual */
  ghost predicate SmallEnough(adj: G.Adjacency, epsilon: real, bound: real) {
    bound < AbsEpsilon(epsilon, Scale(adj)) || Relative(bound, Scale(adj)) <= 0.001
  }

  /** So many rotations bring the graph's Laplacian under the threshold. */
  ghost predicate SufficesFor(adj: G.Adjacency, epsilon: real, k: nat) { Suffices(|adj|, LaplacianOf(adj), AbsEpsilon(epsilon, Scale(adj)), k) }

  /** An iteration budget that depends on the size of the graph and the threshold only */
  lemma GraphBudget(adj: G.Adjacency, epsilon: real, k: nat)
    requires |adj| >= 2 && epsilon > 0.0
    requires var e := AbsEpsilon(epsilon, Scale(adj)); Pairs(|adj|) < 2.0 * (e * e) * (1.0 + k as real * (1.0 - Rate(|adj|)))
    ensures SufficesFor(adj, epsilon, k)
  {
    var n, l := |adj|, LaplacianOf(adj);
    PositiveProduct(epsilon, Scale(adj), AbsEpsilon(epsilon, Scale(adj)));
    assert BoundedOff(n, l, 1.0);
    OffBelowPivot(n, l, 1.0, 1.0);
    BudgetSuffices(n, l, AbsEpsilon(epsilon, Scale(adj)), k);
  }

  /** The verdict on a sweep that ran out of iterations */
  method Judge(l: array2<real>, n: nat, scale: real) returns (r: EmbedResult, ghost bound: real)
    requires n >= 2 && IsSquare(l, n) && scale >= 1.0 && Symmetric(n, View(l))
    ensures BoundedOff(n, View(l), bound) && Attained(n, View(l), bound)
    ensures if Relative(bound, scale) > 0.001 then r == NotConverged(bound) else r == Embedded
  {
    var residual, p, q := OffDiagonalMax(l, n);
    bound := residual;
    r := if Relative(residual, scale) > 0.001 then NotConverged(residual) else Embedded;
  }

  /** `embed` up to the final sort of the columns */
  method Embed(g: G.Graph, maxIterations: nat, epsilon: real, sqrt: real -> real)
    returns (r: EmbedResult, l: array2<real>, u: array2<real>, ghost k: nat, ghost bound: real)
    requires g.Valid() && epsilon > 0.0 && IsSqrt(sqrt)
    ensures r.TooFewNodes? <==> g.nodes < 2
    ensures !r.TooFewNodes? ==> IsSquare(l, g.nodes) && IsSquare(u, g.nodes) && k <= maxIterations
    ensures !r.TooFewNodes? ==> Swept(g.nodes, LaplacianOf(g.adjacency), View(l), View(u), k)
    ensures !r.TooFewNodes? ==> BoundedOff(g.nodes, View(l), bound) && Attained(g.nodes, View(l), bound)
    ensures r.Embedded? ==> SmallEnough(g.adjacency, epsilon, bound) && (k < maxIterations ==> bound < AbsEpsilon(epsilon, Scale(g.adjacency)))
    ensures r.NotConverged? ==> k == maxIterations && r.residual == bound && Relative(bound, Scale(g.adjacency)) > 0.001
    ensures forall enough: nat :: enough < maxIterations && SufficesFor(g.adjacency, epsilon, enough) ==> r.Embedded? && k <= enough
  {
    if g.nodes < 2 {
      l, u := new real[0, 0], new real[0, 0];
      return TooFewNodes(g.nodes), l, u, 0, 0.0;
    }
    r, l, u, k, bound := Diagonalise(g, maxIterations, epsilon, sqrt);
  }

  method Diagonalise(g: G.Graph, maxIterations: nat, epsilon: real, sqrt: real -> real)
    returns (r: EmbedResult, l: array2<real>, u: array2<real>, ghost k: nat, ghost bound: real)
    requires g.Valid() && g.nodes >= 2 && epsilon > 0.0 && IsSqrt(sqrt)
    ensures !r.TooFewNodes? && IsSquare(l, g.nodes) && IsSquare(u, g.nodes) && k <= maxIterations
    ensures Swept(g.nodes, LaplacianOf(g.adjacency), View(l), View(u), k) && BoundedOff(g.nodes, View(l), bound) && Attained(g.nodes, View(l), bound)
    ensures r.Embedded? ==> SmallEnough(g.adjacency, epsilon, bound) && (k < maxIterations ==> bound < AbsEpsilon(epsilon, Scale(g.adjacency)))
    ensures r.NotConverged? ==> k == maxIterations && r.residual == bound && Relative(bound, Scale(g.adjacency)) > 0.001
    ensures forall enough: nat :: enough < maxIterations && SufficesFor(g.adjacency, epsilon, enough) ==> r.Embedded? && k <= enough
  {
    var scale, converged;
    l, u, scale := Prepare(g);
    PositiveProduct(epsilon, scale, AbsEpsilon(epsilon, scale));
    converged, k, bound := Sweep(l, u, g.nodes, maxIterations, AbsEpsilon(epsilon, scale), sqrt, LaplacianOf(g.adjacency));
    r := Embedded;
    if !converged {
      SweptSymmetric(g.nodes, LaplacianOf(g.adjacency), View(l), View(u), k);
      r, bound := Judge(l, g.nodes, scale);
    }
  }

  lemma SweptSymmetric(n: nat, l0: Matrix, l: Matrix, u: Matrix, k: nat)
    requires n >= 2 && Swept(n, l0, l, u, k)
    ensures Symmetric(n, l)
  {
  }
}
