/**
 The classical Jacobi eigenvalue sweep of `SpectralEmbedding::embed`: repeatedly
 rotate away the largest off-diagonal entry, accumulating the rotations in `u`.
 */
module Jacobi {
  import opened Sums

  // ---------------------------------------------------------------------
  // One rotation, on matrices as functions
  // ---------------------------------------------------------------------

  /** A plane rotation of one vector, as the sweep applies it to every row of `u` */
  ghost function RotVec(x: Vector, p: int, q: int, c: real, s: real): Vector {
    i => if i == p then c * x(p) - s * x(q) else if i == q then s * x(p) + c * x(q) else x(i)
  }

  /** The matrix `apply_jacobi_rotation_to_l` leaves behind */
  ghost function Rotated(l: Matrix, p: int, q: int, c: real, s: real): Matrix {
    (i, j) =>
      if i == p && j == p then c * c * l(p, p) - 2.0 * s * c * l(p, q) + s * s * l(q, q)
      else if i == q && j == q then s * s * l(p, p) + 2.0 * s * c * l(p, q) + c * c * l(q, q)
      else if (i == p && j == q) || (i == q && j == p) then 0.0
      else if j == p then c * l(i, p) - s * l(i, q)
      else if j == q then s * l(i, p) + c * l(i, q)
      else if i == p then c * l(j, p) - s * l(j, q)
      else if i == q then s * l(j, p) + c * l(j, q)
      else l(i, j)
  }

  /** Every row of `u` rotated */
  ghost function RotatedRows(u: Matrix, p: int, q: int, c: real, s: real): Matrix {
    (i, j) => if j == p then c * u(i, p) - s * u(i, q) else if j == q then s * u(i, p) + c * u(i, q) else u(i, j)
  }

  ghost predicate Unit(c: real, s: real) { c * c + s * s == 1.0 }

  /** The rotation angle zeroes the pivot. */
  ghost predicate Annihilates(l: Matrix, p: int, q: int, c: real, s: real) {
    (c * c - s * s) * l(p, q) + c * s * (l(p, p) - l(q, q)) == 0.0
  }

  ghost predicate Pivot(n: nat, p: int, q: int) { 0 <= p < n && 0 <= q < n && p != q }

  /** (u, v) is the rotation of (a, b), likewise primed: the two products add up as before. */
  lemma RotatedPair(a: real, b: real, u: real, v: real, a': real, b': real, u': real, v': real, c: real, s: real)
    requires Unit(c, s)
    requires u == c * a - s * b && v == s * a + c * b
    requires u' == c * a' - s * b' && v' == s * a' + c * b'
    ensures u * u' + v * v' == a * a' + b * b'
  {
    calc {
      u * u' + v * v';
      (c * a - s * b) * (c * a' - s * b') + (s * a + c * b) * (s * a' + c * b');
      (c * c + s * s) * (a * a') + (c * c + s * s) * (b * b');
      a * a' + b * b';
    }
  }

  lemma DotRotated(n: nat, x: Vector, y: Vector, p: int, q: int, c: real, s: real)
    requires Unit(c, s) && Pivot(n, p, q)
    ensures Dot(n, RotVec(x, p, q, c, s), RotVec(y, p, q, c, s)) == Dot(n, x, y)
  {
    var x', y' := RotVec(x, p, q, c, s), RotVec(y, p, q, c, s);
    SumTwoPoint(n, Products(x', y'), Products(x, y), p, q);
    var a, b, u, v, a', b', u', v' := x(p), x(q), x'(p), x'(q), y(p), y(q), y'(p), y'(q);
    RotatedPair(a, b, u, v, a', b', u', v', c, s);
  }

  lemma PivotRow(l: Matrix, p: int, q: int, c: real, s: real, w: Vector)
    requires l(p, q) == l(q, p) && Annihilates(l, p, q, c, s)
    requires w(p) == c * l(p, p) - s * l(q, p) && w(q) == c * l(p, q) - s * l(q, q)
    ensures c * w(p) - s * w(q) == c * c * l(p, p) - 2.0 * s * c * l(p, q) + s * s * l(q, q)
    ensures s * w(p) + c * w(q) == 0.0
  {
    assert s * w(p) + c * w(q) == (c * c - s * s) * l(p, q) + c * s * (l(p, p) - l(q, q));
  }

  lemma PivotRow'(l: Matrix, p: int, q: int, c: real, s: real, w: Vector)
    requires l(p, q) == l(q, p) && Annihilates(l, p, q, c, s)
    requires w(p) == s * l(p, p) + c * l(q, p) && w(q) == s * l(p, q) + c * l(q, q)
    ensures s * w(p) + c * w(q) == s * s * l(p, p) + 2.0 * s * c * l(p, q) + c * c * l(q, q)
    ensures c * w(p) - s * w(q) == 0.0
  {
    assert c * w(p) - s * w(q) == (c * c - s * s) * l(p, q) + c * s * (l(p, p) - l(q, q));
  }

  /** Row a of the rotated matrix is the rotation of `w`, a combination of rows of `l`. */
  lemma RowRotated(n: nat, l: Matrix, y: Vector, p: int, q: int, c: real, s: real, a: int, w: Vector)
    requires Unit(c, s) && Pivot(n, p, q) && 0 <= a < n
    requires forall b :: 0 <= b < n ==> Rotated(l, p, q, c, s)(a, b) == RotVec(w, p, q, c, s)(b)
    ensures Times(n, Rotated(l, p, q, c, s), RotVec(y, p, q, c, s))(a) == Dot(n, w, y)
  {
    var y', l' := RotVec(y, p, q, c, s), Rotated(l, p, q, c, s);
    DotExt(n, Row(l', a), y', RotVec(w, p, q, c, s), y');
    DotRotated(n, w, y, p, q, c, s);
  }

  lemma RotatedTimesP(n: nat, l: Matrix, y: Vector, p: int, q: int, c: real, s: real)
    requires Symmetric(n, l) && Unit(c, s) && Pivot(n, p, q) && Annihilates(l, p, q, c, s)
    ensures Times(n, Rotated(l, p, q, c, s), RotVec(y, p, q, c, s))(p) == RotVec(Times(n, l, y), p, q, c, s)(p)
  {
    var w: Vector := b => c * l(p, b) - s * l(q, b);
    PivotRow(l, p, q, c, s, w);
    RowRotated(n, l, y, p, q, c, s, p, w);
    DotCombine(n, c, Row(l, p), -s, Row(l, q), w, y);
  }

  lemma RotatedTimesQ(n: nat, l: Matrix, y: Vector, p: int, q: int, c: real, s: real)
    requires Symmetric(n, l) && Unit(c, s) && Pivot(n, p, q) && Annihilates(l, p, q, c, s)
    ensures Times(n, Rotated(l, p, q, c, s), RotVec(y, p, q, c, s))(q) == RotVec(Times(n, l, y), p, q, c, s)(q)
  {
    var w: Vector := b => s * l(p, b) + c * l(q, b);
    PivotRow'(l, p, q, c, s, w);
    RowRotated(n, l, y, p, q, c, s, q, w);
    DotCombine(n, s, Row(l, p), c, Row(l, q), w, y);
  }

  /** Row a of the rotated matrix against a rotated vector is component a of the rotated product. */
  lemma RotatedTimes(n: nat, l: Matrix, y: Vector, p: int, q: int, c: real, s: real, a: int)
    requires Symmetric(n, l) && Unit(c, s) && Pivot(n, p, q) && Annihilates(l, p, q, c, s) && 0 <= a < n
    ensures Times(n, Rotated(l, p, q, c, s), RotVec(y, p, q, c, s))(a) == RotVec(Times(n, l, y), p, q, c, s)(a)
  {
    if a == p {
      RotatedTimesP(n, l, y, p, q, c, s);
    } else if a == q {
      RotatedTimesQ(n, l, y, p, q, c, s);
    } else {
      RowRotated(n, l, y, p, q, c, s, a, Row(l, a));
    }
  }

  /** The rotation is a similarity: the form takes rotated vectors to the values it took before. */
  lemma FormRotated(n: nat, l: Matrix, x: Vector, y: Vector, p: int, q: int, c: real, s: real)
    requires Symmetric(n, l) && Unit(c, s) && Pivot(n, p, q) && Annihilates(l, p, q, c, s)
    ensures Form(n, Rotated(l, p, q, c, s), RotVec(x, p, q, c, s), RotVec(y, p, q, c, s)) == Form(n, l, x, y)
  {
    var x', y', l' := RotVec(x, p, q, c, s), RotVec(y, p, q, c, s), Rotated(l, p, q, c, s);
    var v := Times(n, l, y);
    forall a | 0 <= a < n ensures Times(n, l', y')(a) == RotVec(v, p, q, c, s)(a) {
      RotatedTimes(n, l, y, p, q, c, s, a);
    }
    DotExt(n, x', Times(n, l', y'), x', RotVec(v, p, q, c, s));
    DotRotated(n, x, v, p, q, c, s);
  }

  lemma RotatedSymmetric(n: nat, l: Matrix, p: int, q: int, c: real, s: real)
    requires Symmetric(n, l)
    ensures Symmetric(n, Rotated(l, p, q, c, s))
  {
  }

  // ---------------------------------------------------------------------
  // Trace and off-diagonal mass
  // ---------------------------------------------------------------------

  ghost function Diagonal(l: Matrix): Vector { i => l(i, i) }

  ghost function Trace(n: nat, l: Matrix): real { Sum(n, Diagonal(l)) }

  lemma TraceArithmetic(a: real, b: real, m: real, c: real, s: real, u: real, v: real)
    requires Unit(c, s)
    requires u == c * c * a - 2.0 * s * c * m + s * s * b && v == s * s * a + 2.0 * s * c * m + c * c * b
    ensures u + v == a + b
  {
    assert (c * c + s * s) * a == a && (c * c + s * s) * b == b;
  }

  lemma TraceKept(n: nat, l: Matrix, p: int, q: int, c: real, s: real)
    requires Unit(c, s) && Pivot(n, p, q)
    ensures Trace(n, Rotated(l, p, q, c, s)) == Trace(n, l)
  {
    var l' := Rotated(l, p, q, c, s);
    TraceArithmetic(l(p, p), l(q, q), l(p, q), c, s, l'(p, p), l'(q, q));
    SumTwoPoint(n, Diagonal(l'), Diagonal(l), p, q);
  }

  /** Squares of row i without the diagonal entry */
  ghost function OffRow(l: Matrix, i: int): Vector { j => if i == j then 0.0 else l(i, j) * l(i, j) }

  ghost function OffRows(n: nat, l: Matrix): Vector { i => Sum(n, OffRow(l, i)) }

  /** The off-diagonal sum of squares */
  ghost function Off(n: nat, l: Matrix): real { Sum(n, OffRows(n, l)) }

  ghost function Plus(f: Vector, g: Vector): Vector { j => f(j) + g(j) }

  lemma OffPivotColumn(n: nat, l: Matrix, p: int, q: int, c: real, s: real, j: int)
    requires Symmetric(n, l) && Unit(c, s) && Pivot(n, p, q) && 0 <= j < n && j != p && j != q
    ensures var l' := Rotated(l, p, q, c, s);
      OffRow(l', p)(j) + OffRow(l', q)(j) == OffRow(l, p)(j) + OffRow(l, q)(j)
  {
    var l' := Rotated(l, p, q, c, s);
    var a, b, u, v := l(p, j), l(q, j), l'(p, j), l'(q, j);
    RotatedPair(a, b, u, v, a, b, u, v, c, s);
  }

  lemma OffCorner(n: nat, l: Matrix, p: int, q: int, c: real, s: real)
    requires Symmetric(n, l) && Pivot(n, p, q)
    ensures OffRow(l, p)(p) == 0.0 && OffRow(l, q)(q) == 0.0 && OffRow(l, q)(p) == OffRow(l, p)(q)
    ensures var l' := Rotated(l, p, q, c, s);
      OffRow(l', p)(p) == 0.0 && OffRow(l', p)(q) == 0.0 && OffRow(l', q)(p) == 0.0 && OffRow(l', q)(q) == 0.0
  {
    assert l(p, q) == l(q, p);
  }

  lemma OffPivotRows(n: nat, l: Matrix, p: int, q: int, c: real, s: real)
    requires Symmetric(n, l) && Unit(c, s) && Pivot(n, p, q)
    ensures var l' := Rotated(l, p, q, c, s);
      OffRows(n, l')(p) + OffRows(n, l')(q) == OffRows(n, l)(p) + OffRows(n, l)(q) - 2.0 * OffRow(l, p)(q)
  {
    var l' := Rotated(l, p, q, c, s);
    var f, g := Plus(OffRow(l', p), OffRow(l', q)), Plus(OffRow(l, p), OffRow(l, q));
    SumCombine(n, 1.0, OffRow(l', p), 1.0, OffRow(l', q), f);
    SumCombine(n, 1.0, OffRow(l, p), 1.0, OffRow(l, q), g);
    forall j | 0 <= j < n && j != p && j != q ensures f(j) == g(j) {
      OffPivotColumn(n, l, p, q, c, s, j);
    }
    OffCorner(n, l, p, q, c, s);
    SumTwoPoint(n, f, g, p, q);
  }

  lemma OffOtherRow(n: nat, l: Matrix, p: int, q: int, c: real, s: real, i: int)
    requires Unit(c, s) && Pivot(n, p, q) && 0 <= i < n && i != p && i != q
    ensures OffRows(n, Rotated(l, p, q, c, s))(i) == OffRows(n, l)(i)
  {
    var l' := Rotated(l, p, q, c, s);
    var a, b, u, v := l(i, p), l(i, q), l'(i, p), l'(i, q);
    RotatedPair(a, b, u, v, a, b, u, v, c, s);
    SumTwoPoint(n, OffRow(l', i), OffRow(l, i), p, q);
  }

  /** A rotation removes exactly the pivot's two squares from the off-diagonal mass. */
  lemma OffDrops(n: nat, l: Matrix, p: int, q: int, c: real, s: real)
    requires Symmetric(n, l) && Unit(c, s) && Pivot(n, p, q)
    ensures Off(n, Rotated(l, p, q, c, s)) == Off(n, l) - 2.0 * (l(p, q) * l(p, q))
  {
    var l' := Rotated(l, p, q, c, s);
    forall i | 0 <= i < n && i != p && i != q ensures OffRows(n, l')(i) == OffRows(n, l)(i) {
      OffOtherRow(n, l, p, q, c, s, i);
    }
    OffPivotRows(n, l, p, q, c, s);
    SumTwoPoint(n, OffRows(n, l'), OffRows(n, l), p, q);
  }

  ghost function Abs(x: real): real { if x < 0.0 then -x else x }

  ghost predicate BoundedOff(n: nat, l: Matrix, bound: real) {
    forall i, j :: 0 <= i < n && 0 <= j < n && i != j ==> Abs(l(i, j)) <= bound
  }

  lemma SquareLe(x: real, b: real)
    requires Abs(x) <= b
    ensures x * x <= b * b
  {
  }

  /** n-1 terms of at most b each, and one of nothing */
  lemma SumAllButOne(n: nat, f: Vector, i: int, b: real)
    requires 0 <= i < n && f(i) == 0.0 && forall j :: 0 <= j < n && j != i ==> f(j) <= b
    ensures Sum(n, f) <= n as real * b - b
  {
    var h: Vector := j => if j == i then b else f(j);
    var g: Vector := j => b;
    SumOnePoint(n, h, f, i);
    SumLe(n, h, g);
    SumConst(n, g, b);
  }

  lemma OffRowBelowPivot(n: nat, l: Matrix, bound: real, b2: real, i: int)
    requires BoundedOff(n, l, bound) && b2 == bound * bound && 0 <= i < n
    ensures OffRows(n, l)(i) <= n as real * b2 - b2
  {
    forall j | 0 <= j < n && j != i ensures OffRow(l, i)(j) <= b2 { SquareLe(l(i, j), bound); }
    SumAllButOne(n, OffRow(l, i), i, b2);
  }

  /** n(n-1) entries, none larger than the pivot */
  lemma OffBelowPivot(n: nat, l: Matrix, bound: real, b2: real)
    requires BoundedOff(n, l, bound) && b2 == bound * bound && n > 0
    ensures Off(n, l) <= Pairs(n) * b2
  {
    var r := n as real * b2 - b2;
    var g: Vector := i => r;
    forall i | 0 <= i < n ensures OffRows(n, l)(i) <= g(i) {
      OffRowBelowPivot(n, l, bound, b2, i);
    }
    SumLe(n, OffRows(n, l), g);
    SumConst(n, g, r);
    PairsExpanded(n, b2, r);
  }

  lemma PairsExpanded(n: nat, b: real, r: real)
    requires n >= 1 && r == n as real * b - b
    ensures n as real * r == Pairs(n) * b
  {
    var m := n as real;
    assert (n - 1) as real == m - 1.0;
    assert r == (m - 1.0) * b;
    assert m * ((m - 1.0) * b) == (m * (m - 1.0)) * b;
  }

  /** How many off-diagonal entries there are */
  ghost function Pairs(n: nat): real
    requires n >= 1
  {
    n as real * (n - 1) as real
  }

  lemma PairsPositive(n: nat)
    requires n >= 2
    ensures Pairs(n) >= 2.0
  {
    assert n as real >= 2.0 && (n - 1) as real >= 1.0;
    assert n as real * (n - 1) as real >= 2.0 * (n - 1) as real;
  }

  /** The guaranteed shrink factor of one rotation on an n x n matrix, 1 - 2/(n(n-1)) */
  ghost function Rate(n: nat): real
    requires n >= 2
  {
    PairsPositive(n);
    1.0 - 2.0 / Pairs(n)
  }

  lemma ShrinkArithmetic(off: real, pairs: real, b2: real)
    requires pairs >= 2.0 && off <= pairs * b2
    ensures off - 2.0 * b2 <= (1.0 - 2.0 / pairs) * off
  {
    var share := off / pairs;
    assert share * pairs == off;
    assert share <= b2 by {
      assert (b2 - share) * pairs >= 0.0;
    }
    assert (2.0 / pairs) * off == 2.0 * share;
  }

  /** One rotation at the largest entry shrinks the off-diagonal mass by at least the rate. */
  lemma OffShrinks(n: nat, l: Matrix, p: int, q: int, c: real, s: real)
    requires Symmetric(n, l) && Unit(c, s) && Pivot(n, p, q) && n >= 2 && BoundedOff(n, l, Abs(l(p, q)))
    ensures Off(n, Rotated(l, p, q, c, s)) <= Rate(n) * Off(n, l)
  {
    OffDrops(n, l, p, q, c, s);
    OffBelowPivot(n, l, Abs(l(p, q)), l(p, q) * l(p, q));
    PairsPositive(n);
    ShrinkArithmetic(Off(n, l), Pairs(n), l(p, q) * l(p, q));
  }

  // ---------------------------------------------------------------------
  // What every iteration of the sweep keeps
  // ---------------------------------------------------------------------

  /** `l` and `u` are a decomposition of `l0`: u is orthogonal both ways, u l u^T is l0 and l0 u is u l. */
  ghost predicate Decomposes(n: nat, l0: Matrix, l: Matrix, u: Matrix) {
    && Symmetric(n, l)
    && Trace(n, l) == Trace(n, l0)
    && (forall i, j :: 0 <= i < n && 0 <= j < n ==> Dot(n, Row(u, i), Row(u, j)) == Delta(i, j))
    && (forall i, j :: 0 <= i < n && 0 <= j < n ==> Dot(n, Column(u, i), Column(u, j)) == Delta(i, j))
    && (forall i, j :: 0 <= i < n && 0 <= j < n ==> Form(n, l, Row(u, i), Row(u, j)) == l0(i, j))
    && (forall i, a :: 0 <= i < n && 0 <= a < n ==> Times(n, l0, Column(u, a))(i) == Times(n, l, Row(u, i))(a))
  }

  ghost function Identity(): Matrix { (i, j) => Delta(i, j) }

  lemma TimesBasis(n: nat, l: Matrix, j: int, x: Vector, i: int)
    requires 0 <= j < n && forall k :: 0 <= k < n ==> x(k) == Delta(j, k)
    ensures Times(n, l, x)(i) == l(i, j)
  {
    DotCommutes(n, Row(l, i), x);
    DotBasis(n, j, x, Row(l, i));
  }

  lemma DecomposesAtStart(n: nat, l: Matrix)
    requires Symmetric(n, l)
    ensures Decomposes(n, l, l, Identity())
  {
    var u := Identity();
    forall i, j | 0 <= i < n && 0 <= j < n
      ensures Dot(n, Row(u, i), Row(u, j)) == Delta(i, j) && Dot(n, Column(u, i), Column(u, j)) == Delta(i, j)
    {
      DotBasis(n, i, Row(u, i), Row(u, j));
      DotBasis(n, i, Column(u, i), Column(u, j));
    }
    forall i, j | 0 <= i < n && 0 <= j < n ensures Form(n, l, Row(u, i), Row(u, j)) == l(i, j) {
      DotBasis(n, i, Row(u, i), Times(n, l, Row(u, j)));
      TimesBasis(n, l, j, Row(u, j), i);
    }
    forall i, a | 0 <= i < n && 0 <= a < n ensures Times(n, l, Column(u, a))(i) == Times(n, l, Row(u, i))(a) {
      TimesBasis(n, l, a, Column(u, a), i);
      TimesBasis(n, l, i, Row(u, i), a);
    }
  }

  lemma RowsKept(n: nat, u: Matrix, p: int, q: int, c: real, s: real, i: int, j: int)
    requires Unit(c, s) && Pivot(n, p, q)
    ensures var u' := RotatedRows(u, p, q, c, s); Dot(n, Row(u', i), Row(u', j)) == Dot(n, Row(u, i), Row(u, j))
  {
    var u' := RotatedRows(u, p, q, c, s);
    DotExt(n, Row(u', i), Row(u', j), RotVec(Row(u, i), p, q, c, s), RotVec(Row(u, j), p, q, c, s));
    DotRotated(n, Row(u, i), Row(u, j), p, q, c, s);
  }

  /** A column of the rotated rows, against anything, is the rotation of the columns' dot products. */
  lemma ColumnRotated(n: nat, u: Matrix, p: int, q: int, c: real, s: real, a: int, z: Vector)
    requires p != q
    ensures Dot(n, Column(RotatedRows(u, p, q, c, s), a), z) == RotVec(TransposeTimes(n, u, z), p, q, c, s)(a)
  {
    var u' := RotatedRows(u, p, q, c, s);
    if a == p {
      DotCombine(n, c, Column(u, p), -s, Column(u, q), Column(u', a), z);
    } else if a == q {
      DotCombine(n, s, Column(u, p), c, Column(u, q), Column(u', a), z);
    } else {
      DotExt(n, Column(u', a), z, Column(u, a), z);
    }
  }

  ghost predicate OrthonormalColumns(n: nat, u: Matrix) {
    forall i, j :: 0 <= i < n && 0 <= j < n ==> Dot(n, Column(u, i), Column(u, j)) == Delta(i, j)
  }

  /** Column k before against column b after */
  ghost function Cross(p: int, q: int, c: real, s: real, k: int, b: int): real {
    if b == p then c * Delta(p, k) - s * Delta(q, k) else if b == q then s * Delta(p, k) + c * Delta(q, k) else Delta(b, k)
  }

  lemma CrossColumn(n: nat, u: Matrix, p: int, q: int, c: real, s: real, k: int, b: int)
    requires Pivot(n, p, q) && OrthonormalColumns(n, u) && 0 <= k < n && 0 <= b < n
    ensures Dot(n, Column(u, k), Column(RotatedRows(u, p, q, c, s), b)) == Cross(p, q, c, s, k, b)
  {
    var z := Column(RotatedRows(u, p, q, c, s), b);
    DotCommutes(n, Column(u, k), z);
    ColumnRotated(n, u, p, q, c, s, b, Column(u, k));
  }

  lemma CrossUnit(p: int, q: int, c: real, s: real, a: int, b: int)
    requires Unit(c, s) && p != q
    ensures a == p ==> c * Cross(p, q, c, s, p, b) - s * Cross(p, q, c, s, q, b) == Delta(a, b)
    ensures a == q ==> s * Cross(p, q, c, s, p, b) + c * Cross(p, q, c, s, q, b) == Delta(a, b)
    ensures a != p && a != q ==> Cross(p, q, c, s, a, b) == Delta(a, b)
  {
  }

  lemma ColumnsKept(n: nat, u: Matrix, p: int, q: int, c: real, s: real, a: int, b: int)
    requires Unit(c, s) && Pivot(n, p, q) && OrthonormalColumns(n, u) && 0 <= a < n && 0 <= b < n
    ensures var u' := RotatedRows(u, p, q, c, s); Dot(n, Column(u', a), Column(u', b)) == Delta(a, b)
  {
    ColumnRotated(n, u, p, q, c, s, a, Column(RotatedRows(u, p, q, c, s), b));
    CrossUnit(p, q, c, s, a, b);
    if a == p || a == q {
      CrossColumn(n, u, p, q, c, s, p, b);
      CrossColumn(n, u, p, q, c, s, q, b);
    } else {
      CrossColumn(n, u, p, q, c, s, a, b);
    }
  }

  /** Both sides of l0 u == u l rotate alike. */
  lemma EigenKept(n: nat, l0: Matrix, l: Matrix, u: Matrix, p: int, q: int, c: real, s: real, i: int, a: int)
    requires Symmetric(n, l) && Unit(c, s) && Pivot(n, p, q) && Annihilates(l, p, q, c, s) && 0 <= a < n
    requires forall b :: 0 <= b < n ==> Times(n, l0, Column(u, b))(i) == Times(n, l, Row(u, i))(b)
    ensures var l', u' := Rotated(l, p, q, c, s), RotatedRows(u, p, q, c, s);
      Times(n, l0, Column(u', a))(i) == Times(n, l', Row(u', i))(a)
  {
    var l', u' := Rotated(l, p, q, c, s), RotatedRows(u, p, q, c, s);
    DotCommutes(n, Row(l0, i), Column(u', a));
    ColumnRotated(n, u, p, q, c, s, a, Row(l0, i));
    forall b ensures TransposeTimes(n, u, Row(l0, i))(b) == Times(n, l0, Column(u, b))(i) {
      DotCommutes(n, Row(l0, i), Column(u, b));
    }
    DotExt(n, Row(l', a), Row(u', i), Row(l', a), RotVec(Row(u, i), p, q, c, s));
    RotatedTimes(n, l, Row(u, i), p, q, c, s, a);
  }

  lemma FormKept(n: nat, l: Matrix, u: Matrix, p: int, q: int, c: real, s: real, i: int, j: int)
    requires Symmetric(n, l) && Unit(c, s) && Pivot(n, p, q) && Annihilates(l, p, q, c, s)
    ensures var l', u' := Rotated(l, p, q, c, s), RotatedRows(u, p, q, c, s);
      Form(n, l', Row(u', i), Row(u', j)) == Form(n, l, Row(u, i), Row(u, j))
  {
    var l', u' := Rotated(l, p, q, c, s), RotatedRows(u, p, q, c, s);
    var x, y := RotVec(Row(u, i), p, q, c, s), RotVec(Row(u, j), p, q, c, s);
    FormExt(n, l', Row(u', i), Row(u', j), l', x, y);
    FormRotated(n, l, Row(u, i), Row(u, j), p, q, c, s);
  }

  lemma FormExt(n: nat, l: Matrix, x: Vector, y: Vector, l': Matrix, x': Vector, y': Vector)
    requires forall i, j :: 0 <= i < n && 0 <= j < n ==> l(i, j) == l'(i, j)
    requires forall i :: 0 <= i < n ==> x(i) == x'(i) && y(i) == y'(i)
    ensures Form(n, l, x, y) == Form(n, l', x', y')
  {
    forall i | 0 <= i < n ensures Times(n, l, y)(i) == Times(n, l', y')(i) {
      DotExt(n, Row(l, i), y, Row(l', i), y');
    }
    DotExt(n, x, Times(n, l, y), x', Times(n, l', y'));
  }

  /** One iteration of the sweep keeps the decomposition. */
  lemma DecomposesKept(n: nat, l0: Matrix, l: Matrix, u: Matrix, p: int, q: int, c: real, s: real)
    requires Decomposes(n, l0, l, u) && Unit(c, s) && Pivot(n, p, q) && Annihilates(l, p, q, c, s)
    ensures Decomposes(n, l0, Rotated(l, p, q, c, s), RotatedRows(u, p, q, c, s))
  {
    var l', u' := Rotated(l, p, q, c, s), RotatedRows(u, p, q, c, s);
    RotatedSymmetric(n, l, p, q, c, s);
    TraceKept(n, l, p, q, c, s);
    forall i, j | 0 <= i < n && 0 <= j < n
      ensures Dot(n, Row(u', i), Row(u', j)) == Delta(i, j) && Dot(n, Column(u', i), Column(u', j)) == Delta(i, j)
    {
      RowsKept(n, u, p, q, c, s, i, j);
      ColumnsKept(n, u, p, q, c, s, i, j);
    }
    forall i, j | 0 <= i < n && 0 <= j < n ensures Form(n, l', Row(u', i), Row(u', j)) == l0(i, j) {
      FormKept(n, l, u, p, q, c, s, i, j);
    }
    forall i, a | 0 <= i < n && 0 <= a < n ensures Times(n, l0, Column(u', a))(i) == Times(n, l', Row(u', i))(a) {
      EigenKept(n, l0, l, u, p, q, c, s, i, a);
    }
  }

  // ---------------------------------------------------------------------
  // What a decomposition is worth
  // ---------------------------------------------------------------------

  /** A diagonal entry is the form of the original matrix on its column: the clamp at zero never acts on a Laplacian. */
  lemma DiagonalIsRayleigh(n: nat, l0: Matrix, l: Matrix, u: Matrix, a: int)
    requires Decomposes(n, l0, l, u) && 0 <= a < n
    ensures l(a, a) == Form(n, l0, Column(u, a), Column(u, a))
  {
    var x := Column(u, a);
    forall i | 0 <= i < n ensures Times(n, l0, x)(i) == Times(n, u, Row(l, a))(i) {
      DotCommutes(n, Row(l, a), Row(u, i));
    }
    DotExt(n, x, Times(n, l0, x), x, Times(n, u, Row(l, a)));
    DotCommutes(n, x, Times(n, u, Row(l, a)));
    Adjoint(n, u, Row(l, a), x);
    DotCommutes(n, Row(l, a), TransposeTimes(n, u, x));
    DotBasis(n, a, TransposeTimes(n, u, x), Row(l, a));
  }

  /** u preserves lengths. */
  lemma Isometry(n: nat, u: Matrix, w: Vector)
    requires OrthonormalColumns(n, u)
    ensures Dot(n, Times(n, u, w), Times(n, u, w)) == Dot(n, w, w)
  {
    var z := Times(n, u, w);
    Adjoint(n, u, w, z);
    forall b | 0 <= b < n ensures TransposeTimes(n, u, z)(b) == w(b) {
      DotCommutes(n, Column(u, b), z);
      Adjoint(n, u, w, Column(u, b));
      DotCommutes(n, w, TransposeTimes(n, u, Column(u, b)));
      DotBasis(n, b, TransposeTimes(n, u, Column(u, b)), w);
    }
    DotExt(n, w, TransposeTimes(n, u, z), w, w);
  }

  /** Row a of `l` without its diagonal entry */
  ghost function OffPart(l: Matrix, a: int): Vector { b => if b == a then 0.0 else l(a, b) }

  /** l0 x - lambda x, for the a-th column and diagonal entry */
  ghost function Residual(n: nat, l0: Matrix, l: Matrix, u: Matrix, a: int): Vector {
    i => Times(n, l0, Column(u, a))(i) - l(a, a) * u(i, a)
  }

  lemma ResidualEntry(n: nat, l0: Matrix, l: Matrix, u: Matrix, a: int, i: int)
    requires 0 <= a < n && Times(n, l0, Column(u, a))(i) == Times(n, l, Row(u, i))(a)
    ensures Residual(n, l0, l, u, a)(i) == Times(n, u, OffPart(l, a))(i)
  {
    var f, g := Products(Row(u, i), Row(l, a)), Products(Row(u, i), OffPart(l, a));
    DotCommutes(n, Row(l, a), Row(u, i));
    SumOnePoint(n, f, g, a);
    assert f(a) == l(a, a) * u(i, a) && g(a) == 0.0;
  }

  /** How far column a is from being an eigenvector is exactly what is left of row a off the diagonal. */
  lemma ResidualNorm(n: nat, l0: Matrix, l: Matrix, u: Matrix, a: int)
    requires Decomposes(n, l0, l, u) && 0 <= a < n
    ensures Dot(n, Residual(n, l0, l, u, a), Residual(n, l0, l, u, a)) == OffRows(n, l)(a)
  {
    var r, w := Residual(n, l0, l, u, a), OffPart(l, a);
    forall i | 0 <= i < n ensures r(i) == Times(n, u, w)(i) {
      ResidualEntry(n, l0, l, u, a, i);
    }
    DotExt(n, r, r, Times(n, u, w), Times(n, u, w));
    Isometry(n, u, w);
    SumExt(n, Products(w, w), OffRow(l, a));
  }
}
