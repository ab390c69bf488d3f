/** Finite sums, dot products and bilinear forms over exact reals. */
module Sums {

  type Vector = int -> real
  type Matrix = (int, int) -> real

  /** f(0) + ... + f(n-1) */
  ghost function Sum(n: nat, f: Vector): real {
    if n == 0 then 0.0 else Sum(n - 1, f) + f(n - 1)
  }

  ghost function Power(base: real, k: nat): real { if k == 0 then 1.0 else base * Power(base, k - 1) }

  ghost function Products(x: Vector, y: Vector): Vector { i => x(i) * y(i) }

  ghost function Dot(n: nat, x: Vector, y: Vector): real { Sum(n, Products(x, y)) }

  ghost function Row(m: Matrix, i: int): Vector { j => m(i, j) }

  ghost function Column(m: Matrix, j: int): Vector { i => m(i, j) }

  /** m times y */
  ghost function Times(n: nat, m: Matrix, y: Vector): Vector { i => Dot(n, Row(m, i), y) }

  /** The bilinear form x^T m y */
  ghost function Form(n: nat, m: Matrix, x: Vector, y: Vector): real { Dot(n, x, Times(n, m, y)) }

  ghost predicate Symmetric(n: nat, m: Matrix) {
    forall i, j :: 0 <= i < n && 0 <= j < n ==> m(i, j) == m(j, i)
  }

  lemma {:induction false} SumExt(n: nat, f: Vector, g: Vector)
    requires forall i :: 0 <= i < n ==> f(i) == g(i)
    ensures Sum(n, f) == Sum(n, g)
  {
    if n > 0 { SumExt(n - 1, f, g); }
  }

  lemma {:induction false} SumCombine(n: nat, a: real, f: Vector, b: real, g: Vector, h: Vector)
    requires forall i :: 0 <= i < n ==> h(i) == a * f(i) + b * g(i)
    ensures Sum(n, h) == a * Sum(n, f) + b * Sum(n, g)
  {
    if n > 0 {
      SumCombine(n - 1, a, f, b, g, h);
      CombineOne(a, Sum(n - 1, f), f(n - 1), b, Sum(n - 1, g), g(n - 1), Sum(n - 1, h), h(n - 1));
    }
  }

  lemma CombineOne(a: real, p: real, x: real, b: real, q: real, y: real, r: real, z: real)
    requires r == a * p + b * q && z == a * x + b * y
    ensures r + z == a * (p + x) + b * (q + y)
  {
    Distribute(a, p, x, b, q, y);
  }

  lemma Distribute(a: real, p: real, x: real, b: real, q: real, y: real)
    ensures a * (p + x) + b * (q + y) == (a * p + b * q) + (a * x + b * y)
  {
  }

  lemma {:induction false} SumLe(n: nat, f: Vector, g: Vector)
    requires forall i :: 0 <= i < n ==> f(i) <= g(i)
    ensures Sum(n, f) <= Sum(n, g)
  {
    if n > 0 { SumLe(n - 1, f, g); }
  }

  lemma {:induction false} SumZero(n: nat, f: Vector)
    requires forall i :: 0 <= i < n ==> f(i) == 0.0
    ensures Sum(n, f) == 0.0
  {
    if n > 0 { SumZero(n - 1, f); }
  }

  lemma {:induction false} SumConst(n: nat, f: Vector, c: real)
    requires forall i :: 0 <= i < n ==> f(i) == c
    ensures Sum(n, f) == n as real * c
  {
    if n > 0 {
      SumConst(n - 1, f, c);
      Distribute(c, (n - 1) as real, 1.0, 0.0, 0.0, 0.0);
    }
  }

  /** Changing one term changes the sum by that much. */
  lemma {:induction false} SumOnePoint(n: nat, f: Vector, g: Vector, p: int)
    requires 0 <= p < n
    requires forall i :: 0 <= i < n && i != p ==> f(i) == g(i)
    ensures Sum(n, f) - Sum(n, g) == f(p) - g(p)
  {
    if p == n - 1 { SumExt(n - 1, f, g); } else { SumOnePoint(n - 1, f, g, p); }
  }

  lemma SumTwoPoint(n: nat, f: Vector, g: Vector, p: int, q: int)
    requires 0 <= p < n && 0 <= q < n && p != q
    requires forall i :: 0 <= i < n && i != p && i != q ==> f(i) == g(i)
    ensures Sum(n, f) - Sum(n, g) == f(p) + f(q) - g(p) - g(q)
  {
    var h := i => if i == p then g(p) else f(i);
    SumOnePoint(n, f, h, p);
    SumOnePoint(n, h, g, q);
  }

  ghost function RowSums(n: nat, f: Matrix): Vector { i => Sum(n, Row(f, i)) }

  ghost function Transposed(f: Matrix): Matrix { (i, j) => f(j, i) }

  lemma {:induction false} SumSwap(m: nat, n: nat, f: Matrix)
    ensures Sum(m, RowSums(n, f)) == Sum(n, RowSums(m, Transposed(f)))
  {
    if m == 0 {
      SumZero(n, RowSums(0, Transposed(f)));
    } else {
      SumSwap(m - 1, n, f);
      SumCombine(n, 1.0, RowSums(m - 1, Transposed(f)), 1.0, Row(f, m - 1), RowSums(m, Transposed(f)));
    }
  }

  lemma DotExt(n: nat, x: Vector, y: Vector, x': Vector, y': Vector)
    requires forall i :: 0 <= i < n ==> x(i) == x'(i) && y(i) == y'(i)
    ensures Dot(n, x, y) == Dot(n, x', y')
  {
    SumExt(n, Products(x, y), Products(x', y'));
  }

  lemma DotCommutes(n: nat, x: Vector, y: Vector)
    ensures Dot(n, x, y) == Dot(n, y, x)
  {
    SumExt(n, Products(x, y), Products(y, x));
  }

  lemma DotCombine(n: nat, a: real, x: Vector, b: real, y: Vector, w: Vector, z: Vector)
    requires forall i :: 0 <= i < n ==> w(i) == a * x(i) + b * y(i)
    ensures Dot(n, w, z) == a * Dot(n, x, z) + b * Dot(n, y, z)
  {
    forall i | 0 <= i < n ensures Products(w, z)(i) == a * Products(x, z)(i) + b * Products(y, z)(i) {
      assert (a * x(i) + b * y(i)) * z(i) == a * (x(i) * z(i)) + b * (y(i) * z(i));
    }
    SumCombine(n, a, Products(x, z), b, Products(y, z), Products(w, z));
  }

  ghost function Delta(i: int, j: int): real { if i == j then 1.0 else 0.0 }

  lemma DotBasis(n: nat, i: int, x: Vector, y: Vector)
    requires 0 <= i < n && forall j :: 0 <= j < n ==> x(j) == Delta(i, j)
    ensures Dot(n, x, y) == y(i)
  {
    var z: Vector := j => 0.0;
    SumZero(n, z);
    SumOnePoint(n, Products(x, y), z, i);
  }

  /** m^T times z */
  ghost function TransposeTimes(n: nat, m: Matrix, z: Vector): Vector { j => Dot(n, Column(m, j), z) }

  /** (m w) . z == w . (m^T z) */
  lemma Adjoint(n: nat, m: Matrix, w: Vector, z: Vector)
    ensures Dot(n, Times(n, m, w), z) == Dot(n, w, TransposeTimes(n, m, z))
  {
    var f: Matrix := (i, j) => m(i, j) * w(j) * z(i);
    forall i | 0 <= i < n ensures Products(Times(n, m, w), z)(i) == RowSums(n, f)(i) {
      SumCombine(n, z(i), Products(Row(m, i), w), 0.0, w, Row(f, i));
    }
    SumExt(n, Products(Times(n, m, w), z), RowSums(n, f));
    SumSwap(n, n, f);
    forall j | 0 <= j < n ensures Products(w, TransposeTimes(n, m, z))(j) == RowSums(n, Transposed(f))(j) {
      SumCombine(n, w(j), Products(Column(m, j), z), 0.0, z, Row(Transposed(f), j));
    }
    SumExt(n, Products(w, TransposeTimes(n, m, z)), RowSums(n, Transposed(f)));
  }
}
