/** The unnormalised Laplacian L = D - A: dense, matrix-free, and what its quadratic form means. */
module Laplacian {
  import opened Sums
  import opened Graph

  /** What `laplacian` writes: degrees on the diagonal, -1 for every listed neighbour */
  ghost function LaplacianOf(adj: Adjacency): Matrix {
    (i, j) =>
      if !(0 <= i < |adj|) || j < 0 then 0.0
      else if i == j then |adj[i]| as real
      else if j in adj[i] then -1.0
      else 0.0
  }

  /** The adjacency matrix A, of zeros and ones */
  ghost function Indicator(adj: Adjacency): Matrix {
    (i, j) => if Edge(adj, i, j) then 1.0 else 0.0
  }

  ghost predicate Edge(adj: Adjacency, i: int, j: int) { 0 <= i < |adj| && 0 <= j && j in adj[i] }

  ghost function AsVector(v: seq<real>): Vector { i => if 0 <= i < |v| then v[i] else 0.0 }

  // ---------------------------------------------------------------------
  // Lists of neighbours against rows of A
  // ---------------------------------------------------------------------

  ghost function ListSum(nodes: seq<nat>, f: Vector): real {
    if nodes == [] then 0.0 else ListSum(nodes[..|nodes| - 1], f) + f(nodes[|nodes| - 1])
  }

  ghost function Picked(nodes: seq<nat>, f: Vector): Vector { j => if 0 <= j && j in nodes then f(j) else 0.0 }

  ghost predicate Distinct(nodes: seq<nat>, n: nat) {
    && (forall k :: 0 <= k < |nodes| ==> nodes[k] < n)
    && (forall k, m :: 0 <= k < m < |nodes| ==> nodes[k] != nodes[m])
  }

  /** Summing over a duplicate-free list is summing over all nodes with the others masked out. */
  lemma {:induction false} ListSumIsSum(n: nat, nodes: seq<nat>, f: Vector)
    requires Distinct(nodes, n)
    ensures ListSum(nodes, f) == Sum(n, Picked(nodes, f))
  {
    if nodes == [] {
      SumZero(n, Picked(nodes, f));
    } else {
      var init, last := nodes[..|nodes| - 1], nodes[|nodes| - 1];
      ListSumIsSum(n, init, f);
      assert nodes == init + [last] && last !in init;
      SumOnePoint(n, Picked(nodes, f), Picked(init, f), last);
    }
  }

  lemma {:induction false} ListSumConst(nodes: seq<nat>, f: Vector)
    requires forall k :: 0 <= k < |nodes| ==> f(nodes[k]) == 1.0
    ensures ListSum(nodes, f) == |nodes| as real
  {
    if nodes != [] { ListSumConst(nodes[..|nodes| - 1], f); }
  }

  ghost function Ones(): Vector { i => 1.0 }

  lemma Degree(adj: Adjacency, i: nat)
    requires WellFormed(adj) && i < |adj|
    ensures |adj[i]| as real == Sum(|adj|, Row(Indicator(adj), i))
  {
    assert GoodRow(adj, i);
    ListSumConst(adj[i], Ones());
    ListSumIsSum(|adj|, adj[i], Ones());
    SumExt(|adj|, Picked(adj[i], Ones()), Row(Indicator(adj), i));
  }

  lemma LaplacianEntry(adj: Adjacency, i: nat, j: nat, x: Vector)
    requires i < |adj|
    ensures Products(Row(LaplacianOf(adj), i), x)(j) ==
      if i == j then |adj[i]| as real * x(i) else if j in adj[i] then -x(j) else 0.0
  {
    var y := x(j);
    if i != j {
      if j in adj[i] { assert -1.0 * y == -y; } else { assert 0.0 * y == 0.0; }
    }
  }

  ghost function Negated(f: Vector): Vector { j => -f(j) }

  /** Row i of L times x, by the adjacency list */
  lemma LaplacianRow(adj: Adjacency, i: nat, x: Vector)
    requires WellFormed(adj) && i < |adj|
    ensures Times(|adj|, LaplacianOf(adj), x)(i) == |adj[i]| as real * x(i) - ListSum(adj[i], x)
  {
    var n := |adj|;
    var f, g := Products(Row(LaplacianOf(adj), i), x), Picked(adj[i], x);
    assert GoodRow(adj, i);
    forall j | 0 <= j < n && j != i ensures f(j) == Negated(g)(j) { LaplacianEntry(adj, i, j, x); }
    LaplacianEntry(adj, i, i, x);
    SumCombine(n, -1.0, g, 0.0, g, Negated(g));
    SumOnePoint(n, f, Negated(g), i);
    ListSumIsSum(n, adj[i], x);
  }

  lemma LaplacianSymmetric(adj: Adjacency)
    requires WellFormed(adj)
    ensures Symmetric(|adj|, LaplacianOf(adj))
    ensures forall i, j :: 0 <= i < |adj| && 0 <= j < |adj| ==> (Edge(adj, i, j) <==> Edge(adj, j, i))
  {
    forall i: nat, j: nat | i < |adj| && j < |adj| && j in adj[i] ensures i in adj[j] {
      assert GoodRow(adj, i);
    }
  }

  // ---------------------------------------------------------------------
  // The two implementations
  // ---------------------------------------------------------------------

  /** `Graph::laplacian` */
  method DenseLaplacian(g: Graph) returns (l: array2<real>)
    requires g.Valid()
    ensures fresh(l) && l.Length0 == l.Length1 == g.nodes
    ensures forall i, j :: 0 <= i < g.nodes && 0 <= j < g.nodes ==> l[i, j] == LaplacianOf(g.adjacency)(i, j)
  {
    var n, adj := g.nodes, g.adjacency;
    l := new real[n, n]((i, j) => 0.0);
    var i := 0;
    while i < n
      invariant 0 <= i <= n
      invariant forall a, b :: 0 <= a < i && 0 <= b < n ==> l[a, b] == LaplacianOf(adj)(a, b)
      invariant forall a, b :: i <= a < n && 0 <= b < n ==> l[a, b] == 0.0
    {
      l[i, i] := |adj[i]| as real;
      assert GoodRow(adj, i);
      var k := 0;
      while k < |adj[i]|
        invariant 0 <= k <= |adj[i]|
        invariant forall a, b :: 0 <= a < i && 0 <= b < n ==> l[a, b] == LaplacianOf(adj)(a, b)
        invariant forall a, b :: i < a < n && 0 <= b < n ==> l[a, b] == 0.0
        invariant l[i, i] == |adj[i]| as real
        invariant forall b :: 0 <= b < n && b != i ==> l[i, b] == if b in adj[i][..k] then -1.0 else 0.0
      {
        assert adj[i][..k + 1] == adj[i][..k] + [adj[i][k]];
        l[i, adj[i][k]] := -1.0;
        k := k + 1;
      }
      assert adj[i][..|adj[i]|] == adj[i];
      i := i + 1;
    }
  }

  /** `Graph::laplacian_matvec`: the same product without the matrix */
  method LaplacianMatvec(g: Graph, v: seq<real>) returns (r: seq<real>)
    requires g.Valid() && |v| == g.nodes
    ensures |r| == g.nodes
    ensures forall i :: 0 <= i < g.nodes ==> r[i] == Times(g.nodes, LaplacianOf(g.adjacency), AsVector(v))(i)
  {
    var adj := g.adjacency;
    r := [];
    while |r| < g.nodes
      invariant |r| <= g.nodes
      invariant forall i :: 0 <= i < |r| ==> r[i] == Times(g.nodes, LaplacianOf(adj), AsVector(v))(i)
    {
      var i := |r|;
      var acc := |adj[i]| as real * v[i];
      assert GoodRow(adj, i);
      var k := 0;
      while k < |adj[i]|
        invariant 0 <= k <= |adj[i]|
        invariant acc == |adj[i]| as real * v[i] - ListSum(adj[i][..k], AsVector(v))
      {
        assert adj[i][..k + 1][..k] == adj[i][..k];
        acc := acc - v[adj[i][k]];
        k := k + 1;
      }
      assert adj[i][..|adj[i]|] == adj[i];
      LaplacianRow(adj, i, AsVector(v));
      r := r + [acc];
    }
  }

  // ---------------------------------------------------------------------
  // What the quadratic form means
  // ---------------------------------------------------------------------

  ghost function Square(z: real): real { z * z }

  /** (x_i - x_j)^2 for every ordered pair of neighbours */
  ghost function Gap(adj: Adjacency, x: Vector): Matrix {
    (i, j) => if Edge(adj, i, j) then Square(x(i) - x(j)) else 0.0
  }

  ghost function BelowDiagonal(f: Matrix): Vector { i => if i < 0 then 0.0 else Sum(i, Row(f, i)) }

  /** The sum over edges {i, j}, each counted once, of (x_i - x_j)^2 */
  ghost function EdgeEnergy(adj: Adjacency, x: Vector): real { Sum(|adj|, BelowDiagonal(Gap(adj, x))) }

  /** A symmetric table with an empty diagonal sums to twice its lower half. */
  lemma {:induction false} TwiceTheTriangle(n: nat, f: Matrix)
    requires Symmetric(n, f) && forall i :: 0 <= i < n ==> f(i, i) == 0.0
    ensures Sum(n, RowSums(n, f)) == 2.0 * Sum(n, BelowDiagonal(f))
  {
    if n > 0 {
      TwiceTheTriangle(n - 1, f);
      SumCombine(n - 1, 1.0, RowSums(n - 1, f), 1.0, Column(f, n - 1), RowSums(n, f));
      SumExt(n - 1, Column(f, n - 1), Row(f, n - 1));
    }
  }

  /** x_i^2 for every ordered pair of neighbours */
  ghost function SquareTail(adj: Adjacency, x: Vector): Matrix { (i, j) => if Edge(adj, i, j) then x(i) * x(i) else 0.0 }

  ghost function CrossTerm(adj: Adjacency, x: Vector): Matrix { (i, j) => if Edge(adj, i, j) then x(i) * x(j) else 0.0 }

  ghost function Degrees(adj: Adjacency): Vector { i => if 0 <= i < |adj| then |adj[i]| as real else 0.0 }

  ghost function Weighted(adj: Adjacency, x: Vector): Vector { i => Degrees(adj)(i) * (x(i) * x(i)) }

  lemma SquareTailRow(adj: Adjacency, x: Vector, i: nat)
    requires WellFormed(adj) && i < |adj|
    ensures RowSums(|adj|, SquareTail(adj, x))(i) == Weighted(adj, x)(i)
  {
    Degree(adj, i);
    var a, t, c := Row(Indicator(adj), i), Row(SquareTail(adj, x), i), x(i) * x(i);
    forall j | 0 <= j < |adj| ensures t(j) == c * a(j) + 0.0 * a(j) {
      if Edge(adj, i, j) { assert c * 1.0 == c; } else { assert c * 0.0 == 0.0; }
    }
    SumCombine(|adj|, c, a, 0.0, a, t);
  }

  lemma FormRow(adj: Adjacency, x: Vector, i: nat)
    requires WellFormed(adj) && i < |adj|
    ensures Products(x, Times(|adj|, LaplacianOf(adj), x))(i) ==
      RowSums(|adj|, SquareTail(adj, x))(i) - RowSums(|adj|, CrossTerm(adj, x))(i)
  {
    var n := |adj|;
    LaplacianRow(adj, i, x);
    SquareTailRow(adj, x, i);
    assert GoodRow(adj, i);
    ListSumIsSum(n, adj[i], x);
    var g, h := Picked(adj[i], x), Row(CrossTerm(adj, x), i);
    SumCombine(n, x(i), g, 0.0, g, h);
    RowArithmetic(x(i), |adj[i]| as real, ListSum(adj[i], x));
  }

  lemma RowArithmetic(x: real, d: real, t: real)
    ensures x * (d * x - t) == d * (x * x) - x * t
  {
  }

  lemma GapExpands(x: real, y: real)
    ensures Square(x - y) == x * x + y * y - 2.0 * (x * y)
  {
  }

  lemma GapRow(adj: Adjacency, x: Vector, i: nat)
    requires WellFormed(adj) && i < |adj|
    ensures RowSums(|adj|, Gap(adj, x))(i) ==
      RowSums(|adj|, SquareTail(adj, x))(i) + RowSums(|adj|, Transposed(SquareTail(adj, x)))(i)
      - 2.0 * RowSums(|adj|, CrossTerm(adj, x))(i)
  {
    var n := |adj|;
    var f, g, h := Row(SquareTail(adj, x), i), Row(Transposed(SquareTail(adj, x)), i), Row(CrossTerm(adj, x), i);
    var s: Vector := j => f(j) + g(j);
    SumCombine(n, 1.0, f, 1.0, g, s);
    LaplacianSymmetric(adj);
    forall j | 0 <= j < n ensures Row(Gap(adj, x), i)(j) == 1.0 * s(j) + -2.0 * h(j) {
      assert Edge(adj, i, j) <==> Edge(adj, j, i);
      GapExpands(x(i), x(j));
    }
    SumCombine(n, 1.0, s, -2.0, h, Row(Gap(adj, x), i));
  }

  lemma FormSplits(adj: Adjacency, x: Vector)
    requires WellFormed(adj)
    ensures Form(|adj|, LaplacianOf(adj), x, x) ==
      Sum(|adj|, RowSums(|adj|, SquareTail(adj, x))) - Sum(|adj|, RowSums(|adj|, CrossTerm(adj, x)))
  {
    var n := |adj|;
    var tail, cross := RowSums(n, SquareTail(adj, x)), RowSums(n, CrossTerm(adj, x));
    var form := Products(x, Times(n, LaplacianOf(adj), x));
    forall i | 0 <= i < n ensures form(i) == 1.0 * tail(i) + -1.0 * cross(i) { FormRow(adj, x, i); }
    SumCombine(n, 1.0, tail, -1.0, cross, form);
  }

  lemma GapSplits(adj: Adjacency, x: Vector)
    requires WellFormed(adj)
    ensures Sum(|adj|, RowSums(|adj|, Gap(adj, x))) ==
      2.0 * Sum(|adj|, RowSums(|adj|, SquareTail(adj, x))) - 2.0 * Sum(|adj|, RowSums(|adj|, CrossTerm(adj, x)))
  {
    var n := |adj|;
    var tail, tail', cross := RowSums(n, SquareTail(adj, x)), RowSums(n, Transposed(SquareTail(adj, x))), RowSums(n, CrossTerm(adj, x));
    var both: Vector := i => tail(i) + tail'(i);
    SumCombine(n, 1.0, tail, 1.0, tail', both);
    forall i | 0 <= i < n ensures RowSums(n, Gap(adj, x))(i) == 1.0 * both(i) + -2.0 * cross(i) { GapRow(adj, x, i); }
    SumCombine(n, 1.0, both, -2.0, cross, RowSums(n, Gap(adj, x)));
    SumSwap(n, n, SquareTail(adj, x));
  }

  /** x^T L x is the sum over the edges of (x_i - x_j)^2. */
  lemma FormIsEdgeEnergy(adj: Adjacency, x: Vector)
    requires WellFormed(adj)
    ensures Form(|adj|, LaplacianOf(adj), x, x) == EdgeEnergy(adj, x)
  {
    FormSplits(adj, x);
    GapSplits(adj, x);
    GapSymmetric(adj, x);
    TwiceTheTriangle(|adj|, Gap(adj, x));
  }

  lemma SquareEven(x: real, y: real)
    ensures Square(x - y) == Square(y - x)
  {
    GapExpands(x, y);
    GapExpands(y, x);
  }

  lemma GapSymmetric(adj: Adjacency, x: Vector)
    requires WellFormed(adj)
    ensures Symmetric(|adj|, Gap(adj, x)) && forall i :: 0 <= i < |adj| ==> Gap(adj, x)(i, i) == 0.0
  {
    LaplacianSymmetric(adj);
    forall i | 0 <= i < |adj| ensures Gap(adj, x)(i, i) == 0.0 { assert GoodRow(adj, i); }
    forall i, j | 0 <= i < |adj| && 0 <= j < |adj| ensures Gap(adj, x)(i, j) == Gap(adj, x)(j, i) {
      SquareEven(x(i), x(j));
      assert Edge(adj, i, j) <==> Edge(adj, j, i);
    }
  }

  // ---------------------------------------------------------------------
  // Spectral bounds
  // ---------------------------------------------------------------------

  function MaxDegree(adj: Adjacency): nat {
    if adj == [] then 0
    else var rest := MaxDegree(adj[..|adj| - 1]); if |adj[|adj| - 1]| > rest then |adj[|adj| - 1]| else rest
  }

  /** `gershgorin_lambda_max`: twice the largest degree */
  function GershgorinLambdaMax(adj: Adjacency): real { 2.0 * MaxDegree(adj) as real }

  lemma {:induction false} DegreeAtMost(adj: Adjacency, i: nat)
    requires i < |adj|
    ensures |adj[i]| <= MaxDegree(adj)
  {
    if i < |adj| - 1 { DegreeAtMost(adj[..|adj| - 1], i); }
  }

  lemma {:induction false} MaxDegreeExact(adj: Adjacency)
    requires |adj| > 0
    ensures exists i :: 0 <= i < |adj| && |adj[i]| == MaxDegree(adj)
    ensures forall i :: 0 <= i < |adj| ==> |adj[i]| <= MaxDegree(adj)
  {
    var n := |adj| - 1;
    forall i | 0 <= i < |adj| ensures |adj[i]| <= MaxDegree(adj) { DegreeAtMost(adj, i); }
    if |adj[n]| < MaxDegree(adj) {
      MaxDegreeExact(adj[..n]);
      var i :| 0 <= i < n && |adj[..n][i]| == MaxDegree(adj[..n]);
      assert |adj[i]| == MaxDegree(adj);
    }
  }

  /** The bound is the far end of the widest Gershgorin disc: twice the degree of one node, and of no node less. */
  lemma GershgorinExact(adj: Adjacency)
    requires |adj| > 0
    ensures exists i :: 0 <= i < |adj| && GershgorinLambdaMax(adj) == 2.0 * |adj[i]| as real
    ensures forall i :: 0 <= i < |adj| ==> 2.0 * |adj[i]| as real <= GershgorinLambdaMax(adj)
  {
    MaxDegreeExact(adj);
  }

  lemma SquareNonNegative(z: real)
    ensures z * z >= 0.0
  {
    if z >= 0.0 { assert z * z >= 0.0; } else { assert z * z == (-z) * (-z); }
  }

  lemma SquareGap(x: real, y: real)
    ensures 0.0 <= Square(x - y) <= 2.0 * (x * x) + 2.0 * (y * y)
  {
    var u, v := x - y, x + y;
    SquareNonNegative(u);
    SquareNonNegative(v);
    assert u * u + v * v == 2.0 * (x * x) + 2.0 * (y * y);
  }

  lemma GapBounds(adj: Adjacency, x: Vector, i: int, j: int)
    ensures 0.0 <= Gap(adj, x)(i, j)
    ensures Edge(adj, i, j) ==> Gap(adj, x)(i, j) <= 2.0 * (x(i) * x(i)) + 2.0 * (x(j) * x(j))
  {
    SquareGap(x(i), x(j));
  }

  lemma {:induction false} SumNonNegative(n: nat, f: Vector)
    requires forall i :: 0 <= i < n ==> f(i) >= 0.0
    ensures Sum(n, f) >= 0.0
  {
    if n > 0 { SumNonNegative(n - 1, f); }
  }

  /** L is positive semidefinite. */
  lemma FormNonNegative(adj: Adjacency, x: Vector)
    requires WellFormed(adj)
    ensures Form(|adj|, LaplacianOf(adj), x, x) >= 0.0
  {
    FormIsEdgeEnergy(adj, x);
    forall i | 0 <= i < |adj| ensures BelowDiagonal(Gap(adj, x))(i) >= 0.0 {
      forall j | 0 <= j < i ensures Row(Gap(adj, x), i)(j) >= 0.0 { GapBounds(adj, x, i, j); }
      SumNonNegative(i, Row(Gap(adj, x), i));
    }
    SumNonNegative(|adj|, BelowDiagonal(Gap(adj, x)));
  }

  lemma GapRowBound(adj: Adjacency, x: Vector, i: nat)
    requires WellFormed(adj) && i < |adj|
    ensures RowSums(|adj|, Gap(adj, x))(i) <=
      2.0 * RowSums(|adj|, SquareTail(adj, x))(i) + 2.0 * RowSums(|adj|, Transposed(SquareTail(adj, x)))(i)
  {
    var n := |adj|;
    var f, g := Row(SquareTail(adj, x), i), Row(Transposed(SquareTail(adj, x)), i);
    var s: Vector := j => 2.0 * f(j) + 2.0 * g(j);
    SumCombine(n, 2.0, f, 2.0, g, s);
    LaplacianSymmetric(adj);
    forall j | 0 <= j < n ensures Row(Gap(adj, x), i)(j) <= s(j) {
      assert Edge(adj, i, j) <==> Edge(adj, j, i);
      GapBounds(adj, x, i, j);
    }
    SumLe(n, Row(Gap(adj, x), i), s);
  }

  ghost function Scaled(c: real, f: Vector): Vector { i => c * f(i) }

  lemma TailRowBound(adj: Adjacency, x: Vector, i: nat, m: real)
    requires WellFormed(adj) && i < |adj| && Degrees(adj)(i) <= m
    ensures RowSums(|adj|, SquareTail(adj, x))(i) <= Scaled(m, Products(x, x))(i)
  {
    SquareTailRow(adj, x, i);
    var d, y := Degrees(adj)(i), x(i);
    ScaleLe(d, m, y);
  }

  lemma TailBound(adj: Adjacency, x: Vector, m: real)
    requires WellFormed(adj) && forall i :: 0 <= i < |adj| ==> Degrees(adj)(i) <= m
    ensures Sum(|adj|, RowSums(|adj|, SquareTail(adj, x))) <= m * Dot(|adj|, x, x)
  {
    var n := |adj|;
    var tail, w := RowSums(n, SquareTail(adj, x)), Scaled(m, Products(x, x));
    forall i | 0 <= i < n ensures tail(i) <= w(i) {
      TailRowBound(adj, x, i, m);
    }
    SumLe(n, tail, w);
    SumCombine(n, m, Products(x, x), 0.0, Products(x, x), w);
  }

  /** No Rayleigh quotient of L exceeds twice the largest degree. */
  lemma FormBelowGershgorin(adj: Adjacency, x: Vector)
    requires WellFormed(adj)
    ensures Form(|adj|, LaplacianOf(adj), x, x) <= GershgorinLambdaMax(adj) * Dot(|adj|, x, x)
  {
    var n := |adj|;
    var gap, tail, tail' := RowSums(n, Gap(adj, x)), RowSums(n, SquareTail(adj, x)), RowSums(n, Transposed(SquareTail(adj, x)));
    var s: Vector := i => 2.0 * tail(i) + 2.0 * tail'(i);
    SumCombine(n, 2.0, tail, 2.0, tail', s);
    forall i | 0 <= i < n ensures gap(i) <= s(i) { GapRowBound(adj, x, i); }
    SumLe(n, gap, s);
    SumSwap(n, n, SquareTail(adj, x));
    FormSplits(adj, x);
    GapSplits(adj, x);
    forall i | 0 <= i < n ensures Degrees(adj)(i) <= MaxDegree(adj) as real { DegreeAtMost(adj, i); }
    TailBound(adj, x, MaxDegree(adj) as real);
  }

  lemma ScaleLe(d: real, m: real, x: real)
    requires d <= m
    ensures d * (x * x) <= m * (x * x)
  {
  }

  /** L maps the constant vector to zero. */
  lemma OnesInKernel(adj: Adjacency, i: nat)
    requires WellFormed(adj) && i < |adj|
    ensures Times(|adj|, LaplacianOf(adj), Ones())(i) == 0.0
  {
    LaplacianRow(adj, i, Ones());
    ListSumConst(adj[i], Ones());
  }

  ghost predicate Eigenpair(adj: Adjacency, lambda: real, x: Vector) {
    forall i :: 0 <= i < |adj| ==> Times(|adj|, LaplacianOf(adj), x)(i) == lambda * x(i)
  }

  lemma EigenForm(adj: Adjacency, lambda: real, x: Vector)
    requires Eigenpair(adj, lambda, x)
    ensures Form(|adj|, LaplacianOf(adj), x, x) == lambda * Dot(|adj|, x, x)
  {
    var n := |adj|;
    var f, g := Products(x, Times(n, LaplacianOf(adj), x)), Products(x, x);
    forall i | 0 <= i < n ensures f(i) == lambda * g(i) + 0.0 * g(i) {
      assert x(i) * (lambda * x(i)) == lambda * (x(i) * x(i));
    }
    SumCombine(n, lambda, g, 0.0, g, f);
  }

  /** Every eigenvalue of L lies between 0 and the Gershgorin bound. */
  lemma EigenvalueInRange(adj: Adjacency, lambda: real, x: Vector)
    requires WellFormed(adj) && Eigenpair(adj, lambda, x) && Dot(|adj|, x, x) > 0.0
    ensures 0.0 <= lambda <= GershgorinLambdaMax(adj)
  {
    EigenForm(adj, lambda, x);
    FormNonNegative(adj, x);
    FormBelowGershgorin(adj, x);
    QuotientBounds(lambda, GershgorinLambdaMax(adj), Dot(|adj|, x, x));
  }

  lemma NegativeTimesPositive(a: real, b: real)
    requires a < 0.0 < b
    ensures a * b < 0.0
  {
  }

  lemma QuotientBounds(l: real, g: real, d: real)
    requires d > 0.0 && 0.0 <= l * d <= g * d
    ensures 0.0 <= l <= g
  {
    if l < 0.0 { NegativeTimesPositive(l, d); }
    if l > g { NegativeTimesPositive(g - l, d); }
  }

  // ---------------------------------------------------------------------
  // The kernel of L is the constants exactly when the graph is connected
  // ---------------------------------------------------------------------

  lemma {:induction false} PositiveSum(n: nat, f: Vector, i: int)
    requires (forall k :: 0 <= k < n ==> f(k) >= 0.0) && 0 <= i < n && f(i) > 0.0
    ensures Sum(n, f) > 0.0
  {
    SumNonNegative(n - 1, f);
    if i < n - 1 { PositiveSum(n - 1, f, i); }
  }

  lemma PositiveProduct(a: real, b: real, c: real)
    requires c == a * b && ((a > 0.0 && b > 0.0) || (a < 0.0 && b < 0.0))
    ensures c > 0.0
  {
    assert a * b > 0.0;
  }

  lemma SquarePositive(y: real, z: real)
    requires y == z && z != 0.0
    ensures Square(z) > 0.0
  {
    PositiveProduct(y, z, Square(z));
  }

  lemma GapMakesEnergy(adj: Adjacency, x: Vector, i: int, j: int)
    requires WellFormed(adj) && 0 <= j < i < |adj| && Edge(adj, i, j) && x(i) != x(j)
    ensures EdgeEnergy(adj, x) > 0.0
  {
    var f := Gap(adj, x);
    forall a | 0 <= a < |adj| ensures BelowDiagonal(f)(a) >= 0.0 {
      forall b | 0 <= b < a ensures Row(f, a)(b) >= 0.0 { GapBounds(adj, x, a, b); }
      SumNonNegative(a, Row(f, a));
    }
    forall b | 0 <= b < i ensures Row(f, i)(b) >= 0.0 { GapBounds(adj, x, i, b); }
    SquarePositive(x(i) - x(j), x(i) - x(j));
    PositiveSum(i, Row(f, i), j);
    PositiveSum(|adj|, BelowDiagonal(f), i);
  }

  lemma {:induction false} ConstantAlongWalks(adj: Adjacency, x: Vector, v: nat, k: nat)
    requires WellFormed(adj) && EdgeEnergy(adj, x) == 0.0 && Walk(adj, 0, v, k)
    ensures x(v) == x(0)
    decreases k
  {
    if k > 0 {
      var u: nat :| Walk(adj, 0, u, k - 1) && Adjacent(adj, u, v);
      ConstantAlongWalks(adj, x, u, k - 1);
      assert GoodRow(adj, u);
      assert Edge(adj, u, v) && Edge(adj, v, u);
      if x(u) != x(v) {
        if v < u { GapMakesEnergy(adj, x, u, v); } else { GapMakesEnergy(adj, x, v, u); }
      }
    }
  }

  lemma KernelOfConnected(adj: Adjacency, x: Vector, v: nat)
    requires WellFormed(adj) && Connected(adj) && Eigenpair(adj, 0.0, x) && v < |adj|
    ensures x(v) == x(0)
  {
    EigenForm(adj, 0.0, x);
    FormIsEdgeEnergy(adj, x);
    assert Reachable(adj, 0, v);
    var k: nat :| Walk(adj, 0, v, k);
    ConstantAlongWalks(adj, x, v, k);
  }

  /** 1 on the component of node 0, 0 elsewhere */
  ghost function ComponentOfZero(adj: Adjacency): Vector { i => if 0 <= i && Reachable(adj, 0, i) then 1.0 else 0.0 }

  lemma {:induction false} ListSumSame(nodes: seq<nat>, f: Vector, c: real)
    requires forall k :: 0 <= k < |nodes| ==> f(nodes[k]) == c
    ensures ListSum(nodes, f) == |nodes| as real * c
  {
    if nodes != [] { ListSumSame(nodes[..|nodes| - 1], f, c); }
  }

  lemma ReachableAcross(adj: Adjacency, u: nat, v: nat)
    requires Adjacent(adj, u, v) && Reachable(adj, 0, u)
    ensures Reachable(adj, 0, v)
  {
    var k: nat :| Walk(adj, 0, u, k);
    WalkOn(adj, 0, u, v, k);
  }

  lemma ComponentInKernel(adj: Adjacency)
    requires WellFormed(adj)
    ensures Eigenpair(adj, 0.0, ComponentOfZero(adj))
  {
    var x := ComponentOfZero(adj);
    forall i | 0 <= i < |adj| ensures Times(|adj|, LaplacianOf(adj), x)(i) == 0.0 * x(i) {
      LaplacianRow(adj, i, x);
      assert GoodRow(adj, i);
      forall k | 0 <= k < |adj[i]| ensures x(adj[i][k]) == x(i) {
        var j := adj[i][k];
        assert Adjacent(adj, i, j) && Adjacent(adj, j, i);
        if Reachable(adj, 0, i) { ReachableAcross(adj, i, j); }
        if Reachable(adj, 0, j) { ReachableAcross(adj, j, i); }
      }
      ListSumSame(adj[i], x, x(i));
    }
  }

  /** The graph is connected iff L has no null vector but the constants, the zero-eigenvalue test behind the hub. */
  lemma ConnectedIffConstantKernel(adj: Adjacency)
    requires WellFormed(adj)
    ensures Connected(adj) <==>
      forall x: Vector :: Eigenpair(adj, 0.0, x) ==> forall v: nat :: v < |adj| ==> x(v) == x(0)
  {
    if Connected(adj) {
      forall x: Vector, v: nat | Eigenpair(adj, 0.0, x) && v < |adj| ensures x(v) == x(0) {
        KernelOfConnected(adj, x, v);
      }
    } else {
      var v: nat :| v < |adj| && !Reachable(adj, 0, v);
      var x := ComponentOfZero(adj);
      ComponentInKernel(adj);
      assert Walk(adj, 0, 0, 0);
      assert x(0) == 1.0 && x(v) == 0.0;
    }
  }
}
