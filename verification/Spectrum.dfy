/** The end of `embed`: eigenpairs in ascending order, and what the embedding then means. */
module Spectrum {
  import opened Wrappers
  import opened Sums
  import opened Jacobi
  import opened Laplacian
  import opened Embedding
  import G = Graph

  datatype SpectralEmbedding = SpectralEmbedding(nodes: nat, dims: nat, vectors: seq<seq<real>>, eigenvalues: seq<real>, connectivity: real)

  // ---------------------------------------------------------------------
  // Sorting column numbers by their diagonal value
  // ---------------------------------------------------------------------

  ghost predicate InRange(order: seq<nat>, n: nat) { forall k :: 0 <= k < |order| ==> order[k] < n }
  ghost predicate Different(order: seq<nat>) { forall j, k :: 0 <= j < k < |order| ==> order[j] != order[k] }
  ghost predicate Ascending(order: seq<nat>, key: seq<real>)
    requires InRange(order, |key|)
  {
    forall j, k :: 0 <= j < k < |order| ==> key[order[j]] <= key[order[k]]
  }

  /** After every entry that is not greater: a stable sort */
  method InsertByKey(x: nat, order: seq<nat>, key: seq<real>) returns (more: seq<nat>)
    requires x < |key| && InRange(order, x) && Different(order) && InRange(order, |key|) && Ascending(order, key)
    ensures |more| == |order| + 1 && InRange(more, x + 1) && InRange(more, |key|) && Different(more) && Ascending(more, key)
  {
    var at := |order|;
    while at > 0 && key[order[at - 1]] > key[x]
      invariant 0 <= at <= |order|
      invariant forall k :: at <= k < |order| ==> key[order[k]] > key[x]
    {
      at := at - 1;
    }
    more := order[..at] + [x] + order[at..];
    InsertedApart(x, order, at);
    InsertedAscends(x, order, at, key);
  }

  lemma InsertedAt(x: nat, order: seq<nat>, at: nat, k: nat)
    requires at <= |order| && k <= |order|
    ensures (order[..at] + [x] + order[at..])[k] == if k < at then order[k] else if k == at then x else order[k - 1]
  {
  }

  lemma InsertedApart(x: nat, order: seq<nat>, at: nat)
    requires at <= |order| && InRange(order, x) && Different(order)
    ensures InRange(order[..at] + [x] + order[at..], x + 1) && Different(order[..at] + [x] + order[at..])
  {
    var more := order[..at] + [x] + order[at..];
    forall j, k | 0 <= j < k < |more| ensures more[j] != more[k] {
      InsertedAt(x, order, at, j);
      InsertedAt(x, order, at, k);
    }
    forall k | 0 <= k < |more| ensures more[k] < x + 1 { InsertedAt(x, order, at, k); }
  }

  lemma InsertedAscends(x: nat, order: seq<nat>, at: nat, key: seq<real>)
    requires at <= |order| && InRange(order, |key|) && x < |key| && Ascending(order, key)
    requires at > 0 ==> key[order[at - 1]] <= key[x]
    requires forall k :: at <= k < |order| ==> key[x] <= key[order[k]]
    ensures InRange(order[..at] + [x] + order[at..], |key|) && Ascending(order[..at] + [x] + order[at..], key)
  {
    var more := order[..at] + [x] + order[at..];
    forall k | 0 <= k < |more| ensures more[k] < |key| { InsertedAt(x, order, at, k); }
    forall j, k | 0 <= j < k < |more| ensures key[more[j]] <= key[more[k]] {
      InsertedAt(x, order, at, j);
      InsertedAt(x, order, at, k);
    }
  }

  /** `pairs.sort_by`: all columns, once each, by ascending value */
  method SortColumns(key: seq<real>) returns (order: seq<nat>)
    ensures |order| == |key| && InRange(order, |key|) && Different(order) && Ascending(order, key)
  {
    order := [];
    while |order| < |key|
      invariant |order| <= |key| && InRange(order, |order|) && InRange(order, |key|) && Different(order) && Ascending(order, key)
    {
      order := InsertByKey(|order|, order, key);
    }
  }

  // ---------------------------------------------------------------------
  // The embedding
  // ---------------------------------------------------------------------

  ghost function VectorOf(e: SpectralEmbedding, k: nat): Vector {
    i => if 0 <= i < |e.vectors| && k < |e.vectors[i]| then e.vectors[i][k] else 0.0
  }

  /** L x - lambda x */
  ghost function Defect(n: nat, l0: Matrix, x: Vector, lambda: real): Vector { i => Times(n, l0, x)(i) - lambda * x(i) }

  /** The eigenvalue a column stands for: its diagonal entry, clamped at zero */
  ghost function Clamped(l: Matrix, a: int): real { if l(a, a) > 0.0 then l(a, a) else 0.0 }

  /** All columns, once each, by ascending eigenvalue */
  ghost predicate SortedColumns(n: nat, l: Matrix, order: seq<nat>) {
    && |order| == n && InRange(order, n) && Different(order)
    && forall j, k :: 0 <= j < k < n ==> Clamped(l, order[j]) <= Clamped(l, order[k])
  }

  /** Dimension k holds column order[k] of u and the diagonal entry it belongs to. */
  ghost predicate Picks(e: SpectralEmbedding, n: nat, l: Matrix, u: Matrix, order: seq<nat>) {
    && |e.vectors| == n && e.dims <= |order| && |e.eigenvalues| == e.dims && InRange(order, n) && Different(order)
    && (forall i :: 0 <= i < n ==> |e.vectors[i]| == e.dims)
    && (forall k :: 0 <= k < e.dims ==> e.eigenvalues[k] == Clamped(l, order[k]))
    && (forall i, k :: 0 <= i < n && 0 <= k < e.dims ==> e.vectors[i][k] == u(i, order[k]))
  }

  ghost predicate AscendingValues(values: seq<real>) { forall j, k :: 0 <= j < k < |values| ==> values[j] <= values[k] }

  method Diagonals(l: array2<real>, n: nat) returns (key: seq<real>)
    requires IsSquare(l, n)
    ensures |key| == n && forall i :: 0 <= i < n ==> key[i] == Clamped(View(l), i)
  {
    key := [];
    while |key| < n
      invariant |key| <= n && forall i :: 0 <= i < |key| ==> key[i] == Clamped(View(l), i)
    {
      var v := l[|key|, |key|];
      key := key + [if v > 0.0 then v else 0.0];
    }
  }

  method PickRow(u: array2<real>, n: nat, i: nat, order: seq<nat>) returns (row: seq<real>)
    requires IsSquare(u, n) && i < n && InRange(order, n)
    ensures |row| == |order| && forall k :: 0 <= k < |row| ==> row[k] == View(u)(i, order[k])
  {
    row := [];
    while |row| < |order|
      invariant |row| <= |order| && forall k :: 0 <= k < |row| ==> row[k] == View(u)(i, order[k])
    {
      row := row + [u[i, order[|row|]]];
    }
  }

  method PickValues(key: seq<real>, order: seq<nat>) returns (values: seq<real>)
    requires InRange(order, |key|)
    ensures |values| == |order| && forall k :: 0 <= k < |values| ==> values[k] == key[order[k]]
  {
    values := [];
    while |values| < |order|
      invariant |values| <= |order| && forall k :: 0 <= k < |values| ==> values[k] == key[order[k]]
    {
      values := values + [key[order[|values|]]];
    }
  }

  method PickRows(u: array2<real>, n: nat, order: seq<nat>) returns (vectors: seq<seq<real>>)
    requires IsSquare(u, n) && InRange(order, n)
    ensures |vectors| == n && forall i :: 0 <= i < n ==> |vectors[i]| == |order|
    ensures forall i, k :: 0 <= i < n && 0 <= k < |order| ==> vectors[i][k] == View(u)(i, order[k])
  {
    vectors := [];
    while |vectors| < n
      invariant |vectors| <= n && forall i :: 0 <= i < |vectors| ==> |vectors[i]| == |order|
      invariant forall i, k :: 0 <= i < |vectors| && 0 <= k < |order| ==> vectors[i][k] == View(u)(i, order[k])
    {
      var row := PickRow(u, n, |vectors|, order);
      vectors := vectors + [row];
    }
  }

  /** Clamp, sort, cut to the wanted number of dimensions: the first ones of all columns in ascending order */
  method Extract(l: array2<real>, u: array2<real>, n: nat, dimensions: Option<nat>) returns (e: SpectralEmbedding, ghost order: seq<nat>)
    requires IsSquare(l, n) && IsSquare(u, n)
    ensures SortedColumns(n, View(l), order) && Picks(e, n, View(l), View(u), order) && e.nodes == n
    ensures e.dims == if dimensions.Some? && dimensions.value < n then dimensions.value else n
    ensures e.connectivity == if e.dims > 1 then e.eigenvalues[1] else 0.0
  {
    var key := Diagonals(l, n);
    var sorted := SortColumns(key);
    var dims := if dimensions.Some? && dimensions.value < n then dimensions.value else n;
    var kept := sorted[..dims];
    var values := PickValues(key, kept);
    var vectors := PickRows(u, n, kept);
    order := sorted;
    e := SpectralEmbedding(n, dims, vectors, values, if dims > 1 then values[1] else 0.0);
  }

  /** The embedding with every dimension kept */
  ghost function Whole(n: nat, l: Matrix, u: Matrix, order: seq<nat>): SpectralEmbedding
    requires |order| == n
  {
    SpectralEmbedding(n, n, seq(n, i => seq(n, k requires 0 <= k < n => u(i, order[k]))), seq(n, k requires 0 <= k < n => Clamped(l, order[k])),
                      if n > 1 then Clamped(l, order[1]) else 0.0)
  }

  lemma WholePicks(n: nat, l: Matrix, u: Matrix, order: seq<nat>)
    requires SortedColumns(n, l, order)
    ensures Picks(Whole(n, l, u, order), n, l, u, order)
  {
  }

  /** e keeps the first dimensions of whole, and each eigenvalue left out is at least as large as each kept. */
  ghost predicate Truncates(e: SpectralEmbedding, whole: SpectralEmbedding) {
    && |e.eigenvalues| == e.dims <= |whole.eigenvalues| == whole.dims && e.eigenvalues == whole.eigenvalues[..e.dims]
    && |e.vectors| == |whole.vectors|
    && (forall i :: 0 <= i < |e.vectors| ==> |e.vectors[i]| == e.dims <= |whole.vectors[i]| && e.vectors[i] == whole.vectors[i][..e.dims])
    && (forall j, k :: 0 <= j < e.dims <= k < whole.dims ==> e.eigenvalues[j] <= whole.eigenvalues[k])
  }

  lemma PicksTruncates(e: SpectralEmbedding, n: nat, l: Matrix, u: Matrix, order: seq<nat>)
    requires SortedColumns(n, l, order) && Picks(e, n, l, u, order)
    ensures Truncates(e, Whole(n, l, u, order)) && AscendingValues(e.eigenvalues) && AscendingValues(Whole(n, l, u, order).eigenvalues)
  {
    var whole := Whole(n, l, u, order);
    assert e.eigenvalues == whole.eigenvalues[..e.dims];
    forall i | 0 <= i < n ensures e.vectors[i] == whole.vectors[i][..e.dims] {}
  }

  lemma PickedColumn(e: SpectralEmbedding, n: nat, l: Matrix, u: Matrix, order: seq<nat>, k: nat)
    requires Picks(e, n, l, u, order) && k < e.dims
    ensures forall i :: 0 <= i < n ==> VectorOf(e, k)(i) == Column(u, order[k])(i)
  {
  }

  /** The vectors are orthonormal. */
  lemma VectorsOrthonormal(e: SpectralEmbedding, n: nat, l0: Matrix, l: Matrix, u: Matrix, order: seq<nat>, j: nat, k: nat)
    requires Decomposes(n, l0, l, u) && Picks(e, n, l, u, order) && j < e.dims && k < e.dims
    ensures Dot(n, VectorOf(e, j), VectorOf(e, k)) == Delta(j, k)
  {
    PickedColumn(e, n, l, u, order, j);
    PickedColumn(e, n, l, u, order, k);
    DotExt(n, VectorOf(e, j), VectorOf(e, k), Column(u, order[j]), Column(u, order[k]));
  }

  lemma DefectIsResidual(n: nat, l0: Matrix, x: Vector, lambda: real, l: Matrix, u: Matrix, a: int, i: int)
    requires 0 <= i < n && lambda == l(a, a) && forall j :: 0 <= j < n ==> x(j) == Column(u, a)(j)
    ensures Defect(n, l0, x, lambda)(i) == Residual(n, l0, l, u, a)(i)
  {
    DotExt(n, Row(l0, i), x, Row(l0, i), Column(u, a));
    assert x(i) == u(i, a);
  }

  /** Every kept pair is an eigenpair up to the residual the sweep stopped at. */
  lemma PairsAreEigen(adj: G.Adjacency, e: SpectralEmbedding, l: Matrix, u: Matrix, order: seq<nat>, swept: nat, bound: real, k: nat)
    requires G.WellFormed(adj) && |adj| >= 2 && Swept(|adj|, LaplacianOf(adj), l, u, swept) && BoundedOff(|adj|, l, bound)
    requires Picks(e, |adj|, l, u, order) && k < e.dims
    ensures e.eigenvalues[k] >= 0.0
    ensures var d := Defect(|adj|, LaplacianOf(adj), VectorOf(e, k), e.eigenvalues[k]);
      Dot(|adj|, d, d) <= |adj| as real * (bound * bound) - bound * bound
  {
    var n, l0, a := |adj|, LaplacianOf(adj), order[k];
    SweptMeansEigen(adj, l, u, swept, bound, a);
    var d, r := Defect(n, l0, VectorOf(e, k), e.eigenvalues[k]), Residual(n, l0, l, u, a);
    PickedColumn(e, n, l, u, order, k);
    forall i | 0 <= i < n ensures d(i) == r(i) { DefectIsResidual(n, l0, VectorOf(e, k), e.eigenvalues[k], l, u, a, i); }
    DotExt(n, d, d, r, r);
  }

  /** All of `SpectralEmbedding::embed` */
  method EmbedGraph(g: G.Graph, maxIterations: nat, epsilon: real, dimensions: Option<nat>, sqrt: real -> real)
    returns (r: EmbedResult, e: Option<SpectralEmbedding>, ghost bound: real, ghost whole: SpectralEmbedding)
    requires g.Valid() && epsilon > 0.0 && IsSqrt(sqrt)
    ensures r.TooFewNodes? <==> g.nodes < 2
    ensures e.Some? <==> r.Embedded?
    ensures r.Embedded? ==> SmallEnough(g.adjacency, epsilon, bound)
    ensures r.NotConverged? ==> r.residual == bound && Relative(bound, Scale(g.adjacency)) > 0.001
    ensures forall enough: nat :: enough < maxIterations && SufficesFor(g.adjacency, epsilon, enough) ==> r.Embedded?
    ensures e.Some? ==> Faithful(g.adjacency, e.value, bound)
    ensures e.Some? ==> whole.dims == g.nodes && Faithful(g.adjacency, whole, bound) && Truncates(e.value, whole)
    ensures e.Some? ==> e.value.dims == if dimensions.Some? && dimensions.value < g.nodes then dimensions.value else g.nodes
    ensures e.Some? ==> e.value.connectivity == if e.value.dims > 1 then e.value.eigenvalues[1] else 0.0
  {
    var l, u;
    ghost var swept;
    r, l, u, swept, bound := Embed(g, maxIterations, epsilon, sqrt);
    e, whole := None, SpectralEmbedding(0, 0, [], [], 0.0);
    if r.Embedded? {
      var found;
      ghost var order;
      found, order := Extract(l, u, g.nodes, dimensions);
      whole := Whole(g.nodes, View(l), View(u), order);
      Concludes(g.adjacency, found, View(l), View(u), order, swept, bound);
      e := Some(found);
    }
  }

  ghost predicate EigenWithin(adj: G.Adjacency, e: SpectralEmbedding, k: nat, bound: real)
    requires k < |e.eigenvalues|
  {
    && e.eigenvalues[k] >= 0.0
    && var d := Defect(|adj|, LaplacianOf(adj), VectorOf(e, k), e.eigenvalues[k]);
       Dot(|adj|, d, d) <= |adj| as real * (bound * bound) - bound * bound
  }

  /** Ascending eigenvalues, orthonormal vectors, and every pair an eigenpair of the Laplacian up to the residual */
  ghost predicate Faithful(adj: G.Adjacency, e: SpectralEmbedding, bound: real) {
    && |e.eigenvalues| == e.dims && AscendingValues(e.eigenvalues)
    && (forall j, k :: 0 <= j < e.dims && 0 <= k < e.dims ==> Dot(|adj|, VectorOf(e, j), VectorOf(e, k)) == Delta(j, k))
    && (forall k :: 0 <= k < e.dims ==> EigenWithin(adj, e, k, bound))
  }

  lemma PicksFaithful(adj: G.Adjacency, e: SpectralEmbedding, l: Matrix, u: Matrix, order: seq<nat>, swept: nat, bound: real)
    requires G.WellFormed(adj) && |adj| >= 2 && Swept(|adj|, LaplacianOf(adj), l, u, swept) && BoundedOff(|adj|, l, bound)
    requires Picks(e, |adj|, l, u, order) && AscendingValues(e.eigenvalues)
    ensures Faithful(adj, e, bound)
  {
    forall j, k | 0 <= j < e.dims && 0 <= k < e.dims ensures Dot(|adj|, VectorOf(e, j), VectorOf(e, k)) == Delta(j, k) {
      VectorsOrthonormal(e, |adj|, LaplacianOf(adj), l, u, order, j, k);
    }
    forall k | 0 <= k < e.dims ensures EigenWithin(adj, e, k, bound) { PairsAreEigen(adj, e, l, u, order, swept, bound, k); }
  }

  lemma Concludes(adj: G.Adjacency, e: SpectralEmbedding, l: Matrix, u: Matrix, order: seq<nat>, swept: nat, bound: real)
    requires G.WellFormed(adj) && |adj| >= 2 && Swept(|adj|, LaplacianOf(adj), l, u, swept) && BoundedOff(|adj|, l, bound)
    requires SortedColumns(|adj|, l, order) && Picks(e, |adj|, l, u, order)
    ensures Faithful(adj, e, bound) && Faithful(adj, Whole(|adj|, l, u, order), bound) && Truncates(e, Whole(|adj|, l, u, order))
  {
    WholePicks(|adj|, l, u, order);
    PicksTruncates(e, |adj|, l, u, order);
    PicksFaithful(adj, e, l, u, order, swept, bound);
    PicksFaithful(adj, Whole(|adj|, l, u, order), l, u, order, swept, bound);
  }
}
