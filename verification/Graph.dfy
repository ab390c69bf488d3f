/** The undirected graph of the spectral engine: adjacency lists, breadth-first search, phantom-hub bridging. */
module Graph {
  import opened Wrappers

  datatype Result<T> = Ok(value: T) | Err(error: GraphError)

  datatype GraphError = EmptyGraph | NodeOutOfRange(node: nat, nodes: nat)

  type Adjacency = seq<seq<nat>>

  /** Row u of an adjacency list: in range, no self-loop, no duplicate, and every entry lists u back */
  ghost predicate GoodRow(adj: Adjacency, u: nat)
    requires u < |adj|
  {
    && (forall k :: 0 <= k < |adj[u]| ==> adj[u][k] < |adj| && adj[u][k] != u && u in adj[adj[u][k]])
    && (forall k, m :: 0 <= k < m < |adj[u]| ==> adj[u][k] != adj[u][m])
  }

  /** What every graph built by `add_edge` satisfies */
  ghost predicate WellFormed(adj: Adjacency) {
    |adj| > 0 && forall u: nat :: u < |adj| ==> GoodRow(adj, u)
  }

  ghost predicate Adjacent(adj: Adjacency, u: nat, v: nat) { u < |adj| && v in adj[u] }

  /** u and v are joined by one of the listed pairs. */
  ghost predicate Listed(edges: seq<(nat, nat)>, u: nat, v: nat) { u != v && ((u, v) in edges || (v, u) in edges) }

  /** There is a walk of exactly k steps. */
  ghost predicate Walk(adj: Adjacency, s: nat, v: nat, k: nat)
    decreases k
  {
    if k == 0 then s == v else exists u: nat :: Walk(adj, s, u, k - 1) && Adjacent(adj, u, v)
  }

  ghost predicate Reachable(adj: Adjacency, s: nat, v: nat) { exists k: nat :: Walk(adj, s, v, k) }

  ghost predicate Connected(adj: Adjacency) { forall v: nat :: v < |adj| ==> Reachable(adj, 0, v) }

  ghost predicate AllPairs(adj: Adjacency) { forall u: nat, v: nat :: u < |adj| && v < |adj| ==> Reachable(adj, u, v) }

  /** d is the length of a shortest walk, or None when there is none. */
  ghost predicate IsHopCount(adj: Adjacency, s: nat, v: nat, d: Option<nat>) {
    match d
    case None => !Reachable(adj, s, v)
    case Some(h) => Walk(adj, s, v, h) && forall k: nat :: Walk(adj, s, v, k) ==> h <= k
  }

  class Graph {
    const nodes: nat
    var adjacency: Adjacency

    ghost predicate Valid()
      reads this
    {
      |adjacency| == nodes && WellFormed(adjacency)
    }

    constructor (n: nat)
      requires n > 0
      ensures Valid() && nodes == n
      ensures forall u, v :: !Adjacent(adjacency, u, v)
    {
      nodes := n;
      adjacency := seq(n, i => []);
    }

    method AddEdge(u: nat, v: nat) returns (r: Result<()>)
      requires Valid()
      modifies this`adjacency
      ensures Valid()
      ensures r == if u >= nodes then Err(NodeOutOfRange(u, nodes)) else if v >= nodes then Err(NodeOutOfRange(v, nodes)) else Ok(())
      ensures r.Err? ==> adjacency == old(adjacency)
      ensures r.Ok? ==> forall x, y ::
        Adjacent(adjacency, x, y) <==> Adjacent(old(adjacency), x, y) || (u != v && ((x == u && y == v) || (x == v && y == u)))
    {
      if u >= nodes { return Err(NodeOutOfRange(u, nodes)); }
      if v >= nodes { return Err(NodeOutOfRange(v, nodes)); }
      if u == v { return Ok(()); }
      assert GoodRow(adjacency, u) && GoodRow(adjacency, v);
      if v !in adjacency[u] {
        AddedWellFormed(adjacency, u, v);
        adjacency := adjacency[u := adjacency[u] + [v]];
        adjacency := adjacency[v := adjacency[v] + [u]];
      }
      return Ok(());
    }

    /** The neighbour loop of the search: every neighbour of `curr` is seen, new ones are queued. */
    method Expand(start: nat, curr: nat, d: nat, dist: seq<Option<nat>>, queue: seq<nat>)
      returns (dist': seq<Option<nat>>, queue': seq<nat>)
      requires Valid()
      requires SearchInv(adjacency, start, dist, queue, {curr}) && LevelInv(dist, queue, d)
      requires Seen(dist, curr) && dist[curr].value == d
      ensures SearchInv(adjacency, start, dist', queue', {}) && LevelInv(dist', queue', d)
      ensures Unseen(dist') < Unseen(dist) || (dist' == dist && queue' == queue)
    {
      dist', queue' := dist, queue;
      var k := 0;
      while k < |adjacency[curr]|
        invariant 0 <= k <= |adjacency[curr]|
        invariant SearchInv(adjacency, start, dist', queue', {curr}) && LevelInv(dist', queue', d)
        invariant Seen(dist', curr) && dist'[curr].value == d
        invariant forall m :: 0 <= m < k ==> Seen(dist', adjacency[curr][m])
        invariant Unseen(dist') < Unseen(dist) || (dist' == dist && queue' == queue)
      {
        var w := adjacency[curr][k];
        assert GoodRow(adjacency, curr);
        if dist'[w].None? {
          VisitKeeps(adjacency, start, dist', queue', curr, d, w);
          dist' := dist'[w := Some(d + 1)];
          queue' := queue' + [w];
        }
        k := k + 1;
      }
      CloseNode(adjacency, start, dist', queue', curr, d);
    }

    /** Full distance vector from `start`: the true hop count of every node, None exactly for unreachable ones */
    method BfsDistances(start: nat) returns (r: Result<seq<Option<nat>>>)
      requires Valid()
      ensures start >= nodes ==> r == Err(NodeOutOfRange(start, nodes))
      ensures start < nodes ==> r.Ok? && |r.value| == nodes
      ensures start < nodes ==> forall v :: 0 <= v < nodes ==> IsHopCount(adjacency, start, v, r.value[v])
    {
      if start >= nodes { return Err(NodeOutOfRange(start, nodes)); }
      var dist: seq<Option<nat>> := seq(nodes, i => None)[start := Some(0)];
      var queue := [start];
      while |queue| > 0
        invariant SearchInv(adjacency, start, dist, queue, {})
        invariant |queue| > 0 ==> LevelInv(dist, queue, dist[queue[0]].value)
        decreases Unseen(dist), |queue|
      {
        var curr := queue[0];
        queue := queue[1..];
        dist, queue := Expand(start, curr, dist[curr].value, dist, queue);
      }
      SearchDone(adjacency, start, dist);
      r := Ok(dist);
    }

    /** Asks whether node 0 reaches every node, which is whether every node reaches every other. */
    method IsConnected() returns (b: bool)
      requires Valid()
      ensures b <==> Connected(adjacency)
      ensures b <==> AllPairs(adjacency)
    {
      ConnectedAllPairs(adjacency);
      if nodes <= 1 {
        assert Walk(adjacency, 0, 0, 0);
        return true;
      }
      var r := BfsDistances(0);
      var k := 0;
      while k < nodes
        invariant 0 <= k <= nodes
        invariant forall v :: 0 <= v < k ==> r.value[v].Some?
      {
        if r.value[k].None? {
          assert IsHopCount(adjacency, 0, k, r.value[k]);
          return false;
        }
        k := k + 1;
      }
      forall v: nat | v < |adjacency| ensures Reachable(adjacency, 0, v) {
        assert IsHopCount(adjacency, 0, v, r.value[v]);
      }
      return true;
    }
  }

  ghost predicate EdgesInRange(n: nat, edges: seq<(nat, nat)>) {
    forall k :: 0 <= k < |edges| ==> edges[k].0 < n && edges[k].1 < n
  }

  /** Exactly the listed pairs, loops and repetitions dropped; an error for no nodes or an edge out of range */
  method FromEdges(n: nat, edges: seq<(nat, nat)>) returns (r: Result<Graph>)
    ensures r.Ok? <==> n > 0 && EdgesInRange(n, edges)
    ensures n == 0 ==> r == Err(EmptyGraph)
    ensures r.Ok? ==> fresh(r.value) && r.value.Valid() && r.value.nodes == n
    ensures r.Ok? ==> forall x, y :: Adjacent(r.value.adjacency, x, y) <==> Listed(edges, x, y)
  {
    if n == 0 { return Err(EmptyGraph); }
    var g := new Graph(n);
    var k := 0;
    while k < |edges|
      invariant 0 <= k <= |edges| && fresh(g) && g.Valid() && g.nodes == n
      invariant EdgesInRange(n, edges[..k])
      invariant forall x, y :: Adjacent(g.adjacency, x, y) <==> Listed(edges[..k], x, y)
    {
      var added := g.AddEdge(edges[k].0, edges[k].1);
      if added.Err? { return Err(added.error); }
      assert edges[..k + 1] == edges[..k] + [edges[k]];
      k := k + 1;
    }
    assert edges[..|edges|] == edges;
    r := Ok(g);
  }

  lemma {:induction false} WalkMonotone(adj: Adjacency, bigger: Adjacency, s: nat, v: nat, k: nat)
    requires forall x, y :: Adjacent(adj, x, y) ==> Adjacent(bigger, x, y)
    requires Walk(adj, s, v, k)
    ensures Walk(bigger, s, v, k)
    decreases k
  {
    if k > 0 {
      var u: nat :| Walk(adj, s, u, k - 1) && Adjacent(adj, u, v);
      WalkMonotone(adj, bigger, s, u, k - 1);
    }
  }

  lemma {:induction false} WalkJoin(adj: Adjacency, s: nat, u: nat, v: nat, j: nat, k: nat)
    requires Walk(adj, s, u, j) && Walk(adj, u, v, k)
    ensures Walk(adj, s, v, j + k)
    decreases k
  {
    if k > 0 {
      var w: nat :| Walk(adj, u, w, k - 1) && Adjacent(adj, w, v);
      WalkJoin(adj, s, u, w, j, k - 1);
      assert Walk(adj, s, w, j + k - 1);
    }
  }

  lemma {:induction false} WalkBack(adj: Adjacency, s: nat, v: nat, k: nat)
    requires WellFormed(adj) && Walk(adj, s, v, k)
    ensures Walk(adj, v, s, k)
    decreases k
  {
    if k > 0 {
      var u: nat :| Walk(adj, s, u, k - 1) && Adjacent(adj, u, v);
      WalkBack(adj, s, u, k - 1);
      assert GoodRow(adj, u);
      assert Walk(adj, v, v, 0) && Adjacent(adj, v, u);
      assert Walk(adj, v, u, 1);
      WalkJoin(adj, v, u, s, 1, k - 1);
    }
  }

  lemma ConnectedAllPairs(adj: Adjacency)
    requires WellFormed(adj)
    ensures Connected(adj) <==> AllPairs(adj)
  {
    if Connected(adj) {
      forall u: nat, v: nat | u < |adj| && v < |adj| ensures Reachable(adj, u, v) {
        assert Reachable(adj, 0, u) && Reachable(adj, 0, v);
        var j: nat :| Walk(adj, 0, u, j);
        var k: nat :| Walk(adj, 0, v, k);
        WalkBack(adj, 0, u, j);
        WalkJoin(adj, u, 0, v, j, k);
      }
    }
  }

  /** The hub joins node 0 to every node that node 0 could not reach. */
  lemma HubConnects(adj: Adjacency, aug: Adjacency, n: nat)
    requires |adj| == n > 0 && |aug| == n + 1
    requires forall x, y :: Adjacent(adj, x, y) ==> Adjacent(aug, x, y)
    requires Adjacent(aug, 0, n)
    requires forall v: nat :: v < n && !Reachable(adj, 0, v) ==> Adjacent(aug, n, v)
    ensures Connected(aug)
  {
    assert Walk(aug, 0, 0, 0);
    WalkOn(aug, 0, 0, n, 0);
    forall v: nat | v < n + 1 ensures Reachable(aug, 0, v) {
      if v < n {
        if Reachable(adj, 0, v) {
          var k: nat :| Walk(adj, 0, v, k);
          WalkMonotone(adj, aug, 0, v, k);
        } else {
          WalkOn(aug, 0, n, v, 1);
        }
      }
    }
  }

  /** The edge list with the hub stapled to node 0 and to every node without a distance */
  method AugmentedEdges(n: nat, edges: seq<(nat, nat)>, dist: seq<Option<nat>>) returns (augmented: seq<(nat, nat)>)
    requires n > 0 && EdgesInRange(n, edges) && |dist| == n
    ensures EdgesInRange(n + 1, augmented)
    ensures forall x: nat, y: nat :: x < n && y < n ==> (Listed(augmented, x, y) <==> Listed(edges, x, y))
    ensures forall v: nat :: v < n ==> (Listed(augmented, n, v) <==> v == 0 || dist[v].None?)
  {
    var hub: seq<(nat, nat)> := [(0, n)];
    var k: nat := 0;
    while k < n
      invariant k <= n
      invariant forall i :: 0 <= i < |hub| ==> hub[i].0 < n && hub[i].1 == n
      invariant forall v: nat :: (v, n) in hub <==> v == 0 || (v < k && dist[v].None?)
    {
      if dist[k].None? { hub := hub + [(k, n)]; }
      k := k + 1;
    }
    augmented := edges + hub;
    assert forall v: nat :: (n, v) !in edges && (v, n) !in edges && ((n, v) in hub ==> v == n);
  }

  /**
   A connected graph over the given edges. A hub node is added exactly when they alone do
   not connect, and it is joined to node 0 and to the nodes that node 0 cannot reach.
   */
  method BuildConnectedGraph(n: nat, edges: seq<(nat, nat)>) returns (r: Result<(Graph, bool)>, ghost physical: Adjacency)
    ensures r.Ok? <==> n > 0 && EdgesInRange(n, edges)
    ensures r.Ok? ==> r.value.0.Valid() && Connected(r.value.0.adjacency)
    ensures r.Ok? ==> r.value.0.nodes == if r.value.1 then n + 1 else n
    ensures r.Ok? ==> forall x: nat, y: nat :: x < n && y < n ==> (Adjacent(r.value.0.adjacency, x, y) <==> Listed(edges, x, y))
    ensures r.Ok? ==> |physical| == n && forall x, y :: Adjacent(physical, x, y) <==> Listed(edges, x, y)
    ensures r.Ok? ==> (r.value.1 <==> !Connected(physical))
    ensures r.Ok? && r.value.1 ==> forall v: nat :: v < n ==> (Adjacent(r.value.0.adjacency, n, v) <==> v == 0 || !Reachable(physical, 0, v))
  {
    physical := [];
    var built := FromEdges(n, edges);
    if built.Err? { return Err(built.error), []; }
    var phys := built.value;
    physical := phys.adjacency;
    var connected := phys.IsConnected();
    if connected { return Ok((phys, false)), physical; }
    var bfs := phys.BfsDistances(0);
    var augmented := AugmentedEdges(n, edges, bfs.value);
    var aug := FromEdges(n + 1, augmented);
    forall v: nat | v < n ensures Adjacent(aug.value.adjacency, n, v) <==> v == 0 || !Reachable(physical, 0, v) {
      assert IsHopCount(physical, 0, v, bfs.value[v]);
    }
    forall x, y | Adjacent(physical, x, y) ensures Adjacent(aug.value.adjacency, x, y) {
      assert GoodRow(physical, x);
    }
    assert Listed(augmented, n, 0) && Listed(augmented, 0, n);
    HubConnects(physical, aug.value.adjacency, n);
    r := Ok((aug.value, true));
  }

  /** The two pushes of `add_edge` */
  ghost function Added(adj: Adjacency, u: nat, v: nat): Adjacency
    requires u < |adj| && v < |adj| && u != v
  {
    adj[u := adj[u] + [v]][v := adj[v] + [u]]
  }

  lemma AddedWellFormed(adj: Adjacency, u: nat, v: nat)
    requires WellFormed(adj) && u < |adj| && v < |adj| && u != v && v !in adj[u]
    ensures WellFormed(Added(adj, u, v))
    ensures forall x, y :: Adjacent(Added(adj, u, v), x, y) <==> Adjacent(adj, x, y) || (x == u && y == v) || (x == v && y == u)
  {
    var adj' := Added(adj, u, v);
    assert u !in adj[v] by { assert GoodRow(adj, v); }
    forall x: nat | x < |adj| ensures GoodRow(adj', x) {
      assert GoodRow(adj, x);
    }
  }

  // ---------------------------------------------------------------------
  // The search
  // ---------------------------------------------------------------------

  ghost function Unseen(dist: seq<Option<nat>>): set<nat> { set v: nat | v < |dist| && dist[v].None? }

  ghost predicate Seen(dist: seq<Option<nat>>, v: nat) { v < |dist| && dist[v].Some? }

  /** Distances are lengths of walks. */
  ghost predicate Sound(adj: Adjacency, start: nat, dist: seq<Option<nat>>) {
    && |dist| == |adj| && Seen(dist, start) && dist[start].value == 0
    && forall v: nat :: Seen(dist, v) ==> Walk(adj, start, v, dist[v].value)
  }

  ghost predicate Queued(dist: seq<Option<nat>>, queue: seq<nat>) {
    forall i :: 0 <= i < |queue| ==> Seen(dist, queue[i])
  }

  /** Every neighbour of v is at most one step on. */
  ghost predicate Closed(adj: Adjacency, dist: seq<Option<nat>>, v: nat)
    requires |dist| == |adj| && Seen(dist, v)
  {
    forall w :: w in adj[v] ==> Seen(dist, w) && dist[w].value <= dist[v].value + 1
  }

  /** Everything seen is closed, except what is still queued or open. */
  ghost predicate SearchInv(adj: Adjacency, start: nat, dist: seq<Option<nat>>, queue: seq<nat>, open: set<nat>) {
    && Sound(adj, start, dist)
    && Queued(dist, queue)
    && forall v: nat :: Seen(dist, v) && v !in queue && v !in open ==> Closed(adj, dist, v)
  }

  /** The queue is ordered by distance and nothing seen is more than one level beyond d. */
  ghost predicate LevelInv(dist: seq<Option<nat>>, queue: seq<nat>, d: nat)
    requires Queued(dist, queue)
  {
    && (forall i :: 0 <= i < |queue| ==> d <= dist[queue[i]].value)
    && (forall i, j :: 0 <= i < j < |queue| ==> dist[queue[i]].value <= dist[queue[j]].value)
    && (forall v: nat :: Seen(dist, v) ==> dist[v].value <= d + 1)
  }

  lemma WalkOn(adj: Adjacency, s: nat, u: nat, v: nat, k: nat)
    requires Walk(adj, s, u, k) && Adjacent(adj, u, v)
    ensures Walk(adj, s, v, k + 1)
  {
  }

  lemma VisitSound(adj: Adjacency, start: nat, dist: seq<Option<nat>>, curr: nat, d: nat, w: nat)
    requires Sound(adj, start, dist) && Seen(dist, curr) && dist[curr].value == d && w in adj[curr] && w < |dist| && dist[w].None?
    ensures Sound(adj, start, dist[w := Some(d + 1)])
  {
    WalkOn(adj, start, curr, w, d);
  }

  lemma VisitClosed(adj: Adjacency, dist: seq<Option<nat>>, w: nat, d: nat, v: nat)
    requires |dist| == |adj| && w < |dist| && dist[w].None? && Seen(dist, v) && Closed(adj, dist, v)
    ensures Closed(adj, dist[w := Some(d + 1)], v)
  {
  }

  lemma VisitKeeps(adj: Adjacency, start: nat, dist: seq<Option<nat>>, queue: seq<nat>, curr: nat, d: nat, w: nat)
    requires SearchInv(adj, start, dist, queue, {curr}) && LevelInv(dist, queue, d)
    requires Seen(dist, curr) && dist[curr].value == d && w in adj[curr] && w < |dist| && dist[w].None?
    ensures SearchInv(adj, start, dist[w := Some(d + 1)], queue + [w], {curr})
    ensures LevelInv(dist[w := Some(d + 1)], queue + [w], d)
    ensures Unseen(dist[w := Some(d + 1)]) < Unseen(dist)
  {
    var dist' := dist[w := Some(d + 1)];
    VisitSound(adj, start, dist, curr, d, w);
    forall v: nat | Seen(dist', v) && v !in queue + [w] && v != curr ensures Closed(adj, dist', v) {
      VisitClosed(adj, dist, w, d, v);
    }
    assert w in Unseen(dist) && w !in Unseen(dist');
  }

  /** Once all neighbours of the open node are seen it is closed too. */
  lemma CloseNode(adj: Adjacency, start: nat, dist: seq<Option<nat>>, queue: seq<nat>, curr: nat, d: nat)
    requires SearchInv(adj, start, dist, queue, {curr}) && LevelInv(dist, queue, d)
    requires Seen(dist, curr) && dist[curr].value == d && forall w :: w in adj[curr] ==> Seen(dist, w)
    ensures SearchInv(adj, start, dist, queue, {})
  {
    assert Closed(adj, dist, curr);
  }

  lemma {:induction false} WalkIsBounded(adj: Adjacency, start: nat, dist: seq<Option<nat>>, v: nat, k: nat)
    requires SearchInv(adj, start, dist, [], {}) && Walk(adj, start, v, k)
    ensures Seen(dist, v) && dist[v].value <= k
    decreases k
  {
    if k > 0 {
      var u: nat :| Walk(adj, start, u, k - 1) && Adjacent(adj, u, v);
      WalkIsBounded(adj, start, dist, u, k - 1);
      assert Closed(adj, dist, u);
    }
  }

  lemma SearchDone(adj: Adjacency, start: nat, dist: seq<Option<nat>>)
    requires SearchInv(adj, start, dist, [], {})
    ensures forall v :: 0 <= v < |dist| ==> IsHopCount(adj, start, v, dist[v])
  {
    forall v: nat, k: nat | Walk(adj, start, v, k)
      ensures Seen(dist, v) && dist[v].value <= k
    {
      WalkIsBounded(adj, start, dist, v, k);
    }
    forall v | 0 <= v < |dist| ensures IsHopCount(adj, start, v, dist[v]) {
      assert Seen(dist, v) ==> Walk(adj, start, v, dist[v].value);
    }
  }
}
