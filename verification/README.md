# Verified model of the detection-and-response stack

A Dafny model of the hard parts of a network-defence monorepo, one module per component:

- `Channel`: the bounded multi-producer channel of the firewall, as a transition system over
  the steps of its threads (lock, park, push, the notify that comes later).
- `Sums`, `Graph`, `Laplacian`, `Jacobi`, `Embedding`, `Spectrum`, `PolyFilter`,
  `JacobiPolynomial`: the spectral graph core, over exact reals. Breadth-first search, the phantom hub, the Laplacian and its
  quadratic form, the Jacobi eigenvalue sweep in place on two matrices, the matrix-free
  polynomial filter, and the proof of which polynomials its recurrence produces.
- `Ontology`, `ReviewTypes`, `AuditGraph`, `ReviewQueue`, `ReviewStore`: the human-review
  gate on top of an indexed audit graph, with persistence by replay.
- `Correlation`, `CorrelationReview`: per-host fusion of three lanes with capped memory, and
  its way into the review gate.
- `RuleEngine`, `RateLimit`, `Threshold`, `Tables`: the firewall's indexed rules, its
  limiters and its two bounded tables under several workers. `Upkeep` holds what the runs of
  both limiters share, `Wrappers` the option type.
- `RuleSync`: the config rewrite that blocks confirmed hosts, whose meaning is given by
  `RuleEngine`.

Check everything with `dafny verify dfyconfig.toml`.

## How the source is read

- `f64` and `f32` are exact reals, `Instant` and the wall clock are arguments (one reading per
  call), and a square root is a function argument with `sqrt(x) >= 0` and `sqrt(x)^2 = x`.
- Operations on `DashMap` entries and `len()` are atomic steps; the review queue's methods are
  atomic because each runs under one lock. The order in which a hash map yields its entries is
  left open, so every theorem holds for every order.
- An address is a number: the 32-bit value of an IPv4 address, the 128-bit value plus 2^32 of
  an IPv6 address.
- Classes stand for what the source changes in place; ghost fields (the queue's `decisions`,
  the correlation engine's `histories`) record the past the theorems are about.

Where the code and its comments differ the model follows the code:

- `types.rs` says only `Resolved` items can lead to containment and that a classifier's output
  alone never suffices; `ingest` also records `ExecuteContainment` for a clean automatic call,
  so `ContainmentIsAuthorised` lists that case.
- `threshold.rs` speaks of a rolling window and of the time since the last match; the code
  measures from the start of the window, so `threshold` matches within a window's length need
  not fire (`WindowDoesNotRoll`; exactly when they do: `ThresholdMatchesFireIff`).
- `delete_link` reports a missing link as `DuplicateLink`.
- The sync rule's default `dst` is `0.0.0.0/0` and each host is written as `/32`, so IPv6 traffic
  is never blocked by it (`Ipv6Passes`, `SyncRuleMatches`).
- The gate's agreement of items and graph needs no assumption on flow ids. An id of the form
  of a decision id can make `ingest` or a sweep fail part-way (`DecisionShapedIdCollides` shows it for `ingest`), which
  keeps the agreement; with plain ids no operation fails internally.
- A sweep of the threshold table can be observed exactly when its idle bound is within a
  rule's window (`UnobservableIff`). It can then not only delay a ban but cause one
  (`ShortIdleObservable`), even of a source that would otherwise never be banned
  (`BanFromNothingIff`). `periodic_maintenance` uses 300 seconds, so this concerns windows of
  300 seconds and more.
- A cap of a bounded table is a bound for one worker only; with more it is overshot by up to
  the number of workers less one (`CapsExactIff`).

## Model

| member | source | states |
|---|---|---|
| `Channel.InvKept` | components/firewall-perimeter/src/chan.rs:141-290 | every step of every thread (lock, check-and-park, push, the later notify, the counter updates, both drops) keeps the invariant tying queue, waiters, owed notifies and handles together |
| `Channel.RunKeepsInv` | components/firewall-perimeter/src/chan.rs:141-290 | the invariant holds in every state of every interleaving |
| `Channel.NoLostWakeup` | components/firewall-perimeter/src/chan.rs:141-209 | in every reachable state: while the receiver lives and a sender is parked, free slots are at most the notifies still owed plus senders already woken; after the receiver is dropped a parked sender still has its notify_all coming; a parked receiver with something to see has a notify coming |
| `Channel.SleepersAreBlocked` | components/firewall-perimeter/src/chan.rs:141-262 | once nothing is in motion, a parked sender faces a full queue with a live receiver and a parked receiver faces an empty queue with live senders |
| `Channel.Conservation` | components/firewall-perimeter/src/chan.rs:141-275 | over every run accepted items are exactly the received ones followed by the queue, in order; the queue never exceeds capacity; a refused send hands back its own item, which was never queued; every accepted send appears once |
| `Channel.ClosedStaysClosed` | components/firewall-perimeter/src/chan.rs:221-238 | with no sender handle and no send in progress none can ever appear again |
| `Channel.DisconnectedIsFinal` | components/firewall-perimeter/src/chan.rs:245-275 | once recv has reported Disconnected, every item ever accepted has been received and no later run accepts another |
| `Channel.RecvReplies` | components/firewall-perimeter/src/chan.rs:245-275 | over every run: one reply per finished call, the items among them exactly the received ones; Empty is only ever answered to a try_recv, Disconnected only with no handle left and nothing queued; only a blocking call parks |
| `Channel.RecvDecides` | components/firewall-perimeter/src/chan.rs:245-275 | at the step a call decides: an item is the front of the queue; without one it says Disconnected iff no handle is left when it loads the count, otherwise try_recv says Empty and recv goes on to wait |
| `Channel.DisconnectedReported` | components/firewall-perimeter/src/chan.rs:252-256 | Disconnected is reported: with no handle left and nothing queued, a call of either kind can run to that reply |
| `Channel.SendOutcomes` | components/firewall-perimeter/src/chan.rs:141-209 | over every run Disconnected only after the receiver left, Full only for try_send, TimedOut only for send_timeout, and a blocking send ends Accepted or Disconnected only |
| `Channel.SendReturns` | components/firewall-perimeter/src/chan.rs:141-209 | at the step a send returns: Disconnected only with the receiver gone, Full and TimedOut only at a full queue, Accepted only once its item was queued |
| `Channel.SendDecides` | components/firewall-perimeter/src/chan.rs:141-209 | how a send holding the mutex goes on, in every reachable state: a gone receiver is reported first, room is used, and only at a full queue try_send fails, send waits and send_timeout does either |
| `Graph.Graph.AddEdge` | components/spec-engine/src/spectral_graph/graph.rs:34-46 | rejects out-of-range nodes, ignores duplicates and self-loops as the code does, and keeps the adjacency lists symmetric and duplicate-free |
| `Graph.AddedWellFormed` | components/spec-engine/src/spectral_graph/graph.rs:34-46 | adding an edge keeps symmetry, range and distinctness of all adjacency lists |
| `Graph.FromEdges` | components/spec-engine/src/spectral_graph/graph.rs:48-55 | the built graph has exactly the listed edges |
| `Graph.Graph.BfsDistances` | components/spec-engine/src/spectral_graph/graph.rs:100-117 | every entry is the true shortest hop count, and None exactly for unreachable nodes |
| `Graph.SearchDone` | components/spec-engine/src/spectral_graph/graph.rs:100-117 | when the queue is empty the recorded distances are minimal over all walks and complete |
| `Graph.WalkIsBounded` | components/spec-engine/src/spectral_graph/graph.rs:100-117 | no walk beats a recorded distance |
| `Graph.Graph.IsConnected` | components/spec-engine/src/spectral_graph/graph.rs:119-127 | true exactly when node 0 reaches every node, equivalently when every node reaches every other |
| `Graph.ConnectedAllPairs` | components/spec-engine/src/spectral_graph/graph.rs:119-127 | reaching every node from node 0 is reaching every node from every node |
| `Graph.BuildConnectedGraph` | components/spec-engine/src/spectral_graph/embedding.rs:298-330 | the result is connected, its edges among the real nodes are exactly the input edges, and a hub is injected exactly when the input is disconnected, joined to node 0 and to the nodes node 0 cannot reach |
| `Graph.HubConnects` | components/spec-engine/src/spectral_graph/embedding.rs:298-330 | one hub joined to the unreached nodes and to the start connects the graph |
| `Laplacian.DenseLaplacian` | components/spec-engine/src/spectral_graph/graph.rs:130-143 | the filled matrix is D - A |
| `Laplacian.LaplacianMatvec` | components/spec-engine/src/spectral_graph/graph.rs:150-168 | the matrix-free product equals the dense matrix-vector product |
| `Laplacian.LaplacianRow` | components/spec-engine/src/spectral_graph/graph.rs:150-168 | a row of L times x is degree times x_i minus the neighbours' sum |
| `Laplacian.FormIsEdgeEnergy` | components/spec-engine/src/spectral_graph/graph.rs:130-143 | x^T L x is the sum over edges of (x_i - x_j)^2 |
| `Laplacian.FormNonNegative` | components/spec-engine/src/spectral_graph/graph.rs:130-143 | x^T L x is never negative |
| `Laplacian.FormBelowGershgorin` | components/spec-engine/src/spectral_graph/poly_filter.rs:194-198 | x^T L x is at most gershgorin_lambda_max times |x|^2, for every x |
| `Laplacian.EigenvalueInRange` | components/spec-engine/src/spectral_graph/poly_filter.rs:194-198 | every eigenvalue lies between 0 and gershgorin_lambda_max |
| `Laplacian.GershgorinExact` | components/spec-engine/src/spectral_graph/poly_filter.rs:194-198 | the bound is twice the degree of one node and of no node less |
| `Laplacian.OnesInKernel` | components/spec-engine/src/spectral_graph/graph.rs:130-143 | L maps the all-ones vector to zero |
| `Laplacian.ConnectedIffConstantKernel` | components/spec-engine/src/spectral_graph/embedding.rs:50-51 | the graph is connected exactly when the kernel of L holds constant vectors only |
| `Jacobi.FormRotated` | components/spec-engine/src/spectral_graph/embedding.rs:261-283 | the rotated matrix on rotated vectors is the original bilinear form |
| `Jacobi.TraceKept` | components/spec-engine/src/spectral_graph/embedding.rs:261-283 | a rotation keeps the trace |
| `Jacobi.OffDrops` | components/spec-engine/src/spectral_graph/embedding.rs:261-283 | a rotation lowers the off-diagonal sum of squares by exactly 2 l_pq^2 |
| `Jacobi.OffShrinks` | components/spec-engine/src/spectral_graph/embedding.rs:76-95 | with the largest entry as pivot the off-diagonal sum of squares shrinks by the factor 1 - 2/(n(n-1)) |
| `Jacobi.DecomposesKept` | components/spec-engine/src/spectral_graph/embedding.rs:86-95 | L symmetric, U orthogonal, U L U^T equal to the original Laplacian and the trace unchanged survive every rotation |
| `Jacobi.DiagonalIsRayleigh` | components/spec-engine/src/spectral_graph/embedding.rs:117-119 | a diagonal entry is the Rayleigh quotient of its column |
| `Jacobi.ResidualNorm` | components/spec-engine/src/spectral_graph/embedding.rs:76-95 | how far a column is from an eigenvector is exactly what is left of its row off the diagonal |
| `Embedding.OffDiagonalMax` | components/spec-engine/src/spectral_graph/embedding.rs:234-248 | the returned value bounds every off-diagonal entry and is the magnitude of one of them |
| `Embedding.JacobiCs` | components/spec-engine/src/spectral_graph/embedding.rs:250-259 | c^2 + s^2 = 1 and the rotation cancels the pivot |
| `Embedding.ApplyRotation` | components/spec-engine/src/spectral_graph/embedding.rs:261-283 | the in-place update is the two-sided rotation of the whole matrix |
| `Embedding.RotateRows` | components/spec-engine/src/spectral_graph/embedding.rs:89-94 | the in-place update of U is the one-sided rotation |
| `Embedding.SweepStep` | components/spec-engine/src/spectral_graph/embedding.rs:76-95 | one iteration keeps the decomposition and multiplies the off-diagonal bound by 1 - 2/(n(n-1)) |
| `Embedding.Sweep` | components/spec-engine/src/spectral_graph/embedding.rs:75-95 | after k iterations the decomposition holds and the off-diagonal sum is at most (1 - 2/(n(n-1)))^k of its start; success means every entry is below the threshold, and comes no later than the first k for which that power brings the sum under twice the squared threshold |
| `Embedding.BudgetSuffices` | components/spec-engine/src/spectral_graph/embedding.rs:75-95 | an explicit number of iterations after which the bound is under the threshold, for any symmetric start |
| `Embedding.GraphBudget` | components/spec-engine/src/spectral_graph/embedding.rs:69-95 | the same from the number of nodes and the threshold alone, for any graph's Laplacian |
| `Embedding.Embed` | components/spec-engine/src/spectral_graph/embedding.rs:54-117 | the loop with its scale, its threshold and its three outcomes, the reported residual being exactly the largest entry left; Embedded whenever the iteration limit exceeds a sufficient number |
| `Embedding.Judge` | components/spec-engine/src/spectral_graph/embedding.rs:97-115 | NotConverged exactly when the largest entry left, relative to the scale, exceeds 0.001, and with that entry as residual |
| `Embedding.ScaleExact` | components/spec-engine/src/spectral_graph/embedding.rs:73-73 | the scale is the largest of 1 and the degrees |
| `Embedding.SweptMeansEigen` | components/spec-engine/src/spectral_graph/embedding.rs:54-117 | the columns of U are eigenvectors of the Laplacian up to the residual, with non-negative values |
| `Spectrum.SortColumns` | components/spec-engine/src/spectral_graph/embedding.rs:118-123 | every column once, by ascending value |
| `Spectrum.Extract` | components/spec-engine/src/spectral_graph/embedding.rs:118-134 | dimension k holds the k-th smallest of all n diagonal values and its own column |
| `Spectrum.EmbedGraph` | components/spec-engine/src/spectral_graph/embedding.rs:54-134 | all of embed: ascending non-negative eigenvalues, orthonormal vectors, every pair an eigenpair of the Laplacian up to the residual; with fewer dimensions, the first ones of such a whole spectrum, so no eigenvalue left out is smaller than one kept |
| `PolyFilter.DenominatorPositive` | components/spec-engine/src/jacobi_ds.rs:147-169 | no step of the recurrence divides by zero for alpha, beta > -1 |
| `PolyFilter.JacobiValue` | components/spec-engine/src/jacobi_ds.rs:147-169 | the running-variable loop computes the recurrence, which `RecurrenceIsExplicitSum` shows to be the Jacobi polynomial |
| `PolyFilter.Eval` | components/spec-engine/src/jacobi_ds.rs:402-429 | the one-pass loop computes the coefficient-weighted sum of those polynomials |
| `PolyFilter.BSplits` | components/spec-engine/src/spectral_graph/poly_filter.rs:148-155 | the split of b(x) into b_scale x + b_const is exact |
| `PolyFilter.Apply` | components/spec-engine/src/spectral_graph/poly_filter.rs:114-172 | the matrix-free loop returns the coefficient-weighted sum of P_k of the mapped Laplacian applied to v |
| `PolyFilter.FilterIsLinear` | components/spec-engine/src/spectral_graph/poly_filter.rs:114-172 | the filter is linear in the vector |
| `PolyFilter.FilterOnEigenvector` | components/spec-engine/src/spectral_graph/poly_filter.rs:114-172 | on an eigenvector of L the filter multiplies by the scalar polynomial at the affine image of the eigenvalue, the very value eval computes |
| `PolyFilter.AffineMaps` | components/spec-engine/src/spectral_graph/poly_filter.rs:118-123 | the linear map of the Laplacian sends the ends of the fitted interval to -1 and 1 |
| `JacobiPolynomial.RecurrenceIsExplicitSum` | components/spec-engine/src/jacobi_ds.rs:147-169 | for every degree and all alpha, beta > -1 the recurrence gives the Jacobi polynomial: the explicit sum in powers of (x - 1)/2 |
| `JacobiPolynomial.ObeysAll` | components/spec-engine/src/jacobi_ds.rs:147-169 | the explicit coefficients obey the three-term recurrence, power by power |
| `JacobiPolynomial.ValueAtOne` | components/spec-engine/src/jacobi_ds.rs:147-169 | the value at 1 is the product of (alpha + j)/j |
| `JacobiPolynomial.Mirror` | components/spec-engine/src/jacobi_ds.rs:147-169 | the value at -x is (-1)^n times the value at x with alpha and beta exchanged |
| `JacobiPolynomial.PolyValueExplicit` | components/spec-engine/src/jacobi_ds.rs:402-429 | what the one-pass evaluation returns is the combination of those explicit sums |
| `JacobiPolynomial.FilterOnEigenvectorExplicit` | components/spec-engine/src/spectral_graph/poly_filter.rs:114-172 | the matrix-free filter multiplies an eigenvector by that explicit combination |
| `Ontology.Engine.InsertLink` | components/active-siem/crates/ontology-engine/src/engine.rs:37-50 | adds one link and keeps both indexes mirroring the link set |
| `Ontology.Engine.RemoveLink` | components/active-siem/crates/ontology-engine/src/engine.rs:52-69 | removes one link and keeps both indexes mirroring the link set |
| `Ontology.Engine.RemoveLinksTouching` | components/active-siem/crates/ontology-engine/src/engine.rs:73-84 | removes exactly the links at a node, indexes included |
| `Ontology.Engine.RegisterObjectType` | components/active-siem/crates/ontology-engine/src/engine.rs:118-131 | error cases in order; the registry stays well-formed |
| `Ontology.Engine.RegisterLinkType` | components/active-siem/crates/ontology-engine/src/engine.rs:134-155 | error cases in order; link types only between registered object types |
| `Ontology.ValidateProperties` | components/active-siem/crates/ontology-engine/src/engine.rs:171-204 | reports exactly the problems there are; none iff the properties fit the schema |
| `Ontology.FitsMeansNoProblem` | components/active-siem/crates/ontology-engine/src/engine.rs:171-204 | fitting a schema is having no problem of any of the three kinds |
| `Ontology.Engine.CreateObjectInstance` | components/active-siem/crates/ontology-engine/src/engine.rs:211-235 | succeeds iff the type is registered, the properties fit and the id is free; all invariants kept |
| `Ontology.Engine.UpdateObjectProperties` | components/active-siem/crates/ontology-engine/src/engine.rs:241-287 | succeeds iff the primary key is untouched and the merged properties fit; every primary key and type stays as it was |
| `Ontology.Engine.DeleteObjectInstance` | components/active-siem/crates/ontology-engine/src/engine.rs:324-333 | removes the instance and exactly its links, leaving no dangling link |
| `Ontology.Engine.CreateLink` | components/active-siem/crates/ontology-engine/src/engine.rs:339-384 | succeeds iff the link joins existing instances of its declared types and is new |
| `Ontology.Engine.DeleteLink` | components/active-siem/crates/ontology-engine/src/engine.rs:387-398 | removes the link or reports it (with the code's own DuplicateLink error) |
| `Ontology.Engine.Traverse` | components/active-siem/crates/ontology-engine/src/engine.rs:403-420 | returns from the index exactly what a scan of all links would, each neighbour once |
| `Ontology.LinkedInIndex` | components/active-siem/crates/ontology-engine/src/engine.rs:403-420 | index lookup and link scan agree in both directions |
| `ReviewTypes.Evaluate` | components/active-siem/crates/review-queue/src/trigger.rs:44-66 | no review exactly when in distribution, above the floor for its class and with a wide enough margin; otherwise novelty is named before low confidence and low confidence before a narrow margin |
| `ReviewTypes.DefaultTriggerMeans` | components/active-siem/crates/review-queue/src/trigger.rs:27-37 | the default thresholds: 0.9 for attacks, 0.8 for benign, a margin of 0.15 over the runner-up |
| `ReviewTypes.VerdictRoundTrip` | components/active-siem/crates/review-queue/src/types.rs:101-121 | parsing a verdict's text gives the verdict back |
| `ReviewTypes.ReviewerRoundTrip` | components/active-siem/crates/review-queue/src/engine_bridge.rs:107-114 | reading a reviewer's text gives the reviewer back |
| `ReviewTypes.DecisionIdInjective` | components/active-siem/crates/review-queue/src/queue.rs:58-61 | two decision ids are equal only for the same flow and sequence number |
| `AuditGraph.DecisionRoundTrip` | components/active-siem/crates/review-queue/src/engine_bridge.rs:33-67 | decision to instance to decision is the identity |
| `AuditGraph.DecisionFits` | components/active-siem/crates/review-queue/src/schema.rs:36-46 | a decision's properties fit the registered schema |
| `AuditGraph.PredictionFits` | components/active-siem/crates/review-queue/src/schema.rs:26-34 | a prediction's properties fit the registered schema |
| `AuditGraph.PredictionReadsBack` | components/active-siem/crates/review-queue/src/engine_bridge.rs:10-30 | every field reads back, the confidence to the nearest thousandth |
| `AuditGraph.Register` | components/active-siem/crates/review-queue/src/schema.rs:25-64 | never fails; adds the two object types and the link type where their names are free and leaves the rest alone |
| `AuditGraph.RegisteredSchema` | components/active-siem/crates/review-queue/src/schema.rs:25-55 | a fresh engine ends up with exactly this schema |
| `AuditGraph.RegisterTwice` | components/active-siem/crates/review-queue/src/schema.rs:20-24 | registering is idempotent |
| `AuditGraph.RecordPrediction` | components/active-siem/crates/review-queue/src/engine_bridge.rs:10-31 | adds the prediction, or fails changing nothing exactly when the id is taken |
| `AuditGraph.RecordDecision` | components/active-siem/crates/review-queue/src/engine_bridge.rs:33-67 | adds the decision and its link together, or changes nothing |
| `AuditGraph.DecisionsForFlow` | components/active-siem/crates/review-queue/src/engine_bridge.rs:74-80 | exactly the recorded decisions on the flow, each once |
| `AuditGraph.AllDecisions` | components/active-siem/crates/review-queue/src/engine_bridge.rs:85-91 | exactly the recorded decisions, keyed by id |
| `ReviewQueue.Queue.constructor` | components/active-siem/crates/review-queue/src/queue.rs:44-56 | a new queue satisfies the invariant |
| `ReviewQueue.Queue.Ingest` | components/active-siem/crates/review-queue/src/queue.rs:68-131 | keeps the agreement of items and graph for any flow id; succeeds iff the flow is new and the graph has its id free and, for a prediction that resolves itself, the next decision id too; the outcome is the trigger's, and containment is approved iff it asks for no review and the label is not benign |
| `ReviewQueue.DecisionShapedIdCollides` | components/active-siem/crates/review-queue/src/queue.rs:58-61 | on any queue, a flow id that is another flow's next decision id makes that flow's ingest fail with an internal error |
| `ReviewQueue.Queue.Claim` | components/active-siem/crates/review-queue/src/queue.rs:134-157 | moves only a Pending item, and keeps the agreement |
| `ReviewQueue.Queue.RecordVerdict` | components/active-siem/crates/review-queue/src/queue.rs:163-211 | error cases in order, success iff the fresh decision id is free, and the item resolved by exactly the new decision |
| `ReviewQueue.Queue.SweepExpired` | components/active-siem/crates/review-queue/src/queue.rs:229-347 | an item is swept iff it is Pending or UnderReview and its time is over; it ends approved for containment iff the policy is fail-secure, the label is not the benign one and the clamped confidence in thousandths, halves up, reaches the threshold, and dismissed otherwise; nothing else changes; a failure part-way keeps what was done |
| `ReviewTypes.ToMillis` | components/active-siem/crates/review-queue/src/schema.rs:73-75 | clamped, and the nearest thousandth with halves going up |
| `ReviewTypes.MillisReach` | components/active-siem/crates/review-queue/src/queue.rs:288-291 | the rounded confidence reaches a threshold exactly when the confidence is at most half a thousandth short of it |
| `ReviewTypes.TimeoutVerdictMeans` | components/active-siem/crates/review-queue/src/queue.rs:276-313 | a timeout contains exactly under those three conditions and dismisses otherwise |
| `ReviewQueue.SweptMeans` | components/active-siem/crates/review-queue/src/queue.rs:246-330 | the loop over the expired flows leaves every flow as that says |
| `ReviewQueue.SettleKeeps` | components/active-siem/crates/review-queue/src/queue.rs:194-211 | recording a decision and moving its item keeps items and decisions naming each other |
| `ReviewQueue.DecisionsOfFlow` | components/active-siem/crates/review-queue/src/queue.rs:68-347 | an open flow has no decision; a decided one has exactly the one its state names |
| `ReviewQueue.NextIdFresh` | components/active-siem/crates/review-queue/src/queue.rs:58-61 | with plain flow ids the next decision id is never taken |
| `ReviewQueue.OnlyDecision` | components/active-siem/crates/review-queue/src/containment.rs:64-80 | whatever the graph returns for a flow, the containing decisions are the one approved one or none |
| `ReviewQueue.Weigh` | components/active-siem/crates/review-queue/src/containment.rs:71-79 | none, one or several containing decisions give the three answers |
| `ReviewQueue.Queue.Check` | components/active-siem/crates/review-queue/src/containment.rs:64-80 | in every reachable state Approved iff the flow's one decision is ExecuteContainment, else NotApproved; never Conflicting |
| `ReviewQueue.Queue.ExecuteIfApproved` | components/active-siem/crates/review-queue/src/containment.rs:84-101 | the action runs exactly when the graph approves; each refusal carries its error |
| `ReviewQueue.ContainmentIsAuthorised` | components/active-siem/crates/review-queue/src/queue.rs:278-311 | every containing decision comes from a named human with a rationale, a clean automatic call or the fail-secure rule; under FailSafe never from a timeout |
| `ReviewQueue.SystemDecisionsExact` | components/active-siem/crates/review-queue/src/queue.rs:276-313 | the converse for decisions no human made: they contain exactly when authorised and dismiss otherwise |
| `ReviewStore.Save` | components/active-siem/crates/review-queue/src/store.rs:57-76 | the snapshot holds the items, every decision read back from the graph and the next sequence number |
| `ReviewStore.Rehydrate` | components/active-siem/crates/review-queue/src/queue.rs:418-452 | replay in any order never fails and rebuilds a queue that satisfies the invariant |
| `ReviewStore.GraphDetermined` | components/active-siem/crates/review-queue/src/queue.rs:418-452 | items and decisions determine the links, and the instances when nothing else is stored |
| `ReviewStore.PlainHoldsNothingElse` | components/active-siem/crates/review-queue/src/engine_bridge.rs:10-67 | with plain ids the graph stores the items' predictions and the decisions only |
| `ReviewStore.SaveThenLoad` | components/active-siem/crates/review-queue/src/store.rs:35-76 | save then load gives the same items, decisions, links, sequence number and settings, and with plain ids the same instances too |
| `Correlation.Engine.HandleEvent` | components/active-siem/crates/siem-correlation/src/lib.rs:492-516 | with an evidence cap of at least 2 a verdict is attempted exactly when the uncapped history since the record's creation first has two lanes or a Critical; over the host cap one host with the oldest last event goes, and no other |
| `Correlation.CappedSeesEnough` | components/active-siem/crates/siem-correlation/src/lib.rs:345-372 | at the event that could first decide, capped evidence and full history agree on two lanes and on Critical |
| `Correlation.CapOfOneMisses` | components/active-siem/crates/siem-correlation/src/lib.rs:356-362 | with room for one event corroboration is missed, so the cap of two is needed |
| `Correlation.DueOnce` | components/active-siem/crates/siem-correlation/src/lib.rs:518-560 | at most one event of a record's lifetime is due |
| `Correlation.SomeDue` | components/active-siem/crates/siem-correlation/src/lib.rs:518-560 | a history that triggers has an event that was due |
| `Correlation.OpenRecord` | components/active-siem/crates/siem-correlation/src/lib.rs:518-545 | an unfinalized record has seen one lane and nothing Critical, dropped evidence included |
| `Correlation.PushRetains` | components/active-siem/crates/siem-correlation/src/lib.rs:356-362 | evidence is the newest part of the history |
| `Correlation.Engine.SweepExpired` | components/active-siem/crates/siem-correlation/src/lib.rs:563-575 | drops exactly the records idle for the window |
| `Correlation.Engine.EnforceCapacity` | components/active-siem/crates/siem-correlation/src/lib.rs:577-597 | over the cap, evicts one host with the oldest last event |
| `Correlation.DistinctSources` | components/active-siem/crates/siem-correlation/src/lib.rs:364-372 | each lane of the evidence once, in the order first seen |
| `Correlation.MaxSeverity` | components/active-siem/crates/siem-correlation/src/lib.rs:374-380 | a maximum of the evidence's severities |
| `Correlation.RankIsOrder` | components/active-siem/crates/siem-correlation/src/lib.rs:86-95 | severities are ordered Low, Medium, High, Critical |
| `Correlation.Judge` | components/active-siem/crates/siem-correlation/src/lib.rs:518-545 | a verdict iff two lanes or a Critical, reporting exactly the retained evidence; its confidence times the number of events is the sum of their confidences |
| `Correlation.MeanIsShare` | components/active-siem/crates/siem-correlation/src/lib.rs:382-387 | the mean times the number of events is the sum |
| `Correlation.SumConcat` | components/active-siem/crates/siem-correlation/src/lib.rs:382-387 | the sum is the confidence on one event and additive over any split |
| `Correlation.MeanBetween` | components/active-siem/crates/siem-correlation/src/lib.rs:382-387 | the mean lies between the least and the greatest confidence |
| `Correlation.MeanPermuted` | components/active-siem/crates/siem-correlation/src/lib.rs:382-387 | the order of the evidence does not matter |
| `Correlation.MeanReaches` | components/active-siem/crates/siem-correlation/src/lib.rs:382-387 | the mean reaches a bound iff the sum reaches the bound times the number |
| `CorrelationReview.XdpOpenedIsQueued` | components/active-siem/crates/siem-correlation-bridge/src/lib.rs:125-144 | an attempt on a host whose record the XDP lane opened is never resolved automatically under the default trigger |
| `CorrelationReview.ResolvedIff` | components/active-siem/crates/siem-correlation-bridge/src/lib.rs:125-144 | exactly when an attempt is resolved without a human under the default trigger: the history has two lanes and the retained confidences add up to at least 0.9 times their number |
| `CorrelationReview.ClamAvOpenedIff` | components/active-siem/crates/siem-correlation-bridge/src/lib.rs:125-144 | for a ClamAV-opened host: exactly when what the corroborating event lacks of full confidence is at most a tenth of the retained events |
| `CorrelationReview.CorroboratedMean` | components/active-siem/crates/siem-correlation/src/lib.rs:382-387 | two-lane corroboration of such a host has mean confidence at most 0.8 |
| `CorrelationReview.SubmittedConfidence` | components/active-siem/crates/siem-correlation/src/lib.rs:228-340 | which confidences go with which severities, lane by lane |
| `CorrelationReview.ClamAvOpenedCanContain` | components/active-siem/crates/review-queue/src/trigger.rs:44-66 | the opening lane matters: an attempt on a ClamAV-opened history is contained at once |
| `CorrelationReview.Route` | components/active-siem/crates/siem-correlation-bridge/src/lib.rs:125-144 | through ingest: approved iff two lanes and the confidences add up to nine tenths of their number; an XDP-opened host ends up Pending |
| `RuleEngine.Engine.Evaluate` | components/firewall-perimeter/src/engine.rs:183-254 | decision and both limiters equal the linear first-match scan's, for every rule list, packet and limiter state; said outright (`Decides`): trusted sources pass, over its rate a source is dropped under the rate-limit name, otherwise the first matching rule's action, or the default policy; a ban only with a refusal and exactly when the tracker answers true |
| `RuleEngine.ScanDecides` | components/firewall-perimeter/src/engine.rs:183-254 | the scan meets that description on every packet |
| `RuleEngine.DecidesOneWay` | components/firewall-perimeter/src/engine.rs:183-254 | the description fixes decision and limiter state: nothing else meets it |
| `RuleEngine.PassedIsAdmitted` | components/firewall-perimeter/src/engine.rs:207-216 | over any stream of packets and sweeps the packets accepted under a limited Accept rule are exactly those its buckets admit |
| `RuleEngine.AcceptedAtRate` | components/firewall-perimeter/src/engine.rs:207-216 | over any stretch of t seconds at most rate (1 + t) packets of one source whose first match is that rule are accepted |
| `RuleEngine.Engine.PeriodicMaintenance` | components/firewall-perimeter/src/engine.rs:256-261 | both limiters lose exactly what was idle for 300 seconds |
| `RuleEngine.ContainsIsBlock` | components/firewall-perimeter/src/engine.rs:133-142 | a network is an aligned block of addresses of its own family |
| `RuleEngine.ProtocolByNumber` | components/firewall-perimeter/src/engine.rs:76-84 | a rule with a protocol matches exactly the packets of its protocol number |
| `RuleEngine.LastAliasCounts` | components/firewall-perimeter/src/engine.rs:95-99 | of several aliases with one name the last counts |
| `RuleEngine.BuildIndex` | components/firewall-perimeter/src/engine.rs:101-115 | each rule filed in exactly its bucket or among the wildcards |
| `RuleEngine.MatchesAreCandidates` | components/firewall-perimeter/src/engine.rs:193-201 | no rule outside the bucket and the wildcards can match |
| `RuleEngine.FirstCandidate` | components/firewall-perimeter/src/engine.rs:199-206 | the first match of the sorted candidates is the first match of the list |
| `RuleEngine.SortSorts` | components/firewall-perimeter/src/engine.rs:201-201 | sorting orders the candidates and keeps them all |
| `RuleEngine.FirstMatch` | components/firewall-perimeter/src/engine.rs:203-206 | the least matching rule number |
| `RuleEngine.Engine.Apply` | components/firewall-perimeter/src/engine.rs:207-241 | verdict, name, logging and ban of one matching rule, the bucket and the tracker consulted as they stood before |
| `RuleEngine.Engine.GateAutoBlock` | components/firewall-perimeter/src/engine.rs:159-172 | a ban is returned exactly when the threshold is reached |
| `RateLimit.RateLimiter.Allow` | components/firewall-perimeter/src/rate_limit.rs:28-52 | refill, test and take |
| `RateLimit.RateLimiter.Sweep` | components/firewall-perimeter/src/rate_limit.rs:55-59 | drops exactly the buckets idle too long |
| `RateLimit.BurstBound` | components/firewall-perimeter/src/rate_limit.rs:28-52 | over any stretch of t seconds of any run at most rate (1 + t) packets of a source and rule get through, sweeps of a second or more included |
| `RateLimit.AdmittedAtMost` | components/firewall-perimeter/src/rate_limit.rs:28-52 | admitted packets never exceed what the bucket held plus what flowed in |
| `RateLimit.SpacedIsAdmitted` | components/firewall-perimeter/src/rate_limit.rs:28-52 | after an admitted packet, the next one a rate-th of a second later is admitted too |
| `RateLimit.QuietIsAdmitted` | components/firewall-perimeter/src/rate_limit.rs:28-52 | a source quiet for a second has its full burst again |
| `RateLimit.SweepsUnobservable` | components/firewall-perimeter/src/engine.rs:256-261 | removing all sweeps with an idle bound of at least a second changes no answer |
| `RateLimit.ShortIdleIsObservable` | components/firewall-perimeter/src/rate_limit.rs:55-59 | every shorter idle bound is observable |
| `Threshold.ThresholdTracker.RecordAndCheck` | components/firewall-perimeter/src/threshold.rs:39-72 | answer and new entry of one match |
| `Threshold.ThresholdTracker.Sweep` | components/firewall-perimeter/src/threshold.rs:77-81 | drops the entries whose window began too long ago |
| `Threshold.FiringsAreBacked` | components/firewall-perimeter/src/threshold.rs:39-81 | in every run of one rule and source each firing rests on exactly threshold matches within one window and shares none with another firing |
| `Threshold.TableFiringsAreBacked` | components/firewall-perimeter/src/threshold.rs:23-81 | the same over runs of the shared table, many rules and sources with common sweeps: each answer and each firing of a key is its own run's |
| `Threshold.KeyRunsAlone` | components/firewall-perimeter/src/threshold.rs:23-81 | each entry of the shared table is what the key's own matches and the sweeps leave |
| `Threshold.FiringIsAnswer` | components/firewall-perimeter/src/threshold.rs:39-81 | a match adds a firing exactly when it is answered true; a sweep by itself adds none |
| `Threshold.FiringsAreAnswers` | components/firewall-perimeter/src/threshold.rs:39-81 | the backed firings of a run are as many as its true answers, and entry and run agree |
| `Threshold.EnoughMatchesFire` | components/firewall-perimeter/src/threshold.rs:39-72 | into no running window, threshold matches within one window fire at the last and nowhere before |
| `Threshold.LowThresholdAlwaysFires` | components/firewall-perimeter/src/threshold.rs:46-48 | at a threshold of one or zero every match of every run fires |
| `Threshold.ThresholdMatchesFireIff` | components/firewall-perimeter/src/threshold.rs:39-72 | from any entry, threshold matches within one window's length contain a firing iff there is no entry, its window is over at the first of them, or those inside it complete its count |
| `Threshold.AlwaysEnough` | components/firewall-perimeter/src/threshold.rs:39-72 | 2 threshold - 1 matches within one window's length fire from every entry |
| `Threshold.NotAlwaysEnough` | components/firewall-perimeter/src/threshold.rs:39-72 | 2 threshold - 2 need not, from an entry every rule can be in |
| `Threshold.WindowDoesNotRoll` | components/firewall-perimeter/src/threshold.rs:5-7 | threshold 3, window 10: matches at 0, 9, 11 and 12 never fire, against the documented rolling window |
| `Threshold.LongIdleUnobservable` | components/firewall-perimeter/src/engine.rs:256-261 | sweeps with an idle bound above the window change no answer |
| `Threshold.ShortIdleObservable` | components/firewall-perimeter/src/threshold.rs:77-81 | for every threshold from two and every idle bound within the window, one run whose sweep suppresses one firing and creates another |
| `Threshold.UnobservableIff` | components/firewall-perimeter/src/threshold.rs:77-81 | sweeping changes no answer of any run iff the threshold is at most one or the window is below the idle bound |
| `Threshold.BanFromNothingIff` | components/firewall-perimeter/src/threshold.rs:77-81 | some source is banned only because of sweeps iff the threshold is at least three and the idle bound lies within a window of positive length |
| `Tables.Quarantine.Ban` | components/firewall-perimeter/src/quarantine.rs:100-121 | refused exactly for a new address at capacity; an address is blocked afterwards exactly when it was before or the new ban covers the time; each call counted once, by its outcome; the cap is kept |
| `Tables.Quarantine.IsActive` | components/firewall-perimeter/src/quarantine.rs:126-131 | active exactly before the recorded expiry |
| `Tables.Quarantine.ManualUnban` | components/firewall-perimeter/src/quarantine.rs:139-145 | removes the one address |
| `Tables.Quarantine.SweepExpired` | components/firewall-perimeter/src/quarantine.rs:154-168 | removes exactly the bans that block nothing any more |
| `Tables.KeyIsTheFlow` | components/firewall-perimeter/src/conntrack.rs:36-53 | two packets share a key exactly when they belong to one flow, in either direction |
| `Tables.ConnTrack.LookupOrAdmit` | components/firewall-perimeter/src/conntrack.rs:100-124 | known, new or full exactly as the table stands; never adds an entry |
| `Tables.StateFromPackets` | components/firewall-perimeter/src/conntrack.rs:109-118 | over any stretch of packets the last FIN, RST or SYN-ACK decides the state, and any TCP packet after a SYN-ACK completes the handshake |
| `Tables.PacketsCounted` | components/firewall-perimeter/src/conntrack.rs:105-108 | every packet of a known flow is counted once with its payload |
| `Tables.ConnTrack.RecordNew` | components/firewall-perimeter/src/conntrack.rs:129-145 | adds or replaces the flow's entry |
| `Tables.ConnTrack.SweepExpired` | components/firewall-perimeter/src/conntrack.rs:152-171 | removes exactly the entries past their limit: established TCP, other TCP and everything else each by its own |
| `Tables.CapsHold` | components/firewall-perimeter/src/nfqueue.rs:117-209 | with W workers, sweeps and unbans interleaving at every look and insert, no table exceeds max - 1 + W entries (and none at all for max = 0) |
| `Tables.StepBounded` | components/firewall-perimeter/src/nfqueue.rs:117-209 | every step keeps the bound on table keys together with keys in flight |
| `Tables.OneWorkerExact` | components/firewall-perimeter/src/nfqueue.rs:117-209 | one worker keeps both caps exactly |
| `Tables.RaceReachesTheBound` | components/firewall-perimeter/src/nfqueue.rs:117-209 | for every cap and every number of workers an interleaving from the start reaches max - 1 + W entries, in either table |
| `Tables.CapsExactIff` | components/firewall-perimeter/src/nfqueue.rs:117-209 | the configured caps hold in every interleaving iff there is at most one worker (or a cap of zero lets nothing in) |
| `RuleSync.Document.UpsertAlias` | bridges/asd-firewall-sync/src/lib.rs:168-199 | the named alias holds the canonical host list, all others are untouched |
| `RuleSync.Document.UpsertBlockingRule` | bridges/asd-firewall-sync/src/lib.rs:201-224 | the sync rule first, then every other rule in order |
| `RuleSync.SyncKeepsValid` | components/firewall-perimeter/src/config.rs:296-326 | the rewritten config passes validation |
| `RuleSync.SyncTwice` | bridges/asd-firewall-sync/src/lib.rs:168-224 | only the last sync counts; other rules keep their order |
| `RuleSync.CanonicalMeans` | bridges/asd-firewall-sync/src/lib.rs:169-171 | for IPv4 sources the alias holds exactly the listed hosts |
| `RuleSync.SyncRuleMatches` | bridges/asd-firewall-sync/src/lib.rs:201-224 | the rule matches exactly packets to an IPv4 address from a source in the alias |
| `RuleSync.Ipv6Passes` | components/firewall-perimeter/src/config.rs:163-165 | packets to an IPv6 address are never stopped by the rule |
| `RuleSync.ListedIsDropped` | bridges/asd-firewall-sync/src/lib.rs:210-224 | a listed untrusted IPv4 source is dropped and no limiter moves |
| `RuleSync.OnePacket` | components/firewall-perimeter/src/engine.rs:183-254 | old and rewritten config agree on every other IPv4 packet, with limiter state one rule number apart |
| `RuleSync.SyncMeaning` | bridges/asd-firewall-sync/src/lib.rs:168-224 | on every stream of IPv4 packets from fresh engines: listed untrusted sources dropped, every other packet decided as by the old config without the sync rule |

## Left out

- Embed: requires `epsilon > 0`; with a threshold of zero an already diagonal matrix would be rotated with 0/0.
- EmbedGraph: the distance functions on a finished embedding are not modelled.
- Canonical: sorts hosts by address value where the source sorts their text; the set, the absence of duplicates and idempotence do not depend on it.
- Quarantine.Ban: the job queued for the operating system's own firewall is not modelled.
- SweepExpired: the alert sink that is notified after the lock is released is not modelled, and one clock reading serves the whole call.
- Ingest: the rationale texts omit the formatted numbers.
- Rehydrate: takes any snapshot that `Save` can produce; loading a file edited by hand is not modelled, nor is saving while the queue is changing.
- Allow: one limiter sees each rule at one rate, which is how the engine uses it (`BurstBound`).
- Channel: one receiving thread, as designed; `len()` and the iterator are left out.
- Mutex poisoning, memory ordering below sequential consistency, counter wrap-around and floating-point rounding.
- Quadrature, gamma functions, polynomial conversion, power iteration and `fit`: numerical convergence with no exact-real theorem.
- Rule direction, which always matches, and packet parsing.
- Sockets, queues of the kernel, subprocesses, metrics, control endpoints, file formats (TOML and JSON are taken as identity) and reload signals.
- Learned models, vector search, network sensors, the log gate, signature updates, the collector and store of the SIEM, response policies and the command line: easy members beside the components above.
