/**
 The human-review gate. The queue's items and the audit graph are two records of the same
 history; `Valid` says how they agree, and every operation keeps it.
 */
module ReviewQueue {
  import opened Wrappers
  import opened Ontology
  import opened ReviewTypes
  import opened AuditGraph

  datatype QueueError = DuplicateFlow(flow: string) | FlowNotFound(flow: string) | NotPending(flow: string, state: ReviewState)
                      | EmptyRationale(flow: string) | EmptyReviewer(flow: string) | OntologyError(error: Error)

  datatype Reply<T> = Done(value: T) | Failed(error: QueueError)

  datatype IngestOutcome = Resolves(verdict: Verdict, decisionId: string) | QueuedForReview(reason: TriggerReason)

  datatype ContainmentDecision = Approved(decisionId: string) | NotApproved | Conflicting(decisionIds: seq<string>)

  datatype ContainmentError = NotApprovedError(flow: string) | ConflictingError(flow: string, decisionIds: seq<string>) | ActionFailed
  datatype ContainmentOutcome = Contained(decisionId: string) | Refused(error: ContainmentError)

  type Items = map<string, QueueItem>
  type Decisions = map<string, AuditDecision>

  // ---------------------------------------------------------------------
  // Agreement between items and graph
  // ---------------------------------------------------------------------

  /** The state names d as its decision. */
  predicate Names(state: ReviewState, d: string) { !state.Open() && state.decisionId == d }

  ghost predicate PredictionsWritten(instances: map<string, Instance>, items: Items) {
    forall f {:trigger PredictionInstance(items[f].prediction)} ::
      f in items ==> f in instances && instances[f] == PredictionInstance(items[f].prediction)
  }

  /** Every item is an instance of the graph under its own flow id. */
  ghost predicate Enrolled(instances: map<string, Instance>, items: Items) {
    && PredictionsWritten(instances, items)
    && forall f :: f in items ==> f in instances && instances[f].objectType == FlowPredictionType && items[f].prediction.flowId == f
  }

  /** Decided items and recorded decisions name each other; open items are named by none. */
  ghost predicate Settled(items: Items, decisions: Decisions) {
    && (forall d :: d in decisions ==> decisions[d].flowId in items && Names(items[decisions[d].flowId].state, d))
    && (forall f :: f in items && !items[f].state.Open() ==>
          items[f].state.decisionId in decisions && decisions[items[f].state.decisionId].flowId == f)
  }

  ghost predicate IssuedBefore(flow: string, d: string, next: nat) { exists n: nat :: n < next && d == DecisionId(flow, n) }

  ghost predicate Issued(decisions: Decisions, next: nat) {
    forall d :: d in decisions ==> IssuedBefore(decisions[d].flowId, d, next)
  }

  ghost predicate Sanctioned(d: AuditDecision, item: QueueItem, cfg: TriggerConfig, policy: SlaPolicy) {
    && item.state == StateFor(d.reviewer, d.decisionId)
    && Warranted(item.prediction, d.reviewer, d.verdict, d.rationale, cfg, policy)
  }

  /** Why the verdict was the reviewer's to give */
  ghost predicate Warranted(p: FlowPrediction, reviewer: Reviewer, verdict: Verdict, rationale: string, cfg: TriggerConfig, policy: SlaPolicy) {
    match reviewer
    case SystemAutoResolve => Evaluate(p, cfg).None? && verdict == AutoVerdict(p, cfg)
    case SystemSlaTimeout => verdict == TimeoutVerdict(p, cfg, policy)
    case Human(who) => !Blank(who) && !Blank(rationale)
  }

  function StateFor(reviewer: Reviewer, id: string): ReviewState { if reviewer == SystemAutoResolve then AutoResolved(id) else Resolved(id) }

  ghost predicate AllSanctioned(items: Items, decisions: Decisions, cfg: TriggerConfig, policy: SlaPolicy) {
    forall d :: d in decisions && decisions[d].flowId in items ==> Sanctioned(decisions[d], items[decisions[d].flowId], cfg, policy)
  }

  ghost predicate Agree(items: Items, decisions: Decisions, cfg: TriggerConfig, policy: SlaPolicy, next: nat) {
    Settled(items, decisions) && Issued(decisions, next) && AllSanctioned(items, decisions, cfg, policy)
  }

  /** No flow instance has an id of the form of a decision id, and none is left without an item. */
  ghost predicate PlainIds(instances: map<string, Instance>, items: Items) {
    forall id :: id in instances && instances[id].objectType == FlowPredictionType ==> id in items && !IsDecisionId(id)
  }

  // ---------------------------------------------------------------------
  // What each kind of change keeps
  // ---------------------------------------------------------------------

  lemma AgreeLater(items: Items, decisions: Decisions, cfg: TriggerConfig, policy: SlaPolicy, next: nat, later: nat)
    requires Agree(items, decisions, cfg, policy, next) && next <= later
    ensures Agree(items, decisions, cfg, policy, later)
  {
    forall d | d in decisions ensures IssuedBefore(decisions[d].flowId, d, later) {
      var n: nat :| n < next && d == DecisionId(decisions[d].flowId, n);
    }
  }

  /** A new open item, or an open item moving to another open state */
  lemma OpenKeeps(items: Items, decisions: Decisions, cfg: TriggerConfig, policy: SlaPolicy, next: nat, f: string, item: QueueItem)
    requires Agree(items, decisions, cfg, policy, next) && item.state.Open() && (f in items ==> items[f].state.Open())
    ensures Agree(items[f := item], decisions, cfg, policy, next)
  {
  }

  /** A decision recorded on an open or new flow, together with the state that names it */
  lemma SettleKeeps(items: Items, decisions: Decisions, cfg: TriggerConfig, policy: SlaPolicy, next: nat, d: AuditDecision, item: QueueItem)
    requires Agree(items, decisions, cfg, policy, next)
    requires d.flowId in items ==> items[d.flowId].state.Open()
    requires IssuedBefore(d.flowId, d.decisionId, next) && d.decisionId !in decisions
    requires Names(item.state, d.decisionId) && Sanctioned(d, item, cfg, policy)
    ensures Agree(items[d.flowId := item], decisions[d.decisionId := d], cfg, policy, next)
  {
  }

  lemma EnrolledKept(before: map<string, Instance>, after: map<string, Instance>, items: Items, id: string, objectType: string)
    requires Enrolled(before, items) && Adds(before, after, id, objectType)
    ensures Enrolled(after, items)
  {
  }

  lemma EnrolledMore(instances: map<string, Instance>, items: Items, item: QueueItem)
    requires Enrolled(instances, items)
    requires item.prediction.flowId in instances && instances[item.prediction.flowId] == PredictionInstance(item.prediction)
    ensures Enrolled(instances, items[item.prediction.flowId := item])
  {
  }

  lemma EnrolledSame(instances: map<string, Instance>, items: Items, f: string, item: QueueItem, state: ReviewState)
    requires Enrolled(instances, items[f := item])
    ensures Enrolled(instances, items[f := item.(state := state)])
  {
    var before, after := items[f := item], items[f := item.(state := state)];
    forall g | g in after
      ensures g in instances && instances[g] == PredictionInstance(after[g].prediction)
    {
      assert instances[g] == PredictionInstance(before[g].prediction);
    }
  }

  lemma PlainKept(before: map<string, Instance>, after: map<string, Instance>, items: Items, more: Items, id: string)
    requires PlainIds(before, items) && Adds(before, after, id, AuditDecisionType) && items.Keys <= more.Keys
    ensures PlainIds(after, more)
  {
    TypesDiffer();
  }

  lemma PlainMore(before: map<string, Instance>, after: map<string, Instance>, items: Items, more: Items, f: string)
    requires PlainIds(before, items) && Adds(before, after, f, FlowPredictionType) && !IsDecisionId(f) && more.Keys == items.Keys + {f}
    ensures PlainIds(after, more)
  {
  }

  /** With plain flow ids the next decision id is never taken. */
  lemma NextIdFresh(instances: map<string, Instance>, links: set<Link>, objectTypes: map<string, ObjectType>, linkTypes: map<string, LinkType>,
                    items: Items, decisions: Decisions, next: nat, f: string)
    requires Fitting(objectTypes, instances) && HasSchema(objectTypes, linkTypes)
    requires Records(instances, links, decisions) && Issued(decisions, next) && PlainIds(instances, items)
    ensures DecisionId(f, next) !in instances
  {
    var id := DecisionId(f, next);
    if id in instances {
      assert IsDecisionId(id);
      assert id in decisions;
      NotYetIssued(decisions[id].flowId, f, next);
    }
  }

  /** ... and a plain flow id is taken only by its own item. */
  lemma PlainIsFree(instances: map<string, Instance>, links: set<Link>, objectTypes: map<string, ObjectType>, linkTypes: map<string, LinkType>,
                    items: Items, decisions: Decisions, next: nat, f: string)
    requires Fitting(objectTypes, instances) && HasSchema(objectTypes, linkTypes)
    requires Records(instances, links, decisions) && Issued(decisions, next) && PlainIds(instances, items) && !IsDecisionId(f) && f !in items
    ensures f !in instances
  {
    if f in decisions { IssuedIsShaped(decisions[f].flowId, f, next); }
  }

  lemma IssuedIsShaped(flow: string, d: string, next: nat)
    requires IssuedBefore(flow, d, next)
    ensures IsDecisionId(d)
  {
  }

  lemma NotYetIssued(g: string, f: string, next: nat)
    ensures !IssuedBefore(g, DecisionId(f, next), next)
  {
    if IssuedBefore(g, DecisionId(f, next), next) {
      var n: nat :| n < next && DecisionId(f, next) == DecisionId(g, n);
      DecisionIdInjective(f, next, g, n);
    }
  }

  // ---------------------------------------------------------------------
  // What the agreement means for containment
  // ---------------------------------------------------------------------

  /** An open flow has no decision; a decided one has exactly the one its state names. */
  lemma DecisionsOfFlow(items: Items, decisions: Decisions, f: string, d: AuditDecision)
    requires Settled(items, decisions) && f in items && forall id :: id in decisions ==> decisions[id].decisionId == id
    ensures items[f].state.Open() ==> !DecidesFlow(decisions, f, d)
    ensures !items[f].state.Open() ==> (DecidesFlow(decisions, f, d) <==> d == decisions[items[f].state.decisionId])
  {
  }

  /** The flow is decided, and its one decision is to contain. */
  ghost predicate Approves(items: Items, decisions: Decisions, flow: string) {
    && flow in items && !items[flow].state.Open() && items[flow].state.decisionId in decisions
    && decisions[items[flow].state.decisionId].verdict == ExecuteContainment
  }

  function ContainIds(found: seq<AuditDecision>): seq<string> {
    if found == [] then []
    else ContainIds(found[..|found| - 1]) + if found[|found| - 1].verdict == ExecuteContainment then [found[|found| - 1].decisionId] else []
  }

  /** The body of `ContainmentExecutor::check` once the decisions are read */
  method Weigh(found: seq<AuditDecision>) returns (c: ContainmentDecision)
    ensures var ids := ContainIds(found);
      c == if |ids| == 0 then NotApproved else if |ids| == 1 then Approved(ids[0]) else Conflicting(ids)
  {
    var ids, k := [], 0;
    while k < |found|
      invariant 0 <= k <= |found| && ids == ContainIds(found[..k])
    {
      assert found[..k + 1][..k] == found[..k];
      if found[k].verdict == ExecuteContainment { ids := ids + [found[k].decisionId]; }
      k := k + 1;
    }
    assert found[..k] == found;
    match |ids|
    case 0 => return NotApproved;
    case 1 => return Approved(ids[0]);
    case _ => return Conflicting(ids);
  }

  /** Whatever order the graph returns a flow's decisions in, the containing ids are the one approved id or none. */
  lemma OnlyDecision(items: Items, decisions: Decisions, flow: string, found: seq<AuditDecision>)
    requires Settled(items, decisions) && forall id :: id in decisions ==> decisions[id].decisionId == id
    requires ListsDecisions(found, decisions, flow)
    ensures ContainIds(found) == if Approves(items, decisions, flow) then [items[flow].state.decisionId] else []
  {
    if flow in items && !items[flow].state.Open() {
      AllSame(items, decisions, flow, found, decisions[items[flow].state.decisionId]);
    } else {
      NoDecision(items, decisions, flow, found);
    }
  }

  lemma NoDecision(items: Items, decisions: Decisions, flow: string, found: seq<AuditDecision>)
    requires Settled(items, decisions) && (flow in items ==> items[flow].state.Open()) && ListsDecisions(found, decisions, flow)
    ensures found == []
  {
    assert |found| > 0 ==> DecidesFlow(decisions, flow, found[0]);
  }

  lemma FirstTwoDiffer(found: seq<AuditDecision>, decisions: Decisions, flow: string)
    requires ListsDecisions(found, decisions, flow) && |found| > 1
    ensures found[0].decisionId != found[1].decisionId
  {
  }

  lemma AllSame(items: Items, decisions: Decisions, flow: string, found: seq<AuditDecision>, d: AuditDecision)
    requires Settled(items, decisions) && forall id :: id in decisions ==> decisions[id].decisionId == id
    requires flow in items && !items[flow].state.Open() && d == decisions[items[flow].state.decisionId]
    requires ListsDecisions(found, decisions, flow)
    ensures found == [d] && ContainIds(found) == if d.verdict == ExecuteContainment then [d.decisionId] else []
  {
    assert DecidesFlow(decisions, flow, d);
    forall k | 0 <= k < |found| ensures found[k] == d { assert DecidesFlow(decisions, flow, found[k]); }
    if |found| > 1 { FirstTwoDiffer(found, decisions, flow); }
    assert found[..0] == [];
  }

  /** Every containment was authorised by a human, by a clean automatic call, or by the fail-secure rule. */
  ghost predicate Authorised(d: AuditDecision, p: FlowPrediction, cfg: TriggerConfig, policy: SlaPolicy) {
    || (d.reviewer.Human? && !Blank(d.reviewer.id) && !Blank(d.rationale))
    || (d.reviewer.SystemAutoResolve? && p.predicted != cfg.benignLabel && Evaluate(p, cfg).None?)
    || (d.reviewer.SystemSlaTimeout? && TimeoutContains(p, cfg, policy))
  }

  lemma ContainmentIsAuthorised(items: Items, decisions: Decisions, cfg: TriggerConfig, policy: SlaPolicy, next: nat, id: string)
    requires Agree(items, decisions, cfg, policy, next) && id in decisions && decisions[id].verdict == ExecuteContainment
    ensures decisions[id].flowId in items && Authorised(decisions[id], items[decisions[id].flowId].prediction, cfg, policy)
    ensures policy.FailSafe? ==> !decisions[id].reviewer.SystemSlaTimeout?
  {
    TimeoutVerdictMeans(items[decisions[id].flowId].prediction, cfg, policy);
  }

  /** The gate refuses nothing it should let through: a decision no human made contains exactly when it is authorised, and dismisses otherwise. */
  lemma SystemDecisionsExact(items: Items, decisions: Decisions, cfg: TriggerConfig, policy: SlaPolicy, next: nat, id: string)
    requires Agree(items, decisions, cfg, policy, next) && id in decisions && !decisions[id].reviewer.Human?
    ensures decisions[id].flowId in items
    ensures Authorised(decisions[id], items[decisions[id].flowId].prediction, cfg, policy) ==> decisions[id].verdict == ExecuteContainment
    ensures !Authorised(decisions[id], items[decisions[id].flowId].prediction, cfg, policy) ==> decisions[id].verdict == Dismiss
  {
    TimeoutVerdictMeans(items[decisions[id].flowId].prediction, cfg, policy);
  }

  function AutoRationale(p: FlowPrediction): string { "auto-resolved: predicted '" + p.predicted + "' cleared all review thresholds" }
  function TimeoutRationale(policy: SlaPolicy): string { "SLA breach with no human decision; " + if policy.FailSafe? then "fail-safe" else "fail-secure" }

  /** What ingesting p leads to, when it succeeds */
  function Outcome(p: FlowPrediction, cfg: TriggerConfig, next: nat): IngestOutcome {
    match Evaluate(p, cfg)
    case Some(reason) => QueuedForReview(reason)
    case None => Resolves(AutoVerdict(p, cfg), DecisionId(p.flowId, next))
  }

  function StateAfter(o: IngestOutcome): ReviewState {
    match o
    case QueuedForReview(reason) => Pending(reason)
    case Resolves(_, id) => AutoResolved(id)
  }

  /** A prediction just ingested is approved for containment exactly when it needs no review and names an attack. */
  ghost predicate LetThrough(items: Items, decisions: Decisions, p: FlowPrediction, cfg: TriggerConfig) {
    Approves(items, decisions, p.flowId) <==> Evaluate(p, cfg).None? && p.predicted != cfg.benignLabel
  }

  lemma IngestedMeans(items: Items, decisions: Decisions, p: FlowPrediction, cfg: TriggerConfig, o: IngestOutcome, next: nat, now: int)
    requires o == Outcome(p, cfg, next)
    ensures LetThrough(items[p.flowId := QueueItem(p, StateAfter(o), now)], if o.QueuedForReview? then decisions else
      decisions[o.decisionId := AuditDecision(o.decisionId, p.flowId, SystemAutoResolve, o.verdict, AutoRationale(p), now)], p, cfg)
  {
  }

  // ---------------------------------------------------------------------
  // Timeouts
  // ---------------------------------------------------------------------

  datatype SlaResolution = SlaResolution(prediction: FlowPrediction, decision: AuditDecision)

  function Expired(items: Items, cutoff: int): set<string> {
    set f | f in items && items[f].state.Open() && items[f].enqueuedAt <= cutoff
  }

  ghost predicate TimedOut(before: QueueItem, after: QueueItem, decisions: Decisions, cfg: TriggerConfig, policy: SlaPolicy, now: int) {
    && after.state.Resolved? && after == before.(state := after.state) && after.state.decisionId in decisions
    && decisions[after.state.decisionId] == AuditDecision(after.state.decisionId, before.prediction.flowId, SystemSlaTimeout,
                                                          TimeoutVerdict(before.prediction, cfg, policy), TimeoutRationale(policy), now)
  }

  /** The flows in done were resolved by timeout; nothing else changed. */
  ghost predicate Swept(items0: Items, items: Items, decisions0: Decisions, decisions: Decisions, done: set<string>,
                        cfg: TriggerConfig, policy: SlaPolicy, now: int) {
    && items.Keys == items0.Keys
    && (forall f :: f in items0 && f in items && f !in done ==> items[f] == items0[f])
    && (forall f :: f in items0 && f in items && f in done ==> TimedOut(items0[f], items[f], decisions, cfg, policy, now))
    && (forall d :: d in decisions0 ==> d in decisions && decisions[d] == decisions0[d])
    && (forall d :: d in decisions && d !in decisions0 ==> decisions[d].flowId in done)
  }

  /** An item nobody decided within the time allowed */
  ghost predicate Overdue(item: QueueItem, slaSeconds: int, now: int) {
    (item.state.Pending? || item.state.UnderReview?) && item.enqueuedAt + slaSeconds <= now
  }

  /** The flow was decided by the timeout: contained exactly when the policy says so, dismissed otherwise. */
  ghost predicate DecidedByTimeout(before: QueueItem, items: Items, decisions: Decisions, flow: string, cfg: TriggerConfig, policy: SlaPolicy, now: int) {
    && flow in items && items[flow].state.Resolved? && items[flow] == before.(state := items[flow].state)
    && (Approves(items, decisions, flow) <==> TimeoutContains(before.prediction, cfg, policy))
    && items[flow].state.decisionId in decisions
    && var d := decisions[items[flow].state.decisionId];
      d.flowId == flow && d.reviewer == SystemSlaTimeout && d.decidedAt == now && (d.verdict == Dismiss || d.verdict == ExecuteContainment)
  }

  /** What a sweep that ran to its end did to each flow, said of its fields alone */
  ghost predicate SweptRightly(items0: Items, items: Items, decisions: Decisions, slaSeconds: int, cfg: TriggerConfig, policy: SlaPolicy, now: int) {
    forall f :: f in items0 ==>
      if Overdue(items0[f], slaSeconds, now) then DecidedByTimeout(items0[f], items, decisions, f, cfg, policy, now)
      else f in items && items[f] == items0[f]
  }

  lemma SweptMeans(items0: Items, items: Items, decisions0: Decisions, decisions: Decisions, slaSeconds: int,
                   cfg: TriggerConfig, policy: SlaPolicy, now: int)
    requires Swept(items0, items, decisions0, decisions, Expired(items0, now - slaSeconds), cfg, policy, now)
    requires forall f :: f in items0 ==> items0[f].prediction.flowId == f
    ensures SweptRightly(items0, items, decisions, slaSeconds, cfg, policy, now)
  {
    var done := Expired(items0, now - slaSeconds);
    forall f | f in items0
      ensures if Overdue(items0[f], slaSeconds, now) then DecidedByTimeout(items0[f], items, decisions, f, cfg, policy, now)
              else f in items && items[f] == items0[f]
    {
      assert f in done <==> Overdue(items0[f], slaSeconds, now);
      if f in done { TimedOutMeans(items0[f], items, decisions, f, cfg, policy, now); }
    }
  }

  lemma TimedOutMeans(before: QueueItem, items: Items, decisions: Decisions, flow: string, cfg: TriggerConfig, policy: SlaPolicy, now: int)
    requires flow in items && before.prediction.flowId == flow && TimedOut(before, items[flow], decisions, cfg, policy, now)
    ensures DecidedByTimeout(before, items, decisions, flow, cfg, policy, now)
  {
    TimeoutVerdictMeans(before.prediction, cfg, policy);
  }

  /** One report per flow in done, carrying its prediction and the decision its state now names */
  ghost predicate Reported(breaches: seq<SlaResolution>, items: Items, decisions: Decisions, done: set<string>) {
    && |breaches| == |done|
    && (forall k :: 0 <= k < |breaches| ==> ReportedOne(breaches[k], items, decisions, done))
    && (forall j, k :: 0 <= j < k < |breaches| ==> breaches[j].prediction.flowId != breaches[k].prediction.flowId)
  }

  ghost predicate ReportedOne(b: SlaResolution, items: Items, decisions: Decisions, done: set<string>) {
    && b.decision.flowId == b.prediction.flowId && b.prediction.flowId in done && b.prediction.flowId in items
    && b.prediction == items[b.prediction.flowId].prediction && items[b.prediction.flowId].state == Resolved(b.decision.decisionId)
    && b.decision.decisionId in decisions && decisions[b.decision.decisionId] == b.decision
  }

  lemma SweptMore(items0: Items, items: Items, decisions0: Decisions, decisions: Decisions, done: set<string>,
                  cfg: TriggerConfig, policy: SlaPolicy, now: int, flow: string, d: AuditDecision)
    requires Swept(items0, items, decisions0, decisions, done, cfg, policy, now) && flow in items && flow !in done
    requires d.decisionId !in decisions && items[flow].prediction.flowId == flow
    requires d == AuditDecision(d.decisionId, flow, SystemSlaTimeout, TimeoutVerdict(items[flow].prediction, cfg, policy), TimeoutRationale(policy), now)
    ensures Swept(items0, items[flow := items[flow].(state := Resolved(d.decisionId))], decisions0, decisions[d.decisionId := d], done + {flow}, cfg, policy, now)
  {
  }

  lemma TakeOne(expired: set<string>, left: set<string>, done: set<string>, flow: string)
    requires left == expired - done && flow in left && done <= expired
    ensures left - {flow} == expired - (done + {flow}) && done + {flow} <= expired && |left - {flow}| < |left|
  {
  }

  lemma NothingDone(items: Items, decisions: Decisions, expired: set<string>, cfg: TriggerConfig, policy: SlaPolicy, now: int)
    ensures Swept(items, items, decisions, decisions, {}, cfg, policy, now) && Reported([], items, decisions, {}) && expired - {} == expired
  {
  }

  lemma AllDone(expired: set<string>, done: set<string>)
    requires done <= expired && expired - done == {}
    ensures done == expired
  {
    forall f | f in expired ensures f in done { assert f !in expired - done; }
  }

  lemma StillOpen(items0: Items, items: Items, decisions0: Decisions, decisions: Decisions, done: set<string>,
                  cfg: TriggerConfig, policy: SlaPolicy, now: int, flow: string)
    requires Swept(items0, items, decisions0, decisions, done, cfg, policy, now) && flow in items0 && items0[flow].state.Open() && flow !in done
    ensures flow in items && items[flow].state.Open()
  {
  }

  lemma ReportedMore(breaches: seq<SlaResolution>, items: Items, decisions: Decisions, done: set<string>, flow: string, d: AuditDecision)
    requires Reported(breaches, items, decisions, done) && flow in items && flow !in done && items[flow].prediction.flowId == flow
    requires d.flowId == flow && d.decisionId !in decisions
    ensures Reported(breaches + [SlaResolution(items[flow].prediction, d)],
                     items[flow := items[flow].(state := Resolved(d.decisionId))], decisions[d.decisionId := d], done + {flow})
  {
    var after, decisions1 := items[flow := items[flow].(state := Resolved(d.decisionId))], decisions[d.decisionId := d];
    forall b | ReportedOne(b, items, decisions, done) ensures ReportedOne(b, after, decisions1, done + {flow}) {}
  }

  /** The graph has room for the prediction, and for its decision when it resolves itself. */
  ghost predicate Recordable(instances: map<string, Instance>, p: FlowPrediction, cfg: TriggerConfig, next: nat) {
    p.flowId !in instances && (Evaluate(p, cfg).Some? || DecisionId(p.flowId, next) !in instances)
  }

  // ---------------------------------------------------------------------
  // The queue
  // ---------------------------------------------------------------------

  class Queue {
    const engine: Engine
    const triggerCfg: TriggerConfig
    const slaPolicy: SlaPolicy
    var items: Items
    var decisionSeq: nat
    ghost var decisions: Decisions  // every decision taken so far

    ghost predicate Valid() reads this, engine {
      && engine.Valid() && HasSchema(engine.objectTypes, engine.linkTypes)
      && Records(engine.instances, engine.links, decisions) && Enrolled(engine.instances, items)
      && Agree(items, decisions, triggerCfg, slaPolicy, decisionSeq)
    }

    ghost predicate Plain() reads this, engine { PlainIds(engine.instances, items) }

    constructor (cfg: TriggerConfig, policy: SlaPolicy)
      ensures Valid() && Plain() && fresh(engine) && triggerCfg == cfg && slaPolicy == policy
      ensures items == map[] && decisions == map[] && decisionSeq == 0 && engine.instances == map[]
    {
      var e := new Engine();
      var registered := Register(e);
      RegisteredSchema(e.objectTypes, e.linkTypes);
      engine, triggerCfg, slaPolicy, items, decisionSeq, decisions := e, cfg, policy, map[], 0, map[];
    }

    /** `next_decision_id` */
    method NextDecisionId(flow: string) returns (id: string)
      requires Valid()
      modifies this`decisionSeq
      ensures Valid() && id == DecisionId(flow, old(decisionSeq)) && decisionSeq == old(decisionSeq) + 1
    {
      id := DecisionId(flow, decisionSeq);
      AgreeLater(items, decisions, triggerCfg, slaPolicy, decisionSeq, decisionSeq + 1);
      decisionSeq := decisionSeq + 1;
    }

    /**
     The common tail of the three ways to decide: issue an id, write the decision to the
     graph, and only then move the item.
     */
    method Settle(item: QueueItem, reviewer: Reviewer, verdict: Verdict, rationale: string, at: int) returns (r: Reply<AuditDecision>)
      requires Valid() && Enrolled(engine.instances, items[item.prediction.flowId := item])
      requires item.prediction.flowId in items ==> items[item.prediction.flowId].state.Open()
      requires Warranted(item.prediction, reviewer, verdict, rationale, triggerCfg, slaPolicy)
      modifies this`items, this`decisionSeq, this`decisions, engine`instances, engine`links, engine`forward, engine`backward
      ensures Valid() && decisionSeq == old(decisionSeq) + 1
      ensures r.Done? <==> DecisionId(item.prediction.flowId, old(decisionSeq)) !in old(engine.instances)
      ensures r.Done? ==> r.value == AuditDecision(DecisionId(item.prediction.flowId, old(decisionSeq)), item.prediction.flowId, reviewer, verdict, rationale, at)
      ensures r.Done? ==> items == old(items)[item.prediction.flowId := item.(state := StateFor(reviewer, r.value.decisionId))]
      ensures r.Done? ==> decisions == old(decisions)[r.value.decisionId := r.value]
      ensures r.Done? ==> Adds(old(engine.instances), engine.instances, r.value.decisionId, AuditDecisionType)
      ensures r.Failed? ==> r.error == OntologyError(DuplicateInstance(DecisionId(item.prediction.flowId, old(decisionSeq))))
      ensures r.Failed? ==> items == old(items) && decisions == old(decisions) && engine.instances == old(engine.instances)
    {
      var flow := item.prediction.flowId;
      var id := NextDecisionId(flow);
      assert IssuedBefore(flow, id, decisionSeq);
      var d := AuditDecision(id, flow, reviewer, verdict, rationale, at);
      var recorded := Write(d, item);
      r := if recorded.Ok? then Done(d) else Failed(OntologyError(recorded.error));
    }

    method Commit(item: QueueItem, ghost more: Decisions)
      requires engine.Valid() && HasSchema(engine.objectTypes, engine.linkTypes)
      requires Records(engine.instances, engine.links, more) && Enrolled(engine.instances, items[item.prediction.flowId := item])
      requires Agree(items[item.prediction.flowId := item], more, triggerCfg, slaPolicy, decisionSeq)
      modifies this`items, this`decisions
      ensures Valid() && items == old(items)[item.prediction.flowId := item] && decisions == more
    {
      items, decisions := items[item.prediction.flowId := item], more;
    }

    /** The last step of `rehydrate`, once the engine holds the replayed graph */
    method Restore(saved: Items, ghost made: Decisions, next: nat)
      requires engine.Valid() && HasSchema(engine.objectTypes, engine.linkTypes)
      requires Records(engine.instances, engine.links, made) && Enrolled(engine.instances, saved)
      requires Agree(saved, made, triggerCfg, slaPolicy, next)
      modifies this`items, this`decisions, this`decisionSeq
      ensures Valid() && items == saved && decisions == made && decisionSeq == next
    {
      items, decisions, decisionSeq := saved, made, next;
    }

    method Write(d: AuditDecision, item: QueueItem) returns (r: Result<()>)
      requires Valid() && d.flowId == item.prediction.flowId && Enrolled(engine.instances, items[d.flowId := item])
      requires d.flowId in items ==> items[d.flowId].state.Open()
      requires IssuedBefore(d.flowId, d.decisionId, decisionSeq)
      requires Warranted(item.prediction, d.reviewer, d.verdict, d.rationale, triggerCfg, slaPolicy)
      modifies this`items, this`decisions, engine`instances, engine`links, engine`forward, engine`backward
      ensures Valid()
      ensures r.Ok? <==> d.decisionId !in old(engine.instances)
      ensures r.Err? ==> r.error == DuplicateInstance(d.decisionId)
      ensures r.Err? ==> items == old(items) && decisions == old(decisions) && engine.instances == old(engine.instances)
      ensures r.Ok? ==> items == old(items)[d.flowId := item.(state := StateFor(d.reviewer, d.decisionId))]
      ensures r.Ok? ==> decisions == old(decisions)[d.decisionId := d]
      ensures r.Ok? ==> Adds(old(engine.instances), engine.instances, d.decisionId, AuditDecisionType)
    {
      ghost var before := engine.instances;
      var flow := d.flowId;
      assert flow in engine.instances && engine.instances[flow].objectType == FlowPredictionType by { assert flow in items[flow := item]; }
      r := RecordDecision(engine, d, decisions);
      if r.Ok? {
        var after := item.(state := StateFor(d.reviewer, d.decisionId));
        SettleKeeps(items, decisions, triggerCfg, slaPolicy, decisionSeq, d, after);
        EnrolledKept(before, engine.instances, items[flow := item], d.decisionId, AuditDecisionType);
        EnrolledSame(engine.instances, items, flow, item, after.state);
        Commit(after, decisions[d.decisionId := d]);
      }
    }

    /** Writes the prediction to the graph; the item may follow. */
    method Enrol(item: QueueItem) returns (r: Result<()>)
      requires Valid()
      modifies engine`instances
      ensures Valid()
      ensures r.Ok? <==> item.prediction.flowId !in old(engine.instances)
      ensures r.Ok? ==> Enrolled(engine.instances, items[item.prediction.flowId := item])
      ensures r.Ok? ==> Adds(old(engine.instances), engine.instances, item.prediction.flowId, FlowPredictionType)
      ensures r.Err? ==> engine.instances == old(engine.instances)
      ensures r.Ok? && old(Plain()) && !IsDecisionId(item.prediction.flowId) ==> PlainIds(engine.instances, items[item.prediction.flowId := item])
    {
      ghost var before := engine.instances;
      r := RecordPrediction(engine, item.prediction, decisions);
      if r.Ok? {
        if PlainIds(before, items) && !IsDecisionId(item.prediction.flowId) {
          PlainMore(before, engine.instances, items, items[item.prediction.flowId := item], item.prediction.flowId);
        }
        EnrolledKept(before, engine.instances, items, item.prediction.flowId, FlowPredictionType);
        EnrolledMore(engine.instances, items, item);
      }
    }

    /** Ingests one prediction: a duplicate is refused, a clean call resolves itself, anything else waits for a human. */
    method Ingest(p: FlowPrediction, now: int) returns (r: Reply<IngestOutcome>)
      requires Valid()
      modifies this`items, this`decisionSeq, this`decisions, engine`instances, engine`links, engine`forward, engine`backward
      ensures Valid()
      ensures p.flowId in old(items) ==> r == Failed(DuplicateFlow(p.flowId))
      ensures p.flowId !in old(items) && r.Failed? ==> r.error.OntologyError?
      ensures r.Done? && r.value.QueuedForReview? ==> decisionSeq == old(decisionSeq)
      ensures r.Failed? ==> items == old(items) && decisions == old(decisions)
      ensures r.Done? ==> p.flowId !in old(items) && r.value == Outcome(p, triggerCfg, old(decisionSeq))
      ensures r.Done? ==> items == old(items)[p.flowId := QueueItem(p, StateAfter(r.value), now)]
      ensures r.Done? ==> decisions == if r.value.QueuedForReview? then old(decisions) else
          old(decisions)[r.value.decisionId := AuditDecision(r.value.decisionId, p.flowId, SystemAutoResolve, r.value.verdict, AutoRationale(p), now)]
      ensures r.Done? ==> LetThrough(items, decisions, p, triggerCfg)
      ensures r.Done? <==> p.flowId !in old(items) && Recordable(old(engine.instances), p, triggerCfg, old(decisionSeq))
      ensures old(Plain()) && !IsDecisionId(p.flowId) ==> Plain() && (r.Done? <==> p.flowId !in old(items))
    {
      if p.flowId in items { return Failed(DuplicateFlow(p.flowId)); }
      r := IngestNew(p, now);
      if r.Done? { IngestedMeans(old(items), old(decisions), p, triggerCfg, r.value, old(decisionSeq), now); }
    }

    method IngestNew(p: FlowPrediction, now: int) returns (r: Reply<IngestOutcome>)
      requires Valid() && p.flowId !in items
      modifies this`items, this`decisionSeq, this`decisions, engine`instances, engine`links, engine`forward, engine`backward
      ensures Valid()
      ensures r.Failed? ==> r.error.OntologyError? && items == old(items) && decisions == old(decisions)
      ensures r.Done? && r.value.QueuedForReview? ==> decisionSeq == old(decisionSeq)
      ensures r.Done? ==> r.value == Outcome(p, triggerCfg, old(decisionSeq))
      ensures r.Done? ==> items == old(items)[p.flowId := QueueItem(p, StateAfter(r.value), now)]
      ensures r.Done? ==> decisions == if r.value.QueuedForReview? then old(decisions) else
          old(decisions)[r.value.decisionId := AuditDecision(r.value.decisionId, p.flowId, SystemAutoResolve, r.value.verdict, AutoRationale(p), now)]
      ensures r.Done? <==> Recordable(old(engine.instances), p, triggerCfg, old(decisionSeq))
      ensures old(Plain()) && !IsDecisionId(p.flowId) ==> Plain() && r.Done?
    {
      var trigger := Evaluate(p, triggerCfg);
      var item := QueueItem(p, Pending(if trigger.Some? then trigger.value else ManualFlag), now);
      if Plain() && !IsDecisionId(p.flowId) {
        NextIdFresh(engine.instances, engine.links, engine.objectTypes, engine.linkTypes, items, decisions, decisionSeq, p.flowId);
        PlainIsFree(engine.instances, engine.links, engine.objectTypes, engine.linkTypes, items, decisions, decisionSeq, p.flowId);
      }
      DecisionIdLonger(p.flowId, decisionSeq);
      var recorded := Enrol(item);
      if recorded.Err? {
        r := Failed(OntologyError(recorded.error));
      } else if trigger.Some? {
        Enqueue(item);
        r := Done(QueuedForReview(trigger.value));
      } else {
        r := AutoResolve(item, now);
      }
    }

    method Enqueue(item: QueueItem)
      requires Valid() && Enrolled(engine.instances, items[item.prediction.flowId := item]) && item.prediction.flowId !in items && item.state.Open()
      modifies this`items, this`decisions
      ensures Valid() && items == old(items)[item.prediction.flowId := item] && decisions == old(decisions)
      ensures PlainIds(engine.instances, old(items)[item.prediction.flowId := item]) ==> Plain()
    {
      OpenKeeps(items, decisions, triggerCfg, slaPolicy, decisionSeq, item.prediction.flowId, item);
      Commit(item, decisions);
    }

    method AutoResolve(item: QueueItem, now: int) returns (r: Reply<IngestOutcome>)
      requires Valid() && Enrolled(engine.instances, items[item.prediction.flowId := item]) && item.prediction.flowId !in items
      requires Evaluate(item.prediction, triggerCfg).None?
      modifies this`items, this`decisionSeq, this`decisions, engine`instances, engine`links, engine`forward, engine`backward
      ensures Valid()
      ensures r.Done? <==> DecisionId(item.prediction.flowId, old(decisionSeq)) !in old(engine.instances)
      ensures r.Failed? ==> items == old(items) && decisions == old(decisions) && r.error.OntologyError?
      ensures r.Done? ==> r.value == Resolves(AutoVerdict(item.prediction, triggerCfg), DecisionId(item.prediction.flowId, old(decisionSeq)))
      ensures r.Done? ==> items == old(items)[item.prediction.flowId := item.(state := AutoResolved(r.value.decisionId))]
      ensures r.Done? ==> decisions == old(decisions)[r.value.decisionId := AuditDecision(r.value.decisionId, item.prediction.flowId,
                                                        SystemAutoResolve, r.value.verdict, AutoRationale(item.prediction), now)]
      ensures r.Done? && PlainIds(old(engine.instances), old(items)[item.prediction.flowId := item]) ==> Plain()
    {
      ghost var before, more := engine.instances, items[item.prediction.flowId := item];
      var settled := Settle(item, SystemAutoResolve, AutoVerdict(item.prediction, triggerCfg), AutoRationale(item.prediction), now);
      if settled.Failed? { return Failed(settled.error); }
      if PlainIds(before, more) { PlainKept(before, engine.instances, more, items, settled.value.decisionId); }
      r := Done(Resolves(settled.value.verdict, settled.value.decisionId));
    }

    method Claim(flow: string, reviewer: string, now: int) returns (r: Reply<()>)
      requires Valid()
      modifies this`items, this`decisions
      ensures Valid() && decisions == old(decisions) && (old(Plain()) ==> Plain())
      ensures flow !in old(items) ==> r == Failed(FlowNotFound(flow))
      ensures flow in old(items) && !old(items)[flow].state.Pending? ==> r == Failed(NotPending(flow, old(items)[flow].state))
      ensures r.Failed? ==> items == old(items)
      ensures flow in old(items) && old(items)[flow].state.Pending? ==>
        r.Done? && items == old(items)[flow := old(items)[flow].(state := UnderReview(old(items)[flow].state.reason, reviewer, now))]
    {
      if flow !in items { return Failed(FlowNotFound(flow)); }
      var item := items[flow];
      if !item.state.Pending? { return Failed(NotPending(flow, item.state)); }
      var after := item.(state := UnderReview(item.state.reason, reviewer, now));
      OpenKeeps(items, decisions, triggerCfg, slaPolicy, decisionSeq, flow, after);
      SameItem(items, flow);
      EnrolledSame(engine.instances, items, flow, item, after.state);
      Commit(after, decisions);
      return Done(());
    }

    method RecordVerdict(flow: string, reviewer: string, verdict: Verdict, rationale: string, now: int) returns (r: Reply<AuditDecision>)
      requires Valid()
      modifies this`items, this`decisionSeq, this`decisions, engine`instances, engine`links, engine`forward, engine`backward
      ensures Valid() && (old(Plain()) ==> Plain())
      ensures Blank(reviewer) ==> r == Failed(EmptyReviewer(flow))
      ensures !Blank(reviewer) && Blank(rationale) ==> r == Failed(EmptyRationale(flow))
      ensures !Blank(reviewer) && !Blank(rationale) && flow !in old(items) ==> r == Failed(FlowNotFound(flow))
      ensures !Blank(reviewer) && !Blank(rationale) && flow in old(items) && !old(items)[flow].state.Open() ==>
        r == Failed(NotPending(flow, old(items)[flow].state))
      ensures r.Failed? ==> items == old(items) && decisions == old(decisions)
      ensures r.Done? ==>
        && flow in old(items) && r.value == AuditDecision(DecisionId(flow, old(decisionSeq)), flow, Human(reviewer), verdict, rationale, now)
        && items == old(items)[flow := old(items)[flow].(state := Resolved(r.value.decisionId))]
        && decisions == old(decisions)[r.value.decisionId := r.value]
      ensures !Blank(reviewer) && !Blank(rationale) && flow in old(items) && old(items)[flow].state.Open() ==>
        (r.Done? <==> DecisionId(flow, old(decisionSeq)) !in old(engine.instances)) && (old(Plain()) ==> r.Done?)
    {
      if Blank(reviewer) { return Failed(EmptyReviewer(flow)); }
      if Blank(rationale) { return Failed(EmptyRationale(flow)); }
      if flow !in items { return Failed(FlowNotFound(flow)); }
      if !items[flow].state.Open() { return Failed(NotPending(flow, items[flow].state)); }
      r := Decide(flow, Human(reviewer), verdict, rationale, now);
    }

    /** A decision on an item that is in the queue and open */
    method Decide(flow: string, reviewer: Reviewer, verdict: Verdict, rationale: string, now: int) returns (r: Reply<AuditDecision>)
      requires Valid() && flow in items && items[flow].state.Open() && !reviewer.SystemAutoResolve?
      requires Warranted(items[flow].prediction, reviewer, verdict, rationale, triggerCfg, slaPolicy)
      modifies this`items, this`decisionSeq, this`decisions, engine`instances, engine`links, engine`forward, engine`backward
      ensures Valid() && (old(Plain()) ==> Plain() && r.Done?)
      ensures r.Done? <==> DecisionId(flow, old(decisionSeq)) !in old(engine.instances)
      ensures r.Failed? ==> items == old(items) && decisions == old(decisions)
      ensures r.Done? ==> r.value.decisionId !in old(decisions)
      ensures r.Done? ==>
        && r.value == AuditDecision(DecisionId(flow, old(decisionSeq)), flow, reviewer, verdict, rationale, now)
        && items == old(items)[flow := old(items)[flow].(state := Resolved(r.value.decisionId))]
        && decisions == old(decisions)[r.value.decisionId := r.value]
    {
      ghost var before, items0, plain := engine.instances, items, Plain();
      if plain { NextIdFresh(engine.instances, engine.links, engine.objectTypes, engine.linkTypes, items, decisions, decisionSeq, flow); }
      SameItem(items, flow);
      r := Settle(items[flow], reviewer, verdict, rationale, now);
      if plain && r.Done? { PlainKept(before, engine.instances, items0, items, r.value.decisionId); }
    }

    /**
     `sweep_expired_with_sink`, up to the alert sink. A failure part-way keeps the flows done
     so far.
     */
    method SweepExpired(slaSeconds: int, now: int) returns (r: Reply<seq<SlaResolution>>, ghost done: set<string>)
      requires Valid()
      modifies this`items, this`decisionSeq, this`decisions, engine`instances, engine`links, engine`forward, engine`backward
      ensures Valid() && (old(Plain()) ==> Plain() && r.Done?)
      ensures done <= Expired(old(items), now - slaSeconds) && (r.Done? ==> done == Expired(old(items), now - slaSeconds))
      ensures Swept(old(items), items, old(decisions), decisions, done, triggerCfg, slaPolicy, now)
      ensures r.Done? ==> Reported(r.value, items, decisions, done)
      ensures r.Done? ==> SweptRightly(old(items), items, decisions, slaSeconds, triggerCfg, slaPolicy, now)
    {
      var expired := Expired(items, now - slaSeconds);
      r, done := SweepAll(expired, now);
      if r.Done? { SweptMeans(old(items), items, old(decisions), decisions, slaSeconds, triggerCfg, slaPolicy, now); }
    }

    method SweepAll(expired: set<string>, now: int) returns (r: Reply<seq<SlaResolution>>, ghost done: set<string>)
      requires Valid() && forall f :: f in expired ==> f in items && items[f].state.Open()
      modifies this`items, this`decisionSeq, this`decisions, engine`instances, engine`links, engine`forward, engine`backward
      ensures Valid() && (old(Plain()) ==> Plain() && r.Done?)
      ensures done <= expired && (r.Done? ==> done == expired)
      ensures Swept(old(items), items, old(decisions), decisions, done, triggerCfg, slaPolicy, now)
      ensures r.Done? ==> Reported(r.value, items, decisions, done)
    {
      r, done := Done([]), {};
      var left := expired;
      NothingDone(items, decisions, expired, triggerCfg, slaPolicy, now);
      ghost var items0, decisions0, plain := items, decisions, Plain();
      while left != {} && r.Done?
        invariant Valid() && (plain ==> Plain() && r.Done?)
        invariant done <= expired && (r.Done? ==> left == expired - done)
        invariant Swept(items0, items, decisions0, decisions, done, triggerCfg, slaPolicy, now)
        invariant r.Done? ==> Reported(r.value, items, decisions, done)
        decreases |left|
      {
        r, left, done := SweepNext(expired, left, now, r.value, items0, decisions0, done);
      }
      if r.Done? { AllDone(expired, done); }
    }

    method SweepNext(ghost expired: set<string>, left: set<string>, now: int, breaches: seq<SlaResolution>,
                     ghost items0: Items, ghost decisions0: Decisions, ghost done: set<string>)
      returns (r: Reply<seq<SlaResolution>>, rest: set<string>, ghost done': set<string>)
      requires Valid() && done <= expired && left == expired - done && left != {}
      requires forall f :: f in expired ==> f in items0 && items0[f].state.Open()
      requires Swept(items0, items, decisions0, decisions, done, triggerCfg, slaPolicy, now) && Reported(breaches, items, decisions, done)
      modifies this`items, this`decisionSeq, this`decisions, engine`instances, engine`links, engine`forward, engine`backward
      ensures Valid() && (old(Plain()) ==> Plain() && r.Done?)
      ensures done' <= expired && (r.Done? ==> rest == expired - done') && |rest| < |left|
      ensures Swept(items0, items, decisions0, decisions, done', triggerCfg, slaPolicy, now)
      ensures r.Done? ==> Reported(r.value, items, decisions, done')
    {
      var flow :| flow in left;
      StillOpen(items0, items, decisions0, decisions, done, triggerCfg, slaPolicy, now, flow);
      TakeOne(expired, left, done, flow);
      r := SweepOne(flow, now, breaches, items0, decisions0, done);
      rest := left - {flow};
      done' := if r.Done? then done + {flow} else done;
    }

    method SweepOne(flow: string, now: int, breaches: seq<SlaResolution>, ghost items0: Items, ghost decisions0: Decisions, ghost done: set<string>)
      returns (r: Reply<seq<SlaResolution>>)
      requires Valid() && flow in items && items[flow].state.Open() && flow !in done
      requires Swept(items0, items, decisions0, decisions, done, triggerCfg, slaPolicy, now) && Reported(breaches, items, decisions, done)
      modifies this`items, this`decisionSeq, this`decisions, engine`instances, engine`links, engine`forward, engine`backward
      ensures Valid() && (old(Plain()) ==> Plain() && r.Done?)
      ensures Swept(items0, items, decisions0, decisions, if r.Done? then done + {flow} else done, triggerCfg, slaPolicy, now)
      ensures r.Done? ==> Reported(r.value, items, decisions, done + {flow})
    {
      ghost var items1, decisions1 := items, decisions;
      var p := items[flow].prediction;
      var settled := Decide(flow, SystemSlaTimeout, TimeoutVerdict(p, triggerCfg, slaPolicy), TimeoutRationale(slaPolicy), now);
      if settled.Failed? { return Failed(settled.error); }
      SweptMore(items0, items1, decisions0, decisions1, done, triggerCfg, slaPolicy, now, flow, settled.value);
      ReportedMore(breaches, items1, decisions1, done, flow, settled.value);
      return Done(breaches + [SlaResolution(p, settled.value)]);
    }

    /**
     `containment_decision`: walks the audit graph only, and answers what the item's state
     says. It never finds conflicting decisions.
     */
    method Check(flow: string) returns (c: ContainmentDecision)
      requires Valid()
      ensures c == if Approves(items, decisions, flow) then Approved(items[flow].state.decisionId) else NotApproved
    {
      var found := DecisionsForFlow(engine, flow, decisions);
      c := Weigh(found);
      OnlyDecision(items, decisions, flow, found);
    }

    /** `execute_if_approved`: the action runs exactly when the graph approves, and its failure is reported as such */
    method ExecuteIfApproved(flow: string, action: string -> bool) returns (r: ContainmentOutcome, executed: bool)
      requires Valid()
      ensures executed == Approves(items, decisions, flow)
      ensures r == if !executed then Refused(NotApprovedError(flow))
                   else if action(flow) then Contained(items[flow].state.decisionId)
                   else Refused(ActionFailed)
    {
      var c := Check(flow);
      match c
      case Approved(id) => return if action(flow) then Contained(id) else Refused(ActionFailed), true;
      case NotApproved => return Refused(NotApprovedError(flow)), false;
      case Conflicting(ids) => return Refused(ConflictingError(flow, ids)), false;
    }
  }

  lemma SameItem(items: Items, f: string)
    requires f in items
    ensures items[f := items[f]] == items
  {
  }

  lemma NotPlain(instances: map<string, Instance>, items: Items, id: string)
    requires Enrolled(instances, items) && id in items && IsDecisionId(id)
    ensures id in instances && !PlainIds(instances, items)
  {
  }

  /** A prediction flagged as novel is always queued. */
  method IngestNovel(q: Queue, id: string, now: int) returns (r: Reply<IngestOutcome>)
    requires q.Valid() && id !in q.items && id !in q.engine.instances
    modifies q`items, q`decisionSeq, q`decisions, q.engine`instances, q.engine`links, q.engine`forward, q.engine`backward
    ensures q.Valid() && r.Done? && q.decisionSeq == old(q.decisionSeq) && q.items.Keys == old(q.items).Keys + {id}
  {
    r := q.Ingest(FlowPrediction(id, "", 1.0, None, None, true, now), now);
  }

  /**
   A flow id of the form of a decision id can take the id another flow needs. On any queue:
   ingest it first, and the prediction it was aimed at is refused with an internal error.
   */
  method DecisionShapedIdCollides(q: Queue, p: FlowPrediction, now: int) returns (first: Reply<IngestOutcome>, second: Reply<IngestOutcome>)
    requires q.Valid() && p.flowId !in q.items && Evaluate(p, q.triggerCfg).None?
    requires var id := DecisionId(p.flowId, q.decisionSeq); id !in q.items && id !in q.engine.instances
    modifies q`items, q`decisionSeq, q`decisions, q.engine`instances, q.engine`links, q.engine`forward, q.engine`backward
    ensures first.Done? && second.Failed? && second.error.OntologyError? && p.flowId !in q.items
  {
    var id := DecisionId(p.flowId, q.decisionSeq);
    DecisionIdLonger(p.flowId, q.decisionSeq);
    assert IsDecisionId(id);
    first := IngestNovel(q, id, now);
    NotPlain(q.engine.instances, q.items, id);
    second := IngestBlocked(q, p, now);
  }

  /** A taken decision id makes the automatic resolution fail. */
  method IngestBlocked(q: Queue, p: FlowPrediction, now: int) returns (r: Reply<IngestOutcome>)
    requires q.Valid() && p.flowId !in q.items && Evaluate(p, q.triggerCfg).None? && DecisionId(p.flowId, q.decisionSeq) in q.engine.instances
    modifies q`items, q`decisionSeq, q`decisions, q.engine`instances, q.engine`links, q.engine`forward, q.engine`backward
    ensures r.Failed? && r.error.OntologyError? && q.items == old(q.items)
  {
    r := q.Ingest(p, now);
  }
}
