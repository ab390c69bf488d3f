/** Predictions and decisions as instances of the ontology engine, and the query that authorises containment. */
module AuditGraph {
  import opened Wrappers
  import opened Ontology
  import opened ReviewTypes

  const FlowPredictionType := "FlowPrediction"
  const AuditDecisionType := "AuditDecision"
  const ReviewOf := "ReviewOf"

  // ---------------------------------------------------------------------
  // Schema
  // ---------------------------------------------------------------------

  function FlowSchema(): ObjectType {
    ObjectType(FlowPredictionType, "flow_id",
               map["flow_id" := StringType, "predicted_label" := StringType, "confidence_millis" := IntegerType, "observed_at" := IntegerType])
  }

  function DecisionSchema(): ObjectType {
    ObjectType(AuditDecisionType, "decision_id",
               map["decision_id" := StringType, "flow_id" := StringType, "reviewer" := StringType, "verdict" := StringType,
                   "rationale" := StringType, "decided_at" := IntegerType])
  }

  function ReviewLinkType(): LinkType { LinkType(ReviewOf, AuditDecisionType, FlowPredictionType) }

  function Schema(name: string): ObjectType { if name == FlowPredictionType then FlowSchema() else DecisionSchema() }

  ghost predicate HasSchema(objectTypes: map<string, ObjectType>, linkTypes: map<string, LinkType>) {
    && objectTypes.Keys == {FlowPredictionType, AuditDecisionType}
    && (forall n {:trigger Schema(n)} :: n in objectTypes ==> objectTypes[n] == Schema(n))
    && ReviewOf in linkTypes && linkTypes[ReviewOf].sourceType == AuditDecisionType && linkTypes[ReviewOf].targetType == FlowPredictionType
  }

  /** The registry with t added, unless its name is taken */
  function WithType(types: map<string, ObjectType>, t: ObjectType): map<string, ObjectType> {
    if t.name in types then types else types[t.name := t]
  }

  /** `schema::register`: never fails, and leaves what is already registered as it is */
  method Register(engine: Engine) returns (r: Result<()>)
    requires engine.Valid()
    modifies engine`objectTypes, engine`linkTypes
    ensures engine.Valid() && r.Ok?
    ensures engine.objectTypes == WithType(WithType(old(engine.objectTypes), FlowSchema()), DecisionSchema())
    ensures engine.linkTypes == if ReviewOf in old(engine.linkTypes) then old(engine.linkTypes) else old(engine.linkTypes)[ReviewOf := ReviewLinkType()]
  {
    r := engine.RegisterObjectType(FlowSchema());
    r := IgnoreAlreadyRegistered(r);
    if r.Err? { return; }
    r := engine.RegisterObjectType(DecisionSchema());
    r := IgnoreAlreadyRegistered(r);
    if r.Err? { return; }
    r := engine.RegisterLinkType(ReviewLinkType());
    r := IgnoreAlreadyRegistered(r);
  }

  method IgnoreAlreadyRegistered(given: Result<()>) returns (r: Result<()>)
    ensures r.Ok? <==> given.Ok? || given.error.ObjectTypeAlreadyRegistered? || given.error.LinkTypeAlreadyRegistered?
    ensures r.Err? ==> r == given
  {
    if given.Err? && (given.error.ObjectTypeAlreadyRegistered? || given.error.LinkTypeAlreadyRegistered?) { return Ok(()); }
    return given;
  }

  /** On an engine without types the schema is exactly ours. */
  lemma RegisteredSchema(objectTypes: map<string, ObjectType>, linkTypes: map<string, LinkType>)
    requires objectTypes == WithType(WithType(map[], FlowSchema()), DecisionSchema()) && linkTypes == map[ReviewOf := ReviewLinkType()]
    ensures HasSchema(objectTypes, linkTypes)
  {
    TypesDiffer();
  }

  /** Registering twice is registering once. */
  lemma RegisterTwice(types: map<string, ObjectType>)
    ensures var once := WithType(WithType(types, FlowSchema()), DecisionSchema()); WithType(WithType(once, FlowSchema()), DecisionSchema()) == once
  {
  }

  lemma TypesDiffer()
    ensures FlowPredictionType != AuditDecisionType
  {
    assert |FlowPredictionType| == 14 && |AuditDecisionType| == 13;
  }

  // ---------------------------------------------------------------------
  // Instances
  // ---------------------------------------------------------------------

  function PredictionProperties(p: FlowPrediction): Properties {
    map["flow_id" := StringValue(p.flowId), "predicted_label" := StringValue(p.predicted),
        "confidence_millis" := IntegerValue(ToMillis(p.confidence)), "observed_at" := IntegerValue(p.observedAt)]
  }

  function PredictionInstance(p: FlowPrediction): Instance { Instance(p.flowId, FlowPredictionType, PredictionProperties(p)) }

  function DecisionProperties(d: AuditDecision): Properties {
    map["decision_id" := StringValue(d.decisionId), "flow_id" := StringValue(d.flowId),
        "reviewer" := StringValue(ReviewerText(d.reviewer)), "verdict" := StringValue(VerdictText(d.verdict)),
        "rationale" := StringValue(d.rationale), "decided_at" := IntegerValue(d.decidedAt)]
  }

  function DecisionInstance(d: AuditDecision): Instance { Instance(d.decisionId, AuditDecisionType, DecisionProperties(d)) }

  lemma PredictionFits(p: FlowPrediction)
    ensures Fits(FlowSchema(), PredictionProperties(p))
  {
    NamesDiffer();
  }

  lemma DecisionFits(d: AuditDecision)
    ensures Fits(DecisionSchema(), DecisionProperties(d))
  {
    NamesDiffer();
  }

  lemma NamesDiffer()
    ensures |"flow_id"| == |"verdict"| == 7 && |"reviewer"| == 8 && |"rationale"| == 9 && |"decided_at"| == 10
    ensures |"decision_id"| == |"observed_at"| == 11 && |"predicted_label"| == 15 && |"confidence_millis"| == 17
    ensures "flow_id" != "verdict" && "decision_id" != "observed_at"
  {
    assert "flow_id"[0] == 'f' && "verdict"[0] == 'v';
    assert "decision_id"[0] == 'd' && "observed_at"[0] == 'o';
  }

  function GetString(i: Instance, k: string): Option<string> {
    if k in i.properties && i.properties[k].StringValue? then Some(i.properties[k].s) else None
  }

  function GetInteger(i: Instance, k: string): Option<int> {
    if k in i.properties && i.properties[k].IntegerValue? then Some(i.properties[k].i) else None
  }

  /** `decision_from_instance` */
  function DecisionFromInstance(i: Instance): Option<AuditDecision> {
    var id, flow, reviewer := GetString(i, "decision_id"), GetString(i, "flow_id"), GetString(i, "reviewer");
    var verdict, rationale, at := GetString(i, "verdict"), GetString(i, "rationale"), GetInteger(i, "decided_at");
    if reviewer.None? || id.None? || flow.None? || verdict.None? || ParseVerdict(verdict.value).None? || rationale.None? || at.None? then None
    else Some(AuditDecision(id.value, flow.value, ParseReviewer(reviewer.value), ParseVerdict(verdict.value).value, rationale.value, at.value))
  }

  /** What the graph keeps of a prediction: everything but the runner-up and the novelty flag, the confidence to the nearest thousandth */
  lemma PredictionReadsBack(p: FlowPrediction)
    ensures var i := PredictionInstance(p);
      && i.id == p.flowId && GetString(i, "flow_id") == Some(p.flowId) && GetString(i, "predicted_label") == Some(p.predicted)
      && GetInteger(i, "observed_at") == Some(p.observedAt) && GetInteger(i, "confidence_millis").Some?
    ensures 0.0 <= p.confidence <= 1.0 ==>
      var m := GetInteger(PredictionInstance(p), "confidence_millis"); m.Some? && m.value as real - 0.5 <= 1000.0 * p.confidence < m.value as real + 0.5
  {
    NamesDiffer();
  }

  lemma FieldsReadBack(d: AuditDecision)
    ensures var i := DecisionInstance(d);
      && GetString(i, "decision_id") == Some(d.decisionId) && GetString(i, "flow_id") == Some(d.flowId)
      && GetString(i, "reviewer") == Some(ReviewerText(d.reviewer)) && GetString(i, "verdict") == Some(VerdictText(d.verdict))
      && GetString(i, "rationale") == Some(d.rationale) && GetInteger(i, "decided_at") == Some(d.decidedAt)
  {
    NamesDiffer();
  }

  /** Reading a decision back from the graph gives the decision that was written. */
  lemma DecisionRoundTrip(d: AuditDecision)
    ensures DecisionFromInstance(DecisionInstance(d)) == Some(d)
  {
    FieldsReadBack(d);
    VerdictRoundTrip(d.verdict);
    ReviewerRoundTrip(d.reviewer);
  }

  // ---------------------------------------------------------------------
  // Writing and querying
  // ---------------------------------------------------------------------

  ghost predicate Written(instances: map<string, Instance>, decisions: map<string, AuditDecision>) {
    forall d {:trigger DecisionInstance(decisions[d])} :: d in decisions ==> d in instances && instances[d] == DecisionInstance(decisions[d])
  }

  /** The graph records exactly these decisions, each linked to its flow. */
  ghost predicate Records(instances: map<string, Instance>, links: set<Link>, decisions: map<string, AuditDecision>) {
    && Written(instances, decisions)
    && (forall d :: d in decisions ==> d in instances && instances[d].objectType == AuditDecisionType && decisions[d].decisionId == d)
    && (forall id :: id in instances && instances[id].objectType == AuditDecisionType ==> id in decisions)
    && (forall l :: l in links <==> l.linkType == ReviewOf && l.source in decisions && decisions[l.source].flowId == l.target)
  }

  /** One new instance of the given type and nothing else */
  ghost predicate Adds(before: map<string, Instance>, after: map<string, Instance>, id: string, objectType: string) {
    id !in before && id in after && after[id].objectType == objectType && after == before[id := after[id]]
  }

  /** `record_prediction` */
  method RecordPrediction(engine: Engine, p: FlowPrediction, ghost decisions: map<string, AuditDecision>) returns (r: Result<()>)
    requires engine.Valid() && HasSchema(engine.objectTypes, engine.linkTypes) && Records(engine.instances, engine.links, decisions)
    modifies engine`instances
    ensures engine.Valid() && Records(engine.instances, engine.links, decisions)
    ensures r.Ok? <==> p.flowId !in old(engine.instances)
    ensures r.Err? ==> r.error == DuplicateInstance(p.flowId)
    ensures engine.instances == if r.Ok? then old(engine.instances)[p.flowId := PredictionInstance(p)] else old(engine.instances)
  {
    PredictionFits(p);
    assert Schema(FlowPredictionType) == FlowSchema();
    r := engine.CreateObjectInstance(PredictionInstance(p));
    if r.Ok? { RecordsKept(old(engine.instances), engine.links, decisions, PredictionInstance(p)); }
  }

  lemma RecordsKept(instances: map<string, Instance>, links: set<Link>, decisions: map<string, AuditDecision>, i: Instance)
    requires Records(instances, links, decisions) && i.id !in instances && i.objectType == FlowPredictionType
    ensures Records(instances[i.id := i], links, decisions)
  {
    TypesDiffer();
  }

  lemma RecordsMore(instances: map<string, Instance>, links: set<Link>, decisions: map<string, AuditDecision>, d: AuditDecision)
    requires Records(instances, links, decisions) && d.decisionId !in instances
    ensures Records(instances[d.decisionId := DecisionInstance(d)], links + {Link(ReviewOf, d.decisionId, d.flowId)}, decisions[d.decisionId := d])
    ensures Link(ReviewOf, d.decisionId, d.flowId) !in links
  {
  }

  method CreateDecision(engine: Engine, d: AuditDecision) returns (r: Result<()>)
    requires engine.Valid() && HasSchema(engine.objectTypes, engine.linkTypes)
    modifies engine`instances
    ensures engine.Valid() && (r.Ok? <==> d.decisionId !in old(engine.instances))
    ensures r.Err? ==> r.error == DuplicateInstance(d.decisionId) && engine.instances == old(engine.instances)
    ensures r.Ok? ==> engine.instances == old(engine.instances)[d.decisionId := DecisionInstance(d)]
  {
    DecisionFits(d);
    TypesDiffer();
    assert Schema(AuditDecisionType) == DecisionSchema();
    r := engine.CreateObjectInstance(DecisionInstance(d));
  }

  /** `record_decision`: the instance and its link, or nothing at all when the id is taken */
  method RecordDecision(engine: Engine, d: AuditDecision, ghost decisions: map<string, AuditDecision>) returns (r: Result<()>)
    requires engine.Valid() && HasSchema(engine.objectTypes, engine.linkTypes) && Records(engine.instances, engine.links, decisions)
    requires d.flowId in engine.instances && engine.instances[d.flowId].objectType == FlowPredictionType
    modifies engine`instances, engine`links, engine`forward, engine`backward
    ensures engine.Valid()
    ensures r.Ok? <==> d.decisionId !in old(engine.instances)
    ensures r.Err? ==> r.error == DuplicateInstance(d.decisionId)
    ensures r.Err? ==> engine.instances == old(engine.instances) && engine.links == old(engine.links)
    ensures r.Ok? ==> Adds(old(engine.instances), engine.instances, d.decisionId, AuditDecisionType)
    ensures Records(engine.instances, engine.links, if r.Ok? then decisions[d.decisionId := d] else decisions)
  {
    r := CreateDecision(engine, d);
    if r.Ok? {
      RecordsMore(old(engine.instances), engine.links, decisions, d);
      r := LinkDecision(engine, Link(ReviewOf, d.decisionId, d.flowId));
    }
  }

  method LinkDecision(engine: Engine, l: Link) returns (r: Result<()>)
    requires engine.Valid() && HasSchema(engine.objectTypes, engine.linkTypes) && l.linkType == ReviewOf && l !in engine.links
    requires l.source in engine.instances && engine.instances[l.source].objectType == AuditDecisionType
    requires l.target in engine.instances && engine.instances[l.target].objectType == FlowPredictionType
    modifies engine`links, engine`forward, engine`backward
    ensures engine.Valid() && r.Ok? && engine.links == old(engine.links) + {l}
  {
    r := engine.CreateLink(l);
  }

  ghost predicate DecidesFlow(decisions: map<string, AuditDecision>, flow: string, d: AuditDecision) {
    d.decisionId in decisions && decisions[d.decisionId] == d && d.flowId == flow
  }

  /** Exactly the recorded decisions on the flow, each once */
  ghost predicate ListsDecisions(found: seq<AuditDecision>, decisions: map<string, AuditDecision>, flow: string) {
    && (forall k :: 0 <= k < |found| ==> DecidesFlow(decisions, flow, found[k]))
    && (forall d :: DecidesFlow(decisions, flow, d) ==> exists k :: 0 <= k < |found| && found[k] == d)
    && (forall j, k :: 0 <= j < k < |found| ==> found[j].decisionId != found[k].decisionId)
  }

  method Decode(i: Instance, ghost d: AuditDecision) returns (decoded: Option<AuditDecision>)
    requires i == DecisionInstance(d)
    ensures decoded == Some(d)
  {
    DecisionRoundTrip(d);
    decoded := DecisionFromInstance(i);
  }

  /** `decisions_for_flow` */
  method DecisionsForFlow(engine: Engine, flow: string, ghost decisions: map<string, AuditDecision>) returns (found: seq<AuditDecision>)
    requires engine.Valid() && Records(engine.instances, engine.links, decisions)
    ensures ListsDecisions(found, decisions, flow)
  {
    var nodes := engine.Traverse(flow, ReviewOf, Incoming);
    forall k | 0 <= k < |nodes| ensures nodes[k].id in decisions && decisions[nodes[k].id].flowId == flow {
      assert Linked(engine.links, flow, ReviewOf, Incoming, nodes[k].id);
    }
    found := [];
    while |found| < |nodes|
      invariant |found| <= |nodes|
      invariant forall k :: 0 <= k < |found| ==> nodes[k].id in decisions && found[k] == decisions[nodes[k].id]
    {
      var i := nodes[|found|];
      assert i in nodes;
      var decoded := Decode(i, decisions[i.id]);
      if decoded.Some? { found := found + [decoded.value]; }
    }
    forall d | DecidesFlow(decisions, flow, d) ensures exists k :: 0 <= k < |found| && found[k] == d {
      assert Linked(engine.links, flow, ReviewOf, Incoming, d.decisionId);
      var k :| 0 <= k < |nodes| && nodes[k].id == d.decisionId;
      assert found[k] == d;
    }
  }

  /** `all_decisions`, keyed by id as the snapshot keeps them */
  method AllDecisions(engine: Engine, ghost decisions: map<string, AuditDecision>) returns (all: map<string, AuditDecision>)
    requires engine.Valid() && Records(engine.instances, engine.links, decisions)
    ensures all == decisions
  {
    all := map[];
    var left := set id | id in engine.instances && engine.instances[id].objectType == AuditDecisionType;
    assert forall id :: id in left <==> id in decisions;
    while left != {}
      invariant left <= decisions.Keys && all.Keys == decisions.Keys - left
      invariant forall id :: id in all ==> all[id] == decisions[id]
      decreases |left|
    {
      var id :| id in left;
      var decoded := Decode(engine.instances[id], decisions[id]);
      if decoded.Some? { all := all[decoded.value.decisionId := decoded.value]; }
      left := left - {id};
    }
  }
}
