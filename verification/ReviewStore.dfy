/** Saving a queue and rebuilding it by replay. */
module ReviewStore {
  import opened Ontology
  import opened ReviewTypes
  import opened AuditGraph
  import opened ReviewQueue

  datatype PersistedState = PersistedState(formatVersion: nat, items: Items, decisions: Decisions, nextDecisionSeq: nat,
                                           triggerCfg: TriggerConfig, slaPolicy: SlaPolicy)

  /** What `save` guarantees about the file: it was taken from a queue whose items and graph agree. */
  ghost predicate Replayable(s: PersistedState) {
    && (forall f :: f in s.items ==> s.items[f].prediction.flowId == f)
    && (forall d :: d in s.decisions ==> d !in s.items && s.decisions[d].decisionId == d && s.decisions[d].flowId in s.items)
    && Agree(s.items, s.decisions, s.triggerCfg, s.slaPolicy, s.nextDecisionSeq)
  }

  method Save(q: Queue) returns (s: PersistedState)
    requires q.Valid()
    ensures s == PersistedState(1, q.items, q.decisions, q.decisionSeq, q.triggerCfg, q.slaPolicy)
    ensures Replayable(s)
  {
    var decisions := AllDecisions(q.engine, q.decisions);
    TypesDiffer();
    s := PersistedState(1, q.items, decisions, q.decisionSeq, q.triggerCfg, q.slaPolicy);
  }

  function Without(items: Items, left: set<string>): Items { map f | f in items && f !in left :: items[f] }
  function DecisionsWithout(decisions: Decisions, left: set<string>): Decisions { map d | d in decisions && d !in left :: decisions[d] }

  /** Replays the predictions, in whatever order; the time order of the source is one of them. */
  method ReplayPredictions(engine: Engine, items: Items)
    requires engine.Valid() && HasSchema(engine.objectTypes, engine.linkTypes) && Records(engine.instances, engine.links, map[])
    requires engine.instances == map[] && forall f :: f in items ==> items[f].prediction.flowId == f
    modifies engine`instances
    ensures engine.Valid() && Records(engine.instances, engine.links, map[]) && Enrolled(engine.instances, items)
    ensures engine.instances.Keys == items.Keys
  {
    var left := items.Keys;
    NoneLeft(items);
    while left != {}
      invariant left <= items.Keys && engine.instances.Keys == Without(items, left).Keys
      invariant engine.Valid() && Records(engine.instances, engine.links, map[])
      invariant Enrolled(engine.instances, Without(items, left))
      decreases |left|
    {
      var f :| f in left;
      ghost var before := engine.instances;
      var r := RecordPrediction(engine, items[f].prediction, map[]);
      assert r.Ok?;
      ReplayedOne(before, engine.instances, items, left, f);
      left := left - {f};
    }
    AllLeft(items);
  }

  lemma NoneLeft(items: Items)
    ensures Without(items, items.Keys) == map[] && Enrolled(map[], map[])
  {
  }

  lemma AllLeft(items: Items)
    ensures Without(items, {}) == items
  {
  }

  lemma ReplayedOne(before: map<string, Instance>, after: map<string, Instance>, items: Items, left: set<string>, f: string)
    requires f in left && left <= items.Keys && items[f].prediction.flowId == f && Enrolled(before, Without(items, left))
    requires before.Keys == Without(items, left).Keys && after == before[f := PredictionInstance(items[f].prediction)]
    ensures Enrolled(after, Without(items, left - {f})) && after.Keys == Without(items, left - {f}).Keys
    ensures |left - {f}| < |left|
  {
    assert Without(items, left - {f}) == Without(items, left)[f := items[f]];
    EnrolledKept(before, after, Without(items, left), f, FlowPredictionType);
    EnrolledMore(after, Without(items, left), items[f]);
  }

  /** Replays the decisions; none can collide with a prediction or with another decision. */
  method ReplayDecisions(engine: Engine, items: Items, decisions: Decisions)
    requires engine.Valid() && HasSchema(engine.objectTypes, engine.linkTypes) && Records(engine.instances, engine.links, map[])
    requires Enrolled(engine.instances, items) && engine.instances.Keys == items.Keys
    requires forall d :: d in decisions ==> d !in items && decisions[d].decisionId == d && decisions[d].flowId in items
    modifies engine`instances, engine`links, engine`forward, engine`backward
    ensures engine.Valid() && Records(engine.instances, engine.links, decisions) && Enrolled(engine.instances, items)
    ensures engine.instances.Keys == items.Keys + decisions.Keys
  {
    var left := decisions.Keys;
    NoDecisionsLeft(decisions, items.Keys);
    while left != {}
      invariant left <= decisions.Keys && engine.instances.Keys == items.Keys + DecisionsWithout(decisions, left).Keys
      invariant engine.Valid() && Records(engine.instances, engine.links, DecisionsWithout(decisions, left))
      invariant Enrolled(engine.instances, items)
      decreases |left|
    {
      var d :| d in left;
      ReplayDecision(engine, items, decisions, left, d);
      left := left - {d};
    }
    AllDecisionsLeft(decisions);
  }

  method ReplayDecision(engine: Engine, ghost items: Items, decisions: Decisions, ghost left: set<string>, d: string)
    requires d in left && left <= decisions.Keys && d !in items && decisions[d].decisionId == d && decisions[d].flowId in items
    requires engine.Valid() && HasSchema(engine.objectTypes, engine.linkTypes) && Enrolled(engine.instances, items)
    requires Records(engine.instances, engine.links, DecisionsWithout(decisions, left))
    requires engine.instances.Keys == items.Keys + DecisionsWithout(decisions, left).Keys
    modifies engine`instances, engine`links, engine`forward, engine`backward
    ensures engine.Valid() && Enrolled(engine.instances, items)
    ensures Records(engine.instances, engine.links, DecisionsWithout(decisions, left - {d}))
    ensures engine.instances.Keys == items.Keys + DecisionsWithout(decisions, left - {d}).Keys
    ensures |left - {d}| < |left|
  {
    ghost var before := engine.instances;
    var r := RecordDecision(engine, decisions[d], DecisionsWithout(decisions, left));
    assert r.Ok?;
    EnrolledKept(before, engine.instances, items, d, AuditDecisionType);
    DecidedOne(before, engine.instances, items.Keys, decisions, left, d);
  }

  lemma NoDecisionsLeft(decisions: Decisions, keys: set<string>)
    ensures DecisionsWithout(decisions, decisions.Keys) == map[] && keys + DecisionsWithout(decisions, decisions.Keys).Keys == keys
  {
  }

  lemma AllDecisionsLeft(decisions: Decisions)
    ensures DecisionsWithout(decisions, {}) == decisions
  {
  }

  lemma DecidedOne(before: map<string, Instance>, after: map<string, Instance>, keys: set<string>, decisions: Decisions, left: set<string>, d: string)
    requires d in left && left <= decisions.Keys && Adds(before, after, d, AuditDecisionType)
    requires before.Keys == keys + DecisionsWithout(decisions, left).Keys
    ensures DecisionsWithout(decisions, left - {d}) == DecisionsWithout(decisions, left)[d := decisions[d]]
    ensures after.Keys == keys + DecisionsWithout(decisions, left - {d}).Keys
    ensures |left - {d}| < |left|
  {
  }

  /** `load_or_new` on an existing file, through `rehydrate` */
  method Rehydrate(s: PersistedState) returns (q: Queue)
    requires Replayable(s)
    ensures fresh(q) && fresh(q.engine) && q.Valid()
    ensures q.items == s.items && q.decisions == s.decisions && q.decisionSeq == s.nextDecisionSeq
    ensures q.triggerCfg == s.triggerCfg && q.slaPolicy == s.slaPolicy
    ensures q.engine.instances.Keys == s.items.Keys + s.decisions.Keys
  {
    q := new Queue(s.triggerCfg, s.slaPolicy);
    ReplayPredictions(q.engine, s.items);
    ReplayDecisions(q.engine, s.items, s.decisions);
    q.Restore(s.items, s.decisions, s.nextDecisionSeq);
  }

  // ---------------------------------------------------------------------
  // The round trip
  // ---------------------------------------------------------------------

  /**
   The items and decisions determine the links, and the instances too when neither graph
   holds anything else.
   */
  lemma GraphDetermined(instances: map<string, Instance>, links: set<Link>, instances': map<string, Instance>, links': set<Link>,
                        items: Items, decisions: Decisions)
    requires Records(instances, links, decisions) && Enrolled(instances, items)
    requires Records(instances', links', decisions) && Enrolled(instances', items)
    ensures links == links'
    ensures instances.Keys == instances'.Keys == items.Keys + decisions.Keys ==> instances == instances'
  {
    if instances.Keys == instances'.Keys == items.Keys + decisions.Keys {
      forall id | id in instances ensures instances[id] == instances'[id] {
        if id in items {
          assert instances[id] == PredictionInstance(items[id].prediction);
        } else {
          assert instances[id] == DecisionInstance(decisions[id]);
        }
      }
    }
  }

  /** With plain ids the graph holds the items' predictions and the decisions, nothing else. */
  lemma PlainHoldsNothingElse(instances: map<string, Instance>, links: set<Link>, objectTypes: map<string, ObjectType>,
                              linkTypes: map<string, LinkType>, items: Items, decisions: Decisions)
    requires Fitting(objectTypes, instances) && HasSchema(objectTypes, linkTypes)
    requires Records(instances, links, decisions) && Enrolled(instances, items) && PlainIds(instances, items)
    ensures instances.Keys == items.Keys + decisions.Keys
  {
  }

  /**
   Saving and loading gives back the items, decisions, links and numbering, so every query
   is answered the same. With plain ids the whole state is the same, and so is every later
   operation; otherwise a prediction without an item is forgotten.
   */
  method SaveThenLoad(q: Queue) returns (q': Queue)
    requires q.Valid()
    ensures fresh(q') && q'.Valid()
    ensures q'.items == q.items && q'.decisions == q.decisions && q'.decisionSeq == q.decisionSeq
    ensures q'.triggerCfg == q.triggerCfg && q'.slaPolicy == q.slaPolicy && q'.engine.links == q.engine.links
    ensures q.Plain() ==> q'.engine.instances == q.engine.instances
  {
    var s := Save(q);
    q' := Rehydrate(s);
    GraphDetermined(q.engine.instances, q.engine.links, q'.engine.instances, q'.engine.links, q.items, q.decisions);
    if q.Plain() {
      PlainHoldsNothingElse(q.engine.instances, q.engine.links, q.engine.objectTypes, q.engine.linkTypes, q.items, q.decisions);
    }
  }
}
