/** From a correlation verdict to the review gate, with the arithmetic that decides whether a human is asked. */
module CorrelationReview {
  import opened Wrappers
  import C = Correlation
  import opened ReviewTypes
  import RQ = ReviewQueue

  /** `verdict_to_flow_prediction` */
  function ToPrediction(v: C.Verdict, flowId: string, now: int): FlowPrediction {
    FlowPrediction(flowId, if v.reason == C.MultiLaneCorroboration then "MultiLaneCorroboration" else "SingleLaneCritical",
                   v.confidence, None, None, v.reason == C.SingleLaneCritical, now)
  }

  ghost predicate AllSubmitted(h: seq<C.Event>) { forall i :: 0 <= i < |h| ==> C.Submitted(h[i]) }

  /** What each lane can submit, without reference to its sender */
  lemma SubmittedConfidence(e: C.Event)
    requires C.Submitted(e)
    ensures 0.0 <= e.confidence <= 1.0
    ensures e.lane == C.Xdp ==> (e.severity == C.Critical && e.confidence == 1.0) || (e.severity == C.High && e.confidence == 0.6)
    ensures e.lane == C.ClamAv ==> e.confidence == 1.0 && (e.severity == C.High || e.severity == C.Medium)
    ensures e.lane == C.Spectral ==>
      && (e.severity == C.Critical <==> e.confidence >= 0.9) && (e.severity == C.High <==> 0.7 <= e.confidence < 0.9)
      && (e.severity == C.Medium <==> 0.4 <= e.confidence < 0.7)
  {
  }

  /** Pending XDP evidence drags any single corroboration down to a mean of at most 0.8. */
  lemma MeanAtMost(h: seq<C.Event>)
    requires |h| >= 2 && h[|h| - 1].confidence <= 1.0 && forall i :: 0 <= i < |h| - 1 ==> 0.0 <= h[i].confidence <= 0.6
    ensures C.Mean(h) <= 0.8
  {
    var k := |h| as real;
    C.SumBetween(h[..|h| - 1], 0.0, 0.6);
    assert C.Sum(h) <= 0.8 * k;
    Quotient(C.Sum(h), k);
  }

  lemma Quotient(sum: real, k: real)
    requires k > 0.0 && sum <= 0.8 * k
    ensures sum / k <= 0.8
  {
    var q := sum / k;
    assert q * k == sum;
    assert (0.8 - q) * k >= 0.0;
  }

  /** Everything before the deciding event of an XDP-opened history is a pending XDP block. */
  lemma EarlierIsPendingXdp(h: seq<C.Event>, i: nat)
    requires |h| > 0 && AllSubmitted(h) && h[0].lane == C.Xdp && C.Due(h, |h| - 1) && i < |h| - 1
    ensures h[i].lane == C.Xdp && h[i].confidence == 0.6
  {
    var earlier := h[..|h| - 1];
    assert earlier[0] == h[0] && earlier[i] == h[i];
    SubmittedConfidence(h[i]);
  }

  lemma RetainedTail(h: seq<C.Event>, cap: nat)
    requires cap >= 2 && |h| >= 2
    ensures var seen := C.Retained(h, cap); |seen| >= 2 && forall i :: 0 <= i < |seen| ==> seen[i] == h[|h| - |seen| + i]
  {
  }

  lemma CorroboratedMean(h: seq<C.Event>, cap: nat)
    requires cap >= 2 && |h| > 0 && AllSubmitted(h) && h[0].lane == C.Xdp && C.Due(h, |h| - 1) && C.TwoLanes(h)
    ensures C.Mean(C.Retained(h, cap)) <= 0.8
  {
    RetainedTail(h, cap);
    var seen := C.Retained(h, cap);
    forall i | 0 <= i < |seen| - 1 ensures 0.0 <= seen[i].confidence <= 0.6 { EarlierIsPendingXdp(h, |h| - |seen| + i); }
    SubmittedConfidence(h[|h| - 1]);
    MeanAtMost(seen);
  }

  /**
   The gate never resolves a host whose record the XDP lane opened by itself: two-lane
   corroboration stays under the confidence floor and a lone Critical is flagged as novel,
   so the flow waits for a human or for the policy on timeouts.
   */
  lemma XdpOpenedIsQueued(attempt: Option<C.Verdict>, host: C.Host, h: seq<C.Event>, cap: nat, flowId: string, now: int)
    requires cap >= 2 && |h| > 0 && AllSubmitted(h) && h[0].lane == C.Xdp
    requires attempt.Some? && C.Answers(attempt, host, h, cap)
    ensures Evaluate(ToPrediction(attempt.value, flowId, now), DefaultTrigger()).Some?
  {
    var v := attempt.value;
    if v.reason == C.MultiLaneCorroboration {
      CorroboratedMean(h, cap);
      NotBenign();
    }
  }

  /** The confidences add up to at least nine tenths of their number. */
  ghost predicate NineTenths(evidence: seq<C.Event>) { C.Sum(evidence) >= 0.9 * |evidence| as real }

  /** What an attempted verdict says about the history behind it */
  lemma AttemptSays(v: C.Verdict, host: C.Host, h: seq<C.Event>, cap: nat)
    requires cap >= 2 && |h| > 0 && C.Answers(Some(v), host, h, cap)
    ensures |C.Retained(h, cap)| > 0 && v.confidence == C.Mean(C.Retained(h, cap)) && C.Due(h, |h| - 1)
    ensures v.reason == C.MultiLaneCorroboration <==> C.TwoLanes(h)
  {
  }

  /**
   The exact condition at the gate: an attempt is resolved without a human if and only if
   the host's history has two lanes and its retained confidences add up to at least nine
   tenths of their number.
   */
  lemma ResolvedIff(v: C.Verdict, host: C.Host, h: seq<C.Event>, cap: nat, flowId: string, now: int)
    requires cap >= 2 && |h| > 0 && C.Answers(Some(v), host, h, cap)
    ensures Evaluate(ToPrediction(v, flowId, now), DefaultTrigger()).None? <==> C.TwoLanes(h) && NineTenths(C.Retained(h, cap))
  {
    AttemptSays(v, host, h, cap);
    ResolvedBySum(v, C.Retained(h, cap), flowId, now);
  }

  lemma ResolvedBySum(v: C.Verdict, seen: seq<C.Event>, flowId: string, now: int)
    requires |seen| > 0 && v.confidence == C.Mean(seen)
    ensures Evaluate(ToPrediction(v, flowId, now), DefaultTrigger()).None? <==> v.reason == C.MultiLaneCorroboration && NineTenths(seen)
  {
    C.MeanReaches(seen, 0.9);
    GateIff(v, flowId, now);
  }

  lemma GateIff(v: C.Verdict, flowId: string, now: int)
    ensures Evaluate(ToPrediction(v, flowId, now), DefaultTrigger()).None? <==> v.reason == C.MultiLaneCorroboration && v.confidence >= 0.9
  {
    NotBenign();
  }

  /**
   A host opened by ClamAV and corroborated by an event of confidence c: resolved without a
   human if and only if 1 - c is at most a tenth of the retained events. Three malware hits
   carry even an unapproved XDP block.
   */
  lemma ClamAvOpenedIff(v: C.Verdict, host: C.Host, h: seq<C.Event>, cap: nat, flowId: string, now: int)
    requires cap >= 2 && |h| > 0 && AllSubmitted(h) && h[0].lane == C.ClamAv && C.Answers(Some(v), host, h, cap)
    ensures Evaluate(ToPrediction(v, flowId, now), DefaultTrigger()).None? <==>
      1.0 - h[|h| - 1].confidence <= 0.1 * |C.Retained(h, cap)| as real
  {
    AttemptSays(v, host, h, cap);
    ResolvedIff(v, host, h, cap, flowId, now);
    DueCorroborates(h);
    ClamAvThenOne(h, cap);
  }

  lemma ClamAvThenOne(h: seq<C.Event>, cap: nat)
    requires cap >= 2 && |h| >= 2 && AllSubmitted(h) && h[0].lane == C.ClamAv && C.Due(h, |h| - 1)
    ensures var seen := C.Retained(h, cap);
      NineTenths(seen) <==> 1.0 - h[|h| - 1].confidence <= 0.1 * |seen| as real
  {
    forall i | 0 <= i < |h| - 1 ensures h[i].confidence == 1.0 { EarlierIsMalware(h, i); }
    RetainedTail(h, cap);
    SureButLast(h, C.Retained(h, cap), |h| - |C.Retained(h, cap)|);
  }

  lemma SureButLast(h: seq<C.Event>, seen: seq<C.Event>, d: nat)
    requires |seen| > 0 && |h| == d + |seen| && forall i :: 0 <= i < |seen| ==> seen[i] == h[d + i]
    requires forall i :: 0 <= i < |h| - 1 ==> h[i].confidence == 1.0
    ensures NineTenths(seen) <==> 1.0 - h[|h| - 1].confidence <= 0.1 * |seen| as real
  {
    var n := |seen| - 1;
    assert seen[n] == h[|h| - 1];
    C.SumBetween(seen[..n], 1.0, 1.0);
  }

  /** Everything before the deciding event of a ClamAV-opened history is a malware hit. */
  lemma EarlierIsMalware(h: seq<C.Event>, i: nat)
    requires |h| > 0 && AllSubmitted(h) && h[0].lane == C.ClamAv && C.Due(h, |h| - 1) && i < |h| - 1
    ensures h[i].confidence == 1.0
  {
    var earlier := h[..|h| - 1];
    assert earlier[0] == h[0] && earlier[i] == h[i];
    SubmittedConfidence(h[i]);
  }

  /** ClamAV never says Critical, so a verdict on such a host needs a second lane. */
  lemma DueCorroborates(h: seq<C.Event>)
    requires |h| > 0 && AllSubmitted(h) && h[0].lane == C.ClamAv && C.Due(h, |h| - 1)
    ensures |h| >= 2 && C.TwoLanes(h)
  {
    assert h[..|h| - 1 + 1] == h;
    assert C.HasCritical(h) ==> C.TwoLanes(h) by { forall i | 0 <= i < |h| && h[i].severity == C.Critical ensures C.TwoLanes(h) { ClamAvIsNotCritical(h, i); } }
  }

  lemma ClamAvIsNotCritical(h: seq<C.Event>, i: nat)
    requires AllSubmitted(h) && i < |h| && h[0].lane == C.ClamAv && h[i].severity == C.Critical
    ensures C.TwoLanes(h)
  {
    SubmittedConfidence(h[i]);
    assert h[i].lane != h[0].lane;
  }

  lemma NotBenign()
    ensures "MultiLaneCorroboration" != "Benign"
  {
    assert |"MultiLaneCorroboration"| == 22 && |"Benign"| == 6;
  }

  lemma NeverBenign(v: C.Verdict, flowId: string, now: int)
    ensures ToPrediction(v, flowId, now).predicted != DefaultTrigger().benignLabel
  {
    NotBenign();
    assert |"SingleLaneCritical"| == 18 && |"Benign"| == 6;
  }

  /** The guarantee is about the opening lane: a ClamAV match joined by a strong spectral score is attempted and contained at once. */
  lemma ClamAvOpenedCanContain(cap: nat, flowId: string, now: int)
    requires cap >= 2
    ensures var h := [C.ClamAvEvent(0, true, 0), C.SpectralEvent(0, 0.89, 1)];
      var v := C.Verdict(0, C.High, C.Mean(h), [C.ClamAv, C.Spectral], h, C.MultiLaneCorroboration, 0, 1);
      && AllSubmitted(h) && C.Answers(Some(v), 0, h, cap)
      && Evaluate(ToPrediction(v, flowId, now), DefaultTrigger()).None?
      && AutoVerdict(ToPrediction(v, flowId, now), DefaultTrigger()) == ExecuteContainment
  {
    var h := [C.ClamAvEvent(0, true, 0), C.SpectralEvent(0, 0.89, 1)];
    var v := C.Verdict(0, C.High, C.Mean(h), [C.ClamAv, C.Spectral], h, C.MultiLaneCorroboration, 0, 1);
    assert h[..1] == [h[0]] && h[..1][..0] == [] && h[..2] == h;
    assert C.Sum(h) == 1.89;
    assert h[0].lane == C.ClamAv && h[1].lane == C.Spectral;
    assert C.TwoLanes(h) && !C.Triggers(h[..1]) && C.Due(h, 1);
    ClamAvThenSpectral(h);
    GateIff(v, flowId, now);
    NeverBenign(v, flowId, now);
  }

  lemma ClamAvThenSpectral(h: seq<C.Event>)
    requires |h| == 2 && h[0].lane == C.ClamAv && h[1].lane == C.Spectral && h[0].severity == h[1].severity == C.High
    ensures C.ListsSources(h, [C.ClamAv, C.Spectral]) && C.FirstSeenOrder(h, [C.ClamAv, C.Spectral]) && C.IsMaxSeverity(h, C.High)
  {
    assert C.HasLane(h, C.ClamAv) && C.HasLane(h, C.Spectral) && !C.HasLane(h, C.Xdp);
    assert C.SeenBefore(h, C.ClamAv, C.Spectral);
  }

  /** The orchestrator's step: an attempted verdict goes to the gate, and an XDP-opened one comes out waiting. */
  method Route(q: RQ.Queue, ghost h: seq<C.Event>, ghost cap: nat, v: C.Verdict, flowId: string, now: int) returns (r: RQ.Reply<RQ.IngestOutcome>)
    requires q.Valid() && q.triggerCfg == DefaultTrigger() && cap >= 2 && |h| > 0 && AllSubmitted(h)
    requires C.Answers(Some(v), v.host, h, cap)
    modifies q`items, q`decisionSeq, q`decisions, q.engine`instances, q.engine`links, q.engine`forward, q.engine`backward
    ensures q.Valid()
    ensures r.Done? && h[0].lane == C.Xdp ==> flowId in q.items && q.items[flowId].state.Pending? && !RQ.Approves(q.items, q.decisions, flowId)
    ensures r.Done? ==> (RQ.Approves(q.items, q.decisions, flowId) <==> C.TwoLanes(h) && NineTenths(C.Retained(h, cap)))
    ensures r.Failed? ==> q.items == old(q.items) && q.decisions == old(q.decisions)
  {
    ResolvedIff(v, v.host, h, cap, flowId, now);
    NeverBenign(v, flowId, now);
    if h[0].lane == C.Xdp { XdpOpenedIsQueued(Some(v), v.host, h, cap, flowId, now); }
    r := q.Ingest(ToPrediction(v, flowId, now), now);
  }
}
