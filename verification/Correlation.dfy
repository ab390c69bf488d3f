/**
 Windowed per-host fusion of three detection lanes. Evidence per host and the number of
 hosts are capped; the theorems relate every decision to the uncapped history.
 */
module Correlation {
  import opened Wrappers

  type Host = nat
  datatype Lane = Xdp | ClamAv | Spectral
  datatype Severity = Low | Medium | High | Critical {
    function Rank(): nat {
      match this
      case Low => 0
      case Medium => 1
      case High => 2
      case Critical => 3
    }
  }
  datatype Event = Event(host: Host, lane: Lane, severity: Severity, confidence: real, observedAt: int)
  datatype Reason = MultiLaneCorroboration | SingleLaneCritical
  datatype Verdict = Verdict(host: Host, severity: Severity, confidence: real, sources: seq<Lane>, evidence: seq<Event>, reason: Reason,
                             firstSeen: int, decidedAt: int)

  // ---------------------------------------------------------------------
  // What each lane submits
  // ---------------------------------------------------------------------

  function XdpEvent(host: Host, approved: bool, now: int): Event {
    Event(host, Xdp, if approved then Critical else High, if approved then 1.0 else 0.6, now)
  }

  function ClamAvEvent(host: Host, quarantined: bool, now: int): Event {
    Event(host, ClamAv, if quarantined then High else Medium, 1.0, now)
  }

  function SpectralEvent(host: Host, score: real, now: int): Event {
    Event(host, Spectral, if score >= 0.9 then Critical else if score >= 0.7 then High else if score >= 0.4 then Medium else Low,
          if score < 0.0 then 0.0 else if score > 1.0 then 1.0 else score, now)
  }

  /** Only the typed senders make events. */
  ghost predicate Submitted(e: Event) {
    || (exists approved :: e == XdpEvent(e.host, approved, e.observedAt))
    || (exists quarantined :: e == ClamAvEvent(e.host, quarantined, e.observedAt))
    || (exists score :: e == SpectralEvent(e.host, score, e.observedAt))
  }

  // ---------------------------------------------------------------------
  // One host's record
  // ---------------------------------------------------------------------

  datatype HostRecord = HostRecord(evidence: seq<Event>, firstSeen: int, lastSeen: int, finalized: bool)

  function NewRecord(e: Event): HostRecord { HostRecord([e], e.observedAt, e.observedAt, false) }

  function Push(r: HostRecord, e: Event, cap: nat): HostRecord
    requires |r.evidence| > 0
  {
    var kept := if |r.evidence| >= cap then r.evidence[1..] else r.evidence;
    r.(evidence := kept + [e], lastSeen := e.observedAt)
  }

  ghost predicate TwoLanes(h: seq<Event>) { exists i, j :: 0 <= i < j < |h| && h[i].lane != h[j].lane }
  ghost predicate HasCritical(h: seq<Event>) { exists i :: 0 <= i < |h| && h[i].severity == Critical }
  ghost predicate Triggers(h: seq<Event>) { TwoLanes(h) || HasCritical(h) }

  /** The newest cap events of a history, and always at least one */
  ghost function Retained(h: seq<Event>, cap: nat): seq<Event> {
    var keep := if cap == 0 then 1 else cap;
    if |h| <= keep then h else h[|h| - keep..]
  }

  lemma PushRetains(r: HostRecord, h: seq<Event>, e: Event, cap: nat)
    requires |h| > 0 && r.evidence == Retained(h, cap)
    ensures Push(r, e, cap).evidence == Retained(h + [e], cap)
  {
  }

  /**
   With room for two events, the capped evidence decides like the full history at the
   event that could first decide.
   */
  lemma CappedSeesEnough(h: seq<Event>, e: Event, cap: nat)
    requires cap >= 2 && |h| > 0 && !Triggers(h)
    ensures TwoLanes(Retained(h + [e], cap)) <==> TwoLanes(h + [e])
    ensures HasCritical(Retained(h + [e], cap)) <==> HasCritical(h + [e])
  {
    var full, seen := h + [e], Retained(h + [e], cap);
    var d := |full| - |seen|;
    assert forall i :: 0 <= i < |seen| ==> seen[i] == full[i + d];
    assert forall i, j :: 0 <= i < j < |h| ==> h[i].lane == h[j].lane;
    assert full[|h|] == e && seen[|seen| - 1] == e && seen[|seen| - 2] == h[|h| - 1];
    SuffixLanes(full, seen, d);
    if TwoLanes(full) {
      var i, j :| 0 <= i < j < |full| && full[i].lane != full[j].lane;
      assert full[i].lane == h[|h| - 1].lane;
      assert j == |h|;
      assert seen[|seen| - 2].lane != seen[|seen| - 1].lane;
    }
    if HasCritical(full) {
      assert e.severity == Critical;
    }
  }

  lemma SuffixLanes(full: seq<Event>, seen: seq<Event>, d: nat)
    requires |seen| + d == |full| && forall i :: 0 <= i < |seen| ==> seen[i] == full[i + d]
    ensures TwoLanes(seen) ==> TwoLanes(full)
    ensures HasCritical(seen) ==> HasCritical(full)
  {
    if TwoLanes(seen) {
      var i, j :| 0 <= i < j < |seen| && seen[i].lane != seen[j].lane;
      assert full[i + d].lane != full[j + d].lane;
    }
    if HasCritical(seen) {
      var i :| 0 <= i < |seen| && seen[i].severity == Critical;
      assert full[i + d].severity == Critical;
    }
  }

  /** With room for one event only, corroboration by a second lane goes unseen. */
  lemma CapOfOneMisses(cap: nat)
    requires cap <= 1
    ensures exists h, e ::
      |h| > 0 && !Triggers(h) && TwoLanes(h + [e]) && !Triggers(Retained(h + [e], cap))
  {
    var h, e := [ClamAvEvent(0, true, 0)], XdpEvent(0, false, 1);
    assert (h + [e])[0].lane != (h + [e])[1].lane;
    assert Retained(h + [e], cap) == [e];
    assert |h| > 0 && !Triggers(h) && TwoLanes(h + [e]) && !Triggers([e]);
  }

  lemma TriggersStay(h: seq<Event>, more: seq<Event>)
    requires Triggers(h)
    ensures Triggers(h + more)
  {
    var t := h + more;
    assert forall i :: 0 <= i < |h| ==> t[i] == h[i];
    if TwoLanes(h) {
      var i, j :| 0 <= i < j < |h| && h[i].lane != h[j].lane;
      assert t[i].lane != t[j].lane;
    } else {
      var i :| 0 <= i < |h| && h[i].severity == Critical;
      assert t[i].severity == Critical;
    }
  }

  /** The reference: a verdict is due at the event that makes the full history trigger. */
  ghost predicate Due(h: seq<Event>, k: nat)
    requires k < |h|
  {
    !Triggers(h[..k]) && Triggers(h[..k + 1])
  }

  lemma TriggersMonotone(h: seq<Event>, i: int, k: int)
    requires 0 <= i <= k <= |h| && Triggers(h[..i])
    ensures Triggers(h[..k])
  {
    assert h[..i] + h[i..k] == h[..k];
    TriggersStay(h[..i], h[i..k]);
  }

  /** At most one event of a lifetime is due ... */
  lemma DueOnce(h: seq<Event>, j: nat, k: nat)
    requires j < |h| && k < |h| && Due(h, j) && Due(h, k)
    ensures j == k
  {
    if j < k { TriggersMonotone(h, j + 1, k); }
    if k < j { TriggersMonotone(h, k + 1, j); }
  }

  /** ... and one is, if the lifetime triggers at all. */
  lemma {:induction false} SomeDue(h: seq<Event>)
    requires Triggers(h)
    ensures exists k :: 0 <= k < |h| && Due(h, k)
  {
    var n := |h| - 1;
    assert h[..n + 1] == h;
    if Triggers(h[..n]) {
      SomeDue(h[..n]);
      var k :| 0 <= k < n && Due(h[..n], k);
      assert h[..n][..k] == h[..k] && h[..n][..k + 1] == h[..k + 1];
      assert Due(h, k);
    } else {
      assert Due(h, n);
    }
  }

  // ---------------------------------------------------------------------
  // Verdicts
  // ---------------------------------------------------------------------

  function Sum(evidence: seq<Event>): real {
    if evidence == [] then 0.0 else Sum(evidence[..|evidence| - 1]) + evidence[|evidence| - 1].confidence
  }

  /** `mean_confidence` */
  function Mean(evidence: seq<Event>): real { if evidence == [] then 0.0 else Sum(evidence) / |evidence| as real }

  /** What the sum is: nothing on no evidence, the confidence on one event, additive over any split */
  lemma {:induction false} SumConcat(a: seq<Event>, b: seq<Event>)
    ensures Sum(a + b) == Sum(a) + Sum(b)
    ensures Sum([]) == 0.0 && forall e: Event :: Sum([e]) == e.confidence
  {
    forall e: Event ensures Sum([e]) == e.confidence { assert [e][..0] == []; }
    if b == [] {
      assert a + b == a;
    } else {
      var n := |b| - 1;
      SumConcat(a, b[..n]);
      assert (a + b)[..|a| + n] == a + b[..n];
    }
  }

  /** The mean times the number of events is the sum. */
  lemma MeanIsShare(evidence: seq<Event>)
    requires |evidence| > 0
    ensures Mean(evidence) * |evidence| as real == Sum(evidence)
  {
  }

  /** The mean reaches a bound exactly when the sum reaches the bound times the number. */
  lemma MeanReaches(evidence: seq<Event>, bound: real)
    requires |evidence| > 0
    ensures Mean(evidence) >= bound <==> Sum(evidence) >= bound * |evidence| as real
  {
    MeanIsShare(evidence);
    ShareReaches(Mean(evidence), |evidence| as real, bound);
  }

  lemma ShareReaches(mean: real, n: real, bound: real)
    requires n > 0.0
    ensures mean >= bound <==> mean * n >= bound * n
  {
    if mean >= bound { assert (mean - bound) * n >= 0.0; } else { assert (bound - mean) * n > 0.0; }
  }

  lemma {:induction false} SumBetween(evidence: seq<Event>, lo: real, hi: real)
    requires forall i :: 0 <= i < |evidence| ==> lo <= evidence[i].confidence <= hi
    ensures lo * |evidence| as real <= Sum(evidence) <= hi * |evidence| as real
  {
    if evidence != [] { SumBetween(evidence[..|evidence| - 1], lo, hi); }
  }

  /** The mean lies between any bounds on the confidences, so between the least and the greatest. */
  lemma MeanBetween(evidence: seq<Event>, lo: real, hi: real)
    requires |evidence| > 0 && forall i :: 0 <= i < |evidence| ==> lo <= evidence[i].confidence <= hi
    ensures lo <= Mean(evidence) <= hi
  {
    SumBetween(evidence, lo, hi);
    MeanIsShare(evidence);
    ShareReaches(Mean(evidence), |evidence| as real, lo);
    ShareReaches(hi, |evidence| as real, Mean(evidence));
  }

  lemma SumWithout(h: seq<Event>, j: nat)
    requires j < |h|
    ensures Sum(h) == Sum(h[..j] + h[j + 1..]) + h[j].confidence
  {
    assert h == h[..j] + ([h[j]] + h[j + 1..]);
    SumConcat(h[..j], [h[j]] + h[j + 1..]);
    SumConcat([h[j]], h[j + 1..]);
    SumConcat(h[..j], h[j + 1..]);
  }

  /** The order in which evidence came does not matter. */
  lemma {:induction false} SumPermuted(a: seq<Event>, b: seq<Event>)
    requires multiset(a) == multiset(b)
    ensures Sum(a) == Sum(b)
  {
    assert |multiset(a)| == |a| && |multiset(b)| == |b|;
    if a != [] {
      var n := |a| - 1;
      assert a[n] in multiset(b);
      var j :| 0 <= j < |b| && b[j] == a[n];
      MultisetWithout(a, n);
      MultisetWithout(b, j);
      assert a[..n] + a[n + 1..] == a[..n];
      SumPermuted(a[..n], b[..j] + b[j + 1..]);
      SumWithout(b, j);
    }
  }

  lemma MultisetWithout(h: seq<Event>, j: nat)
    requires j < |h|
    ensures multiset(h[..j] + h[j + 1..]) == multiset(h) - multiset{h[j]}
  {
    assert h == h[..j] + [h[j]] + h[j + 1..];
  }

  lemma MeanPermuted(a: seq<Event>, b: seq<Event>)
    requires multiset(a) == multiset(b)
    ensures Mean(a) == Mean(b)
  {
    assert |multiset(a)| == |a| && |multiset(b)| == |b|;
    SumPermuted(a, b);
  }

  /** A severity is outranked exactly by the worse ones. */
  lemma RankIsOrder(a: Severity, b: Severity)
    ensures a.Rank() < b.Rank() <==>
      (a == Low && b != Low) || (a == Medium && (b == High || b == Critical)) || (a == High && b == Critical)
  {
  }

  ghost predicate IsMaxSeverity(evidence: seq<Event>, s: Severity) {
    && (exists i :: 0 <= i < |evidence| && evidence[i].severity == s)
    && (forall i :: 0 <= i < |evidence| ==> evidence[i].severity.Rank() <= s.Rank())
  }

  /** `max_severity` */
  method MaxSeverity(evidence: seq<Event>) returns (s: Severity)
    requires |evidence| > 0
    ensures IsMaxSeverity(evidence, s)
  {
    s := evidence[0].severity;
    var i := 1;
    while i < |evidence|
      invariant 1 <= i <= |evidence| && exists k :: 0 <= k < i && evidence[k].severity == s
      invariant forall k :: 0 <= k < i ==> evidence[k].severity.Rank() <= s.Rank()
    {
      if evidence[i].severity.Rank() >= s.Rank() { s := evidence[i].severity; }
      i := i + 1;
    }
  }

  lemma MaxIsCritical(evidence: seq<Event>, s: Severity)
    requires IsMaxSeverity(evidence, s)
    ensures s == Critical <==> HasCritical(evidence)
  {
  }

  ghost predicate HasLane(h: seq<Event>, lane: Lane) { exists i :: 0 <= i < |h| && h[i].lane == lane }

  /** The lanes of the evidence, each once */
  ghost predicate ListsSources(evidence: seq<Event>, sources: seq<Lane>) {
    && (forall lane :: lane in sources <==> HasLane(evidence, lane))
    && (forall j, k :: 0 <= j < k < |sources| ==> sources[j] != sources[k])
  }

  /** The lanes come in the order in which each was first seen. */
  ghost predicate FirstSeenOrder(evidence: seq<Event>, sources: seq<Lane>) {
    forall j, k :: 0 <= j < k < |sources| ==> SeenBefore(evidence, sources[j], sources[k])
  }

  ghost predicate SeenBefore(evidence: seq<Event>, a: Lane, b: Lane) {
    exists i :: 0 <= i < |evidence| && evidence[i].lane == a && forall j :: 0 <= j <= i ==> evidence[j].lane != b
  }

  lemma SeenBeforeMore(h: seq<Event>, e: Event, a: Lane, b: Lane)
    ensures SeenBefore(h, a, b) ==> SeenBefore(h + [e], a, b)
    ensures HasLane(h, a) && !HasLane(h, b) ==> SeenBefore(h, a, b)
  {
    var t := h + [e];
    if SeenBefore(h, a, b) {
      var i :| 0 <= i < |h| && h[i].lane == a && forall j :: 0 <= j <= i ==> h[j].lane != b;
      assert t[i].lane == a && forall j :: 0 <= j <= i ==> t[j] == h[j];
    }
  }

  lemma HasLaneMore(h: seq<Event>, e: Event, lane: Lane)
    ensures HasLane(h + [e], lane) <==> HasLane(h, lane) || lane == e.lane
  {
    var t := h + [e];
    assert t[|h|] == e;
    if HasLane(h, lane) {
      var i :| 0 <= i < |h| && h[i].lane == lane;
      assert t[i].lane == lane;
    }
  }

  lemma OrderMore(h: seq<Event>, e: Event, sources: seq<Lane>)
    requires ListsSources(h, sources) && FirstSeenOrder(h, sources)
    ensures FirstSeenOrder(h + [e], if e.lane in sources then sources else sources + [e.lane])
  {
    var after := if e.lane in sources then sources else sources + [e.lane];
    forall j, k | 0 <= j < k < |after| ensures SeenBefore(h + [e], after[j], after[k]) {
      SeenBeforeMore(h, e, after[j], after[k]);
      assert after[j] in sources && (k < |sources| ==> after[k] in sources);
    }
  }

  /** `distinct_sources` */
  method DistinctSources(evidence: seq<Event>) returns (sources: seq<Lane>)
    ensures ListsSources(evidence, sources) && FirstSeenOrder(evidence, sources)
  {
    sources := [];
    var i := 0;
    while i < |evidence|
      invariant 0 <= i <= |evidence| && ListsSources(evidence[..i], sources) && FirstSeenOrder(evidence[..i], sources)
    {
      assert evidence[..i] + [evidence[i]] == evidence[..i + 1];
      forall lane ensures HasLane(evidence[..i + 1], lane) <==> HasLane(evidence[..i], lane) || lane == evidence[i].lane {
        HasLaneMore(evidence[..i], evidence[i], lane);
      }
      OrderMore(evidence[..i], evidence[i], sources);
      if evidence[i].lane !in sources { sources := sources + [evidence[i].lane]; }
      i := i + 1;
    }
    assert evidence[..i] == evidence;
  }

  lemma TwoSources(evidence: seq<Event>, sources: seq<Lane>)
    requires ListsSources(evidence, sources)
    ensures |sources| >= 2 <==> TwoLanes(evidence)
  {
    if |sources| >= 2 {
      assert sources[0] in sources && sources[1] in sources;
      var i :| 0 <= i < |evidence| && evidence[i].lane == sources[0];
      var j :| 0 <= j < |evidence| && evidence[j].lane == sources[1];
      assert evidence[i].lane != evidence[j].lane && (i < j || j < i);
    }
    if TwoLanes(evidence) {
      var i, j :| 0 <= i < j < |evidence| && evidence[i].lane != evidence[j].lane;
      assert HasLane(evidence, evidence[i].lane) && HasLane(evidence, evidence[j].lane);
      assert evidence[i].lane in sources && evidence[j].lane in sources;
    }
  }

  function ReasonFor(sources: seq<Lane>, s: Severity): Option<Reason> {
    if |sources| >= 2 then Some(MultiLaneCorroboration) else if s == Critical then Some(SingleLaneCritical) else None
  }

  /** The verdict reports exactly the retained evidence. */
  ghost predicate Reports(v: Verdict, host: Host, evidence: seq<Event>, firstSeen: int) {
    && v.host == host && v.evidence == evidence && v.firstSeen == firstSeen && v.confidence == Mean(evidence)
    && IsMaxSeverity(evidence, v.severity) && ListsSources(evidence, v.sources) && FirstSeenOrder(evidence, v.sources)
    && v.reason == if TwoLanes(evidence) then MultiLaneCorroboration else SingleLaneCritical
  }

  // ---------------------------------------------------------------------
  // The engine
  // ---------------------------------------------------------------------

  /** The record keeps the newest part of the history of its lifetime. */
  ghost predicate Keeps(r: HostRecord, h: seq<Event>, cap: nat) {
    && |h| > 0 && r.evidence == Retained(h, cap)
    && r.firstSeen == h[0].observedAt && r.lastSeen == h[|h| - 1].observedAt
  }

  /** ... and is finalized exactly when that whole history has two lanes or a Critical. */
  ghost predicate Stands(r: HostRecord, h: seq<Event>, cap: nat) {
    Keeps(r, h, cap) && (cap >= 2 ==> (r.finalized <==> Triggers(h)))
  }

  /** An open record has seen one lane only and nothing Critical, dropped evidence included. */
  lemma OpenRecord(r: HostRecord, h: seq<Event>, cap: nat, i: nat, j: nat)
    requires Stands(r, h, cap) && cap >= 2 && !r.finalized && i < |h| && j < |h|
    ensures h[i].lane == h[j].lane && h[i].severity != Critical
  {
  }

  ghost function HistoryOf(histories: map<Host, seq<Event>>, host: Host): seq<Event> {
    if host in histories then histories[host] else []
  }

  function Absorbed(state: map<Host, HostRecord>, e: Event, cap: nat): HostRecord
    requires e.host in state ==> |state[e.host].evidence| > 0
  {
    if e.host in state then Push(state[e.host], e, cap) else NewRecord(e)
  }

  ghost predicate Tracks(state: map<Host, HostRecord>, histories: map<Host, seq<Event>>, cap: nat) {
    && state.Keys == histories.Keys
    && forall host :: host in state && host in histories ==> Stands(state[host], histories[host], cap)
  }

  lemma AbsorbedKeeps(state: map<Host, HostRecord>, histories: map<Host, seq<Event>>, e: Event, cap: nat)
    requires Tracks(state, histories, cap)
    ensures e.host in state ==> |state[e.host].evidence| > 0
    ensures Keeps(Absorbed(state, e, cap), HistoryOf(histories, e.host) + [e], cap)
  {
    var h := HistoryOf(histories, e.host);
    if e.host in state {
      PushRetains(state[e.host], h, e, cap);
      assert (h + [e])[0] == h[0];
    }
  }

  lemma LastStep(h: seq<Event>, e: Event)
    ensures Due(h + [e], |h|) <==> !Triggers(h) && Triggers(h + [e])
  {
    assert (h + [e])[..|h|] == h && (h + [e])[..|h| + 1] == h + [e];
  }

  lemma NoneTriggers()
    ensures !Triggers([])
  {
  }

  /** Whether a verdict is due can be read off the record. */
  lemma DueByRecord(state: map<Host, HostRecord>, histories: map<Host, seq<Event>>, e: Event, cap: nat, r: HostRecord)
    requires Tracks(state, histories, cap) && cap >= 2 && Keeps(r, HistoryOf(histories, e.host) + [e], cap)
    requires r.finalized == (e.host in state && state[e.host].finalized)
    ensures var h := HistoryOf(histories, e.host) + [e];
      && (r.finalized ==> Triggers(h))
      && (!r.finalized ==> (TwoLanes(r.evidence) <==> TwoLanes(h)) && (Triggers(r.evidence) <==> Triggers(h)))
      && (Due(h, |h| - 1) <==> !r.finalized && Triggers(r.evidence))
  {
    var h := HistoryOf(histories, e.host);
    LastStep(h, e);
    if h == [] {
      NoneTriggers();
      assert Retained(h + [e], cap) == h + [e];
    } else if Triggers(h) {
      TriggersStay(h, [e]);
    } else {
      CappedSeesEnough(h, e, cap);
    }
  }

  lemma TracksUpdate(state: map<Host, HostRecord>, histories: map<Host, seq<Event>>, cap: nat, host: Host, r: HostRecord, h: seq<Event>)
    requires Tracks(state, histories, cap) && Stands(r, h, cap)
    ensures Tracks(state[host := r], histories[host := h], cap)
  {
  }

  lemma TracksLess(state: map<Host, HostRecord>, histories: map<Host, seq<Event>>, cap: nat, gone: set<Host>)
    requires Tracks(state, histories, cap)
    ensures Tracks(state - gone, histories - gone, cap)
  {
  }

  lemma RemoveOne(state: map<Host, HostRecord>, host: Host)
    requires host in state
    ensures |state - {host}| == |state| - 1
  {
    assert state == (state - {host})[host := state[host]];
  }

  lemma RemoveSome(state: map<Host, HostRecord>, gone: set<Host>)
    ensures |state - gone| <= |state|
  {
    var keys := state.Keys;
    assert (state - gone).Keys == keys - gone;
    assert keys == (keys - gone) + (keys * gone);
  }

  /** The host evicted over capacity: one with the oldest last event */
  method Oldest(state: map<Host, HostRecord>) returns (oldest: Host)
    requires |state| > 0
    ensures oldest in state && forall host :: host in state ==> state[oldest].lastSeen <= state[host].lastSeen
  {
    var left := state.Keys;
    assert |left| > 0;
    oldest :| oldest in left;
    left := left - {oldest};
    while left != {}
      invariant left <= state.Keys && oldest in state
      invariant forall host :: host in state && host !in left ==> state[oldest].lastSeen <= state[host].lastSeen
      decreases |left|
    {
      var host :| host in left;
      if state[host].lastSeen < state[oldest].lastSeen { oldest := host; }
      left := left - {host};
    }
  }

  /** The verdict `maybe_emit` builds from a record, if any */
  method Judge(r: HostRecord, host: Host, now: int) returns (v: Option<Verdict>)
    requires |r.evidence| > 0
    ensures v.Some? <==> Triggers(r.evidence)
    ensures v.Some? ==> Reports(v.value, host, r.evidence, r.firstSeen) && v.value.decidedAt == now
    ensures v.Some? ==> v.value.confidence * |r.evidence| as real == Sum(r.evidence)
  {
    MeanIsShare(r.evidence);
    var sources := DistinctSources(r.evidence);
    var severity := MaxSeverity(r.evidence);
    TwoSources(r.evidence, sources);
    MaxIsCritical(r.evidence, severity);
    var reason := ReasonFor(sources, severity);
    if reason.None? { return None; }
    return Some(Verdict(host, severity, Mean(r.evidence), sources, r.evidence, reason.value, r.firstSeen, now));
  }

  /** The attempt is the one the uncapped history calls for. */
  ghost predicate Answers(attempt: Option<Verdict>, host: Host, h: seq<Event>, cap: nat)
    requires |h| > 0
  {
    && (cap >= 2 ==> (attempt.Some? <==> Due(h, |h| - 1)))
    && (attempt.Some? ==> Reports(attempt.value, host, Retained(h, cap), h[0].observedAt))
    && (cap >= 2 && attempt.Some? ==> (attempt.value.reason == MultiLaneCorroboration <==> TwoLanes(h)))
  }

  /** `maybe_emit`, skipped for a record already finalized */
  method MaybeEmit(ghost state: map<Host, HostRecord>, ghost histories: map<Host, seq<Event>>, r: HostRecord, e: Event, cap: nat, now: int)
    returns (attempt: Option<Verdict>, after: HostRecord)
    requires Tracks(state, histories, cap) && Keeps(r, HistoryOf(histories, e.host) + [e], cap)
    requires r.finalized == (e.host in state && state[e.host].finalized)
    ensures Answers(attempt, e.host, HistoryOf(histories, e.host) + [e], cap) && (attempt.Some? ==> attempt.value.decidedAt == now)
    ensures Stands(after, HistoryOf(histories, e.host) + [e], cap)
  {
    attempt, after := None, r;
    if !r.finalized { attempt := Judge(r, e.host, now); }
    if attempt.Some? { after := r.(finalized := true); }
    if cap >= 2 { DueByRecord(state, histories, e, cap, r); }
  }

  class Engine {
    const window: int
    const maxEvidence: nat
    const maxHosts: nat
    var state: map<Host, HostRecord>
    var verdictsEmitted: nat
    var verdictsDropped: nat
    ghost var histories: map<Host, seq<Event>>  // every event since each tracked record was created

    ghost predicate Valid() reads this { Tracks(state, histories, maxEvidence) && |state| <= maxHosts }

    constructor (window: int, maxEvidence: nat, maxHosts: nat)
      ensures Valid() && state == map[] && this.window == window && this.maxEvidence == maxEvidence && this.maxHosts == maxHosts
    {
      this.window, this.maxEvidence, this.maxHosts := window, maxEvidence, maxHosts;
      state, histories, verdictsEmitted, verdictsDropped := map[], map[], 0, 0;
    }

    /**
     One event. With an evidence cap of at least two, a verdict is attempted exactly when
     the uncapped history calls for one; afterwards the host cap holds again.
     */
    method HandleEvent(e: Event, now: int, accepted: bool) returns (attempt: Option<Verdict>, evicted: Option<Host>)
      requires Valid()
      modifies this
      ensures Valid()
      ensures var h := HistoryOf(old(histories), e.host) + [e];
        && Answers(attempt, e.host, h, maxEvidence)
        && (evicted.Some? <==> |old(histories)[e.host := h]| > maxHosts)
        && histories == (if evicted.Some? then old(histories)[e.host := h] - {evicted.value} else old(histories)[e.host := h])
        && (evicted.Some? ==> IsOldest(old(histories)[e.host := h], evicted.value))
      ensures attempt.Some? ==> attempt.value.decidedAt == now
      ensures verdictsEmitted + verdictsDropped == old(verdictsEmitted + verdictsDropped) + if attempt.Some? then 1 else 0
      ensures verdictsEmitted == old(verdictsEmitted) + if attempt.Some? && accepted then 1 else 0
    {
      AbsorbedKeeps(state, histories, e, maxEvidence);
      var r := Absorbed(state, e, maxEvidence);
      ghost var h := HistoryOf(histories, e.host) + [e];
      attempt, r := MaybeEmit(state, histories, r, e, maxEvidence, now);
      if attempt.Some? {
        if accepted { verdictsEmitted := verdictsEmitted + 1; } else { verdictsDropped := verdictsDropped + 1; }
      }
      evicted := Store(e.host, r, h);
    }

    method Store(host: Host, r: HostRecord, ghost h: seq<Event>) returns (evicted: Option<Host>)
      requires Valid() && Stands(r, h, maxEvidence)
      modifies this`state, this`histories
      ensures Valid()
      ensures evicted.Some? <==> |old(histories)[host := h]| > maxHosts
      ensures histories == if evicted.Some? then old(histories)[host := h] - {evicted.value} else old(histories)[host := h]
      ensures evicted.Some? ==> IsOldest(old(histories)[host := h], evicted.value)
    {
      TracksUpdate(state, histories, maxEvidence, host, r, h);
      state, histories := state[host := r], histories[host := h];
      evicted := EnforceCapacity();
    }

    method EnforceCapacity() returns (evicted: Option<Host>)
      requires Tracks(state, histories, maxEvidence) && |state| <= maxHosts + 1
      modifies this`state, this`histories
      ensures Valid()
      ensures evicted.Some? <==> |old(histories)| > maxHosts
      ensures evicted.Some? ==> evicted.value in old(state) && forall host :: host in old(state) ==> old(state)[evicted.value].lastSeen <= old(state)[host].lastSeen
      ensures evicted.Some? ==> IsOldest(old(histories), evicted.value)
      ensures histories == if evicted.Some? then old(histories) - {evicted.value} else old(histories)
    {
      SameSize(state, histories);
      if |state| <= maxHosts { return None; }
      var host := Oldest(state);
      OldestByHistory(state, histories, maxEvidence, host);
      TracksLess(state, histories, maxEvidence, {host});
      RemoveOne(state, host);
      state, histories := state - {host}, histories - {host};
      return Some(host);
    }

    /** Drops every record idle for the whole window, and no other. */
    method SweepExpired(now: int)
      requires Valid()
      modifies this`state, this`histories
      ensures Valid()
      ensures forall host :: host in state <==> host in old(state) && now - old(state)[host].lastSeen < window
      ensures forall host :: host in state ==> state[host] == old(state)[host] && histories[host] == old(histories)[host]
    {
      var gone := set host | host in state && now - state[host].lastSeen >= window;
      TracksLess(state, histories, maxEvidence, gone);
      RemoveSome(state, gone);
      state, histories := state - gone, histories - gone;
    }
  }

  /** No tracked host's last event is older. */
  ghost predicate IsOldest(histories: map<Host, seq<Event>>, oldest: Host) {
    oldest in histories && |histories[oldest]| > 0 && forall host :: host in histories ==>
      |histories[host]| > 0 && histories[oldest][|histories[oldest]| - 1].observedAt <= histories[host][|histories[host]| - 1].observedAt
  }

  lemma OldestByHistory(state: map<Host, HostRecord>, histories: map<Host, seq<Event>>, cap: nat, oldest: Host)
    requires Tracks(state, histories, cap) && oldest in state && forall host :: host in state ==> state[oldest].lastSeen <= state[host].lastSeen
    ensures IsOldest(histories, oldest)
  {
  }

  lemma SameSize(state: map<Host, HostRecord>, histories: map<Host, seq<Event>>)
    requires state.Keys == histories.Keys
    ensures |state| == |histories|
  {
    assert |state| == |state.Keys| && |histories| == |histories.Keys|;
  }
}
