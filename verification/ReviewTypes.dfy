/** The review queue's domain types, their text forms, and the trigger that decides who decides. */
module ReviewTypes {
  import opened Wrappers
  import opened Ontology

  datatype FlowPrediction = FlowPrediction(flowId: string, predicted: string, confidence: real, runnerUpLabel: Option<string>,
                                           runnerUpConfidence: Option<real>, outOfDistribution: bool, observedAt: int)
  {
    function Margin(): Option<real> {
      if runnerUpConfidence.Some? then Some(confidence - runnerUpConfidence.value) else None
    }
  }

  datatype TriggerReason = LowConfidenceAttack | NarrowMargin | NovelPattern | ManualFlag
  datatype Verdict = ExecuteContainment | Dismiss | EscalateFurther
  datatype Reviewer = Human(id: string) | SystemSlaTimeout | SystemAutoResolve
  datatype AuditDecision = AuditDecision(decisionId: string, flowId: string, reviewer: Reviewer, verdict: Verdict, rationale: string, decidedAt: int)
  datatype SlaPolicy = FailSafe | FailSecure(autoContainAbove: nat)
  datatype ReviewState = AutoResolved(decisionId: string) | Pending(reason: TriggerReason)
                       | UnderReview(reason: TriggerReason, reviewer: string, claimedAt: int) | Resolved(decisionId: string)
  {
    predicate Open() { Pending? || UnderReview? }
  }
  datatype QueueItem = QueueItem(prediction: FlowPrediction, state: ReviewState, enqueuedAt: int)
  datatype TriggerConfig = TriggerConfig(benignLabel: string, minAttackConfidence: real, minMargin: real, minBenignConfidence: real)

  function DefaultTrigger(): TriggerConfig { TriggerConfig("Benign", 0.90, 0.15, 0.80) }

  /** `ReviewTrigger::evaluate` */
  function Evaluate(p: FlowPrediction, cfg: TriggerConfig): (r: Option<TriggerReason>)
    ensures r.None? <==> && !p.outOfDistribution && (p.Margin().Some? ==> p.Margin().value >= cfg.minMargin)
                         && p.confidence >= if p.predicted == cfg.benignLabel then cfg.minBenignConfidence else cfg.minAttackConfidence
    ensures r == Some(NovelPattern) <==> p.outOfDistribution
    ensures r == Some(NarrowMargin) ==> p.Margin().Some? && p.Margin().value < cfg.minMargin
    ensures r == Some(LowConfidenceAttack) <==>
      !p.outOfDistribution && p.confidence < if p.predicted == cfg.benignLabel then cfg.minBenignConfidence else cfg.minAttackConfidence
    ensures r != Some(ManualFlag)
  {
    if p.outOfDistribution then Some(NovelPattern)
    else if p.predicted != cfg.benignLabel && p.confidence < cfg.minAttackConfidence then Some(LowConfidenceAttack)
    else if p.predicted == cfg.benignLabel && p.confidence < cfg.minBenignConfidence then Some(LowConfidenceAttack)
    else if p.Margin().Some? && p.Margin().value < cfg.minMargin then Some(NarrowMargin)
    else None
  }

  /** What the default configuration lets pass without review */
  lemma DefaultTriggerMeans(p: FlowPrediction)
    ensures Evaluate(p, DefaultTrigger()).None? <==>
      && !p.outOfDistribution && p.confidence >= (if p.predicted == "Benign" then 0.8 else 0.9)
      && (p.runnerUpConfidence.Some? ==> p.confidence >= p.runnerUpConfidence.value + 0.15)
  {
  }

  function AutoVerdict(p: FlowPrediction, cfg: TriggerConfig): Verdict {
    if p.predicted == cfg.benignLabel then Dismiss else ExecuteContainment
  }

  /** `to_millis`: clamp to [0, 1], scale, round half away from zero */
  function ToMillis(confidence: real): (m: int)
    ensures 0 <= m <= 1000
    ensures confidence <= 0.0 ==> m == 0
    ensures confidence >= 1.0 ==> m == 1000
    ensures 0.0 <= confidence <= 1.0 ==> m as real - 0.5 <= 1000.0 * confidence < m as real + 0.5
  {
    var c := if confidence < 0.0 then 0.0 else if confidence > 1.0 then 1.0 else confidence;
    (c * 1000.0 + 0.5).Floor
  }

  /** What a timeout decides */
  function TimeoutVerdict(p: FlowPrediction, cfg: TriggerConfig, policy: SlaPolicy): Verdict {
    match policy
    case FailSafe => Dismiss
    case FailSecure(threshold) =>
      if p.predicted != cfg.benignLabel && ToMillis(p.confidence) >= threshold then ExecuteContainment else Dismiss
  }

  /** The confidence, clamped to [0, 1] and rounded to thousandths with halves going up, is at least the threshold. */
  ghost predicate Reaches(confidence: real, threshold: nat) {
    threshold == 0 || (threshold <= 1000 && 1000.0 * confidence >= threshold as real - 0.5)
  }

  lemma MillisReach(confidence: real, threshold: nat)
    ensures ToMillis(confidence) >= threshold <==> Reaches(confidence, threshold)
  {
    var m := ToMillis(confidence);
    if 0.0 <= confidence <= 1.0 && m < threshold { assert m as real + 0.5 <= threshold as real - 0.5; }
  }

  /** A timeout contains: the policy allows it, the label is an attack's, and the confidence reaches the threshold. */
  ghost predicate TimeoutContains(p: FlowPrediction, cfg: TriggerConfig, policy: SlaPolicy) {
    policy.FailSecure? && p.predicted != cfg.benignLabel && Reaches(p.confidence, policy.autoContainAbove)
  }

  lemma TimeoutVerdictMeans(p: FlowPrediction, cfg: TriggerConfig, policy: SlaPolicy)
    ensures TimeoutContains(p, cfg, policy) ==> TimeoutVerdict(p, cfg, policy) == ExecuteContainment
    ensures !TimeoutContains(p, cfg, policy) ==> TimeoutVerdict(p, cfg, policy) == Dismiss
  {
    if policy.FailSecure? { MillisReach(p.confidence, policy.autoContainAbove); }
  }

  // ---------------------------------------------------------------------
  // Text
  // ---------------------------------------------------------------------

  /** The characters `str::trim` removes (the Unicode White_Space property) */
  predicate IsWhitespace(c: char) {
    || ('\t' <= c <= '\r') || c == ' ' || c == '\U{85}' || c == '\U{A0}' || c == '\U{1680}' || ('\U{2000}' <= c <= '\U{200A}')
    || c == '\U{2028}' || c == '\U{2029}' || c == '\U{202F}' || c == '\U{205F}' || c == '\U{3000}'
  }

  /** `s.trim().is_empty()` */
  predicate Blank(s: string) { forall i :: 0 <= i < |s| ==> IsWhitespace(s[i]) }

  function TrimStart(s: string): string { if s != "" && IsWhitespace(s[0]) then TrimStart(s[1..]) else s }
  function TrimEnd(s: string): string { if s != "" && IsWhitespace(s[|s| - 1]) then TrimEnd(s[..|s| - 1]) else s }

  function LowerChar(c: char): char { if 'A' <= c <= 'Z' then (c as int + 32) as char else c }
  function Lower(s: string): string { seq(|s|, i requires 0 <= i < |s| => LowerChar(s[i])) }

  function VerdictText(v: Verdict): string {
    match v
    case ExecuteContainment => "execute_containment"
    case Dismiss => "dismiss"
    case EscalateFurther => "escalate_further"
  }

  /** `Verdict::parse` */
  function ParseVerdict(s: string): Option<Verdict> {
    var t := Lower(TrimEnd(TrimStart(s)));
    if t == "contain" || t == "execute_containment" || t == "containment" then Some(ExecuteContainment)
    else if t == "dismiss" || t == "benign" then Some(Dismiss)
    else if t == "escalate" || t == "escalate_further" then Some(EscalateFurther)
    else None
  }

  predicate SmallLetters(s: string) { forall i :: 0 <= i < |s| ==> 'a' <= s[i] <= 'z' || s[i] == '_' }

  lemma SmallLettersStay(s: string)
    requires SmallLetters(s)
    ensures Lower(TrimEnd(TrimStart(s))) == s
  {
  }

  lemma VerdictRoundTrip(v: Verdict)
    ensures ParseVerdict(VerdictText(v)) == Some(v)
  {
    VerdictTextIsSmall(v);
    SmallLettersStay(VerdictText(v));
  }

  lemma VerdictTextIsSmall(v: Verdict)
    ensures SmallLetters(VerdictText(v))
  {
  }

  const HumanPrefix := "human:"

  function ReviewerText(r: Reviewer): string {
    match r
    case Human(id) => HumanPrefix + id
    case SystemSlaTimeout => "system:sla_timeout"
    case SystemAutoResolve => "system:auto_resolve"
  }

  /** The reviewer part of `decision_from_instance` */
  function ParseReviewer(s: string): Reviewer {
    if HumanPrefix <= s then Human(s[|HumanPrefix|..])
    else if s == "system:sla_timeout" then SystemSlaTimeout
    else SystemAutoResolve
  }

  lemma ReviewerRoundTrip(r: Reviewer)
    ensures ParseReviewer(ReviewerText(r)) == r
  {
    var s := ReviewerText(r);
    match r
    case Human(id) => assert s[|HumanPrefix|..] == id;
    case _ => assert s[0] == 's' && HumanPrefix[0] == 'h';
  }

  // ---------------------------------------------------------------------
  // Decision ids
  // ---------------------------------------------------------------------

  function Digit(n: nat): char
    requires n < 10
  {
    ('0' as int + n) as char
  }

  function Decimal(n: nat): string { if n < 10 then [Digit(n)] else Decimal(n / 10) + [Digit(n % 10)] }

  function DecisionId(flow: string, n: nat): string { "dec-" + flow + "-" + Decimal(n) }

  lemma {:induction false} DecimalHasNoDash(n: nat)
    ensures forall i :: 0 <= i < |Decimal(n)| ==> Decimal(n)[i] != '-'
  {
    if n >= 10 { DecimalHasNoDash(n / 10); }
  }

  lemma DecimalLength(n: nat)
    ensures |Decimal(n)| == 1 <==> n < 10
    ensures |Decimal(n)| >= 1
  {
  }

  lemma {:induction false} DecimalInjective(n: nat, m: nat)
    requires Decimal(n) == Decimal(m)
    ensures n == m
  {
    var s, t := Decimal(n), Decimal(m);
    DecimalLength(n);
    DecimalLength(m);
    assert s[|s| - 1] == Digit(n % 10) && t[|t| - 1] == Digit(m % 10);
    if n >= 10 && m >= 10 {
      assert s[..|s| - 1] == Decimal(n / 10) && t[..|t| - 1] == Decimal(m / 10);
      DecimalInjective(n / 10, m / 10);
    }
  }

  lemma AfterDash(u: string, d: string, j: int)
    requires (forall i :: 0 <= i < |d| ==> d[i] != '-') && |u| < j < |u + "-" + d|
    ensures (u + "-" + d)[j] != '-'
  {
    assert (u + "-" + d)[j] == d[j - |u| - 1];
  }

  /** Text before the last dash and text after it are determined by the whole. */
  lemma LastDash(u: string, d: string, v: string, e: string)
    requires u + "-" + d == v + "-" + e
    requires (forall i :: 0 <= i < |d| ==> d[i] != '-') && (forall i :: 0 <= i < |e| ==> e[i] != '-')
    ensures u == v && d == e
  {
    var s, t := u + "-" + d, v + "-" + e;
    assert s[|u|] == '-' && t[|v|] == '-';
    if |v| < |u| { AfterDash(v, e, |u|); }
    if |u| < |v| { AfterDash(u, d, |v|); }
    assert u == s[..|u|] && v == t[..|v|];
    assert d == s[|u| + 1..] && e == t[|v| + 1..];
  }

  /** No two (flow, sequence number) pairs share a decision id. */
  lemma DecisionIdInjective(f: string, n: nat, g: string, m: nat)
    requires DecisionId(f, n) == DecisionId(g, m)
    ensures f == g && n == m
  {
    var s, t := DecisionId(f, n), DecisionId(g, m);
    assert s[4..] == f + "-" + Decimal(n) && t[4..] == g + "-" + Decimal(m);
    DecimalHasNoDash(n);
    DecimalHasNoDash(m);
    LastDash(f, Decimal(n), g, Decimal(m));
    DecimalInjective(n, m);
  }

  lemma DecisionIdLonger(f: string, n: nat)
    ensures DecisionId(f, n) != f
  {
    assert |DecisionId(f, n)| > |f|;
  }

  ghost predicate IsDecisionId(s: string) { exists f, n :: s == DecisionId(f, n) }
}
