/**
 The firewall's rule engine. Rules with one destination port sit in a port index; the
 engine merges the packet's bucket with the remaining rules. The specification is a plain
 first-match scan of the rule list.
 */
module RuleEngine {
  import opened Wrappers
  import opened Upkeep
  import RL = RateLimit
  import TH = Threshold

  /** An IPv4 address is its 32-bit value; an IPv6 address its 128-bit value plus 2^32. */
  type Ip = nat
  const V4Count: nat := 0x1_0000_0000
  predicate IsV4(ip: Ip) { ip < V4Count }

  datatype IpNet = V4Net(addr: nat, prefix: nat) | V6Net(addr: nat, prefix: nat)

  function Pow2(n: nat): (p: nat)
    ensures p > 0
  {
    if n == 0 then 1 else 2 * Pow2(n - 1)
  }

  predicate Contains(net: IpNet, ip: Ip) {
    match net
    case V4Net(addr, prefix) => IsV4(ip) && prefix <= 32 && ip / Pow2(32 - prefix) == addr / Pow2(32 - prefix)
    case V6Net(addr, prefix) => !IsV4(ip) && prefix <= 128 && (ip - V4Count) / Pow2(128 - prefix) == addr / Pow2(128 - prefix)
  }

  datatype NetworkMatch = Cidr(net: IpNet) | AliasRef(name: string)
  datatype Alias = Alias(name: string, cidrs: seq<IpNet>)
  datatype Protocol = TcpRule | UdpRule | IcmpRule | AnyRule
  datatype L4Proto = Tcp | Udp | Icmp | Other(number: nat)
  datatype Action = AcceptAction | DropAction | RejectAction
  datatype Verdict = Accept | Drop | Reject
  datatype PortRange = PortRange(lo: nat, hi: nat)
  datatype Rule = Rule(name: string, protocol: Protocol, src: NetworkMatch, dst: NetworkMatch, srcPort: PortRange, dstPort: PortRange,
                       action: Action, ratePps: Option<nat>, autoBlockSecs: Option<nat>, autoBlockThreshold: nat, autoBlockWindow: nat, log: bool)
  datatype Config = Config(defaultPolicy: Action, rules: seq<Rule>, aliases: seq<Alias>, trusted: seq<Ip>)
  datatype Packet = Packet(src: Ip, dst: Ip, proto: L4Proto, srcPort: nat, dstPort: nat)
  datatype Decision = Decision(verdict: Verdict, ruleName: string, log: bool, autoBlock: Option<nat>)

  type Aliases = map<string, seq<IpNet>>

  /** The collected alias table; of two aliases with one name the later wins */
  function AliasTable(aliases: seq<Alias>): Aliases {
    if aliases == [] then map[] else map[aliases[0].name := aliases[0].cidrs] + AliasTable(aliases[1..])
  }

  function ProtoNum(p: Protocol): Option<nat> {
    match p
    case TcpRule => Some(6)
    case UdpRule => Some(17)
    case IcmpRule => Some(1)
    case AnyRule => None
  }

  function PacketProtoNum(p: L4Proto): nat {
    match p
    case Tcp => 6
    case Udp => 17
    case Icmp => 1
    case Other(n) => n
  }

  predicate ProtoMatches(rule: Protocol, pkt: L4Proto) {
    || rule.AnyRule? || (rule.TcpRule? && pkt.Tcp?) || (rule.UdpRule? && pkt.Udp?) || (rule.IcmpRule? && pkt.Icmp?)
  }

  predicate Covers(r: PortRange, port: nat) { r.lo <= port <= r.hi }

  predicate SomeContains(nets: seq<IpNet>, ip: Ip) { exists i :: 0 <= i < |nets| && Contains(nets[i], ip) }

  predicate NetworkMatches(aliases: Aliases, m: NetworkMatch, ip: Ip) {
    match m
    case Cidr(net) => Contains(net, ip)
    case AliasRef(name) => name in aliases && SomeContains(aliases[name], ip)
  }

  predicate RuleMatches(aliases: Aliases, rule: Rule, pkt: Packet) {
    && ProtoMatches(rule.protocol, pkt.proto) && NetworkMatches(aliases, rule.src, pkt.src) && NetworkMatches(aliases, rule.dst, pkt.dst)
    && Covers(rule.srcPort, pkt.srcPort) && Covers(rule.dstPort, pkt.dstPort)
  }

  // What the match tests mean

  lemma SameQuotient(a: nat, b: nat, d: nat)
    requires d > 0
    ensures a / d == b / d <==> b - b % d <= a < b - b % d + d
  {
    var q, r := b / d, b % d;
    assert b == q * d + r && a == (a / d) * d + a % d;
    if a / d < q { QuotientGap(a / d, q, d); }
    if q < a / d { QuotientGap(q, a / d, d); }
  }

  lemma QuotientGap(p: int, q: int, d: nat)
    requires p < q
    ensures p * d + d <= q * d
  {
    Spread(p, q - p - 1, d, q);
  }

  lemma Spread(p: int, k: nat, d: nat, q: int)
    requires q == p + 1 + k
    ensures q * d == p * d + d + k * d && k * d >= 0
  {
  }

  /** A network is a block of 2^(width - prefix) consecutive addresses of its own family, its address rounded down to the block's start. */
  lemma ContainsIsBlock(net: IpNet, ip: Ip)
    ensures net.V4Net? && net.prefix <= 32 ==>
      var size := Pow2(32 - net.prefix); var base := net.addr - net.addr % size;
      (Contains(net, ip) <==> ip < V4Count && base <= ip < base + size)
    ensures net.V6Net? && net.prefix <= 128 ==>
      var size := Pow2(128 - net.prefix); var base := V4Count + (net.addr - net.addr % size);
      (Contains(net, ip) <==> ip >= V4Count && base <= ip < base + size)
    ensures net.prefix > (if net.V4Net? then 32 else 128) ==> !Contains(net, ip)
  {
    if net.V4Net? && net.prefix <= 32 { SameQuotient(ip, net.addr, Pow2(32 - net.prefix)); }
    if net.V6Net? && net.prefix <= 128 && !IsV4(ip) { SameQuotient(ip - V4Count, net.addr, Pow2(128 - net.prefix)); }
  }

  /** A rule's protocol is a protocol number or none; the packet's number must be it. A parsed packet never spells a named protocol by number. */
  lemma ProtocolByNumber(rule: Protocol, pkt: L4Proto)
    requires pkt.Other? ==> pkt.number != 1 && pkt.number != 6 && pkt.number != 17
    ensures ProtoMatches(rule, pkt) <==> ProtoNum(rule).Some? ==> ProtoNum(rule).value == PacketProtoNum(pkt)
  {
  }

  /** An alias stands for the networks of its last definition. */
  lemma {:induction false} LastAliasCounts(aliases: seq<Alias>, i: nat)
    requires i < |aliases| && forall j :: i < j < |aliases| ==> aliases[j].name != aliases[i].name
    ensures aliases[i].name in AliasTable(aliases) && AliasTable(aliases)[aliases[i].name] == aliases[i].cidrs
  {
    if i > 0 {
      LastAliasCounts(aliases[1..], i - 1);
    } else {
      NotDefined(aliases[1..], aliases[0].name);
    }
  }

  lemma {:induction false} NotDefined(aliases: seq<Alias>, name: string)
    requires forall j :: 0 <= j < |aliases| ==> aliases[j].name != name
    ensures name !in AliasTable(aliases)
  {
    if aliases != [] { NotDefined(aliases[1..], name); }
  }

  // ---------------------------------------------------------------------
  // The reference: first match of the list
  // ---------------------------------------------------------------------

  datatype Limiters = Limiters(buckets: RL.Buckets, counts: map<TH.Key, TH.Entry>)
  datatype Outcome = Outcome(decision: Decision, limiters: Limiters)

  function ToVerdict(a: Action): Verdict {
    match a
    case AcceptAction => Accept
    case DropAction => Drop
    case RejectAction => Reject
  }

  function LimitOf(rule: Rule): TH.Limit { TH.Limit(rule.autoBlockThreshold, rule.autoBlockWindow as real) }

  /** The ban a match of the rule calls for now */
  function GateAnswer(counts: map<TH.Key, TH.Entry>, idx: nat, rule: Rule, src: Ip, now: real): Option<nat> {
    if rule.autoBlockSecs.Some? && TH.Fires(TH.At(counts, (idx, src)), LimitOf(rule), now) then rule.autoBlockSecs else None
  }

  function GateCounts(counts: map<TH.Key, TH.Entry>, idx: nat, rule: Rule, src: Ip, now: real): map<TH.Key, TH.Entry> {
    if rule.autoBlockSecs.None? then counts else TH.Recorded(counts, (idx, src), LimitOf(rule), now)
  }

  /** Records the match toward the rule's ban, if it has one */
  function Gated(l: Limiters, idx: nat, rule: Rule, src: Ip, verdict: Verdict, name: string, log: bool, now: real): Outcome {
    Outcome(Decision(verdict, name, log, GateAnswer(l.counts, idx, rule, src, now)), l.(counts := GateCounts(l.counts, idx, rule, src, now)))
  }

  /** What a matching rule does */
  function Applied(l: Limiters, idx: nat, rule: Rule, src: Ip, now: real): Outcome {
    var limited := rule.ratePps.Some? && !RL.Allows(l.buckets, (src, idx), rule.ratePps.value, now);
    var after := if rule.ratePps.Some? then l.(buckets := RL.AfterPacket(l.buckets, (src, idx), rule.ratePps.value, now)) else l;
    if limited then Gated(after, idx, rule, src, Drop, rule.name + ":rate-limit-exceeded", true, now)
    else if rule.action.AcceptAction? then Outcome(Decision(Accept, rule.name, rule.log, None), after)
    else Gated(after, idx, rule, src, ToVerdict(rule.action), rule.name, rule.log, now)
  }

  /** The first rule from `from` on that matches, or the length of the list */
  function FirstMatch(rules: seq<Rule>, aliases: Aliases, pkt: Packet, from: nat): (i: nat)
    requires from <= |rules|
    ensures from <= i <= |rules| && (i < |rules| ==> RuleMatches(aliases, rules[i], pkt))
    ensures forall j :: from <= j < i ==> !RuleMatches(aliases, rules[j], pkt)
    decreases |rules| - from
  {
    if from == |rules| || RuleMatches(aliases, rules[from], pkt) then from else FirstMatch(rules, aliases, pkt, from + 1)
  }

  /** The naive evaluation of a packet */
  function Scan(cfg: Config, aliases: Aliases, l: Limiters, pkt: Packet, now: real): Outcome {
    if pkt.src in cfg.trusted then Outcome(Decision(Accept, "trusted-bypass", false, None), l)
    else
      var i := FirstMatch(cfg.rules, aliases, pkt, 0);
      if i < |cfg.rules| then Applied(l, i, cfg.rules[i], pkt.src, now)
      else Outcome(Decision(ToVerdict(cfg.defaultPolicy), "default-policy", true, None), l)
  }

  // ---------------------------------------------------------------------
  // What a decision says
  // ---------------------------------------------------------------------

  /** The rule matches and none before it does. */
  ghost predicate IsFirst(rules: seq<Rule>, aliases: Aliases, pkt: Packet, i: nat) {
    && i < |rules| && RuleMatches(aliases, rules[i], pkt)
    && forall j :: 0 <= j < i ==> !RuleMatches(aliases, rules[j], pkt)
  }

  ghost predicate NoneMatches(rules: seq<Rule>, aliases: Aliases, pkt: Packet) {
    forall j :: 0 <= j < |rules| ==> !RuleMatches(aliases, rules[j], pkt)
  }

  /** The rule is limited and its bucket for the source holds less than one token. */
  ghost predicate OverRate(l: Limiters, i: nat, rule: Rule, src: Ip, now: real) {
    rule.ratePps.Some? && rule.ratePps.value > 0 && RL.Available(l.buckets, (src, i), rule.ratePps.value, now) < 1.0
  }

  ghost predicate CarriesOut(v: Verdict, a: Action) {
    (v == Accept <==> a == AcceptAction) && (v == Drop <==> a == DropAction) && (v == Reject <==> a == RejectAction)
  }

  /** Verdict, name and logging of a decision by the i-th rule: its action, unless the source is over the rule's rate */
  ghost predicate DecidedBy(l: Limiters, i: nat, rule: Rule, src: Ip, now: real, d: Decision) {
    if OverRate(l, i, rule, src, now) then d.verdict == Drop && d.ruleName == rule.name + ":rate-limit-exceeded" && d.log
    else CarriesOut(d.verdict, rule.action) && d.ruleName == rule.name && d.log == rule.log
  }

  /** A ban comes only with a refusal, lasts as long as the rule says, and is there exactly when the tracker answers true. */
  ghost predicate Banned(l: Limiters, i: nat, rule: Rule, src: Ip, now: real, d: Decision) {
    && (d.autoBlock.Some? <==>
      d.verdict != Accept && rule.autoBlockSecs.Some? && TH.Fires(TH.At(l.counts, (i, src)), TH.Limit(rule.autoBlockThreshold, rule.autoBlockWindow as real), now))
    && (d.autoBlock.Some? ==> d.autoBlock == rule.autoBlockSecs)
  }

  /** A limited rule takes its token, a refusal by a banning rule is counted, and no other entry of either table moves. */
  ghost predicate Charged(l: Limiters, i: nat, rule: Rule, src: Ip, now: real, d: Decision, after: Limiters) {
    && after.buckets == (if rule.ratePps.Some? then RL.AfterPacket(l.buckets, (src, i), rule.ratePps.value, now) else l.buckets)
    && after.counts == (if d.verdict != Accept && rule.autoBlockSecs.Some?
      then TH.Recorded(l.counts, (i, src), TH.Limit(rule.autoBlockThreshold, rule.autoBlockWindow as real), now) else l.counts)
  }

  /** What becomes of one packet: a trusted source passes, the first matching rule decides, or the default policy does. */
  ghost predicate Decides(cfg: Config, aliases: Aliases, l: Limiters, pkt: Packet, now: real, o: Outcome) {
    var Outcome(d, after) := o;
    && (pkt.src in cfg.trusted ==> d == Decision(Accept, "trusted-bypass", false, None) && after == l)
    && (pkt.src !in cfg.trusted ==>
      && (forall i: nat :: IsFirst(cfg.rules, aliases, pkt, i) ==>
        && DecidedBy(l, i, cfg.rules[i], pkt.src, now, d) && Banned(l, i, cfg.rules[i], pkt.src, now, d)
        && Charged(l, i, cfg.rules[i], pkt.src, now, d, after))
      && (NoneMatches(cfg.rules, aliases, pkt) ==>
        CarriesOut(d.verdict, cfg.defaultPolicy) && d.ruleName == "default-policy" && d.log && d.autoBlock == None && after == l))
  }

  lemma AppliedDecides(l: Limiters, i: nat, rule: Rule, src: Ip, now: real)
    ensures var o := Applied(l, i, rule, src, now);
      DecidedBy(l, i, rule, src, now, o.decision) && Banned(l, i, rule, src, now, o.decision) && Charged(l, i, rule, src, now, o.decision, o.limiters)
  {
  }

  lemma FirstIsFirst(rules: seq<Rule>, aliases: Aliases, pkt: Packet, i: nat)
    ensures IsFirst(rules, aliases, pkt, i) <==> i < |rules| && FirstMatch(rules, aliases, pkt, 0) == i
    ensures NoneMatches(rules, aliases, pkt) <==> FirstMatch(rules, aliases, pkt, 0) == |rules|
  {
  }

  /** The scan decides every packet as it should. */
  lemma ScanDecides(cfg: Config, aliases: Aliases, l: Limiters, pkt: Packet, now: real)
    ensures Decides(cfg, aliases, l, pkt, now, Scan(cfg, aliases, l, pkt, now))
  {
    var o := Scan(cfg, aliases, l, pkt, now);
    var first := FirstMatch(cfg.rules, aliases, pkt, 0);
    forall i: nat | pkt.src !in cfg.trusted && IsFirst(cfg.rules, aliases, pkt, i)
      ensures i == first && o == Applied(l, i, cfg.rules[i], pkt.src, now)
    {
      FirstIsFirst(cfg.rules, aliases, pkt, i);
    }
    FirstIsFirst(cfg.rules, aliases, pkt, 0);
    if first < |cfg.rules| { AppliedDecides(l, first, cfg.rules[first], pkt.src, now); }
  }

  /** Nothing else meets that description: it fixes the decision and both tables. */
  lemma DecidesOneWay(cfg: Config, aliases: Aliases, l: Limiters, pkt: Packet, now: real, o: Outcome)
    requires Decides(cfg, aliases, l, pkt, now, o)
    ensures o == Scan(cfg, aliases, l, pkt, now)
  {
    var first := FirstMatch(cfg.rules, aliases, pkt, 0);
    FirstIsFirst(cfg.rules, aliases, pkt, first);
    ScanDecides(cfg, aliases, l, pkt, now);
  }

  // ---------------------------------------------------------------------
  // Streams of packets, with maintenance in between
  // ---------------------------------------------------------------------

  function Swept(l: Limiters, maxIdle: real, now: real): Limiters {
    Limiters(RL.AfterSweep(l.buckets, maxIdle, now), map key | key in l.counts && now - l.counts[key].start < maxIdle :: l.counts[key])
  }

  ghost function AfterOp(cfg: Config, aliases: Aliases, l: Limiters, op: Op<Packet>): Limiters {
    match op
    case Use(pkt, at) => Scan(cfg, aliases, l, pkt, at).limiters
    case Sweep(maxIdle, at) => Swept(l, maxIdle, at)
  }

  /** A packet of the source that the i-th rule is the first to match */
  ghost predicate Falls(cfg: Config, aliases: Aliases, op: Op<Packet>, src: Ip, i: nat) {
    op.Use? && op.what.src == src && src !in cfg.trusted && IsFirst(cfg.rules, aliases, op.what, i)
  }

  /** How many of the source's packets under the i-th rule the stream lets through */
  ghost function Passed(cfg: Config, aliases: Aliases, l: Limiters, ops: seq<Op<Packet>>, src: Ip, i: nat): nat
    decreases |ops|
  {
    if ops == [] then 0
    else
      Passed(cfg, aliases, AfterOp(cfg, aliases, l, ops[0]), ops[1..], src, i)
      + if Falls(cfg, aliases, ops[0], src, i) && Scan(cfg, aliases, l, ops[0].what, ops[0].at).decision.verdict == Accept then 1 else 0
  }

  /** What the packet asks of the token buckets; a packet no limited rule decides asks at rate zero, which moves none */
  ghost function AskOf(cfg: Config, aliases: Aliases, op: Op<Packet>): Op<RL.Ask> {
    match op
    case Sweep(maxIdle, at) => Sweep(maxIdle, at)
    case Use(pkt, at) =>
      var i := FirstMatch(cfg.rules, aliases, pkt, 0);
      if pkt.src !in cfg.trusted && i < |cfg.rules| && cfg.rules[i].ratePps.Some?
      then Use(RL.Ask((pkt.src, i), cfg.rules[i].ratePps.value), at)
      else Use(RL.Ask((pkt.src, |cfg.rules|), 0), at)
  }

  ghost function Asks(cfg: Config, aliases: Aliases, ops: seq<Op<Packet>>): (asks: seq<Op<RL.Ask>>)
    ensures |asks| == |ops| && forall k :: 0 <= k < |ops| ==> asks[k] == AskOf(cfg, aliases, ops[k])
  {
    seq(|ops|, k requires 0 <= k < |ops| => AskOf(cfg, aliases, ops[k]))
  }

  lemma BucketsFollow(cfg: Config, aliases: Aliases, l: Limiters, op: Op<Packet>)
    ensures AfterOp(cfg, aliases, l, op).buckets == RL.Step(l.buckets, AskOf(cfg, aliases, op))
  {
    if op.Use? {
      ScanDecides(cfg, aliases, l, op.what, op.at);
      FirstIsFirst(cfg.rules, aliases, op.what, FirstMatch(cfg.rules, aliases, op.what, 0));
    }
  }

  /** A packet under a limited Accept rule passes exactly when its bucket admits it. */
  lemma PassesIffAdmitted(cfg: Config, aliases: Aliases, l: Limiters, op: Op<Packet>, src: Ip, i: nat)
    requires i < |cfg.rules| && cfg.rules[i].action == AcceptAction && cfg.rules[i].ratePps.Some?
    ensures var ask := AskOf(cfg, aliases, op);
      Falls(cfg, aliases, op, src, i) <==> ask.Use? && ask.what.key == (src, i)
    ensures Falls(cfg, aliases, op, src, i) ==>
      (Scan(cfg, aliases, l, op.what, op.at).decision.verdict == Accept <==> RL.Allows(l.buckets, (src, i), cfg.rules[i].ratePps.value, op.at))
  {
    if op.Use? {
      FirstIsFirst(cfg.rules, aliases, op.what, i);
      ScanDecides(cfg, aliases, l, op.what, op.at);
    }
  }

  /** The engine lets through exactly what the rule's buckets admit. */
  lemma {:induction false} PassedIsAdmitted(cfg: Config, aliases: Aliases, l: Limiters, ops: seq<Op<Packet>>, src: Ip, i: nat)
    requires i < |cfg.rules| && cfg.rules[i].action == AcceptAction && cfg.rules[i].ratePps.Some?
    ensures Passed(cfg, aliases, l, ops, src, i) == RL.Admitted(l.buckets, Asks(cfg, aliases, ops), (src, i))
    decreases |ops|
  {
    if ops != [] {
      var asks := Asks(cfg, aliases, ops);
      assert asks[1..] == Asks(cfg, aliases, ops[1..]);
      BucketsFollow(cfg, aliases, l, ops[0]);
      PassesIffAdmitted(cfg, aliases, l, ops[0], src, i);
      PassedIsAdmitted(cfg, aliases, AfterOp(cfg, aliases, l, ops[0]), ops[1..], src, i);
    }
  }

  lemma AsksAreRegular(cfg: Config, aliases: Aliases, now: real, ops: seq<Op<Packet>>, src: Ip, i: nat)
    requires Ordered(now, ops) && SweptFrom(ops, 1.0) && i < |cfg.rules| && cfg.rules[i].ratePps.Some?
    ensures Ordered(now, Asks(cfg, aliases, ops)) && RL.Regular(Asks(cfg, aliases, ops), (src, i), cfg.rules[i].ratePps.value)
    ensures RL.EndOf(now, Asks(cfg, aliases, ops)) == if ops == [] then now else ops[|ops| - 1].at
  {
    var asks := Asks(cfg, aliases, ops);
    forall k | 0 <= k < |ops| ensures asks[k].at == ops[k].at && RegularAsk(asks[k], (src, i), cfg.rules[i].ratePps.value) {
      assert asks[k] == AskOf(cfg, aliases, ops[k]);
    }
  }

  ghost predicate RegularAsk(ask: Op<RL.Ask>, key: RL.Key, rate: nat) {
    (ask.Use? && ask.what.key == key ==> ask.what.rate == rate) && (ask.Sweep? ==> ask.maxIdle >= 1.0)
  }

  /** Over any stretch of t seconds, of one source's packets under a limited Accept rule at most rate * (1 + t) are accepted. */
  lemma AcceptedAtRate(cfg: Config, aliases: Aliases, l: Limiters, now: real, ops: seq<Op<Packet>>, src: Ip, i: nat, rate: nat)
    requires RL.Sane(l.buckets, now) && Ordered(now, ops) && SweptFrom(ops, 1.0)
    requires i < |cfg.rules| && cfg.rules[i].action == AcceptAction && cfg.rules[i].ratePps == Some(rate) && rate >= 1
    ensures Passed(cfg, aliases, l, ops, src, i) as real <= RL.Inflow(1.0 + ((if ops == [] then now else ops[|ops| - 1].at) - now), rate)
  {
    var asks := Asks(cfg, aliases, ops);
    AsksAreRegular(cfg, aliases, now, ops, src, i);
    PassedIsAdmitted(cfg, aliases, l, ops, src, i);
    RL.BurstBound(l.buckets, now, asks, (src, i), rate);
  }

  // ---------------------------------------------------------------------
  // The index
  // ---------------------------------------------------------------------

  predicate Exact(r: Rule) { ProtoNum(r.protocol).Some? && r.dstPort.lo == r.dstPort.hi }

  function BucketKey(r: Rule): (nat, nat)
    requires Exact(r)
  {
    (ProtoNum(r.protocol).value, r.dstPort.lo)
  }

  type PortIndex = map<(nat, nat), seq<nat>>

  function Bucket(index: PortIndex, key: (nat, nat)): seq<nat> { if key in index then index[key] else [] }

  ghost predicate BelongsIn(rules: seq<Rule>, n: nat, key: (nat, nat), i: nat)
    requires n <= |rules|
  {
    i < n && Exact(rules[i]) && BucketKey(rules[i]) == key
  }

  ghost predicate BelongsNowhere(rules: seq<Rule>, n: nat, i: nat)
    requires n <= |rules|
  {
    i < n && !Exact(rules[i])
  }

  /** Each rule is filed in its bucket or among the wildcards, and nothing else is. */
  ghost predicate Filed(rules: seq<Rule>, n: nat, index: PortIndex, wildcard: seq<nat>)
    requires n <= |rules|
  {
    && (forall key, i: nat :: i in Bucket(index, key) <==> BelongsIn(rules, n, key, i))
    && (forall i: nat :: i in wildcard <==> BelongsNowhere(rules, n, i))
  }

  /** The loop of `Engine::new` */
  method BuildIndex(rules: seq<Rule>) returns (index: PortIndex, wildcard: seq<nat>)
    ensures Filed(rules, |rules|, index, wildcard)
  {
    index, wildcard := map[], [];
    FiledNothing(rules);
    var n := 0;
    while n < |rules|
      invariant 0 <= n <= |rules| && Filed(rules, n, index, wildcard)
    {
      if Exact(rules[n]) {
        var key := BucketKey(rules[n]);
        FiledExact(rules, n, index, wildcard);
        index := index[key := Bucket(index, key) + [n]];
      } else {
        FiledWildcard(rules, n, index, wildcard);
        wildcard := wildcard + [n];
      }
      n := n + 1;
    }
  }

  lemma FiledNothing(rules: seq<Rule>)
    ensures Filed(rules, 0, map[], [])
  {
    assert forall key :: Bucket(map[], key) == [];
  }

  lemma FiledExact(rules: seq<Rule>, n: nat, index: PortIndex, wildcard: seq<nat>)
    requires n < |rules| && Exact(rules[n]) && Filed(rules, n, index, wildcard)
    ensures Filed(rules, n + 1, index[BucketKey(rules[n]) := Bucket(index, BucketKey(rules[n])) + [n]], wildcard)
  {
    var key := BucketKey(rules[n]);
    var after := index[key := Bucket(index, key) + [n]];
    forall k, i: nat ensures i in Bucket(after, k) <==> i in Bucket(index, k) || (k == key && i == n) {}
  }

  lemma FiledWildcard(rules: seq<Rule>, n: nat, index: PortIndex, wildcard: seq<nat>)
    requires n < |rules| && !Exact(rules[n]) && Filed(rules, n, index, wildcard)
    ensures Filed(rules, n + 1, index, wildcard + [n])
  {
  }

  lemma FiledInRange(rules: seq<Rule>, index: PortIndex, wildcard: seq<nat>, key: (nat, nat), i: nat)
    requires Filed(rules, |rules|, index, wildcard) && i in Bucket(index, key) + wildcard
    ensures i < |rules|
  {
  }

  /** No rule outside the packet's bucket and the wildcards can match it. */
  lemma MatchesAreCandidates(rules: seq<Rule>, index: PortIndex, wildcard: seq<nat>, aliases: Aliases, pkt: Packet, i: nat)
    requires Filed(rules, |rules|, index, wildcard) && i < |rules| && RuleMatches(aliases, rules[i], pkt)
    ensures i in Bucket(index, (PacketProtoNum(pkt.proto), pkt.dstPort)) + wildcard
  {
    assert BelongsIn(rules, |rules|, (PacketProtoNum(pkt.proto), pkt.dstPort), i) || BelongsNowhere(rules, |rules|, i);
  }

  ghost predicate Sorted(s: seq<nat>) { forall i, j :: 0 <= i < j < |s| ==> s[i] <= s[j] }

  function Insert(x: nat, s: seq<nat>): seq<nat> { if s == [] || x <= s[0] then [x] + s else [s[0]] + Insert(x, s[1..]) }

  /** `sort_unstable` on rule numbers */
  function Sort(s: seq<nat>): seq<nat> { if s == [] then [] else Insert(s[0], Sort(s[1..])) }

  lemma {:induction false} InsertSorts(x: nat, s: seq<nat>)
    requires Sorted(s)
    ensures Sorted(Insert(x, s)) && forall y :: y in Insert(x, s) <==> y == x || y in s
  {
    if s != [] && x > s[0] {
      InsertSorts(x, s[1..]);
      assert s == [s[0]] + s[1..];
      var t := Insert(x, s[1..]);
      forall k | 0 <= k < |t| ensures s[0] <= t[k] { assert t[k] in t; }
    }
  }

  lemma {:induction false} SortSorts(s: seq<nat>)
    ensures Sorted(Sort(s)) && forall y :: y in Sort(s) <==> y in s
  {
    if s != [] {
      SortSorts(s[1..]);
      InsertSorts(s[0], Sort(s[1..]));
      assert s == [s[0]] + s[1..];
    }
  }

  /** The first candidate of a sorted list that matches is the first match of the whole list. */
  lemma FirstCandidate(rules: seq<Rule>, aliases: Aliases, pkt: Packet, candidates: seq<nat>, k: nat)
    requires Sorted(candidates) && k < |candidates| && candidates[k] < |rules|
    requires forall i: nat :: i < |rules| && RuleMatches(aliases, rules[i], pkt) ==> i in candidates
    requires RuleMatches(aliases, rules[candidates[k]], pkt)
    requires forall j :: 0 <= j < k ==> candidates[j] < |rules| && !RuleMatches(aliases, rules[candidates[j]], pkt)
    ensures FirstMatch(rules, aliases, pkt, 0) == candidates[k]
  {
    var i := FirstMatch(rules, aliases, pkt, 0);
    assert i <= candidates[k];
    var m :| 0 <= m < |candidates| && candidates[m] == i;
  }

  lemma NotMatched(rules: seq<Rule>, aliases: Aliases, pkt: Packet, candidates: seq<nat>, i: int)
    requires forall j :: 0 <= j < |candidates| ==> candidates[j] < |rules| && !RuleMatches(aliases, rules[candidates[j]], pkt)
    requires 0 <= i < |rules| && i in candidates
    ensures !RuleMatches(aliases, rules[i], pkt)
  {
    var m :| 0 <= m < |candidates| && candidates[m] == i;
  }

  lemma NoCandidate(rules: seq<Rule>, aliases: Aliases, pkt: Packet, candidates: seq<nat>)
    requires forall i: nat :: i < |rules| && RuleMatches(aliases, rules[i], pkt) ==> i in candidates
    requires forall j :: 0 <= j < |candidates| ==> candidates[j] < |rules| && !RuleMatches(aliases, rules[candidates[j]], pkt)
    ensures FirstMatch(rules, aliases, pkt, 0) == |rules|
  {
    var i := FirstMatch(rules, aliases, pkt, 0);
    if i < |rules| && i in candidates { NotMatched(rules, aliases, pkt, candidates, i); }
  }

  // ---------------------------------------------------------------------
  // The engine
  // ---------------------------------------------------------------------

  class Engine {
    const cfg: Config
    const aliases: Aliases
    const index: PortIndex
    const wildcard: seq<nat>
    const limiter: RL.RateLimiter
    const tracker: TH.ThresholdTracker

    ghost predicate Valid() { Filed(cfg.rules, |cfg.rules|, index, wildcard) && aliases == AliasTable(cfg.aliases) }

    ghost function State(): Limiters reads limiter, tracker { Limiters(limiter.buckets, tracker.counts) }

    constructor (cfg: Config)
      ensures Valid() && this.cfg == cfg && fresh(limiter) && fresh(tracker) && State() == Limiters(map[], map[])
    {
      var built, rest := BuildIndex(cfg.rules);
      this.cfg, aliases, index, wildcard := cfg, AliasTable(cfg.aliases), built, rest;
      limiter := new RL.RateLimiter();
      tracker := new TH.ThresholdTracker();
    }

    /** The bucket of the packet's protocol and port, merged with the wildcards in rule order */
    method Candidates(pkt: Packet) returns (candidates: seq<nat>)
      requires Valid()
      ensures Sorted(candidates) && forall k :: 0 <= k < |candidates| ==> candidates[k] < |cfg.rules|
      ensures forall i: nat :: i < |cfg.rules| && RuleMatches(aliases, cfg.rules[i], pkt) ==> i in candidates
    {
      var merged := Bucket(index, (PacketProtoNum(pkt.proto), pkt.dstPort)) + wildcard;
      candidates := Sort(merged);
      SortSorts(merged);
      forall i: nat | i < |cfg.rules| && RuleMatches(aliases, cfg.rules[i], pkt) ensures i in candidates {
        MatchesAreCandidates(cfg.rules, index, wildcard, aliases, pkt, i);
      }
      forall k | 0 <= k < |candidates| ensures candidates[k] < |cfg.rules| {
        assert candidates[k] in candidates;
        FiledInRange(cfg.rules, index, wildcard, (PacketProtoNum(pkt.proto), pkt.dstPort), candidates[k]);
      }
    }

    /** Indexed evaluation decides like the linear scan and leaves both limiters as it would. */
    method Evaluate(pkt: Packet, now: real) returns (d: Decision)
      requires Valid()
      modifies limiter, tracker
      ensures Outcome(d, State()) == Scan(cfg, aliases, old(State()), pkt, now)
      ensures Decides(cfg, aliases, old(State()), pkt, now, Outcome(d, State()))
    {
      if pkt.src in cfg.trusted {
        ScanDecides(cfg, aliases, State(), pkt, now);
        return Decision(Accept, "trusted-bypass", false, None);
      }
      var candidates := Candidates(pkt);
      var k := 0;
      while k < |candidates|
        invariant 0 <= k <= |candidates| && State() == old(State())
        invariant forall j :: 0 <= j < k ==> !RuleMatches(aliases, cfg.rules[candidates[j]], pkt)
      {
        if RuleMatches(aliases, cfg.rules[candidates[k]], pkt) {
          FirstCandidate(cfg.rules, aliases, pkt, candidates, k);
          d := Apply(candidates[k], pkt.src, now);
          ScanDecides(cfg, aliases, old(State()), pkt, now);
          return;
        }
        k := k + 1;
      }
      NoCandidate(cfg.rules, aliases, pkt, candidates);
      ScanDecides(cfg, aliases, State(), pkt, now);
      return Decision(ToVerdict(cfg.defaultPolicy), "default-policy", true, None);
    }

    /** The loop body past the match test */
    method Apply(idx: nat, src: Ip, now: real) returns (d: Decision)
      requires idx < |cfg.rules|
      modifies limiter, tracker
      ensures Outcome(d, State()) == Applied(old(State()), idx, cfg.rules[idx], src, now)
      ensures DecidedBy(old(State()), idx, cfg.rules[idx], src, now, d) && Banned(old(State()), idx, cfg.rules[idx], src, now, d)
    {
      AppliedDecides(State(), idx, cfg.rules[idx], src, now);
      var rule := cfg.rules[idx];
      if rule.ratePps.Some? {
        var ok := limiter.Allow(src, idx, rule.ratePps.value, now);
        if !ok {
          var block := GateAutoBlock(idx, rule, src, now);
          return Decision(Drop, rule.name + ":rate-limit-exceeded", true, block);
        }
      }
      var verdict := ToVerdict(rule.action);
      var block := None;
      if verdict != Accept { block := GateAutoBlock(idx, rule, src, now); }
      return Decision(verdict, rule.name, rule.log, block);
    }

    method GateAutoBlock(idx: nat, rule: Rule, src: Ip, now: real) returns (block: Option<nat>)
      modifies tracker
      ensures block == GateAnswer(old(tracker.counts), idx, rule, src, now)
      ensures tracker.counts == GateCounts(old(tracker.counts), idx, rule, src, now)
    {
      if rule.autoBlockSecs.None? { return None; }
      var reached := tracker.RecordAndCheck(idx, src, LimitOf(rule), now);
      return if reached then rule.autoBlockSecs else None;
    }

    /** Five minutes without use and a bucket or a window goes. */
    method PeriodicMaintenance(now: real)
      modifies limiter, tracker
      ensures State() == Swept(old(State()), 300.0, now)
    {
      limiter.Sweep(300.0, now);
      tracker.Sweep(300.0, now);
      assert forall key :: key in tracker.counts <==> TH.At(tracker.counts, key).Some?;
      assert limiter.buckets == RL.AfterSweep(old(limiter.buckets), 300.0, now);
      assert tracker.counts == Swept(old(State()), 300.0, now).counts;
    }
  }
}
