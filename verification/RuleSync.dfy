/**
 The bridge that writes confirmed-malicious hosts into the firewall's config: one alias
 holding the hosts, and one blocking rule kept at the top of the rule list.
 */
module RuleSync {
  import opened Wrappers
  import opened RuleEngine
  import RL = RateLimit
  import TH = Threshold

  const MaliciousAlias := "asd_confirmed_malicious"
  const MaliciousRule := "asd-confirmed-malicious-block"

  // ---------------------------------------------------------------------
  // The rewrite
  // ---------------------------------------------------------------------

  /** `"{ip}/32"`, also for an IPv6 address */
  function HostNet(ip: Ip): IpNet { if IsV4(ip) then V4Net(ip, 32) else V6Net(ip - V4Count, 32) }

  function Dedup(s: seq<Ip>): seq<Ip> {
    if |s| < 2 then s else if s[0] == s[1] then Dedup(s[1..]) else [s[0]] + Dedup(s[1..])
  }

  function Nets(s: seq<Ip>): seq<IpNet> { seq(|s|, i requires 0 <= i < |s| => HostNet(s[i])) }

  /** The sorted, duplicate-free CIDR list */
  function Canonical(hosts: seq<Ip>): seq<IpNet> { Nets(Dedup(Sort(hosts))) }

  /** The first alias of the name gets the new list; without one, an alias is appended */
  function WithAlias(aliases: seq<Alias>, cidrs: seq<IpNet>): seq<Alias> {
    if aliases == [] then [Alias(MaliciousAlias, cidrs)]
    else if aliases[0].name == MaliciousAlias then [aliases[0].(cidrs := cidrs)] + aliases[1..]
    else [aliases[0]] + WithAlias(aliases[1..], cidrs)
  }

  /** The rule as the config loader reads it back, defaults filled in */
  function SyncRule(): Rule {
    Rule(MaliciousRule, AnyRule, AliasRef(MaliciousAlias), Cidr(V4Net(0, 0)), PortRange(0, 65535), PortRange(0, 65535),
         DropAction, None, None, 1, 60, true)
  }

  /** Every rule but earlier copies of the sync rule, in order */
  function Others(rules: seq<Rule>): seq<Rule> {
    if rules == [] then []
    else if rules[|rules| - 1].name == MaliciousRule then Others(rules[..|rules| - 1])
    else Others(rules[..|rules| - 1]) + [rules[|rules| - 1]]
  }

  function Synced(cfg: Config, hosts: seq<Ip>): Config {
    cfg.(aliases := WithAlias(cfg.aliases, Canonical(hosts)), rules := [SyncRule()] + Others(cfg.rules))
  }

  /** The config document, edited in place */
  class Document {
    var aliases: seq<Alias>
    var rules: seq<Rule>

    method UpsertAlias(hosts: seq<Ip>)
      modifies this`aliases
      ensures aliases == WithAlias(old(aliases), Canonical(hosts))
    {
      var cidrs := Canonical(hosts);
      var i := 0;
      while i < |aliases| && aliases[i].name != MaliciousAlias
        invariant 0 <= i <= |aliases| && aliases == old(aliases)
        invariant WithAlias(aliases, cidrs) == aliases[..i] + WithAlias(aliases[i..], cidrs)
      {
        assert aliases[i..][1..] == aliases[i + 1..] && aliases[..i] + [aliases[i]] == aliases[..i + 1];
        i := i + 1;
      }
      if i < |aliases| {
        assert aliases[i..][1..] == aliases[i + 1..];
        aliases := aliases[..i] + [aliases[i].(cidrs := cidrs)] + aliases[i + 1..];
      } else {
        aliases := aliases + [Alias(MaliciousAlias, cidrs)];
      }
    }

    method UpsertBlockingRule()
      modifies this`rules
      ensures rules == [SyncRule()] + Others(old(rules))
    {
      var kept, i := [], 0;
      while i < |rules|
        invariant 0 <= i <= |rules| && rules == old(rules) && kept == Others(rules[..i])
      {
        assert rules[..i + 1][..i] == rules[..i];
        if rules[i].name != MaliciousRule { kept := kept + [rules[i]]; }
        i := i + 1;
      }
      assert rules[..i] == rules;
      rules := [SyncRule()] + kept;
    }
  }

  // ---------------------------------------------------------------------
  // The rewritten config is valid, and rewriting again changes nothing
  // ---------------------------------------------------------------------

  ghost predicate Named(aliases: seq<Alias>, name: string) { exists i :: 0 <= i < |aliases| && aliases[i].name == name }

  ghost predicate Unique(aliases: seq<Alias>) { forall i, j :: 0 <= i < j < |aliases| ==> aliases[i].name != aliases[j].name }

  ghost predicate RuleOk(r: Rule, aliases: seq<Alias>) {
    && r.srcPort.lo <= r.srcPort.hi && r.dstPort.lo <= r.dstPort.hi
    && (r.src.AliasRef? ==> Named(aliases, r.src.name)) && (r.dst.AliasRef? ==> Named(aliases, r.dst.name))
  }

  /** `Config::validate` */
  ghost predicate ValidConfig(cfg: Config) {
    Unique(cfg.aliases) && forall i :: 0 <= i < |cfg.rules| ==> RuleOk(cfg.rules[i], cfg.aliases)
  }

  lemma NamedCons(a: Alias, rest: seq<Alias>, name: string)
    ensures Named([a] + rest, name) <==> a.name == name || Named(rest, name)
  {
    var all := [a] + rest;
    assert all[0] == a;
    if Named(rest, name) {
      var i :| 0 <= i < |rest| && rest[i].name == name;
      assert all[i + 1].name == name;
    }
  }

  lemma UniqueCons(a: Alias, rest: seq<Alias>)
    ensures Unique([a] + rest) <==> Unique(rest) && !Named(rest, a.name)
  {
    var all := [a] + rest;
    assert all[0] == a && forall i :: 0 <= i < |rest| ==> rest[i] == all[i + 1];
  }

  /** The rewrite defines the sync alias, keeps every other name, and keeps names unique. */
  lemma {:induction false} WithAliasNames(aliases: seq<Alias>, cidrs: seq<IpNet>, name: string)
    ensures Named(WithAlias(aliases, cidrs), name) <==> Named(aliases, name) || name == MaliciousAlias
    ensures Unique(aliases) ==> Unique(WithAlias(aliases, cidrs))
  {
    if aliases == [] {
      NamedCons(Alias(MaliciousAlias, cidrs), [], name);
      assert WithAlias(aliases, cidrs) == [Alias(MaliciousAlias, cidrs)] + [];
    } else {
      var a, rest := aliases[0], aliases[1..];
      assert aliases == [a] + rest;
      NamedCons(a, rest, name);
      UniqueCons(a, rest);
      if a.name == MaliciousAlias {
        NamedCons(a.(cidrs := cidrs), rest, name);
        UniqueCons(a.(cidrs := cidrs), rest);
      } else {
        WithAliasNames(rest, cidrs, name);
        WithAliasNames(rest, cidrs, a.name);
        NamedCons(a, WithAlias(rest, cidrs), name);
        UniqueCons(a, WithAlias(rest, cidrs));
      }
    }
  }

  lemma {:induction false} OthersAre(rules: seq<Rule>)
    ensures forall i :: 0 <= i < |Others(rules)| ==> Others(rules)[i] in rules && Others(rules)[i].name != MaliciousRule
  {
    if rules != [] { OthersAre(rules[..|rules| - 1]); }
  }

  lemma {:induction false} OthersKeep(rules: seq<Rule>)
    requires forall i :: 0 <= i < |rules| ==> rules[i].name != MaliciousRule
    ensures Others(rules) == rules
  {
    if rules != [] {
      OthersKeep(rules[..|rules| - 1]);
      assert rules == rules[..|rules| - 1] + [rules[|rules| - 1]];
    }
  }

  lemma {:induction false} OthersAppend(front: seq<Rule>, back: seq<Rule>)
    ensures Others(front + back) == Others(front) + Others(back)
  {
    if back == [] {
      assert front + back == front;
    } else {
      var all := front + back;
      assert all[..|all| - 1] == front + back[..|back| - 1];
      OthersAppend(front, back[..|back| - 1]);
    }
  }

  /** The rewritten config loads: ports in order, alias names unique, every alias defined. */
  lemma SyncKeepsValid(cfg: Config, hosts: seq<Ip>)
    requires ValidConfig(cfg)
    ensures ValidConfig(Synced(cfg, hosts))
  {
    var cidrs := Canonical(hosts);
    var after := Synced(cfg, hosts);
    WithAliasNames(cfg.aliases, cidrs, MaliciousAlias);
    OthersAre(cfg.rules);
    forall i | 0 <= i < |after.rules| ensures RuleOk(after.rules[i], after.aliases) {
      if i > 0 { StillOk(cfg, cidrs, Others(cfg.rules)[i - 1]); }
    }
  }

  lemma StillOk(cfg: Config, cidrs: seq<IpNet>, r: Rule)
    requires ValidConfig(cfg) && r in cfg.rules
    ensures RuleOk(r, WithAlias(cfg.aliases, cidrs))
  {
    if r.src.AliasRef? { WithAliasNames(cfg.aliases, cidrs, r.src.name); }
    if r.dst.AliasRef? { WithAliasNames(cfg.aliases, cidrs, r.dst.name); }
  }

  lemma {:induction false} WithAliasTwice(aliases: seq<Alias>, cidrs: seq<IpNet>, again: seq<IpNet>)
    ensures WithAlias(WithAlias(aliases, cidrs), again) == WithAlias(aliases, again)
  {
    if aliases != [] && aliases[0].name != MaliciousAlias {
      WithAliasTwice(aliases[1..], cidrs, again);
      assert WithAlias(aliases, cidrs)[1..] == WithAlias(aliases[1..], cidrs);
    }
  }

  /** Only the last sync counts; in particular syncing twice is syncing once. */
  lemma SyncTwice(cfg: Config, before: seq<Ip>, hosts: seq<Ip>)
    ensures Synced(Synced(cfg, before), hosts) == Synced(cfg, hosts)
    ensures Others(Synced(cfg, hosts).rules) == Others(cfg.rules)
  {
    WithAliasTwice(cfg.aliases, Canonical(before), Canonical(hosts));
    OthersAre(cfg.rules);
    OthersKeep(Others(cfg.rules));
    OthersAppend([SyncRule()], Others(cfg.rules));
    assert [SyncRule()][..0] == [];
    assert Others([SyncRule()]) == [];
  }

  // ---------------------------------------------------------------------
  // What the rewritten config means
  // ---------------------------------------------------------------------

  lemma {:induction false} DedupKeeps(s: seq<Ip>, x: Ip)
    ensures x in Dedup(s) <==> x in s
  {
    if |s| >= 2 {
      DedupKeeps(s[1..], x);
      assert s == [s[0]] + s[1..];
    }
  }

  lemma CanonicalHas(hosts: seq<Ip>, x: Ip)
    ensures x in Dedup(Sort(hosts)) <==> x in hosts
  {
    SortSorts(hosts);
    DedupKeeps(Sort(hosts), x);
  }

  lemma HostNetExact(host: Ip, ip: Ip)
    requires IsV4(ip)
    ensures Contains(HostNet(host), ip) <==> host == ip
  {
    assert Pow2(0) == 1;
  }

  /** For an IPv4 source the alias holds exactly the listed hosts. */
  lemma CanonicalMeans(hosts: seq<Ip>, ip: Ip)
    requires IsV4(ip)
    ensures SomeContains(Canonical(hosts), ip) <==> ip in hosts
  {
    var list, nets := Dedup(Sort(hosts)), Canonical(hosts);
    CanonicalHas(hosts, ip);
    if ip in hosts {
      var i :| 0 <= i < |list| && list[i] == ip;
      HostNetExact(ip, ip);
      assert Contains(nets[i], ip);
    }
    if SomeContains(nets, ip) {
      var i :| 0 <= i < |nets| && Contains(nets[i], ip);
      HostNetExact(list[i], ip);
      assert list[i] in list;
    }
  }

  lemma {:induction false} TableNames(aliases: seq<Alias>, name: string)
    ensures name in AliasTable(aliases) <==> Named(aliases, name)
  {
    if aliases != [] {
      TableNames(aliases[1..], name);
      assert aliases == [aliases[0]] + aliases[1..];
      NamedCons(aliases[0], aliases[1..], name);
    }
  }

  lemma TableReplace(t: Aliases, name: string, before: seq<IpNet>, cidrs: seq<IpNet>)
    requires name !in t
    ensures map[name := cidrs] + t == (map[name := before] + t)[name := cidrs]
  {
  }

  lemma TableSkip(t: Aliases, a: Alias, name: string, cidrs: seq<IpNet>)
    requires a.name != name
    ensures map[a.name := a.cidrs] + t[name := cidrs] == (map[a.name := a.cidrs] + t)[name := cidrs]
  {
  }

  lemma {:induction false} TableWith(aliases: seq<Alias>, cidrs: seq<IpNet>)
    requires Unique(aliases)
    ensures AliasTable(WithAlias(aliases, cidrs)) == AliasTable(aliases)[MaliciousAlias := cidrs]
  {
    if aliases == [] {
      assert [Alias(MaliciousAlias, cidrs)][1..] == [];
    } else {
      var a, rest, after := aliases[0], aliases[1..], WithAlias(aliases, cidrs);
      assert aliases == [a] + rest;
      UniqueCons(a, rest);
      if a.name == MaliciousAlias {
        TableNames(rest, MaliciousAlias);
        assert after[0] == a.(cidrs := cidrs) && after[1..] == rest;
        TableReplace(AliasTable(rest), MaliciousAlias, a.cidrs, cidrs);
      } else {
        TableWith(rest, cidrs);
        assert after[0] == a && after[1..] == WithAlias(rest, cidrs);
        TableSkip(AliasTable(rest), a, MaliciousAlias, cidrs);
      }
    }
  }

  ghost predicate V4Packet(pkt: Packet) { IsV4(pkt.src) && IsV4(pkt.dst) && PortsOk(pkt) }
  ghost predicate PortsOk(pkt: Packet) { pkt.srcPort <= 65535 && pkt.dstPort <= 65535 }

  lemma AnyV4(ip: Ip)
    ensures Contains(V4Net(0, 0), ip) <==> IsV4(ip)
  {
    assert Pow2(32) == V4Count by { Pow2At32(); }
  }

  lemma Pow2At32()
    ensures Pow2(32) == 0x1_0000_0000
  {
    assert Pow2(8) == 256;
    Pow2Adds(8, 8);
    Pow2Adds(16, 16);
  }

  lemma {:induction false} Pow2Adds(m: nat, n: nat)
    ensures Pow2(m + n) == Pow2(m) * Pow2(n)
  {
    if m > 0 {
      Pow2Adds(m - 1, n);
      assert 2 * (Pow2(m - 1) * Pow2(n)) == (2 * Pow2(m - 1)) * Pow2(n);
    }
  }

  /** The rule matches exactly the packets to an IPv4 address whose source the alias holds. */
  lemma SyncRuleMatches(cfg: Config, hosts: seq<Ip>, pkt: Packet)
    requires Unique(cfg.aliases) && PortsOk(pkt)
    ensures RuleMatches(AliasTable(Synced(cfg, hosts).aliases), SyncRule(), pkt) <==> IsV4(pkt.dst) && SomeContains(Canonical(hosts), pkt.src)
  {
    TableWith(cfg.aliases, Canonical(hosts));
    AnyV4(pkt.dst);
  }

  /** A packet to an IPv6 address is never stopped by the rule, whoever sent it. */
  lemma Ipv6Passes(cfg: Config, hosts: seq<Ip>, pkt: Packet)
    requires Unique(cfg.aliases) && PortsOk(pkt) && !IsV4(pkt.dst)
    ensures !RuleMatches(AliasTable(Synced(cfg, hosts).aliases), SyncRule(), pkt)
  {
    SyncRuleMatches(cfg, hosts, pkt);
  }

  ghost predicate AvoidsAlias(r: Rule) { r.src != AliasRef(MaliciousAlias) && r.dst != AliasRef(MaliciousAlias) }

  /** The config as it was, less any earlier copy of the sync rule */
  function Unsynced(cfg: Config): Config { cfg.(rules := Others(cfg.rules)) }

  ghost predicate Independent(cfg: Config) { forall i :: 0 <= i < |Others(cfg.rules)| ==> AvoidsAlias(Others(cfg.rules)[i]) }

  lemma MatchesAlike(aliases: Aliases, cidrs: seq<IpNet>, r: Rule, pkt: Packet)
    requires AvoidsAlias(r)
    ensures RuleMatches(aliases[MaliciousAlias := cidrs], r, pkt) <==> RuleMatches(aliases, r, pkt)
  {
  }

  /** Past the sync rule the two lists are scanned in step, one position apart. */
  lemma {:induction false} ScansAlike(cfg: Config, cidrs: seq<IpNet>, aliases: Aliases, pkt: Packet, from: nat)
    requires Independent(cfg) && from <= |Others(cfg.rules)|
    ensures FirstMatch([SyncRule()] + Others(cfg.rules), aliases[MaliciousAlias := cidrs], pkt, from + 1) == FirstMatch(Others(cfg.rules), aliases, pkt, from) + 1
    decreases |Others(cfg.rules)| - from
  {
    if from < |Others(cfg.rules)| {
      MatchesAlike(aliases, cidrs, Others(cfg.rules)[from], pkt);
      ScansAlike(cfg, cidrs, aliases, pkt, from + 1);
    }
  }

  // ---------------------------------------------------------------------
  // Limiter state, one rule number apart
  // ---------------------------------------------------------------------

  function BucketAt(buckets: RL.Buckets, key: RL.Key): Option<RL.Bucket> { if key in buckets then Some(buckets[key]) else None }

  ghost predicate SameFor(l: Limiters, l': Limiters, src: Ip, i: nat) {
    && BucketAt(l.buckets, (src, i)) == BucketAt(l'.buckets, (src, i + 1))
    && TH.At(l.counts, (i, src)) == TH.At(l'.counts, (i + 1, src))
  }

  /** For unlisted sources the second state is the first with every rule number moved up by one. */
  ghost predicate Shifted(l: Limiters, l': Limiters, hosts: seq<Ip>) {
    forall src: Ip, i: nat :: src !in hosts ==> SameFor(l, l', src, i)
  }

  /** Applying a rule looks at and changes one key of each limiter only. */
  lemma AppliedElsewhere(l: Limiters, idx: nat, rule: Rule, src: Ip, now: real, other: Ip, i: nat)
    requires (other, i) != (src, idx)
    ensures var after := Applied(l, idx, rule, src, now).limiters;
      BucketAt(after.buckets, (other, i)) == BucketAt(l.buckets, (other, i)) && TH.At(after.counts, (i, other)) == TH.At(l.counts, (i, other))
  {
  }

  lemma BucketsAlike(b: RL.Buckets, b': RL.Buckets, key: RL.Key, key': RL.Key, rate: nat, now: real)
    requires BucketAt(b, key) == BucketAt(b', key')
    ensures RL.Allows(b, key, rate, now) == RL.Allows(b', key', rate, now)
    ensures BucketAt(RL.AfterPacket(b, key, rate, now), key) == BucketAt(RL.AfterPacket(b', key', rate, now), key')
  {
  }

  lemma CountsAlike(c: map<TH.Key, TH.Entry>, c': map<TH.Key, TH.Entry>, idx: nat, rule: Rule, src: Ip, now: real)
    requires TH.At(c, (idx, src)) == TH.At(c', (idx + 1, src))
    ensures GateAnswer(c, idx, rule, src, now) == GateAnswer(c', idx + 1, rule, src, now)
    ensures TH.At(GateCounts(c, idx, rule, src, now), (idx, src)) == TH.At(GateCounts(c', idx + 1, rule, src, now), (idx + 1, src))
  {
  }

  lemma AppliedAlike(l: Limiters, l': Limiters, idx: nat, rule: Rule, src: Ip, now: real)
    requires SameFor(l, l', src, idx)
    ensures Applied(l, idx, rule, src, now).decision == Applied(l', idx + 1, rule, src, now).decision
    ensures SameFor(Applied(l, idx, rule, src, now).limiters, Applied(l', idx + 1, rule, src, now).limiters, src, idx)
  {
    if rule.ratePps.Some? { BucketsAlike(l.buckets, l'.buckets, (src, idx), (src, idx + 1), rule.ratePps.value, now); }
    CountsAlike(l.counts, l'.counts, idx, rule, src, now);
  }

  lemma AppliedShifted(l: Limiters, l': Limiters, hosts: seq<Ip>, idx: nat, rule: Rule, src: Ip, now: real)
    requires Shifted(l, l', hosts) && src !in hosts
    ensures Applied(l, idx, rule, src, now).decision == Applied(l', idx + 1, rule, src, now).decision
    ensures Shifted(Applied(l, idx, rule, src, now).limiters, Applied(l', idx + 1, rule, src, now).limiters, hosts)
  {
    var a, a' := Applied(l, idx, rule, src, now).limiters, Applied(l', idx + 1, rule, src, now).limiters;
    assert SameFor(l, l', src, idx);
    AppliedAlike(l, l', idx, rule, src, now);
    forall other: Ip, i: nat | other !in hosts ensures SameFor(a, a', other, i) {
      assert SameFor(l, l', other, i);
      if (other, i) != (src, idx) {
        AppliedElsewhere(l, idx, rule, src, now, other, i);
        AppliedElsewhere(l', idx + 1, rule, src, now, other, i + 1);
      }
    }
  }

  lemma ListedShifted(l: Limiters, l': Limiters, hosts: seq<Ip>, idx: nat, rule: Rule, src: Ip, now: real)
    requires Shifted(l, l', hosts) && src in hosts
    ensures Shifted(Applied(l, idx, rule, src, now).limiters, l', hosts)
  {
    var a := Applied(l, idx, rule, src, now).limiters;
    forall other: Ip, i: nat | other !in hosts ensures SameFor(a, l', other, i) {
      assert SameFor(l, l', other, i);
      AppliedElsewhere(l, idx, rule, src, now, other, i);
    }
  }

  // ---------------------------------------------------------------------
  // Runs of packets through both engines
  // ---------------------------------------------------------------------

  function Dropped(): Decision { Decision(Drop, MaliciousRule, true, None) }

  /** A listed, untrusted IPv4 source is dropped by the sync rule, and no limiter moves. */
  lemma ListedIsDropped(cfg: Config, hosts: seq<Ip>, l: Limiters, pkt: Packet, now: real)
    requires ValidConfig(cfg) && V4Packet(pkt) && pkt.src in hosts && pkt.src !in cfg.trusted
    ensures var after := Synced(cfg, hosts); Scan(after, AliasTable(after.aliases), l, pkt, now) == Outcome(Dropped(), l)
  {
    SyncRuleMatches(cfg, hosts, pkt);
    CanonicalMeans(hosts, pkt.src);
    assert Synced(cfg, hosts).rules[0] == SyncRule();
  }

  lemma UnlistedScan(cfg: Config, hosts: seq<Ip>, pkt: Packet)
    requires ValidConfig(cfg) && Independent(cfg) && V4Packet(pkt) && pkt.src !in hosts
    ensures var after := Synced(cfg, hosts);
      FirstMatch(after.rules, AliasTable(after.aliases), pkt, 0) == FirstMatch(Others(cfg.rules), AliasTable(cfg.aliases), pkt, 0) + 1
  {
    SyncRuleMatches(cfg, hosts, pkt);
    CanonicalMeans(hosts, pkt.src);
    TableWith(cfg.aliases, Canonical(hosts));
    ScansAlike(cfg, Canonical(hosts), AliasTable(cfg.aliases), pkt, 0);
  }

  /** One packet through the old rules and through the rewritten ones */
  lemma OnePacket(cfg: Config, hosts: seq<Ip>, l: Limiters, l': Limiters, pkt: Packet, now: real)
    requires ValidConfig(cfg) && Independent(cfg) && V4Packet(pkt) && Shifted(l, l', hosts)
    ensures var before := Scan(Unsynced(cfg), AliasTable(cfg.aliases), l, pkt, now);
      var after := Scan(Synced(cfg, hosts), AliasTable(Synced(cfg, hosts).aliases), l', pkt, now);
      && Shifted(before.limiters, after.limiters, hosts)
      && after.decision == if pkt.src in hosts && pkt.src !in cfg.trusted then Dropped() else before.decision
  {
    var i := FirstMatch(Others(cfg.rules), AliasTable(cfg.aliases), pkt, 0);
    if pkt.src in cfg.trusted {
    } else if pkt.src in hosts {
      ListedIsDropped(cfg, hosts, l', pkt, now);
      if i < |Others(cfg.rules)| { ListedShifted(l, l', hosts, i, Others(cfg.rules)[i], pkt.src, now); }
    } else {
      UnlistedScan(cfg, hosts, pkt);
      if i < |Others(cfg.rules)| { AppliedShifted(l, l', hosts, i, Others(cfg.rules)[i], pkt.src, now); }
    }
  }

  datatype Arrival = Arrival(pkt: Packet, now: real)

  /** The decisions an engine takes on a stream of packets */
  ghost function Decisions(cfg: Config, l: Limiters, stream: seq<Arrival>): seq<Decision>
    decreases |stream|
  {
    if stream == [] then []
    else
      var o := Scan(cfg, AliasTable(cfg.aliases), l, stream[0].pkt, stream[0].now);
      [o.decision] + Decisions(cfg, o.limiters, stream[1..])
  }

  ghost function Expected(cfg: Config, hosts: seq<Ip>, l: Limiters, stream: seq<Arrival>): seq<Decision>
    decreases |stream|
  {
    if stream == [] then []
    else
      var o := Scan(Unsynced(cfg), AliasTable(cfg.aliases), l, stream[0].pkt, stream[0].now);
      [if stream[0].pkt.src in hosts && stream[0].pkt.src !in cfg.trusted then Dropped() else o.decision]
      + Expected(cfg, hosts, o.limiters, stream[1..])
  }

  lemma {:induction false} StreamMeaning(cfg: Config, hosts: seq<Ip>, l: Limiters, l': Limiters, stream: seq<Arrival>)
    requires ValidConfig(cfg) && Independent(cfg) && Shifted(l, l', hosts)
    requires forall k :: 0 <= k < |stream| ==> V4Packet(stream[k].pkt)
    ensures Decisions(Synced(cfg, hosts), l', stream) == Expected(cfg, hosts, l, stream)
    decreases |stream|
  {
    if stream != [] {
      OnePacket(cfg, hosts, l, l', stream[0].pkt, stream[0].now);
      StreamMeaning(cfg, hosts,
                    Scan(Unsynced(cfg), AliasTable(cfg.aliases), l, stream[0].pkt, stream[0].now).limiters,
                    Scan(Synced(cfg, hosts), AliasTable(Synced(cfg, hosts).aliases), l', stream[0].pkt, stream[0].now).limiters,
                    stream[1..]);
    }
  }

  lemma {:induction false} ExpectedAt(cfg: Config, hosts: seq<Ip>, l: Limiters, stream: seq<Arrival>, k: nat)
    requires k < |stream|
    ensures |Expected(cfg, hosts, l, stream)| == |Decisions(Unsynced(cfg), l, stream)| == |stream|
    ensures Expected(cfg, hosts, l, stream)[k] ==
      if stream[k].pkt.src in hosts && stream[k].pkt.src !in cfg.trusted then Dropped() else Decisions(Unsynced(cfg), l, stream)[k]
    decreases |stream|
  {
    var o := Scan(Unsynced(cfg), AliasTable(cfg.aliases), l, stream[0].pkt, stream[0].now);
    if |stream| > 1 { ExpectedAt(cfg, hosts, o.limiters, stream[1..], if k > 0 then k - 1 else 0); }
  }

  /**
   From fresh engines, on every stream of IPv4 packets: the rewritten config drops each
   packet of a listed untrusted source, and decides every other packet as the old one.
   */
  lemma SyncMeaning(cfg: Config, hosts: seq<Ip>, stream: seq<Arrival>, k: nat)
    requires ValidConfig(cfg) && Independent(cfg) && k < |stream|
    requires forall k :: 0 <= k < |stream| ==> V4Packet(stream[k].pkt)
    ensures var start := Limiters(map[], map[]);
      var before, after := Decisions(Unsynced(cfg), start, stream), Decisions(Synced(cfg, hosts), start, stream);
      && |before| == |after| == |stream|
      && after[k] == if stream[k].pkt.src in hosts && stream[k].pkt.src !in cfg.trusted then Dropped() else before[k]
  {
    var l := Limiters(map[], map[]);
    assert Shifted(l, l, hosts);
    StreamMeaning(cfg, hosts, l, l, stream);
    ExpectedAt(cfg, hosts, l, stream, k);
  }
}
