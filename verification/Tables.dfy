/**
 The two bounded tables of the packet path: dynamic quarantine and connection tracking.
 First each table by itself, then both under several workers that interleave between
 every look at a table and the insert that follows it.
 */
module Tables {
  import opened Wrappers

  type Ip = nat
  datatype FlowKey = FlowKey(proto: nat, ipLo: Ip, portLo: nat, ipHi: Ip, portHi: nat)

  /** `(a_ip, a_port) <= (b_ip, b_port)` */
  predicate AtMost(aIp: Ip, aPort: nat, bIp: Ip, bPort: nat) { aIp < bIp || (aIp == bIp && aPort <= bPort) }

  function MakeKey(aIp: Ip, aPort: nat, bIp: Ip, bPort: nat, proto: nat): FlowKey {
    if AtMost(aIp, aPort, bIp, bPort) then FlowKey(proto, aIp, aPort, bIp, bPort) else FlowKey(proto, bIp, bPort, aIp, aPort)
  }

  /** Two packets share a key exactly when they are of one protocol and one pair of endpoints, in either direction. */
  lemma KeyIsTheFlow(aIp: Ip, aPort: nat, bIp: Ip, bPort: nat, p: nat, cIp: Ip, cPort: nat, dIp: Ip, dPort: nat, q: nat)
    ensures MakeKey(aIp, aPort, bIp, bPort, p) == MakeKey(cIp, cPort, dIp, dPort, q) <==>
      p == q && ((aIp, aPort, bIp, bPort) == (cIp, cPort, dIp, dPort) || (aIp, aPort, bIp, bPort) == (dIp, dPort, cIp, cPort))
  {
  }

  // ---------------------------------------------------------------------
  // Quarantine
  // ---------------------------------------------------------------------

  type Bans = map<Ip, real>

  /** The insert of `ban`: a new expiry only ever extends an old one */
  function Banned(table: Bans, ip: Ip, expiry: real): Bans {
    table[ip := if ip in table && table[ip] >= expiry then table[ip] else expiry]
  }

  predicate Active(table: Bans, ip: Ip, now: real) { ip in table && now < table[ip] }

  class Quarantine {
    const maxEntries: nat
    var table: Bans
    var bansTotal: nat
    var capacityRejections: nat

    ghost predicate Valid() reads this { |table| <= maxEntries }

    constructor (maxEntries: nat)
      ensures Valid() && table == map[] && this.maxEntries == maxEntries
    {
      this.maxEntries, table, bansTotal, capacityRejections := maxEntries, map[], 0, 0;
    }

    method Ban(ip: Ip, duration: real, now: real) returns (recorded: bool)
      requires Valid() && duration >= 0.0
      modifies this
      ensures Valid()
      ensures !recorded <==> ip !in old(table) && |old(table)| >= maxEntries
      ensures recorded ==> table == Banned(old(table), ip, now + duration)
      ensures !recorded ==> table == old(table)
      ensures forall other, at :: Active(table, other, at) <==> Active(old(table), other, at) || (recorded && other == ip && at < now + duration)
      ensures bansTotal == old(bansTotal) + (if recorded then 1 else 0) && capacityRejections == old(capacityRejections) + (if recorded then 0 else 1)
    {
      var expiry := now + duration;
      if ip !in table && |table| >= maxEntries {
        capacityRejections := capacityRejections + 1;
        return false;
      }
      table := if ip in table then (if expiry > table[ip] then table[ip := expiry] else table) else table[ip := expiry];
      bansTotal := bansTotal + 1;
      return true;
    }

    method IsActive(ip: Ip, now: real) returns (active: bool)
      ensures active == Active(table, ip, now)
    {
      active := if ip in table then now < table[ip] else false;
    }

    method ManualUnban(ip: Ip) returns (wasPresent: bool)
      requires Valid()
      modifies this`table
      ensures Valid() && wasPresent == (ip in old(table)) && table == old(table) - {ip}
    {
      wasPresent := ip in table;
      Smaller(table, {ip});
      table := table - {ip};
    }

    /** Drops exactly the bans that no longer block anything. */
    method SweepExpired(now: real) returns (expired: set<Ip>)
      requires Valid()
      modifies this`table
      ensures Valid() && table == old(table) - expired
      ensures forall ip :: ip in expired <==> ip in old(table) && !Active(old(table), ip, now)
      ensures forall ip, at :: at >= now ==> (Active(table, ip, at) <==> Active(old(table), ip, at))
    {
      expired := set ip | ip in table && table[ip] <= now;
      Smaller(table, expired);
      table := table - expired;
    }
  }

  lemma Smaller<K, V>(table: map<K, V>, gone: set<K>)
    ensures |table - gone| <= |table|
  {
    var keys := table.Keys;
    assert (table - gone).Keys == keys - gone;
    assert keys == (keys - gone) + (keys * gone);
  }

  // ---------------------------------------------------------------------
  // Connection tracking
  // ---------------------------------------------------------------------

  datatype TcpState = SynSent | SynAckSeen | Established | FinWait | Closed
  datatype Flags = Flags(syn: bool, ack: bool, fin: bool, rst: bool)
  datatype Packet = Packet(key: FlowKey, src: Ip, flags: Option<Flags>, payload: nat)
  datatype FlowEntry = FlowEntry(state: TcpState, lastSeen: real, packets: nat, bytes: nat)
  datatype Lookup = NewFlow | KnownFlow | TableFull
  type Flows = map<FlowKey, FlowEntry>

  function NextState(s: TcpState, flags: Option<Flags>): TcpState {
    if flags.None? then s
    else if flags.value.rst || flags.value.fin then FinWait
    else if flags.value.syn && flags.value.ack then SynAckSeen
    else if s == SynAckSeen then Established
    else s
  }

  function Touched(e: FlowEntry, pkt: Packet, now: real): FlowEntry {
    FlowEntry(NextState(e.state, pkt.flags), now, e.packets + 1, e.bytes + pkt.payload)
  }

  function Opened(pkt: Packet, now: real): FlowEntry {
    FlowEntry(if pkt.flags.Some? && pkt.flags.value.syn && !pkt.flags.value.ack then SynSent else Established, now, 1, pkt.payload)
  }

  // A flow's entry after a stretch of its packets

  function EntryAfter(e: FlowEntry, seen: seq<(Packet, real)>): FlowEntry {
    if seen == [] then e else Touched(EntryAfter(e, seen[..|seen| - 1]), seen[|seen| - 1].0, seen[|seen| - 1].1)
  }

  function Payloads(seen: seq<(Packet, real)>): nat { if seen == [] then 0 else Payloads(seen[..|seen| - 1]) + seen[|seen| - 1].0.payload }

  /** Every packet is counted once, with its payload, and the last one dates the entry. */
  lemma {:induction false} PacketsCounted(e: FlowEntry, seen: seq<(Packet, real)>)
    ensures EntryAfter(e, seen).packets == e.packets + |seen| && EntryAfter(e, seen).bytes == e.bytes + Payloads(seen)
    ensures EntryAfter(e, seen).lastSeen == if seen == [] then e.lastSeen else seen[|seen| - 1].1
  {
    if seen != [] { PacketsCounted(e, seen[..|seen| - 1]); }
  }

  ghost predicate Ends(pkt: Packet) { pkt.flags.Some? && (pkt.flags.value.fin || pkt.flags.value.rst) }
  ghost predicate Answers(pkt: Packet) { !Ends(pkt) && pkt.flags.Some? && pkt.flags.value.syn && pkt.flags.value.ack }

  /** The i-th packet is the last that ends or answers. */
  ghost predicate LastDecisive(seen: seq<(Packet, real)>, i: nat) {
    i < |seen| && (Ends(seen[i].0) || Answers(seen[i].0)) && forall j :: i < j < |seen| ==> !Ends(seen[j].0) && !Answers(seen[j].0)
  }

  ghost predicate TcpAfter(seen: seq<(Packet, real)>, i: nat) { exists j :: i <= j < |seen| && seen[j].0.flags.Some? }

  /**
   The state of a flow is read off its packets: whichever of FIN, RST and SYN-ACK came last
   decides, and a SYN-ACK is completed by any TCP packet after it.
   */
  lemma {:induction false} StateFromPackets(e: FlowEntry, seen: seq<(Packet, real)>)
    ensures forall i: nat :: LastDecisive(seen, i) ==>
      EntryAfter(e, seen).state == if Ends(seen[i].0) then FinWait else if TcpAfter(seen, i + 1) then Established else SynAckSeen
    ensures (forall i :: 0 <= i < |seen| ==> !Ends(seen[i].0) && !Answers(seen[i].0)) ==>
      EntryAfter(e, seen).state == if e.state == SynAckSeen && TcpAfter(seen, 0) then Established else e.state
  {
    if seen != [] {
      var init, last := seen[..|seen| - 1], seen[|seen| - 1].0;
      StateFromPackets(e, init);
      forall i: nat | i <= |init| ensures TcpAfter(seen, i) <==> TcpAfter(init, i) || last.flags.Some? { TcpAfterMore(seen, i); }
      forall i: nat | LastDecisive(seen, i) ensures i == |init| || LastDecisive(init, i) { assert i < |init| ==> init[i] == seen[i]; }
    }
  }

  lemma TcpAfterMore(seen: seq<(Packet, real)>, i: nat)
    requires seen != [] && i < |seen|
    ensures TcpAfter(seen, i) <==> TcpAfter(seen[..|seen| - 1], i) || seen[|seen| - 1].0.flags.Some?
  {
    var init := seen[..|seen| - 1];
    if TcpAfter(init, i) {
      var j :| i <= j < |init| && init[j].0.flags.Some?;
      assert seen[j].0.flags.Some?;
    }
    if TcpAfter(seen, i) {
      var j :| i <= j < |seen| && seen[j].0.flags.Some?;
      assert j == |init| || init[j].0.flags.Some?;
    }
  }

  class ConnTrack {
    const maxEntries: nat
    const establishedTimeout: real
    const transitoryTimeout: real
    const udpTimeout: real
    var table: Flows

    constructor (maxEntries: nat, establishedTimeout: real, transitoryTimeout: real, udpTimeout: real)
      ensures table == map[] && this.maxEntries == maxEntries
      ensures this.establishedTimeout == establishedTimeout && this.transitoryTimeout == transitoryTimeout && this.udpTimeout == udpTimeout
    {
      this.maxEntries, table := maxEntries, map[];
      this.establishedTimeout, this.transitoryTimeout, this.udpTimeout := establishedTimeout, transitoryTimeout, udpTimeout;
    }

    /** Never adds an entry; says New exactly when there is room for one. */
    method LookupOrAdmit(pkt: Packet, now: real) returns (r: Lookup)
      modifies this`table
      ensures r == KnownFlow <==> pkt.key in old(table)
      ensures r == NewFlow <==> pkt.key !in old(table) && |old(table)| < maxEntries
      ensures table == if r == KnownFlow then old(table)[pkt.key := Touched(old(table)[pkt.key], pkt, now)] else old(table)
    {
      if pkt.key in table {
        var e := table[pkt.key];
        var state := e.state;
        if pkt.flags.Some? {
          var f := pkt.flags.value;
          if f.rst || f.fin { state := FinWait; }
          else if f.syn && f.ack { state := SynAckSeen; }
          else if state == SynAckSeen { state := Established; }
        }
        table := table[pkt.key := FlowEntry(state, now, e.packets + 1, e.bytes + pkt.payload)];
        return KnownFlow;
      }
      if |table| >= maxEntries { return TableFull; }
      return NewFlow;
    }

    method RecordNew(pkt: Packet, now: real)
      modifies this`table
      ensures table.Keys == old(table).Keys + {pkt.key}
      ensures forall k :: k in table && k != pkt.key ==> table[k] == old(table)[k]
      ensures var e := table[pkt.key];
        && e.packets == 1 && e.bytes == pkt.payload && e.lastSeen == now
        && (e.state == SynSent || e.state == Established)
        && (e.state == SynSent <==> pkt.flags.Some? && pkt.flags.value.syn && !pkt.flags.value.ack)
    {
      table := table[pkt.key := Opened(pkt, now)];
    }

    method SweepExpired(now: real)
      modifies this`table
      ensures forall k :: k in table <==> k in old(table) && Alive(k, old(table)[k], now)
      ensures forall k :: k in table ==> table[k] == old(table)[k]
      ensures |table| <= |old(table)|
    {
      var gone := set k | k in table && now - table[k].lastSeen >= TimeoutOf(k, table[k]);
      Smaller(table, gone);
      table := table - gone;
    }

    /** Seen lately enough: open TCP, TCP in any other state, and everything that is not TCP each have their own limit. */
    ghost predicate Alive(k: FlowKey, e: FlowEntry, now: real) {
      && (k.proto == 6 && e.state == Established ==> now < e.lastSeen + establishedTimeout)
      && (k.proto == 6 && e.state != Established ==> now < e.lastSeen + transitoryTimeout)
      && (k.proto != 6 ==> now < e.lastSeen + udpTimeout)
    }

    function TimeoutOf(k: FlowKey, e: FlowEntry): real {
      if k.proto == 6 then (if e.state == Established then establishedTimeout else transitoryTimeout) else udpTimeout
    }
  }

  // ---------------------------------------------------------------------
  // Workers, a sweeper and an administrator
  // ---------------------------------------------------------------------

  /** Where a worker stands between two looks at the shared tables */
  datatype Phase = Idle
                 | LookingUp(pkt: Packet)                      // quarantine passed, conntrack `get_mut` next
                 | SizingFlows(pkt: Packet)                    // key absent, conntrack `len` next
                 | Evaluating(pkt: Packet)                     // admitted as new, the rules decide next
                 | Recording(pkt: Packet, ban: Option<real>)   // accepted, conntrack `insert` next
                 | Checking(ip: Ip, expiry: real)              // to be banned, quarantine `contains_key` next
                 | SizingBans(ip: Ip, expiry: real)            // address absent, quarantine `len` next
                 | Banning(ip: Ip, expiry: real)               // quarantine insert next

  datatype State = State(flows: Flows, bans: Bans, workers: seq<Phase>)
  datatype Caps = Caps(maxFlows: nat, maxBans: nat)

  /** Flow keys a worker may still insert */
  function FlowInHand(p: Phase): set<FlowKey> { if p.Evaluating? || p.Recording? then {p.pkt.key} else {} }

  /** Addresses a worker is about to insert */
  function BanInHand(p: Phase): set<Ip> { if p.Banning? then {p.ip} else {} }

  function AfterVerdict(pkt: Packet, ban: Option<real>): Phase { if ban.Some? then Checking(pkt.src, ban.value) else Idle }

  ghost predicate FlowStep(c: Caps, s: State, t: State, p: Phase, q: Phase, now: real) {
    match p
    case Idle => s.flows == t.flows && s.bans == t.bans && (q.Idle? || q.LookingUp?)
    case LookingUp(pkt) =>
      if pkt.key in s.flows then t.flows == s.flows[pkt.key := Touched(s.flows[pkt.key], pkt, now)] && s.bans == t.bans && q.Idle?
      else s.flows == t.flows && s.bans == t.bans && q == SizingFlows(pkt)
    case SizingFlows(pkt) =>
      s.flows == t.flows && s.bans == t.bans && q == if |s.flows| >= c.maxFlows then Idle else Evaluating(pkt)
    case Evaluating(pkt) =>
      s.flows == t.flows && s.bans == t.bans && ((q.Recording? && q.pkt == pkt) || (q.Checking? && q.ip == pkt.src) || q.Idle?)
    case Recording(pkt, ban) =>
      s.bans == t.bans && q == AfterVerdict(pkt, ban) && t.flows == s.flows[pkt.key := Opened(pkt, now)]
    case _ => false
  }

  ghost predicate BanStep(c: Caps, s: State, t: State, p: Phase, q: Phase) {
    match p
    case Checking(ip, expiry) => s.flows == t.flows && s.bans == t.bans && q == if ip in s.bans then Banning(ip, expiry) else SizingBans(ip, expiry)
    case SizingBans(ip, expiry) => s.flows == t.flows && s.bans == t.bans && q == if |s.bans| >= c.maxBans then Idle else Banning(ip, expiry)
    case Banning(ip, expiry) => s.flows == t.flows && t.bans == Banned(s.bans, ip, expiry) && q.Idle?
    case _ => false
  }

  ghost predicate WorkerStep(c: Caps, s: State, t: State, w: nat, now: real) {
    && w < |s.workers| == |t.workers| && t.workers == s.workers[w := t.workers[w]]
    && (FlowStep(c, s, t, s.workers[w], t.workers[w], now) || BanStep(c, s, t, s.workers[w], t.workers[w]))
  }

  /** Sweeps and unbans, at whatever grain: entries only go away */
  ghost predicate RemovalStep(s: State, t: State) {
    t.workers == s.workers && t.flows.Keys <= s.flows.Keys && t.bans.Keys <= s.bans.Keys
  }

  ghost predicate Next(c: Caps, s: State, t: State) { RemovalStep(s, t) || exists w, now :: WorkerStep(c, s, t, w, now) }

  ghost predicate Run(c: Caps, s: State, later: seq<State>, t: State)
    decreases |later|
  {
    if later == [] then s == t else Next(c, s, later[0]) && Run(c, later[0], later[1..], t)
  }

  ghost predicate Initial(s: State, workers: nat) {
    s.flows == map[] && s.bans == map[] && |s.workers| == workers && forall w :: 0 <= w < workers ==> s.workers[w] == Idle
  }

  // ---------------------------------------------------------------------
  // Keys in flight
  // ---------------------------------------------------------------------

  ghost function Gather<K>(workers: seq<Phase>, hand: Phase -> set<K>): set<K> {
    if workers == [] then {} else Gather(workers[..|workers| - 1], hand) + hand(workers[|workers| - 1])
  }

  lemma {:induction false} GatherHolds<K>(workers: seq<Phase>, hand: Phase -> set<K>, k: K)
    ensures k in Gather(workers, hand) <==> exists w :: 0 <= w < |workers| && k in hand(workers[w])
  {
    if workers != [] {
      var init := workers[..|workers| - 1];
      GatherHolds(init, hand, k);
      assert forall w :: 0 <= w < |init| ==> init[w] == workers[w];
    }
  }

  /** Each worker has at most one key in hand. */
  lemma {:induction false} GatherSize<K>(workers: seq<Phase>, hand: Phase -> set<K>)
    requires forall p :: |hand(p)| <= 1
    ensures |Gather(workers, hand)| <= |workers|
  {
    if workers != [] {
      var init := workers[..|workers| - 1];
      GatherSize(init, hand);
      UnionSize(Gather(init, hand), hand(workers[|workers| - 1]));
    }
  }

  lemma UnionSize<K>(a: set<K>, b: set<K>)
    ensures |a + b| <= |a| + |b|
  {
    assert a + b == a + (b - a);
    SubsetSize(b - a, b);
  }

  lemma SubsetSize<K>(a: set<K>, b: set<K>)
    requires a <= b
    ensures |a| <= |b|
  {
    assert b == a + (b - a);
  }

  lemma GatherUpdate<K>(workers: seq<Phase>, hand: Phase -> set<K>, w: nat, p: Phase)
    requires w < |workers|
    ensures Gather(workers[w := p], hand) <= Gather(workers, hand) + hand(p)
    ensures hand(workers[w]) <= Gather(workers, hand)
  {
    forall k | k in Gather(workers[w := p], hand) ensures k in Gather(workers, hand) + hand(p) {
      GatherHolds(workers[w := p], hand, k);
      GatherHolds(workers, hand, k);
      var v :| 0 <= v < |workers| && k in hand(workers[w := p][v]);
    }
    forall k | k in hand(workers[w]) ensures k in Gather(workers, hand) { GatherHolds(workers, hand, k); }
  }

  // ---------------------------------------------------------------------
  // The caps
  // ---------------------------------------------------------------------

  /** One less than the cap, plus one insert per worker that looked before it was reached */
  function Bound(max: nat, workers: nat): nat { if max == 0 then 0 else max - 1 + workers }

  ghost function FlowKeys(s: State): set<FlowKey> { s.flows.Keys + Gather(s.workers, FlowInHand) }
  ghost function BanKeys(s: State): set<Ip> { s.bans.Keys + Gather(s.workers, BanInHand) }

  ghost predicate Bounded(c: Caps, s: State) {
    |FlowKeys(s)| <= Bound(c.maxFlows, |s.workers|) && |BanKeys(s)| <= Bound(c.maxBans, |s.workers|)
  }

  /** A step either adds no key, or was taken with the table below its cap. */
  lemma FlowHand(c: Caps, s: State, t: State, p: Phase, q: Phase, now: real)
    requires FlowStep(c, s, t, p, q, now) || BanStep(c, s, t, p, q)
    ensures FlowInHand(q) <= FlowInHand(p) || (t.flows == s.flows && |s.flows| < c.maxFlows)
  {
  }

  lemma FlowTable(c: Caps, s: State, t: State, p: Phase, q: Phase, now: real)
    requires FlowStep(c, s, t, p, q, now) || BanStep(c, s, t, p, q)
    ensures t.flows.Keys <= s.flows.Keys + FlowInHand(p)
  {
    match p
    case LookingUp(pkt) => UpdateKeys(s.flows, t.flows, pkt.key);
    case Recording(pkt, _) => UpdateKeys(s.flows, t.flows, pkt.key);
    case _ =>
  }

  lemma UpdateKeys<K, V>(before: map<K, V>, after: map<K, V>, k: K)
    requires after == before || (k in after && after == before[k := after[k]])
    ensures after.Keys <= before.Keys + {k} && (k in before ==> after.Keys <= before.Keys)
  {
  }

  lemma BanHand(c: Caps, s: State, t: State, p: Phase, q: Phase, now: real)
    requires FlowStep(c, s, t, p, q, now) || BanStep(c, s, t, p, q)
    ensures (BanInHand(q) <= BanInHand(p) + s.bans.Keys && t.bans.Keys <= s.bans.Keys + BanInHand(p)) || (t.bans == s.bans && |s.bans| < c.maxBans)
  {
  }

  lemma KeysStep<K>(before: set<K>, after: set<K>, hands: set<K>, hands': set<K>, p: set<K>, q: set<K>)
    requires q <= p + before && after <= before + p && hands' <= hands + q && p <= hands
    ensures after + hands' <= before + hands
  {
  }

  lemma FlowKeysStep(c: Caps, s: State, t: State, w: nat, now: real)
    requires WorkerStep(c, s, t, w, now)
    ensures FlowKeys(t) <= FlowKeys(s) || (t.flows == s.flows && |s.flows| < c.maxFlows)
  {
    var p, q := s.workers[w], t.workers[w];
    FlowHand(c, s, t, p, q, now);
    FlowTable(c, s, t, p, q, now);
    GatherUpdate(s.workers, FlowInHand, w, q);
    if !(t.flows == s.flows && |s.flows| < c.maxFlows) {
      KeysStep(s.flows.Keys, t.flows.Keys, Gather(s.workers, FlowInHand), Gather(t.workers, FlowInHand), FlowInHand(p), FlowInHand(q));
    }
  }

  lemma BanKeysStep(c: Caps, s: State, t: State, w: nat, now: real)
    requires WorkerStep(c, s, t, w, now)
    ensures BanKeys(t) <= BanKeys(s) || (t.bans == s.bans && |s.bans| < c.maxBans)
  {
    var p, q := s.workers[w], t.workers[w];
    BanHand(c, s, t, p, q, now);
    GatherUpdate(s.workers, BanInHand, w, q);
    if !(t.bans == s.bans && |s.bans| < c.maxBans) {
      KeysStep(s.bans.Keys, t.bans.Keys, Gather(s.workers, BanInHand), Gather(t.workers, BanInHand), BanInHand(p), BanInHand(q));
    }
  }

  lemma KeysBounded<K>(before: set<K>, after: set<K>, table: set<K>, hand: set<K>, max: nat, workers: nat)
    requires |before| <= Bound(max, workers) && |hand| <= workers && after == table + hand
    requires after <= before || |table| < max
    ensures |after| <= Bound(max, workers)
  {
    if after <= before { SubsetSize(after, before); } else { UnionSize(table, hand); }
  }

  lemma StepBounded(c: Caps, s: State, t: State)
    requires Bounded(c, s) && Next(c, s, t)
    ensures Bounded(c, t) && |t.workers| == |s.workers|
  {
    if RemovalStep(s, t) {
      SubsetSize(FlowKeys(t), FlowKeys(s));
      SubsetSize(BanKeys(t), BanKeys(s));
    } else {
      var w, now :| WorkerStep(c, s, t, w, now);
      FlowKeysStep(c, s, t, w, now);
      BanKeysStep(c, s, t, w, now);
      GatherSize(t.workers, FlowInHand);
      GatherSize(t.workers, BanInHand);
      KeysBounded(FlowKeys(s), FlowKeys(t), t.flows.Keys, Gather(t.workers, FlowInHand), c.maxFlows, |t.workers|);
      KeysBounded(BanKeys(s), BanKeys(t), t.bans.Keys, Gather(t.workers, BanInHand), c.maxBans, |t.workers|);
    }
  }

  lemma {:induction false} RunBounded(c: Caps, s: State, later: seq<State>, t: State)
    requires Bounded(c, s) && Run(c, s, later, t)
    ensures Bounded(c, t) && |t.workers| == |s.workers|
    decreases |later|
  {
    if later != [] {
      StepBounded(c, s, later[0]);
      RunBounded(c, later[0], later[1..], t);
    }
  }

  lemma {:induction false} NothingInHand<K>(workers: seq<Phase>, hand: Phase -> set<K>)
    requires hand(Idle) == {} && forall w :: 0 <= w < |workers| ==> workers[w] == Idle
    ensures Gather(workers, hand) == {}
  {
    if workers != [] { NothingInHand(workers[..|workers| - 1], hand); }
  }

  /** In every interleaving neither table passes its cap by more than the number of workers minus one. */
  lemma CapsHold(c: Caps, workers: nat, s: State, later: seq<State>, t: State)
    requires Initial(s, workers) && Run(c, s, later, t)
    ensures |t.flows| <= Bound(c.maxFlows, workers) && |t.bans| <= Bound(c.maxBans, workers)
  {
    NothingInHand(s.workers, FlowInHand);
    NothingInHand(s.workers, BanInHand);
    assert FlowKeys(s) == {} && BanKeys(s) == {};
    RunBounded(c, s, later, t);
    SubsetSize(t.flows.Keys, FlowKeys(t));
    SubsetSize(t.bans.Keys, BanKeys(t));
  }

  /** A single worker keeps both caps exactly. */
  lemma OneWorkerExact(c: Caps, s: State, later: seq<State>, t: State)
    requires Initial(s, 1) && Run(c, s, later, t)
    ensures |t.flows| <= c.maxFlows && |t.bans| <= c.maxBans
  {
    CapsHold(c, 1, s, later, t);
  }

  // ---------------------------------------------------------------------
  // The bound is reached
  // ---------------------------------------------------------------------

  ghost predicate Reach(c: Caps, s: State, t: State) { exists later :: Run(c, s, later, t) }

  lemma {:induction false} RunConcat(c: Caps, s: State, first: seq<State>, t: State, second: seq<State>, u: State)
    requires Run(c, s, first, t) && Run(c, t, second, u)
    ensures Run(c, s, first + second, u)
    decreases |first|
  {
    if first == [] {
      assert first + second == second;
    } else {
      assert (first + second)[1..] == first[1..] + second;
      RunConcat(c, first[0], first[1..], t, second, u);
    }
  }

  lemma ReachTrans(c: Caps, s: State, t: State, u: State)
    requires Reach(c, s, t) && Reach(c, t, u)
    ensures Reach(c, s, u)
  {
    var first :| Run(c, s, first, t);
    var second :| Run(c, t, second, u);
    RunConcat(c, s, first, t, second, u);
  }

  lemma ReachSelf(c: Caps, s: State)
    ensures Reach(c, s, s)
  {
    assert Run(c, s, [], s);
  }

  lemma ReachStep(c: Caps, s: State, t: State, w: nat, now: real)
    requires WorkerStep(c, s, t, w, now)
    ensures Reach(c, s, t)
  {
    assert Run(c, t, [], t) && [t][1..] == [];
    assert Run(c, s, [t], t);
  }

  function Numbered(i: nat): Packet { Packet(FlowKey(6, 0, 0, i, 0), i, None, 0) }

  /** Flows 0 to k - 1, each just opened */
  function FlowsUpTo(k: nat): Flows { if k == 0 then map[] else FlowsUpTo(k - 1)[Numbered(k - 1).key := Opened(Numbered(k - 1), 0.0)] }

  function BansUpTo(k: nat): Bans { if k == 0 then map[] else Banned(BansUpTo(k - 1), k - 1, 0.0) }

  lemma {:induction false} UpTo(k: nat)
    ensures |FlowsUpTo(k)| == k && |BansUpTo(k)| == k
    ensures forall i: nat :: Numbered(i).key in FlowsUpTo(k) <==> i < k
    ensures forall i: nat :: i in BansUpTo(k) <==> i < k
  {
    if k > 0 { UpTo(k - 1); }
  }

  /** A worker one insert away from adding flow i, or ban i */
  function Holding(ban: bool, i: nat): Phase { if ban then Banning(i, 0.0) else Recording(Numbered(i), None) }

  function StateAt(ban: bool, k: nat, workers: seq<Phase>): State {
    if ban then State(map[], BansUpTo(k), workers) else State(FlowsUpTo(k), map[], workers)
  }

  predicate Room(c: Caps, ban: bool, k: nat) { c.maxFlows > 0 && k < if ban then c.maxBans else c.maxFlows }

  /** A step that changes nothing but the worker's own phase */
  lemma Move(c: Caps, s: State, w: nat, q: Phase)
    requires w < |s.workers|
    requires var t := s.(workers := s.workers[w := q]); FlowStep(c, s, t, s.workers[w], q, 0.0) || BanStep(c, s, t, s.workers[w], q)
    ensures Reach(c, s, s.(workers := s.workers[w := q]))
  {
    ReachStep(c, s, s.(workers := s.workers[w := q]), w, 0.0);
  }

  lemma MoveOn(c: Caps, s: State, workers: seq<Phase>, w: nat, p: Phase, q: Phase)
    requires w < |workers| && Reach(c, s, s.(workers := workers[w := p]))
    requires var m := s.(workers := workers[w := p]);
      var t := s.(workers := workers[w := q]);
      FlowStep(c, m, t, p, q, 0.0) || BanStep(c, m, t, p, q)
    ensures Reach(c, s, s.(workers := workers[w := q]))
  {
    var m := s.(workers := workers[w := p]);
    assert m.workers[w := q] == workers[w := q];
    Move(c, m, w, q);
    ReachTrans(c, s, m, s.(workers := workers[w := q]));
  }

  /** An idle worker takes up a new flow far enough to be evaluated. */
  lemma Admit(c: Caps, s: State, w: nat, pkt: Packet)
    requires w < |s.workers| && s.workers[w] == Idle && pkt.key !in s.flows && |s.flows| < c.maxFlows
    ensures Reach(c, s, s.(workers := s.workers[w := Evaluating(pkt)]))
  {
    Move(c, s, w, LookingUp(pkt));
    MoveOn(c, s, s.workers, w, LookingUp(pkt), SizingFlows(pkt));
    MoveOn(c, s, s.workers, w, SizingFlows(pkt), Evaluating(pkt));
  }

  /** With room left, an idle worker gets a new key in hand. */
  lemma TakeUp(c: Caps, ban: bool, k: nat, i: nat, workers: seq<Phase>, w: nat)
    requires Room(c, ban, k) && k <= i && w < |workers| && workers[w] == Idle
    ensures Reach(c, StateAt(ban, k, workers), StateAt(ban, k, workers[w := Holding(ban, i)]))
  {
    UpTo(k);
    var s, pkt := StateAt(ban, k, workers), Numbered(i);
    Admit(c, s, w, pkt);
    if ban {
      MoveOn(c, s, workers, w, Evaluating(pkt), Checking(i, 0.0));
      MoveOn(c, s, workers, w, Checking(i, 0.0), SizingBans(i, 0.0));
      MoveOn(c, s, workers, w, SizingBans(i, 0.0), Banning(i, 0.0));
    } else {
      MoveOn(c, s, workers, w, Evaluating(pkt), Recording(pkt, None));
    }
  }

  /** A worker with the next key in hand inserts it, whatever the size of the table by now. */
  lemma Put(c: Caps, ban: bool, k: nat, workers: seq<Phase>, w: nat)
    requires w < |workers| && workers[w] == Holding(ban, k)
    ensures Reach(c, StateAt(ban, k, workers), StateAt(ban, k + 1, workers[w := Idle]))
  {
    ReachStep(c, StateAt(ban, k, workers), StateAt(ban, k + 1, workers[w := Idle]), w, 0.0);
  }

  /** One worker fills the table key by key. */
  lemma {:induction false} Fill(c: Caps, ban: bool, k: nat, workers: seq<Phase>)
    requires |workers| > 0 && workers[0] == Idle && (k > 0 ==> Room(c, ban, k - 1))
    ensures Reach(c, StateAt(ban, 0, workers), StateAt(ban, k, workers))
  {
    if k == 0 {
      ReachSelf(c, StateAt(ban, 0, workers));
    } else {
      var busy := workers[0 := Holding(ban, k - 1)];
      Fill(c, ban, k - 1, workers);
      TakeUp(c, ban, k - 1, k - 1, workers, 0);
      Put(c, ban, k - 1, busy, 0);
      assert busy[0 := Idle] == workers;
      ReachTrans(c, StateAt(ban, k - 1, workers), StateAt(ban, k - 1, busy), StateAt(ban, k, workers));
      ReachTrans(c, StateAt(ban, 0, workers), StateAt(ban, k - 1, workers), StateAt(ban, k, workers));
    }
  }

  /** Workers from lo to hi - 1 have keys in hand, numbered from `base` on; the rest are idle */
  function Crew(ban: bool, workers: nat, lo: nat, hi: nat, base: nat): seq<Phase> {
    seq(workers, j requires 0 <= j < workers => if lo <= j < hi then Holding(ban, base + j) else Idle)
  }

  /** All workers look while there is still room for one ... */
  lemma {:induction false} AllLook(c: Caps, ban: bool, workers: nat, base: nat, m: nat)
    requires Room(c, ban, base) && m <= workers
    ensures Reach(c, StateAt(ban, base, Crew(ban, workers, 0, 0, base)), StateAt(ban, base, Crew(ban, workers, 0, m, base)))
  {
    var start := Crew(ban, workers, 0, 0, base);
    if m == 0 {
      ReachSelf(c, StateAt(ban, base, start));
    } else {
      var before, after := Crew(ban, workers, 0, m - 1, base), Crew(ban, workers, 0, m, base);
      AllLook(c, ban, workers, base, m - 1);
      TakeUp(c, ban, base, base + (m - 1), before, m - 1);
      assert before[m - 1 := Holding(ban, base + (m - 1))] == after;
      ReachTrans(c, StateAt(ban, base, start), StateAt(ban, base, before), StateAt(ban, base, after));
    }
  }

  /** ... and then all insert. */
  lemma {:induction false} AllInsert(c: Caps, ban: bool, workers: nat, base: nat, m: nat)
    requires m <= workers
    ensures Reach(c, StateAt(ban, base, Crew(ban, workers, 0, workers, base)), StateAt(ban, base + m, Crew(ban, workers, m, workers, base)))
  {
    var start := Crew(ban, workers, 0, workers, base);
    if m == 0 {
      ReachSelf(c, StateAt(ban, base, start));
    } else {
      var before, after := Crew(ban, workers, m - 1, workers, base), Crew(ban, workers, m, workers, base);
      AllInsert(c, ban, workers, base, m - 1);
      Put(c, ban, base + (m - 1), before, m - 1);
      assert before[m - 1 := Idle] == after;
      ReachTrans(c, StateAt(ban, base, start), StateAt(ban, base + (m - 1), before), StateAt(ban, base + m, after));
    }
  }

  ghost predicate AtBound(c: Caps, workers: nat, ban: bool, t: State) {
    if ban then |t.bans| == Bound(c.maxBans, workers) else |t.flows| == Bound(c.maxFlows, workers)
  }

  /** For every cap and every number of workers, some interleaving from the start reaches the bound of `CapsHold`, in either table. */
  lemma RaceReachesTheBound(c: Caps, workers: nat, ban: bool)
    requires workers > 0 && Room(c, ban, 0)
    ensures exists s, t :: Initial(s, workers) && Reach(c, s, t) && AtBound(c, workers, ban, t)
  {
    var base := (if ban then c.maxBans else c.maxFlows) - 1;
    var idle, all, none := Crew(ban, workers, 0, 0, base), Crew(ban, workers, 0, workers, base), Crew(ban, workers, workers, workers, base);
    var s, t := StateAt(ban, 0, idle), StateAt(ban, base + workers, none);
    Fill(c, ban, base, idle);
    AllLook(c, ban, workers, base, workers);
    AllInsert(c, ban, workers, base, workers);
    ReachTrans(c, s, StateAt(ban, base, idle), StateAt(ban, base, all));
    ReachTrans(c, s, StateAt(ban, base, all), t);
    UpTo(base + workers);
    assert Initial(s, workers);
  }

  ghost predicate FlowCapHolds(c: Caps, workers: nat) { forall s, t :: Initial(s, workers) && Reach(c, s, t) ==> |t.flows| <= c.maxFlows }
  ghost predicate BanCapHolds(c: Caps, workers: nat) { forall s, t :: Initial(s, workers) && Reach(c, s, t) ==> |t.bans| <= c.maxBans }

  /** The configured caps hold in every interleaving iff there is at most one worker (or a cap lets nothing in). */
  lemma CapsExactIff(c: Caps, workers: nat)
    ensures FlowCapHolds(c, workers) <==> workers <= 1 || c.maxFlows == 0
    ensures BanCapHolds(c, workers) <==> workers <= 1 || c.maxFlows == 0 || c.maxBans == 0
  {
    forall s, t | Initial(s, workers) && Reach(c, s, t)
      ensures workers <= 1 || c.maxFlows == 0 ==> |t.flows| <= c.maxFlows
      ensures workers <= 1 || c.maxFlows == 0 || c.maxBans == 0 ==> |t.bans| <= c.maxBans
    {
      var later :| Run(c, s, later, t);
      CapsHold(c, workers, s, later, t);
      if c.maxFlows == 0 { NoFlowsNoBans(c, workers, s, later, t); }
    }
    if workers > 1 && c.maxFlows > 0 {
      RaceReachesTheBound(c, workers, false);
      if c.maxBans > 0 { RaceReachesTheBound(c, workers, true); }
    }
  }

  /** Before any ban a packet must have been admitted as a new flow. */
  ghost predicate NobodyPast(s: State) {
    s.flows == map[] && s.bans == map[] && forall w :: 0 <= w < |s.workers| ==> s.workers[w].Idle? || s.workers[w].LookingUp? || s.workers[w].SizingFlows?
  }

  lemma {:induction false} NobodyPastStays(c: Caps, s: State, later: seq<State>, t: State)
    requires c.maxFlows == 0 && NobodyPast(s) && Run(c, s, later, t)
    ensures NobodyPast(t)
    decreases |later|
  {
    if later != [] {
      NobodyPastStep(c, s, later[0]);
      NobodyPastStays(c, later[0], later[1..], t);
    }
  }

  lemma NobodyPastStep(c: Caps, s: State, t: State)
    requires c.maxFlows == 0 && NobodyPast(s) && Next(c, s, t)
    ensures NobodyPast(t)
  {
    if RemovalStep(s, t) {
      assert t.flows == map[] && t.bans == map[];
    } else {
      var w, now :| WorkerStep(c, s, t, w, now);
    }
  }

  lemma NoFlowsNoBans(c: Caps, workers: nat, s: State, later: seq<State>, t: State)
    requires c.maxFlows == 0 && Initial(s, workers) && Run(c, s, later, t)
    ensures t.bans == map[]
  {
    NobodyPastStays(c, s, later, t);
  }
}
