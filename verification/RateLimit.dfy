/** Token buckets, one per (source, rule). */
module RateLimit {
  import opened Upkeep

  type Key = (nat, nat)  // source address, rule index
  datatype Bucket = Bucket(tokens: real, lastRefill: real)
  type Buckets = map<Key, Bucket>

  function Min(a: real, b: real): real { if a <= b then a else b }

  /** What the bucket holds once refilled at `now`; a missing bucket starts full */
  function Available(buckets: Buckets, key: Key, rate: nat, now: real): real {
    if key in buckets then Refilled(buckets[key], rate, now) else rate as real
  }

  /** Tokens that flow in over dt seconds */
  function Inflow(dt: real, rate: nat): real { dt * rate as real }

  function Refilled(b: Bucket, rate: nat, now: real): real { Min(b.tokens + Inflow(now - b.lastRefill, rate), rate as real) }

  /** `rate_pps` of zero means no limit */
  predicate Allows(buckets: Buckets, key: Key, rate: nat, now: real) { rate == 0 || Available(buckets, key, rate, now) >= 1.0 }

  function AfterPacket(buckets: Buckets, key: Key, rate: nat, now: real): Buckets {
    if rate == 0 then buckets
    else
      var a := Available(buckets, key, rate, now);
      buckets[key := Bucket(if a >= 1.0 then a - 1.0 else a, now)]
  }

  function AfterSweep(buckets: Buckets, maxIdle: real, now: real): Buckets {
    map key | key in buckets && now - buckets[key].lastRefill < maxIdle :: buckets[key]
  }

  class RateLimiter {
    var buckets: Buckets

    constructor ()
      ensures buckets == map[]
    {
      buckets := map[];
    }

    method Allow(src: nat, rule: nat, rate: nat, now: real) returns (ok: bool)
      modifies this
      ensures ok == Allows(old(buckets), (src, rule), rate, now)
      ensures buckets == AfterPacket(old(buckets), (src, rule), rate, now)
    {
      if rate == 0 { return true; }
      var burst := rate as real;
      var bucket := if (src, rule) in buckets then buckets[(src, rule)] else Bucket(burst, now);
      var elapsed := now - bucket.lastRefill;
      bucket := Bucket(Min(bucket.tokens + Inflow(elapsed, rate), burst), now);
      ok := bucket.tokens >= 1.0;
      if ok { bucket := bucket.(tokens := bucket.tokens - 1.0); }
      buckets := buckets[(src, rule) := bucket];
    }

    method Sweep(maxIdle: real, now: real)
      modifies this
      ensures forall key :: key in buckets <==> key in old(buckets) && now - old(buckets)[key].lastRefill < maxIdle
      ensures forall key :: key in buckets ==> buckets[key] == old(buckets)[key]
    {
      buckets := map key | key in buckets && now - buckets[key].lastRefill < maxIdle :: buckets[key];
    }
  }

  // ---------------------------------------------------------------------
  // Runs
  // ---------------------------------------------------------------------

  /** A packet of the key, checked at the rate of its rule */
  datatype Ask = Ask(key: Key, rate: nat)

  function Step(buckets: Buckets, op: Op<Ask>): Buckets {
    match op
    case Use(ask, at) => AfterPacket(buckets, ask.key, ask.rate, at)
    case Sweep(maxIdle, at) => AfterSweep(buckets, maxIdle, at)
  }

  ghost predicate Sane(buckets: Buckets, now: real) {
    forall key :: key in buckets ==> buckets[key].tokens >= 0.0 && buckets[key].lastRefill <= now
  }

  lemma InflowNonNegative(dt: real, rate: nat)
    requires dt >= 0.0
    ensures Inflow(dt, rate) >= 0.0
  {
  }

  lemma InflowZero(dt: real, rate: nat)
    requires dt == 0.0
    ensures Inflow(dt, rate) == 0.0
  {
  }

  lemma InflowSplits(a: real, b: real, c: real, rate: nat)
    ensures Inflow(c - a, rate) == Inflow(b - a, rate) + Inflow(c - b, rate)
  {
  }

  lemma InflowOfASecond(dt: real, rate: nat)
    requires dt >= 1.0
    ensures Inflow(dt, rate) >= rate as real
  {
    InflowSplits(0.0, 1.0, dt, rate);
    InflowNonNegative(dt - 1.0, rate);
  }

  lemma StepSane(buckets: Buckets, now: real, op: Op<Ask>)
    requires Sane(buckets, now) && now <= op.at
    ensures Sane(Step(buckets, op), op.at)
  {
    if op.Use? { NonNegative(buckets, op.what.key, op.what.rate, now, op.at); }
  }

  lemma NonNegative(buckets: Buckets, key: Key, rate: nat, now: real, later: real)
    requires Sane(buckets, now) && now <= later
    ensures Available(buckets, key, rate, later) >= 0.0
  {
    if key in buckets { InflowNonNegative(later - buckets[key].lastRefill, rate); }
  }

  /** Waiting adds at most rate tokens a second. */
  lemma Refill(buckets: Buckets, key: Key, rate: nat, now: real, later: real)
    requires now <= later
    ensures Available(buckets, key, rate, later) <= Available(buckets, key, rate, now) + Inflow(later - now, rate)
  {
    InflowNonNegative(later - now, rate);
    if key in buckets { InflowSplits(buckets[key].lastRefill, now, later, rate); }
  }

  /** A bucket idle for a second is full again, so dropping it changes nothing that can be asked later. */
  lemma IdleIsFull(buckets: Buckets, key: Key, rate: nat, maxIdle: real, at: real, later: real)
    requires Sane(buckets, at) && at <= later && maxIdle >= 1.0 && rate >= 1
    ensures Available(AfterSweep(buckets, maxIdle, at), key, rate, later) == Available(buckets, key, rate, later)
  {
    if key in buckets && key !in AfterSweep(buckets, maxIdle, at) {
      InflowOfASecond(later - buckets[key].lastRefill, rate);
    }
  }

  // ---------------------------------------------------------------------
  // The bound
  // ---------------------------------------------------------------------

  /** Packets of the key admitted over the run */
  ghost function Admitted(buckets: Buckets, ops: seq<Op<Ask>>, key: Key): nat
    decreases |ops|
  {
    if ops == [] then 0
    else
      Admitted(Step(buckets, ops[0]), ops[1..], key)
      + if ops[0].Use? && ops[0].what.key == key && Allows(buckets, key, ops[0].what.rate, ops[0].at) then 1 else 0
  }

  /** The key is always checked at the rate of its rule, and idle buckets are kept for a second. */
  ghost predicate Regular(ops: seq<Op<Ask>>, key: Key, rate: nat) {
    forall i :: 0 <= i < |ops| ==>
      (ops[i].Use? && ops[i].what.key == key ==> ops[i].what.rate == rate) && (ops[i].Sweep? ==> ops[i].maxIdle >= 1.0)
  }

  ghost function EndOf(now: real, ops: seq<Op<Ask>>): real { if ops == [] then now else ops[|ops| - 1].at }

  lemma StepAvailable(buckets: Buckets, op: Op<Ask>, key: Key, rate: nat, now: real)
    requires Sane(buckets, now) && now <= op.at && rate >= 1 && Regular([op], key, rate)
    ensures Available(Step(buckets, op), key, rate, op.at) ==
      Available(buckets, key, rate, op.at) - if op.Use? && op.what.key == key && Allows(buckets, key, rate, op.at) then 1.0 else 0.0
  {
    assert [op][0] == op;
    if op.Sweep? {
      assert Sane(buckets, op.at);
      IdleIsFull(buckets, key, rate, op.maxIdle, op.at, op.at);
    } else if op.what.key == key {
      InflowZero(op.at - Step(buckets, op)[key].lastRefill, rate);
    }
  }

  /** What is admitted never exceeds what was there plus what flowed in. */
  lemma {:induction false} AdmittedAtMost(buckets: Buckets, now: real, ops: seq<Op<Ask>>, key: Key, rate: nat)
    requires Sane(buckets, now) && Ordered(now, ops) && rate >= 1 && Regular(ops, key, rate)
    ensures now <= EndOf(now, ops)
    ensures Admitted(buckets, ops, key) as real <= Available(buckets, key, rate, now) + Inflow(EndOf(now, ops) - now, rate)
    decreases |ops|
  {
    if ops == [] {
      NonNegative(buckets, key, rate, now, now);
      InflowNonNegative(0.0, rate);
    } else {
      var op, rest, next := ops[0], ops[1..], Step(buckets, ops[0]);
      OrderedTail(now, ops);
      StepSane(buckets, now, op);
      assert Regular(rest, key, rate) by { assert forall i :: 0 <= i < |rest| ==> rest[i] == ops[i + 1]; }
      AdmittedAtMost(next, op.at, rest, key, rate);
      assert EndOf(op.at, rest) == EndOf(now, ops);
      assert Regular([op], key, rate);
      StepAvailable(buckets, op, key, rate, now);
      Refill(buckets, key, rate, now, op.at);
      InflowSplits(now, op.at, EndOf(now, ops), rate);
    }
  }

  /** Over any stretch of any run lasting t seconds, at most rate * (1 + t) packets get through. */
  lemma BurstBound(buckets: Buckets, now: real, ops: seq<Op<Ask>>, key: Key, rate: nat)
    requires Sane(buckets, now) && Ordered(now, ops) && rate >= 1 && Regular(ops, key, rate)
    ensures Admitted(buckets, ops, key) as real <= Inflow(1.0 + (EndOf(now, ops) - now), rate)
  {
    AdmittedAtMost(buckets, now, ops, key, rate);
    InflowSplits(0.0, 1.0, 1.0 + (EndOf(now, ops) - now), rate);
  }

  /** The limit is not tighter than it says: traffic spaced a rate-th of a second apart always gets through. */
  lemma SpacedIsAdmitted(buckets: Buckets, key: Key, rate: nat, now: real, later: real)
    requires rate >= 1 && Sane(buckets, now) && Allows(buckets, key, rate, now) && Inflow(later - now, rate) >= 1.0
    ensures Allows(AfterPacket(buckets, key, rate, now), key, rate, later)
  {
  }

  /** A source never seen, or quiet for a second, is admitted. */
  lemma QuietIsAdmitted(buckets: Buckets, key: Key, rate: nat, now: real, later: real)
    requires rate >= 1 && Sane(buckets, now) && now + 1.0 <= later
    ensures Allows(buckets, key, rate, later) && Available(buckets, key, rate, later) == rate as real
  {
    if key in buckets { InflowOfASecond(later - buckets[key].lastRefill, rate); }
  }

  // ---------------------------------------------------------------------
  // Sweeping cannot be observed
  // ---------------------------------------------------------------------

  /** The answers to the packets of a run, in order */
  ghost function Answers(buckets: Buckets, ops: seq<Op<Ask>>): seq<bool>
    decreases |ops|
  {
    if ops == [] then []
    else (if ops[0].Use? then [Allows(buckets, ops[0].what.key, ops[0].what.rate, ops[0].at)] else []) + Answers(Step(buckets, ops[0]), ops[1..])
  }

  ghost predicate Alike(s: Buckets, t: Buckets, now: real) {
    forall key: Key, rate: nat, later: real :: rate >= 1 && later >= now ==> Available(s, key, rate, later) == Available(t, key, rate, later)
  }

  lemma PacketAlike(s: Buckets, t: Buckets, now: real, op: Op<Ask>)
    requires Alike(s, t, now) && op.Use? && now <= op.at
    ensures Allows(s, op.what.key, op.what.rate, op.at) == Allows(t, op.what.key, op.what.rate, op.at)
    ensures Alike(Step(s, op), Step(t, op), op.at)
  {
    forall key: Key, rate: nat, later: real | rate >= 1 && later >= op.at
      ensures Available(Step(s, op), key, rate, later) == Available(Step(t, op), key, rate, later)
    {
      assert Available(s, key, rate, later) == Available(t, key, rate, later);
    }
  }

  lemma SweepAlike(s: Buckets, t: Buckets, now: real, op: Op<Ask>)
    requires Sane(s, now) && Alike(s, t, now) && op.Sweep? && op.maxIdle >= 1.0 && now <= op.at
    ensures Alike(Step(s, op), t, op.at)
  {
    assert Sane(s, op.at);
    forall key: Key, rate: nat, later: real | rate >= 1 && later >= op.at
      ensures Available(Step(s, op), key, rate, later) == Available(t, key, rate, later)
    {
      IdleIsFull(s, key, rate, op.maxIdle, op.at, later);
    }
  }

  /** Removing every sweep from a run changes no answer. */
  lemma {:induction false} SweepsUnobservable(s: Buckets, t: Buckets, now: real, ops: seq<Op<Ask>>)
    requires Sane(s, now) && Alike(s, t, now) && Ordered(now, ops)
    requires SweptFrom(ops, 1.0)
    ensures Answers(s, ops) == Answers(t, Unswept(ops))
    decreases |ops|
  {
    if ops != [] {
      var op, rest := ops[0], ops[1..];
      OrderedTail(now, ops);
      StepSane(s, now, op);
      if op.Use? {
        PacketAlike(s, t, now, op);
        SweepsUnobservable(Step(s, op), Step(t, op), op.at, rest);
        assert Unswept(ops) == [op] + Unswept(rest);
      } else {
        SweepAlike(s, t, now, op);
        SweepsUnobservable(Step(s, op), t, op.at, rest);
        assert Unswept(ops) == Unswept(rest);
      }
    }
  }

  /** A shorter idle bound is observable: one token, spent, swept, and back too soon. */
  lemma ShortIdleIsObservable(maxIdle: real)
    requires 0.0 <= maxIdle < 1.0
    ensures var key: Key := (0, 0);
      var spent := AfterPacket(map[], key, 1, 0.0);
      !Allows(spent, key, 1, maxIdle) && Allows(AfterSweep(spent, maxIdle, maxIdle), key, 1, maxIdle)
  {
  }
}
