/** Ban thresholds: how many matches of one rule from one source it takes before a ban fires. */
module Threshold {
  import opened Wrappers
  import opened Upkeep

  type Key = (nat, nat)  // rule index, source address
  datatype Entry = Entry(count: nat, start: real)
  datatype Limit = Limit(threshold: nat, window: real)

  /** The window a match falls into, before it is counted */
  function Window(e: Option<Entry>, limit: Limit, now: real): Entry {
    if e.None? || now - e.value.start > limit.window then Entry(0, now) else e.value
  }

  predicate Fires(e: Option<Entry>, limit: Limit, now: real) {
    limit.threshold <= 1 || Window(e, limit, now).count + 1 >= limit.threshold
  }

  function AfterMatch(e: Option<Entry>, limit: Limit, now: real): Option<Entry> {
    if limit.threshold <= 1 then e
    else if Fires(e, limit, now) then Some(Entry(0, now))
    else Some(Entry(Window(e, limit, now).count + 1, Window(e, limit, now).start))
  }

  function AfterSweep(e: Option<Entry>, maxIdle: real, now: real): Option<Entry> {
    if e.Some? && now - e.value.start < maxIdle then e else None
  }

  function At(counts: map<Key, Entry>, key: Key): Option<Entry> { if key in counts then Some(counts[key]) else None }

  /** The whole table after one match */
  function Recorded(counts: map<Key, Entry>, key: Key, limit: Limit, now: real): map<Key, Entry> {
    if limit.threshold <= 1 then counts else counts[key := AfterMatch(At(counts, key), limit, now).value]
  }

  class ThresholdTracker {
    var counts: map<Key, Entry>

    constructor ()
      ensures counts == map[]
    {
      counts := map[];
    }

    method RecordAndCheck(rule: nat, ip: nat, limit: Limit, now: real) returns (reached: bool)
      modifies this
      ensures reached == Fires(At(old(counts), (rule, ip)), limit, now)
      ensures counts == Recorded(old(counts), (rule, ip), limit, now)
    {
      if limit.threshold <= 1 { return true; }
      var entry := if (rule, ip) in counts then counts[(rule, ip)] else Entry(0, now);
      if now - entry.start > limit.window { entry := Entry(0, now); }
      entry := entry.(count := entry.count + 1);
      reached := entry.count >= limit.threshold;
      if reached { entry := Entry(0, now); }
      counts := counts[(rule, ip) := entry];
    }

    method Sweep(maxIdle: real, now: real)
      modifies this
      ensures forall key :: At(counts, key) == AfterSweep(At(old(counts), key), maxIdle, now)
    {
      counts := map key | key in counts && now - counts[key].start < maxIdle :: counts[key];
    }
  }

  // ---------------------------------------------------------------------
  // Runs of one rule and source: each use of the tracker is a match
  // ---------------------------------------------------------------------

  /** The entry, the matches counted in it, and the matches behind each firing so far, by position in the run */
  datatype Trace = Trace(entry: Option<Entry>, pending: seq<nat>, fired: seq<seq<nat>>)

  ghost function Step(t: Trace, limit: Limit, op: Op<Key>, i: nat): Trace {
    match op
    case Sweep(maxIdle, at) =>
      var e := AfterSweep(t.entry, maxIdle, at);
      Trace(e, if e.None? then [] else t.pending, t.fired)
    case Use(_, at) =>
      var counted := Joined(t, limit, at) + [i];
      if Fires(t.entry, limit, at) then Trace(AfterMatch(t.entry, limit, at), [], t.fired + [counted])
      else Trace(AfterMatch(t.entry, limit, at), counted, t.fired)
  }

  ghost function Run(limit: Limit, ops: seq<Op<Key>>): Trace {
    if ops == [] then Trace(None, [], []) else Step(Run(limit, ops[..|ops| - 1]), limit, ops[|ops| - 1], |ops| - 1)
  }

  ghost predicate Increasing(s: seq<nat>) { forall i, j :: 0 <= i < j < |s| ==> s[i] < s[j] }

  /** These are matches of the run, in order, all from the time `from` on and at most `window` later. */
  ghost predicate Within(ops: seq<Op<Key>>, s: seq<nat>, from: real, window: real) {
    && Increasing(s)
    && forall k :: 0 <= k < |s| ==> s[k] < |ops| && ops[s[k]].Use? && from <= ops[s[k]].at <= from + window
  }

  /** A firing's backing: exactly `threshold` matches within one window */
  ghost predicate Backed(ops: seq<Op<Key>>, limit: Limit, s: seq<nat>) {
    |s| == limit.threshold && exists from :: Within(ops, s, from, limit.window)
  }

  ghost predicate Below(s: seq<nat>, bound: nat) { forall k :: 0 <= k < |s| ==> s[k] < bound }

  /** Every element of s comes before every element of t. */
  ghost predicate Before(s: seq<nat>, t: seq<nat>) { forall j, k :: 0 <= j < |s| && 0 <= k < |t| ==> s[j] < t[k] }

  ghost predicate EntryOk(t: Trace, limit: Limit, ops: seq<Op<Key>>) {
    && (t.entry.None? ==> t.pending == [])
    && (t.entry.Some? ==> |t.pending| == t.entry.value.count < limit.threshold && Within(ops, t.pending, t.entry.value.start, limit.window))
    && (t.entry.Some? && ops != [] ==> t.entry.value.start <= ops[|ops| - 1].at)
  }

  ghost predicate FiredOk(t: Trace, limit: Limit, ops: seq<Op<Key>>) {
    && (forall f :: 0 <= f < |t.fired| ==> Backed(ops, limit, t.fired[f]) && Before(t.fired[f], t.pending) && Below(t.fired[f], |ops|))
    && (forall f, g :: 0 <= f < g < |t.fired| ==> Before(t.fired[f], t.fired[g]))
  }

  lemma WithinMore(ops: seq<Op<Key>>, op: Op<Key>, s: seq<nat>, from: real, window: real)
    requires Within(ops, s, from, window)
    ensures Within(ops + [op], s, from, window)
  {
  }

  lemma BackedMore(ops: seq<Op<Key>>, op: Op<Key>, limit: Limit, s: seq<nat>)
    requires Backed(ops, limit, s)
    ensures Backed(ops + [op], limit, s)
  {
    var from :| Within(ops, s, from, limit.window);
    WithinMore(ops, op, s, from, limit.window);
  }

  /** Counting one more match keeps the positions in order and inside the window. */
  lemma WithinAppend(ops: seq<Op<Key>>, op: Op<Key>, s: seq<nat>, from: real, window: real)
    requires Within(ops, s, from, window) && op.Use? && from <= op.at <= from + window
    ensures Within(ops + [op], s + [|ops|], from, window)
  {
    WithinMore(ops, op, s, from, window);
  }

  /** The matches a new match joins: those of the window it falls into */
  ghost function Joined(t: Trace, limit: Limit, at: real): seq<nat> {
    if t.entry == Some(Window(t.entry, limit, at)) then t.pending else []
  }

  lemma JoinedOk(t: Trace, limit: Limit, ops: seq<Op<Key>>, op: Op<Key>)
    requires limit.threshold >= 2 && limit.window >= 0.0 && EntryOk(t, limit, ops) && op.Use?
    requires t.entry.Some? ==> t.entry.value.start <= op.at
    ensures var w := Window(t.entry, limit, op.at);
      && |Joined(t, limit, op.at)| == w.count < limit.threshold && w.start <= op.at <= w.start + limit.window
      && Within(ops + [op], Joined(t, limit, op.at) + [|ops|], w.start, limit.window)
  {
    var w, j := Window(t.entry, limit, op.at), Joined(t, limit, op.at);
    assert Within(ops, j, w.start, limit.window);
    WithinAppend(ops, op, j, w.start, limit.window);
  }

  lemma StepEntry(t: Trace, limit: Limit, ops: seq<Op<Key>>, op: Op<Key>)
    requires limit.threshold >= 2 && limit.window >= 0.0 && EntryOk(t, limit, ops)
    requires t.entry.Some? ==> t.entry.value.start <= op.at
    ensures EntryOk(Step(t, limit, op, |ops|), limit, ops + [op])
  {
    if op.Use? {
      JoinedOk(t, limit, ops, op);
    } else if t.entry.Some? {
      WithinMore(ops, op, t.pending, t.entry.value.start, limit.window);
    }
  }

  lemma StepFired(t: Trace, limit: Limit, ops: seq<Op<Key>>, op: Op<Key>)
    requires limit.threshold >= 2 && limit.window >= 0.0 && EntryOk(t, limit, ops) && FiredOk(t, limit, ops)
    requires t.entry.Some? ==> t.entry.value.start <= op.at
    ensures FiredOk(Step(t, limit, op, |ops|), limit, ops + [op])
  {
    var t' := Step(t, limit, op, |ops|);
    forall f | 0 <= f < |t.fired| ensures Backed(ops + [op], limit, t.fired[f]) { BackedMore(ops, op, limit, t.fired[f]); }
    if op.Use? {
      JoinedOk(t, limit, ops, op);
      var counted := Joined(t, limit, op.at) + [|ops|];
      forall f | 0 <= f < |t.fired| ensures Before(t.fired[f], counted) { assert Before(t.fired[f], Joined(t, limit, op.at)); }
      assert |counted| == limit.threshold ==> Backed(ops + [op], limit, counted);
      assert Below(counted, |ops + [op]|);
    }
  }

  lemma {:induction false} RunOk(limit: Limit, ops: seq<Op<Key>>)
    requires limit.threshold >= 2 && limit.window >= 0.0 && InOrder(ops)
    ensures EntryOk(Run(limit, ops), limit, ops) && FiredOk(Run(limit, ops), limit, ops)
  {
    if ops != [] {
      var init, op := ops[..|ops| - 1], ops[|ops| - 1];
      RunOk(limit, init);
      assert ops == init + [op];
      StepEntry(Run(limit, init), limit, init, op);
      StepFired(Run(limit, init), limit, init, op);
    }
  }

  /**
   Over every run, sweeps at any times included: the f-th firing rests on exactly
   `threshold` matches inside one window, and no two firings share a match.
   */
  lemma FiringsAreBacked(limit: Limit, ops: seq<Op<Key>>, f: nat, g: nat, k: nat, m: nat)
    requires limit.threshold >= 2 && limit.window >= 0.0 && InOrder(ops)
    requires f < |Run(limit, ops).fired| && g < |Run(limit, ops).fired|
    ensures Backed(ops, limit, Run(limit, ops).fired[f])
    ensures f != g && k < |Run(limit, ops).fired[f]| && m < |Run(limit, ops).fired[g]| ==> Run(limit, ops).fired[f][k] != Run(limit, ops).fired[g][m]
  {
    RunOk(limit, ops);
    var fired := Run(limit, ops).fired;
    if f < g { assert Before(fired[f], fired[g]); }
    if g < f { assert Before(fired[g], fired[f]); }
  }

  /** A firing is added exactly by a match the tracker answers true to; a sweep adds none. */
  lemma FiringIsAnswer(limit: Limit, ops: seq<Op<Key>>, op: Op<Key>)
    ensures var before, after := Run(limit, ops), Run(limit, ops + [op]);
      after.fired == before.fired || (op.Use? && Fires(before.entry, limit, op.at) && |after.fired| == |before.fired| + 1)
    ensures op.Use? && Fires(Run(limit, ops).entry, limit, op.at) ==> |Run(limit, ops + [op]).fired| == |Run(limit, ops).fired| + 1
  {
    assert (ops + [op])[..|ops|] == ops;
  }

  // ---------------------------------------------------------------------
  // Answers over a run, from any entry
  // ---------------------------------------------------------------------

  ghost function AfterOp(e: Option<Entry>, limit: Limit, op: Op<Key>): Option<Entry> {
    if op.Use? then AfterMatch(e, limit, op.at) else AfterSweep(e, op.maxIdle, op.at)
  }

  ghost function AnswerTo(e: Option<Entry>, limit: Limit, op: Op<Key>): seq<bool> {
    if op.Use? then [Fires(e, limit, op.at)] else []
  }

  ghost function Answers(e: Option<Entry>, limit: Limit, ops: seq<Op<Key>>): seq<bool>
    decreases |ops|
  {
    if ops == [] then [] else AnswerTo(e, limit, ops[0]) + Answers(AfterOp(e, limit, ops[0]), limit, ops[1..])
  }

  ghost function EntryAfter(e: Option<Entry>, limit: Limit, ops: seq<Op<Key>>): Option<Entry>
    decreases |ops|
  {
    if ops == [] then e else EntryAfter(AfterOp(e, limit, ops[0]), limit, ops[1..])
  }

  ghost predicate SomeFire(e: Option<Entry>, limit: Limit, ops: seq<Op<Key>>) { true in Answers(e, limit, ops) }

  lemma {:induction false} AnswersConcat(e: Option<Entry>, limit: Limit, a: seq<Op<Key>>, b: seq<Op<Key>>)
    ensures Answers(e, limit, a + b) == Answers(e, limit, a) + Answers(EntryAfter(e, limit, a), limit, b)
    ensures EntryAfter(e, limit, a + b) == EntryAfter(EntryAfter(e, limit, a), limit, b)
    decreases |a|
  {
    if a == [] {
      assert a + b == b;
    } else {
      assert (a + b)[1..] == a[1..] + b;
      AnswersConcat(AfterOp(e, limit, a[0]), limit, a[1..], b);
    }
  }

  ghost function Trues(s: seq<bool>): nat { if s == [] then 0 else Trues(s[..|s| - 1]) + if s[|s| - 1] then 1 else 0 }

  lemma TruesAppend(s: seq<bool>, b: bool)
    ensures Trues(s + [b]) == Trues(s) + if b then 1 else 0
  {
    assert (s + [b])[..|s|] == s;
  }

  /** The firings of `FiringsAreBacked` are exactly the true answers of the run. */
  /** At the default threshold of one, or at zero, every match fires. */
  lemma {:induction false} LowThresholdAlwaysFires(e: Option<Entry>, limit: Limit, ops: seq<Op<Key>>)
    requires limit.threshold <= 1
    ensures |Answers(e, limit, ops)| == |Unswept(ops)| && forall i :: 0 <= i < |Answers(e, limit, ops)| ==> Answers(e, limit, ops)[i]
    decreases |ops|
  {
    if ops != [] { LowThresholdAlwaysFires(AfterOp(e, limit, ops[0]), limit, ops[1..]); }
  }

  lemma {:induction false} FiringsAreAnswers(limit: Limit, ops: seq<Op<Key>>)
    ensures EntryAfter(None, limit, ops) == Run(limit, ops).entry
    ensures Trues(Answers(None, limit, ops)) == |Run(limit, ops).fired|
  {
    if ops != [] {
      var init, op := ops[..|ops| - 1], ops[|ops| - 1];
      assert ops == init + [op] && [op][1..] == [];
      FiringsAreAnswers(limit, init);
      AnswersConcat(None, limit, init, [op]);
      var e := Run(limit, init).entry;
      assert Answers(e, limit, [op]) == AnswerTo(e, limit, op);
      assert EntryAfter(e, limit, [op]) == AfterOp(e, limit, op);
      if op.Use? {
        TruesAppend(Answers(None, limit, init), Fires(e, limit, op.at));
      } else {
        assert Answers(None, limit, init) + [] == Answers(None, limit, init);
      }
    }
  }

  // ---------------------------------------------------------------------
  // How many matches it takes
  // ---------------------------------------------------------------------

  /** Matches only, from first to last within one window's length */
  ghost predicate Burst(limit: Limit, ops: seq<Op<Key>>) {
    InOrder(ops) && forall i :: 0 <= i < |ops| ==> ops[i].Use? && ops[i].at - ops[0].at <= limit.window
  }

  /** A match at t falls into the entry's window. */
  ghost predicate Live(e: Option<Entry>, limit: Limit, t: real) { e.Some? && t - e.value.start <= limit.window }

  /** How many of the matches fall into a window begun at `start` */
  ghost function InWindow(limit: Limit, start: real, ops: seq<Op<Key>>): nat {
    if ops == [] then 0 else InWindow(limit, start, ops[1..]) + if ops[0].at - start <= limit.window then 1 else 0
  }

  lemma FirstOrRest(e: Option<Entry>, limit: Limit, ops: seq<Op<Key>>)
    requires ops != [] && ops[0].Use?
    ensures SomeFire(e, limit, ops) <==> Fires(e, limit, ops[0].at) || SomeFire(AfterMatch(e, limit, ops[0].at), limit, ops[1..])
  {
  }

  lemma BurstTail(limit: Limit, ops: seq<Op<Key>>)
    requires Burst(limit, ops) && ops != []
    ensures Burst(limit, ops[1..]) && forall i :: 0 <= i < |ops[1..]| ==> ops[1..][i].at - ops[0].at <= limit.window
  {
    var rest := ops[1..];
    assert forall i :: 0 <= i < |rest| ==> rest[i] == ops[i + 1];
    assert rest != [] ==> ops[0].at <= rest[0].at;
  }

  /** Inside one window a run fires iff it completes the count. */
  lemma {:induction false} CountsUp(e: Entry, limit: Limit, ops: seq<Op<Key>>)
    requires limit.threshold >= 2 && e.count < limit.threshold
    requires forall i :: 0 <= i < |ops| ==> ops[i].Use? && ops[i].at - e.start <= limit.window
    ensures SomeFire(Some(e), limit, ops) <==> e.count + |ops| >= limit.threshold
    decreases |ops|
  {
    if ops != [] {
      FirstOrRest(Some(e), limit, ops);
      if e.count + 1 < limit.threshold { CountsUp(Entry(e.count + 1, e.start), limit, ops[1..]); }
    }
  }

  lemma {:induction false} NoneLive(limit: Limit, start: real, ops: seq<Op<Key>>)
    requires InOrder(ops) && (ops != [] ==> ops[0].at - start > limit.window)
    ensures InWindow(limit, start, ops) == 0
  {
    if ops != [] {
      var rest := ops[1..];
      assert forall i :: 0 <= i < |rest| ==> rest[i] == ops[i + 1];
      NoneLive(limit, start, rest);
    }
  }

  /** A dead entry is replaced by a window that the whole burst falls into. */
  lemma FreshBurst(e: Option<Entry>, limit: Limit, ops: seq<Op<Key>>)
    requires limit.threshold >= 2 && Burst(limit, ops) && ops != [] && !Live(e, limit, ops[0].at)
    ensures SomeFire(e, limit, ops) <==> |ops| >= limit.threshold
  {
    FirstOrRest(e, limit, ops);
    BurstTail(limit, ops);
    CountsUp(Entry(1, ops[0].at), limit, ops[1..]);
  }

  lemma {:induction false} ShortBurst(e: Option<Entry>, limit: Limit, ops: seq<Op<Key>>)
    requires limit.threshold >= 2 && Burst(limit, ops) && 0 < |ops| <= limit.threshold
    ensures SomeFire(e, limit, ops) <==>
      if Live(e, limit, ops[0].at) then e.value.count + InWindow(limit, e.value.start, ops) >= limit.threshold else |ops| >= limit.threshold
    decreases |ops|
  {
    if !Live(e, limit, ops[0].at) {
      FreshBurst(e, limit, ops);
    } else {
      FirstOrRest(e, limit, ops);
      var rest := ops[1..];
      if e.value.count + 1 < limit.threshold && rest != [] {
        BurstTail(limit, ops);
        ShortBurst(Some(Entry(e.value.count + 1, e.value.start)), limit, rest);
        if rest[0].at - e.value.start > limit.window { NoneLive(limit, e.value.start, rest); }
      }
    }
  }

  ghost function Falses(n: nat): seq<bool> { seq(n, _ => false) }

  /** Matches that leave the count short of the threshold are all answered false, and counted. */
  lemma {:induction false} LiveMatches(e: Entry, limit: Limit, ops: seq<Op<Key>>)
    requires limit.threshold >= 2 && e.count + |ops| < limit.threshold
    requires forall i :: 0 <= i < |ops| ==> ops[i].Use? && ops[i].at - e.start <= limit.window
    ensures Answers(Some(e), limit, ops) == Falses(|ops|) && EntryAfter(Some(e), limit, ops) == Some(Entry(e.count + |ops|, e.start))
    decreases |ops|
  {
    if ops != [] {
      LiveMatches(Entry(e.count + 1, e.start), limit, ops[1..]);
      assert Falses(|ops|) == [false] + Falses(|ops| - 1);
    }
  }

  lemma FreshMatches(e: Option<Entry>, limit: Limit, ops: seq<Op<Key>>)
    requires limit.threshold >= 2 && Burst(limit, ops) && 0 < |ops| < limit.threshold && !Live(e, limit, ops[0].at)
    ensures Answers(e, limit, ops) == Falses(|ops|) && EntryAfter(e, limit, ops) == Some(Entry(|ops|, ops[0].at))
  {
    BurstTail(limit, ops);
    LiveMatches(Entry(1, ops[0].at), limit, ops[1..]);
    assert Falses(|ops|) == [false] + Falses(|ops| - 1);
  }

  /** Into no running window, `threshold` matches within one window fire at the last of them and nowhere before. */
  lemma EnoughMatchesFire(e: Option<Entry>, limit: Limit, ops: seq<Op<Key>>)
    requires |ops| == limit.threshold >= 2 && Burst(limit, ops) && !Live(e, limit, ops[0].at)
    ensures Answers(e, limit, ops) == Falses(|ops| - 1) + [true] && EntryAfter(e, limit, ops) == Some(Entry(0, ops[|ops| - 1].at))
  {
    var init, last := ops[..|ops| - 1], ops[|ops| - 1];
    assert ops == init + [last] && [last][1..] == [];
    FreshMatches(e, limit, init);
    AnswersConcat(e, limit, init, [last]);
    var counted := Some(Entry(|init|, ops[0].at));
    assert Answers(counted, limit, [last]) == AnswerTo(counted, limit, last);
    assert EntryAfter(counted, limit, [last]) == AfterOp(counted, limit, last);
  }

  /**
   When `threshold` matches within the length of one window lead to a firing, from any
   entry: unless the entry's window is still running and ends before it is completed.
   */
  lemma ThresholdMatchesFireIff(e: Option<Entry>, limit: Limit, ops: seq<Op<Key>>)
    requires |ops| == limit.threshold >= 2 && Burst(limit, ops)
    ensures SomeFire(e, limit, ops) <==>
      e.None? || ops[0].at - e.value.start > limit.window || e.value.count + InWindow(limit, e.value.start, ops) >= limit.threshold
  {
    ShortBurst(e, limit, ops);
  }

  lemma {:induction false} LongBurst(e: Option<Entry>, limit: Limit, ops: seq<Op<Key>>)
    requires limit.threshold >= 2 && Burst(limit, ops) && ops != []
    requires |ops| >= limit.threshold
    requires Live(e, limit, ops[0].at) ==> |ops| + e.value.count >= 2 * limit.threshold - 1
    ensures SomeFire(e, limit, ops)
    decreases |ops|
  {
    if !Live(e, limit, ops[0].at) {
      FreshBurst(e, limit, ops);
    } else {
      FirstOrRest(e, limit, ops);
      if e.value.count + 1 < limit.threshold {
        BurstTail(limit, ops);
        LongBurst(Some(Entry(e.value.count + 1, e.value.start)), limit, ops[1..]);
      }
    }
  }

  /** Twice the threshold less one is enough from every entry ... */
  lemma AlwaysEnough(e: Option<Entry>, limit: Limit, ops: seq<Op<Key>>)
    requires limit.threshold >= 2 && Burst(limit, ops) && |ops| >= 2 * limit.threshold - 1
    ensures SomeFire(e, limit, ops)
  {
    LongBurst(e, limit, ops);
  }

  // ---------------------------------------------------------------------
  // Witnesses, from blocks of simultaneous matches
  // ---------------------------------------------------------------------

  ghost function Hits(n: nat, t: real): seq<Op<Key>> { seq(n, _ => Use((0, 0), t)) }

  lemma LiveHits(e: Entry, limit: Limit, n: nat, t: real)
    requires limit.threshold >= 2 && t - e.start <= limit.window && e.count + n < limit.threshold
    ensures Answers(Some(e), limit, Hits(n, t)) == Falses(n) && EntryAfter(Some(e), limit, Hits(n, t)) == Some(Entry(e.count + n, e.start))
  {
    LiveMatches(e, limit, Hits(n, t));
  }

  lemma FreshHits(e: Option<Entry>, limit: Limit, n: nat, t: real)
    requires limit.threshold >= 2 && limit.window >= 0.0 && !Live(e, limit, t) && 0 < n < limit.threshold
    ensures Answers(e, limit, Hits(n, t)) == Falses(n) && EntryAfter(e, limit, Hits(n, t)) == Some(Entry(n, t))
  {
    FreshMatches(e, limit, Hits(n, t));
  }

  /** A whole threshold of simultaneous matches into no window fires at the last and leaves an empty window. */
  lemma FullHits(e: Option<Entry>, limit: Limit, t: real)
    requires limit.threshold >= 2 && limit.window >= 0.0 && !Live(e, limit, t)
    ensures Answers(e, limit, Hits(limit.threshold, t)) == Falses(limit.threshold - 1) + [true]
    ensures EntryAfter(e, limit, Hits(limit.threshold, t)) == Some(Entry(0, t))
  {
    EnoughMatchesFire(e, limit, Hits(limit.threshold, t));
  }

  lemma NoTrue(m: nat, n: nat)
    ensures Falses(m) + Falses(n) == Falses(m + n) && true !in Falses(m)
  {
  }

  /** ... and one match fewer is not: the entry a firing leaves behind can split them in two. */
  lemma NotAlwaysEnough(limit: Limit)
    requires limit.threshold >= 2 && limit.window > 0.0
    ensures var w, n := limit.window, limit.threshold - 1;
      var ops := Hits(n, w) + Hits(n, w + w);
      && EntryAfter(None, limit, Hits(limit.threshold, 0.0)) == Some(Entry(0, 0.0))
      && |ops| == 2 * limit.threshold - 2 && Burst(limit, ops) && !SomeFire(Some(Entry(0, 0.0)), limit, ops)
  {
    var w, n := limit.window, limit.threshold - 1;
    FullHits(None, limit, 0.0);
    LiveHits(Entry(0, 0.0), limit, n, w);
    FreshHits(Some(Entry(n, 0.0)), limit, n, w + w);
    AnswersConcat(Some(Entry(0, 0.0)), limit, Hits(n, w), Hits(n, w + w));
    NoTrue(n, n);
    NoTrue(n + n, 0);
  }

  /** The window does not roll: three matches within three seconds, a threshold of three, a window of ten, and no firing. */
  lemma WindowDoesNotRoll()
    ensures var ops := Hits(1, 0.0) + Hits(1, 9.0) + Hits(1, 11.0) + Hits(1, 12.0);
      Answers(None, Limit(3, 10.0), ops) == [false, false, false, false]
  {
    var limit := Limit(3, 10.0);
    FreshHits(None, limit, 1, 0.0);
    LiveHits(Entry(1, 0.0), limit, 1, 9.0);
    FreshHits(Some(Entry(2, 0.0)), limit, 1, 11.0);
    LiveHits(Entry(1, 11.0), limit, 1, 12.0);
    AnswersConcat(None, limit, Hits(1, 0.0), Hits(1, 9.0));
    AnswersConcat(None, limit, Hits(1, 0.0) + Hits(1, 9.0), Hits(1, 11.0));
    AnswersConcat(None, limit, Hits(1, 0.0) + Hits(1, 9.0) + Hits(1, 11.0), Hits(1, 12.0));
  }

  // ---------------------------------------------------------------------
  // When sweeping can be observed
  // ---------------------------------------------------------------------

  /** Equal, or one is gone and the other's window has already expired */
  ghost predicate Alike(e: Option<Entry>, f: Option<Entry>, limit: Limit, now: real) {
    e == f || (e.None? && f.Some? && now - f.value.start > limit.window)
  }

  lemma UnsweptCons(ops: seq<Op<Key>>, e: Option<Entry>, limit: Limit)
    requires ops != []
    ensures ops[0].Use? ==> Unswept(ops) == [ops[0]] + Unswept(ops[1..]) && Unswept(ops)[1..] == Unswept(ops[1..])
    ensures !ops[0].Use? ==> Unswept(ops) == Unswept(ops[1..])
    ensures ops[0].Use? ==> Answers(e, limit, Unswept(ops)) == [Fires(e, limit, ops[0].at)] + Answers(AfterMatch(e, limit, ops[0].at), limit, Unswept(ops[1..]))
  {
    if ops[0].Use? { assert Unswept(ops)[1..] == Unswept(ops[1..]); }
  }

  /** With idle bounds longer than the window, removing every sweep changes no answer. */
  lemma {:induction false} LongIdleUnobservable(e: Option<Entry>, f: Option<Entry>, limit: Limit, now: real, ops: seq<Op<Key>>)
    requires Alike(e, f, limit, now) && Ordered(now, ops)
    requires forall i :: 0 <= i < |ops| && ops[i].Sweep? ==> limit.window < ops[i].maxIdle
    ensures Answers(e, limit, ops) == Answers(f, limit, Unswept(ops))
    decreases |ops|
  {
    if ops != [] {
      var op, rest := ops[0], ops[1..];
      OrderedTail(now, ops);
      UnsweptCons(ops, f, limit);
      LongIdleUnobservable(AfterOp(e, limit, op), if op.Use? then AfterMatch(f, limit, op.at) else f, limit, op.at, rest);
    }
  }

  /** A threshold of one is always answered true. */
  lemma {:induction false} NoThresholdUnobservable(e: Option<Entry>, f: Option<Entry>, limit: Limit, ops: seq<Op<Key>>)
    requires limit.threshold <= 1
    ensures Answers(e, limit, ops) == Answers(f, limit, Unswept(ops))
    decreases |ops|
  {
    if ops != [] {
      UnsweptCons(ops, f, limit);
      NoThresholdUnobservable(AfterOp(e, limit, ops[0]), f, limit, ops[1..]);
    }
  }

  /** The run that shows it: a threshold of matches, all but the last before the sweep, then as many again */
  ghost function PulledApart(limit: Limit, maxIdle: real): seq<Op<Key>>
    requires limit.threshold >= 2
  {
    Hits(limit.threshold - 1, 0.0) + [Sweep(maxIdle, maxIdle)] + Hits(limit.threshold, maxIdle)
  }

  lemma SweptAway(e: Entry, limit: Limit, maxIdle: real, at: real)
    requires at - e.start >= maxIdle
    ensures var sweep: seq<Op<Key>> := [Sweep(maxIdle, at)];
      Answers(Some(e), limit, sweep) == [] && EntryAfter(Some(e), limit, sweep) == None
  {
    var sweep: seq<Op<Key>> := [Sweep(maxIdle, at)];
    assert sweep[1..] == [];
  }

  lemma SweptPulledApart(limit: Limit, maxIdle: real)
    requires limit.threshold >= 2 && 0.0 <= maxIdle <= limit.window
    ensures Answers(None, limit, PulledApart(limit, maxIdle)) == Falses(limit.threshold - 1) + (Falses(limit.threshold - 1) + [true])
  {
    var n := limit.threshold - 1;
    FreshHits(None, limit, n, 0.0);
    SweptAway(Entry(n, 0.0), limit, maxIdle, maxIdle);
    FullHits(None, limit, maxIdle);
    AnswersConcat(None, limit, Hits(n, 0.0), [Sweep(maxIdle, maxIdle)]);
    AnswersConcat(None, limit, Hits(n, 0.0) + [Sweep(maxIdle, maxIdle)], Hits(n + 1, maxIdle));
  }

  lemma UnsweptPulledApart(limit: Limit, maxIdle: real)
    requires limit.threshold >= 2 && 0.0 <= maxIdle <= limit.window
    ensures Answers(None, limit, Unswept(PulledApart(limit, maxIdle))) == Falses(limit.threshold - 1) + ([true] + Falses(limit.threshold - 1))
  {
    var n := limit.threshold - 1;
    var first, rest := Hits(1, maxIdle), Hits(n, maxIdle);
    UnsweptPieces(Hits(n, 0.0), maxIdle, maxIdle, Hits(n + 1, maxIdle));
    assert Hits(n + 1, maxIdle) == first + rest;
    FreshHits(None, limit, n, 0.0);
    FiringHit(Entry(n, 0.0), limit, maxIdle);
    LiveHits(Entry(0, maxIdle), limit, n, maxIdle);
    AnswersConcat(None, limit, Hits(n, 0.0), first + rest);
    AnswersConcat(Some(Entry(n, 0.0)), limit, first, rest);
  }

  lemma FiringHit(e: Entry, limit: Limit, t: real)
    requires limit.threshold >= 2 && t - e.start <= limit.window && e.count + 1 == limit.threshold
    ensures Answers(Some(e), limit, Hits(1, t)) == [true] && EntryAfter(Some(e), limit, Hits(1, t)) == Some(Entry(0, t))
  {
    assert Hits(1, t)[1..] == [];
  }

  lemma UnsweptPieces(a: seq<Op<Key>>, maxIdle: real, at: real, b: seq<Op<Key>>)
    requires (forall i :: 0 <= i < |a| ==> a[i].Use?) && (forall i :: 0 <= i < |b| ==> b[i].Use?)
    ensures Unswept(a + [Sweep(maxIdle, at)] + b) == a + b
  {
    var sweep: seq<Op<Key>> := [Sweep(maxIdle, at)];
    UnsweptConcat(a + sweep, b);
    UnsweptOne(a, maxIdle, at);
    UnsweptUses(b);
  }

  lemma UnsweptOne(a: seq<Op<Key>>, maxIdle: real, at: real)
    requires forall i :: 0 <= i < |a| ==> a[i].Use?
    ensures Unswept(a + [Sweep(maxIdle, at)]) == a
  {
    var sweep: seq<Op<Key>> := [Sweep(maxIdle, at)];
    assert sweep[1..] == [] && Unswept(sweep) == [];
    UnsweptConcat(a, sweep);
    UnsweptUses(a);
  }

  /**
   For every threshold and every idle bound within the window, one run shows a sweep both
   suppressing a firing (answer threshold - 1) and creating one (answer 2 threshold - 2).
   */
  lemma ShortIdleObservable(limit: Limit, maxIdle: real)
    requires limit.threshold >= 2 && 0.0 <= maxIdle <= limit.window
    ensures var ops, n := PulledApart(limit, maxIdle), limit.threshold - 1;
      var swept, unswept := Answers(None, limit, ops), Answers(None, limit, Unswept(ops));
      && InOrder(ops) && SweptAt(ops, maxIdle) && |swept| == |unswept| == 2 * n + 1
      && !swept[n] && unswept[n] && swept[2 * n] && !unswept[2 * n]
  {
    SweptPulledApart(limit, maxIdle);
    UnsweptPulledApart(limit, maxIdle);
  }

  /** Sweeping with this idle bound never shows in the answers of any run. */
  ghost predicate Unobservable(limit: Limit, maxIdle: real) {
    forall ops: seq<Op<Key>> :: InOrder(ops) && SweptAt(ops, maxIdle) ==> Answers(None, limit, ops) == Answers(None, limit, Unswept(ops))
  }

  lemma UnobservableIff(limit: Limit, maxIdle: real)
    requires limit.window >= 0.0 && maxIdle >= 0.0
    ensures Unobservable(limit, maxIdle) <==> limit.threshold <= 1 || limit.window < maxIdle
  {
    if limit.threshold <= 1 || limit.window < maxIdle {
      forall ops: seq<Op<Key>> | InOrder(ops) && SweptAt(ops, maxIdle) ensures Answers(None, limit, ops) == Answers(None, limit, Unswept(ops)) {
        if limit.threshold <= 1 {
          NoThresholdUnobservable(None, None, limit, ops);
        } else {
          LongIdleUnobservable(None, None, limit, if ops == [] then 0.0 else ops[0].at, ops);
        }
      }
    } else {
      ShortIdleObservable(limit, maxIdle);
    }
  }

  // ---------------------------------------------------------------------
  // When a sweep bans a source that would never have been banned
  // ---------------------------------------------------------------------

  ghost predicate BanFromNothing(limit: Limit, maxIdle: real, ops: seq<Op<Key>>) {
    InOrder(ops) && SweptAt(ops, maxIdle) && SomeFire(None, limit, ops) && !SomeFire(None, limit, Unswept(ops))
  }

  /** One match, a sweep, one match at the end of its window, and the rest of the threshold a window later */
  ghost function Shifted(limit: Limit, maxIdle: real): seq<Op<Key>>
    requires limit.threshold >= 2
  {
    Hits(1, 0.0) + [Sweep(maxIdle, limit.window)] + (Hits(1, limit.window) + Hits(limit.threshold - 1, limit.window + limit.window))
  }

  lemma SweptShifted(limit: Limit, maxIdle: real)
    requires limit.threshold >= 3 && 0.0 <= maxIdle <= limit.window
    ensures SomeFire(None, limit, Shifted(limit, maxIdle))
  {
    var w, tail := limit.window, Hits(1, limit.window) + Hits(limit.threshold - 1, limit.window + limit.window);
    FreshHits(None, limit, 1, 0.0);
    SweptAway(Entry(1, 0.0), limit, maxIdle, w);
    AnswersConcat(None, limit, Hits(1, 0.0), [Sweep(maxIdle, w)]);
    AnswersConcat(None, limit, Hits(1, 0.0) + [Sweep(maxIdle, w)], tail);
    EnoughMatchesFire(None, limit, tail);
    assert (Falses(limit.threshold - 1) + [true])[limit.threshold - 1];
  }

  lemma UnsweptShifted(limit: Limit, maxIdle: real)
    requires limit.threshold >= 3 && limit.window > 0.0
    ensures !SomeFire(None, limit, Unswept(Shifted(limit, maxIdle)))
  {
    var w, n := limit.window, limit.threshold - 1;
    UnsweptPieces(Hits(1, 0.0), maxIdle, w, Hits(1, w) + Hits(n, w + w));
    FreshHits(None, limit, 1, 0.0);
    LiveHits(Entry(1, 0.0), limit, 1, w);
    FreshHits(Some(Entry(2, 0.0)), limit, n, w + w);
    AnswersConcat(None, limit, Hits(1, 0.0), Hits(1, w) + Hits(n, w + w));
    AnswersConcat(Some(Entry(1, 0.0)), limit, Hits(1, w), Hits(n, w + w));
    NoTrue(1, n);
    NoTrue(1, n + 1);
    NoTrue(n + 2, 0);
  }

  lemma NoneFires(e: Option<Entry>, limit: Limit, ops: seq<Op<Key>>)
    requires ops != []
    ensures SomeFire(e, limit, ops) <==> (ops[0].Use? && Fires(e, limit, ops[0].at)) || SomeFire(AfterOp(e, limit, ops[0]), limit, ops[1..])
    ensures SomeFire(e, limit, Unswept(ops)) <==>
      if ops[0].Use? then Fires(e, limit, ops[0].at) || SomeFire(AfterOp(e, limit, ops[0]), limit, Unswept(ops[1..]))
      else SomeFire(e, limit, Unswept(ops[1..]))
  {
    UnsweptCons(ops, e, limit);
  }

  /** At a threshold of two a source that never fires leaves nothing for a sweep to shift. */
  lemma {:induction false} NotAtTwo(e: Option<Entry>, f: Option<Entry>, limit: Limit, ops: seq<Op<Key>>)
    requires limit.threshold == 2 && (e.None? || e == f) && (f.Some? ==> f.value.count == 1)
    requires !SomeFire(f, limit, Unswept(ops))
    ensures !SomeFire(e, limit, ops)
    decreases |ops|
  {
    if ops != [] {
      NoneFires(e, limit, ops);
      NoneFires(f, limit, ops);
      NotAtTwo(AfterOp(e, limit, ops[0]), if ops[0].Use? then AfterOp(f, limit, ops[0]) else f, limit, ops[1..]);
    }
  }

  /** Nor does a window of length zero, which only holds simultaneous matches. */
  lemma {:induction false} NotAtZero(e: Option<Entry>, f: Option<Entry>, limit: Limit, now: real, ops: seq<Op<Key>>)
    requires limit.threshold >= 2 && limit.window == 0.0 && Ordered(now, ops)
    requires e.Some? ==> f.Some? && e.value.start == f.value.start && e.value.count <= f.value.count
    requires f.Some? ==> f.value.start <= now
    requires !SomeFire(f, limit, Unswept(ops))
    ensures !SomeFire(e, limit, ops)
    decreases |ops|
  {
    if ops != [] {
      OrderedTail(now, ops);
      NoneFires(e, limit, ops);
      NoneFires(f, limit, ops);
      NotAtZero(AfterOp(e, limit, ops[0]), if ops[0].Use? then AfterOp(f, limit, ops[0]) else f, limit, ops[0].at, ops[1..]);
    }
  }

  /** Some run is banned only because of its sweeps iff the threshold is at least three and the idle bound lies within a window of positive length. */
  lemma BanFromNothingIff(limit: Limit, maxIdle: real)
    requires limit.window >= 0.0 && maxIdle >= 0.0
    ensures (exists ops :: BanFromNothing(limit, maxIdle, ops)) <==> limit.threshold >= 3 && limit.window > 0.0 && maxIdle <= limit.window
  {
    if limit.threshold >= 3 && limit.window > 0.0 && maxIdle <= limit.window {
      SweptShifted(limit, maxIdle);
      UnsweptShifted(limit, maxIdle);
      assert BanFromNothing(limit, maxIdle, Shifted(limit, maxIdle));
    } else if exists ops :: BanFromNothing(limit, maxIdle, ops) {
      var ops :| BanFromNothing(limit, maxIdle, ops);
      NothingFromNothing(limit, maxIdle, ops);
    }
  }

  lemma NothingFromNothing(limit: Limit, maxIdle: real, ops: seq<Op<Key>>)
    requires limit.window >= 0.0 && maxIdle >= 0.0 && InOrder(ops) && SweptAt(ops, maxIdle)
    requires limit.threshold <= 2 || limit.window == 0.0 || limit.window < maxIdle
    requires !SomeFire(None, limit, Unswept(ops))
    ensures !SomeFire(None, limit, ops)
  {
    UnobservableIff(limit, maxIdle);
    if !(limit.threshold <= 1 || limit.window < maxIdle) {
      if limit.threshold == 2 {
        NotAtTwo(None, None, limit, ops);
      } else {
        NotAtZero(None, None, limit, if ops == [] then 0.0 else ops[0].at, ops);
      }
    }
  }

  // ---------------------------------------------------------------------
  // The shared table: many rules and sources, one sweep for all
  // ---------------------------------------------------------------------

  /** Each rule and source is tracked apart from every other. */
  lemma RecordedAt(counts: map<Key, Entry>, key: Key, limit: Limit, now: real, other: Key)
    ensures At(Recorded(counts, key, limit, now), other) == if other == key then AfterMatch(At(counts, key), limit, now) else At(counts, other)
  {
  }

  ghost function TableStep(counts: map<Key, Entry>, limits: nat -> Limit, op: Op<Key>): map<Key, Entry> {
    match op
    case Use(key, at) => Recorded(counts, key, limits(key.0), at)
    case Sweep(maxIdle, at) => map key | key in counts && at - counts[key].start < maxIdle :: counts[key]
  }

  /** The table after a run of matches of any rules and sources, from an empty one */
  ghost function TableAfter(limits: nat -> Limit, ops: seq<Op<Key>>): map<Key, Entry> {
    if ops == [] then map[] else TableStep(TableAfter(limits, ops[..|ops| - 1]), limits, ops[|ops| - 1])
  }

  /** The part of a run that concerns one key: its own matches and every sweep */
  ghost function Project(ops: seq<Op<Key>>, key: Key): seq<Op<Key>> {
    if ops == [] then []
    else Project(ops[..|ops| - 1], key) + if ops[|ops| - 1].Sweep? || ops[|ops| - 1].what == key then [ops[|ops| - 1]] else []
  }

  lemma RunSnoc(limit: Limit, ops: seq<Op<Key>>, op: Op<Key>)
    ensures Run(limit, ops + [op]).entry == AfterOp(Run(limit, ops).entry, limit, op)
  {
    assert (ops + [op])[..|ops|] == ops;
  }

  /** Each entry of the shared table is what the key's own run leaves. */
  lemma {:induction false} KeyRunsAlone(limits: nat -> Limit, ops: seq<Op<Key>>, key: Key)
    ensures At(TableAfter(limits, ops), key) == Run(limits(key.0), Project(ops, key)).entry
  {
    if ops != [] {
      var init, op := ops[..|ops| - 1], ops[|ops| - 1];
      KeyRunsAlone(limits, init, key);
      var mine := Project(init, key);
      if op.Use? {
        RecordedAt(TableAfter(limits, init), op.what, limits(op.what.0), op.at, key);
        assert op.what != key ==> Project(ops, key) == mine + [] == mine;
      }
      if op.Sweep? || op.what == key { RunSnoc(limits(key.0), mine, op); }
    }
  }

  lemma {:induction false} ProjectInOrder(ops: seq<Op<Key>>, key: Key)
    requires InOrder(ops)
    ensures InOrder(Project(ops, key)) && forall i :: 0 <= i < |Project(ops, key)| ==> Project(ops, key)[i] in ops
    ensures forall i :: 0 <= i < |Project(ops, key)| && Project(ops, key)[i].Use? ==> Project(ops, key)[i].what == key
  {
    if ops != [] { ProjectInOrder(ops[..|ops| - 1], key); }
  }

  /**
   Over every run of the shared table: a match is answered as the key's own run answers it,
   and the firings of each rule and source are backed by matches of that rule and source alone.
   */
  lemma TableFiringsAreBacked(limits: nat -> Limit, ops: seq<Op<Key>>, key: Key, at: real, f: nat, g: nat, k: nat, m: nat)
    requires InOrder(ops) && limits(key.0).threshold >= 2 && limits(key.0).window >= 0.0
    ensures Fires(At(TableAfter(limits, ops), key), limits(key.0), at) == Fires(Run(limits(key.0), Project(ops, key)).entry, limits(key.0), at)
    ensures var mine := Project(ops, key);
      var fired := Run(limits(key.0), mine).fired;
      && (forall i :: 0 <= i < |mine| && mine[i].Use? ==> mine[i].what == key)
      && (f < |fired| ==> Backed(mine, limits(key.0), fired[f]))
      && (f < |fired| && g < |fired| && f != g && k < |fired[f]| && m < |fired[g]| ==> fired[f][k] != fired[g][m])
  {
    KeyRunsAlone(limits, ops, key);
    ProjectInOrder(ops, key);
    var fired := Run(limits(key.0), Project(ops, key)).fired;
    if f < |fired| { FiringsAreBacked(limits(key.0), Project(ops, key), f, if g < |fired| then g else f, k, m); }
  }
}
