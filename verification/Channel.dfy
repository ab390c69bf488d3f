/**
 The bounded multi-producer, single-consumer channel as a transition system.

 Every thread action that other threads can observe is one step: taking the
 mutex, loading an atomic while the mutex is held, pushing or parking, the
 notification that is issued after the mutex has been released, the atomic
 decrement of a dropped sender and the locked notification that follows it.
 `Next` relates a state to its successors; a run is any sequence of states so related.
 */
module Channel {

  type OpId = nat
  type HandleId = nat

  /** `send`, `try_send` and `send_timeout` */
  datatype SendMode = Blocking | NonBlocking | Timed

  datatype SendPc =
    | Want      // about to lock the mutex, for the first time or after a wait
    | Locked    // holds the mutex, about to load `receiver_alive`
    | SawAlive  // holds the mutex, the load returned 1
    | Parked    // inside `not_full.wait`
    | Owes      // pushed and unlocked, `not_empty.notify_one` still to come

  /** One call in progress. It borrows a sender handle, so several calls may share one. */
  datatype SendOp<T> = SendOp(handle: HandleId, item: T, mode: SendMode, pc: SendPc, woken: bool)

  /** The drop of the last sender: decremented, now locking and notifying */
  datatype DropPc = DropWant | DropLocked

  datatype RecvPc =
    | Idle
    | RecvWant(blocking: bool)
    | RecvLocked(blocking: bool)
    | FoundEmpty(blocking: bool)  // holds the mutex, queue was empty, about to load `sender_count`
    | SawSenders                  // holds the mutex, the load was positive, about to wait
    | RecvParked                  // inside `not_empty.wait`
    | RecvOwes                    // popped and unlocked, `not_full.notify_one` still to come
    | CloseWant                   // stored `receiver_alive = 0`, about to lock
    | CloseLocked                 // holds the mutex, about to `not_full.notify_all`
    | Gone

  datatype Owner = Free | BySend(op: OpId) | ByDrop(op: OpId) | ByReceiver

  datatype Outcome<T> = Accepted | Disconnected(item: T) | Full(item: T) | TimedOut(item: T)

  /** What a `recv` or `try_recv` returns */
  datatype Reply<T> = Item(entry: Entry<T>) | NoSender | Nothing

  /** A queued item, tagged with the call that sent it */
  datatype Entry<T> = Entry(op: OpId, item: T)

  /** How every send was called, and every `recv` (true) and `try_recv` (false) with the replies decided so far */
  datatype Book<T> = Book(modes: map<OpId, SendMode>, calls: seq<bool>, replies: seq<Reply<T>>)

  datatype State<T> = State(
    capacity: nat,
    queue: seq<Entry<T>>,
    senderCount: nat,
    receiverAlive: bool,
    owner: Owner,
    handles: set<HandleId>,
    sends: map<OpId, SendOp<T>>,
    drops: map<OpId, DropPc>,
    recv: RecvPc,
    // what has happened so far
    offered: map<OpId, T>,
    outcomes: map<OpId, Outcome<T>>,
    accepted: seq<Entry<T>>,
    received: seq<Entry<T>>,
    reportedDisconnected: bool,
    book: Book<T>)

  function Init<T>(capacity: nat): State<T> {
    State(capacity, [], 1, true, Free, {0}, map[], map[], Idle, map[], map[], [], [], false, Book(map[], [], []))
  }

  /** Steps of the call `op` */
  datatype SendStep<T> =
    | StartSend(op: OpId, handle: HandleId, item: T, mode: SendMode)
    | SendLock(op: OpId)
    | SendLoad(op: OpId)
    | SendPush(op: OpId)
    | SendRefuse(op: OpId)  // full: `try_send` gives up, `send_timeout` finds its deadline passed
    | SendPark(op: OpId)
    | SendNotify(op: OpId)
    | SendWake(op: OpId)

  /** Cloning and dropping sender handles */
  datatype HandleStep =
    | CloneSender(handle: HandleId, copy: HandleId)
    | DropSender(handle: HandleId, op: OpId)
    | DropLock(op: OpId)
    | DropNotify(op: OpId)

  /** Steps of the one receiver. `NotifyRecv` names the waiter the condvar picks, if there is one. */
  datatype RecvStep =
    | StartRecv(blocking: bool)
    | LockRecv
    | PopRecv
    | FindEmpty
    | LoadRecv
    | ParkRecv
    | NotifyRecv(woken: OpId)
    | WakeRecv
    | CloseStore
    | CloseLock
    | CloseNotify

  datatype Step<T> = OfSender(send: SendStep<T>) | OfHandle(handle: HandleStep) | OfReceiver(recv: RecvStep)

  predicate AtPc<T>(s: State<T>, op: OpId, pc: SendPc) {
    op in s.sends && s.sends[op].pc == pc
  }

  predicate AnySend<T>(s: State<T>, pc: SendPc) {
    exists op :: op in s.sends && AtPc(s, op, pc)
  }

  predicate AnyDrop<T>(s: State<T>) { exists op :: op in s.drops }

  function Awake<T>(o: SendOp<T>): SendOp<T> {
    if o.pc.Parked? then o.(pc := Want, woken := true) else o
  }

  function WakeAll<T>(sends: map<OpId, SendOp<T>>): map<OpId, SendOp<T>> {
    map op | op in sends :: Awake(sends[op])
  }

  /** `not_empty.notify_one`: the only thread that ever waits there is the receiver. */
  function NotifyEmpty(r: RecvPc): RecvPc {
    if r.RecvParked? then RecvWant(true) else r
  }

  /** A call returns while it holds the mutex. */
  function Finish<T>(s: State<T>, op: OpId, outcome: Outcome<T>): State<T> {
    s.(owner := Free, sends := s.sends - {op}, outcomes := s.outcomes[op := outcome])
  }

  ghost predicate SendNext<T>(s: State<T>, step: SendStep<T>, t: State<T>) {
    match step
    case StartSend(op, h, item, mode) =>
      && op !in s.offered && h in s.handles
      && t == s.(sends := s.sends[op := SendOp(h, item, mode, Want, false)], offered := s.offered[op := item], book := s.book.(modes := s.book.modes[op := mode]))
    case SendLock(op) =>
      && AtPc(s, op, Want) && s.owner.Free?
      && t == s.(owner := BySend(op), sends := s.sends[op := s.sends[op].(pc := Locked)])
    case SendLoad(op) =>
      && AtPc(s, op, Locked)
      && (s.receiverAlive ==> t == s.(sends := s.sends[op := s.sends[op].(pc := SawAlive)]))
      && (!s.receiverAlive ==> t == Finish(s, op, Disconnected(s.sends[op].item)))
    case SendPush(op) =>
      && AtPc(s, op, SawAlive) && |s.queue| < s.capacity
      && t == s.(owner := Free, queue := s.queue + [Entry(op, s.sends[op].item)],
                 accepted := s.accepted + [Entry(op, s.sends[op].item)],
                 sends := s.sends[op := s.sends[op].(pc := Owes)])
    case SendRefuse(op) =>
      && AtPc(s, op, SawAlive) && |s.queue| >= s.capacity
      && ((s.sends[op].mode.NonBlocking? && t == Finish(s, op, Full(s.sends[op].item)))
          || (s.sends[op].mode.Timed? && t == Finish(s, op, TimedOut(s.sends[op].item))))
    case SendPark(op) =>
      && AtPc(s, op, SawAlive) && |s.queue| >= s.capacity && !s.sends[op].mode.NonBlocking?
      && t == s.(owner := Free, sends := s.sends[op := s.sends[op].(pc := Parked, woken := false)])
    case SendNotify(op) =>
      && AtPc(s, op, Owes)
      && t == s.(sends := s.sends - {op}, outcomes := s.outcomes[op := Accepted], recv := NotifyEmpty(s.recv))
    case SendWake(op) =>
      && AtPc(s, op, Parked)
      && t == s.(sends := s.sends[op := Awake(s.sends[op])])
  }

  ghost predicate HandleNext<T>(s: State<T>, step: HandleStep, t: State<T>) {
    match step
    case CloneSender(h, copy) =>
      && h in s.handles && copy !in s.handles
      && t == s.(senderCount := s.senderCount + 1, handles := s.handles + {copy})
    case DropSender(h, op) =>
      && h in s.handles && op !in s.drops && s.senderCount > 0
      && (forall o :: o in s.sends ==> s.sends[o].handle != h)
      && t == s.(senderCount := s.senderCount - 1, handles := s.handles - {h},
                 drops := if s.senderCount == 1 then s.drops[op := DropWant] else s.drops)
    case DropLock(op) =>
      && op in s.drops && s.drops[op].DropWant? && s.owner.Free?
      && t == s.(owner := ByDrop(op), drops := s.drops[op := DropLocked])
    case DropNotify(op) =>
      && op in s.drops && s.drops[op].DropLocked?
      && t == s.(owner := Free, drops := s.drops - {op}, recv := NotifyEmpty(s.recv))
  }

  ghost predicate RecvNext<T>(s: State<T>, step: RecvStep, t: State<T>) {
    match step
    case StartRecv(blocking) => s.recv.Idle? && t == s.(recv := RecvWant(blocking), book := s.book.(calls := s.book.calls + [blocking]))
    case LockRecv =>
      s.recv.RecvWant? && s.owner.Free? && t == s.(owner := ByReceiver, recv := RecvLocked(s.recv.blocking))
    case PopRecv =>
      && s.recv.RecvLocked? && |s.queue| > 0
      && t == s.(owner := Free, queue := s.queue[1..], received := s.received + [s.queue[0]], book := s.book.(replies := s.book.replies + [Item(s.queue[0])]), recv := RecvOwes)
    case FindEmpty =>
      s.recv.RecvLocked? && |s.queue| == 0 && t == s.(recv := FoundEmpty(s.recv.blocking))
    case LoadRecv =>
      && s.recv.FoundEmpty?
      && (s.senderCount == 0 ==> t == s.(owner := Free, recv := Idle, book := s.book.(replies := s.book.replies + [NoSender]), reportedDisconnected := true))
      && (s.senderCount > 0 && s.recv.blocking ==> t == s.(recv := SawSenders))
      && (s.senderCount > 0 && !s.recv.blocking ==> t == s.(owner := Free, recv := Idle, book := s.book.(replies := s.book.replies + [Nothing])))
    case ParkRecv => s.recv.SawSenders? && t == s.(owner := Free, recv := RecvParked)
    case NotifyRecv(op) =>
      && s.recv.RecvOwes?
      && (AtPc(s, op, Parked) ==> t == s.(recv := Idle, sends := s.sends[op := Awake(s.sends[op])]))
      && (!AtPc(s, op, Parked) ==> !AnySend(s, Parked) && t == s.(recv := Idle))
    case WakeRecv => s.recv.RecvParked? && t == s.(recv := RecvWant(true))
    case CloseStore => s.recv.Idle? && t == s.(receiverAlive := false, recv := CloseWant)
    case CloseLock => s.recv.CloseWant? && s.owner.Free? && t == s.(owner := ByReceiver, recv := CloseLocked)
    case CloseNotify => s.recv.CloseLocked? && t == s.(owner := Free, recv := Gone, sends := WakeAll(s.sends))
  }

  ghost predicate Next<T>(s: State<T>, step: Step<T>, t: State<T>) {
    match step
    case OfSender(send) => SendNext(s, send, t)
    case OfHandle(handle) => HandleNext(s, handle, t)
    case OfReceiver(recv) => RecvNext(s, recv, t)
  }

  // ---------------------------------------------------------------------
  // The invariant, one predicate a concern
  // ---------------------------------------------------------------------

  /** The mutex is held by exactly the thread whose program counter says so. */
  ghost predicate MutexInv<T>(s: State<T>) {
    && s.sends.Keys <= s.offered.Keys
    && (forall op :: op in s.sends ==> ((s.sends[op].pc.Locked? || s.sends[op].pc.SawAlive?) <==> s.owner == BySend(op)))
    && (s.owner.BySend? ==> s.owner.op in s.sends)
    && (forall op :: op in s.drops ==> (s.drops[op].DropLocked? <==> s.owner == ByDrop(op)))
    && (s.owner.ByDrop? ==> s.owner.op in s.drops)
    && (s.owner.ByReceiver? <==>
        (s.recv.RecvLocked? || s.recv.FoundEmpty? || s.recv.SawSenders? || s.recv.CloseLocked?))
  }

  /** `sender_count` counts the live handles, and calls only borrow live handles. */
  ghost predicate HandleInv<T>(s: State<T>) {
    && s.senderCount == |s.handles|
    && (forall op :: op in s.sends ==> s.sends[op].handle in s.handles)
    && (AnyDrop(s) ==> s.handles == {})
    && (s.receiverAlive <==> !(s.recv.CloseWant? || s.recv.CloseLocked? || s.recv.Gone?))
  }

  /** Conservation: every accepted item was received or is queued, in order, within the capacity. */
  ghost predicate QueueInv<T>(s: State<T>) {
    && s.accepted == s.received + s.queue
    && |s.queue| <= s.capacity
    && (s.recv.FoundEmpty? || s.recv.SawSenders? ==> s.queue == [])
    && (s.reportedDisconnected ==> s.handles == {} && s.queue == [])
  }

  ghost predicate Has<T>(entries: seq<Entry<T>>, op: OpId) {
    exists i :: 0 <= i < |entries| && entries[i].op == op
  }

  /** A call's item is accepted exactly once iff the call succeeds; a failed call returns its own item. */
  ghost predicate OutcomeInv<T>(s: State<T>) {
    && s.offered.Keys == s.sends.Keys + s.outcomes.Keys
    && s.sends.Keys !! s.outcomes.Keys
    && (forall op :: op in s.sends ==> s.sends[op].item == s.offered[op] && (Has(s.accepted, op) <==> s.sends[op].pc.Owes?))
    && (forall op :: op in s.outcomes ==>
          && (s.outcomes[op].Accepted? || s.outcomes[op].item == s.offered[op])
          && (Has(s.accepted, op) <==> s.outcomes[op].Accepted?))
    && (forall i :: 0 <= i < |s.accepted| ==> s.accepted[i].op in s.offered && s.accepted[i].item == s.offered[s.accepted[i].op])
    && (forall i, j :: 0 <= i < j < |s.accepted| ==> s.accepted[i].op != s.accepted[j].op)
  }

  predicate IsWoken<T>(o: SendOp<T>) { o.woken && (o.pc.Want? || o.pc.Locked? || o.pc.SawAlive?) }

  function Woken<T>(sends: map<OpId, SendOp<T>>): set<OpId> { set op | op in sends && IsWoken(sends[op]) }

  function NotFullOwed<T>(s: State<T>): nat { if s.recv.RecvOwes? then 1 else 0 }

  /** No sender sleeps through a free slot or through the receiver's departure. */
  ghost predicate SenderWakeInv<T>(s: State<T>) {
    && (s.receiverAlive && AnySend(s, Parked) ==> s.capacity - |s.queue| <= NotFullOwed(s) + |Woken(s.sends)|)
    && (!s.receiverAlive && AnySend(s, Parked) ==> s.recv.CloseWant? || s.recv.CloseLocked?)
    && (!s.receiverAlive && AnySend(s, SawAlive) ==> s.recv.CloseWant?)
  }

  ghost predicate NotEmptyOwed<T>(s: State<T>) { AnySend(s, Owes) || AnyDrop(s) }

  /** The receiver does not sleep through an item or through the last sender's departure. */
  ghost predicate ReceiverWakeInv<T>(s: State<T>) {
    && (s.recv.RecvParked? && |s.queue| > 0 ==> NotEmptyOwed(s))
    && ((s.recv.RecvParked? || s.recv.SawSenders?) && s.senderCount == 0 ==> AnyDrop(s))
  }

  ghost predicate Inv<T>(s: State<T>) {
    && s.capacity > 0
    && MutexInv(s) && HandleInv(s) && QueueInv(s) && OutcomeInv(s) && SenderWakeInv(s) && ReceiverWakeInv(s)
  }

  // ---------------------------------------------------------------------
  // Every step keeps it
  // ---------------------------------------------------------------------

  lemma MutexBySend<T>(s: State<T>, step: SendStep<T>, t: State<T>)
    requires MutexInv(s) && SendNext(s, step, t)
    ensures MutexInv(t)
  {
  }

  lemma HandlesBySend<T>(s: State<T>, step: SendStep<T>, t: State<T>)
    requires HandleInv(s) && SendNext(s, step, t)
    ensures HandleInv(t)
  {
  }

  lemma QueueBySend<T>(s: State<T>, step: SendStep<T>, t: State<T>)
    requires MutexInv(s) && HandleInv(s) && QueueInv(s) && SendNext(s, step, t)
    ensures QueueInv(t)
  {
  }

  lemma HasAfterPush<T>(entries: seq<Entry<T>>, e: Entry<T>, op: OpId)
    ensures Has(entries + [e], op) <==> Has(entries, op) || op == e.op
  {
    if Has(entries, op) {
      var i :| 0 <= i < |entries| && entries[i].op == op;
      assert (entries + [e])[i].op == op;
    } else if op == e.op {
      assert (entries + [e])[|entries|].op == op;
    }
  }

  lemma PushOutcome<T>(s: State<T>, op: OpId, t: State<T>)
    requires OutcomeInv(s) && SendNext(s, SendPush(op), t)
    ensures OutcomeInv(t)
  {
    forall o ensures Has(t.accepted, o) <==> Has(s.accepted, o) || o == op {
      HasAfterPush(s.accepted, Entry(op, s.sends[op].item), o);
    }
  }

  /** A step that leaves the histories alone and only moves calls that have not pushed */
  lemma OutcomeFrame<T>(s: State<T>, t: State<T>)
    requires OutcomeInv(s)
    requires t.offered == s.offered && t.outcomes == s.outcomes && t.accepted == s.accepted && t.sends.Keys == s.sends.Keys
    requires forall op :: op in s.sends ==> t.sends[op].item == s.sends[op].item && t.sends[op].pc.Owes? == s.sends[op].pc.Owes?
    ensures OutcomeInv(t)
  {
  }

  /** A call returns: `SendNotify` with success, the others with the item they were given. */
  lemma ReturnOutcome<T>(s: State<T>, t: State<T>, op: OpId, outcome: Outcome<T>)
    requires OutcomeInv(s) && op in s.sends
    requires outcome.Accepted? <==> s.sends[op].pc.Owes?
    requires outcome.Accepted? || outcome.item == s.sends[op].item
    requires t.offered == s.offered && t.accepted == s.accepted
    requires t.sends == s.sends - {op} && t.outcomes == s.outcomes[op := outcome]
    ensures OutcomeInv(t)
  {
  }

  lemma StartOutcome<T>(s: State<T>, step: SendStep<T>, t: State<T>)
    requires OutcomeInv(s) && SendNext(s, step, t) && step.StartSend?
    ensures OutcomeInv(t)
  {
  }

  lemma OutcomesBySend<T>(s: State<T>, step: SendStep<T>, t: State<T>)
    requires OutcomeInv(s) && SendNext(s, step, t)
    ensures OutcomeInv(t)
  {
    var op := step.op;
    if step.SendPush? {
      PushOutcome(s, op, t);
    } else if step.StartSend? {
      StartOutcome(s, step, t);
    } else if op in t.sends {
      OutcomeFrame(s, t);
    } else {
      ReturnOutcome(s, t, op, t.outcomes[op]);
    }
  }

  lemma WokenAfterUpdate<T>(sends: map<OpId, SendOp<T>>, op: OpId, o: SendOp<T>)
    ensures Woken(sends[op := o]) == if IsWoken(o) then Woken(sends) + {op} else Woken(sends) - {op}
    ensures Woken(sends - {op}) == Woken(sends) - {op}
  {
  }

  /** A call at `op` changed only its own entry. */
  lemma OthersUnmoved<T>(s: State<T>, t: State<T>, op: OpId, pc: SendPc)
    requires t.sends - {op} == s.sends - {op}
    requires !AtPc(t, op, pc) && AnySend(t, pc)
    ensures AnySend(s, pc)
  {
    var o :| o in t.sends && AtPc(t, o, pc);
    assert o in s.sends - {op} && (s.sends - {op})[o] == (t.sends - {op})[o];
    assert AtPc(s, o, pc);
  }

  lemma SenderWakeByStart<T>(s: State<T>, step: SendStep<T>, t: State<T>)
    requires MutexInv(s) && SenderWakeInv(s) && SendNext(s, step, t) && (step.StartSend? || step.SendLock?)
    ensures SenderWakeInv(t)
  {
    var op := step.op;
    if AnySend(t, Parked) { OthersUnmoved(s, t, op, Parked); }
    if AnySend(t, SawAlive) { OthersUnmoved(s, t, op, SawAlive); }
    WokenAfterUpdate(s.sends, op, t.sends[op]);
  }

  lemma SenderWakeByReturn<T>(s: State<T>, step: SendStep<T>, t: State<T>)
    requires SenderWakeInv(s) && SendNext(s, step, t) && step.SendNotify?
    ensures SenderWakeInv(t)
  {
    var op := step.op;
    if AnySend(t, Parked) { OthersUnmoved(s, t, op, Parked); }
    if AnySend(t, SawAlive) { OthersUnmoved(s, t, op, SawAlive); }
    WokenAfterUpdate(s.sends, op, s.sends[op]);
    assert Woken(t.sends) == Woken(s.sends);
  }

  lemma SenderWakeByWake<T>(s: State<T>, step: SendStep<T>, t: State<T>)
    requires SenderWakeInv(s) && SendNext(s, step, t) && step.SendWake?
    ensures SenderWakeInv(t)
  {
    var op := step.op;
    if AnySend(t, SawAlive) { OthersUnmoved(s, t, op, SawAlive); }
    assert AtPc(s, op, Parked);
    WokenAfterUpdate(s.sends, op, t.sends[op]);
  }

  lemma SenderWakeByLoad<T>(s: State<T>, step: SendStep<T>, t: State<T>)
    requires MutexInv(s) && SenderWakeInv(s) && SendNext(s, step, t) && step.SendLoad?
    ensures SenderWakeInv(t)
  {
    var op := step.op;
    if AnySend(t, Parked) { OthersUnmoved(s, t, op, Parked); }
    if s.receiverAlive {
      WokenAfterUpdate(s.sends, op, t.sends[op]);
    } else if AnySend(t, SawAlive) {
      OthersUnmoved(s, t, op, SawAlive);
    }
  }

  lemma SenderWakeByRefusal<T>(s: State<T>, step: SendStep<T>, t: State<T>)
    requires MutexInv(s) && SenderWakeInv(s) && SendNext(s, step, t) && step.SendRefuse?
    ensures SenderWakeInv(t)
  {
    if AnySend(t, Parked) { OthersUnmoved(s, t, step.op, Parked); }
    if AnySend(t, SawAlive) { OthersUnmoved(s, t, step.op, SawAlive); }
  }

  /** A call uses a free slot, or parks because there is none. */
  lemma SenderWakeByUse<T>(s: State<T>, step: SendStep<T>, t: State<T>)
    requires MutexInv(s) && SenderWakeInv(s) && SendNext(s, step, t) && (step.SendPush? || step.SendPark?)
    ensures SenderWakeInv(t)
  {
    var op := step.op;
    if AnySend(t, Parked) && !AtPc(t, op, Parked) { OthersUnmoved(s, t, op, Parked); }
    if AnySend(t, SawAlive) { OthersUnmoved(s, t, op, SawAlive); }
    assert AtPc(s, op, SawAlive) && AnySend(s, SawAlive);
    WokenAfterUpdate(s.sends, op, t.sends[op]);
  }

  lemma ReceiverWakeBySend<T>(s: State<T>, step: SendStep<T>, t: State<T>)
    requires MutexInv(s) && HandleInv(s) && QueueInv(s) && ReceiverWakeInv(s) && SendNext(s, step, t)
    ensures ReceiverWakeInv(t)
  {
    if step.SendPush? { assert AtPc(t, step.op, Owes); }
    if AnySend(s, Owes) && !step.SendNotify? {
      var op :| op in s.sends && AtPc(s, op, Owes);
      assert AtPc(t, op, Owes);
    }
  }

  lemma InvBySend<T>(s: State<T>, step: SendStep<T>, t: State<T>)
    requires Inv(s) && SendNext(s, step, t)
    ensures Inv(t)
  {
    MutexBySend(s, step, t);
    HandlesBySend(s, step, t);
    QueueBySend(s, step, t);
    OutcomesBySend(s, step, t);
    ReceiverWakeBySend(s, step, t);
    match step
    case StartSend(_, _, _, _) => SenderWakeByStart(s, step, t);
    case SendLock(_) => SenderWakeByStart(s, step, t);
    case SendNotify(_) => SenderWakeByReturn(s, step, t);
    case SendWake(_) => SenderWakeByWake(s, step, t);
    case SendLoad(_) => SenderWakeByLoad(s, step, t);
    case SendRefuse(_) => SenderWakeByRefusal(s, step, t);
    case _ => SenderWakeByUse(s, step, t);
  }

  /** Steps that do not touch the calls in progress keep what is said about them. */
  lemma SenderWakeFrame<T>(s: State<T>, t: State<T>)
    requires SenderWakeInv(s) && t.sends == s.sends && t.capacity == s.capacity
    requires t.receiverAlive ==> s.receiverAlive && s.capacity - |s.queue| - NotFullOwed(s) >= t.capacity - |t.queue| - NotFullOwed(t)
    requires !t.receiverAlive && s.receiverAlive ==> t.recv.CloseWant?
    requires !s.receiverAlive ==> t.recv == s.recv || t.recv.CloseLocked?
    requires t.recv.CloseLocked? && !s.recv.CloseLocked? ==> !AnySend(s, SawAlive)
    ensures SenderWakeInv(t)
  {
    assert AnySend(t, Parked) ==> AnySend(s, Parked);
    assert AnySend(t, SawAlive) ==> AnySend(s, SawAlive);
  }

  lemma InvByHandle<T>(s: State<T>, step: HandleStep, t: State<T>)
    requires Inv(s) && HandleNext(s, step, t)
    ensures Inv(t)
  {
    OutcomeFrame(s, t);
    SenderWakeFrame(s, t);
    assert HandleInv(t);
    assert QueueInv(t);
    assert ReceiverWakeInv(t) by {
      if step.DropSender? { assert s.senderCount == 1 ==> step.op in t.drops; }
      if AnySend(s, Owes) { assert AnySend(t, Owes); }
      if AnyDrop(s) && !step.DropNotify? {
        var op :| op in s.drops;
        assert op in t.drops;
      }
    }
  }

  /** The receiver wakes every waiter when it goes. */
  lemma SenderWakeByClose<T>(s: State<T>, t: State<T>)
    requires SenderWakeInv(s) && RecvNext(s, CloseNotify, t) && !s.receiverAlive
    ensures SenderWakeInv(t)
  {
    assert !AnySend(t, Parked);
    assert AnySend(t, SawAlive) ==> AnySend(s, SawAlive);
  }

  /** The receiver wakes one waiter after a pop. */
  lemma SenderWakeByNotify<T>(s: State<T>, op: OpId, t: State<T>)
    requires SenderWakeInv(s) && RecvNext(s, NotifyRecv(op), t) && s.receiverAlive
    ensures SenderWakeInv(t)
  {
    if AtPc(s, op, Parked) {
      assert AnySend(s, Parked);
      WokenAfterUpdate(s.sends, op, t.sends[op]);
    } else {
      assert AnySend(t, Parked) ==> AnySend(s, Parked);
    }
  }

  lemma ReceiverWakeByRecv<T>(s: State<T>, step: RecvStep, t: State<T>)
    requires MutexInv(s) && HandleInv(s) && QueueInv(s) && ReceiverWakeInv(s) && RecvNext(s, step, t)
    ensures ReceiverWakeInv(t)
  {
  }

  lemma QueueByRecv<T>(s: State<T>, step: RecvStep, t: State<T>)
    requires MutexInv(s) && HandleInv(s) && QueueInv(s) && RecvNext(s, step, t)
    ensures QueueInv(t)
  {
  }

  predicate Notifies(step: RecvStep) { step.NotifyRecv? || step.CloseNotify? }

  lemma HandlesByNotify<T>(s: State<T>, step: RecvStep, t: State<T>)
    requires HandleInv(s) && RecvNext(s, step, t) && Notifies(step)
    ensures HandleInv(t)
  {
  }

  lemma HandlesByRecv<T>(s: State<T>, step: RecvStep, t: State<T>)
    requires HandleInv(s) && RecvNext(s, step, t) && !Notifies(step)
    ensures HandleInv(t)
  {
  }

  lemma MutexByNotify<T>(s: State<T>, step: RecvStep, t: State<T>)
    requires MutexInv(s) && RecvNext(s, step, t) && Notifies(step)
    ensures MutexInv(t)
  {
  }

  /** The receiver takes or releases the mutex; nobody else's program counter moves. */
  lemma MutexFrame<T>(s: State<T>, t: State<T>)
    requires MutexInv(s) && t.sends == s.sends && t.drops == s.drops && t.offered == s.offered
    requires s.owner == t.owner || ((s.owner.Free? || s.owner.ByReceiver?) && (t.owner.Free? || t.owner.ByReceiver?))
    requires t.owner.ByReceiver? <==> (t.recv.RecvLocked? || t.recv.FoundEmpty? || t.recv.SawSenders? || t.recv.CloseLocked?)
    ensures MutexInv(t)
  {
  }

  lemma MutexByRecv<T>(s: State<T>, step: RecvStep, t: State<T>)
    requires MutexInv(s) && RecvNext(s, step, t) && !Notifies(step)
    ensures MutexInv(t)
  {
    MutexFrame(s, t);
  }

  lemma OutcomesByNotify<T>(s: State<T>, step: RecvStep, t: State<T>)
    requires OutcomeInv(s) && RecvNext(s, step, t) && Notifies(step)
    ensures OutcomeInv(t)
  {
    OutcomeFrame(s, t);
  }

  lemma OutcomesByRecv<T>(s: State<T>, step: RecvStep, t: State<T>)
    requires OutcomeInv(s) && RecvNext(s, step, t) && !Notifies(step)
    ensures OutcomeInv(t)
  {
    OutcomeFrame(s, t);
  }

  lemma SenderWakeByRecv<T>(s: State<T>, step: RecvStep, t: State<T>)
    requires MutexInv(s) && HandleInv(s) && SenderWakeInv(s) && RecvNext(s, step, t) && !Notifies(step)
    ensures SenderWakeInv(t)
  {
    SenderWakeFrame(s, t);
  }

  lemma InvByRecv<T>(s: State<T>, step: RecvStep, t: State<T>)
    requires Inv(s) && RecvNext(s, step, t)
    ensures Inv(t)
  {
    QueueByRecv(s, step, t);
    ReceiverWakeByRecv(s, step, t);
    if Notifies(step) {
      HandlesByNotify(s, step, t);
      OutcomesByNotify(s, step, t);
      MutexByNotify(s, step, t);
      if step.CloseNotify? { SenderWakeByClose(s, t); } else { SenderWakeByNotify(s, step.woken, t); }
    } else {
      HandlesByRecv(s, step, t);
      OutcomesByRecv(s, step, t);
      MutexByRecv(s, step, t);
      SenderWakeByRecv(s, step, t);
    }
  }

  lemma InvKept<T>(s: State<T>, step: Step<T>, t: State<T>)
    requires Inv(s) && Next(s, step, t)
    ensures Inv(t)
  {
    match step
    case OfSender(send) => InvBySend(s, send, t);
    case OfHandle(handle) => InvByHandle(s, handle, t);
    case OfReceiver(recv) => InvByRecv(s, recv, t);
  }

  lemma InvInit<T>(capacity: nat)
    requires capacity > 0
    ensures Inv(Init<T>(capacity))
  {
  }

  // ---------------------------------------------------------------------
  // Whole runs
  // ---------------------------------------------------------------------

  ghost predicate Follows<T(!new)>(s: State<T>, t: State<T>) { exists step :: Next(s, step, t) }

  /** A run from `s` to `t`: any sequence of states, each one step after the one before, `t` the last */
  ghost predicate Run<T(!new)>(s: State<T>, later: seq<State<T>>, t: State<T>)
    decreases |later|
  {
    if later == [] then s == t else Follows(s, later[0]) && Run(later[0], later[1..], t)
  }

  lemma FollowsKeepsInv<T(!new)>(s: State<T>, t: State<T>)
    requires Inv(s) && Follows(s, t)
    ensures Inv(t)
  {
    var step :| Next(s, step, t);
    InvKept(s, step, t);
  }

  lemma {:induction false} RunKeepsInv<T(!new)>(s: State<T>, later: seq<State<T>>, t: State<T>)
    requires Inv(s) && Run(s, later, t)
    ensures Inv(t)
    decreases |later|
  {
    if later != [] {
      FollowsKeepsInv(s, later[0]);
      RunKeepsInv(later[0], later[1..], t);
    }
  }

  /** Over every interleaving no wakeup is lost: whoever sleeps is owed a notification that will reach it. */
  lemma NoLostWakeup<T(!new)>(capacity: nat, later: seq<State<T>>, s: State<T>)
    requires capacity > 0 && Run(Init(capacity), later, s)
    ensures s.receiverAlive && AnySend(s, Parked) ==> s.capacity - |s.queue| <= NotFullOwed(s) + |Woken(s.sends)|
    ensures !s.receiverAlive && AnySend(s, Parked) ==> s.recv.CloseWant? || s.recv.CloseLocked?
    ensures s.recv.RecvParked? && |s.queue| > 0 ==> AnySend(s, Owes) || AnyDrop(s)
    ensures s.recv.RecvParked? && s.handles == {} ==> AnyDrop(s)
  {
    InvInit<T>(capacity);
    RunKeepsInv(Init(capacity), later, s);
  }

  /** No thread has anything left to do except wait or start a new call. */
  ghost predicate Quiescent<T>(s: State<T>) {
    && (forall op :: op in s.sends ==> s.sends[op].pc.Parked?)
    && !AnyDrop(s)
    && (s.recv.Idle? || s.recv.RecvParked? || s.recv.Gone?)
  }

  /** When the whole system has come to rest, every sleeper sleeps for a good reason. */
  lemma SleepersAreBlocked<T(!new)>(capacity: nat, later: seq<State<T>>, s: State<T>)
    requires capacity > 0 && Run(Init(capacity), later, s) && Quiescent(s)
    ensures AnySend(s, Parked) ==> s.receiverAlive && |s.queue| == s.capacity
    ensures s.recv.RecvParked? ==> s.queue == [] && s.handles != {}
  {
    InvInit<T>(capacity);
    RunKeepsInv(Init(capacity), later, s);
    assert Woken(s.sends) == {};
  }

  /** Over every run items are conserved, in order and within the capacity, and every call's outcome is honest. */
  lemma Conservation<T(!new)>(capacity: nat, later: seq<State<T>>, s: State<T>)
    requires capacity > 0 && Run(Init(capacity), later, s)
    ensures s.accepted == s.received + s.queue && |s.queue| <= s.capacity
    ensures forall op :: op in s.outcomes && !s.outcomes[op].Accepted? ==>
      op in s.offered && s.outcomes[op].item == s.offered[op] && !Has(s.accepted, op)
    ensures forall op :: op in s.outcomes && s.outcomes[op].Accepted? ==>
      op in s.offered && Entry(op, s.offered[op]) in s.accepted
    ensures forall i, j :: 0 <= i < j < |s.accepted| ==> s.accepted[i].op != s.accepted[j].op
  {
    InvInit<T>(capacity);
    RunKeepsInv(Init(capacity), later, s);
    forall op | op in s.outcomes && s.outcomes[op].Accepted? ensures Entry(op, s.offered[op]) in s.accepted {
      var i :| 0 <= i < |s.accepted| && s.accepted[i].op == op;
      assert s.accepted[i] == Entry(op, s.offered[op]);
    }
  }

  lemma NothingToSend<T>(s: State<T>, step: SendStep<T>, t: State<T>)
    requires HandleInv(s) && s.handles == {}
    ensures !SendNext(s, step, t)
  {
  }

  /** With the last handle gone nothing more is accepted, now or later. */
  ghost predicate ClosedSince<T>(s: State<T>, t: State<T>) {
    t.handles == {} && t.accepted == s.accepted && (s.reportedDisconnected ==> t.reportedDisconnected)
  }

  lemma ClosedByRecv<T>(s: State<T>, step: RecvStep, t: State<T>)
    requires s.handles == {} && RecvNext(s, step, t)
    ensures ClosedSince(s, t)
  {
  }

  lemma ClosedByHandle<T>(s: State<T>, step: HandleStep, t: State<T>)
    requires s.handles == {} && HandleNext(s, step, t)
    ensures ClosedSince(s, t)
  {
  }

  lemma ClosedStep<T(!new)>(s: State<T>, t: State<T>)
    requires Inv(s) && s.handles == {} && Follows(s, t)
    ensures ClosedSince(s, t)
  {
    var step :| Next(s, step, t);
    match step
    case OfSender(send) => NothingToSend(s, send, t);
    case OfHandle(handle) => ClosedByHandle(s, handle, t);
    case OfReceiver(recv) => ClosedByRecv(s, recv, t);
  }

  lemma {:induction false} ClosedStaysClosed<T(!new)>(s: State<T>, later: seq<State<T>>, t: State<T>)
    requires Inv(s) && s.handles == {} && Run(s, later, t)
    ensures ClosedSince(s, t)
    decreases |later|
  {
    if later != [] {
      FollowsKeepsInv(s, later[0]);
      ClosedStep(s, later[0]);
      ClosedStaysClosed(later[0], later[1..], t);
    }
  }

  /** Once `recv` has reported Disconnected, everything ever accepted was received and nothing can be sent again. */
  lemma DisconnectedIsFinal<T(!new)>(capacity: nat, before: seq<State<T>>, s: State<T>, after: seq<State<T>>, t: State<T>)
    requires capacity > 0 && Run(Init(capacity), before, s) && s.reportedDisconnected && Run(s, after, t)
    ensures t.handles == {} && t.sends == map[]
    ensures t.accepted == s.accepted == s.received == t.received
  {
    InvInit<T>(capacity);
    RunKeepsInv(Init(capacity), before, s);
    ClosedStaysClosed(s, after, t);
    RunKeepsInv(s, after, t);
    assert t.sends.Keys == {};
  }

  // ---------------------------------------------------------------------
  // What every call returns
  // ---------------------------------------------------------------------

  /** A call that has not yet decided what to return */
  predicate Undecided(r: RecvPc) { r.RecvWant? || r.RecvLocked? || r.FoundEmpty? || r.SawSenders? || r.RecvParked? }

  predicate IsBlocking(r: RecvPc)
    requires Undecided(r)
  {
    if r.SawSenders? || r.RecvParked? then true else r.blocking
  }

  function Items<T>(replies: seq<Reply<T>>): seq<Entry<T>> {
    if replies == [] then []
    else Items(replies[..|replies| - 1]) + if replies[|replies| - 1].Item? then [replies[|replies| - 1].entry] else []
  }

  /** Calls and replies pair up in order; the items among the replies are the items received. */
  ghost predicate ReplyInv<T>(s: State<T>) {
    && |s.book.calls| == |s.book.replies| + (if Undecided(s.recv) then 1 else 0)
    && (Undecided(s.recv) ==> IsBlocking(s.recv) == s.book.calls[|s.book.calls| - 1])
    && (forall k :: 0 <= k < |s.book.replies| && s.book.replies[k].Nothing? ==> !s.book.calls[k])
    && (forall k :: 0 <= k < |s.book.replies| && s.book.replies[k].NoSender? ==> s.reportedDisconnected)
    && Items(s.book.replies) == s.received
  }

  /** A refusal fits the call it was given to and what had happened by then. */
  ghost predicate Fair<T>(s: State<T>, op: OpId)
    requires op in s.book.modes && op in s.outcomes
  {
    match s.outcomes[op]
    case Accepted => true
    case Disconnected(_) => !s.receiverAlive
    case Full(_) => s.book.modes[op] == NonBlocking
    case TimedOut(_) => s.book.modes[op] == Timed
  }

  ghost predicate ModeInv<T>(s: State<T>) {
    && s.book.modes.Keys == s.offered.Keys
    && (forall op :: op in s.sends ==> op in s.book.modes && s.sends[op].mode == s.book.modes[op])
    && (forall op :: op in s.outcomes ==> op in s.book.modes && Fair(s, op))
  }

  lemma ItemsAppend<T>(replies: seq<Reply<T>>, r: Reply<T>)
    ensures Items(replies + [r]) == Items(replies) + if r.Item? then [r.entry] else []
  {
    assert (replies + [r])[..|replies|] == replies;
  }

  predicate MayDecide(step: RecvStep) { step.PopRecv? || step.LoadRecv? }

  /** A call decides: one reply more, and no call undecided. */
  lemma ReplyMore<T>(s: State<T>, t: State<T>, r: Reply<T>)
    requires ReplyInv(s) && Undecided(s.recv) && !Undecided(t.recv)
    requires t.book == s.book.(replies := s.book.replies + [r]) && (s.reportedDisconnected || r.NoSender? ==> t.reportedDisconnected)
    requires r.Nothing? ==> !IsBlocking(s.recv)
    requires t.received == s.received + if r.Item? then [r.entry] else []
    ensures ReplyInv(t)
  {
    ItemsAppend(s.book.replies, r);
  }

  lemma ReplyByPop<T>(s: State<T>, t: State<T>)
    requires ReplyInv(s) && RecvNext(s, PopRecv, t)
    ensures ReplyInv(t)
  {
    ReplyMore(s, t, Item(s.queue[0]));
  }

  lemma ReplyByLoad<T>(s: State<T>, t: State<T>)
    requires ReplyInv(s) && RecvNext(s, LoadRecv, t)
    ensures ReplyInv(t)
  {
    if s.senderCount == 0 {
      ReplyMore(s, t, NoSender);
    } else if !s.recv.blocking {
      ReplyMore(s, t, Nothing);
    }
  }

  lemma ReplyByWaiting<T>(s: State<T>, step: RecvStep, t: State<T>)
    requires ReplyInv(s) && RecvNext(s, step, t) && !MayDecide(step)
    ensures ReplyInv(t)
  {
  }

  lemma ReplyByOthers<T>(s: State<T>, t: State<T>)
    requires ReplyInv(s) && (t.recv == s.recv || t.recv == NotifyEmpty(s.recv))
    requires t.book.calls == s.book.calls && t.book.replies == s.book.replies && t.received == s.received && t.reportedDisconnected == s.reportedDisconnected
    ensures ReplyInv(t)
  {
  }

  lemma ModeByStart<T>(s: State<T>, step: SendStep<T>, t: State<T>)
    requires OutcomeInv(s) && ModeInv(s) && SendNext(s, step, t) && step.StartSend?
    ensures ModeInv(t)
  {
    forall o | o in t.outcomes ensures o in t.book.modes && Fair(t, o) { assert Fair(s, o); }
  }

  /** A call returns with an outcome that fits it. */
  lemma ModeByReturn<T>(s: State<T>, t: State<T>, op: OpId, outcome: Outcome<T>)
    requires ModeInv(s) && op in s.sends && t.book == s.book && t.offered == s.offered && t.receiverAlive == s.receiverAlive
    requires t.sends == s.sends - {op} && t.outcomes == s.outcomes[op := outcome]
    requires outcome.Disconnected? ==> !s.receiverAlive
    requires outcome.Full? ==> s.sends[op].mode == NonBlocking
    requires outcome.TimedOut? ==> s.sends[op].mode == Timed
    ensures ModeInv(t)
  {
    forall o | o in t.outcomes ensures o in t.book.modes && Fair(t, o) {
      if o != op { assert Fair(s, o); }
    }
  }

  lemma ModeByMove<T>(s: State<T>, step: SendStep<T>, t: State<T>)
    requires ModeInv(s) && SendNext(s, step, t) && !step.StartSend? && step.op in t.sends
    ensures ModeInv(t)
  {
    ModeFrame(s, t);
  }

  lemma ModeByEnd<T>(s: State<T>, step: SendStep<T>, t: State<T>)
    requires ModeInv(s) && SendNext(s, step, t) && !step.StartSend? && step.op !in t.sends
    ensures ModeInv(t)
  {
    ModeByReturn(s, t, step.op, t.outcomes[step.op]);
  }

  lemma ModeBySend<T>(s: State<T>, step: SendStep<T>, t: State<T>)
    requires OutcomeInv(s) && ModeInv(s) && SendNext(s, step, t)
    ensures ModeInv(t)
  {
    if step.StartSend? {
      ModeByStart(s, step, t);
    } else if step.op in t.sends {
      ModeByMove(s, step, t);
    } else {
      ModeByEnd(s, step, t);
    }
  }

  lemma ModeFrame<T>(s: State<T>, t: State<T>)
    requires ModeInv(s) && t.book.modes == s.book.modes && t.offered == s.offered && t.outcomes == s.outcomes
    requires t.sends.Keys == s.sends.Keys && forall op :: op in s.sends ==> t.sends[op].mode == s.sends[op].mode
    requires t.receiverAlive ==> s.receiverAlive
    ensures ModeInv(t)
  {
    forall o | o in t.outcomes ensures o in t.book.modes && Fair(t, o) { assert Fair(s, o); }
  }

  ghost predicate Kept<T>(s: State<T>) { Inv(s) && ReplyInv(s) && ModeInv(s) }

  lemma KeptBySend<T>(s: State<T>, step: SendStep<T>, t: State<T>)
    requires ReplyInv(s) && OutcomeInv(s) && ModeInv(s) && SendNext(s, step, t)
    ensures ReplyInv(t) && ModeInv(t)
  {
    ReplyByOthers(s, t);
    ModeBySend(s, step, t);
  }

  lemma KeptByHandle<T>(s: State<T>, step: HandleStep, t: State<T>)
    requires ReplyInv(s) && ModeInv(s) && HandleNext(s, step, t)
    ensures ReplyInv(t) && ModeInv(t)
  {
    ReplyByOthers(s, t);
    ModeFrame(s, t);
  }

  lemma ModeByNotify<T>(s: State<T>, step: RecvStep, t: State<T>)
    requires ModeInv(s) && RecvNext(s, step, t) && Notifies(step)
    ensures ModeInv(t)
  {
    ModeFrame(s, t);
  }

  lemma ModeByRecv<T>(s: State<T>, step: RecvStep, t: State<T>)
    requires ModeInv(s) && RecvNext(s, step, t) && !Notifies(step)
    ensures ModeInv(t)
  {
    ModeFrame(s, t);
  }

  lemma KeptByRecv<T>(s: State<T>, step: RecvStep, t: State<T>)
    requires ReplyInv(s) && ModeInv(s) && RecvNext(s, step, t)
    ensures ReplyInv(t) && ModeInv(t)
  {
    if Notifies(step) { ModeByNotify(s, step, t); } else { ModeByRecv(s, step, t); }
    match step
    case PopRecv => ReplyByPop(s, t);
    case LoadRecv => ReplyByLoad(s, t);
    case _ => ReplyByWaiting(s, step, t);
  }

  lemma KeptStep<T(!new)>(s: State<T>, step: Step<T>, t: State<T>)
    requires Kept(s) && Next(s, step, t)
    ensures Kept(t)
  {
    InvKept(s, step, t);
    match step
    case OfSender(send) => KeptBySend(s, send, t);
    case OfHandle(handle) => KeptByHandle(s, handle, t);
    case OfReceiver(recv) => KeptByRecv(s, recv, t);
  }

  lemma {:induction false} RunKeeps<T(!new)>(s: State<T>, later: seq<State<T>>, t: State<T>)
    requires Kept(s) && Run(s, later, t)
    ensures Kept(t)
    decreases |later|
  {
    if later != [] {
      var step :| Next(s, step, later[0]);
      KeptStep(s, step, later[0]);
      RunKeeps(later[0], later[1..], t);
    }
  }

  lemma Reachable<T(!new)>(capacity: nat, later: seq<State<T>>, s: State<T>)
    requires capacity > 0 && Run(Init(capacity), later, s)
    ensures Kept(s)
  {
    InvInit<T>(capacity);
    RunKeeps(Init(capacity), later, s);
  }

  /**
   Over every run: a refused send was refused for its reason, and a blocking send is only
   ever accepted or told that the receiver has gone.
   */
  lemma SendOutcomes<T(!new)>(capacity: nat, later: seq<State<T>>, s: State<T>, op: OpId)
    requires capacity > 0 && Run(Init(capacity), later, s) && op in s.outcomes
    ensures op in s.book.modes
    ensures s.outcomes[op].Disconnected? ==> !s.receiverAlive
    ensures s.outcomes[op].Full? ==> s.book.modes[op] == NonBlocking
    ensures s.outcomes[op].TimedOut? ==> s.book.modes[op] == Timed
    ensures s.book.modes[op] == Blocking ==> s.outcomes[op].Accepted? || s.outcomes[op].Disconnected?
  {
    Reachable(capacity, later, s);
    assert Fair(s, op);
  }

  /** What a send that returns at this step is told: gone receiver, full queue, or an item already queued */
  ghost predicate ReturnsFairly<T>(s: State<T>, t: State<T>, op: OpId) {
    && (op in s.sends && op !in t.sends ==> op in t.outcomes)
    && (op in t.outcomes && op !in s.outcomes ==>
          && op in s.sends
          && (t.outcomes[op].Disconnected? ==> !s.receiverAlive)
          && (t.outcomes[op].Full? || t.outcomes[op].TimedOut? ==> |s.queue| == s.capacity)
          && (t.outcomes[op].Accepted? ==> Has(s.accepted, op)))
  }

  lemma SendReturns<T(!new)>(capacity: nat, later: seq<State<T>>, s: State<T>, step: Step<T>, t: State<T>, op: OpId)
    requires capacity > 0 && Run(Init(capacity), later, s) && Next(s, step, t)
    ensures ReturnsFairly(s, t, op)
  {
    Reachable(capacity, later, s);
    match step
    case OfSender(send) => ReturnsBySend(s, send, t, op);
    case OfHandle(handle) => NoReturnByHandle(s, handle, t, op);
    case OfReceiver(recv) => NoReturnByRecv(s, recv, t, op);
  }

  lemma ReturnsBySend<T>(s: State<T>, step: SendStep<T>, t: State<T>, op: OpId)
    requires OutcomeInv(s) && QueueInv(s) && SendNext(s, step, t)
    ensures ReturnsFairly(s, t, op)
  {
  }

  lemma NoReturnByHandle<T>(s: State<T>, step: HandleStep, t: State<T>, op: OpId)
    requires HandleNext(s, step, t)
    ensures ReturnsFairly(s, t, op)
  {
  }

  lemma NoReturnByRecv<T>(s: State<T>, step: RecvStep, t: State<T>, op: OpId)
    requires RecvNext(s, step, t)
    ensures ReturnsFairly(s, t, op)
  {
  }

  ghost predicate Moved<T>(s: State<T>, t: State<T>, op: OpId) { op in s.sends && (op !in t.sends || t.sends[op] != s.sends[op]) }

  /**
   How a send that holds the mutex goes on: a gone receiver is told first; then room is
   used; only at a full queue does `try_send` fail, `send` wait, and `send_timeout` do either.
   */
  ghost predicate GoesOn<T>(s: State<T>, t: State<T>, op: OpId) {
    && (Moved(s, t, op) && AtPc(s, op, Locked) ==>
          if s.receiverAlive then AtPc(t, op, SawAlive) else t.outcomes == s.outcomes[op := Disconnected(s.sends[op].item)])
    && (Moved(s, t, op) && AtPc(s, op, SawAlive) && |s.queue| < s.capacity ==>
          t.queue == s.queue + [Entry(op, s.sends[op].item)] && t.accepted == s.accepted + [Entry(op, s.sends[op].item)])
    && (Moved(s, t, op) && AtPc(s, op, SawAlive) && |s.queue| >= s.capacity ==>
          match s.sends[op].mode
          case NonBlocking => t.outcomes == s.outcomes[op := Full(s.sends[op].item)]
          case Blocking => AtPc(t, op, Parked)
          case Timed => AtPc(t, op, Parked) || t.outcomes == s.outcomes[op := TimedOut(s.sends[op].item)])
  }

  lemma SendDecides<T(!new)>(capacity: nat, later: seq<State<T>>, s: State<T>, step: Step<T>, t: State<T>, op: OpId)
    requires capacity > 0 && Run(Init(capacity), later, s) && Next(s, step, t)
    ensures GoesOn(s, t, op)
  {
    Reachable(capacity, later, s);
    match step
    case OfSender(send) => GoesOnBySend(s, send, t, op);
    case OfHandle(handle) => GoesOnByHandle(s, handle, t, op);
    case OfReceiver(recv) => GoesOnByRecv(s, recv, t, op);
  }

  lemma GoesOnBySend<T>(s: State<T>, step: SendStep<T>, t: State<T>, op: OpId)
    requires MutexInv(s) && SendNext(s, step, t)
    ensures GoesOn(s, t, op)
  {
  }

  lemma GoesOnByHandle<T>(s: State<T>, step: HandleStep, t: State<T>, op: OpId)
    requires HandleNext(s, step, t)
    ensures GoesOn(s, t, op)
  {
    assert t.sends == s.sends;
  }

  lemma GoesOnByRecv<T>(s: State<T>, step: RecvStep, t: State<T>, op: OpId)
    requires RecvNext(s, step, t)
    ensures GoesOn(s, t, op)
  {
    assert Moved(s, t, op) ==> AtPc(s, op, Parked);
  }

  /** Over every run: replies pair up with calls, the items returned are the items received, and a blocking `recv` never returns empty-handed with senders left. */
  lemma RecvReplies<T(!new)>(capacity: nat, later: seq<State<T>>, s: State<T>, k: nat)
    requires capacity > 0 && Run(Init(capacity), later, s)
    ensures |s.book.calls| == |s.book.replies| + if Undecided(s.recv) then 1 else 0
    ensures Items(s.book.replies) == s.received
    ensures k < |s.book.replies| && s.book.replies[k].Nothing? ==> !s.book.calls[k]
    ensures k < |s.book.replies| && s.book.replies[k].NoSender? ==> s.handles == {} && s.queue == []
    ensures s.recv.SawSenders? || s.recv.RecvParked? ==> s.book.calls[|s.book.calls| - 1]
  {
    Reachable(capacity, later, s);
  }

  /** The reply decided by a step, if any */
  ghost predicate Decides<T>(s: State<T>, t: State<T>, r: Reply<T>) { t.book.replies == s.book.replies + [r] }

  /**
   The step that decides a call's reply, over every run: an item is the front of the queue;
   without one it is Disconnected iff no handle is left, and Empty only for a `try_recv`.
   A call that has found the queue empty decides at its next step, unless it may wait.
   */
  ghost predicate DecidesRightly<T(!new)>(s: State<T>, t: State<T>) {
    && (Undecided(s.recv) && !Undecided(t.recv) ==> exists r :: Decides(s, t, r))
    && (!(Undecided(s.recv) && !Undecided(t.recv)) ==> t.book.replies == s.book.replies)
    && (Decides(s, t, NoSender) ==> s.queue == [] && s.handles == {})
    && (Decides(s, t, Nothing) ==> s.queue == [] && s.handles != {} && Undecided(s.recv) && !IsBlocking(s.recv))
    && (forall e :: Decides(s, t, Item(e)) ==> s.queue != [] && e == s.queue[0] && t.queue == s.queue[1..])
    && (s.recv.FoundEmpty? && t.recv != s.recv ==>
          if s.handles == {} then Decides(s, t, NoSender) && t.recv.Idle?
          else if s.recv.blocking then t.recv.SawSenders?
          else Decides(s, t, Nothing) && t.recv.Idle?)
  }

  lemma RecvDecides<T(!new)>(capacity: nat, later: seq<State<T>>, s: State<T>, step: Step<T>, t: State<T>)
    requires capacity > 0 && Run(Init(capacity), later, s) && Next(s, step, t)
    ensures DecidesRightly(s, t)
  {
    Reachable(capacity, later, s);
    match step
    case OfSender(send) => DecidesBySend(s, send, t);
    case OfHandle(handle) => DecidesByHandle(s, handle, t);
    case OfReceiver(recv) => DecidesByRecv(s, recv, t);
  }

  lemma DecidesBySend<T(!new)>(s: State<T>, step: SendStep<T>, t: State<T>)
    requires SendNext(s, step, t)
    ensures DecidesRightly(s, t)
  {
    RepliesStay(s, t);
  }

  lemma DecidesByHandle<T(!new)>(s: State<T>, step: HandleStep, t: State<T>)
    requires HandleNext(s, step, t)
    ensures DecidesRightly(s, t)
  {
    RepliesStay(s, t);
  }

  lemma RepliesStay<T(!new)>(s: State<T>, t: State<T>)
    requires t.book.replies == s.book.replies && (t.recv == s.recv || t.recv == NotifyEmpty(s.recv))
    ensures DecidesRightly(s, t)
  {
    forall r ensures !Decides(s, t, r) { assert |s.book.replies + [r]| == |s.book.replies| + 1; }
  }

  lemma DecidesByRecv<T(!new)>(s: State<T>, step: RecvStep, t: State<T>)
    requires HandleInv(s) && QueueInv(s) && RecvNext(s, step, t)
    ensures DecidesRightly(s, t)
  {
    assert s.handles == {} <==> s.senderCount == 0;
    forall r | Decides(s, t, r) ensures t.book.replies[|s.book.replies|] == r {}
    if t.book.replies != s.book.replies { assert Decides(s, t, t.book.replies[|s.book.replies|]); }
  }

  /** Disconnected is really reported: a call on an empty queue with no handle left, undisturbed, returns it. */
  lemma DisconnectedReported<T(!new)>(capacity: nat, later: seq<State<T>>, s: State<T>, blocking: bool)
    requires capacity > 0 && Run(Init(capacity), later, s)
    requires s.handles == {} && s.queue == [] && s.recv.Idle? && s.owner.Free?
    ensures exists more, t :: Run(s, more, t) && t.recv.Idle? && t.book.replies == s.book.replies + [NoSender] && t.reportedDisconnected
  {
    Reachable(capacity, later, s);
    var a := s.(recv := RecvWant(blocking), book := s.book.(calls := s.book.calls + [blocking]));
    var b := a.(owner := ByReceiver, recv := RecvLocked(blocking));
    var c := b.(recv := FoundEmpty(blocking));
    var d := c.(owner := Free, recv := Idle, book := c.book.(replies := c.book.replies + [NoSender]), reportedDisconnected := true);
    assert Next(s, OfReceiver(StartRecv(blocking)), a) && Next(a, OfReceiver(LockRecv), b);
    assert Next(b, OfReceiver(FindEmpty), c) && Next(c, OfReceiver(LoadRecv), d);
    assert [a, b, c, d][1..] == [b, c, d] && [b, c, d][1..] == [c, d] && [c, d][1..] == [d] && [d][1..] == [];
    assert Run(d, [], d);
    assert Run(c, [d], d);
    assert Run(b, [c, d], d);
    assert Run(s, [a, b, c, d], d);
  }
}
