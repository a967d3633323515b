/**
 The wasmtime host's inbound queue at the granularity of single atomic operations: one pump that checks and then
 reserves budget in separate steps, any number of readers racing the claim of `receive-via-stream` and the
 connection's close, and a mutex around the receiving half.
 */
module InboundBudget {
  import opened Collections
  import Fifo = BoundedFifo

  type ReaderId = nat
  type CallerId = nat

  datatype Message = Message(isString: bool, data: seq<bv8>)

  function Size(m: Message): nat { |m.data| }

  // ----- machine integers -----

  const USIZE_MAX: nat := 0xFFFF_FFFF_FFFF_FFFF

  function SaturatingAdd(a: int, b: int): int { if a + b > USIZE_MAX then USIZE_MAX else a + b }

  /** Atomic addition and subtraction of machine integers, which wrap around. */
  function FetchAdd(a: int, b: int): int { if a + b > USIZE_MAX then a + b - USIZE_MAX - 1 else a + b }

  function FetchSub(a: int, b: int): int { if a < b then a - b + USIZE_MAX + 1 else a - b }

  /** The saturating test is the true one for every pair of lengths exactly when the limit leaves room for it. */
  lemma SaturationIsExactBelowMax(limit: nat)
    requires limit <= USIZE_MAX
    ensures (forall a: nat, b: nat :: a <= USIZE_MAX && b <= USIZE_MAX ==>
               (SaturatingAdd(a, b) > limit <==> a + b > limit))
       <==> limit < USIZE_MAX
  {
    assert SaturatingAdd(USIZE_MAX, 1) == USIZE_MAX;
  }

  // ----- the state -----

  /** Where the pump stands inside one event: `reserve` is four operations, then the send. */
  datatype Pump =
    | Polling
    | Reserving(message: Message)
    | Checking(message: Message)
    | Adding(message: Message)
    | Sending(message: Message)
    | Latching
    | ClosingChannel
    | Stopped

  datatype Result = Got(message: Message) | Overflow | Closed | ReceivingViaStream | Cancelled

  /** Where a reader stands; between `Locking` and `Suspended` it is inside one poll of its future. */
  datatype ReaderPc =
    | Locking
    | Popping
    | Releasing(message: Message)
    | Ending
    | CheckingStarted
    | CheckingClosed
    | Suspended
    | Finished(result: Result)

  /** `onStart` and `onClose` record that its waker is with the two signals; `woken` that it will be polled again. */
  datatype Reader = Reader(viaStream: bool, pc: ReaderPc, onStart: bool, onClose: bool, woken: bool)

  /** The once-only claim: taking the sender, raising the flag and firing the signal, all under one mutex. */
  datatype Claim = Unclaimed | Taken(winner: CallerId) | Flagged(winner: CallerId) | Fired(winner: CallerId)

  datatype Delivery = Delivery(reader: ReaderId, message: Message)

  datatype State = State(
    buffered: int,
    overflowed: bool,
    queue: seq<Message>,
    pump: Pump,
    lock: Option<ReaderId>,
    readers: map<ReaderId, Reader>,
    wired: bool,
    claim: Claim,
    verdicts: map<CallerId, bool>,
    closed: bool,
    log: seq<Delivery>)

  datatype PumpEvent = OnMessage(message: Message) | OnClose | OnOther

  datatype Step =
    | PumpPoll(event: PumpEvent)
    | PumpAdvance
    | Open(reader: ReaderId, viaStream: bool)
    | Poll(reader: ReaderId)
    | Resume(reader: ReaderId)
    | Cancel(reader: ReaderId)
    | ClaimCall(caller: CallerId)
    | ClaimAdvance
    | CloseConnection
    | Wire

  function Initial(): State {
    State(0, false, [], Polling, None, map[], false, Unclaimed, map[], false, [])
  }

  predicate FlagRaised(claim: Claim) { claim.Flagged? || claim.Fired? }

  // ----- the steps -----

  /** What a poll looks at after the queue gave nothing: the stream's feeder does not race the claim. */
  ghost function Otherwise(reader: Reader): ReaderPc {
    if reader.viaStream then CheckingClosed else CheckingStarted
  }

  /** The next operation of a reader's poll, as far as the reader itself goes. */
  ghost function ReaderAfter(s: State, r: ReaderId): Reader
    requires r in s.readers
  {
    var reader := s.readers[r];
    match reader.pc
    case Locking =>
      reader.(pc := if s.wired && (s.lock == None || s.lock == Some(r)) then Popping else Otherwise(reader))
    case Popping =>
      reader.(pc := if s.queue != [] then Releasing(s.queue[0])
                    else if s.pump.Stopped? then Ending else Otherwise(reader))
    case Releasing(m) => reader.(pc := Finished(Got(m)))
    case Ending => reader.(pc := Finished(if s.overflowed then Overflow else Closed))
    case CheckingStarted =>
      if s.claim.Fired? then reader.(pc := Finished(ReceivingViaStream))
      else reader.(pc := CheckingClosed, onStart := true)
    case CheckingClosed =>
      if s.closed then reader.(pc := Finished(Closed)) else reader.(pc := Suspended, onClose := true)
    case _ => reader
  }

  /** The mutex is taken before the queue is looked at, kept across suspension, and left when the reader is done. */
  ghost function LockAfter(s: State, r: ReaderId): Option<ReaderId>
    requires r in s.readers
  {
    if ReaderAfter(s, r).pc.Finished? then (if s.lock == Some(r) then None else s.lock)
    else if ReaderAfter(s, r).pc.Popping? then Some(r)
    else s.lock
  }

  ghost function PollOf(s: State, r: ReaderId): State
    requires r in s.readers
  {
    var pc := s.readers[r].pc;
    s.(readers := s.readers[r := ReaderAfter(s, r)],
       lock := LockAfter(s, r),
       queue := if pc.Popping? && s.queue != [] then s.queue[1..] else s.queue,
       buffered := if pc.Releasing? then FetchSub(s.buffered, Size(pc.message)) else s.buffered,
       log := if pc.Releasing? then s.log + [Delivery(r, pc.message)] else s.log)
  }

  ghost function PumpOf(limit: nat, s: State): State {
    match s.pump
    case Reserving(m) => s.(pump := if s.overflowed then ClosingChannel else Checking(m))
    case Checking(m) => s.(pump := if SaturatingAdd(s.buffered, Size(m)) > limit then Latching else Adding(m))
    case Adding(m) => s.(pump := Sending(m), buffered := FetchAdd(s.buffered, Size(m)))
    case Sending(m) => s.(pump := Polling, queue := s.queue + [m])
    case Latching => s.(pump := ClosingChannel, overflowed := true)
    case ClosingChannel => s.(pump := Polling)
    case _ => s
  }

  ghost function WakeOnStart(readers: map<ReaderId, Reader>): map<ReaderId, Reader> {
    map r | r in readers :: if readers[r].onStart then readers[r].(woken := true) else readers[r]
  }

  ghost function WakeOnClose(readers: map<ReaderId, Reader>): map<ReaderId, Reader> {
    map r | r in readers :: if readers[r].onClose then readers[r].(woken := true) else readers[r]
  }

  ghost predicate Enabled(s: State, step: Step) {
    match step
    case PumpPoll(_) => s.pump.Polling?
    case PumpAdvance => !s.pump.Polling? && !s.pump.Stopped?
    case Open(r, viaStream) => r !in s.readers && (viaStream ==> s.claim.Fired?)
    case Poll(r) => r in s.readers && !s.readers[r].pc.Suspended? && !s.readers[r].pc.Finished?
    case Resume(r) => r in s.readers && s.readers[r].pc.Suspended?
    case Cancel(r) => r in s.readers && s.readers[r].pc.Suspended?
    case ClaimCall(c) => c !in s.verdicts && (s.claim.Unclaimed? || s.claim.Fired?)
    case ClaimAdvance => s.claim.Taken? || s.claim.Flagged?
    case _ => true
  }

  ghost function Perform(limit: nat, s: State, step: Step): State
    requires Enabled(s, step)
  {
    match step
    case PumpPoll(OnMessage(m)) => s.(pump := Reserving(m))
    case PumpPoll(OnClose) => s.(pump := Stopped)
    case PumpPoll(OnOther) => s
    case PumpAdvance => PumpOf(limit, s)
    case Open(r, viaStream) =>
      var pc := if !viaStream && FlagRaised(s.claim) then Finished(ReceivingViaStream) else Locking;
      s.(readers := s.readers[r := Reader(viaStream, pc, false, false, false)])
    case Poll(r) => PollOf(s, r)
    case Resume(r) => s.(readers := s.readers[r := s.readers[r].(pc := Locking, woken := false)])
    case Cancel(r) =>
      s.(readers := s.readers[r := s.readers[r].(pc := Finished(Cancelled))],
         lock := if s.lock == Some(r) then None else s.lock)
    case ClaimCall(c) =>
      if s.claim.Unclaimed? then s.(claim := Taken(c)) else s.(verdicts := s.verdicts[c := false])
    case ClaimAdvance =>
      if s.claim.Taken? then s.(claim := Flagged(s.claim.winner))
      else s.(claim := Fired(s.claim.winner), verdicts := s.verdicts[s.claim.winner := true],
              readers := WakeOnStart(s.readers))
    case CloseConnection => s.(closed := true, readers := WakeOnClose(s.readers))
    case Wire => s.(wired := true)
  }

  /** The state after a list of steps, those not enabled when their turn comes being skipped. */
  ghost function After(limit: nat, steps: seq<Step>): State {
    if steps == [] then Initial()
    else
      var s := After(limit, steps[..|steps| - 1]);
      if Enabled(s, steps[|steps| - 1]) then Perform(limit, s, steps[|steps| - 1]) else s
  }

  // ----- the budget -----

  ghost predicate InCriticalSection(pc: ReaderPc) { pc.Popping? || pc.Releasing? || pc.Ending? }

  /** The message popped and not yet released; only the holder of the mutex can have one. */
  ghost function Popped(s: State): seq<Message> {
    if s.lock.Some? && s.lock.value in s.readers && s.readers[s.lock.value].pc.Releasing?
    then [s.readers[s.lock.value].pc.message]
    else []
  }

  /** The message that passed the check and has not been sent. */
  ghost function InFlight(s: State): seq<Message> {
    if s.pump.Adding? || s.pump.Sending? then [s.pump.message] else []
  }

  ghost predicate ReaderOk(s: State, r: ReaderId)
    requires r in s.readers
  {
    var pc := s.readers[r].pc;
    && (InCriticalSection(pc) ==> s.lock == Some(r))
    && (pc.Finished? ==> s.lock != Some(r))
    && (pc.Ending? ==> s.queue == [] && s.pump.Stopped?)
  }

  /** Only the holder of the mutex touches the queue, and a finished reader holds nothing. */
  ghost predicate LockInv(s: State) {
    && (s.lock.Some? ==> s.lock.value in s.readers)
    && (forall r :: r in s.readers ==> ReaderOk(s, r))
  }

  /**
   `buffered` is exactly the bytes queued, plus those reserved and not yet sent, plus those popped and not yet
   released; it never exceeds the limit, even though the check and the reservation are separate operations.
   */
  ghost predicate BudgetInv(limit: nat, s: State) {
    && s.buffered == Fifo.Bytes(Size, Popped(s)) + Fifo.Bytes(Size, s.queue)
         + (if s.pump.Sending? then Size(s.pump.message) else 0)
    && s.buffered + (if s.pump.Adding? then Size(s.pump.message) else 0) <= limit
    && (s.overflowed ==> !s.pump.Checking? && !s.pump.Adding? && !s.pump.Sending? && !s.pump.Latching?)
  }

  ghost predicate Refines(f: Fifo.Fifo<Message>, s: State) {
    && f.cursor <= |f.accepted|
    && Fifo.Backlog(f) == Popped(s) + s.queue + InFlight(s)
    && f.overflowed == (s.overflowed || s.pump.Latching?)
    && f.ended == (f.overflowed || s.pump.Stopped?)
  }

  /**
   The queue operation a step performs.  An arrival happens when the pump tests for room, a read when the reader
   releases the message's bytes.
   */
  ghost function StepOps(s: State, step: Step): seq<Fifo.Op<Message>>
    requires Enabled(s, step)
  {
    match step
    case PumpPoll(OnClose) => [Fifo.Close]
    case PumpAdvance =>
      if s.pump.Checking? || (s.pump.Reserving? && s.overflowed) then [Fifo.Arrive(s.pump.message)] else []
    case Poll(r) => if s.readers[r].pc.Releasing? then [Fifo.Read] else []
    case _ => []
  }

  ghost function Ops(limit: nat, steps: seq<Step>): seq<Fifo.Op<Message>> {
    if steps == [] then []
    else
      var before, step := steps[..|steps| - 1], steps[|steps| - 1];
      Ops(limit, before) + if Enabled(After(limit, before), step) then StepOps(After(limit, before), step) else []
  }

  ghost function Messages(log: seq<Delivery>): seq<Message> {
    seq(|log|, i requires 0 <= i < |log| => log[i].message)
  }

  ghost predicate BudgetHolds(limit: nat, s: State, ops: seq<Fifo.Op<Message>>) {
    && LockInv(s)
    && BudgetInv(limit, s)
    && Refines(Fifo.Run(limit, Size, ops), s)
    && Messages(s.log) == Fifo.Deliveries(limit, Size, ops)
  }

  lemma OneMore(limit: nat, ops: seq<Fifo.Op<Message>>, op: Fifo.Op<Message>)
    ensures Fifo.Run(limit, Size, ops + [op]) == Fifo.Step(limit, Size, Fifo.Run(limit, Size, ops), op)
    ensures Fifo.Deliveries(limit, Size, ops + [op]) == Fifo.Deliveries(limit, Size, ops) +
      var f := Fifo.Run(limit, Size, ops);
      if op.Read? && Fifo.Peek(f).Delivered? then [Fifo.Peek(f).message] else []
  {
    assert (ops + [op])[..|ops + [op]| - 1] == ops;
  }

  lemma BacklogBytes(s: State)
    ensures Fifo.Bytes(Size, Popped(s) + s.queue + InFlight(s))
         == Fifo.Bytes(Size, Popped(s)) + Fifo.Bytes(Size, s.queue) + Fifo.Bytes(Size, InFlight(s))
  {
    Fifo.BytesAppend(Size, Popped(s) + s.queue, InFlight(s));
    Fifo.BytesAppend(Size, Popped(s), s.queue);
  }

  /** One reader moves, and takes or leaves the mutex at most for itself. */
  lemma MoveKeepsLock(s: State, u: State, r: ReaderId)
    requires LockInv(s) && r in u.readers && u.readers == s.readers[r := u.readers[r]]
    requires ReaderOk(u, r)
    requires u.lock == s.lock || (s.lock.None? && u.lock == Some(r)) || (s.lock == Some(r) && u.lock.None?)
    requires u.pump == s.pump && (s.queue == [] ==> u.queue == [])
    ensures LockInv(u)
    ensures (u.lock == Some(r) ==> !u.readers[r].pc.Releasing?) && (s.lock == Some(r) ==> Popped(s) == [])
      ==> Popped(u) == Popped(s)
  {
    forall x | x in u.readers
      ensures ReaderOk(u, x)
    {
      assert x != r ==> ReaderOk(s, x);
    }
  }

  lemma PollKeepsLock(s: State, r: ReaderId)
    requires LockInv(s) && Enabled(s, Poll(r))
    ensures LockInv(PollOf(s, r))
    ensures var pc := s.readers[r].pc;
      !pc.Releasing? && !(pc.Popping? && s.queue != []) ==> Popped(PollOf(s, r)) == Popped(s)
  {
    var u := PollOf(s, r);
    assert ReaderOk(s, r);
    MoveKeepsLock(s, u, r);
  }

  /** Waking changes only the `woken` marks. */
  ghost predicate SamePcs(s: State, u: State) {
    && s.readers.Keys == u.readers.Keys
    && forall r :: r in s.readers ==> u.readers[r].pc == s.readers[r].pc
  }

  lemma SamePcsKeepLock(s: State, u: State)
    requires LockInv(s) && SamePcs(s, u) && u.lock == s.lock
    requires s.queue == [] && s.pump.Stopped? ==> u.queue == [] && u.pump.Stopped?
    ensures LockInv(u) && Popped(u) == Popped(s)
  {
    forall r | r in u.readers
      ensures ReaderOk(u, r)
    {
      assert ReaderOk(s, r);
    }
  }

  lemma SignalsKeepPcs(limit: nat, s: State, step: Step)
    requires Enabled(s, step) && (step.ClaimAdvance? || step.CloseConnection?)
    ensures var u := Perform(limit, s, step);
      SamePcs(s, u) && u.lock == s.lock && u.queue == s.queue && u.pump == s.pump
  {
  }

  lemma PumpKeepsLock(limit: nat, s: State)
    requires LockInv(s) && Enabled(s, PumpAdvance)
    ensures LockInv(PumpOf(limit, s)) && Popped(PumpOf(limit, s)) == Popped(s)
  {
    SamePcsKeepLock(s, PumpOf(limit, s));
  }

  lemma StepKeepsLock(limit: nat, s: State, step: Step)
    requires LockInv(s) && Enabled(s, step)
    ensures LockInv(Perform(limit, s, step))
    ensures !step.Poll? ==> Popped(Perform(limit, s, step)) == Popped(s)
  {
    var u := Perform(limit, s, step);
    match step
    case Poll(r) => PollKeepsLock(s, r);
    case PumpAdvance => PumpKeepsLock(limit, s);
    case Open(r, _) => MoveKeepsLock(s, u, r);
    case Resume(r) =>
      assert ReaderOk(s, r);
      MoveKeepsLock(s, u, r);
    case Cancel(r) =>
      assert ReaderOk(s, r);
      MoveKeepsLock(s, u, r);
    case PumpPoll(_) => SamePcsKeepLock(s, u);
    case ClaimCall(_) => SamePcsKeepLock(s, u);
    case Wire => SamePcsKeepLock(s, u);
    case _ =>
      SignalsKeepPcs(limit, s, step);
      SamePcsKeepLock(s, u);
  }

  /** The pump's test for room is the arrival: the test is exact, and what it admits still fits when it is added. */
  lemma CheckIsTheArrival(limit: nat, s: State, ops: seq<Fifo.Op<Message>>)
    requires limit < USIZE_MAX && BudgetHolds(limit, s, ops) && s.pump.Checking?
    ensures BudgetHolds(limit, PumpOf(limit, s), ops + [Fifo.Arrive(s.pump.message)])
  {
    var m, u, f := s.pump.message, PumpOf(limit, s), Fifo.Run(limit, Size, ops);
    OneMore(limit, ops, Fifo.Arrive(m));
    PumpKeepsLock(limit, s);
    assert Fifo.Bytes(Size, Fifo.Backlog(f)) == s.buffered by {
      BacklogBytes(s);
    }
    if s.buffered + Size(m) > limit {
      assert u == s.(pump := Latching);
    } else {
      assert u == s.(pump := Adding(m));
      ArrivalRefines(limit, f, s, m);
    }
  }

  lemma ArrivalRefines(limit: nat, f: Fifo.Fifo<Message>, s: State, m: Message)
    requires Refines(f, s) && s.pump == Checking(m) && !f.ended && Popped(s.(pump := Adding(m))) == Popped(s)
    ensures Refines(f.(accepted := f.accepted + [m]), s.(pump := Adding(m)))
  {
    assert (f.accepted + [m])[f.cursor..] == Fifo.Backlog(f) + [m];
    assert Popped(s) + s.queue + [] + [m] == Popped(s) + s.queue + [m];
  }

  lemma SendKeepsBudget(limit: nat, s: State, ops: seq<Fifo.Op<Message>>)
    requires BudgetHolds(limit, s, ops) && s.pump.Sending?
    ensures BudgetHolds(limit, PumpOf(limit, s), ops)
  {
    var m, u := s.pump.message, PumpOf(limit, s);
    Fifo.BytesSnoc(Size, s.queue, m);
    assert Popped(u) == Popped(s);
    assert Popped(s) + (s.queue + [m]) + [] == Popped(s) + s.queue + [m];
  }

  /** A message that finds the overflow latched is an arrival the ended queue drops. */
  lemma RejectionIsTheArrival(limit: nat, s: State, ops: seq<Fifo.Op<Message>>)
    requires BudgetHolds(limit, s, ops) && s.pump.Reserving? && s.overflowed
    ensures BudgetHolds(limit, PumpOf(limit, s), ops + [Fifo.Arrive(s.pump.message)])
  {
    SamePcsKeepLock(s, PumpOf(limit, s));
    OneMore(limit, ops, Fifo.Arrive(s.pump.message));
  }

  lemma QuietPumpKeepsBudget(limit: nat, s: State, ops: seq<Fifo.Op<Message>>)
    requires limit < USIZE_MAX && BudgetHolds(limit, s, ops)
    requires s.pump.Adding? || s.pump.Latching? || s.pump.ClosingChannel? || (s.pump.Reserving? && !s.overflowed)
    ensures BudgetHolds(limit, PumpOf(limit, s), ops)
  {
    SamePcsKeepLock(s, PumpOf(limit, s));
  }

  lemma PumpKeepsBudget(limit: nat, s: State, ops: seq<Fifo.Op<Message>>)
    requires limit < USIZE_MAX && BudgetHolds(limit, s, ops) && Enabled(s, PumpAdvance)
    ensures BudgetHolds(limit, PumpOf(limit, s), ops + StepOps(s, PumpAdvance))
  {
    assert ops + [] == ops;
    if s.pump.Checking? {
      CheckIsTheArrival(limit, s, ops);
    } else if s.pump.Sending? {
      SendKeepsBudget(limit, s, ops);
    } else if s.pump.Reserving? && s.overflowed {
      RejectionIsTheArrival(limit, s, ops);
    } else {
      QuietPumpKeepsBudget(limit, s, ops);
    }
  }

  lemma PopKeepsBudget(limit: nat, s: State, r: ReaderId, ops: seq<Fifo.Op<Message>>)
    requires BudgetHolds(limit, s, ops) && r in s.readers && s.readers[r].pc.Popping? && s.queue != []
    ensures BudgetHolds(limit, PollOf(s, r), ops)
  {
    var u := PollOf(s, r);
    PollKeepsLock(s, r);
    assert Popped(s) == [] && Popped(u) == [s.queue[0]];
    assert Fifo.Bytes(Size, [s.queue[0]]) == Size(s.queue[0]) + Fifo.Bytes(Size, []);
    assert [] + s.queue == [s.queue[0]] + s.queue[1..];
  }

  lemma ReadRefines(f: Fifo.Fifo<Message>, s: State, u: State, m: Message)
    requires Refines(f, s) && Popped(s) == [m] && Popped(u) == []
    requires u.queue == s.queue && u.pump == s.pump && u.overflowed == s.overflowed
    ensures f.cursor < |f.accepted| && f.accepted[f.cursor] == m && Refines(f.(cursor := f.cursor + 1), u)
  {
    assert Fifo.Backlog(f)[0] == m;
    assert f.accepted[f.cursor + 1..] == Fifo.Backlog(f)[1..];
  }

  /** Releasing the bytes is the read: it delivers the oldest accepted message, and the count does not underflow. */
  lemma ReleaseIsTheRead(limit: nat, s: State, r: ReaderId, ops: seq<Fifo.Op<Message>>)
    requires limit < USIZE_MAX && BudgetHolds(limit, s, ops) && r in s.readers && s.readers[r].pc.Releasing?
    ensures BudgetHolds(limit, PollOf(s, r), ops + [Fifo.Read])
  {
    var m, u, f := s.readers[r].pc.message, PollOf(s, r), Fifo.Run(limit, Size, ops);
    PollKeepsLock(s, r);
    assert ReaderOk(s, r);
    OneMore(limit, ops, Fifo.Read);
    assert Popped(s) == [m] && Popped(u) == [];
    ReadRefines(f, s, u, m);
    assert Fifo.Bytes(Size, [m]) == Size(m) + Fifo.Bytes(Size, []);
    assert u.buffered == s.buffered - Size(m);
    assert Messages(u.log) == Messages(s.log) + [m];
  }

  lemma PollKeepsBudget(limit: nat, s: State, r: ReaderId, ops: seq<Fifo.Op<Message>>)
    requires limit < USIZE_MAX && BudgetHolds(limit, s, ops) && Enabled(s, Poll(r))
    ensures BudgetHolds(limit, PollOf(s, r), ops + StepOps(s, Poll(r)))
  {
    assert ops + [] == ops;
    if s.readers[r].pc.Releasing? {
      ReleaseIsTheRead(limit, s, r, ops);
    } else if s.readers[r].pc.Popping? && s.queue != [] {
      PopKeepsBudget(limit, s, r, ops);
    } else {
      PollKeepsLock(s, r);
      assert Popped(PollOf(s, r)) == Popped(s);
    }
  }

  lemma QuietKeepsBudget(limit: nat, s: State, u: State, ops: seq<Fifo.Op<Message>>)
    requires BudgetHolds(limit, s, ops) && LockInv(u) && Popped(u) == Popped(s)
    requires u.queue == s.queue && u.buffered == s.buffered && u.overflowed == s.overflowed && u.log == s.log
    requires u.pump == s.pump
    ensures BudgetHolds(limit, u, ops + [])
  {
    assert ops + [] == ops;
  }

  /** A step of neither the pump nor a poll leaves the budget and the queue alone. */
  lemma QuietStep(limit: nat, s: State, step: Step)
    requires Enabled(s, step) && !step.PumpPoll? && !step.PumpAdvance? && !step.Poll?
    ensures var u := Perform(limit, s, step);
      && u.queue == s.queue && u.buffered == s.buffered && u.overflowed == s.overflowed && u.log == s.log
      && u.pump == s.pump
  {
  }

  lemma PumpPollKeepsBudget(limit: nat, s: State, event: PumpEvent, ops: seq<Fifo.Op<Message>>)
    requires BudgetHolds(limit, s, ops) && s.pump.Polling?
    ensures BudgetHolds(limit, Perform(limit, s, PumpPoll(event)), ops + StepOps(s, PumpPoll(event)))
  {
    assert ops + [] == ops;
    StepKeepsLock(limit, s, PumpPoll(event));
    if event.OnClose? {
      OneMore(limit, ops, Fifo.Close);
    }
  }

  lemma StepKeepsBudget(limit: nat, s: State, step: Step, ops: seq<Fifo.Op<Message>>)
    requires limit < USIZE_MAX && BudgetHolds(limit, s, ops) && Enabled(s, step)
    ensures BudgetHolds(limit, Perform(limit, s, step), ops + StepOps(s, step))
  {
    match step
    case PumpPoll(event) => PumpPollKeepsBudget(limit, s, event, ops);
    case PumpAdvance => PumpKeepsBudget(limit, s, ops);
    case Poll(r) => PollKeepsBudget(limit, s, r, ops);
    case _ =>
      StepKeepsLock(limit, s, step);
      QuietStep(limit, s, step);
      QuietKeepsBudget(limit, s, Perform(limit, s, step), ops);
  }

  lemma {:induction false} RunKeepsBudget(limit: nat, steps: seq<Step>)
    requires limit < USIZE_MAX
    ensures BudgetHolds(limit, After(limit, steps), Ops(limit, steps))
  {
    if steps != [] {
      var before, step := steps[..|steps| - 1], steps[|steps| - 1];
      RunKeepsBudget(limit, before);
      if Enabled(After(limit, before), step) {
        StepKeepsBudget(limit, After(limit, before), step, Ops(limit, before));
      } else {
        assert Ops(limit, before) + [] == Ops(limit, before);
      }
    }
  }
}
