/**
 The jco host's inbound queue, which hands a message straight to a waiting reader, and the data channel on top
 of it.  The promises it returns are numbered in call order; `settled` lists their outcomes in settling order.
 */
module JcoQueue {
  import Fifo = BoundedFifo

  type CallId = nat

  /** A frame's payload: bytes, or the UTF-16 code units of a text frame, which is what its length counts. */
  datatype Frame = Frame(isString: bool, payload: seq<bv16>)

  function Size(m: Frame): nat { |m.payload| }

  datatype Error = ReceivingViaStream | ReceiveBufferOverflow | Closed

  datatype Outcome = Resolved(frame: Frame) | Rejected(error: Error)

  datatype Waiter = Waiter(call: CallId, viaStream: bool)

  datatype Settled = Settled(call: CallId, viaStream: bool, outcome: Outcome)

  datatype Queue = Queue(
    messages: seq<Frame>,
    waiters: seq<Waiter>,
    buffered: int,
    overflowed: bool,
    closed: bool,
    streamClaimed: bool,
    calls: nat,
    settled: seq<Settled>)

  datatype Event = Message(frame: Frame) | End | Receive | ClaimStream | Pull

  function Initial(): Queue { Queue([], [], 0, false, false, false, 0, []) }

  function OnMessage(limit: nat, q: Queue, m: Frame): Queue {
    if q.overflowed then q
    else if q.buffered + Size(m) > limit && q.waiters == [] then q.(overflowed := true)
    else if q.waiters != [] then
      q.(waiters := q.waiters[1..],
         settled := q.settled + [Settled(q.waiters[0].call, q.waiters[0].viaStream, Resolved(m))])
    else q.(buffered := q.buffered + Size(m), messages := q.messages + [m])
  }

  function Rejections(waiters: seq<Waiter>, error: Error): seq<Settled> {
    seq(|waiters|, i requires 0 <= i < |waiters| => Settled(waiters[i].call, waiters[i].viaStream, Rejected(error)))
  }

  function RejectWaiters(q: Queue, error: Error): Queue {
    q.(waiters := [], settled := q.settled + Rejections(q.waiters, error))
  }

  function EndError(q: Queue): Error { if q.overflowed then ReceiveBufferOverflow else Closed }

  function OnEnd(q: Queue): Queue {
    if q.closed then q else RejectWaiters(q.(closed := true), EndError(q))
  }

  function Settle(q: Queue, viaStream: bool, outcome: Outcome): Queue {
    q.(calls := q.calls + 1, settled := q.settled + [Settled(q.calls, viaStream, outcome)])
  }

  function Next(q: Queue, viaStream: bool): Queue {
    if q.messages != [] then
      Settle(q.(messages := q.messages[1..], buffered := q.buffered - Size(q.messages[0])),
             viaStream, Resolved(q.messages[0]))
    else if q.overflowed then Settle(q, viaStream, Rejected(ReceiveBufferOverflow))
    else if q.closed then Settle(q, viaStream, Rejected(Closed))
    else q.(calls := q.calls + 1, waiters := q.waiters + [Waiter(q.calls, viaStream)])
  }

  function Step(limit: nat, q: Queue, event: Event): Queue {
    match event
    case Message(m) => OnMessage(limit, q, m)
    case End => OnEnd(q)
    case Receive => if q.streamClaimed then Settle(q, false, Rejected(ReceivingViaStream)) else Next(q, false)
    case ClaimStream => if q.streamClaimed then q else RejectWaiters(q.(streamClaimed := true), ReceivingViaStream)
    case Pull => if q.streamClaimed then Next(q, true) else q
  }

  ghost function After(limit: nat, events: seq<Event>): Queue {
    if events == [] then Initial() else Step(limit, After(limit, events[..|events| - 1]), events[|events| - 1])
  }

  // ----- the invariant -----

  ghost predicate CountInv(limit: nat, q: Queue) {
    && (q.messages == [] || q.waiters == [])
    && q.buffered == Fifo.Bytes(Size, q.messages) <= limit
    && (q.overflowed || q.closed ==> q.waiters == [])
  }

  /** Every call settles at most once, and waits or has settled; the resolved ones settle in call order. */
  ghost predicate CallInv(q: Queue) {
    && (forall i :: 0 <= i < |q.settled| ==> q.settled[i].call < q.calls)
    && (forall i :: 0 <= i < |q.waiters| ==> q.waiters[i].call < q.calls)
    && (forall i, j :: 0 <= i < j < |q.settled| ==> q.settled[i].call != q.settled[j].call)
    && (forall i, j :: 0 <= i < j < |q.waiters| ==> q.waiters[i].call < q.waiters[j].call)
    && (forall i, j :: 0 <= i < |q.settled| && 0 <= j < |q.waiters| ==> q.settled[i].call != q.waiters[j].call)
    && (forall i, j :: 0 <= i < j < |q.settled| && q.settled[i].outcome.Resolved? && q.settled[j].outcome.Resolved?
          ==> q.settled[i].call < q.settled[j].call)
    && (forall i, j :: 0 <= i < |q.settled| && 0 <= j < |q.waiters| && q.settled[i].outcome.Resolved?
          ==> q.settled[i].call < q.waiters[j].call)
  }

  predicate StreamGot(x: Settled) { x.viaStream && x.outcome.Resolved? }

  /** The resolved receives come before the resolved pulls, and only pulls wait once the stream is claimed. */
  ghost predicate StreamInv(q: Queue) {
    && (forall i, j :: 0 <= i < j < |q.settled| && StreamGot(q.settled[i]) && q.settled[j].outcome.Resolved?
          ==> q.settled[j].viaStream)
    && (forall i :: 0 <= i < |q.settled| && q.settled[i].viaStream ==> q.streamClaimed)
    && (forall i :: 0 <= i < |q.waiters| ==> q.waiters[i].viaStream == q.streamClaimed)
  }

  ghost predicate Inv(limit: nat, q: Queue) {
    CountInv(limit, q) && CallInv(q) && StreamInv(q)
  }

  lemma RejectKeepsCalls(q: Queue, u: Queue, error: Error)
    requires CallInv(q) && u.settled == q.settled + Rejections(q.waiters, error)
    requires u.waiters == [] && u.calls == q.calls
    ensures CallInv(u)
  {
    var n := |q.settled|;
    forall j | n <= j < |u.settled|
      ensures u.settled[j].call == q.waiters[j - n].call && u.settled[j].outcome.Rejected?
    {
    }
  }

  lemma RejectKeepsStream(q: Queue, u: Queue, error: Error)
    requires StreamInv(q) && u.settled == q.settled + Rejections(q.waiters, error) && u.waiters == []
    requires q.streamClaimed ==> u.streamClaimed
    ensures StreamInv(u)
  {
    var n := |q.settled|;
    forall j | n <= j < |u.settled|
      ensures u.settled[j].viaStream == q.streamClaimed && u.settled[j].outcome.Rejected?
    {
      assert u.settled[j] == Rejections(q.waiters, error)[j - n];
    }
  }

  /** Appending the outcome of a call that never waited, or of the first waiter. */
  lemma SettleKeepsInv(q: Queue, u: Queue, x: Settled)
    requires CallInv(q) && StreamInv(q) && u.settled == q.settled + [x] && u.streamClaimed == q.streamClaimed
    requires Immediate(q, u, x) || FirstWaiter(q, u, x)
    requires x.outcome.Resolved? ==> x.viaStream == q.streamClaimed
    requires x.viaStream ==> q.streamClaimed
    ensures CallInv(u) && StreamInv(u)
  {
    if Immediate(q, u, x) {
      ImmediateKeepsCalls(q, u, x);
    } else {
      FirstWaiterKeepsCalls(q, u, x);
    }
    assert forall j :: 0 <= j < |q.settled| ==> u.settled[j] == q.settled[j];
  }

  predicate Immediate(q: Queue, u: Queue, x: Settled) {
    x.call == q.calls && u.calls == q.calls + 1 && u.waiters == q.waiters && (x.outcome.Resolved? ==> q.waiters == [])
  }

  predicate FirstWaiter(q: Queue, u: Queue, x: Settled) {
    q.waiters != [] && x.call == q.waiters[0].call && u.calls == q.calls && u.waiters == q.waiters[1..]
  }

  lemma ImmediateKeepsCalls(q: Queue, u: Queue, x: Settled)
    requires CallInv(q) && u.settled == q.settled + [x] && Immediate(q, u, x)
    ensures CallInv(u)
  {
  }

  lemma FirstWaiterKeepsCalls(q: Queue, u: Queue, x: Settled)
    requires CallInv(q) && u.settled == q.settled + [x] && FirstWaiter(q, u, x)
    ensures CallInv(u)
  {
    var n := |q.settled|;
    assert forall j :: 0 <= j < |u.waiters| ==> u.waiters[j] == q.waiters[j + 1];
    assert forall i, j :: 0 <= i < j < |u.settled| ==> u.settled[i].call != u.settled[j].call by {
      forall i | 0 <= i < n
        ensures u.settled[i].call != u.settled[n].call
      {
      }
    }
    forall i, j | 0 <= i < j < |u.settled| && u.settled[i].outcome.Resolved? && u.settled[j].outcome.Resolved?
      ensures u.settled[i].call < u.settled[j].call
    {
      if j == n {
        assert u.settled[i] == q.settled[i];
      }
    }
  }

  lemma WaitKeepsInv(q: Queue, u: Queue, w: Waiter)
    requires CallInv(q) && StreamInv(q) && w == Waiter(q.calls, q.streamClaimed)
    requires u == q.(calls := q.calls + 1, waiters := q.waiters + [w])
    ensures CallInv(u) && StreamInv(u)
  {
  }

  lemma MessageKeepsInv(limit: nat, q: Queue, m: Frame)
    requires Inv(limit, q)
    ensures Inv(limit, OnMessage(limit, q, m))
  {
    Fifo.BytesSnoc(Size, q.messages, m);
    if !q.overflowed && q.waiters != [] {
      SettleKeepsInv(q, OnMessage(limit, q, m), Settled(q.waiters[0].call, q.waiters[0].viaStream, Resolved(m)));
    }
  }

  lemma NextKeepsInv(limit: nat, q: Queue, viaStream: bool)
    requires Inv(limit, q) && viaStream == q.streamClaimed
    ensures Inv(limit, Next(q, viaStream))
  {
    var u := Next(q, viaStream);
    if q.messages == [] && !q.overflowed && !q.closed {
      WaitKeepsInv(q, u, Waiter(q.calls, viaStream));
    } else {
      SettleKeepsInv(q, u, u.settled[|q.settled|]);
    }
  }

  lemma StepKeepsInv(limit: nat, q: Queue, event: Event)
    requires Inv(limit, q)
    ensures Inv(limit, Step(limit, q, event))
  {
    var u := Step(limit, q, event);
    match event
    case Message(m) => MessageKeepsInv(limit, q, m);
    case End =>
      if !q.closed {
        RejectKeepsCalls(q, u, EndError(q));
        RejectKeepsStream(q, u, EndError(q));
      }
    case Receive =>
      if q.streamClaimed {
        SettleKeepsInv(q, u, Settled(q.calls, false, Rejected(ReceivingViaStream)));
      } else {
        NextKeepsInv(limit, q, false);
      }
    case ClaimStream =>
      if !q.streamClaimed {
        RejectKeepsCalls(q, u, ReceivingViaStream);
        RejectKeepsStream(q, u, ReceivingViaStream);
      }
    case Pull =>
      if q.streamClaimed {
        NextKeepsInv(limit, q, true);
      }
  }

  lemma {:induction false} RunKeepsInv(limit: nat, events: seq<Event>)
    ensures Inv(limit, After(limit, events))
  {
    if events != [] {
      RunKeepsInv(limit, events[..|events| - 1]);
      StepKeepsInv(limit, After(limit, events[..|events| - 1]), events[|events| - 1]);
    }
  }

  /**
   Over any events whatever, even messages after the close: no message waits beside a waiting reader, the bound holds,
   every call settles at most once and is not also waiting, the successful ones settle in call order, and after
   overflow or close nobody waits.
   */
  lemma QueueIsConsistent(limit: nat, events: seq<Event>)
    ensures var q := After(limit, events);
      && (q.messages == [] || q.waiters == [])
      && q.buffered == Fifo.Bytes(Size, q.messages) <= limit
      && (forall i, j :: 0 <= i < j < |q.settled| ==> q.settled[i].call != q.settled[j].call)
      && (forall i, j :: 0 <= i < |q.settled| && 0 <= j < |q.waiters| ==> q.settled[i].call != q.waiters[j].call)
      && (forall i, j :: 0 <= i < j < |q.settled| && q.settled[i].outcome.Resolved? && q.settled[j].outcome.Resolved?
            ==> q.settled[i].call < q.settled[j].call)
      && (q.overflowed || q.closed ==> q.waiters == [])
  {
    RunKeepsInv(limit, events);
  }

  /** Readers rejected by the end of the channel always learn `closed`: nobody waits on an overflowed queue. */
  lemma EndRejectsWithClosed(limit: nat, events: seq<Event>, i: nat)
    requires |After(limit, events).settled| <= i < |OnEnd(After(limit, events)).settled|
    ensures OnEnd(After(limit, events)).settled[i].outcome == Rejected(Closed)
  {
    RunKeepsInv(limit, events);
  }

  /** After the claim, `receive` is refused; what it got before precedes everything the stream gets. */
  lemma ReceivesThenStream(limit: nat, events: seq<Event>, i: nat, j: nat)
    requires i < j < |After(limit, events).settled|
    requires var x, y := After(limit, events).settled[i], After(limit, events).settled[j];
      StreamGot(x) && y.outcome.Resolved?
    ensures After(limit, events).settled[j].viaStream
  {
    RunKeepsInv(limit, events);
  }

  // ----- refinement -----

  ghost predicate Refines(f: Fifo.Fifo<Frame>, q: Queue) {
    && f.cursor <= |f.accepted|
    && Fifo.Backlog(f) == q.messages
    && f.overflowed == q.overflowed
    && f.ended == (q.overflowed || q.closed)
  }

  /** The queue operations of an event; a message that meets a waiting reader arrives and is read at once. */
  ghost function EventOps(q: Queue, event: Event): seq<Fifo.Op<Frame>> {
    match event
    case Message(m) => if q.waiters == [] then [Fifo.Arrive(m)] else [Fifo.Arrive(m), Fifo.Read]
    case End => [Fifo.Close]
    case Receive => if q.streamClaimed then [] else [Fifo.Read]
    case ClaimStream => []
    case Pull => if q.streamClaimed then [Fifo.Read] else []
  }

  ghost function Ops(limit: nat, events: seq<Event>): seq<Fifo.Op<Frame>> {
    if events == [] then []
    else
      var before := events[..|events| - 1];
      Ops(limit, before) + EventOps(After(limit, before), events[|events| - 1])
  }

  /** The frames delivered to readers, in order. */
  ghost function Delivered(settled: seq<Settled>): seq<Frame> {
    if settled == [] then []
    else
      Delivered(settled[..|settled| - 1])
      + match settled[|settled| - 1].outcome case Resolved(m) => [m] case Rejected(_) => []
  }

  ghost function Twice(limit: nat, f: Fifo.Fifo<Frame>, ops: seq<Fifo.Op<Frame>>): Fifo.Fifo<Frame>
    requires f.cursor <= |f.accepted| && |ops| <= 2
  {
    if ops == [] then f
    else if |ops| == 1 then Fifo.Step(limit, Size, f, ops[0])
    else Fifo.Step(limit, Size, Fifo.Step(limit, Size, f, ops[0]), ops[1])
  }

  /** The message fits the contract: the channel has not closed, and a waiting reader is not handed too large a one. */
  predicate Conforms(limit: nat, q: Queue, m: Frame) {
    && (q.closed ==> q.overflowed)
    && (q.waiters != [] ==> Size(m) <= limit)
  }

  /**
   A message is handled as the contract says exactly when it does not follow the close and does not bypass the bound
   by meeting a waiting reader: the two guards the code does not have.
   */
  lemma MessageRefinesIffConforming(limit: nat, f: Fifo.Fifo<Frame>, q: Queue, m: Frame)
    requires Inv(limit, q) && Refines(f, q)
    ensures Refines(Twice(limit, f, EventOps(q, Message(m))), OnMessage(limit, q, m)) <==> Conforms(limit, q, m)
  {
    assert !f.ended ==> (f.accepted + [m])[f.cursor..] == Fifo.Backlog(f) + [m];
    if q.waiters != [] && Size(m) <= limit {
      assert Fifo.Backlog(f) == [] && f.cursor == |f.accepted|;
      assert (f.accepted + [m])[f.cursor + 1..] == [];
    }
    if q.closed && !q.overflowed {
      assert Twice(limit, f, EventOps(q, Message(m))) == f;
    }
  }

  /** Event `k` of the run fits the contract: it is no message, or one that conforms on arrival. */
  ghost predicate ConformsAt(limit: nat, events: seq<Event>, k: nat)
    requires k < |events|
  {
    events[k].Message? ==> Conforms(limit, After(limit, events[..k]), events[k].frame)
  }

  /** Every message of the run fits the contract when it arrives. */
  ghost predicate AllConform(limit: nat, events: seq<Event>) {
    forall k :: 0 <= k < |events| ==> ConformsAt(limit, events, k)
  }

  ghost predicate Tracks(limit: nat, q: Queue, ops: seq<Fifo.Op<Frame>>) {
    Refines(Fifo.Run(limit, Size, ops), q) && Delivered(q.settled) == Fifo.Deliveries(limit, Size, ops)
  }

  lemma OneMore(limit: nat, ops: seq<Fifo.Op<Frame>>, op: Fifo.Op<Frame>)
    ensures Fifo.Run(limit, Size, ops + [op]) == Fifo.Step(limit, Size, Fifo.Run(limit, Size, ops), op)
    ensures Fifo.Deliveries(limit, Size, ops + [op]) == Fifo.Deliveries(limit, Size, ops) +
      var f := Fifo.Run(limit, Size, ops);
      if op.Read? && Fifo.Peek(f).Delivered? then [Fifo.Peek(f).message] else []
  {
    assert (ops + [op])[..|ops + [op]| - 1] == ops;
  }

  lemma {:induction false} RejectionsDeliverNothing(settled: seq<Settled>, more: seq<Settled>)
    requires forall i :: 0 <= i < |more| ==> more[i].outcome.Rejected?
    ensures Delivered(settled + more) == Delivered(settled)
  {
    if more == [] {
      assert settled + more == settled;
    } else {
      RejectionsDeliverNothing(settled, more[..|more| - 1]);
      assert (settled + more)[..|settled + more| - 1] == settled + more[..|more| - 1];
    }
  }

  lemma OneDelivery(settled: seq<Settled>, x: Settled)
    ensures Delivered(settled + [x]) ==
      Delivered(settled) + match x.outcome case Resolved(m) => [m] case Rejected(_) => []
  {
    assert (settled + [x])[..|settled + [x]| - 1] == settled;
  }

  /** An arrival that meets an empty, open queue and is read at once is delivered. */
  lemma ArriveThenRead(limit: nat, ops: seq<Fifo.Op<Frame>>, m: Frame)
    requires var f := Fifo.Run(limit, Size, ops); !f.ended && f.cursor == |f.accepted| && Size(m) <= limit
    ensures var both := ops + [Fifo.Arrive(m), Fifo.Read];
      && Fifo.Run(limit, Size, both) == Twice(limit, Fifo.Run(limit, Size, ops), [Fifo.Arrive(m), Fifo.Read])
      && Fifo.Deliveries(limit, Size, both) == Fifo.Deliveries(limit, Size, ops) + [m]
  {
    var arrived := ops + [Fifo.Arrive(m)];
    OneMore(limit, ops, Fifo.Arrive(m));
    OneMore(limit, arrived, Fifo.Read);
    assert ops + [Fifo.Arrive(m), Fifo.Read] == arrived + [Fifo.Read];
    assert Fifo.Bytes(Size, []) == 0 && Fifo.Backlog(Fifo.Run(limit, Size, ops)) == [];
  }

  /** A message handed straight to the first waiter arrives and is read at once. */
  lemma HandoverTracks(limit: nat, q: Queue, m: Frame, ops: seq<Fifo.Op<Frame>>)
    requires Inv(limit, q) && Tracks(limit, q, ops) && Conforms(limit, q, m) && q.waiters != []
    ensures Tracks(limit, OnMessage(limit, q, m), ops + EventOps(q, Message(m)))
  {
    MessageRefinesIffConforming(limit, Fifo.Run(limit, Size, ops), q, m);
    ArriveThenRead(limit, ops, m);
    OneDelivery(q.settled, Settled(q.waiters[0].call, q.waiters[0].viaStream, Resolved(m)));
  }

  lemma MessageTracks(limit: nat, q: Queue, m: Frame, ops: seq<Fifo.Op<Frame>>)
    requires Inv(limit, q) && Tracks(limit, q, ops) && Conforms(limit, q, m)
    ensures Tracks(limit, OnMessage(limit, q, m), ops + EventOps(q, Message(m)))
  {
    if q.waiters != [] {
      HandoverTracks(limit, q, m, ops);
    } else {
      MessageRefinesIffConforming(limit, Fifo.Run(limit, Size, ops), q, m);
      OneMore(limit, ops, Fifo.Arrive(m));
    }
  }

  lemma NextTracks(limit: nat, q: Queue, viaStream: bool, ops: seq<Fifo.Op<Frame>>)
    requires Inv(limit, q) && Tracks(limit, q, ops)
    ensures Tracks(limit, Next(q, viaStream), ops + [Fifo.Read])
  {
    var f, u := Fifo.Run(limit, Size, ops), Next(q, viaStream);
    OneMore(limit, ops, Fifo.Read);
    if q.messages != [] {
      OneDelivery(q.settled, Settled(q.calls, viaStream, Resolved(q.messages[0])));
      assert f.accepted[f.cursor + 1..] == Fifo.Backlog(f)[1..];
    } else if q.overflowed {
      OneDelivery(q.settled, Settled(q.calls, viaStream, Rejected(ReceiveBufferOverflow)));
    } else if q.closed {
      OneDelivery(q.settled, Settled(q.calls, viaStream, Rejected(Closed)));
    }
  }

  lemma StepTracks(limit: nat, q: Queue, event: Event, ops: seq<Fifo.Op<Frame>>)
    requires Inv(limit, q) && Tracks(limit, q, ops)
    requires event.Message? ==> Conforms(limit, q, event.frame)
    ensures Tracks(limit, Step(limit, q, event), ops + EventOps(q, event))
  {
    assert ops + [] == ops;
    match event
    case Message(m) => MessageTracks(limit, q, m, ops);
    case End =>
      OneMore(limit, ops, Fifo.Close);
      RejectionsDeliverNothing(q.settled, Rejections(q.waiters, EndError(q)));
    case Receive =>
      if q.streamClaimed {
        OneDelivery(q.settled, Settled(q.calls, false, Rejected(ReceivingViaStream)));
      } else {
        NextTracks(limit, q, false, ops);
      }
    case ClaimStream => RejectionsDeliverNothing(q.settled, Rejections(q.waiters, ReceivingViaStream));
    case Pull =>
      if q.streamClaimed {
        NextTracks(limit, q, true, ops);
      }
  }

  lemma ConformsPrefix(limit: nat, events: seq<Event>)
    requires events != []
    ensures var n := |events| - 1;
      AllConform(limit, events) <==> AllConform(limit, events[..n]) && ConformsAt(limit, events, n)
  {
    var n := |events| - 1;
    forall k | 0 <= k < n
      ensures ConformsAt(limit, events[..n], k) <==> ConformsAt(limit, events, k)
    {
      assert events[..n][..k] == events[..k];
    }
  }

  lemma {:induction false} RunTracks(limit: nat, events: seq<Event>)
    requires AllConform(limit, events)
    ensures Tracks(limit, After(limit, events), Ops(limit, events))
  {
    if events != [] {
      var n := |events| - 1;
      var before := events[..n];
      ConformsPrefix(limit, events);
      RunTracks(limit, before);
      RunKeepsInv(limit, before);
      StepTracks(limit, After(limit, before), events[n], Ops(limit, before));
    }
  }

  // ----- promises follow arrivals, conforming or not -----

  /** The frames that arrived, in order. */
  ghost function Arrived(events: seq<Event>): seq<Frame> {
    if events == [] then []
    else
      Arrived(events[..|events| - 1]) + match events[|events| - 1] case Message(m) => [m] case _ => []
  }

  /** What has been handed out, and after it what is still held. */
  ghost function Held(q: Queue): seq<Frame> { Delivered(q.settled) + q.messages }

  /** What an event adds to the frames handed out or held. */
  ghost function Gained(q: Queue, u: Queue, event: Event): seq<Frame> {
    if event.Message? && !u.overflowed then [event.frame] else []
  }

  lemma MessageIsHeld(limit: nat, q: Queue, m: Frame)
    requires q.messages == [] || q.waiters == []
    ensures var u := OnMessage(limit, q, m); Held(u) == Held(q) + Gained(q, u, Message(m))
  {
    if !q.overflowed && q.waiters != [] {
      OneDelivery(q.settled, Settled(q.waiters[0].call, q.waiters[0].viaStream, Resolved(m)));
    }
  }

  lemma NextKeepsHeld(q: Queue, viaStream: bool)
    ensures Held(Next(q, viaStream)) == Held(q) && Next(q, viaStream).overflowed == q.overflowed
  {
    if q.messages != [] {
      OneDelivery(q.settled, Settled(q.calls, viaStream, Resolved(q.messages[0])));
    } else if q.overflowed {
      OneDelivery(q.settled, Settled(q.calls, viaStream, Rejected(ReceiveBufferOverflow)));
    } else if q.closed {
      OneDelivery(q.settled, Settled(q.calls, viaStream, Rejected(Closed)));
    }
  }

  /** No event loses, repeats or reorders a frame: a message is added at the end, unless the queue has overflowed. */
  lemma StepKeepsHeld(limit: nat, q: Queue, event: Event)
    requires q.messages == [] || q.waiters == []
    ensures var u := Step(limit, q, event);
      Held(u) == Held(q) + Gained(q, u, event) && (q.overflowed ==> u.overflowed)
  {
    match event
    case Message(m) => MessageIsHeld(limit, q, m);
    case End => RejectionsDeliverNothing(q.settled, Rejections(q.waiters, EndError(q)));
    case Receive =>
      if q.streamClaimed {
        OneDelivery(q.settled, Settled(q.calls, false, Rejected(ReceivingViaStream)));
      } else {
        NextKeepsHeld(q, false);
      }
    case ClaimStream => RejectionsDeliverNothing(q.settled, Rejections(q.waiters, ReceivingViaStream));
    case Pull =>
      if q.streamClaimed {
        NextKeepsHeld(q, true);
      }
  }

  /**
   Over any events whatever, the promises resolve with the arrived frames in the order of arrival, none lost, repeated
   or reordered; the buffer holds the next ones; and until the overflow nothing that arrived is missing.
   */
  lemma {:induction false} PromisesFollowArrivals(limit: nat, events: seq<Event>)
    ensures var q := After(limit, events);
      && Delivered(q.settled) + q.messages <= Arrived(events)
      && (!q.overflowed ==> Delivered(q.settled) + q.messages == Arrived(events))
  {
    if events != [] {
      var n := |events| - 1;
      PromisesFollowArrivals(limit, events[..n]);
      RunKeepsInv(limit, events[..n]);
      StepKeepsHeld(limit, After(limit, events[..n]), events[n]);
    }
  }

  // ----- the contract is met exactly on conforming runs -----

  /** The queue has done what no ended queue does: it holds more than was accepted, or overflowed after its end. */
  ghost predicate Strayed(limit: nat, q: Queue, ops: seq<Fifo.Op<Frame>>) {
    var f := Fifo.Run(limit, Size, ops);
    f.ended && (|Held(q)| > |f.accepted| || (q.overflowed && !f.overflowed))
  }

  lemma StrayedDoesNotTrack(limit: nat, q: Queue, ops: seq<Fifo.Op<Frame>>)
    requires Strayed(limit, q, ops)
    ensures !Tracks(limit, q, ops)
  {
    Fifo.RunDeliversAcceptedPrefix(limit, Size, ops);
  }

  lemma StepKeepsStrayed(limit: nat, q: Queue, event: Event, ops: seq<Fifo.Op<Frame>>)
    requires Strayed(limit, q, ops) && (q.messages == [] || q.waiters == [])
    ensures Strayed(limit, Step(limit, q, event), ops + EventOps(q, event))
  {
    StepKeepsHeld(limit, q, event);
    Fifo.EndIsFinal(limit, Size, ops, EventOps(q, event));
  }

  /** What a bounded queue has delivered, and after it what it holds, is what it accepted. */
  lemma DeliveredThenHeld(limit: nat, ops: seq<Fifo.Op<Frame>>)
    ensures var f := Fifo.Run(limit, Size, ops);
      Fifo.Deliveries(limit, Size, ops) + Fifo.Backlog(f) == f.accepted
  {
    Fifo.RunDeliversAcceptedPrefix(limit, Size, ops);
  }

  /** A queue that is the bounded queue has handed out or holds exactly what was accepted. */
  lemma TracksHeld(limit: nat, q: Queue, ops: seq<Fifo.Op<Frame>>)
    requires Tracks(limit, q, ops)
    ensures Held(q) == Fifo.Run(limit, Size, ops).accepted
  {
    DeliveredThenHeld(limit, ops);
  }

  /** A message after the close is buffered, or latches an overflow, though the queue has ended. */
  lemma LateMessageStrays(limit: nat, q: Queue, m: Frame, ops: seq<Fifo.Op<Frame>>)
    requires Tracks(limit, q, ops) && q.closed && !q.overflowed && q.waiters == []
    ensures Strayed(limit, OnMessage(limit, q, m), ops + EventOps(q, Message(m)))
  {
    TracksHeld(limit, q, ops);
    MessageIsHeld(limit, q, m);
    Fifo.EndIsFinal(limit, Size, ops, EventOps(q, Message(m)));
  }

  /** A message over the bound ends an open queue, and no read changes what that queue accepted. */
  lemma OversizedEnds(limit: nat, ops: seq<Fifo.Op<Frame>>, m: Frame)
    requires !Fifo.Run(limit, Size, ops).ended && Size(m) > limit
    ensures var f, g := Fifo.Run(limit, Size, ops), Fifo.Run(limit, Size, ops + [Fifo.Arrive(m), Fifo.Read]);
      g.ended && g.accepted == f.accepted
  {
    var arrived := ops + [Fifo.Arrive(m)];
    OneMore(limit, ops, Fifo.Arrive(m));
    Fifo.EndIsFinal(limit, Size, arrived, [Fifo.Read]);
    assert ops + [Fifo.Arrive(m), Fifo.Read] == arrived + [Fifo.Read];
  }

  /** A message over the bound is handed to a waiting reader, though it ends the abstract queue. */
  lemma OversizedHandoverStrays(limit: nat, q: Queue, m: Frame, ops: seq<Fifo.Op<Frame>>)
    requires Tracks(limit, q, ops) && q.waiters != [] && q.messages == [] && Size(m) > limit
    requires !q.overflowed && !q.closed
    ensures Strayed(limit, OnMessage(limit, q, m), ops + EventOps(q, Message(m)))
  {
    TracksHeld(limit, q, ops);
    MessageIsHeld(limit, q, m);
    OversizedEnds(limit, ops, m);
  }

  lemma {:induction false} NonconformingRunsStray(limit: nat, events: seq<Event>)
    requires !AllConform(limit, events)
    ensures Strayed(limit, After(limit, events), Ops(limit, events))
  {
    var n := |events| - 1;
    var before := events[..n];
    RunKeepsInv(limit, before);
    ConformsPrefix(limit, events);
    if AllConform(limit, before) {
      RunTracks(limit, before);
      var q := After(limit, before);
      if q.closed && !q.overflowed {
        LateMessageStrays(limit, q, events[n].frame, Ops(limit, before));
      } else {
        OversizedHandoverStrays(limit, q, events[n].frame, Ops(limit, before));
      }
    } else {
      NonconformingRunsStray(limit, before);
      StepKeepsStrayed(limit, After(limit, before), events[n], Ops(limit, before));
    }
  }

  /** The queue tracks the bounded queue exactly when every message conforms on arrival, over whole runs. */
  lemma TracksIffConforming(limit: nat, events: seq<Event>)
    ensures Tracks(limit, After(limit, events), Ops(limit, events)) <==> AllConform(limit, events)
  {
    if AllConform(limit, events) {
      RunTracks(limit, events);
    } else {
      NonconformingRunsStray(limit, events);
      StrayedDoesNotTrack(limit, After(limit, events), Ops(limit, events));
    }
  }

  /**
   Over whole runs the jco queue is the bounded queue (its promises resolved with exactly the delivered prefix of what
   was accepted, its buffer the rest, its end and overflow the same) exactly when every message conformed on arrival:
   a run that once leaves the contract never returns to it.  What was accepted is a prefix of what arrived.
   */
  lemma ReadersGetTheAcceptedPrefixIff(limit: nat, events: seq<Event>)
    ensures var q, ops := After(limit, events), Ops(limit, events);
      var f := Fifo.Run(limit, Size, ops);
      && f.accepted <= Fifo.Arrivals(ops)
      && ((&& Delivered(q.settled) == f.accepted[..f.cursor]
           && q.messages == f.accepted[f.cursor..]
           && q.overflowed == f.overflowed
           && (q.overflowed || q.closed) == f.ended)
          <==> AllConform(limit, events))
  {
    TracksIffConforming(limit, events);
    Fifo.RunDeliversAcceptedPrefix(limit, Size, Ops(limit, events));
  }

  // ----- the claim -----

  /** Entries past position `from` that carry a frame went to the stream. */
  ghost predicate OnlyStreamFrom(settled: seq<Settled>, from: nat) {
    forall i :: from <= i < |settled| && settled[i].outcome.Resolved? ==> settled[i].viaStream
  }

  lemma StepAfterClaim(limit: nat, q: Queue, event: Event)
    requires Inv(limit, q) && q.streamClaimed
    ensures var u := Step(limit, q, event);
      u.streamClaimed && q.settled <= u.settled && OnlyStreamFrom(u.settled, |q.settled|)
  {
  }

  /** Once the stream is claimed, in any continuation every frame handed out goes to the stream. */
  lemma {:induction false} ClaimedFramesGoToStream(limit: nat, events: seq<Event>, more: seq<Event>)
    requires After(limit, events).streamClaimed
    ensures var q, u := After(limit, events), After(limit, events + more);
      u.streamClaimed && q.settled <= u.settled && OnlyStreamFrom(u.settled, |q.settled|)
  {
    if more == [] {
      assert events + more == events;
    } else {
      var n := |more| - 1;
      ClaimedFramesGoToStream(limit, events, more[..n]);
      RunKeepsInv(limit, events + more[..n]);
      assert (events + more)[..|events + more| - 1] == events + more[..n];
      StepAfterClaim(limit, After(limit, events + more[..n]), more[n]);
      OnlyStreamJoins(After(limit, events), After(limit, events + more[..n]), After(limit, events + more));
    }
  }

  lemma OnlyStreamJoins(q: Queue, t: Queue, u: Queue)
    requires q.settled <= t.settled <= u.settled
    requires OnlyStreamFrom(t.settled, |q.settled|) && OnlyStreamFrom(u.settled, |t.settled|)
    ensures q.settled <= u.settled && OnlyStreamFrom(u.settled, |q.settled|)
  {
    assert forall i :: 0 <= i < |t.settled| ==> u.settled[i] == t.settled[i];
  }

  /** A call that does not wait settles as the queue says: overflow exactly when it was latched. */
  lemma NextReportsTheQueue(limit: nat, events: seq<Event>, viaStream: bool)
    requires AllConform(limit, events)
    ensures var q, f := After(limit, events), Fifo.Run(limit, Size, Ops(limit, events));
      var u := Next(q, viaStream);
      match Fifo.Peek(f)
      case Delivered(m) => u.settled == q.settled + [Settled(q.calls, viaStream, Resolved(m))]
      case Overflow => u.settled == q.settled + [Settled(q.calls, viaStream, Rejected(ReceiveBufferOverflow))]
      case Closed => u.settled == q.settled + [Settled(q.calls, viaStream, Rejected(Closed))]
      case Blocked => u.settled == q.settled && u.waiters == q.waiters + [Waiter(q.calls, viaStream)]
  {
    RunTracks(limit, events);
    RunKeepsInv(limit, events);
  }

  /** Two runs the contract tells apart from the code: a message after the close, and one too large for the bound. */
  lemma NonconformingMessagesAreDelivered(limit: nat, m: Frame)
    ensures Size(m) <= limit ==> OnMessage(limit, Step(limit, Initial(), End), m).messages == [m]
    ensures Size(m) > limit ==>
      OnMessage(limit, Step(limit, Initial(), Receive), m).settled == [Settled(0, false, Resolved(m))]
  {
  }
}
