/**
 Delivery in the in-guest implementation: in every run of the whole system each tracked channel is a bounded
 queue, and its messages are shared out between `receive` and the claiming stream without loss or repetition.
 */
module Wasip3Delivery {
  import opened Wasip3State
  import opened Wasip3Loops
  import opened Wasip3Tasks
  import Fifo = BoundedFifo

  /** Task `t`'s next turn looks into channel `id`'s inbox. */
  ghost predicate Reads(s: System, t: TaskId, id: ChannelId)
    requires t in s.tasks
  {
    && Tracked(s.shared, id)
    && ((s.tasks[t].loop == Receive(id) && !Lookup(s.shared, id).streamClaimed) || s.tasks[t].loop == PumpReceive(id))
  }

  /** The queue operations a step performs on channel `id`. */
  ghost function StepOps(limit: nat, s: System, step: Step, id: ChannelId): seq<Fifo.Op<Message>>
    requires Enabled(s, step)
  {
    match step
    case Turn(t, _) => if Reads(s, t, id) then [Fifo.Read] else []
    case Close => if !Dead(s.shared) && Tracked(s.shared, id) then [Fifo.Close] else []
    case Drain(events, chunks) => EventsOps(limit, CloseCore(s.shared, chunks), events, id)
    case AfterDrain => if s.pump.done && Tracked(s.shared, id) then [Fifo.Close] else []
    case _ => []
  }

  /** The queue operations a run performs on channel `id`. */
  ghost function Ops(limit: nat, steps: seq<Step>, id: ChannelId): seq<Fifo.Op<Message>> {
    if steps == [] then []
    else
      var before, step := steps[..|steps| - 1], steps[|steps| - 1];
      Ops(limit, before, id)
      + if Enabled(After(limit, before), step) then StepOps(limit, After(limit, before), step, id) else []
  }

  /** The messages of channel `id` handed to either kind of consumer, in order. */
  ghost function TakenFrom(log: seq<Taken>, id: ChannelId): seq<Message> {
    if log == [] then []
    else
      var last := log[|log| - 1];
      TakenFrom(log[..|log| - 1], id) + if last.id == id then [last.message] else []
  }

  ghost predicate Delivers(limit: nat, s: System, id: ChannelId, ops: seq<Fifo.Op<Message>>) {
    && History(limit, s.shared, id, ops)
    && TakenFrom(s.log, id) == Fifo.Deliveries(limit, Size, ops)
  }

  lemma {:induction false} ReadlessOpsDeliverNothing(
    limit: nat, ops: seq<Fifo.Op<Message>>, more: seq<Fifo.Op<Message>>)
    requires Fifo.Read !in more
    ensures Fifo.Deliveries(limit, Size, ops + more) == Fifo.Deliveries(limit, Size, ops)
  {
    if more == [] {
      assert ops + more == ops;
    } else {
      var before := more[..|more| - 1];
      ReadlessOpsDeliverNothing(limit, ops, before);
      assert (ops + more)[..|ops + more| - 1] == ops + before;
      assert more[|more| - 1] in more;
    }
  }

  lemma {:induction false} EventsNeverRead(limit: nat, s: Shared, events: seq<PeerEvent>, id: ChannelId)
    ensures Fifo.Read !in EventsOps(limit, s, events, id)
  {
    if events != [] {
      var before := events[..|events| - 1];
      EventsNeverRead(limit, s, before, id);
      EventNeverReads(ApplyAll(limit, s, before), events[|events| - 1], id);
    }
  }

  lemma EventNeverReads(s: Shared, event: PeerEvent, id: ChannelId)
    ensures Fifo.Read !in EventOps(s, event, id)
  {
  }

  lemma SameChannelsSameHistory(limit: nat, s: Shared, t: Shared, id: ChannelId, ops: seq<Fifo.Op<Message>>)
    requires s.channels == t.channels
    ensures History(limit, s, id, ops) <==> History(limit, t, id, ops)
  {
  }

  lemma ReadExtends(limit: nat, s: System, id: ChannelId, viaStream: bool, ops: seq<Fifo.Op<Message>>)
    requires SystemInv(limit, s) && Delivers(limit, s, id, ops) && Tracked(s.shared, id)
    ensures var c := Lookup(s.shared, id);
      Delivers(limit, if c.inbox != [] then Take(s, id, viaStream) else s, id, ops + [Fifo.Read])
  {
    OneMore(limit, ops, Fifo.Read);
    assert (ops + [Fifo.Read])[..|ops + [Fifo.Read]| - 1] == ops;
    if Lookup(s.shared, id).inbox != [] {
      PopAt(limit, s.shared, id, id);
      PopKeepsInv(limit, s.shared, id);
      LaterKeepsIndex(s.shared, Pop(s.shared, id), id);
      var u := Take(s, id, viaStream);
      assert u.log[..|u.log| - 1] == s.log;
    }
  }

  /** Taking from one channel is invisible to the history of another. */
  lemma TakeLeavesOthers(limit: nat, s: System, id: ChannelId, other: ChannelId, viaStream: bool,
                         ops: seq<Fifo.Op<Message>>)
    requires SystemInv(limit, s) && Delivers(limit, s, id, ops)
    requires other != id && Tracked(s.shared, other) && Lookup(s.shared, other).inbox != []
    ensures Delivers(limit, Take(s, other, viaStream), id, ops)
  {
    PopAt(limit, s.shared, other, id);
    var u := Take(s, other, viaStream);
    assert u.log[..|u.log| - 1] == s.log;
  }

  lemma TurnDelivers(limit: nat, s: System, t: TaskId, expired: bool, id: ChannelId, ops: seq<Fifo.Op<Message>>)
    requires SystemInv(limit, s) && Delivers(limit, s, id, ops)
    requires t in s.tasks && s.tasks[t].status.Runnable?
    ensures Delivers(limit, TurnOf(s, t, expired), id, ops + if Reads(s, t, id) then [Fifo.Read] else [])
  {
    TurnTakes(s, t, expired);
    var loop := s.tasks[t].loop;
    if Reads(s, t, id) {
      ReadExtends(limit, s, id, loop.PumpReceive?, ops);
    } else {
      assert ops + [] == ops;
      if loop.Receive? && ReceiveTurn(s.shared, loop.id).Got? {
        TakeLeavesOthers(limit, s, id, loop.id, false, ops);
      } else if loop.PumpReceive? && StreamTurn(s.shared, loop.id).Got? {
        TakeLeavesOthers(limit, s, id, loop.id, true, ops);
      }
    }
  }

  lemma CloseExtends(limit: nat, s: Shared, t: Shared, id: ChannelId, ops: seq<Fifo.Op<Message>>)
    requires History(limit, s, id, ops) && t.channels == CloseAll(s.channels) && Later(s, t)
    ensures History(limit, t, id, ops + if Tracked(s, id) then [Fifo.Close] else [])
    ensures Fifo.Deliveries(limit, Size, ops + if Tracked(s, id) then [Fifo.Close] else [])
         == Fifo.Deliveries(limit, Size, ops)
  {
    if Tracked(s, id) {
      OneMore(limit, ops, Fifo.Close);
      LaterKeepsIndex(s, t, id);
      ReadlessOpsDeliverNothing(limit, ops, [Fifo.Close]);
    } else {
      assert ops + [] == ops;
      assert forall i :: 0 <= i < |t.channels| ==> t.channels[i].id == s.channels[i].id;
    }
  }

  lemma DrainDelivers(limit: nat, s: System, events: seq<PeerEvent>, chunks: seq<nat>, id: ChannelId,
                      ops: seq<Fifo.Op<Message>>)
    requires SystemInv(limit, s) && Delivers(limit, s, id, ops)
    ensures Delivers(limit, DrainOf(limit, s, events, chunks), id,
                     ops + EventsOps(limit, CloseCore(s.shared, chunks), events, id))
  {
    var closed := CloseCore(s.shared, chunks);
    SameChannelsSameHistory(limit, s.shared, closed, id, ops);
    EventsExtendHistory(limit, closed, events, id, ops);
    EventsNeverRead(limit, closed, events, id);
    ReadlessOpsDeliverNothing(limit, ops, EventsOps(limit, closed, events, id));
  }

  lemma ClaimKeepsHistory(limit: nat, s: Shared, id: ChannelId, other: ChannelId, ops: seq<Fifo.Op<Message>>)
    requires Inv(limit, s) && Tracked(s, other) && History(limit, s, id, ops)
    ensures History(limit, Claim(s, other), id, ops)
  {
    ClaimKeepsInv(limit, s, other);
    LookupAfterUpdate(s, Lookup(s, other).(streamClaimed := true), id);
  }

  lemma CloseDelivers(limit: nat, s: System, id: ChannelId, ops: seq<Fifo.Op<Message>>)
    requires SystemInv(limit, s) && Delivers(limit, s, id, ops)
    ensures Delivers(limit, Perform(limit, s, Close), id, ops + StepOps(limit, s, Close, id))
  {
    if Dead(s.shared) {
      assert ops + [] == ops;
    } else {
      StepLater(limit, s, Close);
      CloseExtends(limit, s.shared, BeginClose(s.shared, s.clock.now), id, ops);
    }
  }

  lemma AfterDrainDelivers(limit: nat, s: System, id: ChannelId, ops: seq<Fifo.Op<Message>>)
    requires SystemInv(limit, s) && Delivers(limit, s, id, ops) && Enabled(s, AfterDrain)
    ensures Delivers(limit, Perform(limit, s, AfterDrain), id, ops + StepOps(limit, s, AfterDrain, id))
  {
    if s.pump.done {
      StepLater(limit, s, AfterDrain);
      CloseExtends(limit, s.shared, Terminate(s.shared), id, ops);
    } else {
      assert ops + [] == ops;
    }
  }

  lemma ClaimDelivers(limit: nat, s: System, t: TaskId, other: ChannelId, id: ChannelId, ops: seq<Fifo.Op<Message>>)
    requires SystemInv(limit, s) && Delivers(limit, s, id, ops)
    ensures Delivers(limit, ClaimOf(s, t, other), id, ops)
  {
    if Tracked(s.shared, other) {
      ClaimKeepsHistory(limit, s.shared, id, other, ops);
    }
  }

  /** The other steps leave the channels and the log alone. */
  lemma QuietDelivers(limit: nat, s: System, step: Step, id: ChannelId, ops: seq<Fifo.Op<Message>>)
    requires Delivers(limit, s, id, ops) && Enabled(s, step)
    requires !step.Turn? && !step.Close? && !step.ClaimStream? && !step.Drain? && !step.AfterDrain?
    ensures Delivers(limit, Perform(limit, s, step), id, ops)
  {
    SameChannelsSameHistory(limit, s.shared, Perform(limit, s, step).shared, id, ops);
  }

  lemma StepDelivers(limit: nat, s: System, step: Step, id: ChannelId, ops: seq<Fifo.Op<Message>>)
    requires SystemInv(limit, s) && Delivers(limit, s, id, ops) && Enabled(s, step)
    ensures Delivers(limit, Perform(limit, s, step), id, ops + StepOps(limit, s, step, id))
  {
    match step
    case Turn(t, expired) => TurnDelivers(limit, s, t, expired, id, ops);
    case Close => CloseDelivers(limit, s, id, ops);
    case AfterDrain => AfterDrainDelivers(limit, s, id, ops);
    case Drain(events, chunks) => DrainDelivers(limit, s, events, chunks, id, ops);
    case ClaimStream(t, other) =>
      assert ops + [] == ops;
      ClaimDelivers(limit, s, t, other, id, ops);
    case _ =>
      assert ops + [] == ops;
      QuietDelivers(limit, s, step, id, ops);
  }

  lemma {:induction false} RunDelivers(limit: nat, steps: seq<Step>, id: ChannelId)
    ensures Delivers(limit, After(limit, steps), id, Ops(limit, steps, id))
  {
    if steps != [] {
      var before, step := steps[..|steps| - 1], steps[|steps| - 1];
      var s := After(limit, before);
      RunDelivers(limit, before, id);
      RunKeepsInv(limit, before);
      if Enabled(s, step) {
        StepDelivers(limit, s, step, id, Ops(limit, before, id));
      } else {
        assert Ops(limit, before, id) + [] == Ops(limit, before, id);
      }
    }
  }

  /**
   Every channel of every run is the bounded queue: what both kinds of consumer have taken, in the order they took
   it, is exactly the delivered prefix of the accepted messages, those are a prefix of the messages that arrived, and
   all that is accepted and not yet taken is in the inbox.
   */
  lemma ConsumersTakeTheAcceptedPrefix(limit: nat, steps: seq<Step>, id: ChannelId)
    ensures var s, ops := After(limit, steps), Ops(limit, steps, id);
      var f := Fifo.Run(limit, Size, ops);
      && TakenFrom(s.log, id) == f.accepted[..f.cursor]
      && f.accepted <= Fifo.Arrivals(ops)
      && (!f.ended ==> f.accepted == Fifo.Arrivals(ops))
      && (Tracked(s.shared, id) ==>
            && Lookup(s.shared, id).inbox == f.accepted[f.cursor..]
            && Lookup(s.shared, id).closed == f.ended
            && Lookup(s.shared, id).overflowed == f.overflowed)
  {
    RunDelivers(limit, steps, id);
    Fifo.RunDeliversAcceptedPrefix(limit, Size, Ops(limit, steps, id));
  }

  /** A `receive` on an unclaimed channel reports what the queue says, overflow exactly when it was latched. */
  lemma ReceiveReportsTheQueue(limit: nat, steps: seq<Step>, id: ChannelId)
    requires var s := After(limit, steps).shared; Tracked(s, id) && !Lookup(s, id).streamClaimed
    ensures var s, f := After(limit, steps).shared, Fifo.Run(limit, Size, Ops(limit, steps, id));
      ReceiveTurn(s, id) ==
        match Fifo.Peek(f)
        case Delivered(m) => Got(m)
        case Overflow => Refused(ReceiveBufferOverflow)
        case Closed => Refused(ClosedError)
        case Blocked => Nothing
  {
    RunDelivers(limit, steps, id);
    var c := Lookup(After(limit, steps).shared, id);
    assert c.inbox != [] <==> Fifo.Peek(Fifo.Run(limit, Size, Ops(limit, steps, id))).Delivered?;
  }

  // ----- the claim of `receive-via-stream` -----

  /** Entries for `id` past position `from` all went to the stream. */
  ghost predicate OnlyStreamFrom(log: seq<Taken>, from: nat, id: ChannelId) {
    forall i :: from <= i < |log| && log[i].id == id ==> log[i].viaStream
  }

  ghost predicate ClaimedOn(s: Shared, id: ChannelId) {
    Tracked(s, id) && Lookup(s, id).streamClaimed
  }

  /** The message a step hands to a consumer, if any. */
  ghost function TakenBy(s: System, step: Step): seq<Taken>
    requires Enabled(s, step)
  {
    if !step.Turn? then []
    else
      match s.tasks[step.task].loop
      case Receive(id) =>
        (match ReceiveTurn(s.shared, id) case Got(m) => [Taken(id, false, m)] case _ => [])
      case PumpReceive(id) =>
        (match StreamTurn(s.shared, id) case Got(m) => [Taken(id, true, m)] case _ => [])
      case _ => []
  }

  lemma StepLog(limit: nat, s: System, step: Step)
    requires Enabled(s, step)
    ensures Perform(limit, s, step).log == s.log + TakenBy(s, step)
    ensures forall x :: x in TakenBy(s, step) && !x.viaStream ==> !ClaimedOn(s.shared, x.id)
  {
  }

  lemma TurnStreams(s: System, x: TaskId, expired: bool, t: TaskId)
    requires x in s.tasks && s.tasks[x].status.Runnable?
    requires t in TurnOf(s, x, expired).tasks && TurnOf(s, x, expired).tasks[t].loop.PumpReceive?
    ensures t in s.tasks && s.tasks[t].loop == TurnOf(s, x, expired).tasks[t].loop
  {
    if t != x {
      TurnTakes(s, x, expired);
    }
  }

  /** Stream feeders come only from a claim. */
  lemma StepStreams(limit: nat, s: System, step: Step, t: TaskId)
    requires Enabled(s, step) && t in Perform(limit, s, step).tasks
    requires Perform(limit, s, step).tasks[t].loop.PumpReceive?
    ensures var loop := Perform(limit, s, step).tasks[t].loop;
      (t in s.tasks && s.tasks[t].loop == loop) || (step.ClaimStream? && step.id == loop.id)
  {
    match step
    case Turn(x, expired) => TurnStreams(s, x, expired, t);
    case ClaimStream(_, _) =>
    case _ =>
  }

  /** Once the claim is recorded, no `receive` takes another message of the channel, in any continuation. */
  lemma {:induction false} RecordedClaimStopsReceive(limit: nat, steps: seq<Step>, more: seq<Step>, id: ChannelId)
    requires ClaimedOn(After(limit, steps).shared, id)
    ensures var s, t := After(limit, steps), After(limit, steps + more);
      && ClaimedOn(t.shared, id)
      && s.log <= t.log
      && OnlyStreamFrom(t.log, |s.log|, id)
  {
    RunOnlyMovesForward(limit, steps, more);
    LaterKeepsIndex(After(limit, steps).shared, After(limit, steps + more).shared, id);
    if more == [] {
      assert steps + more == steps;
    } else {
      var before := more[..|more| - 1];
      RecordedClaimStopsReceive(limit, steps, before, id);
      assert (steps + more)[..|steps + more| - 1] == steps + before;
      var u := After(limit, steps + before);
      RunKeepsInv(limit, steps + before);
      if Enabled(u, more[|more| - 1]) {
        StepLog(limit, u, more[|more| - 1]);
      }
    }
  }

  /** Every successful `receive-via-stream` of the run on `id` came after the channel was tracked. */
  ghost predicate NoEarlyClaim(limit: nat, steps: seq<Step>, id: ChannelId) {
    forall k :: 0 <= k < |steps| ==> ClaimInTime(limit, steps, k, id)
  }

  ghost predicate ClaimInTime(limit: nat, steps: seq<Step>, k: nat, id: ChannelId)
    requires k < |steps|
  {
    var s := After(limit, steps[..k]);
    steps[k].ClaimStream? && steps[k].id == id && Enabled(s, steps[k]) ==> Tracked(s.shared, id)
  }

  /** The log of `id` is a run of receives followed by a run of stream deliveries, and the stream needs the claim. */
  ghost predicate ClaimOrder(s: System, id: ChannelId) {
    && (forall i, j :: 0 <= i < j < |s.log| && s.log[i].id == s.log[j].id == id && s.log[i].viaStream
          ==> s.log[j].viaStream)
    && (forall i :: 0 <= i < |s.log| && s.log[i].id == id && s.log[i].viaStream ==> ClaimedOn(s.shared, id))
    && (forall t :: t in s.tasks && s.tasks[t].loop == PumpReceive(id) ==> ClaimedOn(s.shared, id))
  }

  /** A successful claim is recorded exactly when the channel is tracked; otherwise the state forgets it. */
  lemma ClaimRecordedIffTracked(limit: nat, s: System, t: TaskId, id: ChannelId)
    requires SystemInv(limit, s) && Enabled(s, ClaimStream(t, id))
    ensures ClaimedOn(Perform(limit, s, ClaimStream(t, id)).shared, id) <==> Tracked(s.shared, id)
    ensures !Tracked(s.shared, id) ==> Perform(limit, s, ClaimStream(t, id)).shared == s.shared
  {
    if Tracked(s.shared, id) {
      ClaimKeepsInv(limit, s.shared, id);
      LookupAfterUpdate(s.shared, Lookup(s.shared, id).(streamClaimed := true), id);
    }
  }

  lemma StepKeepsClaimOrder(limit: nat, s: System, step: Step, id: ChannelId)
    requires SystemInv(limit, s) && Enabled(s, step) && ClaimOrder(s, id)
    requires step.ClaimStream? && step.id == id ==> Tracked(s.shared, id)
    ensures ClaimOrder(Perform(limit, s, step), id)
  {
    var u := Perform(limit, s, step);
    StepLog(limit, s, step);
    assert ClaimedOn(s.shared, id) ==> ClaimedOn(u.shared, id) by {
      StepLater(limit, s, step);
      if Tracked(s.shared, id) {
        LaterKeepsIndex(s.shared, u.shared, id);
      }
    }
    if step.ClaimStream? && step.id == id {
      ClaimRecordedIffTracked(limit, s, step.task, id);
    }
    forall t | t in u.tasks && u.tasks[t].loop == PumpReceive(id)
      ensures ClaimedOn(u.shared, id)
    {
      StepStreams(limit, s, step, t);
    }
  }

  /**
   With no claim made before the channel was tracked, the messages of a channel go first to `receive` calls and,
   from the claim on, only to the stream.
   */
  lemma {:induction false} ReceivesThenStream(limit: nat, steps: seq<Step>, id: ChannelId)
    requires NoEarlyClaim(limit, steps, id)
    ensures ClaimOrder(After(limit, steps), id)
  {
    if steps != [] {
      var n := |steps| - 1;
      var before := steps[..n];
      forall k | 0 <= k < n
        ensures ClaimInTime(limit, before, k, id)
      {
        assert ClaimInTime(limit, steps, k, id) && before[..k] == steps[..k];
      }
      ReceivesThenStream(limit, before, id);
      RunKeepsInv(limit, before);
      assert ClaimInTime(limit, steps, n, id);
      if Enabled(After(limit, before), steps[n]) {
        StepKeepsClaimOrder(limit, After(limit, before), steps[n], id);
      }
    }
  }

  lemma Extend(limit: nat, steps: seq<Step>, step: Step)
    requires Enabled(After(limit, steps), step)
    ensures After(limit, steps + [step]) == Perform(limit, After(limit, steps), step)
  {
    assert (steps + [step])[..|steps + [step]| - 1] == steps;
  }

  // ----- a claim stops `receive` exactly when it finds the channel tracked -----

  /** `u` is `s` as far as channels, consumers and the life of the connection go. */
  ghost predicate AsBefore(s: System, u: System) {
    u.shared.channels == s.shared.channels && u.log == s.log && !Dead(u.shared)
  }

  /** The pump is about to apply events: nothing is left to send. */
  ghost predicate AtDrain(s: System) { s.pump.Flushing? && s.shared.core.transmit == [] }

  /** The pump's next step towards its drain. */
  ghost function PumpStep(s: System): Step {
    if s.pump.NotStarted? then Start
    else if s.pump.Idle? then WakePump([], false)
    else if s.shared.core.transmit != [] then Flush
    else AfterDrain
  }

  ghost function PumpDistance(s: System): nat {
    |s.shared.core.transmit|
    + match s.pump case FlushingThen(_) => 3 case Idle => 2 case NotStarted => 1 case _ => 0
  }

  lemma PumpStepAdvances(limit: nat, s: System)
    requires SystemInv(limit, s) && !Dead(s.shared) && !AtDrain(s)
    ensures Enabled(s, PumpStep(s))
    ensures var u := Perform(limit, s, PumpStep(s)); AsBefore(s, u) && PumpDistance(u) < PumpDistance(s)
  {
  }

  /** On a live connection the pump always gets to its next drain. */
  lemma {:induction false} ReachesItsDrain(limit: nat, steps: seq<Step>) returns (more: seq<Step>)
    requires !Dead(After(limit, steps).shared)
    ensures var s, u := After(limit, steps), After(limit, steps + more); AsBefore(s, u) && AtDrain(u)
    decreases PumpDistance(After(limit, steps))
  {
    var s := After(limit, steps);
    if AtDrain(s) {
      more := [];
      assert steps + more == steps;
    } else {
      RunKeepsInv(limit, steps);
      PumpStepAdvances(limit, s);
      Extend(limit, steps, PumpStep(s));
      var rest := ReachesItsDrain(limit, steps + [PumpStep(s)]);
      more := [PumpStep(s)] + rest;
      assert steps + more == steps + [PumpStep(s)] + rest;
    }
  }

  /** A batch that opens a channel and brings its first message. */
  function Opening(id: ChannelId, m: Message): seq<PeerEvent> { [ChannelOpen(id, ""), Inbound(id, m)] }

  lemma OpeningDelivers(limit: nat, s: Shared, id: ChannelId, m: Message)
    requires Inv(limit, s) && !Tracked(s, id) && !Dead(s) && Size(m) <= limit
    ensures var t := ApplyAll(limit, s, Opening(id, m));
      Tracked(t, id) && Lookup(t, id).inbox == [m] && !Lookup(t, id).streamClaimed
  {
    var events := Opening(id, m);
    assert events[..1] == [events[0]] && events[..1][..0] == [];
    var t := ApplyEvent(limit, s, events[0]);
    assert ApplyAll(limit, s, events[..1]) == t;
    LookupAfterEvent(limit, s, events[0], id);
    ApplyEventKeepsInv(limit, s, events[0]);
    LookupAfterEvent(limit, t, events[1], id);
  }

  lemma {:induction false} Bound(ids: set<TaskId>) returns (n: TaskId)
    ensures forall t :: t in ids ==> t < n
  {
    if ids == {} {
      n := 0;
    } else {
      var t :| t in ids;
      var m := Bound(ids - {t});
      n := if m <= t then t + 1 else m;
      assert forall x :: x in ids ==> x == t || x in ids - {t};
    }
  }

  /** On an unclaimed channel with a message, a new `receive` takes it. */
  lemma NewReceiveTakes(limit: nat, steps: seq<Step>, id: ChannelId) returns (more: seq<Step>)
    requires var c := After(limit, steps).shared; Tracked(c, id) && Lookup(c, id).inbox != []
    requires !Lookup(After(limit, steps).shared, id).streamClaimed
    ensures var s := After(limit, steps);
      After(limit, steps + more).log == s.log + [Taken(id, false, Lookup(s.shared, id).inbox[0])]
  {
    var s := After(limit, steps);
    var t := Bound(s.tasks.Keys);
    Extend(limit, steps, Spawn(t, Receive(id)));
    var u := Perform(limit, s, Spawn(t, Receive(id)));
    Extend(limit, steps + [Spawn(t, Receive(id))], Turn(t, false));
    TurnTakes(u, t, false);
    more := [Spawn(t, Receive(id)), Turn(t, false)];
    assert steps + more == steps + [Spawn(t, Receive(id))] + [Turn(t, false)];
  }

  /** While a channel is still opening, some continuation has a `receive` take its first message. */
  lemma OpeningChannelServesReceive(limit: nat, steps: seq<Step>, id: ChannelId) returns (more: seq<Step>)
    requires !Dead(After(limit, steps).shared) && !Tracked(After(limit, steps).shared, id)
    ensures After(limit, steps + more).log == After(limit, steps).log + [Taken(id, false, Message(false, []))]
  {
    var m := Message(false, []);
    var draining := ReachesItsDrain(limit, steps);
    var ready := steps + draining;
    var s, drain := After(limit, ready), Drain(Opening(id, m), []);
    RunKeepsInv(limit, ready);
    OpeningDelivers(limit, CloseCore(s.shared, []), id, m);
    Extend(limit, ready, drain);
    var taking := NewReceiveTakes(limit, ready + [drain], id);
    more := draining + [drain] + taking;
    assert steps + more == ready + [drain] + taking;
  }

  /** In the continuation `more` of `steps` no `receive` takes a message of the channel. */
  ghost predicate StopsReceive(limit: nat, steps: seq<Step>, more: seq<Step>, id: ChannelId) {
    OnlyStreamFrom(After(limit, steps + more).log, |After(limit, steps).log|, id)
  }

  /**
   In every reachable state, a successful `receive-via-stream` keeps all later `receive` calls from the channel's
   messages exactly when the channel is tracked at the time.
   */
  lemma ClaimStopsReceiveIffTracked(limit: nat, steps: seq<Step>, t: TaskId, id: ChannelId)
    requires Enabled(After(limit, steps), ClaimStream(t, id))
    ensures (forall more :: StopsReceive(limit, steps + [ClaimStream(t, id)], more, id))
       <==> Tracked(After(limit, steps).shared, id)
  {
    var s, claimed := After(limit, steps), steps + [ClaimStream(t, id)];
    RunKeepsInv(limit, steps);
    Extend(limit, steps, ClaimStream(t, id));
    ClaimRecordedIffTracked(limit, s, t, id);
    if Tracked(s.shared, id) {
      forall more
        ensures StopsReceive(limit, claimed, more, id)
      {
        RecordedClaimStopsReceive(limit, claimed, more, id);
      }
    } else {
      var more := OpeningChannelServesReceive(limit, claimed, id);
      var log := After(limit, claimed + more).log;
      assert log[|After(limit, claimed).log|] == Taken(id, false, Message(false, []));
      assert !StopsReceive(limit, claimed, more, id);
    }
  }

  /** After a recorded claim no `receive` of the channel sleeps, and each of its turns is refused. */
  lemma ClaimedReceivesAreRefused(limit: nat, steps: seq<Step>, more: seq<Step>, t: TaskId, id: ChannelId)
    requires ClaimedOn(After(limit, steps).shared, id)
    requires var u := After(limit, steps + more); t in u.tasks && u.tasks[t].loop == Receive(id)
    ensures var u := After(limit, steps + more);
      !u.tasks[t].status.Parked? && ReceiveTurn(u.shared, id) == Refused(ReceivingViaStream)
  {
    RecordedClaimStopsReceive(limit, steps, more, id);
    RunKeepsInv(limit, steps + more);
    assert Asleep(After(limit, steps + more), t);
  }

  /** A channel opens with a message in the same batch, on a fresh connection. */
  lemma OpenWithMessage(limit: nat, m: Message)
    requires Size(m) <= limit
    ensures ApplyAll(limit, Fresh(), [ChannelOpen(7, "x"), Inbound(7, m)]).channels
         == [Channel(7, "x", [m], Size(m), false, false, false)]
  {
    var events := [ChannelOpen(7, "x"), Inbound(7, m)];
    assert events[..1] == [ChannelOpen(7, "x")] && events[..1][..0] == [];
    var tracked := ApplyEvent(limit, Fresh(), events[0]);
    assert !Tracked(Fresh(), 7) && tracked.channels == [NewChannel(7, "x", false)];
    assert Index(tracked.channels, 7) == 0;
    assert ApplyAll(limit, Fresh(), events[..1]) == tracked;
    assert ApplyAll(limit, Fresh(), events) == ApplyEvent(limit, tracked, events[1]);
    assert Enqueue(limit, NewChannel(7, "x", false), m) == Channel(7, "x", [m], Size(m), false, false, false);
  }

  /** The claim of a channel that is not tracked yet succeeds and leaves no trace. */
  lemma EarlyClaim(limit: nat, steps: seq<Step>)
    requires steps == [ClaimStream(0, 7), Start]
    ensures After(limit, steps).shared == Fresh() && After(limit, steps).log == [] && After(limit, steps).pump.Flushing?
    ensures 1 !in After(limit, steps).tasks
  {
    assert steps[..1][..0] == [] && !Tracked(Fresh(), 7);
    assert After(limit, steps[..1]) == ClaimOf(Initial(), 0, 7);
  }

  ghost predicate HasMessage(s: System, m: Message) {
    s.shared.channels == [Channel(7, "x", [m], Size(m), false, false, false)] && s.log == []
  }

  lemma ReceiveTakesIt(limit: nat, s: System, m: Message)
    requires HasMessage(s, m) && 1 !in s.tasks
    ensures var t := Perform(limit, s, Spawn(1, Receive(7)));
      Enabled(t, Turn(1, false)) && Perform(limit, t, Turn(1, false)).log == [Taken(7, false, m)]
  {
    assert Index(s.shared.channels, 7) == 0;
    var t := Perform(limit, s, Spawn(1, Receive(7)));
    TurnTakes(t, 1, false);
  }

  /** A claim made before the channel opens does not stop a later `receive` from taking the channel's message. */
  lemma EarlyClaimDoesNotStopReceive(limit: nat, m: Message)
    requires Size(m) <= limit
    ensures var steps := [ClaimStream(0, 7), Start, Drain([ChannelOpen(7, "x"), Inbound(7, m)], []),
                          Spawn(1, Receive(7)), Turn(1, false)];
      After(limit, steps).log == [Taken(7, false, m)]
  {
    var events := [ChannelOpen(7, "x"), Inbound(7, m)];
    var claimed := [ClaimStream(0, 7), Start];
    EarlyClaim(limit, claimed);
    OpenWithMessage(limit, m);
    Extend(limit, claimed, Drain(events, []));
    var opened' := claimed + [Drain(events, [])];
    var s := After(limit, opened');
    assert HasMessage(s, m) && 1 !in s.tasks;
    ReceiveTakesIt(limit, s, m);
    Extend(limit, opened', Spawn(1, Receive(7)));
    var spawned := opened' + [Spawn(1, Receive(7))];
    Extend(limit, spawned, Turn(1, false));
    assert spawned + [Turn(1, false)]
        == [ClaimStream(0, 7), Start, Drain(events, []), Spawn(1, Receive(7)), Turn(1, false)];
  }
}
