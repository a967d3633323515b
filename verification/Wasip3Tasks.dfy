/**
 The in-guest implementation as a whole: the pump and any number of API tasks on one cooperative, single-threaded
 scheduler.  A step is everything a task does between two awaits; the sans-I/O core and the network are the
 environment, which chooses the events, datagrams and the passing of time.
 */
module Wasip3Tasks {
  import opened Collections
  import opened Wasip3State
  import opened Wasip3Loops

  type TaskId = nat

  datatype Status = Runnable | Parked(seen: nat) | Writing | Finished

  datatype Task = Task(loop: Loop, status: Status)

  /** One message handed to a consumer: a `receive` call, or the stream of `receive-via-stream`. */
  datatype Taken = Taken(id: ChannelId, viaStream: bool, message: Message)

  /** Where the pump is suspended; `FlushingThen` is the flush after the events were applied. */
  datatype Pump = NotStarted | Flushing | FlushingThen(done: bool) | Idle | Returned

  /**
   `timer` is the pending tick.  The last four are history: when the pump started and last applied events, and
   how long it was held up in flushes altogether and by the time it last applied events.
   */
  datatype Clock = Clock(
    now: nat, timer: nat, startedAt: nat, lastDrain: nat, stalled: nat, stalledAtDrain: nat)

  datatype System = System(
    shared: Shared,
    version: nat,
    wakers: set<TaskId>,
    tasks: map<TaskId, Task>,
    log: seq<Taken>,
    pump: Pump,
    clock: Clock)

  datatype Step =
    | Spawn(task: TaskId, loop: Loop)
    | Turn(task: TaskId, expired: bool)
    | Written(task: TaskId, more: bool)
    | Expire(task: TaskId)
    | Close
    | ClaimStream(task: TaskId, id: ChannelId)
    | Queue(datagrams: seq<nat>)
    | Start
    | Flush
    | Drain(events: seq<PeerEvent>, chunks: seq<nat>)
    | AfterDrain
    | WakePump(datagrams: seq<nat>, ticked: bool)
    | Pass(nanos: nat)

  const MAX_WAIT: nat := 50_000_000

  function Initial(): System {
    System(Fresh(), 0, {}, map[], [], NotStarted, Clock(0, 0, 0, 0, 0, 0))
  }

  // ----- the change notification -----

  ghost function Woken(tasks: map<TaskId, Task>, wakers: set<TaskId>): map<TaskId, Task> {
    map t | t in tasks ::
      if t in wakers && tasks[t].status.Parked? then tasks[t].(status := Runnable) else tasks[t]
  }

  ghost function Notify(s: System): System {
    s.(version := s.version + 1, wakers := {}, tasks := Woken(s.tasks, s.wakers))
  }

  ghost function Park(s: System, t: TaskId, loop: Loop): System {
    s.(tasks := s.tasks[t := Task(loop, Parked(s.version))], wakers := s.wakers + {t})
  }

  ghost function Set(s: System, t: TaskId, loop: Loop, status: Status): System {
    s.(tasks := s.tasks[t := Task(loop, status)])
  }

  ghost function Take(s: System, id: ChannelId, viaStream: bool): System
    requires Tracked(s.shared, id) && Lookup(s.shared, id).inbox != []
  {
    s.(shared := Pop(s.shared, id), log := s.log + [Taken(id, viaStream, Lookup(s.shared, id).inbox[0])])
  }

  // ----- the steps -----

  ghost function TurnOf(s: System, t: TaskId, expired: bool): System
    requires t in s.tasks && s.tasks[t].status.Runnable?
  {
    var loop := s.tasks[t].loop;
    match loop
    case WhenOpen(id) => if Waits(loop, s.shared) then Park(s, t, loop) else Set(s, t, loop, Finished)
    case WaitConnected =>
      if Waits(loop, s.shared) && !expired then Park(s, t, loop) else Set(s, t, loop, Finished)
    case Receive(id) =>
      (match ReceiveTurn(s.shared, id)
       case Got(_) => Set(Take(s, id, false), t, loop, Finished)
       case Refused(_) => Set(s, t, loop, Finished)
       case Nothing => Park(s, t, loop))
    case PumpReceive(id) =>
      (match StreamTurn(s.shared, id)
       case Got(_) => Set(Take(s, id, true), t, loop, Writing)
       case Refused(_) => Set(s, t, loop, Finished)
       case Nothing => Park(s, t, loop))
    case PumpIncoming(cursor, localChannel, surfaced) =>
      if cursor > |s.shared.channels| then s
      else
        var (r, next) := IncomingTurn(s.shared, cursor, localChannel);
        match r
        case Found(id, _) => Set(s, t, PumpIncoming(next, localChannel, surfaced + [id]), Writing)
        case End => Set(s, t, PumpIncoming(next, localChannel, surfaced), Finished)
        case NoneYet => Park(s, t, PumpIncoming(next, localChannel, surfaced))
  }

  /** What a turn does beside moving its own task: at most, it takes one message. */
  lemma TurnTakes(s: System, t: TaskId, expired: bool)
    requires t in s.tasks && s.tasks[t].status.Runnable?
    ensures var loop, u := s.tasks[t].loop, TurnOf(s, t, expired);
      && u.version == s.version && u.pump == s.pump && u.clock == s.clock
      && u.tasks.Keys == s.tasks.Keys
      && (forall x :: x in s.tasks && x != t ==> u.tasks[x] == s.tasks[x])
      && (if loop.Receive? && ReceiveTurn(s.shared, loop.id).Got? then
            u.shared == Take(s, loop.id, false).shared && u.log == Take(s, loop.id, false).log
          else if loop.PumpReceive? && StreamTurn(s.shared, loop.id).Got? then
            u.shared == Take(s, loop.id, true).shared && u.log == Take(s, loop.id, true).log
          else u.shared == s.shared && u.log == s.log)
  {
    match s.tasks[t].loop
    case PumpIncoming(_, _, _) =>
    case _ =>
  }

  ghost predicate FreshLoop(loop: Loop) {
    !loop.PumpReceive? && (loop.PumpIncoming? ==> loop.cursor == 0 && loop.surfaced == [])
  }

  /** `receive-via-stream` when it succeeds; the claim is recorded only on a channel already tracked. */
  ghost function ClaimOf(s: System, t: TaskId, id: ChannelId): System {
    var claimed := if Tracked(s.shared, id) then Notify(s.(shared := Claim(s.shared, id))) else s;
    Set(claimed, t, PumpReceive(id), Runnable)
  }

  predicate ClaimSucceeds(s: Shared, id: ChannelId) {
    !(Tracked(s, id) && Lookup(s, id).streamClaimed) && !Phase(s, id).Gone?
  }

  /** Closing the core loses whatever it still had to send, and queues its own closing chunks. */
  function CloseCore(s: Shared, chunks: seq<nat>): Shared {
    if !s.closeRequested then s
    else s.(closeRequested := false,
            core := s.core.(closes := s.core.closes + 1,
                            discarded := s.core.discarded + |s.core.transmit|,
                            transmit := chunks))
  }

  predicate Done(s: Shared, now: nat) {
    s.failed || (s.closed && (s.shutdownComplete || s.drainDeadline.None? || now >= s.drainDeadline.value))
  }

  ghost function DrainOf(limit: nat, s: System, events: seq<PeerEvent>, chunks: seq<nat>): System {
    var shared := ApplyAll(limit, CloseCore(s.shared, chunks), events);
    var applied := s.(shared := shared,
                      pump := FlushingThen(Done(shared, s.clock.now)),
                      clock := s.clock.(lastDrain := s.clock.now, stalledAtDrain := s.clock.stalled));
    if events != [] then Notify(applied) else applied
  }

  ghost predicate Enabled(s: System, step: Step) {
    match step
    case Spawn(t, loop) => t !in s.tasks && FreshLoop(loop)
    case Turn(t, _) => t in s.tasks && s.tasks[t].status.Runnable?
    case Written(t, _) => t in s.tasks && s.tasks[t].status.Writing?
    case Expire(t) => t in s.tasks && s.tasks[t].status.Parked? && s.tasks[t].loop.WaitConnected?
    case ClaimStream(t, id) => t !in s.tasks && ClaimSucceeds(s.shared, id)
    case Start => s.pump.NotStarted?
    case Flush => (s.pump.Flushing? || s.pump.FlushingThen?) && s.shared.core.transmit != []
    case Drain(_, _) => s.pump.Flushing? && s.shared.core.transmit == []
    case AfterDrain => s.pump.FlushingThen? && s.shared.core.transmit == []
    case WakePump(_, ticked) => s.pump.Idle? && (ticked ==> s.clock.timer <= s.clock.now)
    case Pass(nanos) => s.pump.Idle? ==> s.clock.now + nanos <= s.clock.timer
    case _ => true
  }

  ghost function Perform(limit: nat, s: System, step: Step): System
    requires Enabled(s, step)
  {
    var c := s.clock;
    match step
    case Spawn(t, loop) => Set(s, t, loop, Runnable)
    case Turn(t, expired) => TurnOf(s, t, expired)
    case Written(t, more) => Set(s, t, s.tasks[t].loop, if more then Runnable else Finished)
    case Expire(t) => Set(s, t, s.tasks[t].loop, Runnable)
    case Close => if Dead(s.shared) then s else Notify(s.(shared := BeginClose(s.shared, c.now)))
    case ClaimStream(t, id) => ClaimOf(s, t, id)
    case Queue(datagrams) => s.(shared := Transmit(s.shared, s.shared.core.transmit + datagrams))
    case Start =>
      s.(pump := Flushing,
         clock := c.(timer := c.now + MAX_WAIT, startedAt := c.now, lastDrain := c.now, stalledAtDrain := c.stalled))
    case Flush => s.(shared := Transmit(s.shared, s.shared.core.transmit[1..]))
    case Drain(events, chunks) => DrainOf(limit, s, events, chunks)
    case AfterDrain =>
      if s.pump.done then Notify(s.(shared := Terminate(s.shared), pump := Returned)) else s.(pump := Idle)
    case WakePump(datagrams, ticked) =>
      s.(shared := Transmit(s.shared, s.shared.core.transmit + datagrams),
         pump := Flushing,
         clock := if ticked then c.(timer := c.now + MAX_WAIT) else c)
    case Pass(nanos) =>
      if s.pump.Flushing? || s.pump.FlushingThen? then
        s.(clock := c.(now := c.now + nanos, stalled := c.stalled + nanos))
      else s.(clock := c.(now := c.now + nanos))
  }

  function Transmit(s: Shared, datagrams: seq<nat>): Shared {
    s.(core := s.core.(transmit := datagrams))
  }

  /** The system after a list of steps, those not enabled when their turn comes being skipped. */
  ghost function After(limit: nat, steps: seq<Step>): System {
    if steps == [] then Initial()
    else
      var s := After(limit, steps[..|steps| - 1]);
      if Enabled(s, steps[|steps| - 1]) then Perform(limit, s, steps[|steps| - 1]) else s
  }

  // ----- the invariant -----

  /** Nobody sleeps through a change: a parked task is registered, and what it saw still tells it to wait. */
  ghost predicate Asleep(s: System, t: TaskId)
    requires t in s.tasks
  {
    s.tasks[t].status.Parked? ==>
      t in s.wakers && s.tasks[t].status.seen == s.version && Waits(s.tasks[t].loop, s.shared)
  }

  /** The feeder of `incoming-data-channels` has surfaced exactly the remote channels it has passed. */
  ghost predicate Fed(s: System, t: TaskId)
    requires t in s.tasks
  {
    match s.tasks[t].loop
    case PumpIncoming(cursor, localChannel, surfaced) =>
      cursor <= |s.shared.channels| && surfaced == Remote(s.shared.channels[..cursor], localChannel)
    case _ => true
  }

  /** The core is closed once for the one local close there can be, now or still to come, and loses nothing. */
  ghost predicate ClosesOnce(s: Shared) {
    && s.core.closes + (if s.closeRequested then 1 else 0) == (if s.drainDeadline.Some? then 1 else 0)
    && s.core.discarded == 0
  }

  ghost predicate SystemInv(limit: nat, s: System) {
    && Inv(limit, s.shared)
    && (forall t :: t in s.tasks ==> Asleep(s, t) && Fed(s, t))
    && ClosesOnce(s.shared)
    && (s.pump.Returned? ==> s.shared.closed)
    && (s.pump.FlushingThen? && s.pump.done ==> Dead(s.shared))
    && (Leaving(s.pump) ==> !s.shared.closeRequested)
  }

  /** The pump has returned, or has decided to. */
  predicate Leaving(pump: Pump) { pump.Returned? || (pump.FlushingThen? && pump.done) }

  /** `t` shows the wait loops nothing that `s` did not. */
  ghost predicate SameView(s: Shared, t: Shared) {
    && t.channels == s.channels
    && t.connected == s.connected && t.failed == s.failed && t.closed == s.closed
  }

  lemma SameViewSameWaits(s: Shared, t: Shared, loop: Loop)
    requires SameView(s, t)
    ensures Waits(loop, s) == Waits(loop, t)
  {
  }

  lemma {:induction false} RemoteLater(cs: seq<Channel>, ds: seq<Channel>, cursor: nat, localChannel: Option<ChannelId>)
    requires cursor <= |cs| && cursor <= |ds|
    requires forall i :: 0 <= i < cursor ==> ds[i].id == cs[i].id
    ensures Remote(ds[..cursor], localChannel) == Remote(cs[..cursor], localChannel)
  {
    if cursor > 0 {
      RemoteLater(cs, ds, cursor - 1, localChannel);
      assert ds[..cursor][..cursor - 1] == ds[..cursor - 1];
      assert cs[..cursor][..cursor - 1] == cs[..cursor - 1];
    }
  }

  lemma LaterKeepsFed(s: System, t: System, id: TaskId)
    requires id in s.tasks && Fed(s, id) && Later(s.shared, t.shared)
    requires id in t.tasks && t.tasks[id].loop == s.tasks[id].loop
    ensures Fed(t, id)
  {
    match s.tasks[id].loop
    case PumpIncoming(cursor, localChannel, _) =>
      assert forall i :: 0 <= i < cursor ==> ChannelLater(s.shared.channels[i], t.shared.channels[i]);
      RemoteLater(s.shared.channels, t.shared.channels, cursor, localChannel);
    case _ =>
  }

  /** A change that is announced in the same step leaves nobody parked. */
  lemma NotifyKeepsInv(limit: nat, s: System, u: System)
    requires SystemInv(limit, s) && Inv(limit, u.shared) && Later(s.shared, u.shared) && ClosesOnce(u.shared)
    requires u.tasks == s.tasks && u.wakers == s.wakers
    requires u.pump.Returned? ==> u.shared.closed
    requires u.pump.FlushingThen? && u.pump.done ==> Dead(u.shared)
    requires Leaving(u.pump) ==> !u.shared.closeRequested
    ensures SystemInv(limit, Notify(u))
  {
    forall t | t in u.tasks
      ensures Asleep(Notify(u), t) && Fed(Notify(u), t)
    {
      assert Asleep(s, t) && Fed(s, t);
      LaterKeepsFed(s, Notify(u), t);
    }
  }

  /** A step that shows the wait loops nothing new may leave them parked. */
  lemma QuietKeepsInv(limit: nat, s: System, u: System)
    requires SystemInv(limit, s) && Inv(limit, u.shared) && SameView(s.shared, u.shared) && ClosesOnce(u.shared)
    requires u.tasks == s.tasks && u.wakers == s.wakers && u.version == s.version
    requires u.pump.Returned? ==> u.shared.closed
    requires u.pump.FlushingThen? && u.pump.done ==> Dead(u.shared)
    requires Leaving(u.pump) ==> !u.shared.closeRequested
    ensures SystemInv(limit, u)
  {
    forall t | t in u.tasks
      ensures Asleep(u, t) && Fed(u, t)
    {
      assert Asleep(s, t) && Fed(s, t);
      SameViewSameWaits(s.shared, u.shared, u.tasks[t].loop);
    }
  }

  /** Replacing one task keeps the invariant when the new task itself is in order. */
  lemma SetKeepsInv(limit: nat, s: System, t: TaskId, task: Task, wakers: set<TaskId>)
    requires SystemInv(limit, s) && s.wakers <= wakers
    requires var u := s.(tasks := s.tasks[t := task], wakers := wakers); Asleep(u, t) && Fed(u, t)
    ensures SystemInv(limit, s.(tasks := s.tasks[t := task], wakers := wakers))
  {
    var u := s.(tasks := s.tasks[t := task], wakers := wakers);
    forall x | x in u.tasks
      ensures Asleep(u, x) && Fed(u, x)
    {
      if x != t {
        assert Asleep(s, x) && Fed(s, x);
      }
    }
  }

  lemma TakeKeepsInv(limit: nat, s: System, id: ChannelId, viaStream: bool)
    requires SystemInv(limit, s) && Tracked(s.shared, id) && Lookup(s.shared, id).inbox != []
    ensures SystemInv(limit, Take(s, id, viaStream))
  {
    PopKeepsInv(limit, s.shared, id);
    var u := Take(s, id, viaStream);
    forall t | t in u.tasks
      ensures Asleep(u, t) && Fed(u, t)
    {
      assert Asleep(s, t) && Fed(s, t);
      if u.tasks[t].status.Parked? {
        PopKeepsWaiting(limit, s.shared, id, u.tasks[t].loop);
      }
      LaterKeepsFed(s, u, t);
    }
  }

  lemma TurnKeepsInv(limit: nat, s: System, t: TaskId, expired: bool)
    requires SystemInv(limit, s) && t in s.tasks && s.tasks[t].status.Runnable?
    ensures SystemInv(limit, TurnOf(s, t, expired))
  {
    var loop := s.tasks[t].loop;
    assert Fed(s, t);
    match loop
    case PumpIncoming(cursor, localChannel, surfaced) =>
      var (r, next) := IncomingTurn(s.shared, cursor, localChannel);
      IncomingTurnSkipsNoRemote(s.shared, cursor, localChannel);
      var loop' := PumpIncoming(next, localChannel, if r.Found? then surfaced + [r.id] else surfaced);
      match r {
        case Found(_, _) => SetKeepsInv(limit, s, t, Task(loop', Writing), s.wakers);
        case End => SetKeepsInv(limit, s, t, Task(loop', Finished), s.wakers);
        case NoneYet =>
          assert Waits(loop', s.shared);
          SetKeepsInv(limit, s, t, Task(loop', Parked(s.version)), s.wakers + {t});
      }
    case Receive(id) =>
      if ReceiveTurn(s.shared, id).Got? {
        TakeKeepsInv(limit, s, id, false);
        SetKeepsInv(limit, Take(s, id, false), t, Task(loop, Finished), s.wakers);
      } else {
        SetKeepsInv(limit, s, t, Task(loop, Finished), s.wakers);
        if Waits(loop, s.shared) {
          SetKeepsInv(limit, s, t, Task(loop, Parked(s.version)), s.wakers + {t});
        }
      }
    case PumpReceive(id) =>
      if StreamTurn(s.shared, id).Got? {
        TakeKeepsInv(limit, s, id, true);
        SetKeepsInv(limit, Take(s, id, true), t, Task(loop, Writing), s.wakers);
      } else {
        SetKeepsInv(limit, s, t, Task(loop, Finished), s.wakers);
        if Waits(loop, s.shared) {
          SetKeepsInv(limit, s, t, Task(loop, Parked(s.version)), s.wakers + {t});
        }
      }
    case _ =>
      SetKeepsInv(limit, s, t, Task(loop, Finished), s.wakers);
      if Waits(loop, s.shared) {
        SetKeepsInv(limit, s, t, Task(loop, Parked(s.version)), s.wakers + {t});
      }
  }

  ghost predicate SameCore(s: Shared, t: Shared) {
    && t.core.closes == s.core.closes && t.core.discarded == s.core.discarded
    && t.core.transmit == s.core.transmit && t.closeRequested == s.closeRequested
    && t.drainDeadline == s.drainDeadline
  }

  lemma EventKeepsCore(limit: nat, s: Shared, event: PeerEvent)
    ensures SameCore(s, ApplyEvent(limit, s, event))
  {
    match event
    case Inbound(id, m) =>
    case _ =>
  }

  lemma {:induction false} EventsKeepCore(limit: nat, s: Shared, events: seq<PeerEvent>)
    ensures SameCore(s, ApplyAll(limit, s, events))
  {
    if events != [] {
      var before := events[..|events| - 1];
      EventsKeepCore(limit, s, before);
      EventKeepsCore(limit, ApplyAll(limit, s, before), events[|events| - 1]);
    }
  }

  lemma DrainKeepsInv(limit: nat, s: System, events: seq<PeerEvent>, chunks: seq<nat>)
    requires SystemInv(limit, s) && s.shared.core.transmit == []
    ensures SystemInv(limit, DrainOf(limit, s, events, chunks))
  {
    var closed := CloseCore(s.shared, chunks);
    ApplyAllKeepsInv(limit, closed, events);
    EventsKeepCore(limit, closed, events);
    var shared := ApplyAll(limit, closed, events);
    var u := s.(shared := shared,
                pump := FlushingThen(Done(shared, s.clock.now)),
                clock := s.clock.(lastDrain := s.clock.now, stalledAtDrain := s.clock.stalled));
    if events == [] {
      QuietKeepsInv(limit, s, u);
    } else {
      NotifyKeepsInv(limit, s, u);
    }
  }

  lemma ClaimKeepsSystemInv(limit: nat, s: System, t: TaskId, id: ChannelId)
    requires SystemInv(limit, s) && t !in s.tasks
    ensures SystemInv(limit, ClaimOf(s, t, id))
  {
    if Tracked(s.shared, id) {
      ClaimKeepsInv(limit, s.shared, id);
      var u := s.(shared := Claim(s.shared, id));
      NotifyKeepsInv(limit, s, u);
      SetKeepsInv(limit, Notify(u), t, Task(PumpReceive(id), Runnable), {});
    } else {
      SetKeepsInv(limit, s, t, Task(PumpReceive(id), Runnable), s.wakers);
    }
  }

  lemma CloseKeepsSystemInv(limit: nat, s: System)
    requires SystemInv(limit, s)
    ensures SystemInv(limit, Perform(limit, s, Close))
  {
    if !Dead(s.shared) {
      BeginCloseKeepsInv(limit, s.shared, s.clock.now);
      NotifyKeepsInv(limit, s, s.(shared := BeginClose(s.shared, s.clock.now)));
    }
  }

  lemma AfterDrainKeepsInv(limit: nat, s: System)
    requires SystemInv(limit, s) && Enabled(s, AfterDrain)
    ensures SystemInv(limit, Perform(limit, s, AfterDrain))
  {
    if s.pump.done {
      ClosingKeepsInv(limit, s.shared);
      NotifyKeepsInv(limit, s, s.(shared := Terminate(s.shared), pump := Returned));
    } else {
      QuietKeepsInv(limit, s, s.(pump := Idle));
    }
  }

  /** The steps that move one task without looking at the state. */
  lemma TaskStepKeepsInv(limit: nat, s: System, step: Step)
    requires SystemInv(limit, s) && Enabled(s, step) && (step.Spawn? || step.Written? || step.Expire?)
    ensures SystemInv(limit, Perform(limit, s, step))
  {
    var u := Perform(limit, s, step);
    var t := step.task;
    if t in s.tasks {
      assert Fed(s, t);
    }
    SetKeepsInv(limit, s, t, u.tasks[t], s.wakers);
  }

  /** The pump's other steps, and time, show the wait loops nothing new. */
  lemma PumpStepKeepsInv(limit: nat, s: System, step: Step)
    requires SystemInv(limit, s) && Enabled(s, step)
    requires step.Queue? || step.Start? || step.Flush? || step.WakePump? || step.Pass?
    ensures SystemInv(limit, Perform(limit, s, step))
  {
    QuietKeepsInv(limit, s, Perform(limit, s, step));
  }

  lemma StepKeepsInv(limit: nat, s: System, step: Step)
    requires SystemInv(limit, s) && Enabled(s, step)
    ensures SystemInv(limit, Perform(limit, s, step))
  {
    match step
    case Spawn(_, _) => TaskStepKeepsInv(limit, s, step);
    case Written(_, _) => TaskStepKeepsInv(limit, s, step);
    case Expire(_) => TaskStepKeepsInv(limit, s, step);
    case Turn(t, expired) => TurnKeepsInv(limit, s, t, expired);
    case Close => CloseKeepsSystemInv(limit, s);
    case ClaimStream(t, id) => ClaimKeepsSystemInv(limit, s, t, id);
    case Drain(events, chunks) => DrainKeepsInv(limit, s, events, chunks);
    case AfterDrain => AfterDrainKeepsInv(limit, s);
    case _ => PumpStepKeepsInv(limit, s, step);
  }

  lemma {:induction false} RunKeepsInv(limit: nat, steps: seq<Step>)
    ensures SystemInv(limit, After(limit, steps))
  {
    if steps != [] {
      RunKeepsInv(limit, steps[..|steps| - 1]);
      if Enabled(After(limit, steps[..|steps| - 1]), steps[|steps| - 1]) {
        StepKeepsInv(limit, After(limit, steps[..|steps| - 1]), steps[|steps| - 1]);
      }
    }
  }

  // ----- what every run guarantees -----

  lemma SameViewLater(s: Shared, t: Shared)
    requires SameView(s, t) && t.shutdownComplete == s.shutdownComplete && t.drainDeadline == s.drainDeadline
    ensures Later(s, t)
  {
  }

  lemma TurnLater(limit: nat, s: System, t: TaskId, expired: bool)
    requires SystemInv(limit, s) && t in s.tasks && s.tasks[t].status.Runnable?
    ensures Later(s.shared, TurnOf(s, t, expired).shared)
  {
    SameViewLater(s.shared, s.shared);
    TurnTakes(s, t, expired);
    var loop := s.tasks[t].loop;
    if loop.Receive? && ReceiveTurn(s.shared, loop.id).Got? {
      PopKeepsInv(limit, s.shared, loop.id);
    } else if loop.PumpReceive? && StreamTurn(s.shared, loop.id).Got? {
      PopKeepsInv(limit, s.shared, loop.id);
    }
  }

  lemma ClaimLater(limit: nat, s: System, t: TaskId, id: ChannelId)
    requires SystemInv(limit, s)
    ensures Later(s.shared, ClaimOf(s, t, id).shared)
  {
    SameViewLater(s.shared, s.shared);
    if Tracked(s.shared, id) {
      ClaimKeepsInv(limit, s.shared, id);
    }
  }

  lemma DrainLater(limit: nat, s: System, events: seq<PeerEvent>, chunks: seq<nat>)
    requires SystemInv(limit, s)
    ensures Later(s.shared, DrainOf(limit, s, events, chunks).shared)
  {
    var closed := CloseCore(s.shared, chunks);
    SameViewLater(s.shared, closed);
    ApplyAllKeepsInv(limit, closed, events);
    LaterTransitive(s.shared, closed, ApplyAll(limit, closed, events));
  }

  lemma StepLater(limit: nat, s: System, step: Step)
    requires SystemInv(limit, s) && Enabled(s, step)
    ensures Later(s.shared, Perform(limit, s, step).shared)
  {
    match step
    case Turn(t, expired) => TurnLater(limit, s, t, expired);
    case Close => BeginCloseKeepsInv(limit, s.shared, s.clock.now);
    case ClaimStream(t, id) => ClaimLater(limit, s, t, id);
    case Drain(events, chunks) => DrainLater(limit, s, events, chunks);
    case AfterDrain =>
      SameViewLater(s.shared, s.shared);
      ClosingKeepsInv(limit, s.shared);
    case _ => SameViewLater(s.shared, Perform(limit, s, step).shared);
  }

  /**
   Over any run the channel list only grows, in open order, ids stay unique, every inbox stays within the
   bound, and no flag of the connection or of a channel is ever reset.
   */
  lemma {:induction false} RunOnlyMovesForward(limit: nat, steps: seq<Step>, more: seq<Step>)
    ensures var s, t := After(limit, steps).shared, After(limit, steps + more).shared;
      Inv(limit, t) && Later(s, t)
  {
    RunKeepsInv(limit, steps + more);
    if more == [] {
      assert steps + more == steps;
    } else {
      var before := more[..|more| - 1];
      RunOnlyMovesForward(limit, steps, before);
      RunKeepsInv(limit, steps + before);
      assert (steps + more)[..|steps + more| - 1] == steps + before;
      var u := After(limit, steps + before);
      if Enabled(u, more[|more| - 1]) {
        StepLater(limit, u, more[|more| - 1]);
        LaterTransitive(After(limit, steps).shared, u.shared, After(limit, steps + more).shared);
      }
    }
  }

  /**
   No lost wakeup: whenever a task sleeps, it is registered with the watch, no change has been announced since it
   looked, and looking again it would decide to wait again.
   */
  lemma NoLostWakeup(limit: nat, steps: seq<Step>, t: TaskId)
    requires t in After(limit, steps).tasks && After(limit, steps).tasks[t].status.Parked?
    ensures var s := After(limit, steps);
      t in s.wakers && s.tasks[t].status.seen == s.version && Waits(s.tasks[t].loop, s.shared)
  {
    RunKeepsInv(limit, steps);
    assert Asleep(After(limit, steps), t);
  }

  lemma QuietTurn(limit: nat, s: System, t: TaskId, expired: bool, loop: Loop)
    requires SystemInv(limit, s) && t in s.tasks && s.tasks[t].status.Runnable? && Waits(loop, s.shared)
    ensures Waits(loop, TurnOf(s, t, expired).shared)
  {
    TurnTakes(s, t, expired);
    var own := s.tasks[t].loop;
    if own.Receive? && ReceiveTurn(s.shared, own.id).Got? {
      PopKeepsWaiting(limit, s.shared, own.id, loop);
    } else if own.PumpReceive? && StreamTurn(s.shared, own.id).Got? {
      PopKeepsWaiting(limit, s.shared, own.id, loop);
    }
  }

  lemma QuietStep(limit: nat, s: System, step: Step, loop: Loop)
    requires SystemInv(limit, s) && Enabled(s, step) && Waits(loop, s.shared)
    requires Perform(limit, s, step).version == s.version
    ensures Waits(loop, Perform(limit, s, step).shared)
  {
    match step
    case Turn(t, expired) => QuietTurn(limit, s, t, expired, loop);
    case _ => SameViewSameWaits(s.shared, Perform(limit, s, step).shared, loop);
  }

  /**
   Every step that lets some loop proceed which had to wait announces it before it yields: the version advances
   and every parked task is made runnable.
   */
  lemma ProgressIsAnnounced(limit: nat, s: System, step: Step, loop: Loop)
    requires SystemInv(limit, s) && Enabled(s, step)
    requires Waits(loop, s.shared) && !Waits(loop, Perform(limit, s, step).shared)
    ensures var u := Perform(limit, s, step);
      u.version == s.version + 1 && u.wakers == {} && forall t :: t in u.tasks ==> !u.tasks[t].status.Parked?
  {
    var u := Perform(limit, s, step);
    StepKeepsInv(limit, s, step);
    if u.version == s.version {
      QuietStep(limit, s, step, loop);
      assert false;
    }
    assert forall t :: t in u.tasks ==> Asleep(u, t);
  }

  /** A connection that closed or failed stays so, closes every channel it ever tracks, and keeps nobody waiting. */
  lemma DeadConnectionsKeepNobodyWaiting(limit: nat, steps: seq<Step>, more: seq<Step>)
    requires Dead(After(limit, steps).shared)
    ensures var s := After(limit, steps + more);
      && Dead(s.shared)
      && (forall i :: 0 <= i < |s.shared.channels| ==> s.shared.channels[i].closed)
      && (forall t :: t in s.tasks ==> !s.tasks[t].status.Parked? && !Waits(s.tasks[t].loop, s.shared))
  {
    RunOnlyMovesForward(limit, steps, more);
    RunKeepsInv(limit, steps + more);
    var s := After(limit, steps + more);
    forall t | t in s.tasks
      ensures !s.tasks[t].status.Parked? && !Waits(s.tasks[t].loop, s.shared)
    {
      assert Asleep(s, t);
      NoLoopWaitsOnADeadConnection(limit, s.shared, s.tasks[t].loop);
    }
  }

  /** Whatever made the pump return, from then on everything is closed and nobody waits, in every later state. */
  lemma NobodyWaitsAfterThePump(limit: nat, steps: seq<Step>, more: seq<Step>)
    requires After(limit, steps).pump.Returned?
    ensures var s := After(limit, steps + more);
      && s.shared.closed
      && (forall i :: 0 <= i < |s.shared.channels| ==> s.shared.channels[i].closed)
      && (forall t :: t in s.tasks ==> !s.tasks[t].status.Parked? && !Waits(s.tasks[t].loop, s.shared))
  {
    RunKeepsInv(limit, steps);
    RunOnlyMovesForward(limit, steps, more);
    DeadConnectionsKeepNobodyWaiting(limit, steps, more);
  }

  /**
   The deferred close: in every run the core is closed at most once, that close discards no datagram the core
   still had to send, and the pump never leaves with a requested close unperformed.
   */
  lemma CloseDiscardsNothing(limit: nat, steps: seq<Step>)
    ensures var s := After(limit, steps);
      && s.shared.core.closes <= 1
      && s.shared.core.discarded == 0
      && (s.pump.Returned? ==> s.shared.core.closes == if s.shared.drainDeadline.Some? then 1 else 0)
  {
    RunKeepsInv(limit, steps);
  }

  /** `incoming-data-channels` surfaces every channel the peer opened exactly once, in open order. */
  lemma IncomingChannelsInOpenOrder(limit: nat, steps: seq<Step>, t: TaskId)
    requires t in After(limit, steps).tasks && After(limit, steps).tasks[t].loop.PumpIncoming?
    ensures var s := After(limit, steps);
      var loop := s.tasks[t].loop;
      && loop.cursor <= |s.shared.channels|
      && loop.surfaced == Remote(s.shared.channels[..loop.cursor], loop.localChannel)
  {
    RunKeepsInv(limit, steps);
    assert Fed(After(limit, steps), t);
  }

  /** The turns task `t` can still take once the pump has returned. */
  ghost function TurnsLeft(s: System, t: TaskId): nat
    requires t in s.tasks
  {
    if s.tasks[t].status.Finished? then 0 else Remaining(s.tasks[t].loop, s.shared)
  }

  /** The task's own turn, when nobody has to wait any more, uses up some of what it has left. */
  lemma OwnTurnDrains(limit: nat, s: System, t: TaskId, expired: bool)
    requires SystemInv(limit, s) && Dead(s.shared) && t in s.tasks && s.tasks[t].status.Runnable?
    ensures var u := TurnOf(s, t, expired);
      t in u.tasks && TurnsLeft(u, t) < TurnsLeft(s, t)
  {
    var loop := s.tasks[t].loop;
    NoLoopWaitsOnADeadConnection(limit, s.shared, loop);
    assert Fed(s, t);
    if loop.PumpReceive? && StreamTurn(s.shared, loop.id).Got? {
      PopShrinksBacklogs(limit, s.shared, loop.id, loop);
    }
  }

  lemma OtherTurnDrains(limit: nat, s: System, x: TaskId, expired: bool, t: TaskId)
    requires SystemInv(limit, s) && x in s.tasks && s.tasks[x].status.Runnable? && t in s.tasks && t != x
    ensures var u := TurnOf(s, x, expired);
      t in u.tasks && TurnsLeft(u, t) <= TurnsLeft(s, t)
  {
    TurnTakes(s, x, expired);
    var loop := s.tasks[x].loop;
    if loop.Receive? && ReceiveTurn(s.shared, loop.id).Got? {
      PopShrinksBacklogs(limit, s.shared, loop.id, s.tasks[t].loop);
    } else if loop.PumpReceive? && StreamTurn(s.shared, loop.id).Got? {
      PopShrinksBacklogs(limit, s.shared, loop.id, s.tasks[t].loop);
    }
  }

  /** After the pump has returned no step adds to what a task has left to do, and its own turns use some of it up. */
  lemma StepDrainsBacklog(limit: nat, s: System, step: Step, t: TaskId)
    requires SystemInv(limit, s) && s.pump.Returned? && Enabled(s, step) && t in s.tasks
    ensures var u := Perform(limit, s, step);
      && u.pump.Returned? && t in u.tasks && TurnsLeft(u, t) <= TurnsLeft(s, t)
      && (step.Turn? && step.task == t ==> TurnsLeft(u, t) < TurnsLeft(s, t))
  {
    match step
    case Turn(x, expired) =>
      TurnTakes(s, x, expired);
      if x == t {
        OwnTurnDrains(limit, s, t, expired);
      } else {
        OtherTurnDrains(limit, s, x, expired, t);
      }
    case ClaimStream(_, id) => NoChannelLeftToClaim(limit, s.shared, id);
    case _ =>
  }

  /** The turns task `t` takes in the continuation `more` of `steps`. */
  ghost function TurnsTaken(limit: nat, steps: seq<Step>, more: seq<Step>, t: TaskId): nat {
    if more == [] then 0
    else
      var n := |more| - 1;
      TurnsTaken(limit, steps, more[..n], t)
      + if more[n].Turn? && more[n].task == t && Enabled(After(limit, steps + more[..n]), more[n]) then 1 else 0
  }

  /**
   From the moment the pump has returned no continuation gives a task more turns than its backlog at that moment calls
   for: every loop ends after a number of turns that no later event can raise.
   */
  lemma {:induction false} BacklogsDrainAfterThePump(limit: nat, steps: seq<Step>, more: seq<Step>, t: TaskId)
    requires After(limit, steps).pump.Returned? && t in After(limit, steps).tasks
    ensures var s, u := After(limit, steps), After(limit, steps + more);
      && u.pump.Returned? && t in u.tasks
      && TurnsTaken(limit, steps, more, t) + TurnsLeft(u, t) <= TurnsLeft(s, t)
  {
    if more == [] {
      assert steps + more == steps;
    } else {
      var n := |more| - 1;
      BacklogsDrainAfterThePump(limit, steps, more[..n], t);
      RunKeepsInv(limit, steps + more[..n]);
      assert (steps + more)[..|steps + more| - 1] == steps + more[..n];
      if Enabled(After(limit, steps + more[..n]), more[n]) {
        StepDrainsBacklog(limit, After(limit, steps + more[..n]), more[n], t);
      }
    }
  }

  lemma NoChannelLeftToClaim(limit: nat, s: Shared, id: ChannelId)
    requires Inv(limit, s) && Dead(s)
    ensures !ClaimSucceeds(s, id)
  {
  }

  lemma PopShrinksBacklogs(limit: nat, s: Shared, id: ChannelId, loop: Loop)
    requires Inv(limit, s) && Tracked(s, id) && Lookup(s, id).inbox != []
    ensures Remaining(loop, Pop(s, id)) <= Remaining(loop, s)
    ensures loop == PumpReceive(id) ==> Remaining(loop, Pop(s, id)) < Remaining(loop, s)
  {
    if loop.PumpReceive? {
      PopAt(limit, s, id, loop.id);
    }
  }
}
