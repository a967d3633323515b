/** How long the pump may outlive a local `close`: the bounded drain, measured on the model's clock. */
module Wasip3Drain {
  import opened Collections
  import opened Wasip3State
  import opened Wasip3Tasks

  ghost function Max(a: nat, b: nat): nat { if a < b then b else a }

  predicate Running(pump: Pump) { !pump.NotStarted? && !pump.Returned? }

  /** The time not spent held up in flushes. */
  function Awake(c: Clock): int { c.now - c.stalled }

  /** The same, when the pump last applied events. */
  function AwakeAtDrain(c: Clock): int { c.lastDrain - c.stalledAtDrain }

  ghost predicate ClockInv(s: System) {
    var c := s.clock;
    Running(s.pump) ==>
      && c.startedAt <= c.lastDrain <= c.now
      && c.stalledAtDrain <= c.stalled
      && c.timer <= c.now + MAX_WAIT
      && (!s.pump.Flushing? ==> c.timer <= c.lastDrain + MAX_WAIT)
      && AwakeAtDrain(c) <= Awake(c) <= AwakeAtDrain(c) + MAX_WAIT
  }

  /** Since a close for which `stalled` had been held up, the pump has outlived the deadline by a tick at most. */
  ghost predicate DeadlineInv(s: System, stalled: nat) {
    var c := s.clock;
    && stalled <= c.stalled && s.shared.drainDeadline.Some?
    && (Running(s.pump) ==>
          var latest := Max(s.shared.drainDeadline.value, c.startedAt);
          && Awake(c) <= latest + MAX_WAIT - stalled
          && (!Leaving(s.pump) ==> AwakeAtDrain(c) <= latest - stalled))
  }

  ghost predicate SameClock(s: System, u: System) {
    u.clock == s.clock && u.pump == s.pump && u.shared.drainDeadline == s.shared.drainDeadline
  }

  lemma TurnKeepsClock(s: System, t: TaskId, expired: bool)
    requires t in s.tasks && s.tasks[t].status.Runnable?
    ensures SameClock(s, TurnOf(s, t, expired))
  {
    TurnTakes(s, t, expired);
  }

  lemma DrainKeepsClock(limit: nat, s: System, events: seq<PeerEvent>, chunks: seq<nat>)
    requires ClockInv(s) && s.pump.Flushing?
    ensures ClockInv(DrainOf(limit, s, events, chunks))
  {
  }

  lemma StepKeepsClock(limit: nat, s: System, step: Step)
    requires ClockInv(s) && Enabled(s, step)
    ensures ClockInv(Perform(limit, s, step))
  {
    match step
    case Turn(t, expired) => TurnKeepsClock(s, t, expired);
    case Drain(events, chunks) => DrainKeepsClock(limit, s, events, chunks);
    case _ =>
  }

  lemma {:induction false} RunKeepsClock(limit: nat, steps: seq<Step>)
    ensures ClockInv(After(limit, steps))
  {
    if steps != [] {
      var before := steps[..|steps| - 1];
      RunKeepsClock(limit, before);
      if Enabled(After(limit, before), steps[|steps| - 1]) {
        StepKeepsClock(limit, After(limit, before), steps[|steps| - 1]);
      }
    }
  }

  /** Applying events after the deadline makes the pump leave. */
  lemma DrainKeepsDeadline(limit: nat, s: System, events: seq<PeerEvent>, chunks: seq<nat>, stalled: nat)
    requires SystemInv(limit, s) && ClockInv(s) && DeadlineInv(s, stalled) && s.pump.Flushing?
    ensures DeadlineInv(DrainOf(limit, s, events, chunks), stalled)
  {
    var closed := CloseCore(s.shared, chunks);
    EventsKeepCore(limit, closed, events);
    ApplyAllKeepsInv(limit, closed, events);
    var shared, u := ApplyAll(limit, closed, events), DrainOf(limit, s, events, chunks);
    assert u.shared == shared && u.pump == FlushingThen(Done(shared, s.clock.now));
    assert shared.drainDeadline == s.shared.drainDeadline && shared.closed;
  }

  lemma StepKeepsDeadline(limit: nat, s: System, step: Step, stalled: nat)
    requires SystemInv(limit, s) && ClockInv(s) && DeadlineInv(s, stalled) && Enabled(s, step)
    ensures DeadlineInv(Perform(limit, s, step), stalled)
  {
    match step
    case Turn(t, expired) => TurnKeepsClock(s, t, expired);
    case Drain(events, chunks) => DrainKeepsDeadline(limit, s, events, chunks, stalled);
    case _ =>
  }

  lemma {:induction false} RunKeepsDeadline(limit: nat, steps: seq<Step>, more: seq<Step>, stalled: nat)
    requires DeadlineInv(After(limit, steps), stalled)
    ensures DeadlineInv(After(limit, steps + more), stalled)
  {
    if more == [] {
      assert steps + more == steps;
    } else {
      var n := |more| - 1;
      RunKeepsDeadline(limit, steps, more[..n], stalled);
      RunKeepsInv(limit, steps + more[..n]);
      RunKeepsClock(limit, steps + more[..n]);
      assert (steps + more)[..|steps + more| - 1] == steps + more[..n];
      if Enabled(After(limit, steps + more[..n]), more[n]) {
        StepKeepsDeadline(limit, After(limit, steps + more[..n]), more[n], stalled);
      }
    }
  }

  /**
   The pump exits no later than one drain window and one tick after a local close (or after it was started, if
   that came later), not counting time it is held up inside datagram sends from the close on: at any later instant it
   has returned.
   */
  lemma PumpExitsAfterTheDrainWindow(limit: nat, steps: seq<Step>, more: seq<Step>)
    requires !Dead(After(limit, steps).shared)
    ensures var atClose := After(limit, steps).clock;
      var s := After(limit, steps + [Close] + more);
      Running(s.pump) ==>
        s.clock.now - Max(atClose.now + CLOSE_DRAIN, s.clock.startedAt)
        <= MAX_WAIT + (s.clock.stalled - atClose.stalled)
  {
    var closing, s := steps + [Close], After(limit, steps);
    assert closing[..|closing| - 1] == steps;
    RunKeepsInv(limit, steps);
    RunKeepsClock(limit, steps);
    assert After(limit, closing).clock == s.clock && After(limit, closing).pump == s.pump;
    assert After(limit, closing).shared.drainDeadline == Some(s.clock.now + CLOSE_DRAIN);
    RunOnlyMovesForward(limit, closing, more);
    RunKeepsDeadline(limit, closing, more, s.clock.stalled);
  }
}
