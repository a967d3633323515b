/**
 Which receives pending at the claim of the wasmtime host's `receive-via-stream` can still take a message: the select
 they wait in prefers a message to the claim's signal.
 */
module ClaimRace {
  import opened Collections
  import opened InboundBudget
  import opened StreamClaim

  /** The pump can still bring the queue a message: one it is handling that fits an empty queue, or one to come. */
  ghost predicate Feedable(limit: nat, s: State) {
    && !s.overflowed && !s.pump.Stopped? && !s.pump.Latching?
    && (s.pump.Reserving? || s.pump.Checking? ==> Size(s.pump.message) <= limit)
  }

  /** Another reader holds the mutex in the middle of a poll that will take a message if there is one. */
  ghost predicate Committed(s: State, r: ReaderId) {
    && s.lock.Some? && s.lock.value != r && s.lock.value in s.readers
    && (s.readers[s.lock.value].pc.Popping? || s.readers[s.lock.value].pc.Locking?)
  }

  /** There is, or can still be, a message that nobody else is bound to take. */
  ghost predicate Spare(limit: nat, s: State, r: ReaderId) {
    |s.queue| > (if Committed(s, r) then 1 else 0) || Feedable(limit, s)
  }

  /** The pending receive has not come past the queue in its last poll, and a message can be there for it. */
  ghost predicate MayTake(limit: nat, s: State, r: ReaderId)
    requires r in s.readers
  {
    match s.readers[r].pc
    case Releasing(_) => true
    case Popping => Spare(limit, s, r)
    case Locking => Spare(limit, s, r)
    case Suspended => Spare(limit, s, r)
    case CheckingClosed => !s.closed && Spare(limit, s, r)
    case _ => false
  }

  ghost predicate HasTaken(s: State, r: ReaderId) {
    r in s.readers && s.readers[r].pc.Finished? && s.readers[r].pc.result.Got?
  }

  // ----- two more facts of every run -----

  ghost predicate PumpInv(s: State) {
    (s.pump.ClosingChannel? ==> s.overflowed) && (s.lock.Some? ==> s.wired)
  }

  lemma StepKeepsPump(limit: nat, s: State, step: Step)
    requires PumpInv(s) && Enabled(s, step)
    ensures PumpInv(Perform(limit, s, step))
  {
    match step
    case Poll(_) =>
    case PumpAdvance =>
    case _ =>
  }

  lemma {:induction false} RunKeepsPump(limit: nat, steps: seq<Step>)
    ensures PumpInv(After(limit, steps))
  {
    if steps != [] {
      var before, step := steps[..|steps| - 1], steps[|steps| - 1];
      RunKeepsPump(limit, before);
      if Enabled(After(limit, before), step) {
        StepKeepsPump(limit, After(limit, before), step);
      }
    }
  }

  ghost predicate RunInv(limit: nat, s: State) {
    LockInv(s) && BudgetInv(limit, s) && PumpInv(s)
  }

  lemma RunKeepsAll(limit: nat, steps: seq<Step>)
    requires limit < USIZE_MAX
    ensures RunInv(limit, After(limit, steps))
  {
    RunKeepsBudget(limit, steps);
    RunKeepsPump(limit, steps);
  }

  lemma Extend(limit: nat, steps: seq<Step>, step: Step)
    requires Enabled(After(limit, steps), step)
    ensures After(limit, steps + [step]) == Perform(limit, After(limit, steps), step)
  {
    assert (steps + [step])[..|steps + [step]| - 1] == steps;
  }

  // ----- a receive that may not take a message never does -----

  ghost predicate Hopeless(limit: nat, s: State, r: ReaderId) {
    && s.claim.Fired? && r in s.readers && !s.readers[r].viaStream
    && !MayTake(limit, s, r) && !HasTaken(s, r)
  }

  lemma PumpLeavesNothing(limit: nat, s: State)
    requires limit < USIZE_MAX && RunInv(limit, s) && !Feedable(limit, s) && Enabled(s, PumpAdvance)
    ensures !Feedable(limit, PumpOf(limit, s)) && PumpOf(limit, s).queue == s.queue
  {
  }

  /** Nothing anyone else does brings a message for `r` where there is none. */
  lemma OthersSpareNothing(limit: nat, s: State, step: Step, r: ReaderId)
    requires limit < USIZE_MAX && RunInv(limit, s) && Enabled(s, step) && !OwnStep(step, r) && !Spare(limit, s, r)
    ensures !Spare(limit, Perform(limit, s, step), r)
  {
    match step
    case PumpAdvance => PumpSparesNothing(limit, s, r);
    case Poll(h) => PollSparesNothing(limit, s, h, r);
    case ClaimAdvance => SignalsSpareNothing(limit, s, step, r);
    case CloseConnection => SignalsSpareNothing(limit, s, step, r);
    case Resume(h) => assert ReaderOk(s, h);
    case Cancel(h) => assert ReaderOk(s, h);
    case _ =>
  }

  lemma PumpSparesNothing(limit: nat, s: State, r: ReaderId)
    requires limit < USIZE_MAX && RunInv(limit, s) && Enabled(s, PumpAdvance) && !Spare(limit, s, r)
    ensures !Spare(limit, PumpOf(limit, s), r)
  {
    PumpLeavesNothing(limit, s);
    PumpLeavesReaders(limit, s);
    assert PumpOf(limit, s).lock == s.lock;
  }

  lemma PollSparesNothing(limit: nat, s: State, h: ReaderId, r: ReaderId)
    requires RunInv(limit, s) && Enabled(s, Poll(h)) && h != r && !Spare(limit, s, r)
    ensures !Spare(limit, PollOf(s, h), r)
  {
    assert ReaderOk(s, h);
    assert PollOf(s, h).pump == s.pump && PollOf(s, h).overflowed == s.overflowed;
  }

  lemma SignalsSpareNothing(limit: nat, s: State, step: Step, r: ReaderId)
    requires Enabled(s, step) && (step.ClaimAdvance? || step.CloseConnection?) && !Spare(limit, s, r)
    ensures !Spare(limit, Perform(limit, s, step), r)
  {
    SignalsKeepPcs(limit, s, step);
    assert Perform(limit, s, step).overflowed == s.overflowed;
  }

  lemma OwnPollStaysHopeless(limit: nat, s: State, r: ReaderId)
    requires LockInv(s) && Enabled(s, Poll(r)) && Hopeless(limit, s, r)
    ensures Hopeless(limit, PollOf(s, r), r)
  {
    assert ReaderOk(s, r);
    var u := PollOf(s, r);
    assert u.pump == s.pump && u.overflowed == s.overflowed && u.claim == s.claim && u.closed == s.closed;
    match s.readers[r].pc
    case Popping => assert s.queue == [] && u.queue == [];
    case Locking => assert u.queue == s.queue;
    case _ =>
  }

  lemma OwnStepStaysHopeless(limit: nat, s: State, step: Step, r: ReaderId)
    requires LockInv(s) && Enabled(s, step) && OwnStep(step, r) && Hopeless(limit, s, r)
    ensures Hopeless(limit, Perform(limit, s, step), r)
  {
    match step
    case Poll(_) => OwnPollStaysHopeless(limit, s, r);
    case Resume(_) =>
      assert ReaderOk(s, r);
      assert Spare(limit, Perform(limit, s, step), r) == Spare(limit, s, r);
    case _ =>
  }

  lemma StepStaysHopeless(limit: nat, s: State, step: Step, r: ReaderId)
    requires limit < USIZE_MAX && RunInv(limit, s) && Enabled(s, step) && Hopeless(limit, s, r)
    ensures Hopeless(limit, Perform(limit, s, step), r)
  {
    if OwnStep(step, r) {
      OwnStepStaysHopeless(limit, s, step, r);
    } else {
      KeysGrow(limit, s, step);
      assert r in Perform(limit, s, step).readers;
      OthersOnlyWake(limit, s, step, r);
      FiredStays(limit, s, step);
      if !Spare(limit, s, r) {
        OthersSpareNothing(limit, s, step, r);
      }
    }
  }

  lemma FiredStays(limit: nat, s: State, step: Step)
    requires Enabled(s, step) && s.claim.Fired?
    ensures Perform(limit, s, step).claim.Fired? && (s.closed ==> Perform(limit, s, step).closed)
  {
    match step
    case Poll(_) =>
    case PumpAdvance =>
    case _ =>
  }

  lemma {:induction false} HopelessForGood(limit: nat, steps: seq<Step>, more: seq<Step>, r: ReaderId)
    requires limit < USIZE_MAX && Hopeless(limit, After(limit, steps), r)
    ensures Hopeless(limit, After(limit, steps + more), r)
  {
    if more == [] {
      assert steps + more == steps;
    } else {
      var n := |more| - 1;
      HopelessForGood(limit, steps, more[..n], r);
      RunKeepsAll(limit, steps + more[..n]);
      assert (steps + more)[..|steps + more| - 1] == steps + more[..n];
      if Enabled(After(limit, steps + more[..n]), more[n]) {
        StepStaysHopeless(limit, After(limit, steps + more[..n]), more[n], r);
      }
    }
  }

  // ----- one that may take a message can -----

  /** `r` stands where it stood, and so do the pump, the claim and the close. */
  ghost predicate SameFor(s: State, u: State, r: ReaderId) {
    && r in s.readers && r in u.readers && u.readers[r].pc == s.readers[r].pc
    && u.readers[r].viaStream == s.readers[r].viaStream
    && u.claim == s.claim && u.closed == s.closed && u.wired == s.wired
  }

  function HoldingRank(pc: ReaderPc): nat {
    match pc case Locking => 5 case Popping => 4 case CheckingStarted => 3 case CheckingClosed => 2 case _ => 1
  }

  /** What the holder of the mutex does next: leave its await if it is in one, or go on with its poll. */
  function HolderStep(s: State, h: ReaderId): Step
    requires h in s.readers
  {
    if s.readers[h].pc.Suspended? then Cancel(h) else Poll(h)
  }

  ghost predicate HeldByOther(s: State, r: ReaderId) { s.lock.Some? && s.lock.value != r }

  lemma HolderLetsGo(limit: nat, s: State, r: ReaderId)
    requires RunInv(limit, s) && s.claim.Fired? && r in s.readers && HeldByOther(s, r)
    ensures var h := s.lock.value; h in s.readers && Enabled(s, HolderStep(s, h))
    ensures var h := s.lock.value; var u := Perform(limit, s, HolderStep(s, h));
      && SameFor(s, u, r) && u.pump == s.pump && u.overflowed == s.overflowed
      && (u.lock.None? || (u.lock == s.lock && HoldingRank(u.readers[h].pc) < HoldingRank(s.readers[h].pc)))
      && |u.queue| - (if Committed(u, r) then 1 else 0) >= |s.queue| - (if Committed(s, r) then 1 else 0)
  {
    assert ReaderOk(s, s.lock.value);
  }

  /** The mutex can be had, at the cost of at most the message its holder is bound to take. */
  lemma {:induction false} FreeLock(limit: nat, steps: seq<Step>, r: ReaderId) returns (more: seq<Step>)
    requires limit < USIZE_MAX
    requires var s := After(limit, steps); s.claim.Fired? && r in s.readers && HeldByOther(s, r)
    ensures var s, u := After(limit, steps), After(limit, steps + more);
      && SameFor(s, u, r) && u.pump == s.pump && u.overflowed == s.overflowed && u.lock.None?
      && |u.queue| >= |s.queue| - (if Committed(s, r) then 1 else 0)
    decreases RankOfHolder(After(limit, steps))
  {
    var s := After(limit, steps);
    RunKeepsAll(limit, steps);
    HolderLetsGo(limit, s, r);
    var step := HolderStep(s, s.lock.value);
    Extend(limit, steps, step);
    more := [step];
    if After(limit, steps + more).lock.Some? {
      var rest := FreeLock(limit, steps + [step], r);
      more := [step] + rest;
      assert steps + more == steps + [step] + rest;
    }
  }

  ghost function RankOfHolder(s: State): nat {
    if s.lock.Some? && s.lock.value in s.readers then HoldingRank(s.readers[s.lock.value].pc) else 0
  }

  function PumpRank(pump: Pump): nat {
    match pump
    case Polling => 5
    case Reserving(_) => 4
    case Checking(_) => 3
    case Adding(_) => 2
    case _ => 1
  }

  function FeedStep(pump: Pump): Step {
    if pump.Polling? then PumpPoll(OnMessage(Message(false, []))) else PumpAdvance
  }

  lemma FeedAdvances(limit: nat, s: State)
    requires limit < USIZE_MAX && RunInv(limit, s) && Feedable(limit, s) && s.queue == [] && Popped(s) == []
    ensures Enabled(s, FeedStep(s.pump))
    ensures var u := Perform(limit, s, FeedStep(s.pump));
      && u.readers == s.readers && u.lock == s.lock && u.claim == s.claim && u.closed == s.closed && u.wired == s.wired
      && (u.queue != [] || (Feedable(limit, u) && PumpRank(u.pump) < PumpRank(s.pump)))
  {
  }

  /** The pump can bring an empty queue a message. */
  lemma {:induction false} Feed(limit: nat, steps: seq<Step>) returns (more: seq<Step>)
    requires limit < USIZE_MAX
    requires var s := After(limit, steps); Feedable(limit, s) && s.queue == [] && Popped(s) == []
    ensures var s, u := After(limit, steps), After(limit, steps + more);
      && u.readers == s.readers && u.lock == s.lock && u.claim == s.claim && u.closed == s.closed && u.wired == s.wired
      && u.queue != []
    decreases PumpRank(After(limit, steps).pump)
  {
    var s := After(limit, steps);
    RunKeepsAll(limit, steps);
    FeedAdvances(limit, s);
    var step := FeedStep(s.pump);
    Extend(limit, steps, step);
    more := [step];
    if After(limit, steps + more).queue == [] {
      var rest := Feed(limit, steps + [step]);
      more := [step] + rest;
      assert steps + more == steps + [step] + rest;
    }
  }

  /** With the mutex free or its own, the channel wired and a message there, the receive only has to go on. */
  ghost predicate Served(s: State, r: ReaderId) {
    && r in s.readers && (s.lock.None? || s.lock == Some(r)) && s.wired && s.queue != []
    && (s.readers[r].pc.Popping? || s.readers[r].pc.Locking? || s.readers[r].pc.Suspended?
        || (s.readers[r].pc.CheckingClosed? && !s.closed))
  }

  function ReadingRank(pc: ReaderPc): nat {
    match pc case CheckingClosed => 4 case Suspended => 3 case Locking => 2 case Popping => 1 case _ => 0
  }

  function ReadStep(s: State, r: ReaderId): Step
    requires r in s.readers
  {
    if s.readers[r].pc.Suspended? then Resume(r) else Poll(r)
  }

  lemma ReadAdvances(limit: nat, s: State, r: ReaderId)
    requires LockInv(s) && Served(s, r)
    ensures Enabled(s, ReadStep(s, r))
    ensures var u := Perform(limit, s, ReadStep(s, r));
      && r in u.readers
      && (u.readers[r].pc.Releasing? || (Served(u, r) && ReadingRank(u.readers[r].pc) < ReadingRank(s.readers[r].pc)))
  {
    assert ReaderOk(s, r);
  }

  lemma {:induction false} ReadOn(limit: nat, steps: seq<Step>, r: ReaderId) returns (more: seq<Step>)
    requires limit < USIZE_MAX && Served(After(limit, steps), r)
    ensures TakenAfter(limit, steps + more, r)
    decreases ReadingRank(After(limit, steps).readers[r].pc)
  {
    var s := After(limit, steps);
    RunKeepsAll(limit, steps);
    ReadAdvances(limit, s, r);
    var step := ReadStep(s, r);
    Extend(limit, steps, step);
    var rest;
    if After(limit, steps + [step]).readers[r].pc.Releasing? {
      rest := [Poll(r)];
      Extend(limit, steps + [step], Poll(r));
    } else {
      rest := ReadOn(limit, steps + [step], r);
    }
    more := [step] + rest;
    assert steps + more == steps + [step] + rest;
  }

  ghost predicate TakenAfter(limit: nat, steps: seq<Step>, r: ReaderId) { HasTaken(After(limit, steps), r) }

  /** With the mutex free or its own: wire the channel, feed the queue if it is empty, and read. */
  lemma TakesUnopposed(limit: nat, steps: seq<Step>, r: ReaderId) returns (more: seq<Step>)
    requires limit < USIZE_MAX
    requires var s := After(limit, steps);
      && r in s.readers && (s.lock.None? || s.lock == Some(r)) && !s.readers[r].pc.Releasing?
      && MayTake(limit, s, r)
    ensures TakenAfter(limit, steps + more, r)
  {
    Extend(limit, steps, Wire);
    var wired := steps + [Wire];
    RunKeepsAll(limit, wired);
    var feed: seq<Step> := [];
    if After(limit, wired).queue == [] {
      feed := Feed(limit, wired);
    } else {
      assert wired + feed == wired;
    }
    var rest := ReadOn(limit, wired + feed, r);
    more := [Wire] + feed + rest;
    assert steps + more == wired + feed + rest;
  }

  lemma CanTake(limit: nat, steps: seq<Step>, r: ReaderId) returns (more: seq<Step>)
    requires limit < USIZE_MAX
    requires var s := After(limit, steps);
      s.claim.Fired? && r in s.readers && !s.readers[r].viaStream && MayTake(limit, s, r)
    ensures TakenAfter(limit, steps + more, r)
  {
    var s := After(limit, steps);
    RunKeepsAll(limit, steps);
    assert ReaderOk(s, r);
    if s.readers[r].pc.Releasing? {
      more := [Poll(r)];
      Extend(limit, steps, Poll(r));
    } else if HeldByOther(s, r) {
      var freeing := FreeLock(limit, steps, r);
      var rest := TakesUnopposed(limit, steps + freeing, r);
      more := freeing + rest;
      assert steps + more == steps + freeing + rest;
    } else {
      more := TakesUnopposed(limit, steps, r);
    }
  }

  /**
   In every reachable state after the claim has fired, a `receive` still pending can yet take a message, in some
   continuation, exactly when it may by the test above: it is not past the queue in its current poll, and a message is
   there, or can still come, that no reader in the middle of a poll is bound to take first.
   */
  lemma PendingReceiveCanTakeIff(limit: nat, steps: seq<Step>, r: ReaderId)
    requires limit < USIZE_MAX
    requires var s := After(limit, steps);
      s.claim.Fired? && r in s.readers && !s.readers[r].viaStream && !s.readers[r].pc.Finished?
    ensures (exists more :: TakenAfter(limit, steps + more, r)) <==> MayTake(limit, After(limit, steps), r)
  {
    if MayTake(limit, After(limit, steps), r) {
      var more := CanTake(limit, steps, r);
      assert TakenAfter(limit, steps + more, r);
    } else {
      forall more
        ensures !TakenAfter(limit, steps + more, r)
      {
        HopelessForGood(limit, steps, more, r);
      }
    }
  }
}
