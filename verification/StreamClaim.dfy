/**
 What the wasmtime host's queue guarantees its consumers: the budget is exact, the queue is the bounded FIFO, one
 caller wins the claim of `receive-via-stream`, and the receives pending at the claim let go of the queue.
 */
module StreamClaim {
  import opened Collections
  import opened InboundBudget
  import Fifo = BoundedFifo

  /** The byte count under any interleaving of the pump with any number of readers. */
  lemma BufferedIsExact(limit: nat, steps: seq<Step>)
    requires limit < USIZE_MAX
    ensures var s := After(limit, steps);
      && s.buffered == Fifo.Bytes(Size, s.queue)
           + Fifo.Bytes(Size, if s.pump.Sending? then [s.pump.message] else [])
           + Fifo.Bytes(Size, Popped(s))
      && 0 <= s.buffered <= limit
  {
    RunKeepsBudget(limit, steps);
    var s := After(limit, steps);
    if s.pump.Sending? {
      assert Fifo.Bytes(Size, [s.pump.message]) == Size(s.pump.message) + Fifo.Bytes(Size, []);
    }
  }

  /** In every interleaving the readers together receive a prefix of the accepted messages, in order. */
  lemma ReadersTakeTheAcceptedPrefix(limit: nat, steps: seq<Step>)
    requires limit < USIZE_MAX
    ensures var s, ops := After(limit, steps), Ops(limit, steps);
      var f := Fifo.Run(limit, Size, ops);
      && Messages(s.log) == f.accepted[..f.cursor]
      && f.accepted <= Fifo.Arrivals(ops)
      && (!f.ended ==> f.accepted == Fifo.Arrivals(ops))
      && Popped(s) + s.queue + InFlight(s) == f.accepted[f.cursor..]
  {
    RunKeepsBudget(limit, steps);
    Fifo.RunDeliversAcceptedPrefix(limit, Size, Ops(limit, steps));
  }

  /** A reader that found the queue ended reports what the queue says: overflow exactly when it was latched. */
  lemma EndingReaderReportsTheQueue(limit: nat, steps: seq<Step>, r: ReaderId)
    requires limit < USIZE_MAX
    requires var s := After(limit, steps); r in s.readers && s.readers[r].pc.Ending?
    ensures var s, f := After(limit, steps), Fifo.Run(limit, Size, Ops(limit, steps));
      && Fifo.Peek(f) == (if s.overflowed then Fifo.Overflow else Fifo.Closed)
      && ReaderAfter(s, r).pc == Finished(if s.overflowed then Overflow else Closed)
  {
    RunKeepsBudget(limit, steps);
    assert ReaderOk(After(limit, steps), r);
  }

  // ----- the claim -----

  ghost predicate WinnerInv(s: State) {
    && (forall c :: c in s.verdicts && s.verdicts[c] ==> s.claim == Fired(c))
    && (s.claim.Fired? ==> s.claim.winner in s.verdicts && s.verdicts[s.claim.winner])
  }

  /** A reader about to sleep, or asleep, has its waker with both signals and was woken if one has fired. */
  ghost predicate WakerOk(s: State, r: ReaderId)
    requires r in s.readers
  {
    var reader := s.readers[r];
    && ((reader.pc.CheckingClosed? || reader.pc.Suspended?) && !reader.viaStream ==>
          reader.onStart && (s.claim.Fired? ==> reader.woken))
    && (reader.pc.Suspended? ==> reader.onClose && (s.closed ==> reader.woken))
  }

  /** The log has one entry for each reader that got a message and none for any other. */
  ghost predicate LogInv(s: State) {
    && (forall i :: 0 <= i < |s.log| ==> Logged(s, s.log[i]))
    && (forall i, j :: 0 <= i < j < |s.log| ==> s.log[i].reader != s.log[j].reader)
    && (forall r :: r in s.readers && s.readers[r].pc.Finished? && s.readers[r].pc.result.Got? ==>
          Delivery(r, s.readers[r].pc.result.message) in s.log)
  }

  ghost predicate Logged(s: State, d: Delivery) {
    d.reader in s.readers && s.readers[d.reader].pc == Finished(Got(d.message))
  }

  ghost predicate ClaimInv(s: State) {
    WinnerInv(s) && LogInv(s) && forall r :: r in s.readers ==> WakerOk(s, r)
  }

  predicate OwnStep(step: Step, r: ReaderId) {
    step == Poll(r) || step == Resume(r) || step == Cancel(r) || (step.Open? && step.reader == r)
  }

  /** The readers a step other than a signal leaves as they were. */
  lemma OnlyOwnReaderMoves(limit: nat, s: State, step: Step, r: ReaderId)
    requires Enabled(s, step) && !OwnStep(step, r) && r in Perform(limit, s, step).readers
    requires !step.ClaimAdvance? && !step.CloseConnection?
    ensures var u := Perform(limit, s, step);
      && r in s.readers && u.readers[r] == s.readers[r] && u.closed == s.closed && u.claim.Fired? == s.claim.Fired?
  {
    match step
    case Poll(x) => assert Perform(limit, s, step).readers == s.readers[x := ReaderAfter(s, x)];
    case PumpAdvance => PumpLeavesReaders(limit, s);
    case PumpPoll(_) =>
    case _ =>
  }

  lemma PumpLeavesReaders(limit: nat, s: State)
    ensures var u := PumpOf(limit, s);
      u.readers == s.readers && u.closed == s.closed && u.claim == s.claim && u.log == s.log
  {
  }

  /** Another's step leaves a reader where it is; at most a fired signal marks it woken. */
  lemma OthersOnlyWake(limit: nat, s: State, step: Step, r: ReaderId)
    requires Enabled(s, step) && !OwnStep(step, r) && r in Perform(limit, s, step).readers
    ensures r in s.readers
    ensures var u := Perform(limit, s, step);
      && (u.readers[r] == s.readers[r] || u.readers[r] == s.readers[r].(woken := true))
      && (u.claim.Fired? && !s.claim.Fired? && s.readers[r].onStart ==> u.readers[r].woken)
      && (u.closed && !s.closed && s.readers[r].onClose ==> u.readers[r].woken)
  {
    match step
    case ClaimAdvance =>
    case CloseConnection =>
    case _ => OnlyOwnReaderMoves(limit, s, step, r);
  }

  lemma PollKeepsWaker(limit: nat, s: State, r: ReaderId)
    requires r in s.readers && WakerOk(s, r) && Enabled(s, Poll(r))
    ensures WakerOk(PollOf(s, r), r)
  {
  }

  lemma StepKeepsWaker(limit: nat, s: State, step: Step, r: ReaderId)
    requires Enabled(s, step) && r in Perform(limit, s, step).readers && (r in s.readers ==> WakerOk(s, r))
    ensures WakerOk(Perform(limit, s, step), r)
  {
    if !OwnStep(step, r) {
      OthersOnlyWake(limit, s, step, r);
    } else if step.Poll? {
      PollKeepsWaker(limit, s, r);
    }
  }

  lemma StepKeepsWinner(limit: nat, s: State, step: Step)
    requires WinnerInv(s) && Enabled(s, step)
    ensures WinnerInv(Perform(limit, s, step))
  {
  }

  /** A step finishes a reader with a message only by delivering it, and never moves a finished reader. */
  lemma StepFinishes(limit: nat, s: State, step: Step, r: ReaderId)
    requires Enabled(s, step) && r in Perform(limit, s, step).readers
    ensures var u := Perform(limit, s, step);
      && (r in s.readers && s.readers[r].pc.Finished? ==> u.readers[r].pc == s.readers[r].pc)
      && (u.readers[r].pc.Finished? && u.readers[r].pc.result.Got? ==>
            && r in s.readers
            && (s.readers[r].pc == u.readers[r].pc
                || (step == Poll(r) && s.readers[r].pc == Releasing(u.readers[r].pc.result.message))))
  {
    if !OwnStep(step, r) {
      OthersOnlyWake(limit, s, step, r);
    }
  }

  lemma StepLog(limit: nat, s: State, step: Step)
    requires Enabled(s, step)
    ensures Perform(limit, s, step).log == s.log +
      if step.Poll? && s.readers[step.reader].pc.Releasing?
      then [Delivery(step.reader, s.readers[step.reader].pc.message)] else []
  {
    match step
    case Poll(_) =>
    case PumpAdvance =>
    case _ =>
  }

  lemma StepKeepsLog(limit: nat, s: State, step: Step)
    requires LogInv(s) && Enabled(s, step)
    ensures LogInv(Perform(limit, s, step))
  {
    var u := Perform(limit, s, step);
    StepLog(limit, s, step);
    var n := |s.log|;
    forall i | 0 <= i < n
      ensures Logged(u, u.log[i])
      ensures |u.log| > n ==> u.log[i].reader != u.log[n].reader
    {
      assert Logged(s, s.log[i]);
      KeysGrow(limit, s, step);
      StepFinishes(limit, s, step, s.log[i].reader);
    }
    if |u.log| > n {
      assert step.Poll? && Logged(u, u.log[n]);
    }
    forall r | r in u.readers && u.readers[r].pc.Finished? && u.readers[r].pc.result.Got?
      ensures Delivery(r, u.readers[r].pc.result.message) in u.log
    {
      StepFinishes(limit, s, step, r);
      if s.readers[r].pc != u.readers[r].pc {
        assert u.log[n] == Delivery(r, u.readers[r].pc.result.message);
      }
    }
  }

  lemma KeysGrow(limit: nat, s: State, step: Step)
    requires Enabled(s, step)
    ensures s.readers.Keys <= Perform(limit, s, step).readers.Keys
  {
    match step
    case Poll(_) =>
    case PumpAdvance =>
    case _ =>
  }

  lemma {:induction false} RunKeepsClaim(limit: nat, steps: seq<Step>)
    ensures ClaimInv(After(limit, steps))
  {
    if steps != [] {
      var before, step := steps[..|steps| - 1], steps[|steps| - 1];
      RunKeepsClaim(limit, before);
      if Enabled(After(limit, before), step) {
        var s, u := After(limit, before), After(limit, steps);
        StepKeepsWinner(limit, s, step);
        StepKeepsLog(limit, s, step);
        forall r | r in u.readers
          ensures WakerOk(u, r)
        {
          StepKeepsWaker(limit, s, step, r);
        }
      }
    }
  }

  /** Exactly one caller ever wins the claim: once it has fired there is a winner, and no call disagrees. */
  lemma OneWinner(limit: nat, steps: seq<Step>, c: CallerId)
    requires c in After(limit, steps).verdicts
    ensures var s := After(limit, steps);
      s.verdicts[c] <==> s.claim == Fired(c)
  {
    RunKeepsClaim(limit, steps);
  }

  /**
   Every message goes to at most one consumer, a consumer takes at most one, and a receive that ended in any other
   way — it lost the race, was cancelled, or saw the end — consumed nothing.
   */
  lemma LosersConsumeNothing(limit: nat, steps: seq<Step>, i: nat, r: ReaderId)
    requires i < |After(limit, steps).log| && r in After(limit, steps).readers
    ensures var s := After(limit, steps);
      && (s.log[i].reader == r ==> s.readers[r].pc == Finished(Got(s.log[i].message)))
      && (forall j :: 0 <= j < |s.log| && j != i ==> s.log[j].reader != s.log[i].reader)
  {
    RunKeepsClaim(limit, steps);
    assert Logged(After(limit, steps), After(limit, steps).log[i]);
  }

  /** Nobody sleeps through the claim or the close. */
  lemma SignalsWakeEverySleeper(limit: nat, steps: seq<Step>, r: ReaderId)
    requires var s := After(limit, steps); r in s.readers && s.readers[r].pc.Suspended?
    ensures var s := After(limit, steps);
      (s.claim.Fired? && !s.readers[r].viaStream) || s.closed ==> s.readers[r].woken
  {
    RunKeepsClaim(limit, steps);
    assert WakerOk(After(limit, steps), r);
  }

  /** How many operations of its own a receive has left once the claim has fired. */
  ghost function Distance(pc: ReaderPc): nat {
    match pc
    case CheckingClosed => 6
    case Suspended => 5
    case Locking => 4
    case Popping => 3
    case CheckingStarted => 2
    case Releasing(_) => 1
    case Ending => 1
    case Finished(_) => 0
  }

  lemma PollShortens(s: State, r: ReaderId)
    requires s.claim.Fired? && Enabled(s, Poll(r)) && !s.readers[r].viaStream
    ensures Distance(ReaderAfter(s, r).pc) < Distance(s.readers[r].pc)
  {
  }

  lemma ClaimStays(limit: nat, s: State, step: Step, r: ReaderId)
    requires s.claim.Fired? && Enabled(s, step) && r in s.readers && !s.readers[r].viaStream
    ensures var u := Perform(limit, s, step);
      && u.claim == s.claim && r in u.readers
      && Distance(u.readers[r].pc) <= Distance(s.readers[r].pc)
      && (step == Poll(r) || step == Resume(r) ==> Distance(u.readers[r].pc) < Distance(s.readers[r].pc))
  {
    KeysGrow(limit, s, step);
    assert r in Perform(limit, s, step).readers;
    if !OwnStep(step, r) {
      OthersOnlyWake(limit, s, step, r);
    } else if step.Poll? {
      PollShortens(s, r);
    }
  }

  /**
   Once the claim has fired it stays fired, and every receive that is still pending gets strictly closer to its end
   with each operation of its own, is never delayed by anyone else's, and holds no lock when it gets there: no
   pending receive can keep the queue from the stream.
   */
  lemma ReceivesLetGoAfterTheClaim(limit: nat, steps: seq<Step>, step: Step, r: ReaderId)
    requires limit < USIZE_MAX
    requires var s := After(limit, steps);
      s.claim.Fired? && Enabled(s, step) && r in s.readers && !s.readers[r].viaStream
    ensures var s := After(limit, steps);
      var u := Perform(limit, s, step);
      && u.claim == s.claim
      && Distance(u.readers[r].pc) <= Distance(s.readers[r].pc)
      && (step == Poll(r) || step == Resume(r) ==> Distance(u.readers[r].pc) < Distance(s.readers[r].pc))
      && (s.readers[r].pc.Finished? || Enabled(s, Poll(r)) || Enabled(s, Resume(r)))
      && (u.readers[r].pc.Finished? ==> u.lock != Some(r))
  {
    var s := After(limit, steps);
    RunKeepsBudget(limit, steps);
    StepKeepsLock(limit, s, step);
    ClaimStays(limit, s, step, r);
    assert ReaderOk(Perform(limit, s, step), r);
  }

  /** A `receive` with this id has not been made, or has been refused. */
  ghost predicate RefusedIfOpened(s: State, r: ReaderId) {
    && FlagRaised(s.claim)
    && (r in s.readers && !s.readers[r].viaStream ==> s.readers[r].pc == Finished(ReceivingViaStream))
  }

  lemma StepKeepsRefused(limit: nat, s: State, step: Step, r: ReaderId)
    requires RefusedIfOpened(s, r) && Enabled(s, step)
    ensures RefusedIfOpened(Perform(limit, s, step), r)
  {
    var u := Perform(limit, s, step);
    FlagStays(limit, s, step);
    if r in u.readers && !OwnStep(step, r) {
      OthersOnlyWake(limit, s, step, r);
    }
  }

  lemma FlagStays(limit: nat, s: State, step: Step)
    requires FlagRaised(s.claim) && Enabled(s, step)
    ensures FlagRaised(Perform(limit, s, step).claim)
  {
    match step
    case Poll(_) =>
    case PumpAdvance =>
    case _ =>
  }

  lemma {:induction false} RunKeepsRefused(limit: nat, steps: seq<Step>, more: seq<Step>, r: ReaderId)
    requires RefusedIfOpened(After(limit, steps), r)
    ensures RefusedIfOpened(After(limit, steps + more), r)
  {
    if more == [] {
      assert steps + more == steps;
    } else {
      var n := |more| - 1;
      RunKeepsRefused(limit, steps, more[..n], r);
      assert (steps + more)[..|steps + more| - 1] == steps + more[..n];
      if Enabled(After(limit, steps + more[..n]), more[n]) {
        StepKeepsRefused(limit, After(limit, steps + more[..n]), more[n], r);
      }
    }
  }

  /**
   Once the flag of the claim is up, every `receive` made later is refused in whatever follows, and none of them ever
   takes a message.
   */
  lemma LaterReceivesAreRefused(limit: nat, steps: seq<Step>, more: seq<Step>, r: ReaderId)
    requires FlagRaised(After(limit, steps).claim) && r !in After(limit, steps).readers
    requires var u := After(limit, steps + more); r in u.readers && !u.readers[r].viaStream
    ensures var u := After(limit, steps + more);
      && u.readers[r].pc == Finished(ReceivingViaStream)
      && forall i :: 0 <= i < |u.log| ==> u.log[i].reader != r
  {
    RunKeepsRefused(limit, steps, more, r);
    RunKeepsClaim(limit, steps + more);
    var u := After(limit, steps + more);
    assert forall i :: 0 <= i < |u.log| ==> Logged(u, u.log[i]);
  }
}
