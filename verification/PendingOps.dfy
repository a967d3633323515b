/**
 The wasmtime host's gate between `create-data-channel` and `create-offer` / `create-answer`: spawned registrations
 are counted, and an offer waits, on a notification armed before the count is looked at, until none is in flight.
 */
module PendingOps {

  type OpId = nat
  type OfferId = nat

  /** A registration: counted when its call returns, then resolved by the stack, uncounted, and announced. */
  datatype Op = Begun | Resolved(registered: bool) | Uncounted | Announced

  /**
   An offer's pass through `settled`.  `covers` are the registrations begun before the offer; `generation` is the number
   of announcements made when its notification was armed.
   */
  datatype Offer =
    | Arming(covers: set<OpId>)
    | Looking(covers: set<OpId>, generation: nat)
    | Waiting(covers: set<OpId>, generation: nat)
    | AtStack(covers: set<OpId>)

  datatype State = State(count: int, announcements: nat, ops: map<OpId, Op>, offers: map<OfferId, Offer>)

  datatype Step =
    | CreateChannel(op: OpId)
    | Resolve(op: OpId, registered: bool)
    | Uncount(op: OpId)
    | Announce(op: OpId)
    | CreateOffer(offer: OfferId)
    | Arm(offer: OfferId)
    | Look(offer: OfferId)
    | Wake(offer: OfferId)

  function Initial(): State { State(0, 0, map[], map[]) }

  ghost predicate Enabled(s: State, step: Step) {
    match step
    case CreateChannel(o) => o !in s.ops
    case Resolve(o, _) => o in s.ops && s.ops[o].Begun?
    case Uncount(o) => o in s.ops && s.ops[o].Resolved?
    case Announce(o) => o in s.ops && s.ops[o].Uncounted?
    case CreateOffer(f) => f !in s.offers
    case Arm(f) => f in s.offers && s.offers[f].Arming?
    case Look(f) => f in s.offers && s.offers[f].Looking?
    case Wake(f) => f in s.offers && s.offers[f].Waiting? && s.offers[f].generation < s.announcements
  }

  ghost function Perform(s: State, step: Step): State
    requires Enabled(s, step)
  {
    match step
    case CreateChannel(o) => s.(count := s.count + 1, ops := s.ops[o := Begun])
    case Resolve(o, registered) => s.(ops := s.ops[o := Resolved(registered)])
    case Uncount(o) => s.(count := s.count - 1, ops := s.ops[o := Uncounted])
    case Announce(o) => s.(announcements := s.announcements + 1, ops := s.ops[o := Announced])
    case CreateOffer(f) => s.(offers := s.offers[f := Arming(s.ops.Keys)])
    case Arm(f) => s.(offers := s.offers[f := Looking(s.offers[f].covers, s.announcements)])
    case Look(f) =>
      var o := s.offers[f];
      s.(offers := s.offers[f := if s.count == 0 then AtStack(o.covers) else Waiting(o.covers, o.generation)])
    case Wake(f) => s.(offers := s.offers[f := Arming(s.offers[f].covers)])
  }

  ghost function After(steps: seq<Step>): State {
    if steps == [] then Initial()
    else
      var s := After(steps[..|steps| - 1]);
      if Enabled(s, steps[|steps| - 1]) then Perform(s, steps[|steps| - 1]) else s
  }

  predicate InFlight(op: Op) { op.Begun? || op.Resolved? }

  /** The registrations still counted, and those not yet announced. */
  ghost function Counted(s: State): set<OpId> { set o | o in s.ops && InFlight(s.ops[o]) }

  ghost predicate Unannounced(s: State) { exists o :: o in s.ops && !s.ops[o].Announced? }

  /** The count is the number of registrations in flight. */
  ghost predicate CountInv(s: State) { s.count == |Counted(s)| }

  ghost predicate OfferInv(s: State, f: OfferId)
    requires f in s.offers
  {
    && s.offers[f].covers <= s.ops.Keys
    && (s.offers[f].Looking? || s.offers[f].Waiting? ==> s.offers[f].generation <= s.announcements)
    && (s.offers[f].Waiting? && s.announcements <= s.offers[f].generation ==> Unannounced(s))
    && (s.offers[f].AtStack? ==> forall o :: o in s.offers[f].covers ==> !InFlight(s.ops[o]))
  }

  ghost predicate Inv(s: State) {
    CountInv(s) && forall f :: f in s.offers ==> OfferInv(s, f)
  }

  /** Changing one registration changes the set of those counted at most by it. */
  lemma CountedAfter(s: State, u: State, o: OpId)
    requires o in u.ops && u.ops == s.ops[o := u.ops[o]]
    ensures Counted(u) == if InFlight(u.ops[o]) then Counted(s) + {o} else Counted(s) - {o}
  {
  }

  lemma OpsKeepCount(s: State, u: State, o: OpId)
    requires CountInv(s) && o in u.ops && u.ops == s.ops[o := u.ops[o]]
    requires u.count - (if InFlight(u.ops[o]) then 1 else 0)
          == s.count - (if o in s.ops && InFlight(s.ops[o]) then 1 else 0)
    ensures CountInv(u)
  {
    CountedAfter(s, u, o);
    assert o in Counted(s) <==> o in s.ops && InFlight(s.ops[o]);
  }

  lemma StepKeepsCount(s: State, step: Step)
    requires CountInv(s) && Enabled(s, step)
    ensures CountInv(Perform(s, step))
  {
    var u := Perform(s, step);
    match step
    case CreateChannel(o) => OpsKeepCount(s, u, o);
    case Resolve(o, _) => OpsKeepCount(s, u, o);
    case Uncount(o) => OpsKeepCount(s, u, o);
    case Announce(o) => OpsKeepCount(s, u, o);
    case _ => assert u.ops == s.ops && u.count == s.count;
  }

  /** A registration only moves on: once uncounted it is never in flight again. */
  lemma OpsOnlyAdvance(s: State, step: Step, o: OpId)
    requires Enabled(s, step) && o in s.ops
    ensures var u := Perform(s, step);
      && o in u.ops
      && (!InFlight(s.ops[o]) ==> !InFlight(u.ops[o]))
      && (u.ops[o].Announced? && !s.ops[o].Announced? ==> u.announcements == s.announcements + 1)
  {
  }

  lemma StepKeepsOffer(s: State, step: Step, f: OfferId)
    requires Inv(s) && Enabled(s, step) && f in Perform(s, step).offers
    ensures OfferInv(Perform(s, step), f)
  {
    var u := Perform(s, step);
    if f in s.offers {
      assert OfferInv(s, f);
    }
    forall o | o in s.ops
      ensures o in u.ops && (!InFlight(s.ops[o]) ==> !InFlight(u.ops[o]))
    {
      OpsOnlyAdvance(s, step, o);
    }
    if step == Look(f) {
      if s.count == 0 {
        assert Counted(s) == {};
        assert forall o :: o in s.ops && InFlight(s.ops[o]) ==> o in Counted(s);
      } else {
        var o :| o in Counted(s);
        assert o in u.ops && !u.ops[o].Announced?;
      }
    } else if u.offers[f].Waiting? && u.announcements <= u.offers[f].generation {
      var o :| o in s.ops && !s.ops[o].Announced?;
      OpsOnlyAdvance(s, step, o);
    }
  }

  lemma {:induction false} RunKeepsInv(steps: seq<Step>)
    ensures Inv(After(steps))
  {
    if steps != [] {
      var before, step := steps[..|steps| - 1], steps[|steps| - 1];
      RunKeepsInv(before);
      if Enabled(After(before), step) {
        StepKeepsCount(After(before), step);
        forall f | f in After(steps).offers
          ensures OfferInv(After(steps), f)
        {
          StepKeepsOffer(After(before), step, f);
        }
      }
    }
  }

  /**
   In every interleaving, when an offer or answer reaches the stack, each `create-data-channel` call that returned
   before it was asked for has registered or failed, however many others are still under way.
   */
  lemma OffersCoverEarlierChannels(steps: seq<Step>, more: seq<Step>, f: OfferId, o: OpId)
    requires f !in After(steps).offers && o in After(steps).ops
    requires var u := After(steps + [CreateOffer(f)] + more); f in u.offers && u.offers[f].AtStack?
    ensures var u := After(steps + [CreateOffer(f)] + more);
      o in u.ops && !InFlight(u.ops[o])
  {
    var asked := steps + [CreateOffer(f)];
    assert asked[..|asked| - 1] == steps;
    CoversStay(asked, more, f);
    RunKeepsInv(asked + more);
    assert OfferInv(After(asked + more), f);
  }

  lemma {:induction false} CoversStay(steps: seq<Step>, more: seq<Step>, f: OfferId)
    requires f in After(steps).offers
    ensures f in After(steps + more).offers && After(steps + more).offers[f].covers == After(steps).offers[f].covers
  {
    if more == [] {
      assert steps + more == steps;
    } else {
      CoversStay(steps, more[..|more| - 1], f);
      assert (steps + more)[..|steps + more| - 1] == steps + more[..|more| - 1];
    }
  }

  /**
   No lost wakeup: while an offer waits, either its notification has fired and it can go on, or some registration has
   still to announce itself; so once all have, no offer is left waiting.
   */
  lemma WaitingOffersAreWoken(steps: seq<Step>, f: OfferId)
    requires var s := After(steps); f in s.offers && s.offers[f].Waiting?
    ensures Enabled(After(steps), Wake(f)) || Unannounced(After(steps))
  {
    RunKeepsInv(steps);
    assert OfferInv(After(steps), f);
  }

  /** When every registration has been announced the count is zero, and a waiting offer's next look succeeds. */
  lemma QuietGateOpens(steps: seq<Step>, f: OfferId)
    requires !Unannounced(After(steps)) && f in After(steps).offers && !After(steps).offers[f].AtStack?
    ensures var s := After(steps);
      var next := match s.offers[f] case Arming(_) => Arm(f) case Looking(_, _) => Look(f) case _ => Wake(f);
      && s.count == 0
      && Enabled(s, next)
      && (next.Look? ==> Perform(s, next).offers[f].AtStack?)
  {
    RunKeepsInv(steps);
    var s := After(steps);
    assert OfferInv(s, f);
    assert Counted(s) == {};
  }
}
