/** What a deletion or eviction of the room does to a handshake in progress. */
module HandshakeLoss {
  import opened Collections
  import opened MailboxStore
  import D = MailboxDelivery
  import H = Handshake

  /** A step of the handshake, or a request that may remove its room. */
  datatype Step = Within(step: H.Step) | Lose(request: Request, now: nat)

  predicate MayRemove(request: Request) { request.DeleteRoom? || request.EvictRooms? }

  ghost function Next(c: H.Call, s: H.State, step: Step): H.State {
    match step
    case Within(x) => if H.Enabled(c, s, x) then H.Perform(c, s, x) else s
    case Lose(request, now) =>
      if MayRemove(request) then s.(mail := D.Perform(c.setting, s.mail, D.Request(request, now))) else s
  }

  /** The state after `steps` from `s`; a step that cannot happen does nothing. */
  ghost function From(c: H.Call, s: H.State, steps: seq<Step>): H.State
    decreases |steps|
  {
    if steps == [] then s else From(c, Next(c, s, steps[0]), steps[1..])
  }

  lemma {:induction false} FromAppend(c: H.Call, s: H.State, a: seq<Step>, b: seq<Step>)
    ensures From(c, s, a + b) == From(c, From(c, s, a), b)
    decreases |a|
  {
    if a == [] {
      assert a + b == b;
    } else {
      FromAppend(c, Next(c, s, a[0]), a[1..], b);
      assert (a + b)[1..] == a[1..] + b;
    }
  }

  lemma FromOne(c: H.Call, s: H.State, step: Step)
    ensures From(c, s, [step]) == Next(c, s, step)
  {
    assert [step][1..] == [];
  }

  /** The answerer has met something else where it expected the offer. */
  ghost predicate MissedOffer(s: H.State) { s.answerer.stage == H.GaveUp(H.ExpectedOffer) }

  /** The answerer has yet to be handed the offer, and the offerer has yet to finish publishing. */
  ghost predicate Exposed(s: H.State) {
    && s.answerer.stage.AwaitingOffer? && !H.Ready(s.mail.answerer.reply) && s.offerer.stage.Publishing?
  }

  // ----- otherwise the offer is never missed -----

  ghost predicate IsOffer(c: H.Call, blob: Blob) { c.decode(blob) == Some(H.OfferSignal(c.offer)) }

  /** Whatever the offerer's mailbox holds begins with the offer, and it is not done without one. */
  ghost predicate OfferFirst(c: H.Call, store: Store) {
    var blobs := D.Posted(store, c.setting.room, Offerer);
    if blobs == [] then !D.Frozen(store, c.setting.room, Offerer) else IsOffer(c, blobs[0])
  }

  ghost predicate Sheltered(c: H.Call, s: H.State) {
    && !MissedOffer(s) && !s.offerer.stage.AwaitingOffer?
    && (s.answerer.stage.AwaitingOffer? ==>
          && s.mail.answerer.cursor == 0
          && ((s.mail.answerer.reply.Some? && s.mail.answerer.reply.value.Found?
               && IsOffer(c, s.mail.answerer.reply.value.blob))
              || (!H.Ready(s.mail.answerer.reply) && !s.offerer.stage.Publishing? && OfferFirst(c, s.mail.store))))
  }

  lemma ServeKeepsOfferFirst(c: H.Call, s: Store, request: Request, now: nat)
    requires OfferFirst(c, s) && (request.PublishTo? || request.MarkDoneOf? ==> request.room != c.setting.room)
    ensures OfferFirst(c, Serve(s, c.setting.limits, request, now))
  {
    match request
    case PublishTo(_, _, _) =>
    case MarkDoneOf(_, _) =>
    case FetchFrom(_, _, _) =>
    case DeleteRoom(_) =>
    case EvictRooms =>
  }

  /** The answerer's own acts are on its own mailbox. */
  lemma AnswererActs(c: H.Call, s: H.State, now: nat)
    ensures var u := H.ActOf(c, s, Answerer, now);
      && (OfferFirst(c, s.mail.store) ==> OfferFirst(c, u.mail.store))
      && u.offerer == s.offerer && u.mail.answerer == s.mail.answerer
      && u.answerer.stage.AwaitingOffer? == s.answerer.stage.AwaitingOffer?
      && (MissedOffer(u) ==> MissedOffer(s))
  {
    var room := c.setting.room;
    if s.answerer.stage.Publishing? {
      if s.answerer.published < |H.Script(c, Answerer)| {
        H.PublishAppends(s.mail.store, c.setting.limits, room, Answerer,
                         c.encode(H.Script(c, Answerer)[s.answerer.published]), now);
      } else {
        H.DoneFreezes(s.mail.store, room, Answerer, now);
      }
    }
  }

  lemma ActKeepsSheltered(c: H.Call, s: H.State, role: Role, now: nat)
    requires Sheltered(c, s)
    ensures Sheltered(c, H.ActOf(c, s, role, now))
  {
    if role.Answerer? {
      AnswererActs(c, s, now);
    }
  }

  lemma FetchKeepsSheltered(c: H.Call, s: H.State, role: Role, early: bool, now: nat)
    requires Sheltered(c, s) && H.Enabled(c, s, H.Fetched(role, early, now))
    ensures Sheltered(c, H.Perform(c, s, H.Fetched(role, early, now)))
  {
    var n := D.Of(s.mail, role).cursor;
    D.FetchOnlyLooks(s.mail.store, c.setting.room, D.Peer(role), n, now, Offerer);
  }

  lemma TakeKeepsSheltered(c: H.Call, s: H.State, role: Role)
    requires Sheltered(c, s) && H.Enabled(c, s, H.Take(role))
    ensures Sheltered(c, H.Perform(c, s, H.Take(role)))
  {
  }

  lemma StepKeepsSheltered(c: H.Call, s: H.State, step: Step)
    requires Sheltered(c, s)
    ensures Sheltered(c, Next(c, s, step))
  {
    match step
    case Lose(request, now) =>
      if MayRemove(request) && OfferFirst(c, s.mail.store) {
        ServeKeepsOfferFirst(c, s.mail.store, request, now);
      }
    case Within(x) =>
      if H.Enabled(c, s, x) {
        match x
        case Other(request, now) =>
          if OfferFirst(c, s.mail.store) {
            ServeKeepsOfferFirst(c, s.mail.store, request, now);
          }
        case Act(role, now) => ActKeepsSheltered(c, s, role, now);
        case Fetched(role, early, now) => FetchKeepsSheltered(c, s, role, early, now);
        case Take(role) => TakeKeepsSheltered(c, s, role);
        case Break(_) =>
      }
  }

  lemma {:induction false} ShelteredForGood(c: H.Call, s: H.State, more: seq<Step>)
    requires Sheltered(c, s)
    ensures Sheltered(c, From(c, s, more))
    decreases |more|
  {
    if more != [] {
      StepKeepsSheltered(c, s, more[0]);
      ShelteredForGood(c, Next(c, s, more[0]), more[1..]);
    }
  }

  /** A handshake whose room has been kept so far is exposed or sheltered. */
  lemma ShelteredUnlessExposed(c: H.Call, s: H.State)
    requires H.WellFormed(c) && H.Inv(c, s) && !Exposed(s)
    ensures Sheltered(c, s)
  {
    assert H.Script(c, Offerer)[0] == H.OfferSignal(c.offer);
  }

  // ----- an exposed handshake can miss the offer -----

  /** The answerer asks, or is about to ask, for the first blob. */
  ghost predicate Asking(c: H.Call, s: H.State) {
    && s.answerer.stage.AwaitingOffer? && s.mail.answerer.cursor == 0 && s.mail.answerer.reply.None?
    && s.offerer.stage.Publishing? && s.offerer.published <= |H.Script(c, Offerer)|
  }

  ghost predicate Empty(c: H.Call, s: H.State) {
    && D.Posted(s.mail.store, c.setting.room, Offerer) == [] && !D.Frozen(s.mail.store, c.setting.room, Offerer)
  }

  ghost predicate HasRoom(c: H.Call, s: H.State) { c.setting.room in s.mail.store.rooms }

  /** Asking in vain creates the room and changes nothing else. */
  lemma AskInVain(c: H.Call, s: H.State) returns (more: seq<Step>)
    requires Asking(c, s)
    ensures var u := From(c, s, more);
      && Asking(c, u) && HasRoom(c, u) && u.offerer == s.offerer
      && D.Posted(u.mail.store, c.setting.room, Offerer) == D.Posted(s.mail.store, c.setting.room, Offerer)
      && D.Frozen(u.mail.store, c.setting.room, Offerer) == D.Frozen(s.mail.store, c.setting.room, Offerer)
  {
    var ask, take := Within(H.Fetched(Answerer, true, 0)), Within(H.Take(Answerer));
    more := [ask, take];
    D.FetchOnlyLooks(s.mail.store, c.setting.room, Offerer, 0, 0, Offerer);
    FromOne(c, s, ask);
    FromOne(c, Next(c, s, ask), take);
    FromAppend(c, s, [ask], [take]);
    assert more == [ask] + [take];
  }

  /** With the room there and the mailbox empty, the offerer's next publish is accepted. */
  lemma FirstPublish(c: H.Call, s: H.State)
    requires Asking(c, s) && HasRoom(c, s) && Empty(c, s) && s.offerer.published < |H.Script(c, Offerer)|
    ensures var k, u := s.offerer.published, H.ActOf(c, s, Offerer, 0);
      && Asking(c, u) && HasRoom(c, u) && u.offerer.published == k + 1
      && D.Posted(u.mail.store, c.setting.room, Offerer) == [c.encode(H.Script(c, Offerer)[k])]
      && !D.Frozen(u.mail.store, c.setting.room, Offerer)
  {
  }

  /** Once the offer is out and the mailbox has been emptied, what the offerer does next is not the offer. */
  lemma SomethingElseFirst(c: H.Call, s: H.State)
    requires H.WellFormed(c) && Asking(c, s) && HasRoom(c, s) && Empty(c, s) && 0 < s.offerer.published
    ensures var u := H.ActOf(c, s, Offerer, 0);
      var (v, answer, _) := FetchNow(u.mail.store, c.setting.room, Offerer, 0, 0);
      && u.answerer == s.answerer && u.mail.answerer == s.mail.answerer
      && (answer == Done || (answer.Found? && exists signal ::
            c.decode(answer.blob) == Some(signal) && !signal.OfferSignal?))
  {
    var k := s.offerer.published;
    if k < |H.Script(c, Offerer)| {
      FirstPublish(c, s);
      assert !H.Script(c, Offerer)[k].OfferSignal?;
      assert c.decode(c.encode(H.Script(c, Offerer)[k])) == Some(H.Script(c, Offerer)[k]);
    } else {
      H.DoneFreezes(s.mail.store, c.setting.room, Offerer, 0);
    }
  }

  /** From there the answerer's next question gives it the wrong answer. */
  lemma MissesIt(c: H.Call, s: H.State) returns (more: seq<Step>)
    requires H.WellFormed(c) && Asking(c, s) && HasRoom(c, s) && Empty(c, s) && 0 < s.offerer.published
    ensures MissedOffer(From(c, s, more))
  {
    var act, ask, take := Within(H.Act(Offerer, 0)), Within(H.Fetched(Answerer, false, 0)), Within(H.Take(Answerer));
    SomethingElseFirst(c, s);
    var t := Next(c, s, act);
    var u := Next(c, t, ask);
    more := [act] + ([ask] + [take]);
    FromOne(c, s, act);
    FromOne(c, t, ask);
    FromOne(c, u, take);
    FromAppend(c, t, [ask], [take]);
    FromAppend(c, s, [act], [ask] + [take]);
  }

  /** Removing the room empties the mailbox. */
  lemma LosingEmpties(c: H.Call, s: H.State)
    requires Asking(c, s)
    ensures var u := Next(c, s, Lose(DeleteRoom(c.setting.room), 0));
      Asking(c, u) && Empty(c, u) && u.offerer == s.offerer
  {
  }

  /** The room is removed once the offer is out, and the offer is missed. */
  lemma MissesAfterLoss(c: H.Call, s: H.State) returns (more: seq<Step>)
    requires H.WellFormed(c) && Asking(c, s) && 0 < s.offerer.published
    ensures MissedOffer(From(c, s, more))
  {
    var lose := Lose(DeleteRoom(c.setting.room), 0);
    LosingEmpties(c, s);
    var t := Next(c, s, lose);
    var ask := AskInVain(c, t);
    var rest := MissesIt(c, From(c, t, ask));
    more := [lose] + (ask + rest);
    FromOne(c, s, lose);
    FromAppend(c, t, ask, rest);
    FromAppend(c, s, [lose], ask + rest);
  }

  /** An offerer that has published nothing yet first publishes the offer. */
  lemma CanMiss(c: H.Call, s: H.State) returns (more: seq<Step>)
    requires H.WellFormed(c) && H.Inv(c, s) && Asking(c, s)
    ensures MissedOffer(From(c, s, more))
  {
    if 0 < s.offerer.published {
      more := MissesAfterLoss(c, s);
    } else {
      var ask := AskInVain(c, s);
      var act := Within(H.Act(Offerer, 0));
      var t := From(c, s, ask);
      FirstPublish(c, t);
      FromOne(c, t, act);
      var rest := MissesAfterLoss(c, Next(c, t, act));
      more := ask + ([act] + rest);
      FromAppend(c, t, [act], rest);
      FromAppend(c, s, ask, [act] + rest);
    }
  }

  ghost predicate MissesIn(c: H.Call, s: H.State, more: seq<Step>) { MissedOffer(From(c, s, more)) }

  /**
   If the room may be deleted or evicted from some moment on, the handshake can fail with "expected offer" exactly when
   at that moment the answerer has not been handed the offer and the offerer is still publishing.
   */
  lemma OfferCanBeMissedIffExposed(c: H.Call, steps: seq<H.Step>)
    requires H.WellFormed(c)
    ensures (exists more :: MissesIn(c, H.After(c, steps), more)) <==> Exposed(H.After(c, steps))
  {
    var s := H.After(c, steps);
    H.RunKeepsInv(c, steps);
    if !Exposed(s) {
      ShelteredUnlessExposed(c, s);
      forall more
        ensures !MissesIn(c, s, more)
      {
        ShelteredForGood(c, s, more);
      }
    } else if s.mail.answerer.reply.None? {
      var more := CanMiss(c, s);
      assert MissesIn(c, s, more);
    } else {
      var take := Within(H.Take(Answerer));
      H.StepKeepsInv(c, s, H.Take(Answerer));
      var more := CanMiss(c, Next(c, s, take));
      FromOne(c, s, take);
      FromAppend(c, s, [take], more);
      assert MissesIn(c, s, [take] + more);
    }
  }
}
