/** When the removal of its room can make a half of a handshake finish without all that its peer published. */
module HandshakeSkip {
  import opened Collections
  import opened MailboxStore
  import opened MailboxClient
  import D = MailboxDelivery
  import H = Handshake
  import L = HandshakeLoss

  /** The half has the peer's description and every candidate of it. */
  ghost predicate Complete(c: H.Call, h: Role, side: H.Side) {
    && side.remote == Some(H.Description(c, D.Peer(h)))
    && side.added == H.Candidates(c, D.Peer(h))
  }

  /** The half has finished signaling without. */
  ghost predicate Skipped(c: H.Call, s: H.State, h: Role) {
    H.SideOf(s, h).stage.Connecting? && !Complete(c, h, H.SideOf(s, h))
  }

  /** How many of the peer's blobs the half has been handed, the one on its way included. */
  ghost function Handed(ss: D.Session): nat {
    ss.cursor + if ss.reply.Some? && ss.reply.value.Found? then 1 else 0
  }

  predicate Unfinished(side: H.Side) { side.stage.Publishing? || side.stage.AwaitingOffer? }

  /**
   The half is still at work, its peer has yet to finish publishing, and what the half has been handed does not cover
   the description and every candidate.  An answerer cannot do without the description, which is its offer.
   */
  ghost predicate CanSkip(c: H.Call, s: H.State, h: Role) {
    var n := |H.Candidates(c, D.Peer(h))|;
    && !H.Final(H.SideOf(s, h)) && Unfinished(H.SideOf(s, D.Peer(h)))
    && Handed(D.Of(s.mail, h)) <= n && (h.Answerer? ==> 0 < n)
  }

  // ----- what a half sees of a step -----

  /** One half, and what it depends on: its peer, its cursor and the answer on its way, and the peer's mailbox. */
  datatype View = View(
    side: H.Side, peer: H.Side, cursor: nat, reply: Option<Fetch>, blobs: seq<Blob>, frozen: bool)

  ghost function ViewOf(c: H.Call, s: H.State, h: Role): View {
    var ss, p, room := D.Of(s.mail, h), D.Peer(h), c.setting.room;
    View(H.SideOf(s, h), H.SideOf(s, p), ss.cursor, ss.reply,
         D.Posted(s.mail.store, room, p), D.Frozen(s.mail.store, room, p))
  }

  function Heard(answer: Fetch): Received {
    match answer case Found(blob) => Got(blob) case Done => Nothing case Pending => NotYet
  }

  ghost predicate Loses(v: View, w: View) { w == v || w == v.(blobs := [], frozen := false) }

  /** The half acts on its own mailbox, or breaks. */
  ghost predicate Acts(v: View, w: View) {
    && w == v.(side := v.side.(published := w.side.published, finished := w.side.finished, stage := w.side.stage))
    && !H.Final(v.side)
    && (w.side.stage.GaveUp? || (v.side.stage.Publishing? && (w.side.stage.Publishing? || w.side.stage.Consuming?)))
  }

  ghost predicate PeerPublishes(c: H.Call, h: Role, v: View, w: View) {
    var script := H.Script(c, D.Peer(h));
    && v.peer.stage.Publishing? && v.peer.published < |script|
    && w == v.(peer := v.peer.(published := v.peer.published + 1),
               blobs := v.blobs + [c.encode(script[v.peer.published])])
  }

  ghost predicate PeerFinishes(c: H.Call, h: Role, v: View, w: View) {
    && v.peer.stage.Publishing? && |H.Script(c, D.Peer(h))| <= v.peer.published
    && w == v.(peer := v.peer.(finished := true, stage := H.Consuming), frozen := true)
  }

  ghost predicate PeerMoves(v: View, w: View) {
    && w == v.(peer := w.peer) && w.peer.published == v.peer.published
    && (w.peer.stage.AwaitingOffer? ==> v.peer.stage.AwaitingOffer?)
    && (w.peer.stage.Publishing? ==> Unfinished(v.peer))
  }

  ghost predicate Asks(v: View, w: View) {
    && H.Receives(v.side) && v.reply.None? && w == v.(reply := w.reply) && w.reply.Some?
    && (w.reply.value.Found? ==> v.cursor < |v.blobs| && w.reply.value.blob == v.blobs[v.cursor])
    && (w.reply.value.Done? ==> v.frozen && |v.blobs| <= v.cursor)
  }

  ghost predicate Hears(c: H.Call, v: View, w: View) {
    && H.Receives(v.side) && v.reply.Some?
    && w == v.(side := H.Apply(c, v.side, Heard(v.reply.value)), reply := None,
               cursor := if v.reply.value.Found? then v.cursor + 1 else v.cursor)
  }

  ghost predicate Moves(c: H.Call, h: Role, v: View, w: View) {
    || Loses(v, w) || Acts(v, w) || PeerPublishes(c, h, v, w) || PeerFinishes(c, h, v, w) || PeerMoves(v, w)
    || Asks(v, w) || Hears(c, v, w)
  }

  lemma OtherMoves(c: H.Call, s: H.State, request: Request, now: nat, h: Role)
    requires request.PublishTo? || request.MarkDoneOf? ==> request.room != c.setting.room
    ensures Loses(ViewOf(c, s, h),
                  ViewOf(c, s.(mail := D.Perform(c.setting, s.mail, D.Request(request, now))), h))
  {
    match request
    case PublishTo(_, _, _) =>
    case MarkDoneOf(_, _) =>
    case FetchFrom(_, _, _) =>
    case DeleteRoom(_) =>
    case EvictRooms =>
  }

  lemma OwnActMoves(c: H.Call, s: H.State, h: Role, now: nat)
    requires H.SideOf(s, h).stage.Publishing?
    ensures Acts(ViewOf(c, s, h), ViewOf(c, H.ActOf(c, s, h, now), h))
  {
    var side := H.SideOf(s, h);
    if side.published < |H.Script(c, h)| {
      H.PublishAppends(s.mail.store, c.setting.limits, c.setting.room, h,
                       c.encode(H.Script(c, h)[side.published]), now);
    } else {
      H.DoneFreezes(s.mail.store, c.setting.room, h, now);
    }
  }

  lemma PeerActMoves(c: H.Call, s: H.State, h: Role, now: nat)
    requires H.SideOf(s, D.Peer(h)).stage.Publishing?
    ensures Moves(c, h, ViewOf(c, s, h), ViewOf(c, H.ActOf(c, s, D.Peer(h), now), h))
  {
    var p := D.Peer(h);
    var side, v, w := H.SideOf(s, p), ViewOf(c, s, h), ViewOf(c, H.ActOf(c, s, p, now), h);
    if side.published < |H.Script(c, p)| {
      var blob := c.encode(H.Script(c, p)[side.published]);
      H.PublishAppends(s.mail.store, c.setting.limits, c.setting.room, p, blob, now);
      if Publish(s.mail.store, c.setting.limits, c.setting.room, p, blob, now).1.Seq? {
        assert PeerPublishes(c, h, v, w);
      } else {
        assert v.blobs + [] == v.blobs;
        assert PeerMoves(v, w);
      }
    } else {
      H.DoneFreezes(s.mail.store, c.setting.room, p, now);
      assert PeerFinishes(c, h, v, w);
    }
  }

  lemma FetchMoves(c: H.Call, s: H.State, role: Role, early: bool, now: nat, h: Role)
    requires H.Enabled(c, s, H.Fetched(role, early, now))
    ensures var v, w := ViewOf(c, s, h), ViewOf(c, H.Perform(c, s, H.Fetched(role, early, now)), h);
      if role == h then Asks(v, w) else w == v
  {
    D.FetchOnlyLooks(s.mail.store, c.setting.room, D.Peer(role), D.Of(s.mail, role).cursor, now, D.Peer(h));
  }

  lemma TakeMoves(c: H.Call, s: H.State, role: Role, h: Role)
    requires H.Enabled(c, s, H.Take(role))
    ensures var v, w := ViewOf(c, s, h), ViewOf(c, H.Perform(c, s, H.Take(role)), h);
      if role == h then Hears(c, v, w) else PeerMoves(v, w)
  {
    var ss := D.Of(s.mail, role);
    assert Verdict(ss.host, Wire(ss.reply.value)) == Heard(ss.reply.value);
  }

  lemma BreakMoves(c: H.Call, s: H.State, role: Role, h: Role)
    requires H.Enabled(c, s, H.Break(role))
    ensures var v, w := ViewOf(c, s, h), ViewOf(c, H.Perform(c, s, H.Break(role)), h);
      if role == h then Acts(v, w) else PeerMoves(v, w)
  {
  }

  lemma StepMoves(c: H.Call, s: H.State, step: L.Step, h: Role)
    ensures Moves(c, h, ViewOf(c, s, h), ViewOf(c, L.Next(c, s, step), h))
  {
    match step
    case Lose(request, now) =>
      if L.MayRemove(request) {
        OtherMoves(c, s, request, now, h);
      }
    case Within(x) =>
      if H.Enabled(c, s, x) {
        match x
        case Other(request, now) => OtherMoves(c, s, request, now, h);
        case Act(role, now) =>
          if role == h {
            OwnActMoves(c, s, h, now);
          } else {
            PeerActMoves(c, s, h, now);
          }
        case Fetched(role, early, now) => FetchMoves(c, s, role, early, now, h);
        case Take(role) => TakeMoves(c, s, role, h);
        case Break(role) => BreakMoves(c, s, role, h);
      }
  }

  // ----- halves that cannot skip -----

  ghost predicate IsEnd(c: H.Call, blob: Blob) { c.decode(blob) == Some(H.EndOfCandidates) }

  /** The half is through, with everything, or has given up. */
  ghost predicate Settled(c: H.Call, h: Role, v: View) {
    v.side.stage.GaveUp? || (v.side.stage.Connecting? && Complete(c, h, v.side))
  }

  /** Where a half at work may stand with `n` signals consumed. */
  ghost predicate AtWork(h: Role, side: H.Side, n: nat) {
    && !H.Final(side)
    && (side.stage.AwaitingOffer? ==> h.Answerer? && n == 0)
    && (side.stage.Consuming? && h.Answerer? ==> 0 < n)
    && (side.stage.Publishing? && h.Answerer? ==> 0 < n)
  }

  /** The peer publishes no more: its mailbox holds the script so far, or nothing any more. */
  ghost predicate Quiet(c: H.Call, h: Role, v: View) {
    var p := D.Peer(h);
    var script := H.Script(c, p);
    && AtWork(h, v.side, v.cursor) && H.Applied(c, p, v.side, v.cursor) && v.cursor <= |script|
    && !Unfinished(v.peer)
    && (H.Holds(c, p, v.blobs, |v.blobs|) && (v.frozen ==> |v.blobs| == |script|))
    && (v.reply.Some? && v.reply.value.Found? ==>
          v.cursor < |script| && v.reply.value.blob == c.encode(script[v.cursor]))
    && (v.reply == Some(Done) ==> v.cursor == |script|)
  }

  /** What the peer has still to publish, and what it has published past its candidates, is end markers only. */
  ghost predicate OnlyEnds(c: H.Call, h: Role, v: View) {
    var n := |H.Candidates(c, D.Peer(h))|;
    && n < v.peer.published && !v.peer.stage.AwaitingOffer?
    && forall i :: n + 1 <= i < |v.blobs| ==> IsEnd(c, v.blobs[i])
  }

  /** The half has everything. */
  ghost predicate Covered(c: H.Call, h: Role, v: View) {
    && !H.Final(v.side) && !v.side.stage.AwaitingOffer? && Complete(c, h, v.side) && OnlyEnds(c, h, v)
    && |H.Candidates(c, D.Peer(h))| < v.cursor
    && (v.reply.Some? && v.reply.value.Found? ==> IsEnd(c, v.reply.value.blob))
  }

  /** All but the last of it, which is on its way. */
  ghost predicate AlmostCovered(c: H.Call, h: Role, v: View) {
    var p := D.Peer(h);
    var n := |H.Candidates(c, p)|;
    && AtWork(h, v.side, n) && H.Receives(v.side) && H.Applied(c, p, v.side, n) && OnlyEnds(c, h, v)
    && v.cursor == n && v.reply == Some(Found(c.encode(H.Script(c, p)[n])))
  }

  ghost predicate InScript(c: H.Call, h: Role, blob: Blob) {
    exists k :: 0 <= k < |H.Script(c, D.Peer(h))| && blob == c.encode(H.Script(c, D.Peer(h))[k])
  }

  /** An answerer whose peer has no candidates lacks at most the offer, without which it does not go on. */
  ghost predicate OfferOnly(c: H.Call, h: Role, v: View) {
    && h.Answerer? && c.offererCandidates == [] && !H.Final(v.side)
    && v.side.added == [] && (!v.side.stage.AwaitingOffer? ==> v.side.remote == Some(c.offer))
    && (forall i :: 0 <= i < |v.blobs| ==> InScript(c, h, v.blobs[i]))
    && (v.reply.Some? && v.reply.value.Found? ==> InScript(c, h, v.reply.value.blob))
  }

  ghost predicate Safe(c: H.Call, h: Role, v: View) {
    Settled(c, h, v) || Quiet(c, h, v) || Covered(c, h, v) || AlmostCovered(c, h, v) || OfferOnly(c, h, v)
  }

  lemma SettledStays(c: H.Call, h: Role, v: View, w: View)
    requires Settled(c, h, v) && Moves(c, h, v, w)
    ensures Settled(c, h, w)
  {
  }

  lemma QuietStays(c: H.Call, h: Role, v: View, w: View)
    requires H.WellFormed(c) && Quiet(c, h, v) && Moves(c, h, v, w)
    ensures Safe(c, h, w)
  {
    if Hears(c, v, w) {
      QuietHears(c, h, v, w);
    } else if Asks(v, w) {
      assert Quiet(c, h, w);
    } else if Acts(v, w) {
      assert Settled(c, h, w) || Quiet(c, h, w);
    } else {
      assert Quiet(c, h, w);
    }
  }

  lemma QuietHears(c: H.Call, h: Role, v: View, w: View)
    requires H.WellFormed(c) && Quiet(c, h, v) && Hears(c, v, w)
    ensures Safe(c, h, w)
  {
    if v.reply.value.Found? {
      H.ApplyNext(c, h, v.side, v.reply.value.blob, v.cursor);
      assert Quiet(c, h, w);
    } else if v.reply.value.Done? {
      assert Settled(c, h, w);
    } else {
      assert Quiet(c, h, w);
    }
  }

  lemma EndsStay(c: H.Call, h: Role, v: View, w: View)
    requires H.WellFormed(c) && OnlyEnds(c, h, v)
    requires Loses(v, w) || PeerPublishes(c, h, v, w) || PeerFinishes(c, h, v, w) || PeerMoves(v, w)
    ensures OnlyEnds(c, h, w) && w.side == v.side && w.cursor == v.cursor && w.reply == v.reply
  {
    if PeerPublishes(c, h, v, w) {
      assert H.Script(c, D.Peer(h))[v.peer.published] == H.EndOfCandidates;
    }
  }

  lemma CoveredStays(c: H.Call, h: Role, v: View, w: View)
    requires H.WellFormed(c) && Covered(c, h, v) && Moves(c, h, v, w)
    ensures Safe(c, h, w)
  {
    if Hears(c, v, w) || Asks(v, w) || Acts(v, w) {
      assert Settled(c, h, w) || Covered(c, h, w);
    } else {
      EndsStay(c, h, v, w);
      assert Covered(c, h, w);
    }
  }

  lemma AlmostCoveredStays(c: H.Call, h: Role, v: View, w: View)
    requires H.WellFormed(c) && AlmostCovered(c, h, v) && Moves(c, h, v, w)
    ensures Safe(c, h, w)
  {
    if Hears(c, v, w) {
      H.ApplyNext(c, h, v.side, v.reply.value.blob, v.cursor);
      assert Covered(c, h, w);
    } else if Acts(v, w) {
      assert Settled(c, h, w);
    } else {
      EndsStay(c, h, v, w);
      assert AlmostCovered(c, h, w);
    }
  }

  lemma OfferOnlyStays(c: H.Call, h: Role, v: View, w: View)
    requires H.WellFormed(c) && OfferOnly(c, h, v) && Moves(c, h, v, w)
    ensures Safe(c, h, w)
  {
    if Hears(c, v, w) {
      OfferOnlyHears(c, h, v, w);
    } else if Acts(v, w) {
      assert Settled(c, h, w) || OfferOnly(c, h, w);
    } else {
      assert OfferOnly(c, h, w);
    }
  }

  lemma OfferOnlyHears(c: H.Call, h: Role, v: View, w: View)
    requires H.WellFormed(c) && OfferOnly(c, h, v) && Hears(c, v, w)
    ensures Safe(c, h, w)
  {
    if v.reply.value.Found? {
      var k :| 0 <= k < |H.Script(c, Offerer)| && v.reply.value.blob == c.encode(H.Script(c, Offerer)[k]);
      assert k < 2 && c.decode(v.reply.value.blob) == Some(H.Script(c, Offerer)[k]);
    }
    assert Settled(c, h, w) || OfferOnly(c, h, w);
  }

  lemma {:induction false} SafeForGood(c: H.Call, s: H.State, more: seq<L.Step>, h: Role)
    requires H.WellFormed(c) && Safe(c, h, ViewOf(c, s, h))
    ensures Safe(c, h, ViewOf(c, L.From(c, s, more), h))
    decreases |more|
  {
    if more != [] {
      var t := L.Next(c, s, more[0]);
      var v, w := ViewOf(c, s, h), ViewOf(c, t, h);
      StepMoves(c, s, more[0], h);
      SafeStays(c, h, v, w);
      SafeForGood(c, t, more[1..], h);
    }
  }

  lemma SafeStays(c: H.Call, h: Role, v: View, w: View)
    requires H.WellFormed(c) && Safe(c, h, v) && Moves(c, h, v, w)
    ensures Safe(c, h, w)
  {
    if Settled(c, h, v) {
      SettledStays(c, h, v, w);
    } else if Quiet(c, h, v) {
      QuietStays(c, h, v, w);
    } else if Covered(c, h, v) {
      CoveredStays(c, h, v, w);
    } else if AlmostCovered(c, h, v) {
      AlmostCoveredStays(c, h, v, w);
    } else {
      OfferOnlyStays(c, h, v, w);
    }
  }

  /** In a handshake whose room has been kept so far, a half that cannot skip is safe. */
  lemma SafeUnlessCanSkip(c: H.Call, s: H.State, h: Role)
    requires H.WellFormed(c) && H.Inv(c, s) && !CanSkip(c, s, h)
    ensures Safe(c, h, ViewOf(c, s, h))
  {
    var v, p := ViewOf(c, s, h), D.Peer(h);
    var n := |H.Candidates(c, p)|;
    if H.Final(v.side) {
      assert Settled(c, h, v);
    } else if !Unfinished(v.peer) {
      assert Quiet(c, h, v);
    } else if n < v.cursor {
      CoveredNow(c, s, h);
    } else if n < Handed(D.Of(s.mail, h)) {
      AlmostCoveredNow(c, s, h);
    } else {
      OfferOnlyNow(c, s, h);
    }
  }

  lemma CoveredNow(c: H.Call, s: H.State, h: Role)
    requires H.WellFormed(c) && H.Inv(c, s) && !H.Final(H.SideOf(s, h))
    requires |H.Candidates(c, D.Peer(h))| < D.Of(s.mail, h).cursor
    ensures Covered(c, h, ViewOf(c, s, h))
  {
    var p, n := D.Peer(h), |H.Candidates(c, D.Peer(h))|;
    assert H.Script(c, p)[n + 1] == H.EndOfCandidates;
  }

  lemma AlmostCoveredNow(c: H.Call, s: H.State, h: Role)
    requires H.WellFormed(c) && H.Inv(c, s) && !H.Final(H.SideOf(s, h))
    requires D.Of(s.mail, h).cursor == |H.Candidates(c, D.Peer(h))|
    requires Handed(D.Of(s.mail, h)) == D.Of(s.mail, h).cursor + 1
    ensures AlmostCovered(c, h, ViewOf(c, s, h))
  {
    var p, n := D.Peer(h), |H.Candidates(c, D.Peer(h))|;
    assert H.Script(c, p)[n + 1] == H.EndOfCandidates;
  }

  lemma OfferOnlyNow(c: H.Call, s: H.State, h: Role)
    requires H.WellFormed(c) && H.Inv(c, s) && !H.Final(H.SideOf(s, h))
    requires h.Answerer? && c.offererCandidates == [] && Handed(D.Of(s.mail, h)) == 0
    ensures OfferOnly(c, h, ViewOf(c, s, h))
  {
    var v := ViewOf(c, s, h);
    forall i | 0 <= i < |v.blobs|
      ensures InScript(c, h, v.blobs[i])
    {
      assert v.blobs[i] == c.encode(H.Script(c, Offerer)[i]);
    }
  }

  // ----- halves that can -----

  ghost predicate Wiped(c: H.Call, s: H.State, role: Role) {
    && c.setting.room in s.mail.store.rooms
    && D.Posted(s.mail.store, c.setting.room, role) == [] && !D.Frozen(s.mail.store, c.setting.room, role)
  }

  /** Somebody's fetch, which creates the room if it is not there. */
  function Touch(c: H.Call, role: Role): L.Step {
    L.Within(H.Other(FetchFrom(c.setting.room, role, 0), 0))
  }

  lemma TouchCreates(c: H.Call, s: H.State, role: Role)
    ensures var u := L.Next(c, s, Touch(c, role));
      && u == s.(mail := s.mail.(store := u.mail.store)) && c.setting.room in u.mail.store.rooms
      && D.Posted(u.mail.store, c.setting.room, role) == D.Posted(s.mail.store, c.setting.room, role)
      && D.Frozen(u.mail.store, c.setting.room, role) == D.Frozen(s.mail.store, c.setting.room, role)
  {
  }

  /** The room is removed and created anew. */
  lemma Wipe(c: H.Call, s: H.State, role: Role) returns (more: seq<L.Step>)
    ensures var u := L.From(c, s, more); u == s.(mail := s.mail.(store := u.mail.store)) && Wiped(c, u, role)
  {
    var lose := L.Lose(DeleteRoom(c.setting.room), 0);
    var t := L.Next(c, s, lose);
    assert c.setting.room !in t.mail.store.rooms;
    TouchCreates(c, t, role);
    more := [lose] + [Touch(c, role)];
    L.FromOne(c, s, lose);
    L.FromOne(c, t, Touch(c, role));
    L.FromAppend(c, s, [lose], [Touch(c, role)]);
  }

  /** On a wiped mailbox the half's next act is accepted. */
  lemma ActOnWiped(c: H.Call, s: H.State, role: Role)
    requires Wiped(c, s, role) && H.SideOf(s, role).stage.Publishing?
    ensures var side, u := H.SideOf(s, role), H.ActOf(c, s, role, 0);
      && u == H.WithSide(s.(mail := s.mail.(store := u.mail.store)), role, H.SideOf(u, role))
      && (if side.published < |H.Script(c, role)| then H.SideOf(u, role) == side.(published := side.published + 1)
          else H.SideOf(u, role) == side.(finished := true, stage := H.Consuming)
               && D.Posted(u.mail.store, c.setting.room, role) == []
               && D.Frozen(u.mail.store, c.setting.room, role))
  {
  }

  /** With the room removed before each of its acts, a half publishes all it has left and leaves an empty mailbox. */
  lemma {:induction false} PublishInPieces(c: H.Call, s: H.State, role: Role) returns (more: seq<L.Step>)
    requires H.SideOf(s, role).stage.Publishing?
    ensures var u := L.From(c, s, more); var side := H.SideOf(u, role);
      && u == H.WithSide(s.(mail := s.mail.(store := u.mail.store)), role, side)
      && side == H.SideOf(s, role).(published := side.published, finished := true, stage := H.Consuming)
      && D.Posted(u.mail.store, c.setting.room, role) == [] && D.Frozen(u.mail.store, c.setting.room, role)
    decreases |H.Script(c, role)| - H.SideOf(s, role).published
  {
    var act := L.Within(H.Act(role, 0));
    var wipe := Wipe(c, s, role);
    var t := L.From(c, s, wipe);
    ActOnWiped(c, t, role);
    L.FromOne(c, t, act);
    L.FromAppend(c, s, wipe, [act]);
    more := wipe + [act];
    if H.SideOf(s, role).published < |H.Script(c, role)| {
      var rest := PublishInPieces(c, L.From(c, s, more), role);
      L.FromAppend(c, s, more, rest);
      more := more + rest;
    }
  }

  /** The half asks, finds the peer's mailbox done and empty, and is through. */
  lemma FindsNothing(c: H.Call, s: H.State, h: Role) returns (more: seq<L.Step>)
    requires H.SideOf(s, h).stage.Consuming? && D.Of(s.mail, h).reply.None?
    requires D.Posted(s.mail.store, c.setting.room, D.Peer(h)) == []
    requires D.Frozen(s.mail.store, c.setting.room, D.Peer(h))
    ensures H.SideOf(L.From(c, s, more), h) == H.SideOf(s, h).(stage := H.Connecting)
  {
    var ask, take := L.Within(H.Fetched(h, false, 0)), L.Within(H.Take(h));
    var ss := D.Of(s.mail, h);
    D.FetchOnlyLooks(s.mail.store, c.setting.room, D.Peer(h), ss.cursor, 0, h);
    var t := L.Next(c, s, ask);
    assert D.Of(t.mail, h).reply == Some(Done) && H.SideOf(t, h) == H.SideOf(s, h);
    more := [ask] + [take];
    L.FromOne(c, s, ask);
    L.FromOne(c, t, take);
    L.FromAppend(c, s, [ask], [take]);
  }

  /** Both halves are past the offer, nothing is on its way to the half, and it does not have everything. */
  ghost predicate Poised(c: H.Call, s: H.State, h: Role) {
    && (H.SideOf(s, h).stage.Publishing? || H.SideOf(s, h).stage.Consuming?)
    && H.SideOf(s, D.Peer(h)).stage.Publishing? && D.Of(s.mail, h).reply.None?
    && !Complete(c, h, H.SideOf(s, h))
  }

  /** Both publish what they have left, in pieces, and the half finds nothing more. */
  lemma SkipsWhenPoised(c: H.Call, s: H.State, h: Role) returns (more: seq<L.Step>)
    requires Poised(c, s, h)
    ensures Skipped(c, L.From(c, s, more), h)
  {
    var p := D.Peer(h);
    var own: seq<L.Step> := [];
    if H.SideOf(s, h).stage.Publishing? {
      own := PublishInPieces(c, s, h);
    }
    var t := L.From(c, s, own);
    var peers := PublishInPieces(c, t, p);
    var u := L.From(c, t, peers);
    assert H.SideOf(u, h) == H.SideOf(t, h) && D.Of(u.mail, h) == D.Of(s.mail, h);
    var rest := FindsNothing(c, u, h);
    more := own + (peers + rest);
    L.FromAppend(c, t, peers, rest);
    L.FromAppend(c, s, own, peers + rest);
  }

  /** A step, on a room that is kept, towards a state in which the half is poised. */
  ghost function NextStep(c: H.Call, s: H.State, h: Role): H.Step {
    if D.Of(s.mail, h).reply.Some? then H.Take(h)
    else if s.mail.answerer.reply.Some? then H.Take(Answerer)
    else if s.offerer.published != 0 then H.Fetched(Answerer, false, 0)
    else if c.setting.room in s.mail.store.rooms then H.Act(Offerer, 0)
    else H.Other(FetchFrom(c.setting.room, Offerer, 0), 0)
  }

  /** What is left to do before: the offer to be published, its room created, it to be fetched and taken. */
  ghost function Distance(c: H.Call, s: H.State, h: Role): nat {
    (if s.answerer.stage.AwaitingOffer? then
       32 + (if s.offerer.published == 0 then 16 else 0) + (if c.setting.room in s.mail.store.rooms then 0 else 8)
       + (if s.mail.answerer.reply == Some(Pending) then 4 else if s.mail.answerer.reply.None? then 2 else 0)
     else 0)
    + if D.Of(s.mail, h).reply.Some? then 1 else 0
  }

  ghost predicate Approaches(c: H.Call, s: H.State, h: Role) {
    && H.Enabled(c, s, NextStep(c, s, h))
    && var u := H.Perform(c, s, NextStep(c, s, h)); CanSkip(c, u, h) && Distance(c, u, h) < Distance(c, s, h)
  }

  lemma TakeApproaches(c: H.Call, s: H.State, h: Role, role: Role)
    requires H.WellFormed(c) && H.Inv(c, s) && CanSkip(c, s, h) && NextStep(c, s, h) == H.Take(role)
    requires D.Of(s.mail, role).reply.Some? && (role == h || s.answerer.stage.AwaitingOffer?)
    ensures Approaches(c, s, h)
  {
    var ss, side := D.Of(s.mail, role), H.SideOf(s, role);
    if ss.reply.value.Found? {
      H.TakenSignal(c, s, role);
      H.ApplyNext(c, role, side, ss.reply.value.blob, ss.cursor);
    }
  }

  lemma FetchApproaches(c: H.Call, s: H.State, h: Role)
    requires H.WellFormed(c) && H.Inv(c, s) && CanSkip(c, s, h) && s.answerer.stage.AwaitingOffer?
    requires NextStep(c, s, h) == H.Fetched(Answerer, false, 0)
    ensures Approaches(c, s, h)
  {
    assert 0 < |D.Posted(s.mail.store, c.setting.room, Offerer)|;
  }

  lemma PublishApproaches(c: H.Call, s: H.State, h: Role)
    requires H.WellFormed(c) && H.Inv(c, s) && CanSkip(c, s, h) && s.answerer.stage.AwaitingOffer?
    requires NextStep(c, s, h) == H.Act(Offerer, 0)
    ensures Approaches(c, s, h)
  {
    assert D.Posted(s.mail.store, c.setting.room, Offerer) == [];
    assert Wiped(c, s, Offerer);
    ActOnWiped(c, s, Offerer);
  }

  lemma TouchApproaches(c: H.Call, s: H.State, h: Role)
    requires H.WellFormed(c) && H.Inv(c, s) && CanSkip(c, s, h) && s.answerer.stage.AwaitingOffer?
    requires NextStep(c, s, h).Other?
    ensures Approaches(c, s, h)
  {
    TouchCreates(c, s, Offerer);
  }

  lemma NextStepApproaches(c: H.Call, s: H.State, h: Role)
    requires H.WellFormed(c) && H.Inv(c, s) && CanSkip(c, s, h)
    requires D.Of(s.mail, h).reply.Some? || s.answerer.stage.AwaitingOffer?
    ensures Approaches(c, s, h)
  {
    match NextStep(c, s, h)
    case Take(role) => TakeApproaches(c, s, h, role);
    case Fetched(_, _, _) => FetchApproaches(c, s, h);
    case Act(_, _) => PublishApproaches(c, s, h);
    case Other(_, _) => TouchApproaches(c, s, h);
  }

  lemma PoisedNow(c: H.Call, s: H.State, h: Role)
    requires H.WellFormed(c) && H.Inv(c, s) && CanSkip(c, s, h)
    requires D.Of(s.mail, h).reply.None? && !s.answerer.stage.AwaitingOffer?
    ensures Poised(c, s, h)
  {
    var side, n := H.SideOf(s, h), D.Of(s.mail, h).cursor;
    assert H.Applied(c, D.Peer(h), side, n);
    assert 0 < n ==> |side.added| == n - 1;
  }

  lemma {:induction false} ReachesSkip(c: H.Call, s: H.State, h: Role) returns (more: seq<L.Step>)
    requires H.WellFormed(c) && H.Inv(c, s) && CanSkip(c, s, h)
    ensures SkipsIn(c, s, more, h)
    decreases Distance(c, s, h)
  {
    if D.Of(s.mail, h).reply.None? && !s.answerer.stage.AwaitingOffer? {
      PoisedNow(c, s, h);
      more := SkipsWhenPoised(c, s, h);
    } else {
      NextStepApproaches(c, s, h);
      var step := NextStep(c, s, h);
      H.StepKeepsInv(c, s, step);
      var rest := ReachesSkip(c, H.Perform(c, s, step), h);
      more := [L.Within(step)] + rest;
      L.FromOne(c, s, L.Within(step));
      L.FromAppend(c, s, [L.Within(step)], rest);
    }
  }

  ghost predicate SkipsIn(c: H.Call, s: H.State, more: seq<L.Step>, h: Role) { Skipped(c, L.From(c, s, more), h) }

  /**
   If the room may be deleted or evicted from some moment on, a half can finish signaling without the peer's description
   or without all its candidates exactly when at that moment it is still at work, its peer has yet to finish publishing,
   and what it has been handed does not cover them.
   */
  lemma HalfCanSkipIff(c: H.Call, steps: seq<H.Step>, h: Role)
    requires H.WellFormed(c)
    ensures (exists more :: SkipsIn(c, H.After(c, steps), more, h)) <==> CanSkip(c, H.After(c, steps), h)
  {
    var s := H.After(c, steps);
    H.RunKeepsInv(c, steps);
    if CanSkip(c, s, h) {
      var more := ReachesSkip(c, s, h);
      assert SkipsIn(c, s, more, h);
    } else {
      SafeUnlessCanSkip(c, s, h);
      forall more
        ensures !SkipsIn(c, s, more, h)
      {
        SafeForGood(c, s, more, h);
      }
    }
  }
}
