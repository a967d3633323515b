/**
 The offer/answer handshake: two peers, each running its half over one room of the signaling server, in every
 interleaving with each other, with "not yet" answers, and with whatever else is asked of the server.
 */
module Handshake {
  import opened Collections
  import opened MailboxStore
  import opened MailboxClient
  import D = MailboxDelivery

  type Sdp = string

  datatype Candidate = Candidate(text: string, sdpMid: Option<string>, sdpMLineIndex: Option<nat>)

  datatype Signal =
    | OfferSignal(sdp: Sdp)
    | AnswerSignal(sdp: Sdp)
    | CandidateSignal(candidate: Candidate)
    | EndOfCandidates

  datatype Error = ExpectedOffer | UnexpectedSecondOffer | Undecodable | Rejected | Broken

  /** Where a half of the handshake stands; `Connecting` has finished signaling. */
  datatype Stage = AwaitingOffer | Publishing | Consuming | Connecting | GaveUp(error: Error)

  /** `remote` and `added` are what the half has given its peer connection. */
  datatype Side = Side(stage: Stage, published: nat, finished: bool, remote: Option<Sdp>, added: seq<Candidate>)

  /** One call: the room, the server, what the two peers' stacks produce, and the blob schema. */
  datatype Call = Call(
    setting: D.Setting, offer: Sdp, answer: Sdp, offererCandidates: seq<Candidate>, answererCandidates: seq<Candidate>,
    encode: Signal -> Blob, decode: Blob -> Option<Signal>)

  datatype State = State(mail: D.State, offerer: Side, answerer: Side)

  /** `Break` is any failure of the stack or the network; after an `Act` that landed, its response was lost. */
  datatype Step =
    | Other(request: Request, now: nat)
    | Act(role: Role, now: nat)
    | Fetched(role: Role, early: bool, now: nat)
    | Take(role: Role)
    | Break(role: Role)

  /** A fresh room, and blobs that decode to the signal they encode. */
  ghost predicate WellFormed(c: Call) {
    && c.setting.room !in c.setting.store.rooms
    && forall signal :: c.decode(c.encode(signal)) == Some(signal)
  }

  function SideOf(s: State, role: Role): Side { match role case Offerer => s.offerer case Answerer => s.answerer }

  function WithSide(s: State, role: Role, side: Side): State {
    match role case Offerer => s.(offerer := side) case Answerer => s.(answerer := side)
  }

  function Description(c: Call, role: Role): Sdp { match role case Offerer => c.offer case Answerer => c.answer }

  function Candidates(c: Call, role: Role): seq<Candidate> {
    match role case Offerer => c.offererCandidates case Answerer => c.answererCandidates
  }

  /** What a half publishes: its description, its candidates, and the marker after them. */
  function Script(c: Call, role: Role): (signals: seq<Signal>)
    ensures |signals| == |Candidates(c, role)| + 2
  {
    var candidates := Candidates(c, role);
    [match role case Offerer => OfferSignal(c.offer) case Answerer => AnswerSignal(c.answer)]
    + seq(|candidates|, i requires 0 <= i < |candidates| => CandidateSignal(candidates[i]))
    + [EndOfCandidates]
  }

  function Initial(c: Call): State {
    State(D.Initial(c.setting), Side(Publishing, 0, false, None, []), Side(AwaitingOffer, 0, false, None, []))
  }

  /** The half's next publish, or its `done`. */
  function ActOf(c: Call, s: State, role: Role, now: nat): State {
    var side, room, limits := SideOf(s, role), c.setting.room, c.setting.limits;
    if !side.stage.Publishing? then s
    else if side.published < |Script(c, role)| then
      var (store, result) := Publish(s.mail.store, limits, room, role, c.encode(Script(c, role)[side.published]), now);
      WithSide(s.(mail := s.mail.(store := store)), role,
               if result.Seq? then side.(published := side.published + 1) else side.(stage := GaveUp(Rejected)))
    else
      var (store, _) := MarkDone(s.mail.store, room, role, now);
      WithSide(s.(mail := s.mail.(store := store)), role, side.(finished := true, stage := Consuming))
  }

  /** What a half does with what `recv` returned. */
  function Apply(c: Call, side: Side, received: Received): Side {
    match received
    case Got(blob) =>
      (match (side.stage, c.decode(blob))
       case (_, None) => side.(stage := GaveUp(Undecodable))
       case (AwaitingOffer, Some(OfferSignal(sdp))) => side.(stage := Publishing, remote := Some(sdp))
       case (AwaitingOffer, Some(_)) => side.(stage := GaveUp(ExpectedOffer))
       case (_, Some(AnswerSignal(sdp))) => side.(remote := Some(sdp))
       case (_, Some(OfferSignal(_))) => side.(stage := GaveUp(UnexpectedSecondOffer))
       case (_, Some(CandidateSignal(candidate))) => side.(added := side.added + [candidate])
       case (_, Some(EndOfCandidates)) => side)
    case Nothing => side.(stage := if side.stage.AwaitingOffer? then GaveUp(ExpectedOffer) else Connecting)
    case _ => side
  }

  predicate Receives(side: Side) { side.stage.AwaitingOffer? || side.stage.Consuming? }

  predicate Final(side: Side) { side.stage.Connecting? || side.stage.GaveUp? }

  /** Other users of the server leave the room and its mailboxes alone. */
  predicate Elsewhere(c: Call, s: State, request: Request, now: nat) {
    && !Removes(s.mail.store, c.setting.limits, request, now, c.setting.room)
    && (request.PublishTo? || request.MarkDoneOf? ==> request.room != c.setting.room)
  }

  predicate Enabled(c: Call, s: State, step: Step) {
    match step
    case Other(request, now) => Elsewhere(c, s, request, now)
    case Act(role, _) => SideOf(s, role).stage.Publishing?
    case Fetched(role, _, _) => Receives(SideOf(s, role)) && D.Of(s.mail, role).reply.None?
    case Take(role) => Receives(SideOf(s, role)) && D.Of(s.mail, role).reply.Some?
    case Break(role) => !Final(SideOf(s, role))
  }

  ghost function Perform(c: Call, s: State, step: Step): State
    requires Enabled(c, s, step)
  {
    match step
    case Other(request, now) => s.(mail := D.Perform(c.setting, s.mail, D.Request(request, now)))
    case Act(role, now) => ActOf(c, s, role, now)
    case Fetched(role, early, now) => s.(mail := D.Perform(c.setting, s.mail, D.Answer(role, early, now)))
    case Take(role) =>
      var ss := D.Of(s.mail, role);
      var side := Apply(c, SideOf(s, role), Verdict(ss.host, Wire(ss.reply.value)));
      WithSide(s.(mail := D.Perform(c.setting, s.mail, D.Take(role))), role, side)
    case Break(role) => WithSide(s, role, SideOf(s, role).(stage := GaveUp(Broken)))
  }

  /** The state after `steps`; a step that cannot happen does nothing. */
  ghost function After(c: Call, steps: seq<Step>): State {
    if steps == [] then Initial(c)
    else
      var s := After(c, steps[..|steps| - 1]);
      if Enabled(c, s, steps[|steps| - 1]) then Perform(c, s, steps[|steps| - 1]) else s
  }

  // ----- the invariant -----

  /** The mailbox holds exactly the first `n` signals of the script. */
  ghost predicate Holds(c: Call, role: Role, blobs: seq<Blob>, n: nat) {
    && n <= |Script(c, role)| && |blobs| == n
    && forall i :: 0 <= i < n ==> blobs[i] == c.encode(Script(c, role)[i])
  }

  /** What the first `n` signals of `peer` leave a half with. */
  ghost predicate Applied(c: Call, peer: Role, side: Side, n: nat) {
    && side.remote == (if n == 0 then None else Some(Description(c, peer)))
    && side.added == (if n == 0 then [] else if n - 1 <= |Candidates(c, peer)| then Candidates(c, peer)[..n - 1]
                      else Candidates(c, peer))
  }

  /** Enough of it for a half that has given up. */
  ghost predicate PartlyApplied(c: Call, peer: Role, side: Side) {
    && side.added <= Candidates(c, peer)
    && (side.remote.Some? ==> side.remote == Some(Description(c, peer)))
    && (side.added != [] ==> side.remote.Some?)
  }

  ghost predicate StageInv(c: Call, role: Role, side: Side, ss: D.Session) {
    match side.stage
    case AwaitingOffer => role.Answerer? && ss.cursor == 0 && side.published == 0
    case Publishing => ss.cursor == (if role.Offerer? then 0 else 1) && ss.reply.None?
    case Consuming => role.Answerer? ==> 0 < ss.cursor
    case Connecting => ss.ended && ss.reply.None?
    case GaveUp(error) => error.Rejected? || error.Broken?
  }

  ghost predicate SideInv(c: Call, store: Store, role: Role, side: Side, ss: D.Session) {
    var room := c.setting.room;
    && Holds(c, role, D.Posted(store, room, role), side.published)
    && D.Frozen(store, room, role) == side.finished
    && (side.finished ==> side.published == |Script(c, role)|)
    && (!side.stage.GaveUp? ==> (side.finished <==> side.stage.Consuming? || side.stage.Connecting?))
    && StageInv(c, role, side, ss)
    && (if side.stage.GaveUp? then PartlyApplied(c, D.Peer(role), side)
        else Applied(c, D.Peer(role), side, ss.cursor) && (ss.ended ==> side.stage.Connecting?))
  }

  ghost predicate Inv(c: Call, s: State) {
    && D.Inv(c.setting, s.mail)
    && SideInv(c, s.mail.store, Offerer, s.offerer, s.mail.offerer)
    && SideInv(c, s.mail.store, Answerer, s.answerer, s.mail.answerer)
  }

  /** The two mailboxes hold the same in both stores. */
  ghost predicate SameMail(c: Call, s: Store, u: Store, role: Role) {
    D.Posted(s, c.setting.room, role) == D.Posted(u, c.setting.room, role)
    && D.Frozen(s, c.setting.room, role) == D.Frozen(u, c.setting.room, role)
  }

  lemma OtherKeepsMail(c: Call, s: State, request: Request, now: nat, role: Role)
    requires Elsewhere(c, s, request, now)
    ensures SameMail(c, s.mail.store, Serve(s.mail.store, c.setting.limits, request, now), role)
  {
    match request
    case PublishTo(_, _, _) =>
    case MarkDoneOf(_, _) =>
    case FetchFrom(_, _, _) =>
    case DeleteRoom(_) =>
    case EvictRooms =>
  }

  /** A publish appends to its own mailbox alone, unless it is refused. */
  lemma PublishAppends(s: Store, limits: Limits, room: RoomId, role: Role, blob: Blob, now: nat)
    ensures var (u, result) := Publish(s, limits, room, role, blob, now); var peer := D.Peer(role);
      && D.Posted(u, room, role) == D.Posted(s, room, role) + (if result.Seq? then [blob] else [])
      && D.Frozen(u, room, role) == D.Frozen(s, room, role)
      && D.Posted(u, room, peer) == D.Posted(s, room, peer) && D.Frozen(u, room, peer) == D.Frozen(s, room, peer)
  {
  }

  /** A `done` freezes its own mailbox alone. */
  lemma DoneFreezes(s: Store, room: RoomId, role: Role, now: nat)
    ensures var (u, _) := MarkDone(s, room, role, now); var peer := D.Peer(role);
      && D.Posted(u, room, role) == D.Posted(s, room, role) && D.Frozen(u, room, role)
      && D.Posted(u, room, peer) == D.Posted(s, room, peer) && D.Frozen(u, room, peer) == D.Frozen(s, room, peer)
  {
  }

  /** What a half's own step on its mailbox keeps of both halves, when it says what became of each mailbox. */
  lemma MailGrows(c: Call, s: State, u: State, role: Role)
    requires Inv(c, s) && u == WithSide(s.(mail := s.mail.(store := u.mail.store)), role, SideOf(u, role))
    requires SameMail(c, s.mail.store, u.mail.store, D.Peer(role))
    requires D.Posted(s.mail.store, c.setting.room, role) <= D.Posted(u.mail.store, c.setting.room, role)
    requires !D.Frozen(s.mail.store, c.setting.room, role)
    requires SideInv(c, u.mail.store, role, SideOf(u, role), D.Of(s.mail, role))
    ensures Inv(c, u)
  {
    D.SessionInvGrows(s.mail.store, u.mail.store, c.setting.room, Offerer, s.mail.offerer);
    D.SessionInvGrows(s.mail.store, u.mail.store, c.setting.room, Answerer, s.mail.answerer);
  }

  lemma HoldsOneMore(c: Call, role: Role, blobs: seq<Blob>, n: nat)
    requires Holds(c, role, blobs, n) && n < |Script(c, role)|
    ensures Holds(c, role, blobs + [c.encode(Script(c, role)[n])], n + 1)
  {
  }

  /** The half's own part of the invariant after a publish. */
  lemma PublishedSide(c: Call, s: State, role: Role, now: nat)
    requires WellFormed(c) && Inv(c, s) && Enabled(c, s, Act(role, now))
    requires SideOf(s, role).published < |Script(c, role)|
    ensures var u := ActOf(c, s, role, now); SideInv(c, u.mail.store, role, SideOf(u, role), D.Of(s.mail, role))
  {
    var side, room, ss := SideOf(s, role), c.setting.room, D.Of(s.mail, role);
    var blob := c.encode(Script(c, role)[side.published]);
    var (store, result) := Publish(s.mail.store, c.setting.limits, room, role, blob, now);
    PublishAppends(s.mail.store, c.setting.limits, room, role, blob, now);
    if result.Seq? {
      HoldsOneMore(c, role, D.Posted(s.mail.store, room, role), side.published);
      assert SideInv(c, store, role, side.(published := side.published + 1), ss);
    } else {
      AppliedIsPart(c, D.Peer(role), side, ss.cursor);
      assert D.Posted(store, room, role) == D.Posted(s.mail.store, room, role);
      assert SideInv(c, store, role, side.(stage := GaveUp(Rejected)), ss);
    }
  }

  lemma PublishKeepsInv(c: Call, s: State, role: Role, now: nat)
    requires WellFormed(c) && Inv(c, s) && Enabled(c, s, Act(role, now))
    requires SideOf(s, role).published < |Script(c, role)|
    ensures Inv(c, ActOf(c, s, role, now))
  {
    PublishAppends(s.mail.store, c.setting.limits, c.setting.room, role,
                   c.encode(Script(c, role)[SideOf(s, role).published]), now);
    PublishedSide(c, s, role, now);
    MailGrows(c, s, ActOf(c, s, role, now), role);
  }

  lemma DoneKeepsInv(c: Call, s: State, role: Role, now: nat)
    requires WellFormed(c) && Inv(c, s) && Enabled(c, s, Act(role, now))
    requires SideOf(s, role).published == |Script(c, role)|
    ensures Inv(c, ActOf(c, s, role, now))
  {
    var room, u := c.setting.room, ActOf(c, s, role, now);
    DoneFreezes(s.mail.store, room, role, now);
    D.SessionInvGrows(s.mail.store, u.mail.store, room, Offerer, s.mail.offerer);
    D.SessionInvGrows(s.mail.store, u.mail.store, room, Answerer, s.mail.answerer);
  }

  lemma ActKeepsInv(c: Call, s: State, role: Role, now: nat)
    requires WellFormed(c) && Inv(c, s) && Enabled(c, s, Act(role, now))
    ensures Inv(c, ActOf(c, s, role, now))
  {
    if SideOf(s, role).published < |Script(c, role)| {
      PublishKeepsInv(c, s, role, now);
    } else {
      DoneKeepsInv(c, s, role, now);
    }
  }

  /** The blob a half takes is the encoding of the signal its peer published at the cursor. */
  lemma TakenSignal(c: Call, s: State, role: Role)
    requires WellFormed(c) && Inv(c, s)
    requires var ss := D.Of(s.mail, role); ss.reply.Some? && ss.reply.value.Found?
    ensures var ss := D.Of(s.mail, role);
      && ss.cursor < |Script(c, D.Peer(role))|
      && c.decode(ss.reply.value.blob) == Some(Script(c, D.Peer(role))[ss.cursor])
  {
  }

  /** One more signal of the peer's script, applied by a half that has consumed the ones before it. */
  lemma ApplyNext(c: Call, role: Role, side: Side, blob: Blob, n: nat)
    requires n < |Script(c, D.Peer(role))| && c.decode(blob) == Some(Script(c, D.Peer(role))[n])
    requires Applied(c, D.Peer(role), side, n)
    requires (side.stage.AwaitingOffer? && role.Answerer? && n == 0)
          || (side.stage.Consuming? && (role.Answerer? ==> 0 < n))
    ensures var after := Apply(c, side, Got(blob));
      && after == side.(stage := after.stage, remote := after.remote, added := after.added)
      && after.stage == (if side.stage.AwaitingOffer? then Publishing else Consuming)
      && Applied(c, D.Peer(role), after, n + 1)
  {
    var peer := D.Peer(role);
    var candidates := Candidates(c, peer);
    if 0 < n <= |candidates| {
      assert Script(c, peer)[n] == CandidateSignal(candidates[n - 1]);
      assert candidates[..n] == candidates[..n - 1] + [candidates[n - 1]];
    }
  }

  /** The half that takes an answer has its own part of the invariant afterwards. */
  lemma TakenSide(c: Call, s: State, role: Role)
    requires WellFormed(c) && Inv(c, s) && Enabled(c, s, Take(role))
    ensures var u := Perform(c, s, Take(role));
      SideInv(c, u.mail.store, role, SideOf(u, role), D.Of(u.mail, role))
  {
    if D.Of(s.mail, role).reply.value.Found? {
      TakenBlob(c, s, role);
    } else {
      TakenEnd(c, s, role);
    }
  }

  lemma TakenBlob(c: Call, s: State, role: Role)
    requires WellFormed(c) && Inv(c, s) && Enabled(c, s, Take(role)) && D.Of(s.mail, role).reply.value.Found?
    ensures var u := Perform(c, s, Take(role));
      SideInv(c, u.mail.store, role, SideOf(u, role), D.Of(u.mail, role))
  {
    var ss, side := D.Of(s.mail, role), SideOf(s, role);
    TakenSignal(c, s, role);
    ApplyNext(c, role, side, ss.reply.value.blob, ss.cursor);
    assert D.Of(Perform(c, s, Take(role)).mail, role).cursor == ss.cursor + 1;
  }

  lemma TakenEnd(c: Call, s: State, role: Role)
    requires WellFormed(c) && Inv(c, s) && Enabled(c, s, Take(role)) && !D.Of(s.mail, role).reply.value.Found?
    ensures var u := Perform(c, s, Take(role));
      SideInv(c, u.mail.store, role, SideOf(u, role), D.Of(u.mail, role))
  {
  }

  lemma TakeKeepsInv(c: Call, s: State, role: Role)
    requires WellFormed(c) && Inv(c, s) && Enabled(c, s, Take(role))
    ensures Inv(c, Perform(c, s, Take(role)))
  {
    D.StepKeepsInv(c.setting, s.mail, D.Take(role));
    TakenSide(c, s, role);
  }

  lemma FetchKeepsInv(c: Call, s: State, role: Role, early: bool, now: nat)
    requires Inv(c, s) && Enabled(c, s, Fetched(role, early, now))
    ensures Inv(c, Perform(c, s, Fetched(role, early, now)))
  {
    D.StepKeepsInv(c.setting, s.mail, D.Answer(role, early, now));
    var n := D.Of(s.mail, role).cursor;
    D.FetchOnlyLooks(s.mail.store, c.setting.room, D.Peer(role), n, now, Offerer);
    D.FetchOnlyLooks(s.mail.store, c.setting.room, D.Peer(role), n, now, Answerer);
  }

  lemma StepKeepsInv(c: Call, s: State, step: Step)
    requires WellFormed(c) && Inv(c, s) && Enabled(c, s, step)
    ensures Inv(c, Perform(c, s, step))
  {
    match step
    case Other(request, now) =>
      D.StepKeepsInv(c.setting, s.mail, D.Request(request, now));
      OtherKeepsMail(c, s, request, now, Offerer);
      OtherKeepsMail(c, s, request, now, Answerer);
    case Act(role, now) => ActKeepsInv(c, s, role, now);
    case Fetched(role, early, now) => FetchKeepsInv(c, s, role, early, now);
    case Take(role) => TakeKeepsInv(c, s, role);
    case Break(role) => AppliedIsPart(c, D.Peer(role), SideOf(s, role), D.Of(s.mail, role).cursor);
  }

  lemma AppliedIsPart(c: Call, peer: Role, side: Side, n: nat)
    requires Applied(c, peer, side, n)
    ensures PartlyApplied(c, peer, side)
  {
  }

  lemma {:induction false} RunKeepsInv(c: Call, steps: seq<Step>)
    requires WellFormed(c)
    ensures Inv(c, After(c, steps))
  {
    if steps != [] {
      var before, step := steps[..|steps| - 1], steps[|steps| - 1];
      RunKeepsInv(c, before);
      if Enabled(c, After(c, before), step) {
        StepKeepsInv(c, After(c, before), step);
      }
    }
  }

  // ----- safety -----

  /**
   In every interleaving each half gives its connection the peer's own description before any candidate, and then the
   peer's candidates, once each and in order.  It never meets a signal it did not expect: a half that gives up does so
   because a publish was refused or because its stack or the network failed.
   */
  lemma DescriptionThenCandidates(c: Call, steps: seq<Step>, role: Role)
    requires WellFormed(c)
    ensures var side := SideOf(After(c, steps), role);
      && side.added <= Candidates(c, D.Peer(role))
      && (side.added != [] ==> side.remote == Some(Description(c, D.Peer(role))))
      && (side.stage.GaveUp? ==> side.stage.error.Rejected? || side.stage.error.Broken?)
  {
    RunKeepsInv(c, steps);
    var s := After(c, steps);
    if !SideOf(s, role).stage.GaveUp? {
      AppliedIsPart(c, D.Peer(role), SideOf(s, role), D.Of(s.mail, role).cursor);
    }
  }

  /** A half that finishes signaling has the peer's description and every candidate of it. */
  lemma FinishedHalvesHaveEverything(c: Call, steps: seq<Step>, role: Role)
    requires WellFormed(c) && SideOf(After(c, steps), role).stage.Connecting?
    ensures SideOf(After(c, steps), role).remote == Some(Description(c, D.Peer(role)))
    ensures SideOf(After(c, steps), role).added == Candidates(c, D.Peer(role))
  {
    RunKeepsInv(c, steps);
  }

  /**
   A publish or a `done` that landed though its response was lost is a run of the model: the half gives up with its blob
   in the mailbox, or the mailbox done, and everything above still holds.
   */
  lemma LandedThenLost(c: Call, s: State, role: Role, now: nat)
    requires WellFormed(c) && Inv(c, s) && Enabled(c, s, Act(role, now))
    requires !SideOf(Perform(c, s, Act(role, now)), role).stage.GaveUp?
    ensures var t, room := Perform(c, s, Act(role, now)), c.setting.room;
      && Enabled(c, t, Break(role))
      && var u := Perform(c, t, Break(role));
      && Inv(c, u) && SideOf(u, role).stage == GaveUp(Broken)
      && (var k := SideOf(s, role).published;
          if k < |Script(c, role)| then
            D.Posted(u.mail.store, room, role) ==
            D.Posted(s.mail.store, room, role) + [c.encode(Script(c, role)[k])]
          else D.Frozen(u.mail.store, room, role))
  {
    var t := Perform(c, s, Act(role, now));
    StepKeepsInv(c, s, Act(role, now));
    StepKeepsInv(c, t, Break(role));
    var k := SideOf(s, role).published;
    if k < |Script(c, role)| {
      PublishAppends(s.mail.store, c.setting.limits, c.setting.room, role, c.encode(Script(c, role)[k]), now);
    } else {
      DoneFreezes(s.mail.store, c.setting.room, role, now);
    }
  }

  // ----- progress -----

  ghost predicate Ready(reply: Option<Fetch>) { reply.Some? && !reply.value.Pending? }

  /** The steps a half still has to take. */
  ghost function Left(c: Call, role: Role, side: Side, ss: D.Session): int {
    if Final(side) then 0
    else
      |Script(c, role)| - side.published + (if side.finished then 0 else 1)
      + 2 * (|Script(c, D.Peer(role))| - ss.cursor) + 2 - (if Ready(ss.reply) then 1 else 0)
  }

  ghost function Total(c: Call, s: State): int {
    Left(c, Offerer, s.offerer, s.mail.offerer) + Left(c, Answerer, s.answerer, s.mail.answerer)
  }

  /** A step that only retries, or is somebody else's. */
  ghost predicate Idle(c: Call, s: State, step: Step) {
    match step
    case Other(_, _) => true
    case Fetched(role, early, _) =>
      early || Answer(s.mail.store, c.setting.room, D.Peer(role), D.Of(s.mail, role).cursor).Pending?
    case Take(role) => D.Of(s.mail, role).reply == Some(Pending)
    case _ => false
  }

  lemma LeftIsNatural(c: Call, s: State, role: Role)
    requires Inv(c, s)
    ensures 0 <= Left(c, role, SideOf(s, role), D.Of(s.mail, role))
    ensures !Final(SideOf(s, role)) ==> 0 < Left(c, role, SideOf(s, role), D.Of(s.mail, role))
  {
  }

  lemma ActProgresses(c: Call, s: State, role: Role, now: nat)
    requires WellFormed(c) && Inv(c, s) && Enabled(c, s, Act(role, now))
    ensures Total(c, Perform(c, s, Act(role, now))) < Total(c, s)
  {
    LeftIsNatural(c, s, role);
  }

  lemma TakeProgresses(c: Call, s: State, role: Role)
    requires WellFormed(c) && Inv(c, s) && Enabled(c, s, Take(role))
    ensures var u := Perform(c, s, Take(role));
      if Idle(c, s, Take(role)) then Total(c, u) == Total(c, s) else Total(c, u) < Total(c, s)
  {
    var u, peer := Perform(c, s, Take(role)), D.Peer(role);
    assert SideOf(u, peer) == SideOf(s, peer) && D.Of(u.mail, peer) == D.Of(s.mail, peer);
    OwnTakeProgresses(c, s, role);
  }

  lemma OwnTakeProgresses(c: Call, s: State, role: Role)
    requires WellFormed(c) && Inv(c, s) && Enabled(c, s, Take(role))
    ensures var u := Perform(c, s, Take(role));
      var a := Left(c, role, SideOf(s, role), D.Of(s.mail, role));
      var b := Left(c, role, SideOf(u, role), D.Of(u.mail, role));
      if Idle(c, s, Take(role)) then b == a else b < a
  {
    var ss, side := D.Of(s.mail, role), SideOf(s, role);
    if ss.reply.value.Found? {
      TakenSignal(c, s, role);
      ApplyNext(c, role, side, ss.reply.value.blob, ss.cursor);
    }
  }

  lemma FetchProgresses(c: Call, s: State, role: Role, early: bool, now: nat)
    requires Enabled(c, s, Fetched(role, early, now))
    ensures var u := Perform(c, s, Fetched(role, early, now));
      if Idle(c, s, Fetched(role, early, now)) then Total(c, u) == Total(c, s) else Total(c, u) < Total(c, s)
  {
    var u, peer := Perform(c, s, Fetched(role, early, now)), D.Peer(role);
    assert u.offerer == s.offerer && u.answerer == s.answerer && D.Of(u.mail, peer) == D.Of(s.mail, peer);
  }

  lemma OtherIsIdle(c: Call, s: State, request: Request, now: nat)
    requires Enabled(c, s, Other(request, now))
    ensures Total(c, Perform(c, s, Other(request, now))) == Total(c, s)
  {
  }

  /** Every step that is not a retry brings the handshake closer to its end; a retry leaves it where it was. */
  lemma StepsProgress(c: Call, s: State, step: Step)
    requires WellFormed(c) && Inv(c, s) && Enabled(c, s, step)
    ensures var u := Perform(c, s, step);
      if Idle(c, s, step) then Total(c, u) == Total(c, s) else Total(c, u) < Total(c, s)
  {
    match step
    case Other(request, now) => OtherIsIdle(c, s, request, now);
    case Act(role, now) => ActProgresses(c, s, role, now);
    case Fetched(role, early, now) => FetchProgresses(c, s, role, early, now);
    case Take(role) => TakeProgresses(c, s, role);
    case Break(role) => LeftIsNatural(c, s, role);
  }

  /** How many steps of the run were not retries. */
  ghost function Work(c: Call, steps: seq<Step>): nat {
    if steps == [] then 0
    else
      var s, step := After(c, steps[..|steps| - 1]), steps[|steps| - 1];
      Work(c, steps[..|steps| - 1]) + if Enabled(c, s, step) && !Idle(c, s, step) then 1 else 0
  }

  /** No run takes more steps, retries aside, than the two scripts call for. */
  lemma {:induction false} WorkIsBounded(c: Call, steps: seq<Step>)
    requires WellFormed(c)
    ensures Work(c, steps) + Total(c, After(c, steps)) <= 3 * (|c.offererCandidates| + |c.answererCandidates|) + 18
    ensures 0 <= Total(c, After(c, steps))
  {
    RunKeepsInv(c, steps);
    LeftIsNatural(c, After(c, steps), Offerer);
    LeftIsNatural(c, After(c, steps), Answerer);
    if steps != [] {
      var before, step := steps[..|steps| - 1], steps[|steps| - 1];
      WorkIsBounded(c, before);
      RunKeepsInv(c, before);
      if Enabled(c, After(c, before), step) {
        StepsProgress(c, After(c, before), step);
      }
    }
  }

  /** The half has nothing to do but to ask again. */
  ghost predicate Stuck(c: Call, s: State, role: Role) {
    || Final(SideOf(s, role))
    || (Receives(SideOf(s, role)) && !Ready(D.Of(s.mail, role).reply)
        && Answer(s.mail.store, c.setting.room, D.Peer(role), D.Of(s.mail, role).cursor).Pending?)
  }

  /** The two halves never wait for each other: unless one has given up, one of them can move until both are through. */
  lemma NeverBothStuck(c: Call, steps: seq<Step>)
    requires WellFormed(c)
    requires var s := After(c, steps); !s.offerer.stage.GaveUp? && !s.answerer.stage.GaveUp?
    requires var s := After(c, steps); Stuck(c, s, Offerer) && Stuck(c, s, Answerer)
    ensures After(c, steps).offerer.stage.Connecting? && After(c, steps).answerer.stage.Connecting?
  {
    RunKeepsInv(c, steps);
    OneMoves(c, After(c, steps));
  }

  lemma OneMoves(c: Call, s: State)
    requires Inv(c, s) && !s.offerer.stage.GaveUp? && !s.answerer.stage.GaveUp?
    requires Stuck(c, s, Offerer) && Stuck(c, s, Answerer)
    ensures s.offerer.stage.Connecting? && s.answerer.stage.Connecting?
  {
    assert s.offerer.finished;
    assert 0 < |D.Posted(s.mail.store, c.setting.room, Offerer)|;
  }

  // ----- when the handshake can complete -----

  /** Both scripts fit the mailboxes. */
  ghost predicate Fits(c: Call) {
    var cap := c.setting.limits.maxBlobs;
    cap != 0 ==> |Script(c, Offerer)| <= cap && |Script(c, Answerer)| <= cap
  }

  ghost predicate Through(s: State) { s.offerer.stage.Connecting? && s.answerer.stage.Connecting? }

  ghost predicate Alive(s: State) { !s.offerer.stage.GaveUp? && !s.answerer.stage.GaveUp? }

  /** No mailbox of the room ever holds more than the cap. */
  ghost predicate Capped(c: Call, s: State) {
    var cap := c.setting.limits.maxBlobs;
    cap != 0 ==> s.offerer.published <= cap && s.answerer.published <= cap
  }

  lemma StepKeepsCap(c: Call, s: State, step: Step)
    requires Inv(c, s) && Capped(c, s) && Enabled(c, s, step)
    ensures Capped(c, Perform(c, s, step))
  {
    match step
    case Act(role, now) => ActKeepsCap(c, s, role, now);
    case _ =>
  }

  lemma ActKeepsCap(c: Call, s: State, role: Role, now: nat)
    requires Inv(c, s) && Capped(c, s)
    ensures Capped(c, ActOf(c, s, role, now))
  {
    assert |D.Posted(s.mail.store, c.setting.room, role)| == SideOf(s, role).published;
  }

  lemma {:induction false} RunKeepsCap(c: Call, steps: seq<Step>)
    requires WellFormed(c)
    ensures Capped(c, After(c, steps))
  {
    if steps != [] {
      var before, step := steps[..|steps| - 1], steps[|steps| - 1];
      RunKeepsCap(c, before);
      RunKeepsInv(c, before);
      if Enabled(c, After(c, before), step) {
        StepKeepsCap(c, After(c, before), step);
      }
    }
  }

  /** Continue from `s` with steps that all happen. */
  ghost predicate Leads(c: Call, s: State, steps: seq<Step>, u: State)
    decreases |steps|
  {
    if steps == [] then u == s else Enabled(c, s, steps[0]) && Leads(c, Perform(c, s, steps[0]), steps[1..], u)
  }

  lemma {:induction false} LeadsIsAfter(c: Call, steps: seq<Step>, more: seq<Step>, u: State)
    requires Leads(c, After(c, steps), more, u)
    ensures After(c, steps + more) == u
    decreases |more|
  {
    if more == [] {
      assert steps + more == steps;
    } else {
      var longer := steps + [more[0]];
      assert longer[..|longer| - 1] == steps;
      LeadsIsAfter(c, longer, more[1..], u);
      assert longer + more[1..] == steps + more;
    }
  }

  ghost function Retrying(ss: D.Session): nat { if ss.reply == Some(Pending) then 1 else 0 }

  /** `Total` first, then whether the room has yet to be created, then the retries in flight. */
  ghost function Rank(c: Call, s: State): int {
    8 * Total(c, s) + (if c.setting.room in s.mail.store.rooms then 0 else 4) + Retrying(s.mail.offerer)
    + Retrying(s.mail.answerer)
  }

  lemma RankIsNatural(c: Call, s: State)
    requires Inv(c, s)
    ensures 0 <= Rank(c, s)
  {
    LeftIsNatural(c, s, Offerer);
    LeftIsNatural(c, s, Answerer);
  }

  /** A publish is accepted once the room exists and the script fits. */
  lemma PublishAccepted(c: Call, s: State, role: Role)
    requires WellFormed(c) && Inv(c, s) && Fits(c) && SideOf(s, role).stage.Publishing?
    requires c.setting.room in s.mail.store.rooms
    ensures !SideOf(ActOf(c, s, role, 0), role).stage.GaveUp?
    ensures c.setting.room in ActOf(c, s, role, 0).mail.store.rooms
  {
  }

  /** Before the room exists the answerer is waiting for the offer, and its fetch creates the room. */
  lemma NoRoomYet(c: Call, s: State)
    requires Inv(c, s) && Alive(s) && c.setting.room !in s.mail.store.rooms
    ensures s.answerer.stage.AwaitingOffer?
    ensures s.mail.answerer.reply.None? || s.mail.answerer.reply == Some(Pending)
  {
  }

  /** The next step of a handshake that is not through, avoiding failures and, where possible, retries. */
  ghost function NextStep(c: Call, s: State): Step {
    if c.setting.room !in s.mail.store.rooms then
      if s.mail.answerer.reply.Some? then Take(Answerer) else Fetched(Answerer, true, 0)
    else
      var role := if Stuck(c, s, Offerer) then Answerer else Offerer;
      if SideOf(s, role).stage.Publishing? then Act(role, 0)
      else if D.Of(s.mail, role).reply.Some? then Take(role)
      else Fetched(role, false, 0)
  }

  lemma NextStepEnabled(c: Call, s: State)
    requires WellFormed(c) && Inv(c, s) && Alive(s) && !Through(s)
    ensures Enabled(c, s, NextStep(c, s))
  {
    if c.setting.room !in s.mail.store.rooms {
      NoRoomYet(c, s);
    } else if Stuck(c, s, Offerer) && Stuck(c, s, Answerer) {
      OneMoves(c, s);
    }
  }

  /** The answerer's first fetch, or the answer to it, before the room exists. */
  lemma FirstFetchProgresses(c: Call, s: State)
    requires WellFormed(c) && Inv(c, s) && Alive(s) && c.setting.room !in s.mail.store.rooms
    requires Enabled(c, s, NextStep(c, s))
    ensures Alive(Perform(c, s, NextStep(c, s))) && Rank(c, Perform(c, s, NextStep(c, s))) < Rank(c, s)
  {
    NoRoomYet(c, s);
    StepsProgress(c, s, NextStep(c, s));
  }

  lemma ActRanksLower(c: Call, s: State, role: Role)
    requires WellFormed(c) && Inv(c, s) && Alive(s) && Fits(c) && Enabled(c, s, Act(role, 0))
    requires c.setting.room in s.mail.store.rooms
    ensures Alive(ActOf(c, s, role, 0)) && Rank(c, ActOf(c, s, role, 0)) < Rank(c, s)
  {
    PublishAccepted(c, s, role);
    ActProgresses(c, s, role, 0);
  }

  lemma TakeRanksLower(c: Call, s: State, role: Role)
    requires WellFormed(c) && Inv(c, s) && Alive(s) && Enabled(c, s, Take(role))
    ensures Alive(Perform(c, s, Take(role))) && Rank(c, Perform(c, s, Take(role))) < Rank(c, s)
  {
    TakeKeepsAlive(c, s, role);
    TakeProgresses(c, s, role);
  }

  lemma NextStepProgresses(c: Call, s: State)
    requires WellFormed(c) && Inv(c, s) && Alive(s) && !Through(s) && Fits(c) && Enabled(c, s, NextStep(c, s))
    ensures Alive(Perform(c, s, NextStep(c, s))) && Rank(c, Perform(c, s, NextStep(c, s))) < Rank(c, s)
  {
    var step := NextStep(c, s);
    if c.setting.room !in s.mail.store.rooms {
      FirstFetchProgresses(c, s);
    } else {
      match step
      case Act(role, _) => ActRanksLower(c, s, role);
      case Take(role) => TakeRanksLower(c, s, role);
      case Fetched(_, _, _) => FetchRanksLower(c, s);
    }
  }

  lemma FetchRanksLower(c: Call, s: State)
    requires WellFormed(c) && Inv(c, s) && Alive(s) && !Through(s) && Enabled(c, s, NextStep(c, s))
    requires NextStep(c, s).Fetched? && c.setting.room in s.mail.store.rooms
    ensures Alive(Perform(c, s, NextStep(c, s))) && Rank(c, Perform(c, s, NextStep(c, s))) < Rank(c, s)
  {
    if Stuck(c, s, Offerer) && Stuck(c, s, Answerer) {
      OneMoves(c, s);
    }
    StepsProgress(c, s, NextStep(c, s));
  }

  lemma TakeKeepsAlive(c: Call, s: State, role: Role)
    requires WellFormed(c) && Inv(c, s) && Enabled(c, s, Take(role)) && !SideOf(s, role).stage.GaveUp?
    ensures !SideOf(Perform(c, s, Take(role)), role).stage.GaveUp?
  {
    TakeKeepsInv(c, s, role);
  }

  lemma {:induction false} CanFinish(c: Call, s: State) returns (more: seq<Step>, u: State)
    requires WellFormed(c) && Inv(c, s) && Alive(s) && Fits(c)
    ensures Leads(c, s, more, u) && Through(u)
    decreases Rank(c, s)
  {
    if Through(s) {
      more, u := [], s;
    } else {
      var step := NextStep(c, s);
      NextStepEnabled(c, s);
      NextStepProgresses(c, s);
      StepKeepsInv(c, s, step);
      RankIsNatural(c, s);
      var rest;
      rest, u := CanFinish(c, Perform(c, s, step));
      more := [step] + rest;
      assert more[1..] == rest;
    }
  }

  ghost predicate ThroughAfter(c: Call, steps: seq<Step>) { Through(After(c, steps)) }

  /**
   From every state in which neither half has given up, the handshake can still complete, exactly when both scripts fit
   under the server's cap on blobs.  (Its cap on rooms does not matter: the answerer's first fetch creates the room.)
   */
  lemma CompletesIffScriptsFit(c: Call, steps: seq<Step>)
    requires WellFormed(c) && Alive(After(c, steps))
    ensures (exists more :: ThroughAfter(c, steps + more)) <==> Fits(c)
  {
    RunKeepsInv(c, steps);
    if Fits(c) {
      var more, u := CanFinish(c, After(c, steps));
      LeadsIsAfter(c, steps, more, u);
      assert ThroughAfter(c, steps + more);
    }
    forall more | ThroughAfter(c, steps + more)
      ensures Fits(c)
    {
      RunKeepsInv(c, steps + more);
      RunKeepsCap(c, steps + more);
    }
  }
}
