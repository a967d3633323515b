/**
 Two sessions of one room, each reading the other's mailbox, beside arbitrary requests to the same server.  A fetch is
 answered at one instant and the answer is handled at a later one; "not yet" may be answered at any time.
 */
module MailboxDelivery {
  import opened Collections
  import opened MailboxStore
  import opened MailboxClient

  /** `log` is what `recv` has returned so far, `ended` whether it has returned none. */
  datatype Session = Session(host: Host, cursor: nat, log: seq<Blob>, reply: Option<Fetch>, ended: bool)

  datatype State = State(store: Store, offerer: Session, answerer: Session)

  datatype Step =
    | Request(request: MailboxStore.Request, now: nat)
    | Answer(role: Role, early: bool, now: nat)
    | Take(role: Role)
    | Abandon(role: Role)

  datatype Setting = Setting(limits: Limits, room: RoomId, store: Store, offerer: Host, answerer: Host)

  function Peer(role: Role): Role { match role case Offerer => Answerer case Answerer => Offerer }

  function Of(s: State, role: Role): Session { match role case Offerer => s.offerer case Answerer => s.answerer }

  function With(s: State, role: Role, session: Session): State {
    match role case Offerer => s.(offerer := session) case Answerer => s.(answerer := session)
  }

  function Fresh(host: Host): Session { Session(host, 0, [], None, false) }

  function Initial(g: Setting): State { State(g.store, Fresh(g.offerer), Fresh(g.answerer)) }

  /** What has been published to a mailbox, and whether it has been marked done. */
  function Posted(s: Store, room: RoomId, role: Role): seq<Blob> {
    if room in s.rooms then Box(s.rooms[room], role).blobs else []
  }

  function Frozen(s: Store, room: RoomId, role: Role): bool {
    room in s.rooms && Box(s.rooms[room], role).done
  }

  /** The client's handling of the answer it was sent. */
  function Handled(ss: Session): Session
    requires ss.reply.Some?
  {
    var idle := ss.(reply := None);
    match Verdict(ss.host, Wire(ss.reply.value))
    case Got(blob) => idle.(cursor := ss.cursor + 1, log := ss.log + [blob])
    case Nothing => idle.(ended := true)
    case _ => idle
  }

  ghost function Perform(g: Setting, s: State, step: Step): State {
    match step
    case Request(request, now) => s.(store := Serve(s.store, g.limits, request, now))
    case Answer(role, early, now) =>
      var ss := Of(s, role);
      if ss.reply.Some? then s
      else
        var (store, answer, _) := FetchNow(s.store, g.room, Peer(role), ss.cursor, now);
        With(s.(store := store), role, ss.(reply := Some(if early then Pending else answer)))
    case Take(role) => if Of(s, role).reply.Some? then With(s, role, Handled(Of(s, role))) else s
    case Abandon(role) => With(s, role, Of(s, role).(reply := None))
  }

  ghost function After(g: Setting, steps: seq<Step>): State {
    if steps == [] then Initial(g) else Perform(g, After(g, steps[..|steps| - 1]), steps[|steps| - 1])
  }

  /** No step deletes or evicts the room. */
  ghost predicate Keeps(g: Setting, steps: seq<Step>) {
    forall k :: 0 <= k < |steps| ==> KeepsAt(g, steps, k)
  }

  ghost predicate KeepsAt(g: Setting, steps: seq<Step>, k: nat)
    requires k < |steps|
  {
    steps[k].Request? ==> !Removes(After(g, steps[..k]).store, g.limits, steps[k].request, steps[k].now, g.room)
  }

  ghost predicate SessionInv(store: Store, room: RoomId, role: Role, ss: Session) {
    var blobs := Posted(store, room, Peer(role));
    && ss.cursor <= |blobs| && ss.log == blobs[..ss.cursor]
    && (ss.reply.Some? && ss.reply.value.Found? ==> ss.cursor < |blobs| && blobs[ss.cursor] == ss.reply.value.blob)
    && (ss.reply == Some(Done) || ss.ended ==> Frozen(store, room, Peer(role)) && ss.cursor == |blobs|)
  }

  ghost predicate Inv(g: Setting, s: State) {
    SessionInv(s.store, g.room, Offerer, s.offerer) && SessionInv(s.store, g.room, Answerer, s.answerer)
  }

  /** A mailbox only grows, and not at all once done, whatever is asked of the server. */
  lemma MailOnlyGrows(s: Store, limits: Limits, request: MailboxStore.Request, now: nat, room: RoomId, role: Role)
    requires !Removes(s, limits, request, now, room)
    ensures var u := Serve(s, limits, request, now);
      && Posted(s, room, role) <= Posted(u, room, role)
      && (Frozen(s, room, role) ==> Frozen(u, room, role) && Posted(u, room, role) == Posted(s, room, role))
  {
    if room in s.rooms {
      ServeOnlyAppends(s, limits, request, now, room, role);
    }
  }

  /** A fetch changes no mailbox, and its answer is the mailbox's. */
  lemma FetchOnlyLooks(s: Store, room: RoomId, role: Role, n: nat, now: nat, other: Role)
    ensures var (u, answer, _) := FetchNow(s, room, role, n, now);
      && Posted(u, room, other) == Posted(s, room, other) && Frozen(u, room, other) == Frozen(s, room, other)
      && (answer.Found? <==> n < |Posted(s, room, role)|)
      && (answer.Found? ==> answer.blob == Posted(s, room, role)[n])
      && (answer.Done? <==> |Posted(s, room, role)| <= n && Frozen(s, room, role))
  {
  }

  lemma SessionInvGrows(s: Store, u: Store, room: RoomId, role: Role, ss: Session)
    requires SessionInv(s, room, role, ss)
    requires Posted(s, room, Peer(role)) <= Posted(u, room, Peer(role))
    requires Frozen(s, room, Peer(role)) ==>
               Frozen(u, room, Peer(role)) && Posted(u, room, Peer(role)) == Posted(s, room, Peer(role))
    ensures SessionInv(u, room, role, ss)
  {
  }

  lemma AnswerKeepsInv(g: Setting, s: State, role: Role, early: bool, now: nat)
    requires Inv(g, s)
    ensures Inv(g, Perform(g, s, Answer(role, early, now)))
  {
    var n := Of(s, role).cursor;
    FetchOnlyLooks(s.store, g.room, Peer(role), n, now, Offerer);
    FetchOnlyLooks(s.store, g.room, Peer(role), n, now, Answerer);
  }

  lemma TakeKeepsInv(g: Setting, s: State, role: Role)
    requires Inv(g, s)
    ensures Inv(g, Perform(g, s, Take(role)))
  {
  }

  lemma StepKeepsInv(g: Setting, s: State, step: Step)
    requires Inv(g, s)
    requires step.Request? ==> !Removes(s.store, g.limits, step.request, step.now, g.room)
    ensures Inv(g, Perform(g, s, step))
  {
    match step
    case Request(request, now) =>
      var u := Perform(g, s, step);
      MailOnlyGrows(s.store, g.limits, request, now, g.room, Offerer);
      MailOnlyGrows(s.store, g.limits, request, now, g.room, Answerer);
      SessionInvGrows(s.store, u.store, g.room, Offerer, s.offerer);
      SessionInvGrows(s.store, u.store, g.room, Answerer, s.answerer);
    case Answer(role, early, now) => AnswerKeepsInv(g, s, role, early, now);
    case Take(role) => TakeKeepsInv(g, s, role);
    case Abandon(_) =>
  }

  lemma KeepsPrefix(g: Setting, steps: seq<Step>, n: nat)
    requires Keeps(g, steps) && n <= |steps|
    ensures Keeps(g, steps[..n])
  {
    forall k | 0 <= k < n
      ensures KeepsAt(g, steps[..n], k)
    {
      assert KeepsAt(g, steps, k) && steps[..n][..k] == steps[..k];
    }
  }

  lemma {:induction false} RunKeepsInv(g: Setting, steps: seq<Step>)
    requires Keeps(g, steps)
    ensures Inv(g, After(g, steps))
  {
    if steps != [] {
      var n := |steps| - 1;
      KeepsPrefix(g, steps, n);
      RunKeepsInv(g, steps[..n]);
      assert KeepsAt(g, steps, n);
      StepKeepsInv(g, After(g, steps[..n]), steps[n]);
    }
  }

  /**
   End-to-end delivery, in both directions at once: what a session has received is always a prefix of what its peer has
   published (nothing skipped, repeated or reordered, whatever "not yet" answers and abandoned calls came between), and
   it has been told "none" only if the peer is done and every blob has been received.
   */
  lemma ReceiversLogAPrefix(g: Setting, steps: seq<Step>, role: Role)
    requires Keeps(g, steps)
    ensures var s := After(g, steps); var ss := Of(s, role); var blobs := Posted(s.store, g.room, Peer(role));
      && |ss.log| == ss.cursor && ss.log <= blobs
      && (ss.ended ==> Frozen(s.store, g.room, Peer(role)) && ss.log == blobs)
  {
    RunKeepsInv(g, steps);
  }

  lemma StepGrowsLog(g: Setting, s: State, step: Step, role: Role)
    requires Inv(g, s)
    ensures var a, b := Of(s, role), Of(Perform(g, s, step), role);
      a.log <= b.log && (a.ended && Inv(g, Perform(g, s, step)) ==> b.ended && b.log == a.log)
  {
  }

  /** What has been received stays received, and once a session has been told "none" it never receives anything more. */
  lemma {:induction false} LogsOnlyGrow(g: Setting, steps: seq<Step>, more: seq<Step>, role: Role)
    requires Keeps(g, steps + more)
    ensures var a, b := Of(After(g, steps), role), Of(After(g, steps + more), role);
      a.log <= b.log && (a.ended ==> b.ended && b.log == a.log)
  {
    if more == [] {
      assert steps + more == steps;
    } else {
      var n := |more| - 1;
      var all := steps + more;
      KeepsPrefix(g, all, |all| - 1);
      assert all[..|all| - 1] == steps + more[..n];
      LogsOnlyGrow(g, steps, more[..n], role);
      LastStepGrowsLog(g, all, role);
    }
  }

  lemma LastStepGrowsLog(g: Setting, steps: seq<Step>, role: Role)
    requires Keeps(g, steps) && steps != []
    ensures var a, b := Of(After(g, steps[..|steps| - 1]), role), Of(After(g, steps), role);
      a.log <= b.log && (a.ended ==> b.ended && b.log == a.log)
  {
    KeepsPrefix(g, steps, |steps| - 1);
    RunKeepsInv(g, steps[..|steps| - 1]);
    RunKeepsInv(g, steps);
    StepGrowsLog(g, After(g, steps[..|steps| - 1]), steps[|steps| - 1], role);
  }
}
