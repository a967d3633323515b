/**
 The long-polling fetch beside every other request, interleaved at each acquisition of the store's lock, each reading
 of the clock and each await.
 */
module MailboxFetch {
  import opened MailboxStore

  type FetchId = nat

  /**
   Where a fetch stands.  `armedAt` is its notification's count when the notified future was created, `live` whether
   that notification still belonged to the room's mailbox then; `expires` is the end of the timeout around the await.
   */
  datatype Stage =
    | Peeking
    | Deciding(notify: NotifyId)
    | Arming(notify: NotifyId, remaining: nat)
    | Rechecking(notify: NotifyId, armedAt: nat, live: bool, remaining: nat)
    | Waiting(notify: NotifyId, armedAt: nat, live: bool, expires: nat)
    | Answered(answer: Fetch)

  datatype Call = Call(room: RoomId, role: Role, n: nat, deadline: nat, stage: Stage)

  datatype State = State(store: Store, now: nat, calls: map<FetchId, Call>)

  /** `read` is the clock as the request read it, before it was given the store's lock. */
  datatype Step =
    | Request(request: MailboxStore.Request, read: nat)
    | Start(id: FetchId, room: RoomId, role: Role, n: nat, wait: nat)
    | Advance(id: FetchId, read: nat)
    | Pass(time: nat)

  function Initial(): State { State(Store(map[], []), 0, map[]) }

  function Count(s: Store, n: NotifyId): nat { if n < |s.wakes| then s.wakes[n] else 0 }

  /** The notification the await is on has been signalled since it was armed. */
  predicate Signalled(s: State, c: Call)
    requires c.stage.Waiting?
  {
    Count(s.store, c.stage.notify) > c.stage.armedAt
  }

  ghost predicate Enabled(s: State, step: Step) {
    match step
    case Request(_, read) => read <= s.now
    case Start(id, _, _, _, _) => id !in s.calls
    case Advance(id, read) =>
      && id in s.calls && read <= s.now
      && !s.calls[id].stage.Answered?
      && (s.calls[id].stage.Waiting? ==> Signalled(s, s.calls[id]) || s.calls[id].stage.expires <= s.now)
    case Pass(_) => true
  }

  /** The notification `n` is that of the mailbox the call asks for. */
  ghost predicate IsLive(s: Store, c: Call, n: NotifyId) {
    c.room in s.rooms && Box(s.rooms[c.room], c.role).notify == n
  }

  ghost function AdvanceOf(s: State, id: FetchId, read: nat): State
    requires id in s.calls
  {
    var c := s.calls[id];
    match c.stage
    case Peeking =>
      var (store, answer, notify) := FetchNow(s.store, c.room, c.role, c.n, read);
      State(store, s.now, s.calls[id := c.(stage := if answer.Pending? then Deciding(notify) else Answered(answer))])
    case Deciding(notify) =>
      s.(calls := s.calls[id := c.(stage :=
           if c.deadline <= s.now then Answered(Pending) else Arming(notify, c.deadline - s.now))])
    case Arming(notify, remaining) =>
      s.(calls := s.calls[id := c.(stage :=
           Rechecking(notify, Count(s.store, notify), IsLive(s.store, c, notify), remaining))])
    case Rechecking(notify, armedAt, live, remaining) =>
      var (store, answer, _) := FetchNow(s.store, c.room, c.role, c.n, read);
      State(store, s.now, s.calls[id := c.(stage :=
           if answer.Pending? then Waiting(notify, armedAt, live, s.now + remaining) else Answered(answer))])
    case Waiting(_, _, _, _) =>
      s.(calls := s.calls[id := c.(stage := if Signalled(s, c) then Peeking else Answered(Pending))])
    case Answered(_) => s
  }

  ghost function Perform(limits: Limits, s: State, step: Step): State
    requires Enabled(s, step)
  {
    match step
    case Request(request, read) => s.(store := Serve(s.store, limits, request, read))
    case Start(id, room, role, n, wait) => s.(calls := s.calls[id := Call(room, role, n, s.now + wait, Peeking)])
    case Advance(id, read) => AdvanceOf(s, id, read)
    case Pass(time) => s.(now := s.now + time)
  }

  ghost function After(limits: Limits, steps: seq<Step>): State {
    if steps == [] then Initial()
    else
      var s := After(limits, steps[..|steps| - 1]);
      if Enabled(s, steps[|steps| - 1]) then Perform(limits, s, steps[|steps| - 1]) else s
  }

  // ----- the invariant -----

  /** The armed notification has fired, or it is still the mailbox's own and there is still nothing to answer. */
  ghost predicate Attentive(s: State, c: Call, notify: NotifyId, armedAt: nat) {
    || Count(s.store, notify) > armedAt
    || (IsLive(s.store, c, notify) && Answer(s.store, c.room, c.role, c.n) == Pending)
  }

  /** The notification belongs to no mailbox any more, and never will again. */
  ghost predicate Retired(s: Store, n: NotifyId) {
    n < |s.wakes| && forall k :: k in s.rooms ==> s.rooms[k].offerer.notify != n && s.rooms[k].answerer.notify != n
  }

  ghost predicate CallInv(s: State, c: Call) {
    match c.stage
    case Deciding(n) => n < |s.store.wakes| && (IsLive(s.store, c, n) || Retired(s.store, n))
    case Arming(n, remaining) =>
      n < |s.store.wakes| && (IsLive(s.store, c, n) || Retired(s.store, n)) && c.deadline <= s.now + remaining
    case Rechecking(n, armedAt, live, remaining) =>
      && n < |s.store.wakes| && armedAt <= Count(s.store, n) && c.deadline <= s.now + remaining
      && (live ==> Count(s.store, n) > armedAt || IsLive(s.store, c, n))
      && (!live ==> Retired(s.store, n) && Count(s.store, n) == armedAt)
    case Waiting(n, armedAt, live, expires) =>
      && n < |s.store.wakes| && armedAt <= Count(s.store, n) && c.deadline <= expires
      && (live ==> Attentive(s, c, n, armedAt))
      && (!live ==> Retired(s.store, n) && Count(s.store, n) == armedAt)
    case Answered(Pending) => c.deadline <= s.now
    case _ => true
  }

  ghost predicate Inv(s: State) {
    MailboxStore.Inv(s.store) && forall id :: id in s.calls ==> CallInv(s, s.calls[id])
  }

  /** How one request treats a notification: it keeps its mailbox and its pending answer, or it is signalled. */
  ghost predicate Watched(s: Store, u: Store, c: Call, n: NotifyId) {
    && n < |u.wakes| && Count(s, n) <= Count(u, n)
    && (IsLive(s, c, n) ==> Count(u, n) > Count(s, n) || IsLive(u, c, n))
    && (IsLive(s, c, n) && Answer(s, c.room, c.role, c.n) == Pending ==>
          Count(u, n) > Count(s, n) || (IsLive(u, c, n) && Answer(u, c.room, c.role, c.n) == Pending))
    && (IsLive(s, c, n) ==> IsLive(u, c, n) || Retired(u, n))
    && (Retired(s, n) ==> Retired(u, n) && Count(u, n) == Count(s, n))
  }

  lemma EntryWatches(s: Store, room: RoomId, now: nat, c: Call, n: NotifyId)
    requires MailboxStore.Inv(s) && n < |s.wakes|
    ensures Watched(s, Entry(s, room, now), c, n)
  {
    var u := Entry(s, room, now);
    if Retired(s, n) {
      forall k | k in u.rooms
        ensures u.rooms[k].offerer.notify != n && u.rooms[k].answerer.notify != n
      {
        assert k in s.rooms ==> s.rooms[k].offerer.notify != n;
      }
    }
  }

  lemma PutWatches(s: Store, room: RoomId, role: Role, box: Mailbox, c: Call, n: NotifyId)
    requires MailboxStore.Inv(s) && n < |s.wakes| && room in s.rooms && box.notify == Box(s.rooms[room], role).notify
    ensures Watched(s, Put(s, room, role, box), c, n)
  {
    var u := Put(s, room, role, box);
    assert RoomOk(s, room);
    if Retired(s, n) {
      assert s.rooms[room].offerer.notify != n && s.rooms[room].answerer.notify != n;
      forall k | k in u.rooms
        ensures u.rooms[k].offerer.notify != n && u.rooms[k].answerer.notify != n
      {
        assert s.rooms[k].offerer.notify != n;
      }
    }
  }

  lemma WatchedTransitive(s: Store, t: Store, u: Store, c: Call, n: NotifyId)
    requires Watched(s, t, c, n) && Watched(t, u, c, n)
    ensures Watched(s, u, c, n)
  {
  }

  /** Removing rooms signals exactly their notifications. */
  lemma WithoutWatches(s: Store, keys: set<RoomId>, c: Call, n: NotifyId)
    requires MailboxStore.Inv(s) && n < |s.wakes|
    ensures Watched(s, Without(s, keys), c, n)
  {
    var u := Without(s, keys);
    if IsLive(s, c, n) && c.room in keys {
      assert Belongs(s, n, keys);
      forall k | k in u.rooms
        ensures u.rooms[k].offerer.notify != n && u.rooms[k].answerer.notify != n
      {
        assert Apart(s, k, c.room);
      }
    }
    if Retired(s, n) {
      assert !Belongs(s, n, keys);
      assert forall k :: k in u.rooms ==> k in s.rooms && u.rooms[k] == s.rooms[k];
    }
  }

  lemma DeleteIsWithout(s: Store, room: RoomId)
    requires MailboxStore.Inv(s) && room in s.rooms
    ensures Delete(s, room).0 == Without(s, {room})
  {
    RemoveOne(s, {}, room);
    assert Without(s, {}).wakes == s.wakes;
    assert Without(s, {}).rooms == s.rooms;
    assert {} + {room} == {room};
  }

  lemma WatchedReflexive(s: Store, c: Call, n: NotifyId)
    requires n < |s.wakes|
    ensures Watched(s, s, c, n)
  {
  }

  /** No request touches a mailbox without signalling it, and none revives a retired notification. */
  lemma ServeWatches(s: Store, limits: Limits, request: MailboxStore.Request, now: nat, c: Call, n: NotifyId)
    requires MailboxStore.Inv(s) && n < |s.wakes|
    ensures Watched(s, Serve(s, limits, request, now), c, n)
  {
    WatchedReflexive(s, c, n);
    match request
    case PublishTo(room, role, blob) =>
      EntryKeepsInv(s, room, now);
      EntryWatches(s, room, now, c, n);
      var e := Entry(s, room, now);
      var box := Box(e.rooms[room], role).(blobs := Box(e.rooms[room], role).blobs + [blob]);
      PutWatches(e, room, role, box, c, n);
      WatchedTransitive(s, e, Put(e, room, role, box), c, n);
    case MarkDoneOf(room, role) =>
      EntryKeepsInv(s, room, now);
      EntryWatches(s, room, now, c, n);
      var e := Entry(s, room, now);
      var box := Box(e.rooms[room], role).(done := true);
      PutWatches(e, room, role, box, c, n);
      WatchedTransitive(s, e, Put(e, room, role, box), c, n);
    case FetchFrom(room, _, _) => EntryWatches(s, room, now, c, n);
    case DeleteRoom(room) =>
      if room in s.rooms {
        DeleteIsWithout(s, room);
        WithoutWatches(s, {room}, c, n);
      }
    case EvictRooms => WithoutWatches(s, Expired(s, limits, now), c, n);
  }

  predicate HasNotify(c: Call) {
    c.stage.Deciding? || c.stage.Arming? || c.stage.Rechecking? || c.stage.Waiting?
  }

  lemma WatchedKeepsCall(s: State, u: State, c: Call)
    requires CallInv(s, c) && s.now <= u.now
    requires HasNotify(c) ==> Watched(s.store, u.store, c, c.stage.notify)
    ensures CallInv(u, c)
  {
  }

  lemma OthersKeepCalls(s: State, u: State, id: FetchId)
    requires Inv(s) && MailboxStore.Inv(u.store) && s.now <= u.now && |s.store.wakes| <= |u.store.wakes|
    requires forall c: Call, n: nat {:trigger Watched(s.store, u.store, c, n)} ::
      n < |s.store.wakes| ==> Watched(s.store, u.store, c, n)
    requires forall x :: x in u.calls && x != id ==> x in s.calls && u.calls[x] == s.calls[x]
    requires id in u.calls ==> CallInv(u, u.calls[id])
    ensures Inv(u)
  {
    forall x | x in u.calls
      ensures CallInv(u, u.calls[x])
    {
      if x != id {
        var c := s.calls[x];
        assert CallInv(s, c);
        assert HasNotify(c) ==> Watched(s.store, u.store, c, c.stage.notify);
        WatchedKeepsCall(s, u, c);
      }
    }
  }

  lemma FetchKeepsCall(s: State, id: FetchId, read: nat)
    requires Inv(s) && id in s.calls
    requires s.calls[id].stage.Peeking? || s.calls[id].stage.Rechecking?
    ensures Inv(AdvanceOf(s, id, read))
  {
    var c, u := s.calls[id], AdvanceOf(s, id, read);
    EntryKeepsInv(s.store, c.room, read);
    forall d: Call, n: nat | n < |s.store.wakes|
      ensures Watched(s.store, u.store, d, n)
    {
      EntryWatches(s.store, c.room, read, d, n);
    }
    assert RoomOk(u.store, c.room);
    OthersKeepCalls(s, u, id);
  }

  lemma AdvanceKeepsInv(s: State, id: FetchId, read: nat)
    requires Inv(s) && Enabled(s, Advance(id, read))
    ensures Inv(AdvanceOf(s, id, read))
  {
    var c, u := s.calls[id], AdvanceOf(s, id, read);
    assert CallInv(s, c);
    if c.stage.Peeking? || c.stage.Rechecking? {
      FetchKeepsCall(s, id, read);
    } else {
      forall x | x in u.calls
        ensures CallInv(u, u.calls[x])
      {
        assert x != id ==> CallInv(s, s.calls[x]);
      }
    }
  }

  lemma StepKeepsInv(limits: Limits, s: State, step: Step)
    requires Inv(s) && Enabled(s, step)
    ensures Inv(Perform(limits, s, step))
  {
    var u := Perform(limits, s, step);
    match step
    case Request(request, read) =>
      ServeKeepsInv(s.store, limits, request, read);
      forall id | id in u.calls
        ensures CallInv(u, u.calls[id])
      {
        var c := s.calls[id];
        assert CallInv(s, c);
        if HasNotify(c) {
          ServeWatches(s.store, limits, request, read, c, c.stage.notify);
        }
        WatchedKeepsCall(s, u, c);
      }
    case Advance(id, read) => AdvanceKeepsInv(s, id, read);
    case _ =>
      forall id | id in s.calls
        ensures CallInv(u, s.calls[id])
      {
        assert CallInv(s, s.calls[id]);
      }
  }

  lemma {:induction false} RunKeepsInv(limits: Limits, steps: seq<Step>)
    ensures Inv(After(limits, steps))
  {
    if steps != [] {
      var before, step := steps[..|steps| - 1], steps[|steps| - 1];
      RunKeepsInv(limits, before);
      if Enabled(After(limits, before), step) {
        StepKeepsInv(limits, After(limits, before), step);
      }
    }
  }

  // ----- what every run guarantees -----

  /** "Not yet" is answered only once the deadline has passed. */
  lemma PendingOnlyAfterTheDeadline(limits: Limits, steps: seq<Step>, id: FetchId)
    requires var s := After(limits, steps); id in s.calls && s.calls[id].stage == Answered(Pending)
    ensures After(limits, steps).calls[id].deadline <= After(limits, steps).now
  {
    RunKeepsInv(limits, steps);
  }

  /**
   A waiting fetch whose answer has become available — or whose room has gone — has been signalled exactly when the
   notification it armed was still its mailbox's own: only a deletion or eviction between the peek and the arming loses
   the wakeup, and then it is lost for good.
   */
  lemma WakeupArrivesIffArmedLive(limits: Limits, steps: seq<Step>, id: FetchId)
    requires var s := After(limits, steps);
      && id in s.calls && s.calls[id].stage.Waiting?
      && (Answer(s.store, s.calls[id].room, s.calls[id].role, s.calls[id].n) != Pending
          || !IsLive(s.store, s.calls[id], s.calls[id].stage.notify))
    ensures var s := After(limits, steps);
      Signalled(s, s.calls[id]) <==> s.calls[id].stage.live
  {
    RunKeepsInv(limits, steps);
    assert CallInv(After(limits, steps), After(limits, steps).calls[id]);
  }

  /** The fetch has been called and not yet answered after the first `k` steps, and a peek then gives `answer`. */
  ghost predicate PeekDuring(limits: Limits, steps: seq<Step>, k: nat, id: FetchId, answer: Fetch)
    requires k <= |steps|
  {
    var s := After(limits, steps[..k]);
    && id in s.calls && !s.calls[id].stage.Answered?
    && Answer(s.store, s.calls[id].room, s.calls[id].role, s.calls[id].n) == answer
  }

  /** Linearizability: a blob or a "done" is what a peek of the store gave at some instant during the call. */
  lemma {:induction false} AnswersArePeeks(limits: Limits, steps: seq<Step>, id: FetchId)
    requires var s := After(limits, steps);
      id in s.calls && s.calls[id].stage.Answered? && !s.calls[id].stage.answer.Pending?
    ensures exists k ::
      0 <= k < |steps| && PeekDuring(limits, steps, k, id, After(limits, steps).calls[id].stage.answer)
  {
    assert steps != [];
    var n := |steps| - 1;
    var before := steps[..n];
    var s, u := After(limits, before), After(limits, steps);
    if id in s.calls && s.calls[id] == u.calls[id] {
      AnswersArePeeks(limits, before, id);
      var k :| 0 <= k < n && PeekDuring(limits, before, k, id, u.calls[id].stage.answer);
      assert before[..k] == steps[..k];
      assert PeekDuring(limits, steps, k, id, u.calls[id].stage.answer);
    } else {
      assert before == steps[..n];
      assert steps[n].Advance? && steps[n].id == id;
      assert PeekDuring(limits, steps, n, id, u.calls[id].stage.answer);
    }
  }

  lemma Extend(limits: Limits, steps: seq<Step>, step: Step)
    requires Enabled(After(limits, steps), step)
    ensures After(limits, steps + [step]) == Perform(limits, After(limits, steps), step)
  {
    assert (steps + [step])[..|steps + [step]| - 1] == steps;
  }

  // ----- a deleted room -----

  /** The mailbox a call waits for is not done: the room is gone, or it is a fresh one. */
  ghost predicate NotDone(s: Store, room: RoomId, role: Role) {
    room in s.rooms ==> !Box(s.rooms[room], role).done
  }

  ghost predicate StillNotDone(s: State, id: FetchId, room: RoomId, role: Role) {
    && id in s.calls && s.calls[id].room == room && s.calls[id].role == role
    && s.calls[id].stage != Answered(Done) && NotDone(s.store, room, role)
  }

  lemma ServeKeepsNotDone(
    s: Store, limits: Limits, request: MailboxStore.Request, now: nat, room: RoomId, role: Role)
    requires NotDone(s, room, role) && request != MarkDoneOf(room, role)
    ensures NotDone(Serve(s, limits, request, now), room, role)
  {
    match request
    case PublishTo(_, _, _) =>
    case MarkDoneOf(_, _) =>
    case FetchFrom(_, _, _) =>
    case DeleteRoom(_) =>
    case EvictRooms =>
  }

  lemma StepKeepsNotDone(limits: Limits, s: State, step: Step, id: FetchId, room: RoomId, role: Role)
    requires StillNotDone(s, id, room, role) && Enabled(s, step)
    requires step.Request? ==> step.request != MarkDoneOf(room, role)
    ensures StillNotDone(Perform(limits, s, step), id, room, role)
  {
    match step
    case Request(request, read) => ServeKeepsNotDone(s.store, limits, request, read, room, role);
    case Advance(x, read) => AdvanceKeepsNotDone(s, x, read, id, room, role);
    case _ =>
  }

  lemma AdvanceKeepsNotDone(s: State, x: FetchId, read: nat, id: FetchId, room: RoomId, role: Role)
    requires StillNotDone(s, id, room, role) && x in s.calls
    ensures StillNotDone(AdvanceOf(s, x, read), id, room, role)
  {
  }

  /** None of the steps marks the mailbox done. */
  ghost predicate NeverDone(steps: seq<Step>, room: RoomId, role: Role) {
    forall k :: 0 <= k < |steps| && steps[k].Request? ==> steps[k].request != MarkDoneOf(room, role)
  }

  lemma {:induction false} RunKeepsNotDone(
    limits: Limits, steps: seq<Step>, more: seq<Step>, id: FetchId, room: RoomId, role: Role)
    requires StillNotDone(After(limits, steps), id, room, role) && NeverDone(more, room, role)
    ensures StillNotDone(After(limits, steps + more), id, room, role)
  {
    if more == [] {
      assert steps + more == steps;
    } else {
      var n := |more| - 1;
      RunKeepsNotDone(limits, steps, more[..n], id, room, role);
      assert (steps + more)[..|steps + more| - 1] == steps + more[..n];
      var s := After(limits, steps + more[..n]);
      if Enabled(s, more[n]) {
        StepKeepsNotDone(limits, s, more[n], id, room, role);
      }
    }
  }

  /**
   Deleting a room does not answer its blocked fetches "done": whatever follows, such a fetch is told "done" only if
   its mailbox is marked done again afterwards.
   */
  lemma DeletionAnswersNoFetchDone(limits: Limits, steps: seq<Step>, id: FetchId, more: seq<Step>)
    requires var s := After(limits, steps); id in s.calls && !s.calls[id].stage.Answered?
    requires NeverDone(more, After(limits, steps).calls[id].room, After(limits, steps).calls[id].role)
    ensures var c := After(limits, steps).calls[id];
      var u := After(limits, steps + [Request(DeleteRoom(c.room), 0)] + more);
      id in u.calls && u.calls[id].stage != Answered(Done)
  {
    var c := After(limits, steps).calls[id];
    Extend(limits, steps, Request(DeleteRoom(c.room), 0));
    RunKeepsNotDone(limits, steps + [Request(DeleteRoom(c.room), 0)], more, id, c.room, c.role);
  }

  /** The call will not look at the store again: it is out of time, or it waits on a notification nobody holds. */
  ghost predicate Deaf(s: State, c: Call) {
    || (c.stage.Deciding? && c.deadline <= s.now)
    || (c.stage.Waiting? && !c.stage.live)
  }

  ghost predicate NeverLooks(s: State, id: FetchId) {
    id in s.calls && (Deaf(s, s.calls[id]) || s.calls[id].stage == Answered(Pending))
  }

  lemma {:induction false} DeafStaysDeaf(limits: Limits, steps: seq<Step>, more: seq<Step>, id: FetchId)
    requires NeverLooks(After(limits, steps), id)
    ensures NeverLooks(After(limits, steps + more), id)
  {
    if more == [] {
      assert steps + more == steps;
    } else {
      var n := |more| - 1;
      DeafStaysDeaf(limits, steps, more[..n], id);
      RunKeepsInv(limits, steps + more[..n]);
      assert (steps + more)[..|steps + more| - 1] == steps + more[..n];
      var s := After(limits, steps + more[..n]);
      assert CallInv(s, s.calls[id]);
      if Enabled(s, more[n]) {
        StepKeepsDeaf(limits, s, more[n], id);
      }
    }
  }

  lemma StepKeepsDeaf(limits: Limits, s: State, step: Step, id: FetchId)
    requires NeverLooks(s, id) && CallInv(s, s.calls[id]) && Enabled(s, step)
    ensures NeverLooks(Perform(limits, s, step), id)
  {
    match step
    case Advance(x, read) => AdvanceKeepsDeaf(s, x, read, id);
    case _ =>
  }

  lemma AdvanceKeepsDeaf(s: State, x: FetchId, read: nat, id: FetchId)
    requires NeverLooks(s, id) && CallInv(s, s.calls[id]) && Enabled(s, Advance(x, read))
    ensures NeverLooks(AdvanceOf(s, x, read), id)
  {
  }

  /** How many steps of its own a call that still looks takes to be answered. */
  ghost function ToAnswer(stage: Stage): nat {
    match stage
    case Waiting(_, _, _, _) => 5
    case Deciding(_) => 4
    case Arming(_, _) => 3
    case Rechecking(_, _, _, _) => 2
    case Peeking => 1
    case Answered(_) => 0
  }

  /** The call still looks at the store, and would be told "done". */
  ghost predicate Deserves(s: State, id: FetchId) {
    && id in s.calls && !s.calls[id].stage.Answered? && !Deaf(s, s.calls[id])
    && Answer(s.store, s.calls[id].room, s.calls[id].role, s.calls[id].n) == Done
  }

  lemma AdvanceTowardsDone(s: State, id: FetchId)
    requires Inv(s) && Deserves(s, id)
    ensures Enabled(s, Advance(id, 0))
    ensures var u := AdvanceOf(s, id, 0);
      && id in u.calls && ToAnswer(u.calls[id].stage) < ToAnswer(s.calls[id].stage)
      && (u.calls[id].stage == Answered(Done) || Deserves(u, id))
  {
    assert CallInv(s, s.calls[id]);
  }

  lemma {:induction false} AnsweredDoneInTime(limits: Limits, steps: seq<Step>, id: FetchId) returns (more: seq<Step>)
    requires Deserves(After(limits, steps), id)
    ensures DoneAfter(limits, steps + more, id)
    decreases ToAnswer(After(limits, steps).calls[id].stage)
  {
    RunKeepsInv(limits, steps);
    AdvanceTowardsDone(After(limits, steps), id);
    Extend(limits, steps, Advance(id, 0));
    more := [Advance(id, 0)];
    if !DoneAfter(limits, steps + more, id) {
      var rest := AnsweredDoneInTime(limits, steps + [Advance(id, 0)], id);
      more := [Advance(id, 0)] + rest;
      assert steps + more == steps + [Advance(id, 0)] + rest;
    }
  }

  ghost predicate DoneAfter(limits: Limits, steps: seq<Step>, id: FetchId) {
    var s := After(limits, steps); id in s.calls && s.calls[id].stage == Answered(Done)
  }

  /** A call that is not deaf when its room is deleted is not deaf afterwards, and a `done` then reaches it. */
  lemma DoneReaches(limits: Limits, steps: seq<Step>, id: FetchId) returns (more: seq<Step>)
    requires var s := After(limits, steps); id in s.calls && !s.calls[id].stage.Answered? && !Deaf(s, s.calls[id])
    ensures var c := After(limits, steps).calls[id];
      DoneAfter(limits, steps + [Request(DeleteRoom(c.room), 0)] + more, id)
  {
    var c := After(limits, steps).calls[id];
    var deleted := steps + [Request(DeleteRoom(c.room), 0)];
    Extend(limits, steps, Request(DeleteRoom(c.room), 0));
    Extend(limits, deleted, Request(MarkDoneOf(c.room, c.role), 0));
    assert c.room !in After(limits, deleted).store.rooms;
    var rest := AnsweredDoneInTime(limits, deleted + [Request(MarkDoneOf(c.room, c.role), 0)], id);
    more := [Request(MarkDoneOf(c.room, c.role), 0)] + rest;
    assert deleted + more == deleted + [Request(MarkDoneOf(c.room, c.role), 0)] + rest;
  }

  /** After its room is deleted, an unanswered fetch can still come to be told "done" exactly when it is not deaf. */
  lemma DeletedFetchCanBeDoneIff(limits: Limits, steps: seq<Step>, id: FetchId)
    requires var s := After(limits, steps); id in s.calls && !s.calls[id].stage.Answered?
    ensures var s := After(limits, steps); var c := s.calls[id];
      (exists more :: DoneAfter(limits, steps + [Request(DeleteRoom(c.room), 0)] + more, id)) <==> !Deaf(s, c)
  {
    var s := After(limits, steps);
    var deleted := steps + [Request(DeleteRoom(s.calls[id].room), 0)];
    if Deaf(s, s.calls[id]) {
      Extend(limits, steps, Request(DeleteRoom(s.calls[id].room), 0));
      forall more
        ensures !DoneAfter(limits, deleted + more, id)
      {
        DeafStaysDeaf(limits, deleted, more, id);
      }
    } else {
      var more := DoneReaches(limits, steps, id);
      assert DoneAfter(limits, deleted + more, id);
    }
  }

  const NO_CAPS: Limits := Limits(300, 0, 0)

  ghost function LateRoom(a: NotifyId, blobs: seq<Blob>): Room {
    Room(Mailbox(blobs, false, a), Mailbox([], false, a + 1), 0)
  }

  ghost function Lone(store: Store, stage: Stage): State {
    State(store, 0, map[0 := Call("r", Offerer, 0, 100, stage)])
  }

  /** A fetch of a fresh room, up to where its notified future is about to be created. */
  lemma UpToArming(steps: seq<Step>)
    requires steps == [Start(0, "r", Offerer, 0, 100), Advance(0, 0), Advance(0, 0)]
    ensures After(NO_CAPS, steps) == Lone(Store(map["r" := LateRoom(0, [])], [0, 0]), Arming(0, 100))
  {
    assert steps[..2] == [Start(0, "r", Offerer, 0, 100), Advance(0, 0)];
    assert steps[..2][..1] == [Start(0, "r", Offerer, 0, 100)];
    assert steps[..2][..1][..0] == [];
    assert After(NO_CAPS, steps[..2][..1]) == Lone(Store(map[], []), Peeking);
    assert After(NO_CAPS, steps[..2]) == Lone(Store(map["r" := LateRoom(0, [])], [0, 0]), Deciding(0));
  }

  lemma UpToDeletion(steps: seq<Step>)
    requires steps == [Start(0, "r", Offerer, 0, 100), Advance(0, 0), Advance(0, 0), Request(DeleteRoom("r"), 0)]
    ensures After(NO_CAPS, steps) == Lone(Store(map[], [1, 1]), Arming(0, 100))
  {
    UpToArming(steps[..3]);
    var rooms: map<RoomId, Room> := map["r" := LateRoom(0, [])];
    assert rooms - {"r"} == map[];
  }

  /** The room is deleted there, and the fetch goes on to wait on a notification nobody holds. */
  lemma UpToWaiting(steps: seq<Step>)
    requires steps == [Start(0, "r", Offerer, 0, 100), Advance(0, 0), Advance(0, 0), Request(DeleteRoom("r"), 0),
                       Advance(0, 0), Advance(0, 0)]
    ensures After(NO_CAPS, steps) ==
            Lone(Store(map["r" := LateRoom(2, [])], [1, 1, 0, 0]), Waiting(0, 1, false, 100))
  {
    UpToDeletion(steps[..4]);
    assert steps[..5][..4] == steps[..4];
    assert After(NO_CAPS, steps[..5]) == Lone(Store(map[], [1, 1]), Rechecking(0, 1, false, 100));
  }

  lemma LatePublish(blob: Blob)
    ensures var u := Publish(Store(map["r" := LateRoom(2, [])], [1, 1, 0, 0]), NO_CAPS, "r", Offerer, blob, 0).0;
      "r" in u.rooms && u.rooms["r"].offerer.blobs == [blob] && Count(u, 0) == 1
  {
  }

  ghost predicate MissesBlob(steps: seq<Step>, blob: Blob) {
    var s := After(NO_CAPS, steps);
    && 0 in s.calls && s.calls[0].stage.Waiting?
    && Answer(s.store, "r", Offerer, 0) == Found(blob)
    && !Signalled(s, s.calls[0])
  }

  /** The lost wakeup: the room is deleted between the peek and the arming, and the publish that follows is missed. */
  lemma DeletionBeforeArmingLosesTheWakeup(blob: Blob)
    ensures exists steps :: MissesBlob(steps, blob)
  {
    var before := [Start(0, "r", Offerer, 0, 100), Advance(0, 0), Advance(0, 0), Request(DeleteRoom("r"), 0),
                   Advance(0, 0), Advance(0, 0)];
    UpToWaiting(before);
    Extend(NO_CAPS, before, Request(PublishTo("r", Offerer, blob), 0));
    LatePublish(blob);
    assert MissesBlob(before + [Request(PublishTo("r", Offerer, blob), 0)], blob);
  }
}
