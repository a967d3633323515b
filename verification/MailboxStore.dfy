/**
 The signaling server's store: rooms of two append-only mailboxes, each with a notification that is counted rather
 than waited on.  A notified future is ready once its notification's count has moved since it was created.
 */
module MailboxStore {

  type RoomId = string
  type Blob = seq<bv8>
  type NotifyId = nat

  datatype Role = Offerer | Answerer

  datatype Fetch = Found(blob: Blob) | Done | Pending

  datatype Published = Seq(n: nat) | Refused | Capacity

  datatype Mailbox = Mailbox(blobs: seq<Blob>, done: bool, notify: NotifyId)

  datatype Room = Room(offerer: Mailbox, answerer: Mailbox, lastTouched: nat)

  /** `maxRooms` and `maxBlobs` of zero mean no cap. */
  datatype Limits = Limits(ttl: nat, maxRooms: nat, maxBlobs: nat)

  /** `wakes[n]` counts the `notify_waiters` calls on notification `n`. */
  datatype Store = Store(rooms: map<RoomId, Room>, wakes: seq<nat>)

  function Box(room: Room, role: Role): Mailbox {
    match role case Offerer => room.offerer case Answerer => room.answerer
  }

  function SetBox(room: Room, role: Role, box: Mailbox): Room {
    match role case Offerer => room.(offerer := box) case Answerer => room.(answerer := box)
  }

  /** Classify a fetch of blob `n`. */
  function Peek(box: Mailbox, n: nat): Fetch {
    if n < |box.blobs| then Found(box.blobs[n]) else if box.done then Done else Pending
  }

  function Wake(s: Store, n: NotifyId): Store {
    if n < |s.wakes| then s.(wakes := s.wakes[n := s.wakes[n] + 1]) else s
  }

  /** The store with `room` present and touched at `now`. */
  function Entry(s: Store, room: RoomId, now: nat): Store {
    if room in s.rooms then s.(rooms := s.rooms[room := s.rooms[room].(lastTouched := now)])
    else
      var n := |s.wakes|;
      Store(s.rooms[room := Room(Mailbox([], false, n), Mailbox([], false, n + 1), now)], s.wakes + [0, 0])
  }

  /** The store with one mailbox of a present room replaced, and its waiters woken. */
  function Put(s: Store, room: RoomId, role: Role, box: Mailbox): Store
    requires room in s.rooms
  {
    Wake(s.(rooms := s.rooms[room := SetBox(s.rooms[room], role, box)]), box.notify)
  }

  function Publish(s: Store, limits: Limits, room: RoomId, role: Role, blob: Blob, now: nat): (Store, Published) {
    if room !in s.rooms && limits.maxRooms != 0 && |s.rooms| >= limits.maxRooms then (s, Capacity)
    else
      var e := Entry(s, room, now);
      var box := Box(e.rooms[room], role);
      if box.done then (e, Refused)
      else if limits.maxBlobs != 0 && |box.blobs| >= limits.maxBlobs then (e, Capacity)
      else (Put(e, room, role, box.(blobs := box.blobs + [blob])), Seq(|box.blobs|))
  }

  function MarkDone(s: Store, room: RoomId, role: Role, now: nat): (Store, nat) {
    var e := Entry(s, room, now);
    var box := Box(e.rooms[room], role);
    (Put(e, room, role, box.(done := true)), |box.blobs|)
  }

  function FetchNow(s: Store, room: RoomId, role: Role, n: nat, now: nat): (Store, Fetch, NotifyId) {
    var e := Entry(s, room, now);
    var box := Box(e.rooms[room], role);
    (e, Peek(box, n), box.notify)
  }

  function Delete(s: Store, room: RoomId): (Store, bool) {
    if room !in s.rooms then (s, false)
    else
      var r := s.rooms[room];
      (Wake(Wake(s.(rooms := s.rooms - {room}), r.offerer.notify), r.answerer.notify), true)
  }

  ghost function Expired(s: Store, limits: Limits, now: nat): set<RoomId> {
    set k | k in s.rooms && now - s.rooms[k].lastTouched > limits.ttl
  }

  ghost predicate Belongs(s: Store, n: NotifyId, keys: set<RoomId>) {
    exists k :: k in keys && k in s.rooms && (s.rooms[k].offerer.notify == n || s.rooms[k].answerer.notify == n)
  }

  /** The store without the rooms in `keys`, their waiters woken. */
  ghost function Without(s: Store, keys: set<RoomId>): Store {
    Store(s.rooms - keys,
          seq(|s.wakes|, i requires 0 <= i < |s.wakes| => s.wakes[i] + if Belongs(s, i, keys) then 1 else 0))
  }

  ghost function EvictExpired(s: Store, limits: Limits, now: nat): Store {
    Without(s, Expired(s, limits, now))
  }

  // ----- notifications are private to one mailbox of one incarnation of a room -----

  ghost predicate RoomOk(s: Store, k: RoomId)
    requires k in s.rooms
  {
    var r := s.rooms[k];
    r.offerer.notify < |s.wakes| && r.answerer.notify < |s.wakes| && r.offerer.notify != r.answerer.notify
  }

  ghost predicate Apart(s: Store, k: RoomId, l: RoomId)
    requires k in s.rooms && l in s.rooms
  {
    var a, b := s.rooms[k], s.rooms[l];
    && a.offerer.notify != b.offerer.notify && a.offerer.notify != b.answerer.notify
    && a.answerer.notify != b.offerer.notify && a.answerer.notify != b.answerer.notify
  }

  ghost predicate Inv(s: Store) {
    && (forall k :: k in s.rooms ==> RoomOk(s, k))
    && (forall k, l :: k in s.rooms && l in s.rooms && k != l ==> Apart(s, k, l))
  }

  lemma EntryKeepsInv(s: Store, room: RoomId, now: nat)
    requires Inv(s)
    ensures Inv(Entry(s, room, now)) && room in Entry(s, room, now).rooms
  {
    var e := Entry(s, room, now);
    forall k | k in e.rooms
      ensures RoomOk(e, k)
    {
      assert k in s.rooms ==> RoomOk(s, k);
    }
    forall k, l | k in e.rooms && l in e.rooms && k != l
      ensures Apart(e, k, l)
    {
      assert k in s.rooms ==> RoomOk(s, k);
      assert l in s.rooms ==> RoomOk(s, l);
      assert k in s.rooms && l in s.rooms ==> Apart(s, k, l);
    }
  }

  lemma PutKeepsInv(s: Store, room: RoomId, role: Role, box: Mailbox)
    requires Inv(s) && room in s.rooms && box.notify == Box(s.rooms[room], role).notify
    ensures Inv(Put(s, room, role, box))
  {
    var u := Put(s, room, role, box);
    assert RoomOk(s, room);
    forall k | k in u.rooms
      ensures RoomOk(u, k)
    {
      assert RoomOk(s, k);
    }
    forall k, l | k in u.rooms && l in u.rooms && k != l
      ensures Apart(u, k, l)
    {
      assert Apart(s, k, l);
    }
  }

  // ----- one request on the store -----

  datatype Request =
    | PublishTo(room: RoomId, role: Role, blob: Blob)
    | MarkDoneOf(room: RoomId, role: Role)
    | FetchFrom(room: RoomId, role: Role, n: nat)
    | DeleteRoom(room: RoomId)
    | EvictRooms

  ghost function Serve(s: Store, limits: Limits, request: Request, now: nat): Store {
    match request
    case PublishTo(room, role, blob) => Publish(s, limits, room, role, blob, now).0
    case MarkDoneOf(room, role) => MarkDone(s, room, role, now).0
    case FetchFrom(room, role, n) => FetchNow(s, room, role, n, now).0
    case DeleteRoom(room) => Delete(s, room).0
    case EvictRooms => EvictExpired(s, limits, now)
  }

  lemma ServeKeepsInv(s: Store, limits: Limits, request: Request, now: nat)
    requires Inv(s)
    ensures Inv(Serve(s, limits, request, now))
    ensures |s.wakes| <= |Serve(s, limits, request, now).wakes|
  {
    match request
    case PublishTo(room, role, blob) =>
      EntryKeepsInv(s, room, now);
      var e := Entry(s, room, now);
      var box := Box(e.rooms[room], role);
      PutKeepsInv(e, room, role, box.(blobs := box.blobs + [blob]));
    case MarkDoneOf(room, role) =>
      EntryKeepsInv(s, room, now);
      var e := Entry(s, room, now);
      PutKeepsInv(e, room, role, Box(e.rooms[room], role).(done := true));
    case FetchFrom(room, _, _) => EntryKeepsInv(s, room, now);
    case DeleteRoom(room) => RemovalKeepsInv(s, Serve(s, limits, request, now));
    case EvictRooms => RemovalKeepsInv(s, Serve(s, limits, request, now));
  }

  lemma RemovalKeepsInv(s: Store, u: Store)
    requires Inv(s) && |u.wakes| == |s.wakes|
    requires forall k :: k in u.rooms ==> k in s.rooms && u.rooms[k] == s.rooms[k]
    ensures Inv(u)
  {
    forall k | k in u.rooms
      ensures RoomOk(u, k)
    {
      assert RoomOk(s, k);
    }
    forall k, l | k in u.rooms && l in u.rooms && k != l
      ensures Apart(u, k, l)
    {
      assert Apart(s, k, l);
    }
  }

  // ----- what the protocol promises of answers -----

  /** What a fetch would be answered now; a room that does not exist answers like a fresh one. */
  ghost function Answer(s: Store, room: RoomId, role: Role, n: nat): Fetch {
    if room in s.rooms then Peek(Box(s.rooms[room], role), n) else Pending
  }

  predicate Removes(s: Store, limits: Limits, request: Request, now: nat, room: RoomId) {
    match request
    case DeleteRoom(k) => k == room
    case EvictRooms => room in s.rooms && now - s.rooms[room].lastTouched > limits.ttl
    case _ => false
  }

  /** The room's mailbox may only have grown, not at all once done; it is still the same incarnation. */
  ghost predicate BoxLater(a: Mailbox, b: Mailbox) {
    && a.notify == b.notify && a.blobs <= b.blobs
    && (a.done ==> b.done && b.blobs == a.blobs)
  }

  lemma ServeOnlyAppends(s: Store, limits: Limits, request: Request, now: nat, room: RoomId, role: Role)
    requires room in s.rooms && !Removes(s, limits, request, now, room)
    ensures var u := Serve(s, limits, request, now);
      room in u.rooms && BoxLater(Box(s.rooms[room], role), Box(u.rooms[room], role))
  {
  }

  ghost function ServeAll(s: Store, limits: Limits, requests: seq<(Request, nat)>): Store {
    if requests == [] then s
    else
      var last := requests[|requests| - 1];
      Serve(ServeAll(s, limits, requests[..|requests| - 1]), limits, last.0, last.1)
  }

  ghost predicate KeepsRoom(s: Store, limits: Limits, requests: seq<(Request, nat)>, room: RoomId) {
    forall k :: 0 <= k < |requests| ==> KeepsRoomAt(s, limits, requests, k, room)
  }

  ghost predicate KeepsRoomAt(s: Store, limits: Limits, requests: seq<(Request, nat)>, k: nat, room: RoomId)
    requires k < |requests|
  {
    !Removes(ServeAll(s, limits, requests[..k]), limits, requests[k].0, requests[k].1, room)
  }

  /**
   Answers are idempotent and final: as long as the room is neither deleted nor evicted, a blob once answered is
   answered for good, a "done" too, and marking done freezes the mailbox.
   */
  lemma {:induction false} AnswersAreStable(
    s: Store, limits: Limits, requests: seq<(Request, nat)>, room: RoomId, role: Role, n: nat)
    requires room in s.rooms && KeepsRoom(s, limits, requests, room)
    ensures var u := ServeAll(s, limits, requests);
      && room in u.rooms && BoxLater(Box(s.rooms[room], role), Box(u.rooms[room], role))
      && (!Answer(s, room, role, n).Pending? ==> Answer(u, room, role, n) == Answer(s, room, role, n))
  {
    if requests != [] {
      var k := |requests| - 1;
      var before := requests[..k];
      forall j | 0 <= j < k
        ensures KeepsRoomAt(s, limits, before, j, room)
      {
        assert KeepsRoomAt(s, limits, requests, j, room) && before[..j] == requests[..j];
      }
      AnswersAreStable(s, limits, before, room, role, n);
      assert KeepsRoomAt(s, limits, requests, k, room);
      ServeOnlyAppends(ServeAll(s, limits, before), limits, requests[k].0, requests[k].1, room, role);
    }
  }

  /**
   A publish is accepted exactly when the room may exist, the mailbox is not done and has space; the number it answers
   with is the one blob the mailbox did not have yet, and fetching that number gives the blob back.
   */
  lemma PublishedIsFetched(s: Store, limits: Limits, room: RoomId, role: Role, blob: Blob, now: nat, later: nat)
    ensures var (u, r) := Publish(s, limits, room, role, blob, now);
      && (r.Seq? ==>
            && FetchNow(u, room, role, r.n, later).1 == Found(blob)
            && Answer(s, room, role, r.n) == Pending
            && forall k :: 0 <= k < r.n ==> Answer(s, room, role, k).Found?)
      && (r.Refused? <==> room in s.rooms && Box(s.rooms[room], role).done)
      && (r.Capacity? <==> !r.Refused? && (Crowded(s, limits, room) || Full(s, limits, room, role)))
  {
  }

  /** The room would be one too many, or its mailbox holds as many blobs as it may. */
  predicate Crowded(s: Store, limits: Limits, room: RoomId) {
    room !in s.rooms && limits.maxRooms != 0 && |s.rooms| >= limits.maxRooms
  }

  predicate Full(s: Store, limits: Limits, room: RoomId, role: Role) {
    limits.maxBlobs != 0 && room in s.rooms && |Box(s.rooms[room], role).blobs| >= limits.maxBlobs
  }

  /** `done` answers with the length at which fetches are told "done", keeps every blob, and refuses what follows. */
  lemma DoneEndsTheMailbox(s: Store, limits: Limits, room: RoomId, role: Role, blob: Blob, k: nat, now: nat, later: nat)
    ensures var (u, length) := MarkDone(s, room, role, now);
      && Publish(u, limits, room, role, blob, later).1 == Refused
      && FetchNow(u, room, role, k, later).1 == (if k < length then Answer(s, room, role, k) else Done)
      && (k < length <==> Answer(s, room, role, k).Found?)
  {
  }

  /** The cap on rooms binds publishes only: a fetch (or a `done`) of a new room at the cap exceeds it. */
  lemma FetchRespectsTheCapIff(s: Store, limits: Limits, room: RoomId, role: Role, n: nat, blob: Blob, now: nat)
    requires 0 < limits.maxRooms && |s.rooms| <= limits.maxRooms
    ensures |Publish(s, limits, room, role, blob, now).0.rooms| <= limits.maxRooms
    ensures |FetchNow(s, room, role, n, now).0.rooms| <= limits.maxRooms <==>
            room in s.rooms || |s.rooms| < limits.maxRooms
    ensures |MarkDone(s, room, role, now).0.rooms| <= limits.maxRooms <==>
            room in s.rooms || |s.rooms| < limits.maxRooms
  {
    var e := Entry(s, room, now);
    if room in s.rooms {
      assert e.rooms.Keys == s.rooms.Keys;
    } else {
      assert e.rooms.Keys == s.rooms.Keys + {room};
    }
    assert |e.rooms| == |e.rooms.Keys| && |s.rooms| == |s.rooms.Keys|;
    var done := MarkDone(s, room, role, now).0;
    assert done.rooms.Keys == e.rooms.Keys && |done.rooms| == |done.rooms.Keys|;
    var posted := Publish(s, limits, room, role, blob, now).0;
    assert posted.rooms.Keys == e.rooms.Keys || posted == s;
    assert |posted.rooms| == |posted.rooms.Keys|;
  }

  // ----- the store as an object -----

  class Rooms {
    const limits: Limits
    var rooms: map<RoomId, Room>
    var wakes: seq<nat>

    constructor (limits: Limits)
      ensures View() == Store(map[], []) && Inv(View()) && this.limits == limits
    {
      this.limits, rooms, wakes := limits, map[], [];
    }

    ghost function View(): Store
      reads this
    {
      Store(rooms, wakes)
    }

    method Touch(room: RoomId, now: nat)
      modifies this
      ensures View() == Entry(old(View()), room, now)
    {
      if room !in rooms {
        rooms := rooms[room := Room(Mailbox([], false, |wakes|), Mailbox([], false, |wakes| + 1), now)];
        wakes := wakes + [0, 0];
      } else {
        rooms := rooms[room := rooms[room].(lastTouched := now)];
      }
    }

    method NotifyWaiters(n: NotifyId)
      modifies this`wakes
      ensures View() == Wake(old(View()), n)
    {
      if n < |wakes| {
        wakes := wakes[n := wakes[n] + 1];
      }
    }

    method PostBlob(room: RoomId, role: Role, blob: Blob, now: nat) returns (r: Published)
      requires Inv(View())
      modifies this
      ensures (View(), r) == Publish(old(View()), limits, room, role, blob, now)
      ensures Inv(View())
    {
      ServeKeepsInv(View(), limits, PublishTo(room, role, blob), now);
      if room !in rooms && limits.maxRooms != 0 && |rooms| >= limits.maxRooms {
        return Capacity;
      }
      Touch(room, now);
      var box := Box(rooms[room], role);
      if box.done {
        return Refused;
      }
      if limits.maxBlobs != 0 && |box.blobs| >= limits.maxBlobs {
        return Capacity;
      }
      rooms := rooms[room := SetBox(rooms[room], role, box.(blobs := box.blobs + [blob]))];
      NotifyWaiters(box.notify);
      r := Seq(|box.blobs|);
    }

    method FinishBox(room: RoomId, role: Role, now: nat) returns (len: nat)
      requires Inv(View())
      modifies this
      ensures (View(), len) == MarkDone(old(View()), room, role, now)
      ensures Inv(View())
    {
      ServeKeepsInv(View(), limits, MarkDoneOf(room, role), now);
      Touch(room, now);
      var box := Box(rooms[room], role);
      rooms := rooms[room := SetBox(rooms[room], role, box.(done := true))];
      len := |box.blobs|;
      NotifyWaiters(box.notify);
    }

    method FetchOnce(room: RoomId, role: Role, n: nat, now: nat) returns (r: Fetch, notify: NotifyId)
      requires Inv(View())
      modifies this
      ensures (View(), r, notify) == FetchNow(old(View()), room, role, n, now)
      ensures Inv(View())
    {
      EntryKeepsInv(View(), room, now);
      Touch(room, now);
      var box := Box(rooms[room], role);
      r, notify := Peek(box, n), box.notify;
    }

    method DeleteOne(room: RoomId) returns (existed: bool)
      requires Inv(View())
      modifies this
      ensures (View(), existed) == Delete(old(View()), room)
      ensures Inv(View())
    {
      ServeKeepsInv(View(), limits, DeleteRoom(room), 0);
      if room !in rooms {
        return false;
      }
      var r := rooms[room];
      rooms := rooms - {room};
      NotifyWaiters(r.offerer.notify);
      NotifyWaiters(r.answerer.notify);
      existed := true;
    }

    /** Collect the expired rooms, then remove them one by one, waking each one's waiters. */
    method EvictExpiredRooms(now: nat) returns (evicted: nat)
      requires Inv(View())
      modifies this
      ensures View() == EvictExpired(old(View()), limits, now)
      ensures evicted == |Expired(old(View()), limits, now)|
      ensures Inv(View())
    {
      ghost var was := View();
      var expired := set k | k in rooms && now - rooms[k].lastTouched > limits.ttl;
      assert expired == Expired(was, limits, now);
      evicted := |expired|;
      var left := expired;
      assert wakes == Without(was, {}).wakes;
      assert rooms == Without(was, {}).rooms;
      while left != {}
        invariant left <= expired
        invariant View() == Without(was, expired - left)
      {
        var key :| key in left;
        RemoveOne(was, expired - left, key);
        assert expired - (left - {key}) == expired - left + {key};
        var r := rooms[key];
        rooms := rooms - {key};
        NotifyWaiters(r.offerer.notify);
        NotifyWaiters(r.answerer.notify);
        left := left - {key};
      }
      assert expired - left == expired;
      RemovalKeepsInv(was, View());
    }
  }

  /** Removing one more room bumps its two notifications and no others. */
  lemma RemoveOne(s: Store, gone: set<RoomId>, key: RoomId)
    requires Inv(s) && key in s.rooms && key !in gone
    ensures key in Without(s, gone).rooms && Without(s, gone).rooms[key] == s.rooms[key]
    ensures Delete(Without(s, gone), key).0 == Without(s, gone + {key})
  {
    var u, v := Delete(Without(s, gone), key).0, Without(s, gone + {key});
    assert RoomOk(s, key);
    assert u.rooms == v.rooms;
    forall i | 0 <= i < |s.wakes|
      ensures u.wakes[i] == v.wakes[i]
    {
      if i == s.rooms[key].offerer.notify || i == s.rooms[key].answerer.notify {
        assert !Belongs(s, i, gone) by {
          forall k | k in gone && k in s.rooms
            ensures s.rooms[k].offerer.notify != i && s.rooms[k].answerer.notify != i
          {
            assert Apart(s, k, key);
          }
        }
        assert Belongs(s, i, gone + {key});
      } else {
        assert Belongs(s, i, gone + {key}) <==> Belongs(s, i, gone);
      }
    }
  }
}
