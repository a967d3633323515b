/**
 The connection state of the in-guest (WASIp3) implementation as values: what each event, close, claim and
 pop does to it, the invariant all of them keep, and how one channel refines the bounded queue.
 */
module Wasip3State {
  import opened Collections
  import Fifo = BoundedFifo

  type ChannelId = nat

  datatype Message = Message(text: bool, data: seq<bv8>)

  function Size(m: Message): nat { |m.data| }

  datatype Channel = Channel(
    id: ChannelId,
    name: string,
    inbox: seq<Message>,
    inboxBytes: int,
    overflowed: bool,
    streamClaimed: bool,
    closed: bool)

  /**
   The sans-I/O core, reduced to what the driver observes of it: the datagrams waiting to be sent, how often
   it was closed, how many waiting datagrams those closes threw away, and the channels it was told to reset.
   */
  datatype Core = Core(transmit: seq<nat>, closes: nat, discarded: nat, resets: seq<ChannelId>)

  datatype Shared = Shared(
    core: Core,
    channels: seq<Channel>,
    connected: bool,
    failed: bool,
    closed: bool,
    closeRequested: bool,
    shutdownComplete: bool,
    drainDeadline: Option<nat>)

  datatype PeerEvent =
    | Connected
    | Failed
    | Closed
    | ChannelOpen(id: ChannelId, name: string)
    | ChannelClosed(id: ChannelId)
    | Inbound(id: ChannelId, message: Message)

  const CLOSE_DRAIN: nat := 1_000_000_000

  function Fresh(): Shared {
    Shared(Core([], 0, 0, []), [], false, false, false, false, false, None)
  }

  function NewChannel(id: ChannelId, name: string, closed: bool): Channel {
    Channel(id, name, [], 0, false, false, closed)
  }

  predicate Dead(s: Shared) { s.closed || s.failed }

  /** The position of channel `id`, or the number of channels when it is not tracked. */
  function Index(channels: seq<Channel>, id: ChannelId): (i: nat)
    ensures i <= |channels|
    ensures i < |channels| ==> channels[i].id == id
    ensures forall j :: 0 <= j < i ==> channels[j].id != id
  {
    if channels == [] || channels[0].id == id then 0 else 1 + Index(channels[1..], id)
  }

  predicate Tracked(s: Shared, id: ChannelId) { Index(s.channels, id) < |s.channels| }

  function Lookup(s: Shared, id: ChannelId): Channel
    requires Tracked(s, id)
  {
    s.channels[Index(s.channels, id)]
  }

  function CloseAll(channels: seq<Channel>): seq<Channel> {
    seq(|channels|, i requires 0 <= i < |channels| => channels[i].(closed := true))
  }

  function Update(s: Shared, c: Channel): Shared
    requires Tracked(s, c.id)
  {
    s.(channels := s.channels[Index(s.channels, c.id) := c])
  }

  /** An inbound message reaching its channel: dropped, buffered, or the one that overflows the bound. */
  function Enqueue(limit: nat, c: Channel, message: Message): Channel {
    if c.overflowed || c.closed then c
    else if c.inboxBytes + Size(message) > limit then c.(overflowed := true, closed := true)
    else c.(inboxBytes := c.inboxBytes + Size(message), inbox := c.inbox + [message])
  }

  function ApplyEvent(limit: nat, s: Shared, event: PeerEvent): Shared {
    match event
    case Connected => s.(connected := true)
    case Failed => s.(failed := true, channels := CloseAll(s.channels))
    case Closed => s.(closed := true, shutdownComplete := true, channels := CloseAll(s.channels))
    case ChannelOpen(id, name) =>
      if Tracked(s, id) then s else s.(channels := s.channels + [NewChannel(id, name, Dead(s))])
    case ChannelClosed(id) =>
      if Tracked(s, id) then Update(s, Lookup(s, id).(closed := true)) else s
    case Inbound(id, message) =>
      if !Tracked(s, id) then s
      else
        var c := Lookup(s, id);
        var d := Enqueue(limit, c, message);
        var t := Update(s, d);
        if d.overflowed && !c.overflowed then t.(core := s.core.(resets := s.core.resets + [id])) else t
  }

  function ApplyAll(limit: nat, s: Shared, events: seq<PeerEvent>): Shared {
    if events == [] then s
    else ApplyEvent(limit, ApplyAll(limit, s, events[..|events| - 1]), events[|events| - 1])
  }

  function BeginClose(s: Shared, now: nat): Shared {
    if Dead(s) then s
    else s.(closed := true, closeRequested := true, channels := CloseAll(s.channels),
            drainDeadline := Some(now + CLOSE_DRAIN))
  }

  /** What the pump leaves behind when it returns. */
  function Terminate(s: Shared): Shared {
    s.(closed := true, channels := CloseAll(s.channels))
  }

  function Claim(s: Shared, id: ChannelId): Shared
    requires Tracked(s, id)
  {
    Update(s, Lookup(s, id).(streamClaimed := true))
  }

  function Pop(s: Shared, id: ChannelId): Shared
    requires Tracked(s, id) && Lookup(s, id).inbox != []
  {
    var c := Lookup(s, id);
    Update(s, c.(inbox := c.inbox[1..], inboxBytes := c.inboxBytes - Size(c.inbox[0])))
  }

  // ----- the invariant and what only moves one way -----

  ghost predicate ChannelInv(limit: nat, c: Channel) {
    && c.inboxBytes == Fifo.Bytes(Size, c.inbox) <= limit
    && (c.overflowed ==> c.closed)
  }

  ghost predicate UniqueIds(channels: seq<Channel>) {
    forall i, j :: 0 <= i < j < |channels| ==> channels[i].id != channels[j].id
  }

  ghost predicate Inv(limit: nat, s: Shared) {
    && UniqueIds(s.channels)
    && (forall i :: 0 <= i < |s.channels| ==> ChannelInv(limit, s.channels[i]))
    && (Dead(s) ==> forall i :: 0 <= i < |s.channels| ==> s.channels[i].closed)
    && (s.shutdownComplete ==> s.closed)
    && (s.drainDeadline.Some? ==> s.closed)
    && (s.closeRequested ==> s.closed)
  }

  /** `d` may follow `c`: identity is fixed and nothing latched is ever undone. */
  ghost predicate ChannelLater(c: Channel, d: Channel) {
    && d.id == c.id && d.name == c.name
    && (c.overflowed ==> d.overflowed)
    && (c.streamClaimed ==> d.streamClaimed)
    && (c.closed ==> d.closed)
  }

  /** `t` may follow `s`: channels are only appended, in open order, and no flag is ever reset. */
  ghost predicate Later(s: Shared, t: Shared) {
    && |s.channels| <= |t.channels|
    && (forall i :: 0 <= i < |s.channels| ==> ChannelLater(s.channels[i], t.channels[i]))
    && (s.connected ==> t.connected)
    && (s.failed ==> t.failed)
    && (s.closed ==> t.closed)
    && (s.shutdownComplete ==> t.shutdownComplete)
    && (s.drainDeadline.Some? ==> t.drainDeadline == s.drainDeadline)
  }

  lemma LaterTransitive(s: Shared, t: Shared, u: Shared)
    requires Later(s, t) && Later(t, u)
    ensures Later(s, u)
  {
    forall i | 0 <= i < |s.channels|
      ensures ChannelLater(s.channels[i], u.channels[i])
    {
      assert ChannelLater(s.channels[i], t.channels[i]) && ChannelLater(t.channels[i], u.channels[i]);
    }
  }

  lemma UpdateKeepsInv(limit: nat, s: Shared, c: Channel)
    requires Inv(limit, s) && Tracked(s, c.id)
    requires ChannelInv(limit, c) && ChannelLater(Lookup(s, c.id), c)
    ensures Inv(limit, Update(s, c)) && Later(s, Update(s, c))
  {
    var i, cs := Index(s.channels, c.id), Update(s, c).channels;
    assert forall j :: 0 <= j < |cs| ==> cs[j].id == s.channels[j].id;
    assert forall j :: 0 <= j < |cs| && j != i ==> cs[j] == s.channels[j];
  }

  lemma ClosingKeepsInv(limit: nat, s: Shared)
    requires Inv(limit, s)
    ensures Inv(limit, s.(channels := CloseAll(s.channels))) && Later(s, s.(channels := CloseAll(s.channels)))
  {
    var cs := CloseAll(s.channels);
    forall i, j | 0 <= i < j < |cs|
      ensures cs[i].id != cs[j].id
    {
      assert s.channels[i].id != s.channels[j].id;
    }
    forall i | 0 <= i < |cs|
      ensures ChannelInv(limit, cs[i])
    {
      assert ChannelInv(limit, s.channels[i]);
    }
  }

  lemma EnqueueKeepsInv(limit: nat, c: Channel, m: Message)
    requires ChannelInv(limit, c)
    ensures ChannelInv(limit, Enqueue(limit, c, m)) && ChannelLater(c, Enqueue(limit, c, m))
  {
    Fifo.BytesSnoc(Size, c.inbox, m);
  }

  lemma OpenKeepsInv(limit: nat, s: Shared, id: ChannelId, name: string)
    requires Inv(limit, s)
    ensures var t := ApplyEvent(limit, s, ChannelOpen(id, name)); Inv(limit, t) && Later(s, t)
  {
    var t := ApplyEvent(limit, s, ChannelOpen(id, name));
    if !Tracked(s, id) {
      assert forall i :: 0 <= i < |s.channels| ==> t.channels[i] == s.channels[i];
      assert ChannelInv(limit, NewChannel(id, name, Dead(s)));
    }
  }

  lemma ApplyEventKeepsInv(limit: nat, s: Shared, event: PeerEvent)
    requires Inv(limit, s)
    ensures Inv(limit, ApplyEvent(limit, s, event)) && Later(s, ApplyEvent(limit, s, event))
  {
    match event
    case Connected =>
    case Failed => ClosingKeepsInv(limit, s);
    case Closed => ClosingKeepsInv(limit, s);
    case ChannelOpen(id, name) => OpenKeepsInv(limit, s, id, name);
    case ChannelClosed(id) =>
      if Tracked(s, id) {
        assert ChannelInv(limit, Lookup(s, id));
        UpdateKeepsInv(limit, s, Lookup(s, id).(closed := true));
      }
    case Inbound(id, m) =>
      if Tracked(s, id) {
        assert ChannelInv(limit, Lookup(s, id));
        EnqueueKeepsInv(limit, Lookup(s, id), m);
        UpdateKeepsInv(limit, s, Enqueue(limit, Lookup(s, id), m));
      }
  }

  lemma {:induction false} ApplyAllKeepsInv(limit: nat, s: Shared, events: seq<PeerEvent>)
    requires Inv(limit, s)
    ensures Inv(limit, ApplyAll(limit, s, events)) && Later(s, ApplyAll(limit, s, events))
  {
    if events != [] {
      var before := events[..|events| - 1];
      ApplyAllKeepsInv(limit, s, before);
      ApplyEventKeepsInv(limit, ApplyAll(limit, s, before), events[|events| - 1]);
      LaterTransitive(s, ApplyAll(limit, s, before), ApplyAll(limit, s, events));
    }
  }

  lemma BeginCloseKeepsInv(limit: nat, s: Shared, now: nat)
    requires Inv(limit, s)
    ensures Inv(limit, BeginClose(s, now)) && Later(s, BeginClose(s, now)) && Dead(BeginClose(s, now))
  {
    ClosingKeepsInv(limit, s);
  }

  lemma PopKeepsInv(limit: nat, s: Shared, id: ChannelId)
    requires Inv(limit, s) && Tracked(s, id) && Lookup(s, id).inbox != []
    ensures Inv(limit, Pop(s, id)) && Later(s, Pop(s, id))
  {
    var c := Lookup(s, id);
    assert ChannelInv(limit, c);
    UpdateKeepsInv(limit, s, c.(inbox := c.inbox[1..], inboxBytes := c.inboxBytes - Size(c.inbox[0])));
  }

  lemma ClaimKeepsInv(limit: nat, s: Shared, id: ChannelId)
    requires Inv(limit, s) && Tracked(s, id)
    ensures Inv(limit, Claim(s, id)) && Later(s, Claim(s, id))
  {
    assert ChannelInv(limit, Lookup(s, id));
    UpdateKeepsInv(limit, s, Lookup(s, id).(streamClaimed := true));
  }

  /** A tracked channel stays tracked, at the same position. */
  lemma LaterKeepsIndex(s: Shared, t: Shared, id: ChannelId)
    requires Later(s, t) && Tracked(s, id)
    ensures Tracked(t, id) && Index(t.channels, id) == Index(s.channels, id)
    ensures ChannelLater(Lookup(s, id), Lookup(t, id))
  {
    var i, j := Index(s.channels, id), Index(t.channels, id);
    assert ChannelLater(s.channels[i], t.channels[i]);
    assert forall k :: 0 <= k < i ==> ChannelLater(s.channels[k], t.channels[k]) && s.channels[k].id != id;
  }

  // ----- one channel refines the bounded queue -----

  ghost predicate Refines(f: Fifo.Fifo<Message>, c: Channel) {
    && f.cursor <= |f.accepted|
    && c.inbox == Fifo.Backlog(f)
    && c.overflowed == f.overflowed
    && c.closed == f.ended
  }

  /** The queue operations that applying `event` to `s` performs on channel `id`. */
  ghost function EventOps(s: Shared, event: PeerEvent, id: ChannelId): seq<Fifo.Op<Message>> {
    if !Tracked(s, id) then
      if event.ChannelOpen? && event.id == id && Dead(s) then [Fifo.Close] else []
    else TrackedOps(event, id)
  }

  ghost function TrackedOps(event: PeerEvent, id: ChannelId): seq<Fifo.Op<Message>> {
    match event
    case Failed => [Fifo.Close]
    case Closed => [Fifo.Close]
    case ChannelClosed(i) => if i == id then [Fifo.Close] else []
    case Inbound(i, m) => if i == id then [Fifo.Arrive(m)] else []
    case _ => []
  }

  ghost function EventsOps(limit: nat, s: Shared, events: seq<PeerEvent>, id: ChannelId): seq<Fifo.Op<Message>> {
    if events == [] then []
    else
      var before := events[..|events| - 1];
      EventsOps(limit, s, before, id) + EventOps(ApplyAll(limit, s, before), events[|events| - 1], id)
  }

  /** `ops` is a history of channel `id`: empty until the channel is tracked, then one the channel refines. */
  ghost predicate History(limit: nat, s: Shared, id: ChannelId, ops: seq<Fifo.Op<Message>>) {
    if Tracked(s, id) then Refines(Fifo.Run(limit, Size, ops), Lookup(s, id)) else ops == []
  }

  lemma OneMore(limit: nat, ops: seq<Fifo.Op<Message>>, op: Fifo.Op<Message>)
    ensures Fifo.Run(limit, Size, ops + [op]) == Fifo.Step(limit, Size, Fifo.Run(limit, Size, ops), op)
  {
    assert (ops + [op])[..|ops + [op]| - 1] == ops;
  }

  /** Updating one channel leaves what is found under every other id alone. */
  lemma LookupAfterUpdate(s: Shared, c: Channel, id: ChannelId)
    requires Tracked(s, c.id) && Later(s, Update(s, c))
    ensures Tracked(Update(s, c), id) <==> Tracked(s, id)
    ensures Tracked(s, id) ==> Lookup(Update(s, c), id) == if id == c.id then c else Lookup(s, id)
  {
    var t := Update(s, c);
    if Tracked(s, id) {
      LaterKeepsIndex(s, t, id);
    } else {
      assert forall i :: 0 <= i < |t.channels| ==> t.channels[i].id == s.channels[i].id;
    }
  }

  /** What `event` does to a tracked channel. */
  function ChannelAfter(limit: nat, c: Channel, event: PeerEvent): Channel {
    match event
    case Failed => c.(closed := true)
    case Closed => c.(closed := true)
    case ChannelClosed(i) => if i == c.id then c.(closed := true) else c
    case Inbound(i, m) => if i == c.id then Enqueue(limit, c, m) else c
    case _ => c
  }

  lemma UpdatedChannel(limit: nat, s: Shared, event: PeerEvent, id: ChannelId)
    requires Inv(limit, s) && (event.ChannelClosed? || event.Inbound?) && Tracked(s, event.id)
    ensures var t := ApplyEvent(limit, s, event);
      && (Tracked(t, id) <==> Tracked(s, id))
      && (Tracked(s, id) ==> Lookup(t, id) == ChannelAfter(limit, Lookup(s, id), event))
  {
    var c := Lookup(s, event.id);
    var d := ChannelAfter(limit, c, event);
    assert ChannelInv(limit, c);
    if event.Inbound? {
      EnqueueKeepsInv(limit, c, event.message);
    }
    UpdateLater(limit, s, event.id, d);
    LookupAfterUpdate(s, d, id);
  }

  lemma OpenedChannel(limit: nat, s: Shared, opening: ChannelId, name: string, id: ChannelId)
    requires Inv(limit, s) && !Tracked(s, opening)
    ensures var t := ApplyEvent(limit, s, ChannelOpen(opening, name));
      && (Tracked(t, id) <==> Tracked(s, id) || id == opening)
      && (Tracked(s, id) ==> Lookup(t, id) == Lookup(s, id))
      && (id == opening ==> Lookup(t, id) == NewChannel(id, name, Dead(s)))
  {
    var t := ApplyEvent(limit, s, ChannelOpen(opening, name));
    assert forall k :: 0 <= k < |s.channels| ==> t.channels[k] == s.channels[k];
    assert t.channels[|s.channels|].id == opening;
    if Tracked(s, id) {
      OpenKeepsInv(limit, s, opening, name);
      LaterKeepsIndex(s, t, id);
    }
  }

  lemma AllChannelsClosed(s: Shared, t: Shared, id: ChannelId)
    requires t.channels == CloseAll(s.channels)
    ensures Tracked(t, id) <==> Tracked(s, id)
    ensures Tracked(s, id) ==> Lookup(t, id) == Lookup(s, id).(closed := true)
  {
    assert forall k :: 0 <= k < |t.channels| ==> t.channels[k].id == s.channels[k].id;
  }

  /** What `event` does to the channel found under `id`, if anything is. */
  lemma LookupAfterEvent(limit: nat, s: Shared, event: PeerEvent, id: ChannelId)
    requires Inv(limit, s)
    ensures var t := ApplyEvent(limit, s, event);
      if Tracked(s, id) then Tracked(t, id) && Lookup(t, id) == ChannelAfter(limit, Lookup(s, id), event)
      else if event.ChannelOpen? && event.id == id then
        Tracked(t, id) && Lookup(t, id) == NewChannel(id, event.name, Dead(s))
      else !Tracked(t, id)
  {
    match event
    case Connected =>
    case ChannelOpen(i, name) =>
      if !Tracked(s, i) {
        OpenedChannel(limit, s, i, name, id);
      }
    case ChannelClosed(i) =>
      if Tracked(s, i) {
        UpdatedChannel(limit, s, event, id);
      }
    case Inbound(i, _) =>
      if Tracked(s, i) {
        UpdatedChannel(limit, s, event, id);
      }
    case _ => AllChannelsClosed(s, ApplyEvent(limit, s, event), id);
  }

  /** The event is the message that overflows its channel. */
  predicate Overflows(limit: nat, s: Shared, event: PeerEvent) {
    && event.Inbound? && Tracked(s, event.id)
    && var c := Lookup(s, event.id); !c.overflowed && !c.closed && c.inboxBytes + Size(event.message) > limit
  }

  /** What `event` does to the connection: each flag is latched by its own event, an overflow alone resets a channel. */
  lemma FlagsAfterEvent(limit: nat, s: Shared, event: PeerEvent)
    ensures var t := ApplyEvent(limit, s, event);
      && t.connected == (s.connected || event.Connected?)
      && t.failed == (s.failed || event.Failed?)
      && t.closed == (s.closed || event.Closed?)
      && t.shutdownComplete == (s.shutdownComplete || event.Closed?)
      && t.closeRequested == s.closeRequested && t.drainDeadline == s.drainDeadline
      && t.core == s.core.(resets := s.core.resets + if Overflows(limit, s, event) then [event.id] else [])
  {
    assert s.core.resets + [] == s.core.resets;
    if event.Inbound? {
      FlagsAfterMessage(limit, s, event.id, event.message);
    }
  }

  lemma FlagsAfterMessage(limit: nat, s: Shared, id: ChannelId, m: Message)
    ensures var t := ApplyEvent(limit, s, Inbound(id, m));
      var core := if Overflows(limit, s, Inbound(id, m)) then s.core.(resets := s.core.resets + [id]) else s.core;
      t == s.(core := core, channels := t.channels)
  {
  }

  lemma UpdateLater(limit: nat, s: Shared, i: ChannelId, c: Channel)
    requires Inv(limit, s) && Tracked(s, i) && ChannelLater(Lookup(s, i), c)
    ensures Later(s, Update(s, c))
  {
  }

  lemma EnqueueRefines(limit: nat, f: Fifo.Fifo<Message>, c: Channel, m: Message)
    requires Refines(f, c) && ChannelInv(limit, c)
    ensures Refines(Fifo.Step(limit, Size, f, Fifo.Arrive(m)), Enqueue(limit, c, m))
  {
    assert !f.ended ==> (f.accepted + [m])[f.cursor..] == Fifo.Backlog(f) + [m];
  }

  lemma TrackedExtends(limit: nat, c: Channel, event: PeerEvent, ops: seq<Fifo.Op<Message>>)
    requires ChannelInv(limit, c) && Refines(Fifo.Run(limit, Size, ops), c)
    ensures Refines(Fifo.Run(limit, Size, ops + TrackedOps(event, c.id)), ChannelAfter(limit, c, event))
  {
    var more := TrackedOps(event, c.id);
    if more == [] {
      assert ops + more == ops;
    } else {
      assert more == [more[0]];
      OneMore(limit, ops, more[0]);
      if more[0].Arrive? {
        EnqueueRefines(limit, Fifo.Run(limit, Size, ops), c, more[0].message);
      }
    }
  }

  lemma NewChannelRefines(limit: nat, id: ChannelId, name: string, dead: bool)
    ensures Refines(Fifo.Run(limit, Size, if dead then [Fifo.Close] else []), NewChannel(id, name, dead))
  {
    var none: seq<Fifo.Op<Message>> := [];
    OneMore(limit, none, Fifo.Close);
    assert none + [Fifo.Close] == [Fifo.Close];
  }

  lemma EventExtendsHistory(limit: nat, s: Shared, event: PeerEvent, id: ChannelId, ops: seq<Fifo.Op<Message>>)
    requires Inv(limit, s) && History(limit, s, id, ops)
    ensures History(limit, ApplyEvent(limit, s, event), id, ops + EventOps(s, event, id))
  {
    LookupAfterEvent(limit, s, event, id);
    if Tracked(s, id) {
      assert ChannelInv(limit, Lookup(s, id));
      TrackedExtends(limit, Lookup(s, id), event, ops);
    } else {
      assert ops + EventOps(s, event, id) == EventOps(s, event, id);
      if event.ChannelOpen? {
        NewChannelRefines(limit, id, event.name, Dead(s));
      }
    }
  }

  lemma LastEventOps(limit: nat, s: Shared, events: seq<PeerEvent>, id: ChannelId, ops: seq<Fifo.Op<Message>>)
    requires events != []
    ensures var before, last := events[..|events| - 1], events[|events| - 1];
      ops + EventsOps(limit, s, events, id)
      == ops + EventsOps(limit, s, before, id) + EventOps(ApplyAll(limit, s, before), last, id)
  {
    var before, last := events[..|events| - 1], events[|events| - 1];
    var a, b := EventsOps(limit, s, before, id), EventOps(ApplyAll(limit, s, before), last, id);
    assert ops + (a + b) == ops + a + b;
  }

  lemma {:induction false} EventsExtendHistory(
    limit: nat, s: Shared, events: seq<PeerEvent>, id: ChannelId, ops: seq<Fifo.Op<Message>>)
    requires Inv(limit, s) && History(limit, s, id, ops)
    ensures History(limit, ApplyAll(limit, s, events), id, ops + EventsOps(limit, s, events, id))
  {
    if events == [] {
      assert ops + [] == ops;
    } else {
      var before := events[..|events| - 1];
      EventsExtendHistory(limit, s, before, id, ops);
      ApplyAllKeepsInv(limit, s, before);
      LastEventOps(limit, s, events, id, ops);
      EventExtendsHistory(limit, ApplyAll(limit, s, before), events[|events| - 1], id,
                          ops + EventsOps(limit, s, before, id));
    }
  }
}
