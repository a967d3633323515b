/**
 The mutable objects of the in-guest implementation: the state watch, a channel, and the shared connection state
 the pump and the exported resources update in place.  Each method is tied to the step on values it performs.
 */
module Wasip3Shared {
  import opened Collections
  import V = Wasip3State
  import L = Wasip3Loops
  import T = Wasip3Tasks

  /** The change notification: waiters register a waker, and a change drains them all. */
  class StateWatch {
    var version: nat
    var wakers: seq<nat>

    constructor ()
      ensures version == 0 && wakers == []
    {
      version, wakers := 0, [];
    }

    /** Record a change and wake every registered waiter, in registration order. */
    method Notify() returns (woken: seq<nat>)
      modifies this
      ensures version == old(version) + 1 && wakers == [] && woken == old(wakers)
    {
      version, woken := version + 1, [];
      while wakers != []
        invariant woken + wakers == old(wakers) && version == old(version) + 1
        decreases |wakers|
      {
        woken, wakers := woken + [wakers[0]], wakers[1..];
      }
    }

    /** Poll the future that resolves once the version has moved past `seen`; it registers `waker` at most once. */
    method PollChanged(seen: nat, waker: nat) returns (ready: bool)
      modifies this
      ensures version == old(version) && ready == (version != seen)
      ensures ready ==> wakers == old(wakers)
      ensures !ready ==> waker in wakers && (set w | w in wakers) == (set w | w in old(wakers)) + {waker}
      ensures !ready && waker in old(wakers) ==> wakers == old(wakers)
    {
      ready := version != seen;
      if !ready && waker !in wakers {
        wakers := wakers + [waker];
      }
    }
  }

  class Channel {
    const id: V.ChannelId
    const name: string
    var inbox: seq<V.Message>
    var inboxBytes: int
    var overflowed: bool
    var streamClaimed: bool
    var closed: bool

    constructor (id: V.ChannelId, name: string, closed: bool)
      ensures View() == V.NewChannel(id, name, closed)
    {
      this.id, this.name, inbox, inboxBytes := id, name, [], 0;
      overflowed, streamClaimed, this.closed := false, false, closed;
    }

    ghost function View(): V.Channel
      reads this
    {
      V.Channel(id, name, inbox, inboxBytes, overflowed, streamClaimed, closed)
    }

    /** Take the oldest message and release its bytes from the bound; the count never goes below zero. */
    method Pop(ghost limit: nat) returns (message: Option<V.Message>)
      modifies this`inbox, this`inboxBytes
      ensures match message
        case None => old(inbox) == [] && View() == old(View())
        case Some(m) =>
          && old(inbox) == [m] + inbox
          && View() == old(View()).(inbox := inbox, inboxBytes := old(inboxBytes) - V.Size(m))
      ensures old(V.ChannelInv(limit, View())) ==> V.ChannelInv(limit, View()) && 0 <= inboxBytes
    {
      if inbox == [] {
        return None;
      }
      message := Some(inbox[0]);
      inboxBytes := inboxBytes - |inbox[0].data|;
      inbox := inbox[1..];
    }
  }

  class Shared {
    const limit: nat
    const watch: StateWatch
    var core: V.Core
    var channels: seq<Channel>
    var connected: bool
    var failed: bool
    var closed: bool
    var closeRequested: bool
    var shutdownComplete: bool
    var drainDeadline: Option<nat>

    constructor (limit: nat)
      ensures Valid() && View() == V.Fresh() && fresh(watch) && this.limit == limit
    {
      this.limit := limit;
      watch := new StateWatch();
      core, channels := V.Core([], 0, 0, []), [];
      connected, failed, closed := false, false, false;
      closeRequested, shutdownComplete, drainDeadline := false, false, None;
    }

    ghost function Channels(): (cs: seq<V.Channel>)
      reads this, channels
      ensures |cs| == |channels|
      ensures forall i :: 0 <= i < |cs| ==> cs[i] == channels[i].View()
    {
      seq(|channels|, i requires 0 <= i < |channels| reads this, channels => channels[i].View())
    }

    ghost function View(): V.Shared
      reads this, channels
    {
      V.Shared(core, Channels(), connected, failed, closed, closeRequested, shutdownComplete, drainDeadline)
    }

    /**
     The channel objects are pairwise distinct.  That the values satisfy `V.Inv` is kept by the steps on values
     every method below is equated with.
     */
    ghost predicate Valid()
      reads this
    {
      forall i, j :: 0 <= i < j < |channels| ==> channels[i] != channels[j]
    }

    /** The position of channel `id`, or the number of channels. */
    method Find(id: V.ChannelId) returns (i: nat)
      ensures i == V.Index(Channels(), id)
      ensures i < |channels| <==> V.Tracked(View(), id)
    {
      i := 0;
      while i < |channels| && channels[i].id != id
        invariant i <= |channels|
        invariant forall j :: 0 <= j < i ==> channels[j].id != id
      {
        i := i + 1;
      }
      IndexIs(Channels(), id, i);
    }

    static lemma IndexIs(cs: seq<V.Channel>, id: V.ChannelId, i: nat)
      requires i <= |cs| && (i < |cs| ==> cs[i].id == id)
      requires forall j :: 0 <= j < i ==> cs[j].id != id
      ensures i == V.Index(cs, id)
    {
    }

    method CloseChannels()
      requires Valid()
      modifies channels
      ensures Channels() == V.CloseAll(old(Channels()))
    {
      ghost var was := Channels();
      for k := 0 to |channels|
        invariant forall i :: 0 <= i < |channels| ==>
          channels[i].View() == if i < k then was[i].(closed := true) else was[i]
      {
        channels[k].closed := true;
      }
    }

    /** Only the channel at `i` differs from `was`. */
    lemma OneChannelChanged(was: seq<V.Channel>, i: nat, c: V.Channel)
      requires i < |channels| == |was|
      requires channels[i].View() == c
      requires forall j :: 0 <= j < |channels| && j != i ==> channels[j].View() == was[j]
      ensures Channels() == was[i := c]
    {
    }

    /** A local `close`: latch it, defer the core's close to the pump, and bound the drain. */
    method BeginClose(now: nat) returns (woken: seq<nat>)
      requires Valid()
      modifies this, channels, watch
      ensures Valid() && channels == old(channels)
      ensures View() == V.BeginClose(old(View()), now)
      ensures old(V.Dead(View())) ==> watch.version == old(watch.version) && woken == []
      ensures !old(V.Dead(View())) ==> watch.version == old(watch.version) + 1 && woken == old(watch.wakers)
    {
      woken := [];
      if closed || failed {
        return;
      }
      closed, closeRequested := true, true;
      CloseChannels();
      drainDeadline := Some(now + V.CLOSE_DRAIN);
      woken := watch.Notify();
    }

    method ApplyOpen(id: V.ChannelId, name: string)
      requires Valid()
      modifies this`channels
      ensures Valid() && View() == V.ApplyEvent(limit, old(View()), V.ChannelOpen(id, name))
      ensures forall i :: 0 <= i < |channels| ==> channels[i] in old(channels) || fresh(channels[i])
    {
      var i := Find(id);
      if i == |channels| {
        var channel := new Channel(id, name, closed || failed);
        ghost var was := channels;
        channels := channels + [channel];
        assert forall j :: 0 <= j < |was| ==> channels[j] == was[j];
        assert Channels() == old(Channels()) + [V.NewChannel(id, name, closed || failed)];
      }
    }

    method ApplyChannelClosed(id: V.ChannelId)
      requires Valid()
      modifies channels
      ensures Valid() && View() == V.ApplyEvent(limit, old(View()), V.ChannelClosed(id))
    {
      var i := Find(id);
      if i < |channels| {
        ghost var was := channels[i].View();
        channels[i].closed := true;
        OneChannelChanged(old(Channels()), i, was.(closed := true));
      }
    }

    /** Buffer an inbound message, drop it, or let it overflow the bound and close its channel. */
    method ApplyMessage(id: V.ChannelId, message: V.Message)
      requires Valid()
      modifies this`core, channels
      ensures Valid() && View() == V.ApplyEvent(limit, old(View()), V.Inbound(id, message))
    {
      var i := Find(id);
      if i < |channels| {
        var channel := channels[i];
        if channel.overflowed || channel.closed {
          OneChannelChanged(old(Channels()), i, channel.View());
        } else if channel.inboxBytes + |message.data| > limit {
          channel.overflowed, channel.closed := true, true;
          core := core.(resets := core.resets + [id]);
          OneChannelChanged(old(Channels()), i, V.Enqueue(limit, old(channel.View()), message));
        } else {
          channel.inboxBytes := channel.inboxBytes + |message.data|;
          channel.inbox := channel.inbox + [message];
          OneChannelChanged(old(Channels()), i, V.Enqueue(limit, old(channel.View()), message));
        }
      }
    }

    /** Fold one drained core event into the state. */
    method ApplyEvent(event: V.PeerEvent)
      requires Valid()
      modifies this, channels
      ensures Valid() && View() == V.ApplyEvent(limit, old(View()), event)
      ensures forall i :: 0 <= i < |channels| ==> channels[i] in old(channels) || fresh(channels[i])
    {
      match event
      case Connected => connected := true;
      case Failed =>
        failed := true;
        CloseChannels();
      case Closed =>
        closed, shutdownComplete := true, true;
        CloseChannels();
      case ChannelOpen(id, name) => ApplyOpen(id, name);
      case ChannelClosed(id) => ApplyChannelClosed(id);
      case Inbound(id, message) => ApplyMessage(id, message);
    }

    /** Fold a batch of drained events into the state, in order. */
    method ApplyEvents(events: seq<V.PeerEvent>)
      requires Valid()
      modifies this, channels
      ensures Valid() && View() == V.ApplyAll(limit, old(View()), events)
      ensures forall i :: 0 <= i < |channels| ==> channels[i] in old(channels) || fresh(channels[i])
    {
      for k := 0 to |events|
        invariant Valid() && View() == V.ApplyAll(limit, old(View()), events[..k])
        invariant forall i :: 0 <= i < |channels| ==> channels[i] in old(channels) || fresh(channels[i])
      {
        assert events[..k + 1][..k] == events[..k];
        ApplyEvent(events[k]);
      }
      assert events[..|events|] == events;
    }

    /** The pump's work between two flushes: perform a requested close, apply the drained events, decide to leave. */
    method Drain(events: seq<V.PeerEvent>, chunks: seq<nat>, now: nat) returns (done: bool, woken: seq<nat>)
      requires Valid()
      modifies this, channels, watch
      ensures Valid() && View() == V.ApplyAll(limit, T.CloseCore(old(View()), chunks), events)
      ensures done == T.Done(View(), now)
      ensures events == [] ==> watch.version == old(watch.version) && woken == []
      ensures events != [] ==> watch.version == old(watch.version) + 1 && woken == old(watch.wakers)
    {
      if closeRequested {
        closeRequested := false;
        core := core.(closes := core.closes + 1, discarded := core.discarded + |core.transmit|, transmit := chunks);
      }
      assert View() == T.CloseCore(old(View()), chunks);
      ApplyEvents(events);
      done := failed || (closed && (shutdownComplete || drainDeadline.None? || now >= drainDeadline.value));
      woken := [];
      if events != [] {
        woken := watch.Notify();
      }
    }

    /** The pump's last act: leave the state terminally closed. */
    method Terminate() returns (woken: seq<nat>)
      requires Valid()
      modifies this, channels, watch
      ensures Valid() && View() == V.Terminate(old(View()))
      ensures watch.version == old(watch.version) + 1 && woken == old(watch.wakers)
    {
      closed := true;
      CloseChannels();
      woken := watch.Notify();
    }

    /** One turn of `receive`. */
    method ReceiveTurn(id: V.ChannelId) returns (r: L.Received)
      requires Valid()
      modifies channels
      ensures Valid() && r == L.ReceiveTurn(old(View()), id)
      ensures View() == if r.Got? then V.Pop(old(View()), id) else old(View())
    {
      var i := Find(id);
      if i == |channels| {
        assert Channels() == old(Channels());
        return if closed || failed then L.Refused(L.ClosedError) else L.Nothing;
      }
      var channel := channels[i];
      if channel.streamClaimed {
        return L.Refused(L.ReceivingViaStream);
      }
      r := PopTurn(i, id);
      if r.Nothing? {
        if channel.overflowed {
          r := L.Refused(L.ReceiveBufferOverflow);
        } else if channel.closed {
          r := L.Refused(L.ClosedError);
        }
      }
    }

    /** One turn of the feeder of `receive-via-stream`. */
    method StreamTurn(id: V.ChannelId) returns (r: L.Received)
      requires Valid()
      modifies channels
      ensures Valid() && r == L.StreamTurn(old(View()), id)
      ensures View() == if r.Got? then V.Pop(old(View()), id) else old(View())
    {
      var i := Find(id);
      if i == |channels| {
        return if closed || failed then L.Refused(L.ClosedError) else L.Nothing;
      }
      r := PopTurn(i, id);
      if r.Nothing? && channels[i].closed {
        r := L.Refused(L.ClosedError);
      }
    }

    method PopTurn(i: nat, id: V.ChannelId) returns (r: L.Received)
      requires Valid() && i < |channels| && i == V.Index(Channels(), id)
      modifies channels
      ensures Valid() && channels[i].overflowed == old(channels[i].overflowed)
      ensures channels[i].closed == old(channels[i].closed)
      ensures r == if old(channels[i].inbox) == [] then L.Nothing else L.Got(old(channels[i].inbox[0]))
      ensures View() == if r.Got? then V.Pop(old(View()), id) else old(View())
    {
      var channel := channels[i];
      var message := channel.Pop(limit);
      match message
      case None =>
        r := L.Nothing;
        OneChannelChanged(old(Channels()), i, old(channel.View()));
      case Some(m) =>
        r := L.Got(m);
        ghost var c := old(channel.View());
        OneChannelChanged(old(Channels()), i, c.(inbox := c.inbox[1..], inboxBytes := c.inboxBytes - V.Size(m)));
    }

    /** One turn of the feeder of `incoming-data-channels`, skipping the channel created locally. */
    method IncomingTurn(cursor: nat, localChannel: Option<V.ChannelId>) returns (r: L.Surfaced, next: nat)
      requires Valid() && cursor <= |channels|
      ensures (r, next) == L.IncomingTurn(View(), cursor, localChannel)
    {
      next, r := cursor, L.NoneYet;
      while next < |channels| && r.NoneYet?
        invariant cursor <= next <= |channels|
        invariant r.NoneYet? ==>
          L.NextIncoming(Channels(), cursor, localChannel) == L.NextIncoming(Channels(), next, localChannel)
        invariant !r.NoneYet? ==>
          && next > 0
          && L.NextIncoming(Channels(), cursor, localChannel) == next - 1
          && r == L.Found(channels[next - 1].id, channels[next - 1].name)
        decreases |channels| - next, r.NoneYet?
      {
        if Some(channels[next].id) != localChannel {
          r := L.Found(channels[next].id, channels[next].name);
        }
        next := next + 1;
      }
      if r.NoneYet? && (closed || failed) {
        r := L.End;
      }
    }

    /** `receive-via-stream` up to the point where it spawns its feeder. */
    method ReceiveViaStream(id: V.ChannelId) returns (error: Option<L.Error>, woken: seq<nat>)
      requires Valid()
      modifies channels, watch
      ensures Valid() && (error.None? <==> T.ClaimSucceeds(old(View()), id))
      ensures error.Some? ==> View() == old(View()) && woken == []
      ensures error.None? && old(V.Tracked(View(), id)) ==>
        View() == V.Claim(old(View()), id) && woken == old(watch.wakers) && watch.version == old(watch.version) + 1
      ensures error.None? && !old(V.Tracked(View(), id)) ==> View() == old(View()) && woken == []
    {
      woken := [];
      var i := Find(id);
      if i == |channels| {
        return if closed || failed then Some(L.ClosedError) else None, woken;
      }
      if channels[i].streamClaimed {
        return Some(L.ReceivingViaStream), woken;
      }
      if channels[i].closed {
        return Some(L.ClosedError), woken;
      }
      ghost var was := channels[i].View();
      channels[i].streamClaimed := true;
      OneChannelChanged(old(Channels()), i, was.(streamClaimed := true));
      woken := watch.Notify();
      error := None;
    }
  }
}
