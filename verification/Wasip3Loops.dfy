/**
 The five wait loops of the in-guest implementation, one turn at a time: what a loop does with the state it
 sees between two awaits, and when it decides to wait.
 */
module Wasip3Loops {
  import opened Collections
  import opened Wasip3State

  datatype ChannelPhase = Open | Opening | Gone

  datatype Error = ClosedError | ReceivingViaStream | ReceiveBufferOverflow | TimedOut

  /** One turn of `receive` or of the stream's feeder. */
  datatype Received = Got(message: Message) | Refused(error: Error) | Nothing

  /** One turn of the feeder of `incoming-data-channels`. */
  datatype Surfaced = Found(id: ChannelId, name: string) | End | NoneYet

  datatype Loop =
    | WhenOpen(id: ChannelId)
    | Receive(id: ChannelId)
    | WaitConnected
    | PumpIncoming(cursor: nat, localChannel: Option<ChannelId>, surfaced: seq<ChannelId>)
    | PumpReceive(id: ChannelId)

  function Phase(s: Shared, id: ChannelId): ChannelPhase {
    if Tracked(s, id) then (if Lookup(s, id).closed then Gone else Open)
    else if Dead(s) then Gone else Opening
  }

  function ReceiveTurn(s: Shared, id: ChannelId): Received {
    if Tracked(s, id) then
      var c := Lookup(s, id);
      if c.streamClaimed then Refused(ReceivingViaStream)
      else if c.inbox != [] then Got(c.inbox[0])
      else if c.overflowed then Refused(ReceiveBufferOverflow)
      else if c.closed then Refused(ClosedError)
      else Nothing
    else if Dead(s) then Refused(ClosedError)
    else Nothing
  }

  function StreamTurn(s: Shared, id: ChannelId): Received {
    if Tracked(s, id) then
      var c := Lookup(s, id);
      if c.inbox != [] then Got(c.inbox[0]) else if c.closed then Refused(ClosedError) else Nothing
    else if Dead(s) then Refused(ClosedError)
    else Nothing
  }

  /** The first position from `cursor` on whose channel was not created locally. */
  function NextIncoming(channels: seq<Channel>, cursor: nat, localChannel: Option<ChannelId>): (k: nat)
    requires cursor <= |channels|
    ensures cursor <= k <= |channels|
    ensures forall j :: cursor <= j < k ==> localChannel == Some(channels[j].id)
    ensures k < |channels| ==> localChannel != Some(channels[k].id)
    decreases |channels| - cursor
  {
    if cursor < |channels| && localChannel == Some(channels[cursor].id)
    then NextIncoming(channels, cursor + 1, localChannel)
    else cursor
  }

  /** The ids of the channels the peer opened, in open order. */
  ghost function Remote(channels: seq<Channel>, localChannel: Option<ChannelId>): seq<ChannelId> {
    if channels == [] then []
    else
      var n := |channels| - 1;
      Remote(channels[..n], localChannel)
      + if localChannel == Some(channels[n].id) then [] else [channels[n].id]
  }

  function IncomingTurn(s: Shared, cursor: nat, localChannel: Option<ChannelId>): (r: (Surfaced, nat))
    requires cursor <= |s.channels|
    ensures cursor <= r.1 <= |s.channels|
  {
    var k := NextIncoming(s.channels, cursor, localChannel);
    if k < |s.channels| then (Found(s.channels[k].id, s.channels[k].name), k + 1)
    else if Dead(s) then (End, k)
    else (NoneYet, k)
  }

  /** Whether a loop that looks at `s` decides to wait for the next change. */
  ghost predicate Waits(loop: Loop, s: Shared) {
    match loop
    case WhenOpen(id) => Phase(s, id).Opening?
    case Receive(id) => ReceiveTurn(s, id).Nothing?
    case WaitConnected => !s.connected && !Dead(s)
    case PumpIncoming(cursor, localChannel, _) =>
      cursor <= |s.channels| && IncomingTurn(s, cursor, localChannel).0.NoneYet?
    case PumpReceive(id) => StreamTurn(s, id).Nothing?
  }

  /** The turns a loop can still take on a state that no longer grows. */
  ghost function Remaining(loop: Loop, s: Shared): nat {
    match loop
    case PumpIncoming(cursor, _, _) => if cursor <= |s.channels| then |s.channels| - cursor + 1 else 1
    case PumpReceive(id) => if Tracked(s, id) then |Lookup(s, id).inbox| + 1 else 1
    case _ => 1
  }

  /** Nobody waits on a connection that closed or failed: every channel is closed then. */
  lemma NoLoopWaitsOnADeadConnection(limit: nat, s: Shared, loop: Loop)
    requires Inv(limit, s) && Dead(s)
    ensures !Waits(loop, s)
  {
  }

  /** Taking a message from one channel never lets a waiting loop proceed. */
  lemma PopKeepsWaiting(limit: nat, s: Shared, id: ChannelId, loop: Loop)
    requires Inv(limit, s) && Tracked(s, id) && Lookup(s, id).inbox != [] && Waits(loop, s)
    ensures Waits(loop, Pop(s, id))
  {
    PopKeepsInv(limit, s, id);
    match loop
    case WaitConnected =>
    case PumpIncoming(cursor, localChannel, _) => PopKeepsIds(limit, s, id, cursor, localChannel);
    case WhenOpen(i) => PopAt(limit, s, id, i);
    case Receive(i) => PopAt(limit, s, id, i);
    case PumpReceive(i) => PopAt(limit, s, id, i);
  }

  lemma PopAt(limit: nat, s: Shared, id: ChannelId, i: ChannelId)
    requires Inv(limit, s) && Tracked(s, id) && Lookup(s, id).inbox != []
    ensures Tracked(Pop(s, id), i) <==> Tracked(s, i)
    ensures Tracked(s, i) && i != id ==> Lookup(Pop(s, id), i) == Lookup(s, i)
    ensures Tracked(Pop(s, id), id)
    ensures Lookup(Pop(s, id), id).inbox == Lookup(s, id).inbox[1..]
    ensures Lookup(Pop(s, id), id).closed == Lookup(s, id).closed
  {
    PopKeepsInv(limit, s, id);
    var c := Lookup(s, id);
    var d := c.(inbox := c.inbox[1..], inboxBytes := c.inboxBytes - Size(c.inbox[0]));
    assert Pop(s, id) == Update(s, d);
    LookupAfterUpdate(s, d, i);
    LookupAfterUpdate(s, d, id);
  }

  lemma PopKeepsIds(limit: nat, s: Shared, id: ChannelId, cursor: nat, localChannel: Option<ChannelId>)
    requires Inv(limit, s) && Tracked(s, id) && Lookup(s, id).inbox != [] && cursor <= |s.channels|
    ensures NextIncoming(Pop(s, id).channels, cursor, localChannel) == NextIncoming(s.channels, cursor, localChannel)
  {
    var cs, ds := s.channels, Pop(s, id).channels;
    var k, l := NextIncoming(cs, cursor, localChannel), NextIncoming(ds, cursor, localChannel);
    assert forall j :: 0 <= j < |cs| ==> cs[j].id == ds[j].id;
    assert l < |cs| ==> cs[l].id == ds[l].id;
    assert k < |cs| ==> cs[k].id == ds[k].id;
  }

  lemma {:induction false} RemoteOfLocals(
    channels: seq<Channel>, cursor: nat, k: nat, localChannel: Option<ChannelId>)
    requires cursor <= k <= |channels|
    requires forall j :: cursor <= j < k ==> localChannel == Some(channels[j].id)
    ensures Remote(channels[..k], localChannel) == Remote(channels[..cursor], localChannel)
    decreases k
  {
    if cursor < k {
      RemoteOfLocals(channels, cursor, k - 1, localChannel);
      assert channels[..k][..k - 1] == channels[..k - 1];
    }
  }

  /** A turn of the incoming-channel feeder surfaces the next remote channel and skips none. */
  lemma IncomingTurnSkipsNoRemote(s: Shared, cursor: nat, localChannel: Option<ChannelId>)
    requires cursor <= |s.channels|
    ensures var (r, next) := IncomingTurn(s, cursor, localChannel);
      Remote(s.channels[..next], localChannel)
        == Remote(s.channels[..cursor], localChannel) + if r.Found? then [r.id] else []
  {
    var k := NextIncoming(s.channels, cursor, localChannel);
    RemoteOfLocals(s.channels, cursor, k, localChannel);
    if k < |s.channels| {
      assert s.channels[..k + 1][..k] == s.channels[..k];
    }
  }
}
