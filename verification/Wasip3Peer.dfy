/** How the sans-I/O core's events are listed: state events first, then the inbound messages. */
module Wasip3Peer {
  import opened Wasip3State

  datatype ConnectionState = New | Connecting | ConnectedState | DisconnectedState | FailedState | ClosedState

  /** What the core reports through its event queue, and what it hands out as received messages. */
  datatype CoreEvent =
    | StateChange(state: ConnectionState)
    | OnOpen(id: ChannelId, name: string)
    | OnClose(id: ChannelId)
    | OtherEvent

  datatype CoreRead = ChannelMessage(id: ChannelId, message: Message) | OtherRead

  ghost function FromEvent(e: CoreEvent): seq<PeerEvent> {
    match e
    case StateChange(ConnectedState) => [Connected]
    case StateChange(FailedState) => [Failed]
    case StateChange(DisconnectedState) => [Closed]
    case StateChange(ClosedState) => [Closed]
    case OnOpen(id, name) => [ChannelOpen(id, name)]
    case OnClose(id) => [ChannelClosed(id)]
    case _ => []
  }

  ghost function FromRead(r: CoreRead): seq<PeerEvent> {
    match r
    case ChannelMessage(id, m) => [Inbound(id, m)]
    case OtherRead => []
  }

  ghost function States(polled: seq<CoreEvent>): seq<PeerEvent> {
    if polled == [] then [] else States(polled[..|polled| - 1]) + FromEvent(polled[|polled| - 1])
  }

  ghost function Messages(received: seq<CoreRead>): seq<PeerEvent> {
    if received == [] then [] else Messages(received[..|received| - 1]) + FromRead(received[|received| - 1])
  }

  /** Drain everything the core has queued into one ordered list. */
  method DrainEvents(polled: seq<CoreEvent>, received: seq<CoreRead>) returns (events: seq<PeerEvent>)
    ensures events == States(polled) + Messages(received)
  {
    events := [];
    for k := 0 to |polled|
      invariant events == States(polled[..k])
    {
      assert polled[..k + 1][..k] == polled[..k];
      match polled[k] {
        case StateChange(state) =>
          match state {
            case ConnectedState => events := events + [Connected];
            case FailedState => events := events + [Failed];
            case DisconnectedState => events := events + [Closed];
            case ClosedState => events := events + [Closed];
            case _ =>
          }
        case OnOpen(id, name) => events := events + [ChannelOpen(id, name)];
        case OnClose(id) => events := events + [ChannelClosed(id)];
        case OtherEvent =>
      }
    }
    assert polled[..|polled|] == polled;
    for k := 0 to |received|
      invariant events == States(polled) + Messages(received[..k])
    {
      assert received[..k + 1][..k] == received[..k];
      match received[k] {
        case ChannelMessage(id, message) => events := events + [Inbound(id, message)];
        case OtherRead =>
      }
    }
    assert received[..|received|] == received;
  }

  predicate Closes(event: PeerEvent, id: ChannelId) {
    event == ChannelClosed(id) || event.Closed? || event.Failed?
  }

  lemma EventKeepsClosedInbox(limit: nat, s: Shared, event: PeerEvent, id: ChannelId)
    requires Inv(limit, s) && Tracked(s, id) && (event.Inbound? ==> Lookup(s, id).closed)
    ensures var t := ApplyEvent(limit, s, event);
      && Tracked(t, id) && Lookup(t, id).inbox == Lookup(s, id).inbox
      && (Lookup(s, id).closed || Closes(event, id) ==> Lookup(t, id).closed)
  {
    LookupAfterEvent(limit, s, event, id);
  }

  lemma {:induction false} ClosingFirstKeepsInbox(
    limit: nat, s: Shared, events: seq<PeerEvent>, c: nat, id: ChannelId)
    requires Inv(limit, s) && Tracked(s, id)
    requires forall j :: 0 <= j < |events| && events[j].Inbound? ==> c < j && Closes(events[c], id)
    ensures var t := ApplyAll(limit, s, events);
      && Tracked(t, id)
      && Lookup(t, id).inbox == Lookup(s, id).inbox
      && (c < |events| && Closes(events[c], id) ==> Lookup(t, id).closed)
  {
    if events != [] {
      var before := events[..|events| - 1];
      ClosingFirstKeepsInbox(limit, s, before, c, id);
      ApplyAllKeepsInv(limit, s, before);
      EventKeepsClosedInbox(limit, ApplyAll(limit, s, before), events[|events| - 1], id);
    }
  }

  lemma {:induction false} StatesAreNotMessages(polled: seq<CoreEvent>)
    ensures forall e :: e in States(polled) ==> !e.Inbound?
  {
    if polled != [] {
      StatesAreNotMessages(polled[..|polled| - 1]);
    }
  }

  /**
   In one drained batch a close wins over the batch's messages: an already tracked channel that the batch closes, by
   itself or with its connection, accepts none of them.
   */
  lemma CloseWinsItsBatch(
    limit: nat, s: Shared, polled: seq<CoreEvent>, received: seq<CoreRead>, id: ChannelId, closing: PeerEvent)
    requires Inv(limit, s) && Tracked(s, id) && closing in States(polled) && Closes(closing, id)
    ensures var t := ApplyAll(limit, s, States(polled) + Messages(received));
      Tracked(t, id) && Lookup(t, id).closed && Lookup(t, id).inbox == Lookup(s, id).inbox
  {
    var states := States(polled);
    var events := states + Messages(received);
    StatesAreNotMessages(polled);
    var c :| 0 <= c < |states| && states[c] == closing;
    assert forall j :: 0 <= j < |events| && events[j].Inbound? ==> |states| <= j by {
      assert forall j :: 0 <= j < |states| ==> events[j] == states[j] && states[j] in states;
    }
    assert events[c] == closing;
    ClosingFirstKeepsInbox(limit, s, events, c, id);
  }

  lemma {:induction false} OpenedIsTracked(limit: nat, s: Shared, events: seq<PeerEvent>, id: ChannelId, name: string)
    requires Inv(limit, s) && (Tracked(s, id) || ChannelOpen(id, name) in events)
    ensures Tracked(ApplyAll(limit, s, events), id)
  {
    if events != [] {
      var before, last := events[..|events| - 1], events[|events| - 1];
      ApplyAllKeepsInv(limit, s, before);
      if Tracked(s, id) || ChannelOpen(id, name) in before {
        OpenedIsTracked(limit, s, before, id, name);
      } else {
        assert last == ChannelOpen(id, name);
      }
      LookupAfterEvent(limit, ApplyAll(limit, s, before), last, id);
    }
  }

  /** An open in the batch precedes the batch's messages: none of them finds the channel untracked. */
  lemma OpenPrecedesItsBatch(
    limit: nat, s: Shared, polled: seq<CoreEvent>, received: seq<CoreRead>, id: ChannelId, name: string, k: nat)
    requires Inv(limit, s) && ChannelOpen(id, name) in States(polled)
    requires |States(polled)| <= k <= |States(polled) + Messages(received)|
    ensures Tracked(ApplyAll(limit, s, (States(polled) + Messages(received))[..k]), id)
  {
    var events := (States(polled) + Messages(received))[..k];
    assert events[..|States(polled)|] == States(polled);
    assert ChannelOpen(id, name) in events;
    OpenedIsTracked(limit, s, events, id, name);
  }
}
