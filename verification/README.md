# Verified model of the WebRTC data-channel component's hosts and conformance machinery

The repository implements one contract, the WIT `connections` interface, on three stacks, and tests them against each
other over a small message-relay protocol. This project models the state that several tasks step at once, with the
WebRTC stacks as a nondeterministic environment, and proves what every interleaving keeps.

- **The bounded inbound queue.** `BoundedFifo` is the contract: messages buffered up to a byte bound, an overflow or a
  close that is final, a backlog that stays deliverable, and one verdict after it. Three implementations refine it over
  whole runs: the in-guest channel (`Wasip3State`, `Wasip3Delivery`), the wasmtime budget and queue at the granularity
  of single atomic operations (`InboundBudget`, `StreamClaim`), and the jco queue, which hands messages to waiting
  readers (`JcoQueue`).
- **The in-guest connection.** `Wasip3Tasks` is a cooperative scheduler: a step is what a task does between two
  awaits, and the core and the network choose events, datagrams and time. It proves the whole-run invariant, that no
  wakeup is lost, that progress is announced, that the deferred close discards nothing, and what remains after the pump
  returns; `Wasip3Drain` bounds how long the pump outlives a close; `Wasip3Loops` has the five wait loops one turn at a
  time, `Wasip3Peer` the order of a drained batch. `Wasip3Shared` holds the objects themselves, updated in place, each
  method proved equal to the state function that the run theorems are about.
- **The wasmtime gates.** `StreamClaim` (one winner, losers consume nothing, pending receives let go), `ClaimRace`
  (which of them can still take a message), `PendingOps` (an offer covers every earlier channel), `SendViaStream`
  (payloads drained concurrently and sent in order, beside the sequential drivers of the other two). `WasmtimeQueue`
  and `JcoChannel` are the queues as objects.
- **Signaling.** `MailboxStore` is the server's store as functions and as an object; `MailboxFetch` interleaves the
  long-polling fetch with every other request at each lock, clock reading and await; `MailboxClient` is the cursor and
  retry loop of the clients; `MailboxDelivery` composes two sessions and the server into end-to-end delivery;
  `Handshake` runs the offerer and the answerer over it, and `HandshakeLoss` and `HandshakeSkip` add the removal of
  their room.
- **Leaf cores.** `Matrix` and `MatrixGrid` (classification and verdict), `LineReader` (lines over a chunked stream),
  `Payload` (the indexed payloads and their verifier).

A run is a list of steps of which those not enabled are skipped, so a lemma about `After(..., steps)` is a lemma about
every reachable state, and one about `After(..., steps + more)` about every continuation. Machine integers are
unbounded except where the code depends on their width: the atomic counter of the budget (64 bits, wrapping and
saturating as written) and the payload index (32 bits). In the `states` column, "in place" marks a method of a class
whose contract gives the whole new state as a function of the old one; what is promised of that function is proved in
the module it comes from.

## Where code and documentation differ

The model follows the code.

- `conformance/signaling/PROTOCOL.md:120-121` says that deleting a room answers its blocked fetches "done". The code
  re-polls a fresh room: no fetch is told "done" after the deletion unless its mailbox is marked done again
  (`MailboxFetch.DeletionAnswersNoFetchDone`), and then exactly those fetches can be that still look at the store
  (`MailboxFetch.DeletedFetchCanBeDoneIff`). A deletion or eviction between the peek and the arming even loses the
  wakeup until the deadline, and that is the only way to lose it (`MailboxFetch.WakeupArrivesIffArmedLive`).
- `wit/webrtc.wit:237-241` promises that no `receive` succeeds after `receive-via-stream`. The in-guest implementation
  keeps this, in every reachable state, exactly when the channel is tracked at the time of the claim
  (`Wasip3Delivery.ClaimStopsReceiveIffTracked`).
- `wit/webrtc.wit:239-241` promises that the receives pending at the claim resolve with `receiving-via-stream`. In
  wasmtime the select prefers a message to the claim's signal, so a pending receive may still take one
  (`ClaimRace.PendingReceiveCanTakeIff` says which).
- `wit/webrtc.wit:185-193` bounds the buffer. jco lets a message that meets a waiting reader bypass the bound, and
  delivers messages that follow the close. A run meets the contract exactly when neither happens in it
  (`JcoQueue.ReadersGetTheAcceptedPrefixIff`); the order of arrival is kept in every run
  (`JcoQueue.PromisesFollowArrivals`).
- `wit/webrtc.wit:218-221` requires each payload to total its declared length. wasmtime and jco check it; the in-guest
  implementation sends what it drained. Its result and what it sends are those of a checking driver exactly when every
  item it gets to matches (`SendViaStream.DriversAgreeIffLengthsMatch`).
- `max_rooms` limits publishing only (`MailboxStore.FetchRespectsTheCapIff`).

## Model

| member | source | states |
|---|---|---|
| `BoundedFifo.RunDeliversAcceptedPrefix` | wit/webrtc.wit:186-193 | In every run of the abstract queue the buffer stays within the bound, reads deliver exactly the accepted messages in order, and what is accepted is a prefix of what arrived, all of it until the queue ends |
| `BoundedFifo.EndIsFinal` | wit/webrtc.wit:188-190 | Acceptance stops for good at the first overflow or close, whatever follows, and neither verdict is revised |
| `BoundedFifo.OverflowedExactly` | wit/webrtc.wit:187-189 | Overflow is latched if and only if some arrival met an open queue too full for it |
| `BoundedFifo.DrainedEndIsStable` | wit/webrtc.wit:189-192 | Once ended and drained, every later read reports the same end: overflow exactly when it was latched |
| `Wasip3State.ApplyEventKeepsInv` | wasip3-impl/src/runtime.rs:422-477 | Every core event keeps channel ids unique, each inbox within the bound and counted exactly, overflowed channels closed, and every channel of a dead connection closed, late ones included; nothing latched is undone |
| `Wasip3State.ApplyAllKeepsInv` | wasip3-impl/src/runtime.rs:355-359 | The same over any list of events applied in one go |
| `Wasip3State.BeginCloseKeepsInv` | wasip3-impl/src/runtime.rs:237-248 | A local close keeps the invariant, kills the connection and resets no flag |
| `Wasip3State.PopKeepsInv` | wasip3-impl/src/runtime.rs:185-190 | Taking a message keeps the byte count equal to the bytes held |
| `Wasip3State.ClaimKeepsInv` | wasip3-impl/src/provider.rs:286-299 | Recording a claim on a tracked channel keeps the invariant |
| `Wasip3State.LookupAfterEvent` | wasip3-impl/src/runtime.rs:422-477 | An event changes the channel it names (every channel, for a close or failure) and leaves every other one as it was; a channel is tracked afterwards only if it was, or was opened by it |
| `Wasip3State.FlagsAfterEvent` | wasip3-impl/src/runtime.rs:422-477 | Each connection flag is set by its own event only, and a channel reset is queued for exactly the message that overflows |
| `Wasip3State.EnqueueRefines` | wasip3-impl/src/runtime.rs:454-475 | Buffering, overflowing on or dropping a message is the abstract queue's arrival |
| `Wasip3State.EventsExtendHistory` | wasip3-impl/src/runtime.rs:422-477 | Applying any batch of events extends the history of every channel by the queue operations the batch performs on it |
| `Wasip3Shared.StateWatch.Notify` | wasip3-impl/src/runtime.rs:82-87 | Bumps the version by one, wakes every registered waker in registration order and leaves none |
| `Wasip3Shared.StateWatch.PollChanged` | wasip3-impl/src/runtime.rs:107-117 | Ready exactly when the version has moved; otherwise the waker ends up registered once |
| `Wasip3Shared.Shared.Find` | wasip3-impl/src/runtime.rs:226-228 | The position of the channel with an id, if any has it |
| `Wasip3Shared.Channel.Pop` | wasip3-impl/src/runtime.rs:185-190 | Takes the oldest message, if any, and its bytes from the count |
| `Wasip3Shared.Shared.BeginClose` | wasip3-impl/src/runtime.rs:237-248 | In place: closes every channel, sets the deadline, requests the core close and announces, exactly once |
| `Wasip3Shared.Shared.ApplyMessage` | wasip3-impl/src/runtime.rs:454-475 | In place: one inbound message on the channel it names, every other object unchanged |
| `Wasip3Shared.Shared.ApplyOpen` | wasip3-impl/src/runtime.rs:438-448 | In place: a new channel is appended unless its id is tracked, closed at once on a dead connection |
| `Wasip3Shared.Shared.ApplyChannelClosed` | wasip3-impl/src/runtime.rs:449-453 | In place: closes the named channel only |
| `Wasip3Shared.Shared.ApplyEvent` | wasip3-impl/src/runtime.rs:422-477 | In place: one core event has exactly the specified effect on the connection and all its channels |
| `Wasip3Shared.Shared.ApplyEvents` | wasip3-impl/src/runtime.rs:355-359 | In place: a whole batch has the effect of its events one after another |
| `Wasip3Shared.Shared.Drain` | wasip3-impl/src/runtime.rs:349-372 | The pump's locked section: the deferred core close, then the events, then one notification if there were any |
| `Wasip3Shared.Shared.Terminate` | wasip3-impl/src/runtime.rs:374-390 | What the pump leaves when it returns: connection and every channel closed, waiters woken |
| `Wasip3Shared.Shared.ReceiveTurn` | wasip3-impl/src/provider.rs:206-243 | One pass of the `receive` loop: what it reports and the one message it takes |
| `Wasip3Shared.Shared.StreamTurn` | wasip3-impl/src/provider.rs:635-650 | One pass of the stream feeder |
| `Wasip3Shared.Shared.IncomingTurn` | wasip3-impl/src/provider.rs:556-575 | One pass of the incoming-channels feeder: the next remote channel at or after the cursor |
| `Wasip3Shared.Shared.ReceiveViaStream` | wasip3-impl/src/provider.rs:282-307 | Succeeds unless claimed or gone; a tracked channel is marked and announced, an untracked one leaves no trace |
| `Wasip3Peer.DrainEvents` | wasip3-impl/src/peer.rs:238-274 | The drained list is every translated state event in order followed by every translated message in order |
| `Wasip3Peer.CloseWinsItsBatch` | wasip3-impl/src/peer.rs:238-274 | A close in a batch wins over the batch's messages: a tracked channel it closes accepts none of them |
| `Wasip3Peer.OpenPrecedesItsBatch` | wasip3-impl/src/peer.rs:238-274 | A channel opened by a batch is tracked before any message of the batch is applied |
| `Wasip3Loops.NoLoopWaitsOnADeadConnection` | wasip3-impl/src/provider.rs:154-185 | On a closed or failed connection none of the five wait loops can decide to wait |
| `Wasip3Loops.PopKeepsWaiting` | wasip3-impl/src/provider.rs:216-232 | Taking a message from a channel never turns another loop's wait into progress, so it needs no notification |
| `Wasip3Loops.IncomingTurnSkipsNoRemote` | wasip3-impl/src/provider.rs:560-574 | Between the old and new cursor the feeder passes only the locally created channel and the one it surfaces |
| `Wasip3Tasks.RunKeepsInv` | wasip3-impl/src/runtime.rs:324-418 | The system invariant (state, sleeping tasks, feeders, deferred close) in every reachable state of the scheduler |
| `Wasip3Tasks.RunOnlyMovesForward` | wasip3-impl/src/runtime.rs:149-249 | Over any run and continuation the channel list only grows in open order, inboxes stay within the bound, and no flag is ever reset |
| `Wasip3Tasks.NoLostWakeup` | wasip3-impl/src/runtime.rs:58-117 | A parked task is registered, saw the current version, and would decide to wait again |
| `Wasip3Tasks.ProgressIsAnnounced` | wasip3-impl/src/runtime.rs:237-389 | Any step that lets some loop proceed which had to wait bumps the version and leaves no task parked, in that same step |
| `Wasip3Tasks.DeadConnectionsKeepNobodyWaiting` | wasip3-impl/src/runtime.rs:374-390 | Once dead, always dead: every channel ever tracked is closed, nobody is parked and no loop can wait, in every continuation |
| `Wasip3Tasks.NobodyWaitsAfterThePump` | wasip3-impl/src/runtime.rs:374-390 | Once the pump has returned, for whatever reason, the connection and every channel are closed and no loop can wait, in every later state |
| `Wasip3Tasks.BacklogsDrainAfterThePump` | wasip3-impl/src/provider.rs:621-678 | From the moment the pump has returned, the turns a task takes in any continuation, plus those it has left, are at most its backlog at that moment |
| `Wasip3Tasks.CloseDiscardsNothing` | wasip3-impl/src/runtime.rs:345-368 | In every run the core is closed at most once, with an empty transmit queue, so no datagram is lost; the pump never leaves a requested close undone |
| `Wasip3Tasks.IncomingChannelsInOpenOrder` | wasip3-impl/src/provider.rs:546-594 | The incoming stream has surfaced exactly the remote channels it has passed, once each, in open order |
| `Wasip3Tasks.TurnTakes` | wasip3-impl/src/provider.rs:206-243 | A turn of an API task takes at most one message and touches nothing else but its own task |
| `Wasip3Drain.PumpExitsAfterTheDrainWindow` | wasip3-impl/src/runtime.rs:360-390 | After a local close the pump has returned by the close time plus the drain window plus one tick, not counting time it is held up in sends from the close on |
| `Wasip3Delivery.ConsumersTakeTheAcceptedPrefix` | wasip3-impl/src/provider.rs:206-243 | Every channel of every run is the bounded queue: both kinds of consumer together took exactly the delivered prefix of the accepted messages, and the inbox is the rest |
| `Wasip3Delivery.ReceiveReportsTheQueue` | wasip3-impl/src/provider.rs:212-240 | A `receive` on an unclaimed channel reports what the abstract queue says, overflow exactly when latched |
| `Wasip3Delivery.RecordedClaimStopsReceive` | wasip3-impl/src/provider.rs:286-299 | Once a claim is recorded no `receive` takes another message of the channel in any continuation |
| `Wasip3Delivery.ReceivesThenStream` | wasip3-impl/src/provider.rs:621-678 | With no claim made before the channel was tracked, its messages go to `receive` calls and, from the claim on, only to the stream |
| `Wasip3Delivery.ClaimRecordedIffTracked` | wasip3-impl/src/provider.rs:286-299 | A successful claim is recorded if and only if the channel is tracked |
| `Wasip3Delivery.ClaimStopsReceiveIffTracked` | wasip3-impl/src/provider.rs:282-307 | In every reachable state a successful `receive-via-stream` keeps every later `receive` from the channel's messages, in all continuations, if and only if the channel is tracked at the time |
| `Wasip3Delivery.ClaimedReceivesAreRefused` | wasip3-impl/src/provider.rs:216-221 | After a recorded claim no `receive` of the channel is asleep, and each of its turns is refused with receiving-via-stream, in all continuations |
| `Wasip3Delivery.EarlyClaimDoesNotStopReceive` | wasip3-impl/src/provider.rs:286-299 | The witness: a run from the start in which a claim made before the channel opens does not stop a later `receive`, for every message that fits |
| `InboundBudget.SaturationIsExactBelowMax` | wasmtime-impl/src/data_channel.rs:110-120 | The saturating test agrees with the true one for all lengths if and only if the limit is below the maximum integer |
| `InboundBudget.CheckIsTheArrival` | wasmtime-impl/src/data_channel.rs:110-120 | The pump's test for room, though the addition is a later step, decides exactly as the abstract arrival does |
| `InboundBudget.ReleaseIsTheRead` | wasmtime-impl/src/data_channel.rs:149-155 | Releasing a popped message's bytes delivers the oldest accepted message and does not underflow |
| `InboundBudget.RunKeepsBudget` | wasmtime-impl/src/data_channel.rs:106-153 | In every interleaving of atomic operations the budget is exact and the queue refines the abstract one |
| `StreamClaim.BufferedIsExact` | wasmtime-impl/src/data_channel.rs:106-153 | `buffered` equals queued bytes plus reserved-not-sent plus popped-not-released, and lies between zero and the limit |
| `StreamClaim.ReadersTakeTheAcceptedPrefix` | wasmtime-impl/src/data_channel.rs:277-312 | All readers together receive a prefix of the accepted messages in order; popped, queued and in flight are the rest |
| `StreamClaim.EndingReaderReportsTheQueue` | wasmtime-impl/src/host.rs:132-139 | A reader that finds the queue ended reports overflow exactly when latched |
| `StreamClaim.OneWinner` | wasmtime-impl/src/data_channel.rs:409-420 | A call's verdict is success if and only if it is the one winner of the claim |
| `StreamClaim.LosersConsumeNothing` | wasmtime-impl/src/host.rs:386-437 | Every message goes to at most one consumer, and a consumer logged with a message finished with it: a receive that lost its race consumed nothing |
| `StreamClaim.SignalsWakeEverySleeper` | wasmtime-impl/src/data_channel.rs:425-436 | No sleeping reader misses the claim or the close |
| `StreamClaim.ReceivesLetGoAfterTheClaim` | wasmtime-impl/src/host.rs:405-436 | Once the claim fires, each pending receive gets closer to its end with every operation of its own, is never set back, always can move, and ends without the lock |
| `StreamClaim.LaterReceivesAreRefused` | wasmtime-impl/src/host.rs:391-396 | Every receive made after the flag is up is refused in whatever follows, and none of them ever takes a message |
| `ClaimRace.PendingReceiveCanTakeIff` | wasmtime-impl/src/host.rs:405-436 | In every reachable state after the claim has fired, a receive still pending can yet take a message in some continuation if and only if it is not past the queue in its current poll and a message is there, or can still come, that no reader in mid-poll is bound to take first |
| `WasmtimeQueue.Budget.Reserve` | wasmtime-impl/src/data_channel.rs:110-120 | In one piece: accepts exactly when not latched and the bytes fit, and latches otherwise |
| `WasmtimeQueue.Budget.Release` | wasmtime-impl/src/data_channel.rs:123-125 | Gives back exactly the bytes, without underflow |
| `WasmtimeQueue.ReserveIsItsAtomicSteps` | wasmtime-impl/src/data_channel.rs:110-120 | `reserve` in one piece is what its atomic operations do without interference |
| `WasmtimeQueue.Queue.Next` | wasmtime-impl/src/data_channel.rs:149-155 | Takes the oldest message and releases its bytes; ends when closed and empty |
| `WasmtimeQueue.Queue.Pump` | wasmtime-impl/src/data_channel.rs:282-306 | The pump's whole loop without readers has the effect of the abstract queue on the events up to the close |
| `JcoQueue.QueueIsConsistent` | jco-impl/webrtc.js:580-644 | Over any events: messages and waiters never both, the bound holds and is counted exactly, every call settles at most once, successes settle in call order, nobody waits after overflow or close |
| `JcoQueue.PromisesFollowArrivals` | jco-impl/webrtc.js:580-644 | Over any events: promises resolve with the arrived frames in order of arrival, none lost, repeated or reordered, the buffer holds the next ones, and until the overflow nothing that arrived is missing |
| `JcoQueue.EndRejectsWithClosed` | jco-impl/webrtc.js:615-622 | Waiters rejected at the end always get `closed` |
| `JcoQueue.ReceivesThenStream` | jco-impl/webrtc.js:200-206 | Once the stream has been handed a frame, no later frame goes to a receive |
| `JcoQueue.ClaimedFramesGoToStream` | jco-impl/webrtc.js:157-206 | Once the stream is claimed, every frame handed out in any continuation goes to the stream |
| `JcoQueue.MessageRefinesIffConforming` | jco-impl/webrtc.js:598-613 | One message is handled as the contract says if and only if it does not follow the close and does not bypass the bound through a waiting reader |
| `JcoQueue.ReadersGetTheAcceptedPrefixIff` | jco-impl/webrtc.js:580-644 | Over whole runs the queue is the bounded queue, its promises the delivered prefix, its buffer the rest, its end and overflow the same, if and only if every message conformed on arrival |
| `JcoQueue.NextReportsTheQueue` | jco-impl/webrtc.js:626-636 | A call settles, or waits, as the abstract queue says |
| `JcoQueue.NonconformingMessagesAreDelivered` | jco-impl/webrtc.js:600-601 | The two inputs on which code and contract differ: a message after the close, and one over the bound meeting a waiter |
| `JcoChannel.IncomingQueue.OnMessage` | jco-impl/webrtc.js:598-613 | In place: the message handler is the specified step |
| `JcoChannel.IncomingQueue.End` | jco-impl/webrtc.js:616-622 | In place: rejects every waiter once, in order |
| `JcoChannel.IncomingQueue.Next` | jco-impl/webrtc.js:626-636 | In place: resolves, rejects or appends a waiter |
| `JcoChannel.DataChannel.Receive` | jco-impl/webrtc.js:157-160 | In place: refused once claimed, otherwise a read of the queue |
| `JcoChannel.IncomingQueue.RejectWaiters` | jco-impl/webrtc.js:638-642 | In place: rejects every pending reader in order and leaves none |
| `JcoChannel.DataChannel.ReceiveViaStream` | jco-impl/webrtc.js:200-204 | In place: the claim succeeds once and rejects every pending receive |
| `JcoChannel.DataChannel.Pull` | jco-impl/webrtc.js:206-224 | A pull of the stream is a read of the queue |
| `JcoChannel.ConcatChunks` | jco-impl/webrtc.js:558-567 | The copied array holds the chunks end to end |
| `JcoChannel.CollectByteStream` | jco-impl/webrtc.js:520-556 | Collecting a byte stream yields all its bytes in order |
| `PendingOps.OffersCoverEarlierChannels` | wasmtime-impl/src/peer_connection.rs:249-329 | In every interleaving, when an offer reaches the stack every `create-data-channel` that returned before it has registered or failed |
| `PendingOps.WaitingOffersAreWoken` | wasmtime-impl/src/peer_connection.rs:112-145 | A waiting offer can be woken, or some registration has still to announce itself |
| `PendingOps.QuietGateOpens` | wasmtime-impl/src/peer_connection.rs:132-144 | With all registrations announced the count is zero and every offer can go on to the stack |
| `SendViaStream.TransportHoldsAPrefix` | wasmtime-impl/src/host.rs:439-494 | Whatever order payloads finish in, the transport holds the first messages of the stream, in order, each with its own bytes of the declared length; on an error `sent` is their number, and success means all |
| `SendViaStream.PayloadsFinishInAnyOrder` | wasmtime-impl/src/host.rs:154-202 | Any unfinished payload may be the next to finish, whatever the others do |
| `SendViaStream.SendInTurn` | jco-impl/webrtc.js:170-193 | The jco driver hands over a prefix, stops at the first mismatch or refusal, whichever comes first, and reports how many went |
| `SendViaStream.DrainStream` | wasip3-impl/src/provider.rs:598-617 | Reading in host-chosen chunks yields the payload, cut at the declared length |
| `SendViaStream.SendDrained` | wasip3-impl/src/provider.rs:245-280 | The in-guest driver stops only where the transport refuses, having sent each item cut at its declared length, and reports how many went |
| `SendViaStream.DriversAgreeIffLengthsMatch` | wit/webrtc.wit:217-225 | On every input, and whatever the transport answers, the in-guest driver returns and sends what a length-checking driver does if and only if each item it gets to totals its declared length |
| `SendViaStream.DriversAlwaysAgreeIff` | wasip3-impl/src/provider.rs:253-270 | They agree whatever the transport answers if and only if every item totals its declared length |
| `SendViaStream.MismatchesAreSent` | wasip3-impl/src/provider.rs:253-270 | The witnesses: a short payload goes out short and a long one cut, both with success, where a length check reports an error |
| `MailboxStore.ServeKeepsInv` | conformance/signaling/server/src/state.rs:155-290 | Every request keeps each notification private to one mailbox of one incarnation of a room |
| `MailboxStore.PublishedIsFetched` | conformance/signaling/server/src/state.rs:156-186 | A publish is accepted exactly under its three guards, answers with the first free number, and a fetch of that number gives the blob back |
| `MailboxStore.DoneEndsTheMailbox` | conformance/signaling/server/src/state.rs:189-202 | `done` answers with the length at which fetches are told done, keeps every blob and refuses later publishes |
| `MailboxStore.AnswersAreStable` | conformance/signaling/PROTOCOL.md:115-116 | As long as the room is kept, a blob or done once answered is answered for good, and done freezes the mailbox, over any requests |
| `MailboxStore.FetchRespectsTheCapIff` | conformance/signaling/server/src/state.rs:156-217 | Publishing respects the cap on rooms; a fetch or done does if and only if the room exists or there is space |
| `MailboxStore.Rooms.PostBlob` | conformance/signaling/server/src/state.rs:156-186 | In place: publish |
| `MailboxStore.Rooms.FinishBox` | conformance/signaling/server/src/state.rs:189-202 | In place: done |
| `MailboxStore.Rooms.FetchOnce` | conformance/signaling/server/src/state.rs:208-217 | In place: the non-blocking fetch |
| `MailboxStore.Rooms.DeleteOne` | conformance/signaling/server/src/state.rs:261-270 | In place: delete, waking both mailboxes |
| `MailboxStore.Rooms.EvictExpiredRooms` | conformance/signaling/server/src/state.rs:274-290 | In place: removing expired rooms one by one removes exactly those, each waiter woken once |
| `MailboxFetch.RunKeepsInv` | conformance/signaling/server/src/state.rs:225-258 | The invariant of every fetch in progress, interleaved with all other requests at each lock and await |
| `MailboxFetch.PendingOnlyAfterTheDeadline` | conformance/signaling/server/src/state.rs:225-258 | `not yet` is answered only once the deadline has passed |
| `MailboxFetch.AnswersArePeeks` | conformance/signaling/server/src/state.rs:225-258 | A blob or done equals what a peek of the store gave at some instant during the call |
| `MailboxFetch.WakeupArrivesIffArmedLive` | conformance/signaling/server/src/state.rs:238-254 | A waiting fetch whose answer has come, or whose room has gone, has been signalled if and only if the notification it armed was still its mailbox's own |
| `MailboxFetch.DeletionBeforeArmingLosesTheWakeup` | conformance/signaling/server/src/state.rs:228-241 | A run in which a deletion between the peek and the arming loses the wakeup |
| `MailboxFetch.DeletionAnswersNoFetchDone` | conformance/signaling/server/src/state.rs:225-268 | In every run, a fetch unanswered when its room is deleted is never told done in any continuation that does not mark its mailbox done again |
| `MailboxFetch.DeletedFetchCanBeDoneIff` | conformance/signaling/server/src/state.rs:225-268 | Some continuation of the deletion tells an unanswered fetch done if and only if the fetch will still look at the store: it is not out of time and not armed on a dead notification |
| `MailboxFetch.ServeWatches` | conformance/signaling/server/src/state.rs:155-290 | No request touches a mailbox without signalling it, and none revives a retired notification |
| `MailboxClient.MailboxSession.Recv` | conformance/adapters/wasmtime/src/lib.rs:219-249 | Every request of one `recv` asks for the same number; the first answer that is not `not yet` decides; the cursor advances by one exactly when a blob is returned |
| `MailboxDelivery.ReceiversLogAPrefix` | conformance/adapters/jco/signaling.js:72-98 | In both directions at once, what was received is a prefix of what the peer published, and `none` means done and all of it received |
| `MailboxDelivery.LogsOnlyGrow` | conformance/adapters/wasip3/mailbox/src/lib.rs:175-202 | What was received stays received, and nothing follows `none` |
| `MailboxDelivery.MailOnlyGrows` | conformance/signaling/server/src/state.rs:155-290 | A mailbox of a kept room only grows, and not at all once done |
| `Handshake.DescriptionThenCandidates` | conformance/guest/src/lib.rs:191-306 | In every interleaving a half sets the peer's own description before any candidate, adds the peer's candidates once each in order, and never meets an unexpected or undecodable signal |
| `Handshake.FinishedHalvesHaveEverything` | conformance/guest/src/lib.rs:281-306 | A half that finishes signaling has the peer's description and all its candidates |
| `Handshake.StepsProgress` | conformance/guest/src/lib.rs:191-306 | Every step that is not a retry decreases the measure; a retry leaves it alone |
| `Handshake.WorkIsBounded` | conformance/guest/src/lib.rs:191-306 | No run takes more non-retry steps than the two scripts call for |
| `Handshake.NeverBothStuck` | conformance/guest/src/lib.rs:191-306 | Unless one half has given up, some half can move until both are through: they never wait for each other |
| `Handshake.CompletesIffScriptsFit` | conformance/signaling/server/src/state.rs:160-180 | From every state in which nobody has given up the handshake can complete if and only if both scripts fit under the cap on blobs |
| `Handshake.ApplyNext` | conformance/guest/src/lib.rs:281-306 | Applying the next signal of the peer's script leaves exactly what the longer prefix calls for |
| `Handshake.LandedThenLost` | conformance/guest/src/lib.rs:979-993 | A publish or done that landed though its response was lost leaves its effect in the mailbox and the half given up, with the invariant intact |
| `HandshakeLoss.OfferCanBeMissedIffExposed` | conformance/guest/src/lib.rs:224-234 | If the room may be deleted or evicted from some moment on, the answerer can fail with the error expected-offer if and only if at that moment it has not been handed the offer and the offerer is still publishing |
| `HandshakeSkip.HalfCanSkipIff` | conformance/guest/src/lib.rs:281-306 | If the room may be deleted or evicted from some moment on, a half can finish signaling without the description or without all candidates if and only if at that moment it is at work, its peer has yet to finish publishing, and what it has been handed does not cover them |
| `Matrix.StrongestWins` | conformance/runner/src/manifest.rs:143-161 | The chosen entry is the last matching one, scoped entries beating unscoped ones; none is chosen exactly when none matches |
| `Matrix.UnsupportedWins` | conformance/runner/src/plan.rs:196-202 | An unsupported entry decides whatever was reported, with the winning entry's reason |
| `Matrix.ExpectationsDecide` | conformance/runner/src/plan.rs:204-245 | Otherwise raw result and expectation decide the cell, and an unexpected pass names the winning entry |
| `Matrix.ClassifyFollowsPolicy` | conformance/runner/src/plan.rs:189-245 | A cell fails if and only if policy is broken: supported, reported, and failing unexpectedly or passing unexpectedly |
| `Matrix.Validate` | conformance/runner/src/manifest.rs:118-138 | Accepts exactly the manifests without an empty scope |
| `Matrix.ValidateRegistry` | conformance/runner/src/registry.rs:48-62 | Accepts exactly the registries with distinct, non-empty ids |
| `Matrix.EnvironmentsAreTheReported` | conformance/runner/src/plan.rs:80-97 | The environments of a target are those reported for it, each once, in order |
| `Matrix.GroupHoldsTheLast` | conformance/runner/src/plan.rs:80-91 | The grouped results hold, for each environment and test, the one last reported |
| `Matrix.GroupByEnvironment` | conformance/runner/src/plan.rs:80-91 | The grouping loops build that grouping |
| `MatrixGrid.Classify` | conformance/runner/src/plan.rs:68-117 | The nested loops build the specified rows, tests and cells |
| `MatrixGrid.CellsAreThere` | conformance/runner/src/plan.rs:98-112 | There is a cell exactly for every row and registered test |
| `MatrixGrid.CellsAreClassifications` | conformance/runner/src/plan.rs:98-112 | Every cell is the classification of the result last reported for it |
| `MatrixGrid.RowsAre` | conformance/runner/src/plan.rs:92-113 | The rows are one per target and environment (one planned row for an unreported target), without repetition |
| `MatrixGrid.RowsInOrder` | conformance/runner/src/plan.rs:77-113 | Rows come in the order of the targets, and within a target in the order of its environments |
| `MatrixGrid.RunFailsIffPolicyBroken` | conformance/runner/src/plan.rs:120-122 | The run fails if and only if some declared target, reported environment and registered test has a last result that breaks policy |
| `MatrixGrid.Failures` | conformance/runner/src/plan.rs:126-138 | Lists every failing cell, once, in row order and then test order |
| `MatrixGrid.FailuresAreListed` | conformance/runner/src/plan.rs:120-138 | The list is non-empty exactly when the run fails, and names no row and test twice |
| `LineReader.Stdin.ReadLine` | examples/cli-signaling/src/lib.rs:243-270 | Returns the first of the lines of the bytes still to come and leaves the others; none exactly when no byte is left |
| `LineReader.Stdin.Request` | examples/cli-signaling/src/lib.rs:200-220 | Returns the first line that is not blank and decodes, leaving the lines after it |
| `LineReader.PiecesAreTheInput` | examples/cli-signaling/src/lib.rs:243-270 | The pieces, terminated by newlines, are the input |
| `LineReader.PiecesAreFreeOfNewlines` | examples/cli-signaling/src/lib.rs:245-252 | No piece contains a newline |
| `LineReader.LinesAreTrimmedPieces` | examples/cli-signaling/src/lib.rs:247-262 | Each line is its piece without trailing carriage returns |
| `LineReader.TrimDropsReturns` | examples/cli-signaling/src/lib.rs:248-251 | Trimming drops exactly the trailing carriage returns |
| `LineReader.ChunkingIsInvisible` | examples/cli-signaling/src/lib.rs:264-269 | However the input is cut into reads, the bytes supplied are the input, so its lines are those of the whole input |
| `LineReader.ReadAll` | examples/cli-signaling/src/lib.rs:243-270 | Repeated reads of a stream until it is exhausted collect the lines of the whole input, however it was cut into reads |
| `Payload.DecodesWhatWasEncoded` | conformance/guest/src/lib.rs:1068-1080 | Little-endian decode of encode is the index |
| `Payload.EncodesWhatWasDecoded` | conformance/guest/src/lib.rs:1076-1080 | Little-endian encode of decode is the four bytes |
| `Payload.MakePayload` | conformance/guest/src/lib.rs:1065-1073 | The loop builds the specified payload, four bytes at least |
| `Payload.VerifiesExactlyPayloads` | conformance/guest/src/lib.rs:1083-1091 | A byte string verifies if and only if it is the payload of some index, which is then the one it carries |
| `Payload.VerifyAll` | conformance/guest/src/lib.rs:451-465 | Accepts exactly `count` payloads that verify |
| `Payload.VerifyOrdered` | conformance/guest/src/lib.rs:467-479 | Accepts exactly the lists of `count` entries whose entry i is the payload of i |
| `Payload.PayloadsAreDistinct` | conformance/guest/src/lib.rs:1065-1073 | Different indices or lengths give different payloads |

## Left out

- The WebRTC stacks (ICE, DTLS, SCTP, SDP contents): events, datagrams and failures are chosen by the environment in every step.
- Sockets, HTTP routing and status plumbing beyond the statuses a client acts on; generated bindings and resource tables; option getters and setters.
- Process launching, network labs, headless-browser runners, demos and markdown rendering.
- UTF-8 decoding, lossy conversion and base64: payloads are byte (or code unit) sequences with a kind flag, blobs decode through a function given with the run; a text frame's size is its number of UTF-16 units, as jco measures it.
- The JSON blob schema of signals: `Handshake` takes any encoding that decodes to what was encoded.
- The interleaved algorithms (`Wasip3Tasks`, `InboundBudget`, `StreamClaim`, `PendingOps`, `SendViaStream`, `MailboxFetch`) step a state value rather than objects, because a method cannot be suspended between two statements; the objects in `Wasip3Shared`, `WasmtimeQueue`, `JcoChannel` and `MailboxStore` run one such step at a time, without aliasing between channels.
- The wrap-around of the 64-bit change version, of `usize` counts other than the budget's, and of read cursors.
- `InboundBudget.RunKeepsBudget`: assumes sequentially consistent atomics and a limit below the maximum integer; at the maximum the test is not exact, as `SaturationIsExactBelowMax` shows.
- `StreamClaim.SignalsWakeEverySleeper`: wakers of a reader behind the queue's mutex or behind wiring are not tracked; only the claim and the close are.
- `ClaimRace.PendingReceiveCanTakeIff`: any waiter may be next to get the queue's mutex; the order in which the mutex itself serves them is not modelled.
- The wiring of deferred channels and its failure, and the connection whose construction failed.
- The twenty-second (in-guest) and thirty-second (wasmtime) connect deadlines: a `wait-connected` may expire at any time.
- The in-guest feeder excludes one local channel, the last one created, as the code does; `localChannel` is that one.
- `Wasip3Drain.PumpExitsAfterTheDrainWindow`: time spent suspended inside datagram sends after the close is not bounded by the code and is subtracted; and timers are prompt, that is, while the pump is parked time does not pass its pending tick.
- `Handshake.DescriptionThenCandidates`: runs in which the room is deleted or evicted are excluded, as from every other theorem of `Handshake`, because the claim is false of them. `HandshakeLoss.OfferCanBeMissedIffExposed` and `HandshakeSkip.HalfCanSkipIff` say exactly when a removal can make the answerer miss the offer or a half finish without everything; which partial lists of candidates a removal can lead to on the way is not stated.
- `Handshake.CompletesIffScriptsFit`: the server also refuses a publish body over its size limit and a room name it does not accept; both are checks of the HTTP layer, assumed to pass.
- `Handshake.NeverBothStuck`: with `WorkIsBounded` says that only retries can delay completion; that retries eventually stop is up to the network.
- `MailboxDelivery.ReceiversLogAPrefix`: one `recv` at a time per session, and a room neither deleted nor evicted; two concurrent receives of one session read the same cursor.
- `LineReader.Stdin.ReadLine`: the chunks of the input are a finite list, after which reads report the end.
- `Payload.MakePayload`: index arithmetic wraps at 32 bits, as in a release build; a debug build panics instead.
- `jco` `waitConnected` and its take-once streams, which the repository records as diverging from the contract.
- The second copy of jco's queue in `conformance/adapters/jco/webrtc.js`, which has the same behaviour.
- The other `exchange` bodies of the conformance guest: finite case splits over the payloads modelled here.
