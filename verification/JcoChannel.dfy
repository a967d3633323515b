/** The jco host's queue and data channel as the mutable objects they are, tied to `JcoQueue` step by step. */
module JcoChannel {
  import C = Collections
  import Q = JcoQueue

  datatype Entry = Entry(message: Q.Frame, size: nat)

  /** The closure variables of `incomingQueue`; `settled` records the outcomes of the promises it returned. */
  class IncomingQueue {
    const limit: nat
    var messages: seq<Entry>
    var waiters: seq<Q.Waiter>
    var buffered: int
    var overflowed: bool
    var closed: bool
    var calls: nat
    var settled: seq<Q.Settled>

    constructor (limit: nat)
      ensures Valid() && View(false) == Q.Initial() && this.limit == limit
    {
      this.limit, messages, waiters, buffered := limit, [], [], 0;
      overflowed, closed, calls, settled := false, false, 0, [];
    }

    ghost function View(streamClaimed: bool): Q.Queue
      reads this
    {
      Q.Queue(seq(|messages|, i requires 0 <= i < |messages| reads this => messages[i].message),
              waiters, buffered, overflowed, closed, streamClaimed, calls, settled)
    }

    /** Each entry carries the size it was counted with. */
    ghost predicate Valid()
      reads this
    {
      forall i :: 0 <= i < |messages| ==> messages[i].size == Q.Size(messages[i].message)
    }

    method OnMessage(data: Q.Frame)
      requires Valid()
      modifies this
      ensures Valid() && forall claimed :: View(claimed) == Q.OnMessage(limit, old(View(claimed)), data)
    {
      if overflowed {
        return;
      }
      var size := |data.payload|;
      if buffered + size > limit && waiters == [] {
        overflowed := true;
        return;
      }
      Push(data, size);
    }

    method Push(message: Q.Frame, size: nat)
      requires Valid() && size == Q.Size(message)
      modifies this`messages, this`waiters, this`buffered, this`settled
      ensures Valid()
      ensures old(waiters) != [] ==>
        && waiters == old(waiters)[1..] && messages == old(messages) && buffered == old(buffered)
        && settled == old(settled) + [Q.Settled(old(waiters)[0].call, old(waiters)[0].viaStream, Q.Resolved(message))]
      ensures old(waiters) == [] ==>
        && waiters == [] && settled == old(settled) && buffered == old(buffered) + size
        && messages == old(messages) + [Entry(message, size)]
    {
      if waiters != [] {
        settled := settled + [Q.Settled(waiters[0].call, waiters[0].viaStream, Q.Resolved(message))];
        waiters := waiters[1..];
      } else {
        buffered := buffered + size;
        messages := messages + [Entry(message, size)];
      }
    }

    /** Reject every pending waiter with `error`, oldest first. */
    method RejectWaiters(error: Q.Error)
      modifies this`waiters, this`settled
      ensures waiters == [] && settled == old(settled) + Q.Rejections(old(waiters), error)
    {
      ghost var k := 0;
      while waiters != []
        invariant k <= |old(waiters)| && waiters == old(waiters)[k..]
        invariant settled == old(settled) + Q.Rejections(old(waiters)[..k], error)
        decreases |waiters|
      {
        settled := settled + [Q.Settled(waiters[0].call, waiters[0].viaStream, Q.Rejected(error))];
        waiters := waiters[1..];
        k := k + 1;
      }
    }

    method End()
      requires Valid()
      modifies this`closed, this`waiters, this`settled
      ensures Valid() && forall claimed :: View(claimed) == Q.OnEnd(old(View(claimed)))
    {
      if closed {
        return;
      }
      closed := true;
      RejectWaiters(if overflowed then Q.ReceiveBufferOverflow else Q.Closed);
    }

    method Next(viaStream: bool)
      requires Valid()
      modifies this`messages, this`waiters, this`buffered, this`calls, this`settled
      ensures Valid() && forall claimed :: View(claimed) == Q.Next(old(View(claimed)), viaStream)
    {
      var call := calls;
      calls := calls + 1;
      if messages != [] {
        var entry := messages[0];
        messages := messages[1..];
        buffered := buffered - entry.size;
        settled := settled + [Q.Settled(call, viaStream, Q.Resolved(entry.message))];
      } else if overflowed {
        settled := settled + [Q.Settled(call, viaStream, Q.Rejected(Q.ReceiveBufferOverflow))];
      } else if closed {
        settled := settled + [Q.Settled(call, viaStream, Q.Rejected(Q.Closed))];
      } else {
        waiters := waiters + [Q.Waiter(call, viaStream)];
      }
    }
  }

  class DataChannel {
    const incoming: IncomingQueue
    var streamClaimed: bool

    constructor (limit: nat)
      ensures incoming.Valid() && View() == Q.Initial() && incoming.limit == limit && fresh(incoming)
    {
      incoming := new IncomingQueue(limit);
      streamClaimed := false;
    }

    ghost function View(): Q.Queue
      reads this, incoming
    {
      incoming.View(streamClaimed)
    }

    method Receive()
      requires incoming.Valid()
      modifies incoming
      ensures incoming.Valid() && View() == Q.Step(incoming.limit, old(View()), Q.Receive)
    {
      if streamClaimed {
        var call := incoming.calls;
        incoming.calls := call + 1;
        incoming.settled := incoming.settled + [Q.Settled(call, false, Q.Rejected(Q.ReceivingViaStream))];
      } else {
        incoming.Next(false);
      }
    }

    /** Claim the inbound messages; every pending `receive` is rejected before this returns. */
    method ReceiveViaStream() returns (claimed: bool)
      requires incoming.Valid()
      modifies this, incoming
      ensures incoming.Valid() && View() == Q.Step(incoming.limit, old(View()), Q.ClaimStream)
      ensures claimed == !old(streamClaimed)
      ensures claimed ==> incoming.waiters == []
    {
      claimed := !streamClaimed;
      if claimed {
        streamClaimed := true;
        incoming.RejectWaiters(Q.ReceivingViaStream);
      }
    }

    /** The stream asks for its next message. */
    method Pull()
      requires incoming.Valid() && streamClaimed
      modifies incoming
      ensures incoming.Valid() && View() == Q.Step(incoming.limit, old(View()), Q.Pull)
    {
      incoming.Next(true);
    }
  }

  // ----- reading a payload stream -----

  /** Copy the chunks of a payload, one after the other, into one array of their total length. */
  method ConcatChunks(chunks: seq<seq<bv8>>, total: nat) returns (out: array<bv8>)
    requires total == |C.Flatten(chunks)|
    ensures fresh(out) && out[..] == C.Flatten(chunks)
  {
    out := new bv8[total];
    var offset := 0;
    assert out[..0] == [];
    for k := 0 to |chunks|
      invariant offset == |C.Flatten(chunks[..k])| <= total
      invariant out[..offset] == C.Flatten(chunks[..k])
    {
      var chunk := chunks[k];
      C.FlattenAppend(chunks[..k], [chunk]);
      assert chunks[..k + 1] == chunks[..k] + [chunk];
      assert C.Flatten([chunk]) == chunk + C.Flatten<bv8>([]);
      C.FlattenAppend(chunks[..k + 1], chunks[k + 1..]);
      assert chunks == chunks[..k + 1] + chunks[k + 1..];
      ghost var before := out[..offset];
      for j := 0 to |chunk|
        invariant out[..offset] == before
        invariant forall i :: 0 <= i < j ==> out[offset + i] == chunk[i]
      {
        out[offset + j] := chunk[j];
      }
      assert out[..offset + |chunk|] == before + chunk;
      offset := offset + |chunk|;
    }
    assert chunks[..|chunks|] == chunks;
    assert out[..] == out[..offset];
  }

  /** Collect every byte of a payload stream, dropping its empty chunks. */
  method CollectByteStream(stream: seq<seq<bv8>>) returns (bytes: array<bv8>)
    ensures fresh(bytes) && bytes[..] == C.Flatten(stream)
  {
    var chunks, total := [], 0;
    for k := 0 to |stream|
      invariant C.Flatten(chunks) == C.Flatten(stream[..k]) && total == |C.Flatten(chunks)|
    {
      var chunk := stream[k];
      C.FlattenAppend(stream[..k], [chunk]);
      assert stream[..k + 1] == stream[..k] + [chunk];
      assert C.Flatten([chunk]) == chunk + C.Flatten<bv8>([]);
      if |chunk| > 0 {
        C.FlattenAppend(chunks, [chunk]);
        chunks, total := chunks + [chunk], total + |chunk|;
      }
    }
    assert stream[..|stream|] == stream;
    bytes := ConcatChunks(chunks, total);
  }
}
