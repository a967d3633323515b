/**
 The inbound queue of a data channel, as the WIT contract describes it: messages are buffered up to a byte
 bound, the first message that would exceed it ends the channel, the backlog stays deliverable, and after it
 a reader learns whether the channel overflowed or closed.  Every host's queue is shown to refine this one.
 */
module BoundedFifo {

  /** What one read of the queue yields.  `Blocked` is a read that has to wait. */
  datatype Outcome<+M> = Delivered(message: M) | Overflow | Closed | Blocked

  datatype Op<+M> = Arrive(message: M) | Close | Read

  /** `accepted` only grows; `cursor` counts the accepted messages already delivered. */
  datatype Fifo<+M> = Fifo(accepted: seq<M>, cursor: nat, ended: bool, overflowed: bool)

  function Empty<M>(): Fifo<M> { Fifo([], 0, false, false) }

  /** The payload bytes `size` counts for a list of messages. */
  ghost function Bytes<M>(size: M -> nat, ms: seq<M>): nat {
    if ms == [] then 0 else size(ms[0]) + Bytes(size, ms[1..])
  }

  ghost function Backlog<M>(f: Fifo<M>): seq<M>
    requires f.cursor <= |f.accepted|
  {
    f.accepted[f.cursor..]
  }

  ghost predicate Valid<M>(limit: nat, size: M -> nat, f: Fifo<M>) {
    && f.cursor <= |f.accepted|
    && (f.overflowed ==> f.ended)
    && Bytes(size, Backlog(f)) <= limit
  }

  /** What a read would yield now. */
  ghost function Peek<M>(f: Fifo<M>): Outcome<M>
    requires f.cursor <= |f.accepted|
  {
    if f.cursor < |f.accepted| then Delivered(f.accepted[f.cursor])
    else if f.overflowed then Overflow
    else if f.ended then Closed
    else Blocked
  }

  ghost function Step<M>(limit: nat, size: M -> nat, f: Fifo<M>, op: Op<M>): Fifo<M>
    requires f.cursor <= |f.accepted|
  {
    match op
    case Arrive(m) =>
      if f.ended then f
      else if Bytes(size, Backlog(f)) + size(m) > limit then f.(ended := true, overflowed := true)
      else f.(accepted := f.accepted + [m])
    case Close => f.(ended := true)
    case Read => if f.cursor < |f.accepted| then f.(cursor := f.cursor + 1) else f
  }

  ghost function Run<M>(limit: nat, size: M -> nat, ops: seq<Op<M>>): (f: Fifo<M>)
    ensures f.cursor <= |f.accepted|
  {
    if ops == [] then Empty() else Step(limit, size, Run(limit, size, ops[..|ops| - 1]), ops[|ops| - 1])
  }

  /** The messages the reads of a run delivered, in order. */
  ghost function Deliveries<M>(limit: nat, size: M -> nat, ops: seq<Op<M>>): seq<M> {
    if ops == [] then []
    else
      var before := ops[..|ops| - 1];
      var f := Run(limit, size, before);
      Deliveries(limit, size, before)
      + if ops[|ops| - 1].Read? && Peek(f).Delivered? then [Peek(f).message] else []
  }

  /** Every message that arrived, accepted or not. */
  ghost function Arrivals<M>(ops: seq<Op<M>>): seq<M> {
    if ops == [] then []
    else Arrivals(ops[..|ops| - 1]) + match ops[|ops| - 1] case Arrive(m) => [m] case _ => []
  }

  lemma {:induction false} BytesAppend<M>(size: M -> nat, a: seq<M>, b: seq<M>)
    ensures Bytes(size, a + b) == Bytes(size, a) + Bytes(size, b)
  {
    if a == [] {
      assert a + b == b;
    } else {
      BytesAppend(size, a[1..], b);
      assert (a + b)[1..] == a[1..] + b;
    }
  }

  lemma BytesSnoc<M>(size: M -> nat, a: seq<M>, m: M)
    ensures Bytes(size, a + [m]) == Bytes(size, a) + size(m)
  {
    BytesAppend(size, a, [m]);
    assert Bytes(size, [m]) == size(m) + Bytes(size, []);
  }

  lemma StepKeepsValid<M>(limit: nat, size: M -> nat, f: Fifo<M>, op: Op<M>)
    requires Valid(limit, size, f)
    ensures Valid(limit, size, Step(limit, size, f, op))
  {
    match op
    case Arrive(m) =>
      BytesSnoc(size, Backlog(f), m);
      assert (f.accepted + [m])[f.cursor..] == Backlog(f) + [m];
    case Close =>
    case Read =>
      if f.cursor < |f.accepted| {
        assert f.accepted[f.cursor + 1..] == Backlog(f)[1..];
      }
  }

  /**
   The contract over whole runs: the buffer never exceeds the bound, reads deliver exactly the accepted
   messages in order, and what is accepted is a prefix of what arrived — all of it until the queue ends.
   */
  lemma {:induction false} RunDeliversAcceptedPrefix<M>(limit: nat, size: M -> nat, ops: seq<Op<M>>)
    ensures var f := Run(limit, size, ops);
      && Valid(limit, size, f)
      && Deliveries(limit, size, ops) == f.accepted[..f.cursor]
      && f.accepted <= Arrivals(ops)
      && (!f.ended ==> f.accepted == Arrivals(ops))
  {
    if ops != [] {
      var before := ops[..|ops| - 1];
      RunDeliversAcceptedPrefix(limit, size, before);
      StepKeepsValid(limit, size, Run(limit, size, before), ops[|ops| - 1]);
      StepDeliversNext(limit, size, Run(limit, size, before), ops[|ops| - 1]);
    }
  }

  /** A step keeps what was delivered a prefix of what was accepted, longer by what a read delivers. */
  lemma StepDeliversNext<M>(limit: nat, size: M -> nat, f: Fifo<M>, op: Op<M>)
    requires f.cursor <= |f.accepted|
    ensures var g := Step(limit, size, f, op);
      g.accepted[..g.cursor] == f.accepted[..f.cursor]
        + if op.Read? && Peek(f).Delivered? then [Peek(f).message] else []
  {
  }

  /** Acceptance stops for good at the first overflow or close, and neither verdict is ever revised. */
  lemma {:induction false} EndIsFinal<M>(limit: nat, size: M -> nat, ops: seq<Op<M>>, more: seq<Op<M>>)
    requires Run(limit, size, ops).ended
    ensures var f, g := Run(limit, size, ops), Run(limit, size, ops + more);
      g.accepted == f.accepted && g.ended && g.overflowed == f.overflowed && f.cursor <= g.cursor
  {
    if more == [] {
      assert ops + more == ops;
    } else {
      var before := more[..|more| - 1];
      EndIsFinal(limit, size, ops, before);
      assert (ops + more)[..|ops + more| - 1] == ops + before;
    }
  }

  /** Arrival `k` is the one that overflows the queue. */
  ghost predicate OverflowsAt<M>(limit: nat, size: M -> nat, ops: seq<Op<M>>, k: nat)
    requires k < |ops|
  {
    var f := Run(limit, size, ops[..k]);
    ops[k].Arrive? && !f.ended && Bytes(size, Backlog(f)) + size(ops[k].message) > limit
  }

  /** The overflow is latched exactly when some arrival met a queue that was open and too full for it. */
  lemma {:induction false} OverflowedExactly<M>(limit: nat, size: M -> nat, ops: seq<Op<M>>)
    ensures Run(limit, size, ops).overflowed <==> exists k :: 0 <= k < |ops| && OverflowsAt(limit, size, ops, k)
  {
    if ops != [] {
      var n := |ops| - 1;
      var before := ops[..n];
      OverflowedExactly(limit, size, before);
      forall k | 0 <= k < n
        ensures OverflowsAt(limit, size, ops, k) <==> OverflowsAt(limit, size, before, k)
      {
        assert before[..k] == ops[..k];
      }
      assert OverflowsAt(limit, size, ops, n) ==> Run(limit, size, ops).overflowed;
    }
  }

  /**
   Once the queue has ended and its backlog is drained, every later read reports the same end: overflow
   exactly when the overflow was latched.
   */
  lemma DrainedEndIsStable<M>(limit: nat, size: M -> nat, ops: seq<Op<M>>, more: seq<Op<M>>)
    requires var f := Run(limit, size, ops); f.ended && f.cursor == |f.accepted|
    ensures var g := Run(limit, size, ops + more);
      Peek(g) == if Run(limit, size, ops).overflowed then Overflow else Closed
  {
    EndIsFinal(limit, size, ops, more);
  }
}
