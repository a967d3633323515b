/**
 The wasmtime host's budget and queue as objects.  Their methods run here without interference and are equated with
 the same atomic operations of `InboundBudget` taken back to back; interleavings are that module's subject.
 */
module WasmtimeQueue {
  import opened Collections
  import B = InboundBudget
  import Fifo = BoundedFifo

  /** The operations of one `reserve`, taken without interference. */
  ghost function ReserveAlone(limit: nat, s: B.State): B.State {
    B.PumpOf(limit, B.PumpOf(limit, if s.overflowed then s else B.PumpOf(limit, s)))
  }

  class Budget {
    const limit: nat
    var buffered: int
    var latched: bool

    constructor (limit: nat)
      requires limit < B.USIZE_MAX
      ensures Valid() && buffered == 0 && !latched && this.limit == limit
    {
      this.limit, buffered, latched := limit, 0, false;
    }

    ghost predicate Valid()
      reads this
    {
      0 <= buffered <= limit < B.USIZE_MAX
    }

    /** Reserve `len` bytes, or latch the overflow. */
    method Reserve(len: nat) returns (ok: bool)
      requires Valid()
      modifies this`buffered, this`latched
      ensures Valid()
      ensures ok <==> !old(latched) && old(buffered) + len <= limit
      ensures buffered == old(buffered) + (if ok then len else 0) && latched == !ok
    {
      if latched {
        return false;
      }
      if B.SaturatingAdd(buffered, len) > limit {
        latched := true;
        return false;
      }
      buffered := B.FetchAdd(buffered, len);
      ok := true;
    }

    method Release(len: nat)
      requires Valid() && len <= buffered
      modifies this`buffered
      ensures Valid() && buffered == old(buffered) - len
    {
      buffered := B.FetchSub(buffered, len);
    }
  }

  /** `reserve` in one piece is what its atomic operations do when nobody interferes. */
  lemma ReserveIsItsAtomicSteps(limit: nat, s: B.State, m: B.Message)
    requires limit < B.USIZE_MAX && 0 <= s.buffered <= limit && s.pump == B.Reserving(m)
    ensures var u := ReserveAlone(limit, s);
      var ok := !s.overflowed && s.buffered + B.Size(m) <= limit;
      && u.buffered == s.buffered + (if ok then B.Size(m) else 0)
      && u.overflowed == !ok
      && (ok ==> u.pump == B.Sending(m))
      && (!ok ==> !u.pump.Sending? && !u.pump.Adding?)
  {
  }

  class Queue {
    const budget: Budget
    var rx: seq<B.Message>
    var open: bool

    constructor (limit: nat)
      requires limit < B.USIZE_MAX
      ensures Valid() && fresh(budget) && budget.limit == limit && rx == [] && open && !budget.latched
    {
      budget := new Budget(limit);
      rx, open := [], true;
    }

    /** With no operation in progress, the budget holds exactly the bytes of the queued messages. */
    ghost predicate Valid()
      reads this, budget
    {
      budget.Valid() && budget.buffered == Fifo.Bytes(B.Size, rx)
    }

    /** The queue is a state of the bounded FIFO. */
    ghost predicate Refines(f: Fifo.Fifo<B.Message>)
      reads this, budget
    {
      && f.cursor <= |f.accepted|
      && Fifo.Backlog(f) == rx
      && f.overflowed == budget.latched
      && f.ended == (budget.latched || !open)
    }

    /** The next message, or `None` once the pump has stopped and the backlog is drained; otherwise a reader waits. */
    method Next() returns (message: Option<B.Message>, waits: bool)
      requires Valid()
      modifies this`rx, budget`buffered
      ensures Valid() && open == old(open)
      ensures old(rx) != [] ==> !waits && message == Some(old(rx)[0]) && rx == old(rx)[1..]
      ensures old(rx) == [] ==> message == None && rx == [] && waits == open
    {
      message, waits := None, false;
      if rx != [] {
        message := Some(rx[0]);
        budget.Release(|rx[0].data|);
        rx := rx[1..];
      } else {
        waits := open;
      }
    }

    /** The pump over the events of one channel, up to the event that ends it; counts the closes it asks for. */
    method Pump(events: seq<B.PumpEvent>, ghost f: Fifo.Fifo<B.Message>) returns (closes: nat)
      requires Valid() && open && Refines(f)
      modifies this`rx, this`open, budget`buffered, budget`latched
      ensures Valid() && Refines(Fold(budget.limit, f, Until(events)))
      ensures open <==> B.OnClose !in events
      ensures closes > 0 ==> budget.latched
    {
      closes := 0;
      var k := 0;
      ghost var done: seq<B.PumpEvent> := [];
      while k < |events| && open
        invariant 0 <= k <= |events| && Valid()
        invariant open ==> done == events[..k] && B.OnClose !in events[..k]
        invariant !open ==> k > 0 && done == events[..k] && events[k - 1] == B.OnClose && B.OnClose !in events[..k - 1]
        invariant Refines(Fold(budget.limit, f, done))
        invariant closes > 0 ==> budget.latched
      {
        ghost var g := Fold(budget.limit, f, done);
        assert events[..k + 1][..k] == events[..k];
        match events[k] {
          case OnMessage(m) =>
            Fifo.BytesSnoc(B.Size, rx, m);
            assert !g.ended ==> (g.accepted + [m])[g.cursor..] == Fifo.Backlog(g) + [m];
            var ok := budget.Reserve(|m.data|);
            if ok {
              rx := rx + [m];
            } else {
              closes := closes + 1;
            }
          case OnClose => open := false;
          case OnOther =>
        }
        done := events[..k + 1];
        k := k + 1;
      }
      UntilIs(events, k);
    }
  }

  /** The events the pump looks at: those up to the first close. */
  ghost function Until(events: seq<B.PumpEvent>): seq<B.PumpEvent> {
    if events == [] then []
    else if events[0] == B.OnClose then [B.OnClose]
    else [events[0]] + Until(events[1..])
  }

  lemma {:induction false} UntilIs(events: seq<B.PumpEvent>, k: nat)
    requires k <= |events|
    requires k == |events| ==> B.OnClose !in events[..if k > 0 then k - 1 else 0]
    requires k < |events| ==> k > 0 && events[k - 1] == B.OnClose && B.OnClose !in events[..k - 1]
    ensures Until(events) == events[..k]
  {
    if events != [] && events[0] != B.OnClose {
      UntilIs(events[1..], k - 1);
      assert events[..k] == [events[0]] + events[1..][..k - 1];
    }
  }

  ghost function EventOp(event: B.PumpEvent): seq<Fifo.Op<B.Message>> {
    match event
    case OnMessage(m) => [Fifo.Arrive(m)]
    case OnClose => [Fifo.Close]
    case OnOther => []
  }

  /** The bounded FIFO after the arrivals and the close among `events`. */
  ghost function Fold(limit: nat, f: Fifo.Fifo<B.Message>, events: seq<B.PumpEvent>): (g: Fifo.Fifo<B.Message>)
    requires f.cursor <= |f.accepted|
    ensures g.cursor <= |g.accepted|
  {
    if events == [] then f
    else
      var g := Fold(limit, f, events[..|events| - 1]);
      var op := EventOp(events[|events| - 1]);
      if op == [] then g else Fifo.Step(limit, B.Size, g, op[0])
  }
}
