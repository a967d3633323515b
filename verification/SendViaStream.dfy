/**
 Sending a stream of messages whose payloads are themselves streams: the wasmtime host, which drains payloads
 concurrently and sends in order; and the sequential drivers of the other two implementations.
 */
module SendViaStream {

  type Bytes = seq<bv8>

  /** One element of the input stream: what it declares, and the bytes its payload stream carries. */
  datatype Item = Item(isString: bool, declared: nat, payload: Bytes)

  datatype Sent = Sent(isString: bool, data: Bytes)

  datatype Error = Closed | LengthMismatch | SendFailed

  datatype Result = Ok | Err(error: Error, sent: nat)

  ghost function Handed(items: seq<Item>): (r: seq<Sent>)
    ensures |r| == |items|
    ensures forall i :: 0 <= i < |r| ==> r[i] == Sent(items[i].isString, items[i].payload)
  {
    seq(|items|, i requires 0 <= i < |items| => Sent(items[i].isString, items[i].payload))
  }

  /** A payload being collected: how much of it, and whether its stream has ended. */
  datatype Collector = Collector(buf: Bytes, finished: bool)

  /** Where the driver is suspended. */
  datatype Driver = Receiving | AwaitingPayload | Sending(data: Bytes) | Returned(result: Result)

  datatype State = State(
    collectors: seq<Collector>,
    inputEnded: bool,
    driver: Driver,
    sent: nat,
    transport: seq<Sent>,
    connectionClosed: bool)

  datatype Step =
    | Consume(count: nat)
    | EndInput
    | Collect(index: nat, count: nat)
    | FinishPayload(index: nat)
    | Drive(accepted: bool)
    | CloseConnection

  function Initial(): State { State([], false, Receiving, 0, [], false) }

  ghost predicate Enabled(input: seq<Item>, s: State, step: Step) {
    match step
    case Consume(n) => !s.inputEnded && |s.collectors| + n <= |input|
    case EndInput => |s.collectors| == |input|
    case Collect(i, n) =>
      i < |s.collectors| && i < |input| && !s.collectors[i].finished && |s.collectors[i].buf| + n <= |input[i].payload|
    case FinishPayload(i) =>
      i < |s.collectors| && i < |input| && |s.collectors[i].buf| == |input[i].payload|
    case Drive(_) =>
      (match s.driver
       case Receiving => s.sent < |s.collectors| || s.inputEnded
       case AwaitingPayload => s.sent < |s.collectors| && s.sent < |input| && s.collectors[s.sent].finished
       case Sending(_) => s.sent < |input|
       case Returned(_) => false)
    case CloseConnection => true
  }

  /** One resumption of the driver; `accepted` is the transport's answer to a send. */
  ghost function DriveOf(input: seq<Item>, s: State, accepted: bool): State
    requires Enabled(input, s, Drive(accepted))
  {
    match s.driver
    case Receiving =>
      if s.sent >= |s.collectors| then s.(driver := Returned(Ok))
      else if s.connectionClosed then s.(driver := Returned(Err(Closed, s.sent)))
      else s.(driver := AwaitingPayload)
    case AwaitingPayload =>
      var data := s.collectors[s.sent].buf;
      if |data| != input[s.sent].declared then s.(driver := Returned(Err(LengthMismatch, s.sent)))
      else s.(driver := Sending(data))
    case Sending(data) =>
      if accepted then
        s.(driver := Receiving, sent := s.sent + 1,
           transport := s.transport + [Sent(input[s.sent].isString, data)])
      else s.(driver := Returned(Err(SendFailed, s.sent)))
  }

  ghost function Perform(input: seq<Item>, s: State, step: Step): State
    requires Enabled(input, s, step)
  {
    match step
    case Consume(n) => s.(collectors := s.collectors + seq(n, _ => Collector([], false)))
    case EndInput => s.(inputEnded := true)
    case Collect(i, n) =>
      var c := s.collectors[i];
      var k := |c.buf|;
      s.(collectors := s.collectors[i := c.(buf := c.buf + input[i].payload[k..k + n])])
    case FinishPayload(i) => s.(collectors := s.collectors[i := s.collectors[i].(finished := true)])
    case Drive(accepted) => DriveOf(input, s, accepted)
    case CloseConnection => s.(connectionClosed := true)
  }

  ghost function After(input: seq<Item>, steps: seq<Step>): State {
    if steps == [] then Initial()
    else
      var s := After(input, steps[..|steps| - 1]);
      if Enabled(input, s, steps[|steps| - 1]) then Perform(input, s, steps[|steps| - 1]) else s
  }

  ghost predicate CollectorOk(item: Item, c: Collector) {
    c.buf <= item.payload && (c.finished ==> c.buf == item.payload)
  }

  ghost predicate DriverOk(input: seq<Item>, s: State) {
    match s.driver
    case Sending(data) => s.sent < |input| && data == input[s.sent].payload && |data| == input[s.sent].declared
    case Returned(Ok) => s.sent == |input|
    case Returned(Err(_, n)) => n == s.sent
    case _ => true
  }

  ghost predicate Inv(input: seq<Item>, s: State) {
    && s.sent <= |s.collectors| <= |input|
    && (s.inputEnded ==> |s.collectors| == |input|)
    && (forall i :: 0 <= i < |s.collectors| ==> CollectorOk(input[i], s.collectors[i]))
    && s.transport == Handed(input[..s.sent])
    && (forall i :: 0 <= i < s.sent ==> |input[i].payload| == input[i].declared)
    && DriverOk(input, s)
    && (s.driver.AwaitingPayload? || s.driver.Sending? ==> s.sent < |s.collectors|)
  }

  lemma CollectKeepsInv(input: seq<Item>, s: State, i: nat, n: nat)
    requires Inv(input, s) && Enabled(input, s, Collect(i, n))
    ensures Inv(input, Perform(input, s, Collect(i, n)))
  {
    var c := s.collectors[i];
    assert CollectorOk(input[i], c);
    assert c.buf + input[i].payload[|c.buf|..|c.buf| + n] == input[i].payload[..|c.buf| + n];
  }

  lemma DriveKeepsInv(input: seq<Item>, s: State, accepted: bool)
    requires Inv(input, s) && Enabled(input, s, Drive(accepted))
    ensures Inv(input, DriveOf(input, s, accepted))
  {
    if s.driver.Sending? && accepted {
      HandedOneMore(input, s.sent);
    } else if s.driver.AwaitingPayload? {
      assert CollectorOk(input[s.sent], s.collectors[s.sent]);
    }
  }

  lemma StepKeepsInv(input: seq<Item>, s: State, step: Step)
    requires Inv(input, s) && Enabled(input, s, step)
    ensures Inv(input, Perform(input, s, step))
  {
    match step
    case Collect(i, n) => CollectKeepsInv(input, s, i, n);
    case FinishPayload(i) => assert CollectorOk(input[i], s.collectors[i]);
    case Drive(accepted) => DriveKeepsInv(input, s, accepted);
    case _ =>
  }

  lemma {:induction false} RunKeepsInv(input: seq<Item>, steps: seq<Step>)
    ensures Inv(input, After(input, steps))
  {
    if steps != [] {
      RunKeepsInv(input, steps[..|steps| - 1]);
      if Enabled(input, After(input, steps[..|steps| - 1]), steps[|steps| - 1]) {
        StepKeepsInv(input, After(input, steps[..|steps| - 1]), steps[|steps| - 1]);
      }
    }
  }

  /**
   Whatever order the payloads finish in, the transport holds the first messages of the stream, in order, each with
   its own bytes, of the declared length; an error reports how many were handed over, and success means all were.
   */
  lemma TransportHoldsAPrefix(input: seq<Item>, steps: seq<Step>)
    ensures var s := After(input, steps);
      && |s.transport| <= |input|
      && s.transport == Handed(input[..|s.transport|])
      && (forall i :: 0 <= i < |s.transport| ==> |s.transport[i].data| == input[i].declared)
      && (s.driver.Returned? && s.driver.result.Err? ==> s.driver.result.sent == |s.transport|)
      && (s.driver.Returned? && s.driver.result.Ok? ==> |s.transport| == |input|)
  {
    RunKeepsInv(input, steps);
  }

  /** Payloads are independent: in any state, whichever of them is unfinished may be the next to finish. */
  lemma PayloadsFinishInAnyOrder(input: seq<Item>, s: State, i: nat, rest: nat)
    requires Inv(input, s) && i < |s.collectors| && !s.collectors[i].finished
    requires |s.collectors[i].buf| + rest == |input[i].payload|
    ensures var all := Collect(i, rest);
      && Enabled(input, s, all)
      && Enabled(input, Perform(input, s, all), FinishPayload(i))
      && Perform(input, Perform(input, s, all), FinishPayload(i)).collectors[i] == Collector(input[i].payload, true)
  {
    StepKeepsInv(input, s, Collect(i, rest));
    assert CollectorOk(input[i], Perform(input, s, Collect(i, rest)).collectors[i]);
  }

  // ----- the sequential drivers -----

  /** The transport's answer to the send of item `k`: `true` once the answers run out. */
  predicate Accepts(answers: seq<bool>, k: nat) { k < |answers| ==> answers[k] }

  /** The first of `n` sends that the transport refuses, or `n`. */
  function FirstRefusal(answers: seq<bool>, n: nat): (k: nat)
    ensures k <= n && (forall i :: 0 <= i < k ==> Accepts(answers, i)) && (k < n ==> !Accepts(answers, k))
  {
    if n == 0 then 0
    else
      var k := FirstRefusal(answers, n - 1);
      if k < n - 1 || !Accepts(answers, n - 1) then k else n
  }

  predicate Matches(item: Item) { |item.payload| == item.declared }

  /** The first item whose payload does not total what it declares, or the number of items. */
  function FirstMismatch(items: seq<Item>): (k: nat)
    ensures k <= |items| && (forall i :: 0 <= i < k ==> Matches(items[i])) && (k < |items| ==> !Matches(items[k]))
  {
    if items == [] || !Matches(items[0]) then 0 else 1 + FirstMismatch(items[1..])
  }

  /** The driver that checks lengths stops at the first mismatch or refusal, a mismatch being seen before the send. */
  ghost function Checked(items: seq<Item>, answers: seq<bool>): (Result, seq<Sent>) {
    var mismatch, refusal := FirstMismatch(items), FirstRefusal(answers, |items|);
    if mismatch < |items| && mismatch <= refusal then (Err(LengthMismatch, mismatch), Handed(items[..mismatch]))
    else if refusal < |items| then (Err(SendFailed, refusal), Handed(items[..refusal]))
    else (Ok, Handed(items))
  }

  lemma CheckedAt(items: seq<Item>, answers: seq<bool>, k: nat)
    requires k <= |items| && forall i :: 0 <= i < k ==> Matches(items[i]) && Accepts(answers, i)
    ensures k == |items| ==> Checked(items, answers) == (Ok, Handed(items))
    ensures k < |items| && !Matches(items[k]) ==>
              Checked(items, answers) == (Err(LengthMismatch, k), Handed(items[..k]))
    ensures k < |items| && Matches(items[k]) && !Accepts(answers, k) ==>
              Checked(items, answers) == (Err(SendFailed, k), Handed(items[..k]))
  {
  }

  /** The jco driver: collect one payload, check its length, send it, go on. */
  method SendInTurn(items: seq<Item>, answers: seq<bool>) returns (result: Result, transport: seq<Sent>)
    ensures (result, transport) == Checked(items, answers)
    ensures |transport| <= |items| && transport == Handed(items[..|transport|])
    ensures forall i :: 0 <= i < |transport| ==> Matches(items[i])
    ensures result.Ok? ==> |transport| == |items|
    ensures result.Err? ==> result.sent == |transport| < |items|
    ensures result.Err? && result.error.LengthMismatch? <==> |transport| < |items| && !Matches(items[|transport|])
  {
    transport := [];
    var sent := 0;
    while sent < |items|
      invariant sent == |transport| <= |items| && transport == Handed(items[..sent])
      invariant forall i :: 0 <= i < sent ==> Matches(items[i]) && Accepts(answers, i)
    {
      CheckedAt(items, answers, sent);
      var item := items[sent];
      if |item.payload| != item.declared {
        return Err(LengthMismatch, sent), transport;
      }
      if !Accepts(answers, sent) {
        return Err(SendFailed, sent), transport;
      }
      HandedOneMore(items, sent);
      transport := transport + [Sent(item.isString, item.payload)];
      sent := sent + 1;
    }
    CheckedAt(items, answers, sent);
    assert items[..sent] == items;
    result := Ok;
  }

  lemma HandedOneMore(items: seq<Item>, k: nat)
    requires k < |items|
    ensures Handed(items[..k + 1]) == Handed(items[..k]) + [Sent(items[k].isString, items[k].payload)]
  {
  }

  /** What the in-guest implementation takes from a payload stream: `declared` bytes, or all of it for zero. */
  function Drained(payload: Bytes, declared: nat): Bytes {
    if declared == 0 || |payload| <= declared then payload else payload[..declared]
  }

  /** Read until the declared length is reached or the stream ends, asking each time for no more than is missing. */
  method DrainStream(payload: Bytes, declared: nat) returns (out: Bytes)
    ensures out == Drained(payload, declared)
  {
    out := [];
    var rest := payload;
    while true
      invariant out + rest == payload && (declared != 0 ==> |out| <= declared)
      decreases |rest|, 1
    {
      if declared != 0 && |out| >= declared {
        break;
      }
      var want := if declared > |out| + 1 then declared - |out| else 1;
      if rest == [] {
        break;
      }
      // The host delivers some of what was asked for, and may report the end along with the last of it.
      var n: nat, ended: bool :| 1 <= n <= want && n <= |rest| && (ended ==> n == |rest|);
      out, rest := out + rest[..n], rest[n..];
      if ended {
        break;
      }
    }
    assert rest == [] || |out| == declared;
    assert out == payload[..|out|];
  }

  /** What the in-guest driver sends of an item. */
  ghost function DrainedAll(items: seq<Item>): (r: seq<Sent>)
    ensures |r| == |items|
    ensures forall i :: 0 <= i < |r| ==> r[i] == Sent(items[i].isString, Drained(items[i].payload, items[i].declared))
  {
    seq(|items|, i requires 0 <= i < |items| =>
      Sent(items[i].isString, Drained(items[i].payload, items[i].declared)))
  }

  /** The driver that does not check lengths stops only where the transport refuses. */
  ghost function Unchecked(items: seq<Item>, answers: seq<bool>): (Result, seq<Sent>) {
    var refusal := FirstRefusal(answers, |items|);
    (if refusal < |items| then Err(SendFailed, refusal) else Ok, DrainedAll(items[..refusal]))
  }

  /** The in-guest driver: drain one payload up to its declared length, send it, go on. */
  method SendDrained(items: seq<Item>, answers: seq<bool>) returns (result: Result, transport: seq<Sent>)
    ensures (result, transport) == Unchecked(items, answers)
  {
    transport := [];
    var sent := 0;
    for k := 0 to |items|
      invariant sent == k && transport == DrainedAll(items[..k])
      invariant forall i :: 0 <= i < k ==> Accepts(answers, i)
    {
      var data := DrainStream(items[k].payload, items[k].declared);
      if !Accepts(answers, k) {
        return Err(SendFailed, sent), transport;
      }
      assert DrainedAll(items[..k + 1]) == DrainedAll(items[..k]) + [Sent(items[k].isString, data)];
      transport := transport + [Sent(items[k].isString, data)];
      sent := sent + 1;
    }
    result := Ok;
  }

  /** The transport is asked to take item `k`, unless a length check stops the driver there. */
  predicate Reached(items: seq<Item>, answers: seq<bool>, k: nat) {
    k < |items| && k <= FirstRefusal(answers, |items|)
  }

  /**
   On every input and whatever the transport answers, the in-guest driver returns and sends what the contract's length
   check would have it return and send exactly when each item it gets to totals its declared length.
   */
  lemma DriversAgreeIffLengthsMatch(items: seq<Item>, answers: seq<bool>)
    ensures Unchecked(items, answers) == Checked(items, answers)
       <==> forall k :: 0 <= k < |items| && Reached(items, answers, k) ==> Matches(items[k])
  {
    var mismatch, refusal := FirstMismatch(items), FirstRefusal(answers, |items|);
    if mismatch < |items| && mismatch <= refusal {
      assert Reached(items, answers, mismatch);
    } else {
      assert forall i :: 0 <= i < refusal ==>
          Drained(items[i].payload, items[i].declared) == items[i].payload by {
        forall i | 0 <= i < refusal
          ensures Drained(items[i].payload, items[i].declared) == items[i].payload
        {
          assert Matches(items[i]);
          DrainKeepsPayloadIff(items[i].payload, items[i].declared);
        }
      }
      assert DrainedAll(items[..refusal]) == Handed(items[..refusal]);
      assert refusal == |items| ==> items[..refusal] == items;
    }
  }

  /** The two drivers agree on every sequence of answers exactly when every item totals its declared length. */
  lemma DriversAlwaysAgreeIff(items: seq<Item>)
    ensures (forall answers :: Unchecked(items, answers) == Checked(items, answers))
       <==> forall k :: 0 <= k < |items| ==> Matches(items[k])
  {
    forall answers | forall k :: 0 <= k < |items| ==> Matches(items[k])
      ensures Unchecked(items, answers) == Checked(items, answers)
    {
      DriversAgreeIffLengthsMatch(items, answers);
    }
    if forall answers :: Unchecked(items, answers) == Checked(items, answers) {
      DriversAgreeIffLengthsMatch(items, []);
      assert Unchecked(items, []) == Checked(items, []);
      forall k | 0 <= k < |items|
        ensures Matches(items[k])
      {
        assert Reached(items, [], k);
      }
    }
  }

  /** A short payload is sent short and a long one cut, with success where the contract asks for an error. */
  lemma MismatchesAreSent(isString: bool, byte: bv8)
    ensures Unchecked([Item(isString, 2, [byte])], []) == (Ok, [Sent(isString, [byte])])
    ensures Unchecked([Item(isString, 1, [byte, byte])], []) == (Ok, [Sent(isString, [byte])])
    ensures Checked([Item(isString, 2, [byte])], []) == (Err(LengthMismatch, 0), [])
    ensures Checked([Item(isString, 1, [byte, byte])], []) == (Err(LengthMismatch, 0), [])
  {
    var short, long := [Item(isString, 2, [byte])], [Item(isString, 1, [byte, byte])];
    assert FirstRefusal([], 1) == 1;
    assert !Matches(short[0]) && !Matches(long[0]);
    assert [byte, byte][..1] == [byte];
    assert DrainedAll(short[..1]) == [Sent(isString, [byte])] && DrainedAll(long[..1]) == [Sent(isString, [byte])];
    assert Handed(short[..0]) == [] && Handed(long[..0]) == [];
  }

  /** One payload is sent as it is exactly when it is no longer than declared, or nothing is declared. */
  lemma DrainKeepsPayloadIff(payload: Bytes, declared: nat)
    ensures Drained(payload, declared) == payload <==> declared == 0 || |payload| <= declared
    ensures |Drained(payload, declared)| == declared <==> |payload| == declared || (0 < declared < |payload|)
  {
    if declared != 0 && |payload| > declared {
      assert |Drained(payload, declared)| == declared;
    }
  }
}
