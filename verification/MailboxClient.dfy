/**
 The mailbox clients: a read cursor advanced by a loop that asks for the blob at the cursor until the server answers
 with it or with "done".  The three hosts differ only in which answers they trust.
 */
module MailboxClient {
  import opened Collections
  import opened MailboxStore

  datatype Host = Wasmtime | Jco | Wasip3

  /** `done` is the `x-done` header; a missing body is one that failed to arrive. */
  datatype Response = Unreachable | Response(status: nat, done: bool, body: Option<Blob>)

  datatype Received = Got(blob: Blob) | Nothing | NotYet | Failed

  /** What one response means to a client.  The guest-side client reads every body, and wants `x-done` on a 204. */
  function Verdict(host: Host, r: Response): Received {
    if r.Unreachable? || (host.Wasip3? && r.body.None?) then Failed
    else if r.status == 200 then if r.body.Some? then Got(r.body.value) else Failed
    else if r.status == 204 && (host.Wasip3? ==> r.done) then Nothing
    else if r.status == 304 then NotYet
    else Failed
  }

  /** The response the server sends for the outcome of a fetch. */
  function Wire(answer: Fetch): Response {
    match answer
    case Found(blob) => Response(200, false, Some(blob))
    case Done => Response(204, true, Some([]))
    case Pending => Response(304, false, Some([]))
  }

  /** How many responses in a row say "not yet". */
  function Retries(host: Host, responses: seq<Response>): (n: nat)
    ensures n <= |responses|
    ensures forall i :: 0 <= i < n ==> Verdict(host, responses[i]) == NotYet
    ensures n < |responses| ==> Verdict(host, responses[n]) != NotYet
  {
    if responses == [] || Verdict(host, responses[0]) != NotYet then 0 else 1 + Retries(host, responses[1..])
  }

  lemma {:induction false} RetriesUnique(host: Host, responses: seq<Response>, k: nat)
    requires k <= |responses|
    requires forall i :: 0 <= i < k ==> Verdict(host, responses[i]) == NotYet
    requires k < |responses| ==> Verdict(host, responses[k]) != NotYet
    ensures Retries(host, responses) == k
  {
    if k > 0 {
      assert Verdict(host, responses[0]) == NotYet;
      RetriesUnique(host, responses[1..], k - 1);
    }
  }

  class MailboxSession {
    const host: Host
    var recvSeq: nat

    constructor (host: Host)
      ensures recvSeq == 0 && this.host == host
    {
      this.host, recvSeq := host, 0;
    }

    /**
     `responses` are what the server would send to one request after another; `asked` are the sequence numbers of the
     requests made.  Running out of responses is a receive still waiting.
     */
    method Recv(responses: seq<Response>) returns (r: Received, asked: seq<nat>)
      modifies this
      ensures var k := Retries(host, responses);
        && r == (if k < |responses| then Verdict(host, responses[k]) else NotYet)
        && |asked| == (if k < |responses| then k + 1 else k)
      ensures forall i :: 0 <= i < |asked| ==> asked[i] == old(recvSeq)
      ensures recvSeq == old(recvSeq) + if r.Got? then 1 else 0
    {
      asked := [];
      var k := 0;
      while k < |responses|
        invariant 0 <= k <= |responses| && |asked| == k && recvSeq == old(recvSeq)
        invariant forall i :: 0 <= i < k ==> Verdict(host, responses[i]) == NotYet
        invariant forall i :: 0 <= i < |asked| ==> asked[i] == old(recvSeq)
      {
        var seqNo := recvSeq;
        asked := asked + [seqNo];
        r := Verdict(host, responses[k]);
        if r != NotYet {
          RetriesUnique(host, responses, k);
          if r.Got? {
            recvSeq := seqNo + 1;
          }
          return;
        }
        k := k + 1;
      }
      RetriesUnique(host, responses, k);
      r := NotYet;
    }
  }
}
