/** Reading lines from a byte stream that arrives in arbitrary chunks. */
module LineReader {
  import opened Collections

  type Bytes = seq<bv8>

  const NEWLINE: bv8 := 10
  const RETURN: bv8 := 13

  /** One read of the stream; `ended` when the other side has dropped it (or the read was cancelled). */
  datatype Chunk = Chunk(bytes: Bytes, ended: bool)

  /** The bytes that reads yield, up to the one that reports the end.  Reads past the last chunk report it too. */
  ghost function Supply(chunks: seq<Chunk>): Bytes {
    if chunks == [] then [] else chunks[0].bytes + if chunks[0].ended then [] else Supply(chunks[1..])
  }

  /** The position of the first newline, or the length. */
  function Break(b: Bytes): (n: nat)
    ensures n <= |b|
  {
    if b == [] || b[0] == NEWLINE then 0 else Break(b[1..]) + 1
  }

  lemma {:induction false} BreakIsFirst(b: Bytes)
    ensures forall i :: 0 <= i < Break(b) ==> b[i] != NEWLINE
    ensures Break(b) < |b| ==> b[Break(b)] == NEWLINE
  {
    if b != [] && b[0] != NEWLINE {
      BreakIsFirst(b[1..]);
      assert forall i :: 0 < i < |b| ==> b[i] == b[1..][i - 1];
    }
  }

  function Trim(line: Bytes): Bytes {
    if line != [] && line[|line| - 1] == RETURN then Trim(line[..|line| - 1]) else line
  }

  /** The input split at its newlines; what follows the last newline counts only if it is not empty. */
  ghost function Pieces(b: Bytes): seq<Bytes>
    decreases |b|
  {
    if b == [] then [] else [b[..Break(b)]] + if Break(b) < |b| then Pieces(b[Break(b) + 1..]) else []
  }

  /** The lines of the input: its pieces without their carriage returns. */
  ghost function Lines(b: Bytes): seq<Bytes>
    decreases |b|
  {
    if b == [] then [] else [Trim(b[..Break(b)])] + if Break(b) < |b| then Lines(b[Break(b) + 1..]) else []
  }

  lemma {:induction false} LinesAreTrimmedPieces(b: Bytes)
    ensures |Lines(b)| == |Pieces(b)|
    ensures forall i :: 0 <= i < |Lines(b)| ==> Lines(b)[i] == Trim(Pieces(b)[i])
    decreases |b|
  {
    if b != [] && Break(b) < |b| {
      LinesAreTrimmedPieces(b[Break(b) + 1..]);
    }
  }

  ghost function Terminated(pieces: seq<Bytes>): Bytes {
    if pieces == [] then [] else pieces[0] + [NEWLINE] + Terminated(pieces[1..])
  }

  /** The input with a newline after its last byte, unless it has one. */
  ghost function Ended(b: Bytes): Bytes {
    if b == [] || b[|b| - 1] == NEWLINE then b else b + [NEWLINE]
  }

  lemma EndedCons(piece: Bytes, rest: Bytes)
    ensures Ended(piece + [NEWLINE] + rest) == piece + [NEWLINE] + Ended(rest)
  {
    var b := piece + [NEWLINE] + rest;
    if rest == [] {
      assert b[|b| - 1] == NEWLINE;
    } else {
      assert b[|b| - 1] == rest[|rest| - 1];
      assert b + [NEWLINE] == piece + [NEWLINE] + (rest + [NEWLINE]);
    }
  }

  lemma EndedLast(b: Bytes)
    requires b != [] && Break(b) == |b|
    ensures Ended(b) == b + [NEWLINE]
  {
    BreakIsFirst(b);
  }

  lemma Cut(b: Bytes, n: nat)
    requires n < |b| && b[n] == NEWLINE
    ensures b == b[..n] + [NEWLINE] + b[n + 1..]
  {
  }

  /** One piece and the pieces after its newline. */
  lemma TerminatedCons(piece: Bytes, rest: seq<Bytes>)
    ensures Terminated([piece] + rest) == piece + [NEWLINE] + Terminated(rest)
  {
    assert ([piece] + rest)[1..] == rest;
  }

  lemma {:induction false} PiecesAreFreeOfNewlines(b: Bytes, i: nat)
    requires i < |Pieces(b)|
    ensures NEWLINE !in Pieces(b)[i]
    decreases |b|
  {
    BreakIsFirst(b);
    if i > 0 {
      PiecesAreFreeOfNewlines(b[Break(b) + 1..], i - 1);
    }
  }

  /** The pieces are the input: terminated by newlines they give it back, with a newline at its end. */
  lemma {:induction false} PiecesAreTheInput(b: Bytes)
    ensures Terminated(Pieces(b)) == Ended(b)
    decreases |b|
  {
    if b == [] {
    } else if Break(b) < |b| {
      var piece, rest := b[..Break(b)], b[Break(b) + 1..];
      PiecesAreTheInput(rest);
      TerminatedCons(piece, Pieces(rest));
      EndedCons(piece, rest);
      BreakIsFirst(b);
      Cut(b, Break(b));
    } else {
      EndedLast(b);
      TerminatedCons(b, []);
      LastPiece(b);
    }
  }

  lemma LastPiece(b: Bytes)
    requires b != [] && Break(b) == |b|
    ensures Pieces(b) == [b] + []
  {
    assert b[..|b|] == b;
  }

  /** Trimming drops exactly the carriage returns at the end. */
  lemma {:induction false} TrimDropsReturns(line: Bytes)
    ensures Trim(line) <= line
    ensures forall i :: |Trim(line)| <= i < |line| ==> line[i] == RETURN
    ensures Trim(line) != [] ==> Trim(line)[|Trim(line)| - 1] != RETURN
  {
    if line != [] && line[|line| - 1] == RETURN {
      TrimDropsReturns(line[..|line| - 1]);
    }
  }

  lemma {:induction false} BreakOfPrefix(b: Bytes, more: Bytes)
    requires Break(b) < |b|
    ensures Break(b + more) == Break(b)
  {
    if b[0] != NEWLINE {
      BreakOfPrefix(b[1..], more);
      assert (b + more)[1..] == b[1..] + more;
    }
  }

  /** A buffered newline ends the first line, whatever is still to come. */
  lemma FirstLine(buffer: Bytes, more: Bytes)
    requires Break(buffer) < |buffer|
    ensures var n := Break(buffer);
      Lines(buffer + more) == [Trim(buffer[..n])] + Lines(buffer[n + 1..] + more)
  {
    var n, b := Break(buffer), buffer + more;
    BreakOfPrefix(buffer, more);
    assert b[..n] == buffer[..n] && b[n + 1..] == buffer[n + 1..] + more;
    LinesUnfold(b, buffer[..n], buffer[n + 1..] + more);
  }

  lemma LinesUnfold(b: Bytes, piece: Bytes, rest: Bytes)
    requires Break(b) < |b| && b[..Break(b)] == piece && b[Break(b) + 1..] == rest
    ensures Lines(b) == [Trim(piece)] + Lines(rest)
  {
  }

  lemma LastLine(buffer: Bytes)
    requires buffer != [] && Break(buffer) == |buffer|
    ensures Lines(buffer) == [Trim(buffer)]
  {
    assert buffer[..|buffer|] == buffer;
  }

  /** The line a reader of `lines` chooses: the first one that is not blank and decodes. */
  ghost function Chosen(lines: seq<Bytes>, trim: Bytes -> Bytes, decode: Bytes -> Option<Bytes>): (Bytes, seq<Bytes>) {
    if lines == [] then ([], [])
    else if trim(lines[0]) != [] && decode(trim(lines[0])).Some? then (decode(trim(lines[0])).value, lines[1..])
    else Chosen(lines[1..], trim, decode)
  }

  class Stdin {
    var chunks: seq<Chunk>
    var buffer: Bytes
    var done: bool

    constructor (chunks: seq<Chunk>)
      ensures Rest() == Supply(chunks)
    {
      this.chunks, buffer, done := chunks, [], false;
    }

    /** The bytes not yet returned in a line, wherever they are. */
    ghost function Rest(): Bytes
      reads this
    {
      buffer + if done then [] else Supply(chunks)
    }

    method Read() returns (chunk: Chunk)
      modifies this`chunks
      ensures Supply(old(chunks)) == chunk.bytes + if chunk.ended then [] else Supply(chunks)
      ensures chunk.ended || |chunks| < |old(chunks)|
    {
      if chunks == [] {
        return Chunk([], true);
      }
      chunk, chunks := chunks[0], chunks[1..];
    }

    /** Takes the buffered line that ends at `n`. */
    method TakeLine(n: nat) returns (line: Bytes)
      requires n < |buffer| && n == Break(buffer)
      modifies this`buffer
      ensures Lines(old(Rest())) == [line] + Lines(Rest()) && |Rest()| < |old(Rest())|
    {
      ghost var more := if done then [] else Supply(chunks);
      FirstLine(buffer, more);
      assert Rest() == buffer + more;
      line := Trim(buffer[..n]);
      buffer := buffer[n + 1..];
      assert Rest() == buffer + more;
    }

    /** Takes what is buffered after the end of the input, if anything. */
    method TakeRest() returns (line: Option<Bytes>)
      requires done && Break(buffer) == |buffer|
      modifies this`buffer
      ensures Rest() == [] && (line.None? <==> old(Rest()) == [])
      ensures line.Some? ==> Lines(old(Rest())) == [line.value]
    {
      if buffer == [] {
        return None;
      }
      LastLine(buffer);
      assert Rest() == buffer;
      line, buffer := Some(Trim(buffer)), [];
    }

    method Fill()
      requires !done
      modifies this
      ensures Rest() == old(Rest())
      ensures done || |chunks| < |old(chunks)|
    {
      ghost var held := buffer;
      var chunk := Read();
      ghost var more := if chunk.ended then [] else Supply(chunks);
      buffer := buffer + chunk.bytes;
      assert held + (chunk.bytes + more) == buffer + more;
      if chunk.ended {
        done := true;
      }
    }

    /**
     The next line, which depends on the bytes still to come and not on how they are chunked: it is the first of their
     lines, and the others remain.
     */
    method ReadLine() returns (line: Option<Bytes>)
      modifies this
      ensures line.None? <==> old(Rest()) == []
      ensures line.None? ==> Rest() == []
      ensures line.Some? ==> Lines(old(Rest())) == [line.value] + Lines(Rest())
      ensures line.Some? ==> |Rest()| < |old(Rest())|
    {
      while true
        invariant Rest() == old(Rest())
        decreases !done, |chunks|
      {
        var n := Break(buffer);
        if n < |buffer| {
          var taken := TakeLine(n);
          return Some(taken);
        }
        if done {
          line := TakeRest();
          return;
        }
        Fill();
      }
    }

    /** Asks for lines until one is a blob; the empty text once the input is exhausted. */
    method Request(trim: Bytes -> Bytes, decode: Bytes -> Option<Bytes>) returns (text: Bytes)
      modifies this
      ensures (text, Lines(Rest())) == Chosen(Lines(old(Rest())), trim, decode)
    {
      while true
        invariant Chosen(Lines(Rest()), trim, decode) == Chosen(Lines(old(Rest())), trim, decode)
        decreases |Rest()|
      {
        ghost var before := Lines(Rest());
        var line := ReadLine();
        if line.None? {
          return [];
        }
        assert before[1..] == Lines(Rest());
        var trimmed := trim(line.value);
        if trimmed != [] {
          var decoded := decode(trimmed);
          if decoded.Some? {
            return decoded.value;
          }
        }
      }
    }
  }

  /** The reads that deliver `parts`, the end reported with the last of them or by a read of its own. */
  ghost function Reads(parts: seq<Bytes>, endsWithLast: bool): seq<Chunk> {
    if parts == [] then [] else [Chunk(parts[0], endsWithLast && |parts| == 1)] + Reads(parts[1..], endsWithLast)
  }

  /** However the input is cut into reads, the lines are those of the whole input. */
  lemma {:induction false} ChunkingIsInvisible(parts: seq<Bytes>, endsWithLast: bool)
    ensures Supply(Reads(parts, endsWithLast)) == Flatten(parts)
    ensures Lines(Supply(Reads(parts, endsWithLast))) == Lines(Flatten(parts))
  {
    if parts != [] {
      ChunkingIsInvisible(parts[1..], endsWithLast);
      assert Reads(parts, endsWithLast)[1..] == Reads(parts[1..], endsWithLast);
      assert |parts| == 1 ==> Flatten(parts[1..]) == [];
    }
  }

  /** Repeated reads of a stream, until there is nothing more, yield the lines of the input, however it was cut. */
  method ReadAll(chunks: seq<Chunk>) returns (lines: seq<Bytes>)
    ensures lines == Lines(Supply(chunks))
    ensures forall parts, endsWithLast :: chunks == Reads(parts, endsWithLast) ==> lines == Lines(Flatten(parts))
  {
    var stdin := new Stdin(chunks);
    lines := [];
    var more := true;
    while more
      invariant fresh(stdin) && lines + Lines(stdin.Rest()) == Lines(Supply(chunks))
      invariant !more ==> stdin.Rest() == []
      decreases |stdin.Rest()|, more
    {
      ghost var before := lines;
      var line := stdin.ReadLine();
      if line.None? {
        more := false;
      } else {
        lines := lines + [line.value];
        assert lines + Lines(stdin.Rest()) == before + ([line.value] + Lines(stdin.Rest()));
      }
    }
    forall parts, endsWithLast | chunks == Reads(parts, endsWithLast)
      ensures lines == Lines(Flatten(parts))
    {
      ChunkingIsInvisible(parts, endsWithLast);
    }
  }
}
