/** The conformance payloads: an index in four little-endian bytes, then a pattern derived from it. */
module Payload {
  import opened Collections

  type Byte = x: int | 0 <= x < 0x100
  type Word = x: int | 0 <= x < 0x1_0000_0000

  /** Word arithmetic is 32 bits wide and wraps. */
  function Plus(a: Word, b: Word): Word { (a + b) % 0x1_0000_0000 }

  function ToLittleEndian(w: Word): (bytes: seq<Byte>)
    ensures |bytes| == 4
  {
    [w % 0x100, w / 0x100 % 0x100, w / 0x1_0000 % 0x100, w / 0x100_0000]
  }

  function FromLittleEndian(bytes: seq<Byte>): Word
    requires |bytes| == 4
  {
    var a: int, b: int, c: int, d: int := bytes[0], bytes[1], bytes[2], bytes[3];
    a + 0x100 * b + 0x1_0000 * c + 0x100_0000 * d
  }

  lemma DecodesWhatWasEncoded(w: Word)
    ensures FromLittleEndian(ToLittleEndian(w)) == w
  {
    assert w / 0x1_0000 == w / 0x100 / 0x100 && w / 0x100_0000 == w / 0x1_0000 / 0x100;
  }

  lemma EncodesWhatWasDecoded(bytes: seq<Byte>)
    requires |bytes| == 4
    ensures ToLittleEndian(FromLittleEndian(bytes)) == bytes
  {
    var a: int, b: int, c: int, d: int := bytes[0], bytes[1], bytes[2], bytes[3];
    var w: int := FromLittleEndian(bytes);
    var top: int := c + 0x100 * d;
    var upper: int := b + 0x100 * top;
    assert w == a + 0x100 * upper;
    assert w / 0x100 == upper && w / 0x1_0000 == upper / 0x100 == top && w / 0x100_0000 == top / 0x100;
  }

  function PatternByte(index: Word, offset: Word): Byte { Plus(index, offset) % 251 }

  /** A payload of `size` bytes, and of four at least. */
  ghost function PayloadOf(index: Word, size: Word): (bytes: seq<Byte>)
    ensures |bytes| == if size < 4 then 4 else size
  {
    ToLittleEndian(index)
    + seq(if size < 4 then 0 else size - 4, offset requires 0 <= offset < size => PatternByte(index, offset))
  }

  method MakePayload(index: Word, size: Word) returns (bytes: seq<Byte>)
    ensures bytes == PayloadOf(index, size)
  {
    var full: Word := if size < 4 then 4 else size;
    bytes := ToLittleEndian(index);
    for offset: Word := 0 to full - 4
      invariant |bytes| == 4 + offset && bytes[..4] == ToLittleEndian(index)
      invariant forall i :: 0 <= i < offset ==> bytes[4 + i] == PatternByte(index, i)
    {
      bytes := bytes + [PatternByte(index, offset)];
    }
  }

  function PayloadIndex(bytes: seq<Byte>): Option<Word> {
    if |bytes| < 4 then None else Some(FromLittleEndian(bytes[..4]))
  }

  predicate VerifyPayload(bytes: seq<Byte>)
    requires |bytes| < 0x1_0000_0000
  {
    var index := PayloadIndex(bytes);
    index.Some? && forall offset :: 0 <= offset < |bytes| - 4 ==> bytes[4 + offset] == PatternByte(index.value, offset)
  }

  lemma PayloadCarriesItsIndex(index: Word, size: Word)
    ensures PayloadIndex(PayloadOf(index, size)) == Some(index)
    ensures VerifyPayload(PayloadOf(index, size))
  {
    DecodesWhatWasEncoded(index);
    assert PayloadOf(index, size)[..4] == ToLittleEndian(index);
  }

  /** A byte string verifies exactly when it is the payload of some index, which is then the one it carries. */
  lemma VerifiesExactlyPayloads(bytes: seq<Byte>)
    requires |bytes| < 0x1_0000_0000
    ensures VerifyPayload(bytes) <==> exists index: Word :: bytes == PayloadOf(index, |bytes|)
    ensures VerifyPayload(bytes) <==>
            PayloadIndex(bytes).Some? && bytes == PayloadOf(PayloadIndex(bytes).value, |bytes|)
  {
    if VerifyPayload(bytes) {
      EncodesWhatWasDecoded(bytes[..4]);
      var index := PayloadIndex(bytes).value;
      assert bytes == PayloadOf(index, |bytes|);
    }
    forall index: Word | bytes == PayloadOf(index, |bytes|)
      ensures VerifyPayload(bytes) && PayloadIndex(bytes) == Some(index)
    {
      PayloadCarriesItsIndex(index, |bytes|);
    }
  }

  ghost predicate InMemory(received: seq<seq<Byte>>) {
    |received| < 0x1_0000_0000 && forall i :: 0 <= i < |received| ==> |received[i]| < 0x1_0000_0000
  }

  method VerifyAll(received: seq<seq<Byte>>, count: Word) returns (ok: bool)
    requires InMemory(received)
    ensures ok <==> |received| == count && forall i :: 0 <= i < |received| ==> VerifyPayload(received[i])
  {
    if |received| != count {
      return false;
    }
    for i := 0 to |received|
      invariant forall k :: 0 <= k < i ==> VerifyPayload(received[k])
    {
      if !VerifyPayload(received[i]) {
        return false;
      }
    }
    ok := true;
  }

  /** The list is exactly the payloads of 0, 1, 2, ..., `count` of them, in order. */
  method VerifyOrdered(received: seq<seq<Byte>>, count: Word) returns (ok: bool)
    requires InMemory(received)
    ensures ok <==> |received| == count
                    && forall i :: 0 <= i < |received| ==> received[i] == PayloadOf(i, |received[i]|)
  {
    forall i | 0 <= i < |received|
      ensures received[i] == PayloadOf(i, |received[i]|) <==>
              VerifyPayload(received[i]) && PayloadIndex(received[i]) == Some(i)
    {
      VerifiesExactlyPayloads(received[i]);
      PayloadCarriesItsIndex(i, |received[i]|);
    }
    ok := VerifyAll(received, count);
    if !ok {
      return;
    }
    for i := 0 to |received|
      invariant forall k :: 0 <= k < i ==> PayloadIndex(received[k]) == Some(k)
    {
      if PayloadIndex(received[i]) != Some(i) {
        return false;
      }
    }
  }

  /** What a sequence of sends puts on the wire in order verifies, and different indices give different payloads. */
  lemma PayloadsAreDistinct(i: Word, j: Word, n: Word, m: Word)
    requires PayloadOf(i, n) == PayloadOf(j, m)
    ensures i == j && (if n < 4 then 4 else n) == (if m < 4 then 4 else m)
  {
    PayloadCarriesItsIndex(i, n);
    PayloadCarriesItsIndex(j, m);
  }
}
