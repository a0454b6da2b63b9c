/** Little-endian numbers, concatenation of buffers, and the frame that puts a
    length-prefixed part before the rest. */
module BinaryFrames {
  import opened Identifiers

  type byte = x: int | 0 <= x < 256

  const UINT32: nat := 0x1_0000_0000

  /** `DataView.setUint32`: the low 32 bits, least significant byte first. */
  function EncodeNumber(value: nat): (bytes: seq<byte>)
    ensures |bytes| == 4
  {
    var second := value / 0x100;
    var third := second / 0x100;
    var fourth := third / 0x100;
    [value % 0x100, second % 0x100, third % 0x100, fourth % 0x100]
  }

  /** The number with the given base-256 digits, least significant first. */
  function Weigh(first: int, second: int, third: int, fourth: int): int {
    first + 0x100 * (second + 0x100 * (third + 0x100 * fourth))
  }

  /** `DataView.getUint32` at offset 0; out of range when fewer than four bytes are there. */
  function DecodeNumber(bytes: seq<byte>): (value: Option<nat>)
    ensures value.Some? <==> |bytes| >= 4
    ensures value.Some? ==> value.value < UINT32
  {
    if |bytes| < 4 then None else Some(Weigh(bytes[0], bytes[1], bytes[2], bytes[3]))
  }

  lemma LowBytes(value: nat)
    ensures value % UINT32 == value % 0x100 + 0x100 * (value / 0x100 % 0x100_0000)
  {
    assert value / 0x100 == 0x100_0000 * (value / UINT32) + value / 0x100 % 0x100_0000;
  }

  lemma MiddleBytes(value: nat)
    ensures value % 0x100_0000 == value % 0x100 + 0x100 * (value / 0x100 % 0x1_0000)
  {
    assert value / 0x100 == 0x1_0000 * (value / 0x100_0000) + value / 0x100 % 0x1_0000;
  }

  lemma HighBytes(value: nat)
    ensures value % 0x1_0000 == value % 0x100 + 0x100 * (value / 0x100 % 0x100)
  {
    assert value / 0x100 == 0x100 * (value / 0x1_0000) + value / 0x100 % 0x100;
  }

  /** The four digits of the encoding weigh as much as the low 32 bits. */
  lemma WeighEncoded(value: nat)
    ensures var bytes := EncodeNumber(value); Weigh(bytes[0], bytes[1], bytes[2], bytes[3]) == value % UINT32
  {
    LowBytes(value);
    MiddleBytes(value / 0x100);
    HighBytes(value / 0x100 / 0x100);
  }

  /** Decoding undoes encoding up to 32-bit wrap-around, whatever follows. */
  lemma DecodeEncoded(value: nat, rest: seq<byte>)
    ensures DecodeNumber(EncodeNumber(value) + rest) == Some(value % UINT32)
  {
    WeighEncoded(value);
    var encoded := EncodeNumber(value);
    assert forall k | 0 <= k < 4 :: (encoded + rest)[k] == encoded[k];
  }

  /** Every four bytes are the encoding of the number they decode to. */
  lemma EncodeDecoded(bytes: seq<byte>)
    requires |bytes| >= 4
    ensures EncodeNumber(DecodeNumber(bytes).value) == bytes[..4]
  {
    var third: int := bytes[2] as int + 0x100 * bytes[3] as int;
    var second: int := bytes[1] as int + 0x100 * third;
    var n := DecodeNumber(bytes).value;
    assert n == bytes[0] as int + 0x100 * second;
    assert n / 0x100 == second && second / 0x100 == third && third / 0x100 == bytes[3];
  }

  // -------------------------------------------------------- concatenation

  function Flatten(buffers: seq<seq<byte>>): (bytes: seq<byte>) {
    if buffers == [] then [] else Flatten(buffers[..|buffers| - 1]) + buffers[|buffers| - 1]
  }

  lemma {:induction false} FlattenGrows(buffers: seq<seq<byte>>, i: nat)
    requires i < |buffers|
    ensures Flatten(buffers[..i + 1]) == Flatten(buffers[..i]) + buffers[i]
  {
    assert buffers[..i + 1][..i] == buffers[..i];
  }

  lemma {:induction false} FlattenWithin(buffers: seq<seq<byte>>, i: nat)
    requires i <= |buffers|
    ensures |Flatten(buffers[..i])| <= |Flatten(buffers)|
    decreases |buffers| - i
  {
    if i < |buffers| {
      FlattenGrows(buffers, i);
      FlattenWithin(buffers, i + 1);
    } else {
      assert buffers[..i] == buffers;
    }
  }

  /** Two passes: one adds the lengths up, the other writes each buffer at the
      moving offset. */
  method Concat(buffers: seq<seq<byte>>) returns (view: array<byte>)
    ensures fresh(view) && view[..] == Flatten(buffers)
  {
    var totalLength := 0;
    for i := 0 to |buffers|
      invariant totalLength == |Flatten(buffers[..i])|
    {
      FlattenGrows(buffers, i);
      totalLength := totalLength + |buffers[i]|;
    }
    assert buffers[..|buffers|] == buffers;
    view := new byte[totalLength];
    var offset := 0;
    for i := 0 to |buffers|
      invariant offset == |Flatten(buffers[..i])| <= view.Length
      invariant view[..offset] == Flatten(buffers[..i])
    {
      FlattenGrows(buffers, i);
      FlattenWithin(buffers, i + 1);
      var chunk := buffers[i];
      ghost var written := view[..offset];
      forall k | 0 <= k < |chunk| {
        view[offset + k] := chunk[k];
      }
      offset := offset + |chunk|;
      assert view[..offset] == written + chunk;
    }
  }

  // --------------------------------------------------------------- frames

  /** `subarray`: both ends are clamped to the buffer. */
  function Subarray(bytes: seq<byte>, from: nat, to: nat): (part: seq<byte>)
    ensures |part| <= |bytes|
  {
    var hi := if to < |bytes| then to else |bytes|;
    if from < hi then bytes[from..hi] else []
  }

  function Join(head: seq<byte>, tail: seq<byte>): seq<byte> {
    EncodeNumber(|head|) + head + tail
  }

  /** The declared length, the part it covers and what follows. */
  function Split(bytes: seq<byte>): (parts: Option<(nat, seq<byte>, seq<byte>)>)
    ensures parts.None? <==> |bytes| < 4
  {
    var declared := DecodeNumber(bytes);
    if declared.None? then None
    else Some((declared.value, Subarray(bytes, 4, 4 + declared.value), Subarray(bytes, 4 + declared.value, |bytes|)))
  }

  /** A frame splits exactly where it was joined, if and only if the length of
      its first part fits in 32 bits. */
  lemma SplitJoined(head: seq<byte>, tail: seq<byte>)
    ensures Split(Join(head, tail)) == Some((|head|, head, tail)) <==> |head| < UINT32
  {
    var prefix := EncodeNumber(|head|);
    assert prefix + head + tail == prefix + (head + tail);
    DecodeEncoded(|head|, head + tail);
    if |head| < UINT32 {
      Parts(prefix, head, tail);
    }
  }

  lemma Parts(prefix: seq<byte>, head: seq<byte>, tail: seq<byte>)
    ensures
      var bytes, end := prefix + head + tail, |prefix| + |head|;
      Subarray(bytes, |prefix|, end) == head && Subarray(bytes, end, |bytes|) == tail
  {
    var bytes, end := prefix + head + tail, |prefix| + |head|;
    assert bytes[|prefix|..end] == head;
    assert bytes[end..] == tail;
  }

  /** A frame that is not cut short is the join of the parts it splits into. */
  lemma JoinSplit(bytes: seq<byte>)
    requires |bytes| >= 4 && 4 + DecodeNumber(bytes).value <= |bytes|
    ensures Split(bytes).value.0 == |Split(bytes).value.1|
    ensures Join(Split(bytes).value.1, Split(bytes).value.2) == bytes
  {
    var declared := DecodeNumber(bytes).value;
    var head, tail := bytes[4..4 + declared], bytes[4 + declared..];
    EncodeDecoded(bytes);
    Cut(bytes, 4, 4 + declared);
    assert Subarray(bytes, 4, 4 + declared) == head;
    assert Subarray(bytes, 4 + declared, |bytes|) == tail;
  }

  lemma Cut(bytes: seq<byte>, i: nat, j: nat)
    requires i <= j <= |bytes|
    ensures bytes == bytes[..i] + bytes[i..j] + bytes[j..]
  {
  }
}
