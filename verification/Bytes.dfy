/** Bytes and little-endian integers. */
module ByteStrings {

  type byte = b: int | 0 <= b < 0x100
  type uint16 = n: int | 0 <= n < 0x1_0000
  type uint32 = n: int | 0 <= n < 0x1_0000_0000

  type Bytes = seq<byte>

  function U16(data: Bytes, at: nat): (n: uint16)
    requires at + 2 <= |data|
  {
    var b0: int, b1: int := data[at], data[at + 1];
    b0 + 0x100 * b1
  }

  function U32(data: Bytes, at: nat): (n: uint32)
    requires at + 4 <= |data|
  {
    var low: int, high: int := U16(data, at), U16(data, at + 2);
    low + 0x1_0000 * high
  }

  function LE16(n: uint16): (data: Bytes)
    ensures |data| == 2 && U16(data, 0) == n
  {
    [n % 0x100, n / 0x100]
  }

  function LE32(n: uint32): (data: Bytes)
    ensures |data| == 4 && U32(data, 0) == n
  {
    LE16(n % 0x1_0000) + LE16(n / 0x1_0000)
  }

  /** `part` sits in `data` at offset `at`. */
  predicate Holds(data: Bytes, at: nat, part: Bytes) {
    at + |part| <= |data| && data[at..at + |part|] == part
  }

  /** A part of a part sits where one expects it. */
  lemma HoldsPart(data: Bytes, at: nat, before: Bytes, part: Bytes, after: Bytes)
    requires Holds(data, at, before + part + after)
    ensures Holds(data, at + |before|, part)
  {
    var whole := before + part + after;
    forall k | 0 <= k < |part| ensures data[at + |before| + k] == part[k] {
      assert data[at..at + |whole|][|before| + k] == whole[|before| + k] == part[k];
    }
  }

  function Concat(parts: seq<Bytes>): Bytes {
    if parts == [] then [] else parts[0] + Concat(parts[1..])
  }

  /** A part of a concatenation sits behind the parts before it. */
  lemma {:induction false} ConcatHolds(parts: seq<Bytes>, i: nat)
    requires i < |parts|
    ensures Holds(Concat(parts), |Concat(parts[..i])|, parts[i])
  {
    var first, others := parts[0], Concat(parts[1..]);
    if i == 0 {
      assert (first + others)[..|first|] == first;
    } else {
      ConcatHolds(parts[1..], i - 1);
      assert parts[..i][1..] == parts[1..][..i - 1];
      var at, part := |Concat(parts[1..][..i - 1])|, parts[i];
      assert (first + others)[|first| + at..|first| + at + |part|] == others[at..at + |part|];
    }
  }

  /** Reading a text from the offset of a part begins with that part. */
  lemma ReadPart(head: Bytes, body: Bytes, rest: Bytes, at: nat, part: Bytes)
    requires Holds(body, at, part)
    ensures (head + body + rest)[|head| + at..] == part + (body[at + |part|..] + rest)
  {
    assert body[at..] == part + body[at + |part|..];
    assert (head + body + rest)[|head| + at..] == body[at..] + rest;
  }

  lemma HoldsU16(data: Bytes, at: nat, n: uint16)
    requires Holds(data, at, LE16(n))
    ensures at + 2 <= |data| && U16(data, at) == n
  {
    var part := data[at..at + 2];
    assert data[at] == part[0] && data[at + 1] == part[1];
  }

  lemma HoldsU32(data: Bytes, at: nat, n: uint32)
    requires Holds(data, at, LE32(n))
    ensures at + 4 <= |data| && U32(data, at) == n
  {
    var part := data[at..at + 4];
    assert data[at] == part[0] && data[at + 1] == part[1] && data[at + 2] == part[2] && data[at + 3] == part[3];
  }
}
