/** Finding a security descriptor inside a share information response, and how much of the response it is. */
module EmbeddedDescriptors {
  import opened Common
  import opened ByteStrings
  import opened Sids
  import opened AccessMasks
  import opened SecurityDescriptors

  const HEADER_SIZE := 20
  const DEFAULT_ESTIMATE := 64

  function Max(a: nat, b: nat): nat {
    if a < b then b else a
  }

  /** The largest of the four component offsets, and no less than the header. */
  function MaxOffset(data: Bytes): (offset: nat)
    requires |data| >= HEADER_SIZE
    ensures offset >= HEADER_SIZE
  {
    Max(Max(Max(Max(HEADER_SIZE, U32(data, 4)), U32(data, 8)), U32(data, 12)), U32(data, 16))
  }

  /** The size of what stands at the largest offset, judged by its first byte. */
  function LastSize(data: Bytes, offset: nat): nat {
    if offset > HEADER_SIZE && offset + 8 <= |data| then
      var first: int, second: int := data[offset], data[offset + 1];
      if first == 1 then 8 + 4 * second
      else if first == 2 then U16(data, offset + 2)
      else DEFAULT_ESTIMATE
    else DEFAULT_ESTIMATE
  }

  function SDLength(data: Bytes): nat {
    if |data| < HEADER_SIZE then 0 else MaxOffset(data) + LastSize(data, MaxOffset(data))
  }

  method CalculateSDLength(data: Bytes) returns (length: nat)
    ensures length == SDLength(data)
  {
    if |data| < 20 {
      return 0;
    }
    var ownerOffset, groupOffset, saclOffset, daclOffset := U32(data, 4), U32(data, 8), U32(data, 12), U32(data, 16);
    var maxOffset: nat := 20;
    if ownerOffset > 0 && ownerOffset > maxOffset {
      maxOffset := ownerOffset;
    }
    if groupOffset > 0 && groupOffset > maxOffset {
      maxOffset := groupOffset;
    }
    if saclOffset > 0 && saclOffset > maxOffset {
      maxOffset := saclOffset;
    }
    if daclOffset > 0 && daclOffset > maxOffset {
      maxOffset := daclOffset;
    }
    if maxOffset > 20 && maxOffset < |data| {
      var remaining := data[maxOffset..];
      if |remaining| >= 8 {
        if remaining[0] == 1 {
          var subAuthCount: int := remaining[1];
          return maxOffset + 8 + subAuthCount * 4;
        } else if remaining[0] == 2 {
          var aclSize := U16(remaining, 2);
          assert aclSize == U16(data, maxOffset + 2);
          return maxOffset + aclSize;
        }
      }
    }
    return maxOffset + 64;
  }

  // ----- the scan -----

  /** The bytes from i on pass for a descriptor with a DACL. */
  predicate Accepted(payload: Bytes, i: nat)
    requires i + HEADER_SIZE < |payload|
  {
    && payload[i] == 1 && payload[i + 1] == 0
    && (HasFlag(U16(payload, i + 2), SE_DACL_PRESENT) || HasFlag(U16(payload, i + 2), SE_SELF_RELATIVE))
    && DescriptorAt(payload[i..]).Ok? && DescriptorAt(payload[i..]).value.dacl.Some?
    && SDLength(payload[i..]) > 0 && i + SDLength(payload[i..]) <= |payload|
  }

  /**
    * Byte by byte: revision 1, a zero byte, and in the little-endian control field the bit 0x0004 or the bit 0x8000;
    * then a descriptor that parses, with a DACL, and whose computed length fits into the payload.
    */
  lemma AcceptedIs(payload: Bytes, i: nat)
    requires i + 20 < |payload|
    ensures Accepted(payload, i) <==>
      && payload[i] == 1 && payload[i + 1] == 0 && (payload[i + 2] as int / 4 % 2 == 1 || payload[i + 3] >= 128)
      && DescriptorAt(payload[i..]).Ok? && DescriptorAt(payload[i..]).value.dacl.Some?
      && i + SDLength(payload[i..]) <= |payload|
  {
    hide DescriptorAt, LastSize;
    ControlBits(payload[i + 2], payload[i + 3]);
  }

  lemma ControlBits(b0: int, b1: int)
    requires 0 <= b0 < 0x100 && 0 <= b1 < 0x100
    ensures HasFlag(b0 + 0x100 * b1, 0x0004) <==> b0 / 4 % 2 == 1
    ensures HasFlag(b0 + 0x100 * b1, 0x8000) <==> b1 >= 128
  {
    assert (b0 + 0x100 * b1) / 4 == b0 / 4 + 64 * b1;
  }

  /** The first accepted position from `from` on. */
  function FirstAccepted(payload: Bytes, from: nat): (r: Option<nat>)
    ensures r.Some? ==> from <= r.value && r.value + HEADER_SIZE < |payload| && Accepted(payload, r.value)
    ensures r.Some? ==> forall i | from <= i < r.value :: !Accepted(payload, i)
    ensures r.None? ==> forall i | from <= i && i + HEADER_SIZE < |payload| :: !Accepted(payload, i)
    decreases |payload| - from
  {
    if from + HEADER_SIZE >= |payload| then None
    else if Accepted(payload, from) then Some(from)
    else FirstAccepted(payload, from + 1)
  }

  /** A descriptor found at an offset of the payload. */
  datatype Found = Found(at: nat, length: nat)

  function Extracted(payload: Bytes): (r: Option<Found>)
    ensures r.Some? ==> r.value.length > 0 && r.value.at + r.value.length <= |payload|
  {
    match FirstAccepted(payload, 0)
    case None => None
    case Some(i) => Some(Found(i, SDLength(payload[i..])))
  }

  /** The bytes cut out of the payload; none when nothing is found. */
  function Slice(payload: Bytes): Bytes {
    match Extracted(payload)
    case None => []
    case Some(found) => payload[found.at..found.at + found.length]
  }

  /** mask & 0x8004 != 0 */
  predicate CommonFlags(control: uint16) {
    HasFlag(control, SE_DACL_PRESENT) || HasFlag(control, SE_SELF_RELATIVE)
  }

  /** Whatever the payload, the result is a contiguous part of it. */
  method ExtractSecurityDescriptor(payload: Bytes) returns (r: Result<Bytes>)
    ensures r == if Extracted(payload).None? then Err else Ok(Slice(payload))
  {
    hide SDLength, DescriptorAt, HasFlag, U16;
    var i := 0;
    while i + 20 < |payload|
      invariant FirstAccepted(payload, 0) == FirstAccepted(payload, i)
    {
      if payload[i] == 1 && payload[i + 1] == 0 {
        var control := U16(payload, i + 2);
        if CommonFlags(control) {
          var sd := ParseSecurityDescriptor(payload[i..]);
          if sd.Ok? && sd.value.dacl.Some? {
            var sdLen := CalculateSDLength(payload[i..]);
            if sdLen > 0 && i + sdLen <= |payload| {
              return Ok(payload[i..i + sdLen]);
            }
          }
        }
      }
      i := i + 1;
    }
    return Err;
  }

  // ----- how much of the response the descriptor is -----

  lemma {:induction false} ConcatSnoc(parts: seq<Bytes>)
    requires parts != []
    ensures |Concat(parts)| == |Concat(parts[..|parts| - 1])| + |parts[|parts| - 1]|
  {
    if |parts| > 1 {
      ConcatSnoc(parts[1..]);
      assert parts[1..][..|parts| - 2] == parts[..|parts| - 1][1..];
    }
  }

  lemma {:induction false} ConcatGrows(parts: seq<Bytes>, i: nat)
    requires i < |parts|
    ensures |Concat(parts[..i])| <= |Concat(parts[..|parts| - 1])|
    decreases |parts|
  {
    if i < |parts| - 1 {
      var init := parts[..|parts| - 1];
      assert init[..i] == parts[..i];
      ConcatSnoc(init);
      ConcatGrows(init, i);
    }
  }

  /** The component that comes last. */
  function LastPart(order: seq<Part>): (part: Part)
    requires order != []
    ensures part in order
  {
    order[|order| - 1]
  }

  lemma OffsetAt(sd: WireDescriptor, order: seq<Part>, i: nat)
    requires Encodable(sd, order) && i < |order|
    ensures OffsetField(sd, order, order[i]) == 20 + |Concat(Parts(sd, order)[..i])|
  {
    assert order[i] !in order[..i];
    FirstIndexUnique(order, order[i], i);
  }

  lemma AbsentPart(sd: WireDescriptor, order: seq<Part>, part: Part)
    requires Encodable(sd, order) && part !in order
    ensures OffsetField(sd, order, part) == 0
  {
  }

  lemma NoParts()
    ensures Concat([]) == []
  {
  }

  lemma LastOffset(sd: WireDescriptor, order: seq<Part>, part: Part)
    requires Encodable(sd, order) && order != []
    ensures OffsetField(sd, order, part) <= OffsetField(sd, order, LastPart(order))
    ensures OffsetField(sd, order, LastPart(order)) + |sd.PartBytes(LastPart(order))| == |EncodeDescriptor(sd, order)|
    ensures OffsetField(sd, order, LastPart(order)) >= 20
    ensures OffsetField(sd, order, LastPart(order)) > 20 <==> |order| > 1
  {
    hide OffsetField, Concat, Header, EncodeSid, EncodeAcl;
    var parts, last := Parts(sd, order), |order| - 1;
    OffsetAt(sd, order, last);
    ConcatSnoc(parts);
    if part in order {
      var i := FirstIndex(order, part);
      OffsetAt(sd, order, i);
      ConcatGrows(parts, i);
    } else {
      AbsentPart(sd, order, part);
    }
    if |order| > 1 {
      ConcatGrows(parts[..last], 0);
      ConcatSnoc(parts[..last]);
    } else {
      assert parts[..last] == [];
      NoParts();
    }
  }

  lemma MaxOffsetIs(sd: WireDescriptor, order: seq<Part>, rest: Bytes)
    requires Encodable(sd, order) && order != []
    ensures var data := EncodeDescriptor(sd, order) + rest;
      |data| >= 20 && MaxOffset(data) == OffsetField(sd, order, LastPart(order))
  {
    hide OffsetField, LE16, LE32, U32, Body;
    HeaderFields(sd.revision, sd.sbz1, sd.control,
      OffsetField(sd, order, OwnerPart), OffsetField(sd, order, GroupPart),
      OffsetField(sd, order, SaclPart), OffsetField(sd, order, DaclPart), Body(sd, order) + rest);
    assert EncodeDescriptor(sd, order) + rest == Header(sd, order) + (Body(sd, order) + rest);
    LastOffset(sd, order, OwnerPart);
    LastOffset(sd, order, GroupPart);
    LastOffset(sd, order, SaclPart);
    LastOffset(sd, order, DaclPart);
    OffsetAt(sd, order, |order| - 1);
  }

  /** The revisions sections 2.4.2.2 and 2.4.5 of MS-DTYP allow. */
  predicate StandardRevisions(sd: WireDescriptor) {
    && (sd.owner.Some? ==> sd.owner.value.revision == 1)
    && (sd.group.Some? ==> sd.group.value.revision == 1)
    && (sd.sacl.Some? ==> sd.sacl.value.revision == 2 || sd.sacl.value.revision == 4)
    && (sd.dacl.Some? ==> sd.dacl.value.revision == 2 || sd.dacl.value.revision == 4)
  }

  /** The last component is not the only one, and is a SID or an ACL of revision 2. */
  predicate Measured(sd: WireDescriptor, order: seq<Part>)
    requires sd.WellFormed() && (forall part :: part in order ==> sd.Has(part)) && order != []
  {
    assert sd.Has(LastPart(order));
    |order| > 1 && match LastPart(order)
                   case OwnerPart => true
                   case GroupPart => true
                   case SaclPart => sd.sacl.value.revision == 2
                   case DaclPart => sd.dacl.value.revision == 2
  }

  /** The size is judged by the first bytes of the component alone. */
  lemma LastSizeRead(data: Bytes, offset: nat, part: Bytes, after: Bytes)
    requires offset <= |data| && data[offset..] == part + after && |part| >= 8
    ensures LastSize(data, offset) ==
      if offset <= HEADER_SIZE then DEFAULT_ESTIMATE else
      var first: int, second: int := part[0], part[1];
      if first == 1 then 8 + 4 * second else if first == 2 then U16(part, 2) else DEFAULT_ESTIMATE
  {
    assert data[offset] == data[offset..][0] == part[0] && data[offset + 1] == data[offset..][1] == part[1];
    assert data[offset + 2] == data[offset..][2] == part[2] && data[offset + 3] == data[offset..][3] == part[3];
  }

  lemma AclHead(acl: WireAcl)
    requires acl.WellFormed()
    ensures var part := EncodeAcl(acl); part[0] == acl.revision && U16(part, 2) == acl.Size()
  {
    hide EncodeAces;
    var part := EncodeAcl(acl);
    assert part[2..4] == LE16(acl.Size());
    HoldsU16(part, 2, acl.Size());
  }

  lemma LastSizeIs(sd: WireDescriptor, order: seq<Part>, rest: Bytes)
    requires Encodable(sd, order) && order != [] && StandardRevisions(sd)
    ensures LastSize(EncodeDescriptor(sd, order) + rest, OffsetField(sd, order, LastPart(order))) ==
      if Measured(sd, order) then |sd.PartBytes(LastPart(order))| else DEFAULT_ESTIMATE
  {
    hide OffsetField, EncodeDescriptor, LastSize, U16, EncodeAcl, EncodeSubs;
    var last := LastPart(order);
    var offset: nat := OffsetField(sd, order, last);
    var after := PartInPlace(sd, order, rest, last);
    LastOffset(sd, order, last);
    LastSizeRead(EncodeDescriptor(sd, order) + rest, offset, sd.PartBytes(last), after);
    match last
    case OwnerPart =>
    case GroupPart =>
    case SaclPart => AclHead(sd.sacl.value);
    case DaclPart => AclHead(sd.dacl.value);
  }

  /**
   * The computed length is right exactly when the last component is measured, or happens to have the estimated size.
   */
  lemma LengthExact(sd: WireDescriptor, order: seq<Part>, rest: Bytes)
    requires Encodable(sd, order) && order != [] && StandardRevisions(sd)
    ensures SDLength(EncodeDescriptor(sd, order) + rest) == |EncodeDescriptor(sd, order)|
      <==> Measured(sd, order) || |sd.PartBytes(LastPart(order))| == 64
  {
    hide OffsetField, EncodeDescriptor, MaxOffset, LastSize, Measured;
    MaxOffsetIs(sd, order, rest);
    LastSizeIs(sd, order, rest);
    LastOffset(sd, order, OwnerPart);
  }

  /** A descriptor the scan looks for: revision 1, with a DACL. */
  predicate Sought(sd: WireDescriptor) {
    sd.revision == 1 && sd.sbz1 == 0 && sd.dacl.Some? && HasFlag(sd.control, SE_DACL_PRESENT)
  }

  /**
    * A descriptor that the response carries, with something behind it and nothing acceptable before it, is cut out
    * exactly as it was encoded if and only if its last component is measured or has the estimated size.
    */
  lemma RecoveredExactly(prefix: Bytes, sd: WireDescriptor, order: seq<Part>, suffix: Bytes)
    requires Encodable(sd, order) && StandardRevisions(sd) && Sought(sd) && suffix != []
    requires var payload := prefix + EncodeDescriptor(sd, order) + suffix;
      forall i | 0 <= i < |prefix| && i + HEADER_SIZE < |payload| :: !Accepted(payload, i)
    ensures order != []
    ensures Extracted(prefix + EncodeDescriptor(sd, order) + suffix) ==
      Some(Found(|prefix|, |EncodeDescriptor(sd, order)|))
      <==> Measured(sd, order) || |sd.PartBytes(LastPart(order))| == 64
  {
    hide OffsetField, EncodeDescriptor, SDLength, DescriptorAt, HasFlag, Measured, U16;
    var enc := EncodeDescriptor(sd, order);
    var payload, i := prefix + enc + suffix, |prefix|;
    assert DaclPart in order;
    assert payload[i..] == enc + suffix;
    DescriptorRoundTrip(sd, order, suffix);
    LengthExact(sd, order, suffix);
    LastOffset(sd, order, DaclPart);
    HeaderSeen(sd, order, prefix, suffix);
    FirstIs(payload, i);
  }

  lemma FirstIs(payload: Bytes, i: nat)
    requires forall k | 0 <= k < i && k + HEADER_SIZE < |payload| :: !Accepted(payload, k)
    requires i + HEADER_SIZE < |payload|
    ensures Accepted(payload, i) ==> FirstAccepted(payload, 0) == Some(i)
    ensures FirstAccepted(payload, 0) == Some(i) ==> Accepted(payload, i)
  {
    hide Accepted;
  }

  lemma HeaderSeen(sd: WireDescriptor, order: seq<Part>, prefix: Bytes, suffix: Bytes)
    requires Encodable(sd, order)
    ensures var payload, i := prefix + EncodeDescriptor(sd, order) + suffix, |prefix|;
      i + 20 <= |payload| && payload[i] == sd.revision && payload[i + 1] == sd.sbz1 && U16(payload, i + 2) == sd.control
  {
    hide OffsetField, Body;
    var enc := EncodeDescriptor(sd, order);
    var payload, i := prefix + enc + suffix, |prefix|;
    assert payload[i] == enc[0] && payload[i + 1] == enc[1];
    assert payload[i + 2..i + 4] == enc[2..4] == LE16(sd.control);
    HoldsU16(payload, i + 2, sd.control);
  }

  /** Cut out exactly, the descriptor parses to what was encoded. */
  lemma RecoveredParses(prefix: Bytes, sd: WireDescriptor, order: seq<Part>, suffix: Bytes)
    requires Encodable(sd, order) && StandardRevisions(sd) && Sought(sd) && suffix != [] && order != [] &&
      Measured(sd, order)
    requires var payload := prefix + EncodeDescriptor(sd, order) + suffix;
      forall i | 0 <= i < |prefix| && i + HEADER_SIZE < |payload| :: !Accepted(payload, i)
    ensures Slice(prefix + EncodeDescriptor(sd, order) + suffix) == EncodeDescriptor(sd, order)
    ensures DescriptorAt(Slice(prefix + EncodeDescriptor(sd, order) + suffix)) == Ok(sd.Seen())
  {
    hide EncodeDescriptor, DescriptorAt, Measured, Accepted, Extracted;
    RecoveredExactly(prefix, sd, order, suffix);
    DescriptorRoundTrip(sd, order, []);
    var enc := EncodeDescriptor(sd, order);
    assert enc + [] == enc;
    assert (prefix + enc + suffix)[|prefix|..|prefix| + |enc|] == enc;
  }
}
