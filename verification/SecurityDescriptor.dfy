/**
 * Security descriptors: the parser of the scanner, and the packet format of MS-DTYP that it reads
 * (ACE: sections 2.4.4.1 and 2.4.4.2, ACL: section 2.4.5, SECURITY_DESCRIPTOR: section 2.4.6).
 */
module SecurityDescriptors {
  import opened Common
  import opened ByteStrings
  import opened Sids
  import opened AccessMasks

  const SE_DACL_PRESENT := 0x0004
  const SE_SACL_PRESENT := 0x0010
  const SE_SELF_RELATIVE := 0x8000
  const ACCESS_ALLOWED_ACE_TYPE: byte := 0x00
  const SYSTEM_ALARM_ACE_TYPE: byte := 0x03

  datatype Ace = Ace(aceType: byte, flags: byte, size: uint16, mask: Mask, sid: Option<Sid>)
  {
    predicate IsAccessAllowed() {
      aceType == ACCESS_ALLOWED_ACE_TYPE
    }
  }

  datatype Acl = Acl(revision: byte, sbz1: byte, aclSize: uint16, aceCount: uint16, sbz2: uint16, aces: seq<Ace>)

  datatype Descriptor = Descriptor(
    revision: byte, sbz1: byte, control: uint16,
    owner: Option<Sid>, group: Option<Sid>, sacl: Option<Acl>, dacl: Option<Acl>)

  // ----- the parser -----

  /** Allowed, denied, audit and alarm entries are the ones whose mask and SID are read. */
  predicate Standard(aceType: byte) {
    aceType <= SYSTEM_ALARM_ACE_TYPE
  }

  function ParseACE(data: Bytes): (r: Result<Ace>)
    ensures r.Ok? ==> r.value.size <= |data| && (!Standard(r.value.aceType) ==> r.value.sid.None?)
  {
    if |data| < 4 then Err
    else
      var aceType, flags, size := data[0], data[1], U16(data, 2);
      if |data| < size then Err
      else if !Standard(aceType) then Ok(Ace(aceType, flags, size, 0, None))
      else if |data| < 8 then Err
      else
        var sid := if |data| > 8 then SidAt(data[8..]) else Err;
        Ok(Ace(aceType, flags, size, U32(data, 4), if sid.Ok? then Some(sid.value) else None))
  }

  /** At most `count` entries at the front of `data`, up to the first that does not parse. */
  function AcesIn(data: Bytes, count: nat): (aces: seq<Ace>)
    ensures |aces| <= count
    decreases count
  {
    if count == 0 || data == [] then []
    else
      match ParseACE(data)
      case Err => []
      case Ok(ace) => [ace] + AcesIn(data[ace.size..], count - 1)
  }

  function AclAt(data: Bytes): (r: Result<Acl>)
    ensures r.Ok? ==> |r.value.aces| <= r.value.aceCount
  {
    if |data| < 8 then Err
    else Ok(Acl(data[0], data[1], U16(data, 2), U16(data, 4), U16(data, 6), AcesIn(data[8..], U16(data, 4))))
  }

  method ParseACL(data: Bytes) returns (r: Result<Acl>)
    ensures r == AclAt(data)
  {
    hide ParseACE;
    if |data| < 8 {
      return Err;
    }
    var aceCount: int := U16(data, 4);
    var aces := [];
    var offset: nat, i: nat := 8, 0;
    while i < aceCount && offset < |data|
      invariant i <= aceCount && offset <= |data|
      invariant aces + AcesIn(data[offset..], aceCount - i) == AcesIn(data[8..], aceCount)
    {
      var ace := ParseACE(data[offset..]);
      if ace.Err? {
        break;
      }
      assert data[offset..][ace.value.size..] == data[offset + ace.value.size..];
      aces := aces + [ace.value];
      offset := offset + ace.value.size;
      i := i + 1;
    }
    assert AcesIn(data[offset..], aceCount - i) == [];
    assert aces + [] == aces;
    return Ok(Acl(data[0], data[1], U16(data, 2), aceCount, U16(data, 6), aces));
  }

  function SidField(data: Bytes, offset: uint32): Option<Sid> {
    if 0 < offset < |data| then
      var sid := SidAt(data[offset..]);
      if sid.Ok? then Some(sid.value) else None
    else None
  }

  function AclField(data: Bytes, offset: uint32, present: bool): Option<Acl> {
    if 0 < offset < |data| && present then
      var acl := AclAt(data[offset..]);
      if acl.Ok? then Some(acl.value) else None
    else None
  }

  /** What parsing `data` yields. */
  function DescriptorAt(data: Bytes): Result<Descriptor> {
    if |data| < 20 then Err
    else
      var control := U16(data, 2);
      Ok(Descriptor(
        data[0], data[1], control,
        SidField(data, U32(data, 4)),
        SidField(data, U32(data, 8)),
        AclField(data, U32(data, 12), HasFlag(control, SE_SACL_PRESENT)),
        AclField(data, U32(data, 16), HasFlag(control, SE_DACL_PRESENT))))
  }

  method ParseSecurityDescriptor(data: Bytes) returns (r: Result<Descriptor>)
    ensures r == DescriptorAt(data)
  {
    if |data| < 20 {
      return Err;
    }
    hide SidField, AclField, U16, U32, HasFlag;
    var control := U16(data, 2);
    var owner := ParseSidField(data, U32(data, 4));
    var group := ParseSidField(data, U32(data, 8));
    var sacl := ParseAclField(data, U32(data, 12), HasFlag(control, SE_SACL_PRESENT));
    var dacl := ParseAclField(data, U32(data, 16), HasFlag(control, SE_DACL_PRESENT));
    return Ok(Descriptor(data[0], data[1], control, owner, group, sacl, dacl));
  }

  method ParseSidField(data: Bytes, offset: uint32) returns (field: Option<Sid>)
    ensures field == SidField(data, offset)
  {
    if offset > 0 && offset < |data| {
      var sid := ParseSID(data[offset..]);
      if sid.Ok? {
        return Some(sid.value);
      }
    }
    field := None;
  }

  method ParseAclField(data: Bytes, offset: uint32, present: bool) returns (field: Option<Acl>)
    ensures field == AclField(data, offset, present)
  {
    hide AclAt;
    if offset > 0 && present && offset < |data| {
      var acl := ParseACL(data[offset..]);
      if acl.Ok? {
        return Some(acl.value);
      }
    }
    field := None;
  }

  // ----- the format -----

  /** An entry as it goes over the wire; `extra` is application data behind the SID. */
  datatype WireAce =
    | PlainAce(aceType: byte, flags: byte, mask: Mask, sid: Sid, extra: Bytes)
    | OtherAce(aceType: byte, flags: byte, body: Bytes)
  {
    function Size(): nat {
      if PlainAce? then 8 + sid.Size() + |extra| else 4 + |body|
    }

    predicate WellFormed() {
      && Size() < 0x1_0000
      && (PlainAce? <==> Standard(aceType))
      && (PlainAce? ==> sid.WellFormed())
    }

    /** The entry the scanner is to see. */
    function Seen(): Ace
      requires WellFormed()
    {
      if PlainAce? then Ace(aceType, flags, Size(), mask, Some(sid)) else Ace(aceType, flags, Size(), 0, None)
    }
  }

  function EncodeAce(ace: WireAce): (data: Bytes)
    requires ace.WellFormed()
    ensures |data| == ace.Size()
  {
    [ace.aceType, ace.flags] + LE16(ace.Size()) +
    if ace.PlainAce? then LE32(ace.mask) + EncodeSid(ace.sid) + ace.extra else ace.body
  }

  function EncodeAces(aces: seq<WireAce>): Bytes
    requires forall ace :: ace in aces ==> ace.WellFormed()
  {
    if aces == [] then [] else EncodeAce(aces[0]) + EncodeAces(aces[1..])
  }

  function SeenAces(aces: seq<WireAce>): (seen: seq<Ace>)
    requires forall ace :: ace in aces ==> ace.WellFormed()
    ensures |seen| == |aces|
  {
    if aces == [] then [] else [aces[0].Seen()] + SeenAces(aces[1..])
  }

  datatype WireAcl = WireAcl(revision: byte, sbz1: byte, sbz2: uint16, aces: seq<WireAce>, slack: Bytes)
  {
    predicate WellFormed() {
      && |aces| < 0x1_0000
      && (forall ace :: ace in aces ==> ace.WellFormed())
      && 8 + |EncodeAces(aces)| + |slack| < 0x1_0000
    }

    function Size(): nat
      requires WellFormed()
    {
      8 + |EncodeAces(aces)| + |slack|
    }

    function Seen(): Acl
      requires WellFormed()
    {
      Acl(revision, sbz1, Size(), |aces|, sbz2, SeenAces(aces))
    }
  }

  function EncodeAcl(acl: WireAcl): (data: Bytes)
    requires acl.WellFormed()
    ensures |data| == acl.Size()
  {
    [acl.revision, acl.sbz1] + LE16(acl.Size()) + LE16(|acl.aces|) + LE16(acl.sbz2) + EncodeAces(acl.aces) + acl.slack
  }

  /** The components behind the header of a self-relative descriptor. */
  datatype Part = OwnerPart | GroupPart | SaclPart | DaclPart

  datatype WireDescriptor = WireDescriptor(
    revision: byte, sbz1: byte, control: uint16,
    owner: Option<Sid>, group: Option<Sid>, sacl: Option<WireAcl>, dacl: Option<WireAcl>)
  {
    predicate Has(part: Part) {
      match part
      case OwnerPart => owner.Some?
      case GroupPart => group.Some?
      case SaclPart => sacl.Some?
      case DaclPart => dacl.Some?
    }

    predicate WellFormed() {
      && (owner.Some? ==> owner.value.WellFormed())
      && (group.Some? ==> group.value.WellFormed())
      && (sacl.Some? ==> sacl.value.WellFormed())
      && (dacl.Some? ==> dacl.value.WellFormed())
    }

    function PartBytes(part: Part): (data: Bytes)
      requires WellFormed() && Has(part)
      ensures |data| >= 8
    {
      match part
      case OwnerPart => EncodeSid(owner.value)
      case GroupPart => EncodeSid(group.value)
      case SaclPart => EncodeAcl(sacl.value)
      case DaclPart => EncodeAcl(dacl.value)
    }

    /** The descriptor the scanner is to see: an ACL counts only when its control flag is set. */
    function Seen(): Descriptor
      requires WellFormed()
    {
      Descriptor(revision, sbz1, control, owner, group,
        if sacl.Some? && HasFlag(control, SE_SACL_PRESENT) then Some(sacl.value.Seen()) else None,
        if dacl.Some? && HasFlag(control, SE_DACL_PRESENT) then Some(dacl.value.Seen()) else None)
    }

    /** An order in which every component appears once. */
    predicate Orders(order: seq<Part>) {
      Distinct(order) && forall part :: part in order <==> Has(part)
    }
  }

  function Parts(sd: WireDescriptor, order: seq<Part>): (parts: seq<Bytes>)
    requires sd.WellFormed() && forall part :: part in order ==> sd.Has(part)
    ensures |parts| == |order|
  {
    seq(|order|, i requires 0 <= i < |order| => sd.PartBytes(order[i]))
  }

  function Body(sd: WireDescriptor, order: seq<Part>): Bytes
    requires sd.WellFormed() && forall part :: part in order ==> sd.Has(part)
  {
    Concat(Parts(sd, order))
  }

  /** Offset of a component in the body. */
  function PartOffset(sd: WireDescriptor, order: seq<Part>, part: Part): nat
    requires sd.WellFormed() && (forall p :: p in order ==> sd.Has(p)) && part in order
  {
    |Concat(Parts(sd, order)[..FirstIndex(order, part)])|
  }

  predicate Encodable(sd: WireDescriptor, order: seq<Part>) {
    sd.WellFormed() && sd.Orders(order) && 20 + |Body(sd, order)| < 0x1_0000_0000
  }

  /** An absent component has offset zero. */
  function OffsetField(sd: WireDescriptor, order: seq<Part>, part: Part): (offset: uint32)
    requires Encodable(sd, order)
  {
    if part in order then
      PartInBody(sd, order, part);
      20 + PartOffset(sd, order, part)
    else 0
  }

  function Header(sd: WireDescriptor, order: seq<Part>): (data: Bytes)
    requires Encodable(sd, order)
    ensures |data| == 20
  {
    [sd.revision, sd.sbz1] + LE16(sd.control) +
    LE32(OffsetField(sd, order, OwnerPart)) + LE32(OffsetField(sd, order, GroupPart)) +
    LE32(OffsetField(sd, order, SaclPart)) + LE32(OffsetField(sd, order, DaclPart))
  }

  function EncodeDescriptor(sd: WireDescriptor, order: seq<Part>): (data: Bytes)
    requires Encodable(sd, order)
  {
    Header(sd, order) + Body(sd, order)
  }

  // ----- parsing inverts the format -----

  lemma AceRoundTrip(ace: WireAce, rest: Bytes)
    requires ace.WellFormed()
    ensures ParseACE(EncodeAce(ace) + rest) == Ok(ace.Seen())
  {
    var data := EncodeAce(ace) + rest;
    assert data[2..4] == LE16(ace.Size());
    HoldsU16(data, 2, ace.Size());
    if ace.PlainAce? {
      assert data[4..8] == LE32(ace.mask);
      HoldsU32(data, 4, ace.mask);
      assert data[8..] == EncodeSid(ace.sid) + (ace.extra + rest);
      SidRoundTrip(ace.sid, ace.extra + rest);
    }
  }

  /** Entries are found one behind the other, non-standard ones are stepped over by their size. */
  lemma {:induction false} AcesRoundTrip(aces: seq<WireAce>, rest: Bytes)
    requires forall ace :: ace in aces ==> ace.WellFormed()
    ensures AcesIn(EncodeAces(aces) + rest, |aces|) == SeenAces(aces)
  {
    hide ParseACE, EncodeAce;
    if aces != [] {
      var first, behind := EncodeAce(aces[0]), EncodeAces(aces[1..]) + rest;
      var data := EncodeAces(aces) + rest;
      assert data == first + behind;
      AceRoundTrip(aces[0], behind);
      assert data[|first|..] == behind;
      AcesRoundTrip(aces[1..], rest);
    }
  }

  lemma AclRoundTrip(acl: WireAcl, rest: Bytes)
    requires acl.WellFormed()
    ensures AclAt(EncodeAcl(acl) + rest) == Ok(acl.Seen())
  {
    hide ParseACE, EncodeAce;
    var data := EncodeAcl(acl) + rest;
    assert data[2..4] == LE16(acl.Size());
    HoldsU16(data, 2, acl.Size());
    assert data[4..6] == LE16(|acl.aces|);
    HoldsU16(data, 4, |acl.aces|);
    assert data[6..8] == LE16(acl.sbz2);
    HoldsU16(data, 6, acl.sbz2);
    assert data[8..] == EncodeAces(acl.aces) + (acl.slack + rest);
    AcesRoundTrip(acl.aces, acl.slack + rest);
  }

  lemma PartInBody(sd: WireDescriptor, order: seq<Part>, part: Part)
    requires sd.WellFormed() && (forall p :: p in order ==> sd.Has(p)) && part in order
    ensures Holds(Body(sd, order), PartOffset(sd, order, part), sd.PartBytes(part))
  {
    hide Concat, Holds, EncodeSid, EncodeAcl;
    ConcatHolds(Parts(sd, order), FirstIndex(order, part));
  }

  /** A component of the encoded descriptor is read from the offset its header field gives. */
  lemma PartInPlace(sd: WireDescriptor, order: seq<Part>, rest: Bytes, part: Part) returns (after: Bytes)
    requires Encodable(sd, order) && part in order
    ensures var data := EncodeDescriptor(sd, order) + rest; var offset := OffsetField(sd, order, part);
      0 < offset < |data| && data[offset..] == sd.PartBytes(part) + after
  {
    PartInBody(sd, order, part);
    var body, bytes, at := Body(sd, order), sd.PartBytes(part), PartOffset(sd, order, part);
    after := body[at + |bytes|..] + rest;
    ReadPart(Header(sd, order), body, rest, at, bytes);
  }

  lemma HeaderFields(revision: byte, sbz1: byte, control: uint16,
                     owner: uint32, group: uint32, sacl: uint32, dacl: uint32, rest: Bytes)
    ensures var data := [revision, sbz1] + LE16(control) + LE32(owner) + LE32(group) + LE32(sacl) + LE32(dacl) + rest;
      && |data| >= 20 && data[0] == revision && data[1] == sbz1 && U16(data, 2) == control
      && U32(data, 4) == owner && U32(data, 8) == group && U32(data, 12) == sacl && U32(data, 16) == dacl
  {
    var data := [revision, sbz1] + LE16(control) + LE32(owner) + LE32(group) + LE32(sacl) + LE32(dacl) + rest;
    assert data[2..4] == LE16(control);
    HoldsU16(data, 2, control);
    assert data[4..8] == LE32(owner);
    HoldsU32(data, 4, owner);
    assert data[8..12] == LE32(group);
    HoldsU32(data, 8, group);
    assert data[12..16] == LE32(sacl);
    HoldsU32(data, 12, sacl);
    assert data[16..20] == LE32(dacl);
    HoldsU32(data, 16, dacl);
  }

  lemma SidFieldRoundTrip(sd: WireDescriptor, order: seq<Part>, rest: Bytes, part: Part)
    requires Encodable(sd, order) && (part.OwnerPart? || part.GroupPart?)
    ensures SidField(EncodeDescriptor(sd, order) + rest, OffsetField(sd, order, part)) ==
      if part.OwnerPart? then sd.owner else sd.group
  {
    if part in order {
      var after := PartInPlace(sd, order, rest, part);
      SidRoundTrip(if part.OwnerPart? then sd.owner.value else sd.group.value, after);
    } else {
      assert !sd.Has(part);
    }
  }

  lemma AclFieldRoundTrip(sd: WireDescriptor, order: seq<Part>, rest: Bytes, part: Part, present: bool)
    requires Encodable(sd, order) && (part.SaclPart? || part.DaclPart?)
    ensures AclField(EncodeDescriptor(sd, order) + rest, OffsetField(sd, order, part), present) ==
      var acl := if part.SaclPart? then sd.sacl else sd.dacl;
      if acl.Some? && present then Some(acl.value.Seen()) else None
  {
    if part in order {
      var after := PartInPlace(sd, order, rest, part);
      AclRoundTrip(if part.SaclPart? then sd.sacl.value else sd.dacl.value, after);
    } else {
      assert !sd.Has(part);
    }
  }

  /** Whatever the order of the components and whatever bytes follow, the parser gives the descriptor back. */
  lemma DescriptorRoundTrip(sd: WireDescriptor, order: seq<Part>, rest: Bytes)
    requires Encodable(sd, order)
    ensures DescriptorAt(EncodeDescriptor(sd, order) + rest) == Ok(sd.Seen())
  {
    HeaderFields(sd.revision, sd.sbz1, sd.control,
      OffsetField(sd, order, OwnerPart), OffsetField(sd, order, GroupPart),
      OffsetField(sd, order, SaclPart), OffsetField(sd, order, DaclPart), Body(sd, order) + rest);
    assert EncodeDescriptor(sd, order) + rest == Header(sd, order) + (Body(sd, order) + rest);
    SidFieldRoundTrip(sd, order, rest, OwnerPart);
    SidFieldRoundTrip(sd, order, rest, GroupPart);
    AclFieldRoundTrip(sd, order, rest, SaclPart, HasFlag(sd.control, SE_SACL_PRESENT));
    AclFieldRoundTrip(sd, order, rest, DaclPart, HasFlag(sd.control, SE_DACL_PRESENT));
  }
}
