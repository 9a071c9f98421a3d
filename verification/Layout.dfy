/** Where everything stands in the bytes: the formats read byte by byte. */
module Layouts {
  import opened Common
  import opened ByteStrings
  import opened Sids
  import Decimals
  import opened SecurityDescriptors

  /** Two bytes, the lower one first. */
  function Two(data: Bytes, at: nat): (n: nat)
    requires at + 2 <= |data|
  {
    var b0: int, b1: int := data[at], data[at + 1];
    b0 + 0x100 * b1
  }

  /** Four bytes, the lowest one first. */
  function Four(data: Bytes, at: nat): (n: nat)
    requires at + 4 <= |data|
  {
    var b0: int, b1: int, b2: int, b3: int := data[at], data[at + 1], data[at + 2], data[at + 3];
    b0 + 0x100 * b1 + 0x1_0000 * b2 + 0x100_0000 * b3
  }

  lemma LittleEndian(data: Bytes, at: nat)
    ensures at + 2 <= |data| ==> U16(data, at) == Two(data, at)
    ensures at + 4 <= |data| ==> U32(data, at) == Four(data, at)
  {
  }

  /**
   * A SID: revision, number of sub-authorities, authority, sub-authorities of four bytes each (section 2.4.2.2 of
   * MS-DTYP).
   */
  lemma SidBytes(data: Bytes)
    ensures SidAt(data).Ok? <==> |data| >= 8 && |data| >= 8 + 4 * (data[1] as int)
    ensures SidAt(data).Ok? ==>
      var sid := SidAt(data).value;
      && sid.revision == data[0] && |sid.subAuthorities| == data[1] && |sid.authority| == 6
      && (forall i :: 0 <= i < 6 ==> sid.authority[i] == data[2 + i])
      && forall i :: 0 <= i < |sid.subAuthorities| ==> sid.subAuthorities[i] == Four(data, 8 + 4 * i)
  {
    hide Four, U32;
    forall at: nat | at + 4 <= |data| ensures U32(data, at) == Four(data, at) { LittleEndian(data, at); }
  }

  /** An entry: type, flags, size, mask and SID (sections 2.4.4.1 and 2.4.4.2 of MS-DTYP). */
  lemma AceBytes(data: Bytes)
    ensures ParseACE(data).Ok? <==> |data| >= 4 && Two(data, 2) <= |data| && (data[0] <= 3 ==> |data| >= 8)
    ensures ParseACE(data).Ok? ==>
      var ace := ParseACE(data).value;
      && ace.aceType == data[0] && ace.flags == data[1] && ace.size == Two(data, 2)
      && (data[0] <= 3 ==> ace.mask == Four(data, 4))
      && (data[0] <= 3 ==> ace.sid == if |data| > 8 && SidAt(data[8..]).Ok? then Some(SidAt(data[8..]).value) else None)
      && (data[0] > 3 ==> ace.mask == 0 && ace.sid == None)
      && (ace.IsAccessAllowed() <==> data[0] == 0)
  {
    hide SidAt, Two, Four, U16, U32;
    LittleEndian(data, 2);
    LittleEndian(data, 4);
  }

  /** An ACL: revision, a zero, size, number of entries, two zeros, then the entries (section 2.4.5 of MS-DTYP). */
  lemma AclBytes(data: Bytes)
    ensures AclAt(data).Ok? <==> |data| >= 8
    ensures AclAt(data).Ok? ==>
      var acl := AclAt(data).value;
      && acl.revision == data[0] && acl.sbz1 == data[1] && acl.aclSize == Two(data, 2) && acl.aceCount == Two(data, 4)
      && acl.sbz2 == Two(data, 6)
      && (acl.aces != [] ==> ParseACE(data[8..]) == Ok(acl.aces[0]))
      && (acl.aces == [] <==> acl.aceCount == 0 || |data| == 8 || ParseACE(data[8..]).Err?)
  {
    hide ParseACE, Two, U16;
    LittleEndian(data, 2);
    LittleEndian(data, 4);
    LittleEndian(data, 6);
    if |data| >= 8 && Two(data, 4) > 0 {
      FirstAce(data[8..], Two(data, 4));
    }
  }

  lemma FirstAce(data: Bytes, count: nat)
    requires count > 0
    ensures var aces := AcesIn(data, count);
      && (aces == [] <==> data == [] || ParseACE(data).Err?)
      && (aces != [] ==> ParseACE(data) == Ok(aces[0]) && aces[1..] == AcesIn(data[aces[0].size..], count - 1))
  {
    hide ParseACE;
  }

  /** Bit 2 of the control word says that there is a DACL, bit 4 that there is a SACL. */
  lemma DescriptorBytes(data: Bytes)
    ensures DescriptorAt(data).Ok? <==> |data| >= 20
    ensures DescriptorAt(data).Ok? ==>
      var sd := DescriptorAt(data).value;
      && sd.revision == data[0] && sd.sbz1 == data[1] && sd.control == Two(data, 2)
      && sd.owner == SidField(data, Four(data, 4)) && sd.group == SidField(data, Four(data, 8))
      && sd.sacl == AclField(data, Four(data, 12), sd.control / 16 % 2 == 1)
      && sd.dacl == AclField(data, Four(data, 16), sd.control / 4 % 2 == 1)
  {
    hide SidField, AclField, Two, Four, U16, U32;
    LittleEndian(data, 2);
    LittleEndian(data, 4);
    LittleEndian(data, 8);
    LittleEndian(data, 12);
    LittleEndian(data, 16);
  }

  /** A component is read from its offset on; offset zero, or one beyond the end, means that there is none. */
  lemma ComponentBytes(data: Bytes, offset: uint32, present: bool)
    ensures SidField(data, offset).Some? <==> 0 < offset < |data| && SidAt(data[offset..]).Ok?
    ensures SidField(data, offset).Some? ==> SidAt(data[offset..]) == Ok(SidField(data, offset).value)
    ensures AclField(data, offset, present).Some? <==> 0 < offset < |data| && present && AclAt(data[offset..]).Ok?
    ensures AclField(data, offset, present).Some? ==> AclAt(data[offset..]) == Ok(AclField(data, offset, present).value)
  {
    hide SidAt, AclAt;
  }

  /** The SID of the local system, byte by byte, and its text. */
  lemma LocalSystem(rest: Bytes)
    ensures SidAt([1, 1, 0, 0, 0, 0, 0, 5, 18, 0, 0, 0] + rest) == Ok(Sid(1, [0, 0, 0, 0, 0, 5], [18]))
    ensures Text(Sid(1, [0, 0, 0, 0, 0, 5], [18])) == "S-1-5-18"
  {
    var data := [1, 1, 0, 0, 0, 0, 0, 5, 18, 0, 0, 0] + rest;
    SidBytes(data);
    var sid := SidAt(data).value;
    assert sid.subAuthorities == [18] && sid.authority == [0, 0, 0, 0, 0, 5];
    SmallDecs();
    Eighteen();
  }

  lemma Eighteen()
    ensures SubText([18]) == "-18"
  {
    assert Decimals.Dec(1) == "1" && Decimals.Dec(18) == "18";
    assert [18 as uint32][1..] == [];
  }
}
