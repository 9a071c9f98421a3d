/** Access masks, the two mapping tables and the share/NTFS intersection. */
module AccessMasks {
  import opened Common
  import opened Kinds

  const TWO_TO_THE_32 := 0x1_0000_0000

  type Mask = m: int | 0 <= m < TWO_TO_THE_32

  /** mask & flag != 0, for a flag of a single bit. */
  predicate HasFlag(mask: int, flag: int)
    requires flag > 0
  {
    (mask / flag) % 2 == 1
  }

  function ShareFlag(right: ShareRight): (flag: Mask)
    ensures flag > 0
  {
    match right
    case CanDsCreateChild => 0x0000_0001
    case CanDsDeleteChild => 0x0000_0002
    case CanDsListContents => 0x0000_0004
    case CanDsWriteExtendedProperties => 0x0000_0008
    case CanDsReadProperty => 0x0000_0010
    case CanDsWriteProperty => 0x0000_0020
    case CanDsDeleteTree => 0x0000_0040
    case CanDsListObject => 0x0000_0080
    case CanDsControlAccess => 0x0000_0100
    case CanDelete => 0x0001_0000
    case CanReadControl => 0x0002_0000
    case CanWriteDacl => 0x0004_0000
    case CanWriteOwner => 0x0008_0000
    case CanGenericAll => 0x1000_0000
    case CanGenericExecute => 0x2000_0000
    case CanGenericWrite => 0x4000_0000
    case CanGenericRead => 0x8000_0000
    case CanShareRead => 0x0000_0001
    case CanShareWrite => 0x0000_0002
    case CanShareExecute => 0x0000_0020
  }

  function NtfsFlag(right: NtfsRight): (flag: Mask)
    ensures flag > 0
  {
    match right
    case CanNTFSGenericRead => 0x8000_0000
    case CanNTFSGenericWrite => 0x4000_0000
    case CanNTFSGenericExecute => 0x2000_0000
    case CanNTFSGenericAll => 0x1000_0000
    case CanNTFSAccessSystemSecurity => 0x0100_0000
    case CanNTFSSynchronize => 0x0010_0000
    case CanNTFSWriteOwner => 0x0008_0000
    case CanNTFSWriteDacl => 0x0004_0000
    case CanNTFSReadControl => 0x0002_0000
    case CanNTFSDelete => 0x0001_0000
    case CanNTFSReadData => 0x0000_0001
    case CanNTFSWriteData => 0x0000_0002
    case CanNTFSAppendData => 0x0000_0004
    case CanNTFSReadEA => 0x0000_0008
    case CanNTFSWriteEA => 0x0000_0010
    case CanNTFSExecute => 0x0000_0020
    case CanNTFSDeleteChild => 0x0000_0040
    case CanNTFSReadAttributes => 0x0000_0080
    case CanNTFSWriteAttributes => 0x0000_0100
  }

  /** The DACL a mask was read from decides which table interprets it. */
  datatype Layer = ShareLayer | NtfsLayer

  /** The edge kinds a mask stands for. */
  function KindsFor(layer: Layer, mask: Mask): set<EdgeKind> {
    match layer
    case ShareLayer => set right: ShareRight | HasFlag(mask, ShareFlag(right)) :: OnShare(right)
    case NtfsLayer => set right: NtfsRight | HasFlag(mask, NtfsFlag(right)) :: OnNtfs(right)
  }

  /** The table is a map, so the right kinds come out in any order. */
  method GetShareRightsForMask(mask: Mask) returns (rights: seq<EdgeKind>)
    ensures forall kind :: kind in rights <==> kind in KindsFor(ShareLayer, mask)
    ensures forall i, j :: 0 <= i < j < |rights| ==> rights[i] != rights[j]
  {
    rights := [];
    var keys := set right: ShareRight | ShareFlag(right) != 0; // the keys of the table
    while keys != {}
      invariant forall right: ShareRight ::
        OnShare(right) in rights <==> HasFlag(mask, ShareFlag(right)) && right !in keys
      invariant forall kind :: kind in rights ==> kind.OnShare?
      invariant forall i, j :: 0 <= i < j < |rights| ==> rights[i] != rights[j]
    {
      var right :| right in keys;
      if HasFlag(mask, ShareFlag(right)) {
        rights := rights + [OnShare(right)];
      }
      keys := keys - {right};
    }
  }

  method GetNTFSRightsForMask(mask: Mask) returns (rights: seq<EdgeKind>)
    ensures forall kind :: kind in rights <==> kind in KindsFor(NtfsLayer, mask)
    ensures forall i, j :: 0 <= i < j < |rights| ==> rights[i] != rights[j]
  {
    rights := [];
    var keys := set right: NtfsRight | NtfsFlag(right) != 0; // the keys of the table
    while keys != {}
      invariant forall right: NtfsRight ::
        OnNtfs(right) in rights <==> HasFlag(mask, NtfsFlag(right)) && right !in keys
      invariant forall kind :: kind in rights ==> kind.OnNtfs?
      invariant forall i, j :: 0 <= i < j < |rights| ==> rights[i] != rights[j]
    {
      var right :| right in keys;
      if HasFlag(mask, NtfsFlag(right)) {
        rights := rights + [OnNtfs(right)];
      }
      keys := keys - {right};
    }
  }

  predicate HasAny(edgeKinds: seq<EdgeKind>, targets: set<EdgeKind>) {
    exists kind | kind in edgeKinds :: kind in targets
  }

  /** The kinds that open an access at one layer. */
  function Opening(layer: Layer, access: Access): set<EdgeKind> {
    match (layer, access)
    case (ShareLayer, Read) => {OnShare(CanGenericRead), OnShare(CanGenericAll), OnShare(CanShareRead)}
    case (ShareLayer, Write) => {OnShare(CanGenericWrite), OnShare(CanGenericAll), OnShare(CanShareWrite)}
    case (ShareLayer, Execute) => {OnShare(CanGenericExecute), OnShare(CanGenericAll), OnShare(CanShareExecute)}
    case (NtfsLayer, Read) => {OnNtfs(CanNTFSGenericRead), OnNtfs(CanNTFSGenericAll), OnNtfs(CanNTFSReadData)}
    case (NtfsLayer, Write) => {OnNtfs(CanNTFSGenericWrite), OnNtfs(CanNTFSGenericAll), OnNtfs(CanNTFSWriteData)}
    case (NtfsLayer, Execute) => {OnNtfs(CanNTFSGenericExecute), OnNtfs(CanNTFSGenericAll), OnNtfs(CanNTFSExecute)}
  }

  predicate BothLayers(shareKinds: seq<EdgeKind>, ntfsKinds: seq<EdgeKind>, access: Access) {
    HasAny(shareKinds, Opening(ShareLayer, access)) && HasAny(ntfsKinds, Opening(NtfsLayer, access))
  }

  function ComputeEffectiveRights(shareKinds: seq<EdgeKind>, ntfsKinds: seq<EdgeKind>): (effective: seq<EdgeKind>)
    ensures forall access :: CanEffective(access) in effective <==> BothLayers(shareKinds, ntfsKinds, access)
    ensures forall kind :: kind in effective ==> kind.CanEffective?
  {
    (if BothLayers(shareKinds, ntfsKinds, Read) then [CanEffective(Read)] else []) +
    (if BothLayers(shareKinds, ntfsKinds, Write) then [CanEffective(Write)] else []) +
    (if BothLayers(shareKinds, ntfsKinds, Execute) then [CanEffective(Execute)] else [])
  }

  /** The generic and the file-specific bit of an access in an access mask, the same at both layers. */
  function SpecificBit(access: Access): (flag: Mask)
    ensures flag > 0
  {
    match access case Read => 0x1 case Write => 0x2 case Execute => 0x20
  }

  function GenericBit(access: Access): (flag: Mask)
    ensures flag > 0
  {
    match access case Read => 0x8000_0000 case Write => 0x4000_0000 case Execute => 0x2000_0000
  }

  predicate Opens(mask: Mask, access: Access) {
    HasFlag(mask, SpecificBit(access)) || HasFlag(mask, GenericBit(access)) || HasFlag(mask, 0x1000_0000)
  }

  /** At both layers a mask opens an access by the same three bits. */
  lemma OpeningBits(layer: Layer, mask: Mask, access: Access)
    ensures (exists kind :: kind in KindsFor(layer, mask) && kind in Opening(layer, access)) <==> Opens(mask, access)
  {
    var generic, specific, all := GenericBit(access), SpecificBit(access), 0x1000_0000;
    var kinds := KindsFor(layer, mask);
    var openers: seq<EdgeKind> :=
      match (layer, access)
      case (ShareLayer, Read) => [OnShare(CanGenericRead), OnShare(CanShareRead), OnShare(CanGenericAll)]
      case (ShareLayer, Write) => [OnShare(CanGenericWrite), OnShare(CanShareWrite), OnShare(CanGenericAll)]
      case (ShareLayer, Execute) => [OnShare(CanGenericExecute), OnShare(CanShareExecute), OnShare(CanGenericAll)]
      case (NtfsLayer, Read) => [OnNtfs(CanNTFSGenericRead), OnNtfs(CanNTFSReadData), OnNtfs(CanNTFSGenericAll)]
      case (NtfsLayer, Write) => [OnNtfs(CanNTFSGenericWrite), OnNtfs(CanNTFSWriteData), OnNtfs(CanNTFSGenericAll)]
      case (NtfsLayer, Execute) => [OnNtfs(CanNTFSGenericExecute), OnNtfs(CanNTFSExecute), OnNtfs(CanNTFSGenericAll)];
    assert Opening(layer, access) == {openers[0], openers[1], openers[2]};
    assert openers[0] in kinds <==> HasFlag(mask, generic);
    assert openers[1] in kinds <==> HasFlag(mask, specific);
    assert openers[2] in kinds <==> HasFlag(mask, all);
  }

  // ----- the bits of the tables -----

  function Bit(n: nat): (flag: nat)
    ensures flag > 0
  {
    if n == 0 then 1 else 2 * Bit(n - 1)
  }

  lemma Bits()
    ensures Bit(0) == 0x1 && Bit(1) == 0x2 && Bit(2) == 0x4 && Bit(3) == 0x8
    ensures Bit(4) == 0x10 && Bit(5) == 0x20 && Bit(6) == 0x40 && Bit(7) == 0x80 && Bit(8) == 0x100
    ensures Bit(16) == 0x1_0000 && Bit(17) == 0x2_0000 && Bit(18) == 0x4_0000 && Bit(19) == 0x8_0000
    ensures Bit(20) == 0x10_0000 && Bit(24) == 0x100_0000
    ensures Bit(28) == 0x1000_0000 && Bit(29) == 0x2000_0000 && Bit(30) == 0x4000_0000 && Bit(31) == 0x8000_0000
  {
    assert Bit(10) == 0x400;
    assert Bit(12) == 0x1000;
    assert Bit(14) == 0x4000;
    assert Bit(16) == 0x1_0000;
    assert Bit(18) == 0x4_0000;
    assert Bit(20) == 0x10_0000;
    assert Bit(22) == 0x40_0000;
    assert Bit(24) == 0x100_0000;
    assert Bit(26) == 0x400_0000;
    assert Bit(28) == 0x1000_0000;
  }

  /** The rights on files and directories from bit 0 on, as section 2.2.13.1 of MS-SMB2 lists them. */
  const FILE_RIGHTS := [CanNTFSReadData, CanNTFSWriteData, CanNTFSAppendData, CanNTFSReadEA, CanNTFSWriteEA,
    CanNTFSExecute,
                        CanNTFSDeleteChild, CanNTFSReadAttributes, CanNTFSWriteAttributes]

  /** The rights on directory objects from bit 0 on, as section 5.1.3.2 of MS-ADTS lists them. */
  const DIRECTORY_SERVICE_RIGHTS :=
    [CanDsCreateChild, CanDsDeleteChild, CanDsListContents, CanDsWriteExtendedProperties,
                                     CanDsReadProperty, CanDsWriteProperty, CanDsDeleteTree, CanDsListObject,
                                     CanDsControlAccess]

  /**
   * The standard rights from bit 16 on and the generic rights from bit 28 on, as section 2.4.3 of MS-DTYP lists them.
   */
  const STANDARD_RIGHTS := [(CanNTFSDelete, CanDelete), (CanNTFSReadControl, CanReadControl),
                            (CanNTFSWriteDacl, CanWriteDacl), (CanNTFSWriteOwner, CanWriteOwner)]
  const GENERIC_RIGHTS := [(CanNTFSGenericAll, CanGenericAll), (CanNTFSGenericExecute, CanGenericExecute),
                           (CanNTFSGenericWrite, CanGenericWrite), (CanNTFSGenericRead, CanGenericRead)]

  /** Every kind of both tables stands for the bit the standards give it. */
  lemma TableBits()
    ensures forall i :: 0 <= i < |FILE_RIGHTS| ==> NtfsFlag(FILE_RIGHTS[i]) == Bit(i)
    ensures forall i :: 0 <= i < |DIRECTORY_SERVICE_RIGHTS| ==> ShareFlag(DIRECTORY_SERVICE_RIGHTS[i]) == Bit(i)
    ensures forall i :: 0 <= i < |STANDARD_RIGHTS| ==>
      NtfsFlag(STANDARD_RIGHTS[i].0) == ShareFlag(STANDARD_RIGHTS[i].1) == Bit(16 + i)
    ensures forall i :: 0 <= i < |GENERIC_RIGHTS| ==>
      NtfsFlag(GENERIC_RIGHTS[i].0) == ShareFlag(GENERIC_RIGHTS[i].1) == Bit(28 + i)
    ensures NtfsFlag(CanNTFSSynchronize) == Bit(20) && NtfsFlag(CanNTFSAccessSystemSecurity) == Bit(24)
    ensures ShareFlag(CanShareRead) == NtfsFlag(CanNTFSReadData) &&
      ShareFlag(CanShareWrite) == NtfsFlag(CanNTFSWriteData)
    ensures ShareFlag(CanShareExecute) == NtfsFlag(CanNTFSExecute)
  {
    hide Bit;
    Bits();
    forall i | 0 <= i < |FILE_RIGHTS| ensures NtfsFlag(FILE_RIGHTS[i]) == Bit(i) { FileBit(i); }
    forall i | 0 <= i < |DIRECTORY_SERVICE_RIGHTS| ensures ShareFlag(DIRECTORY_SERVICE_RIGHTS[i]) == Bit(i) {
      DirectoryServiceBit(i);
    }
    hide FILE_RIGHTS, DIRECTORY_SERVICE_RIGHTS;
    forall i | 0 <= i < 4
      ensures NtfsFlag(STANDARD_RIGHTS[i].0) == ShareFlag(STANDARD_RIGHTS[i].1) == Bit(16 + i)
      ensures NtfsFlag(GENERIC_RIGHTS[i].0) == ShareFlag(GENERIC_RIGHTS[i].1) == Bit(28 + i)
    {
      HighBit(i);
    }
  }

  lemma FileBit(i: nat)
    requires i < |FILE_RIGHTS|
    ensures NtfsFlag(FILE_RIGHTS[i]) == Bit(i)
  {
    hide Bit;
    Bits();
  }

  lemma DirectoryServiceBit(i: nat)
    requires i < |DIRECTORY_SERVICE_RIGHTS|
    ensures ShareFlag(DIRECTORY_SERVICE_RIGHTS[i]) == Bit(i)
  {
    hide Bit;
    Bits();
  }

  lemma HighBit(i: nat)
    requires i < 4
    ensures NtfsFlag(STANDARD_RIGHTS[i].0) == ShareFlag(STANDARD_RIGHTS[i].1) == Bit(16 + i)
    ensures NtfsFlag(GENERIC_RIGHTS[i].0) == ShareFlag(GENERIC_RIGHTS[i].1) == Bit(28 + i)
  {
    hide Bit;
    Bits();
  }

  /** The lists name every kind of the tables. */
  lemma TablesComplete(ntfs: NtfsRight, share: ShareRight)
    ensures ntfs in FILE_RIGHTS || (exists i :: 0 <= i < 4 && ntfs == STANDARD_RIGHTS[i].0) ||
      (exists i :: 0 <= i < 4 && ntfs == GENERIC_RIGHTS[i].0) || ntfs == CanNTFSSynchronize ||
        ntfs == CanNTFSAccessSystemSecurity
    ensures share in DIRECTORY_SERVICE_RIGHTS || (exists i :: 0 <= i < 4 && share == STANDARD_RIGHTS[i].1) ||
      (exists i :: 0 <= i < 4 && share == GENERIC_RIGHTS[i].1) || share == CanShareRead || share == CanShareWrite ||
      share == CanShareExecute
  {
    assert STANDARD_RIGHTS[0] == (CanNTFSDelete, CanDelete) &&
      STANDARD_RIGHTS[1] == (CanNTFSReadControl, CanReadControl);
    assert STANDARD_RIGHTS[2] == (CanNTFSWriteDacl, CanWriteDacl) &&
      STANDARD_RIGHTS[3] == (CanNTFSWriteOwner, CanWriteOwner);
    assert GENERIC_RIGHTS[0] == (CanNTFSGenericAll, CanGenericAll);
    assert GENERIC_RIGHTS[1] == (CanNTFSGenericExecute, CanGenericExecute);
    assert GENERIC_RIGHTS[2] == (CanNTFSGenericWrite, CanGenericWrite);
    assert GENERIC_RIGHTS[3] == (CanNTFSGenericRead, CanGenericRead);
  }

  /** A flag that is bit n is seen in a mask exactly if that bit is on, whatever stands above and below it. */
  lemma FlagIsBit(low: nat, n: nat, on: bool, high: nat)
    requires low < Bit(n)
    ensures HasFlag(low + Bit(n) * ((if on then 1 else 0) + 2 * high), Bit(n)) <==> on
  {
    hide Bit;
    var b, q := Bit(n), (if on then 1 else 0) + 2 * high;
    assert low + b * q == q * b + low;
    DivBlock(q, b, low);
  }
}
