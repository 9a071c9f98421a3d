/** From DACLs to rights maps: the ACE loops of the share and NTFS collectors. */
module RightsCollectors {
  import opened Common
  import opened Kinds
  import opened ByteStrings
  import opened Sids
  import opened AccessMasks
  import opened SecurityDescriptors

  /** SID text to edge kinds, as the scanner stores it. */
  type ShareRights = map<string, seq<EdgeKind>>

  /** The same with order and duplicates forgotten: only the kinds present matter to any reader. */
  type Rights = map<string, set<EdgeKind>>

  function KindSets(rights: ShareRights): (r: Rights)
    ensures r.Keys == rights.Keys
  {
    map sid | sid in rights :: Elements(rights[sid])
  }

  /** An entry gives a SID a right: it allows, names the SID, and its mask has the bit. */
  predicate Grants(layer: Layer, ace: Ace, sid: string, kind: EdgeKind) {
    && ace.IsAccessAllowed()
    && ace.sid.Some? && Text(ace.sid.value) == sid
    && kind in KindsFor(layer, ace.mask)
  }

  predicate Granted(layer: Layer, aces: seq<Ace>, sid: string, kind: EdgeKind) {
    exists i :: 0 <= i < |aces| && Grants(layer, aces[i], sid, kind)
  }

  /** A rights map records exactly what the entries grant, and no SID without rights. */
  ghost predicate Records(rights: Rights, layer: Layer, aces: seq<Ace>) {
    && (forall sid :: sid in rights ==> rights[sid] != {})
    && (forall sid, kind :: (sid in rights && kind in rights[sid]) <==> Granted(layer, aces, sid, kind))
  }

  /** The rights an entry contributes to the SID it names. */
  function Contribution(layer: Layer, ace: Ace): set<EdgeKind> {
    if ace.IsAccessAllowed() && ace.sid.Some? then KindsFor(layer, ace.mask) else {}
  }

  function Subject(ace: Ace): string {
    if ace.sid.Some? then Text(ace.sid.value) else ""
  }

  lemma ContributionGrants(layer: Layer, ace: Ace, sid: string, kind: EdgeKind)
    ensures Grants(layer, ace, sid, kind) <==> sid == Subject(ace) && kind in Contribution(layer, ace)
  {
  }

  /** The rights map of a list of entries. */
  function RightsOf(layer: Layer, aces: seq<Ace>): Rights {
    var sids := set i | 0 <= i < |aces| && Contribution(layer, aces[i]) != {} :: Subject(aces[i]);
    map sid | sid in sids :: KindsGranted(layer, aces, sid)
  }

  function KindsGranted(layer: Layer, aces: seq<Ace>, sid: string): set<EdgeKind> {
    set i, kind | 0 <= i < |aces| && kind in Contribution(layer, aces[i]) && Subject(aces[i]) == sid :: kind
  }

  lemma RightsRecord(layer: Layer, aces: seq<Ace>)
    ensures Records(RightsOf(layer, aces), layer, aces)
  {
    hide Contribution, Subject, Grants;
    var rights := RightsOf(layer, aces);
    forall sid, kind ensures (sid in rights && kind in rights[sid]) <==> Granted(layer, aces, sid, kind) {
      forall i | 0 <= i < |aces| { ContributionGrants(layer, aces[i], sid, kind); }
    }
    forall sid | sid in rights ensures rights[sid] != {} {
      var i :| 0 <= i < |aces| && Contribution(layer, aces[i]) != {} && Subject(aces[i]) == sid;
      var kind :| kind in Contribution(layer, aces[i]);
      assert kind in rights[sid];
    }
  }

  /** Two rights maps that record the same grants are the same, so ACE order and splits do not matter. */
  lemma RecordsUnique(a: Rights, b: Rights, layer: Layer, aces: seq<Ace>, others: seq<Ace>)
    requires Records(a, layer, aces) && Records(b, layer, others)
    requires forall sid, kind :: Granted(layer, aces, sid, kind) <==> Granted(layer, others, sid, kind)
    ensures a == b
  {
    hide Granted;
    forall sid ensures sid in a ==> sid in b && a[sid] <= b[sid] {
      if sid in a {
        forall kind | kind in a[sid] ensures sid in b && kind in b[sid] {
          assert Granted(layer, aces, sid, kind);
        }
      }
    }
    forall sid ensures sid in b ==> sid in a && b[sid] <= a[sid] {
      if sid in b {
        forall kind | kind in b[sid] ensures sid in a && kind in a[sid] {
          assert Granted(layer, others, sid, kind);
        }
      }
    }
    assert a.Keys == b.Keys;
    assert forall sid | sid in a :: a[sid] == b[sid];
  }

  /** One more entry: its contribution joins the rights of its subject. */
  lemma RecordsStep(before: Rights, after: Rights, layer: Layer, aces: seq<Ace>, ace: Ace)
    requires Records(before, layer, aces)
    requires after == if Contribution(layer, ace) == {} then before else
      before[Subject(ace) := (if Subject(ace) in before then before[Subject(ace)] else {}) + Contribution(layer, ace)]
    ensures Records(after, layer, aces + [ace])
  {
    hide Contribution, Subject, Grants;
    forall sid, kind ensures (sid in after && kind in after[sid]) <==> Granted(layer, aces + [ace], sid, kind) {
      GrantedSnoc(layer, aces, ace, sid, kind);
      ContributionGrants(layer, ace, sid, kind);
      assert (sid in before && kind in before[sid]) <==> Granted(layer, aces, sid, kind);
    }
  }

  lemma GrantedSnoc(layer: Layer, aces: seq<Ace>, ace: Ace, sid: string, kind: EdgeKind)
    ensures Granted(layer, aces + [ace], sid, kind) <==>
      Granted(layer, aces, sid, kind) || Grants(layer, ace, sid, kind)
  {
    hide Grants;
    var all := aces + [ace];
    assert all[|aces|] == ace;
    assert forall i :: 0 <= i < |aces| ==> all[i] == aces[i];
  }

  /** What one entry adds to the map under construction. */
  method CollectAce(layer: Layer, ace: Ace, rights: ShareRights) returns (after: ShareRights)
    requires ace.sid.Some? ==> ace.sid.value.WellFormed()
    ensures KindSets(after) == if Contribution(layer, ace) == {} then KindSets(rights) else
      KindSets(rights)[Subject(ace) :=
        (if Subject(ace) in rights then Elements(rights[Subject(ace)]) else {}) + Contribution(layer, ace)]
  {
    hide KindsFor;
    after := rights;
    if !ace.IsAccessAllowed() {
      return;
    }
    if ace.sid.None? {
      return;
    }
    var sid := String(ace.sid.value);
    assert sid[0] == 'S';
    if sid == "" {
      return;
    }
    var edgeKinds;
    if layer.ShareLayer? {
      edgeKinds := GetShareRightsForMask(ace.mask);
    } else {
      edgeKinds := GetNTFSRightsForMask(ace.mask);
    }
    assert Elements(edgeKinds) == KindsFor(layer, ace.mask) == Contribution(layer, ace);
    assert sid == Subject(ace);
    if |edgeKinds| > 0 {
      assert edgeKinds[0] in Elements(edgeKinds);
      var present := if sid in rights then rights[sid] else [];
      assert Elements(present) == if sid in rights then Elements(rights[sid]) else {};
      assert Elements(present + edgeKinds) == Elements(present) + Elements(edgeKinds);
      after := rights[sid := present + edgeKinds];
      KindSetsUpdate(rights, sid, present + edgeKinds);
    }
  }

  lemma KindSetsUpdate(rights: ShareRights, sid: string, kinds: seq<EdgeKind>)
    ensures KindSets(rights[sid := kinds]) == KindSets(rights)[sid := Elements(kinds)]
  {
    assert rights[sid := kinds].Keys == rights.Keys + {sid};
    assert KindSets(rights)[sid := Elements(kinds)].Keys == rights.Keys + {sid};
  }

  /** The loop both collectors run over the entries of a DACL. */
  method CollectAces(layer: Layer, aces: seq<Ace>) returns (rights: ShareRights)
    requires forall ace :: ace in aces && ace.sid.Some? ==> ace.sid.value.WellFormed()
    ensures KindSets(rights) == RightsOf(layer, aces)
  {
    hide *;
    rights := map[];
    EmptyRecords(layer);
    for i := 0 to |aces|
      invariant Records(KindSets(rights), layer, aces[..i])
    {
      assert aces[..i + 1] == aces[..i] + [aces[i]];
      var after := CollectAce(layer, aces[i], rights);
      assert Subject(aces[i]) in rights ==>
        KindSets(rights)[Subject(aces[i])] == Elements(rights[Subject(aces[i])]) by {
        KindSetsAt(rights, Subject(aces[i]));
      }
      RecordsStep(KindSets(rights), KindSets(after), layer, aces[..i], aces[i]);
      rights := after;
    }
    assert aces[..|aces|] == aces;
    RightsRecord(layer, aces);
    RecordsUnique(KindSets(rights), RightsOf(layer, aces), layer, aces, aces);
  }

  lemma KindSetsAt(rights: ShareRights, sid: string)
    ensures sid in rights ==> KindSets(rights)[sid] == Elements(rights[sid])
  {
  }

  lemma EmptyRecords(layer: Layer)
    ensures Records(KindSets(map[]), layer, [])
  {
  }

  /** The entries of the DACL in a descriptor blob; none when it is missing or does not parse. */
  function DaclAces(blob: Bytes): (aces: seq<Ace>) {
    match DescriptorAt(blob)
    case Err => []
    case Ok(sd) => if sd.dacl.Some? then sd.dacl.value.aces else []
  }

  /** NTFS rights of a file or directory; an empty blob means the descriptor could not be read. */
  method CollectNTFSRights(blob: Bytes) returns (rights: ShareRights)
    ensures KindSets(rights) == RightsOf(NtfsLayer, DaclAces(blob))
  {
    if |blob| == 0 {
      return map[];
    }
    var sd := ParseSecurityDescriptor(blob);
    if sd.Err? || sd.value.dacl.None? {
      return map[];
    }
    DaclSidsWellFormed(blob);
    rights := CollectAces(NtfsLayer, sd.value.dacl.value.aces);
  }

  /** Share rights; without a share-level descriptor the root folder's descriptor is read in its place. */
  method CollectShareRights(shareBlob: Bytes, rootBlob: Bytes) returns (rights: ShareRights)
    ensures KindSets(rights) == RightsOf(ShareLayer, DaclAces(if shareBlob == [] then rootBlob else shareBlob))
  {
    var sdBytes := shareBlob;
    if |sdBytes| == 0 {
      sdBytes := rootBlob;
      if |sdBytes| == 0 {
        return map[];
      }
    }
    var sd := ParseSecurityDescriptor(sdBytes);
    if sd.Err? || sd.value.dacl.None? || |sd.value.dacl.value.aces| == 0 {
      return map[];
    }
    DaclSidsWellFormed(sdBytes);
    rights := CollectAces(ShareLayer, sd.value.dacl.value.aces);
  }

  lemma {:induction false} AcesWellFormed(data: Bytes, count: nat)
    ensures forall ace :: ace in AcesIn(data, count) && ace.sid.Some? ==> ace.sid.value.WellFormed()
    decreases count
  {
    if count > 0 && data != [] && ParseACE(data).Ok? {
      AcesWellFormed(data[ParseACE(data).value.size..], count - 1);
    }
  }

  lemma DaclSidsWellFormed(blob: Bytes)
    ensures forall ace :: ace in DaclAces(blob) && ace.sid.Some? ==> ace.sid.value.WellFormed()
  {
    if |blob| >= 20 {
      var offset := U32(blob, 16);
      if 0 < offset < |blob| && |blob[offset..]| >= 8 {
        AcesWellFormed(blob[offset..][8..], U16(blob[offset..], 4));
      }
    }
  }

  /**
   * Between a descriptor on the wire and its rights map nothing is lost: the map records the grants of the wire
   * entries.
   */
  lemma WireToRights(layer: Layer, sd: WireDescriptor, order: seq<Part>, rest: Bytes)
    requires Encodable(sd, order)
    ensures Records(RightsOf(layer, DaclAces(EncodeDescriptor(sd, order) + rest)), layer,
      if sd.dacl.Some? && HasFlag(sd.control, SE_DACL_PRESENT) then SeenAces(sd.dacl.value.aces) else [])
  {
    DescriptorRoundTrip(sd, order, rest);
    RightsRecord(layer, DaclAces(EncodeDescriptor(sd, order) + rest));
  }
}
