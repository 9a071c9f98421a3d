/** What each kind of edge in the graph of a share says, endpoint by endpoint, and exactly when it is there. */
module EdgeMeanings {
  import opened Common
  import opened Kinds
  import Texts
  import opened Paths
  import opened Sids
  import opened OpenGraphs
  import opened AccessMasks
  import opened SecurityDescriptors
  import opened RightsCollectors
  import opened Contexts
  import opened Traversal
  import opened Emission
  import opened GraphTheorems
  import opened TimeoutGraphs

  /** The walk has emitted the share, for itself or for something below it. */
  predicate Out(w: World, bound: nat, loads: nat)
    requires WellFormed(w) && Bounded(w, bound)
  {
    var walk := WalkShare(w, bound, loads);
    walk.root || Places(walk.run.events) != {}
  }

  predicate Emitted(w: World, bound: nat, loads: nat, p: Place)
    requires WellFormed(w) && Bounded(w, bound)
  {
    p in Places(WalkShare(w, bound, loads).run.events)
  }

  predicate EdgeOut(w: World, bound: nat, loads: nat, effectiveAccessOnly: bool, edge: Edge)
    requires WellFormed(w) && Bounded(w, bound)
  {
    edge in SentBy(w, effectiveAccessOnly, WalkShare(w, bound, loads)).edges
  }

  /** The first node of a rights edge: the principal, as the graph names it. */
  function PrincipalEnd(w: World, sid: Sid): Endpoint {
    var domain := Texts.Upper(w.domain);
    Endpoint(if domain != "" && !InDomain(sid) then domain + "-" + Text(sid) else Text(sid), Unset, AnyKind)
  }

  function PlaceEnd(w: World, p: Place): Endpoint {
    Endpoint(IdOf(w, p), Unset, Of(if p.isDir then Directory else File))
  }

  function ShareEnd(w: World): Endpoint {
    Endpoint(ShareId(w.host, w.share), Unset, Of(NetworkShareSMB))
  }

  function HostEnd(w: World): Endpoint {
    Endpoint(HostId(Texts.Lower(w.host)), ById, Of(NetworkShareHost))
  }

  /** Some allow entry for the SID has the bit. */
  predicate BitAllowed(aces: seq<Ace>, sid: Sid, flag: nat)
    requires flag > 0
  {
    exists i :: 0 <= i < |aces| && aces[i].IsAccessAllowed() && aces[i].sid == Some(sid) && HasFlag(aces[i].mask, flag)
  }

  // ----- host, share and containment -----

  lemma RootCases(w: World, effectiveAccessOnly: bool, edge: Edge)
    ensures var site := SiteOf(w, effectiveAccessOnly);
      edge in RootEdges(site) <==>
        || edge == Edge(Endpoint(Texts.Upper(w.host), ByName, Computer), HostEnd(w), HostsNetworkShare)
        || edge == Edge(HostEnd(w), ShareEnd(w), HasNetworkShare)
        || edge in RightsEdges(site.domainSuffix, site.share, site.shareRights)
  {
    hide RightsEdges, RightsOf, DaclAces, ShareId, HostId, Texts.Upper, Texts.Lower;
  }

  lemma RootRightsKinds(w: World, effectiveAccessOnly: bool, edge: Edge)
    requires var site := SiteOf(w, effectiveAccessOnly); edge in RightsEdges(site.domainSuffix, site.share,
      site.shareRights)
    ensures edge.kind.OnShare?
  {
    hide Principal, RightsOf, DaclAces;
    var site := SiteOf(w, effectiveAccessOnly);
    var sid, kind :| sid in site.shareRights && kind in site.shareRights[sid]
      && edge == NewEdge(Principal(site.domainSuffix, sid), site.share, kind);
    SiteRights(w, effectiveAccessOnly);
    ShareKinds(w, sid, kind);
  }

  lemma SiteRights(w: World, effectiveAccessOnly: bool)
    ensures SiteOf(w, effectiveAccessOnly).shareRights == SiteOf(w, false).shareRights
      == RightsOf(ShareLayer, ShareAces(w))
  {
    hide RightsOf, DaclAces;
  }

  lemma PlaceKinds(w: World, effectiveAccessOnly: bool, p: Place, edge: Edge)
    requires p.names != [] && edge in PlaceEdges(w, SiteOf(w, effectiveAccessOnly), p)
    ensures edge.kind.OnNtfs? || edge.kind.CanEffective? || edge.kind == Contains
  {
    hide RightsInForce, Principal, ContentId, RightsOf, DaclAces, ShareId, Opening;
    var site, entry := SiteOf(w, effectiveAccessOnly), EntryOf(w, p.names, p.isDir);
    InForceGranular(w, p.names, p.isDir);
    if edge in RightsEdges(site.domainSuffix, entry.node, entry.rights) ||
      edge in EffectiveEdges(site, entry.node, entry.rights) {
      RightsKinds(site, entry, edge);
    }
  }

  /**
   * The host of a share is hosted by the computer of its name, and has the share; once the share is out, and no other.
   */
  lemma HostAndShareEdges(w: World, bound: nat, loads: nat, effectiveAccessOnly: bool, edge: Edge)
    requires WellFormed(w) && Bounded(w, bound)
    ensures edge.kind == HostsNetworkShare ==>
      (EdgeOut(w, bound, loads, effectiveAccessOnly, edge) <==>
        Out(w, bound, loads) && edge.start == Endpoint(Texts.Upper(w.host), ByName, Computer) && edge.end == HostEnd(w))
    ensures edge.kind == HasNetworkShare ==>
      (EdgeOut(w, bound, loads, effectiveAccessOnly, edge) <==>
        Out(w, bound, loads) && edge.start == HostEnd(w) && edge.end == ShareEnd(w))
  {
    hide WalkShare, SentBy, WellFormed, Bounded, SiteOf, Places, RootEdges, PlaceEdges, IdOf, HostEnd, ShareEnd;
    InSent(w, bound, loads, effectiveAccessOnly);
    RootCases(w, effectiveAccessOnly, edge);
    var site := SiteOf(w, effectiveAccessOnly);
    if edge in RightsEdges(site.domainSuffix, site.share, site.shareRights) {
      RootRightsKinds(w, effectiveAccessOnly, edge);
    }
    if p :| p in Places(WalkShare(w, bound, loads).run.events) && p.names != [] && edge in PlaceEdges(w, site, p) {
      PlaceKinds(w, effectiveAccessOnly, p, edge);
    }
  }

  /** Every emitted file or directory is contained in what lies above it, and nothing else is contained in anything. */
  lemma ContainmentEdges(w: World, bound: nat, loads: nat, effectiveAccessOnly: bool, edge: Edge)
    requires WellFormed(w) && Bounded(w, bound) && edge.kind == Contains
    ensures EdgeOut(w, bound, loads, effectiveAccessOnly, edge) <==>
      exists p :: Emitted(w, bound, loads, p) && p.names != [] && edge.end == PlaceEnd(w, p) &&
        edge.start == AboveEnd(w, p)
  {
    hide WalkShare, SentBy, WellFormed, Bounded, SiteOf, Places, RootEdges, PlaceEdges, IdOf, PlaceEnd, AboveEnd;
    InSent(w, bound, loads, effectiveAccessOnly);
    RootNotContains(w, effectiveAccessOnly, edge);
    forall p | Emitted(w, bound, loads, p) && p.names != []
      ensures edge in PlaceEdges(w, SiteOf(w, effectiveAccessOnly), p) <==>
        edge.end == PlaceEnd(w, p) && edge.start == AboveEnd(w, p)
    {
      OneContains(w, effectiveAccessOnly, p, edge);
    }
  }

  /** The directory or share that contains the place. */
  function AboveEnd(w: World, p: Place): Endpoint
    requires p.names != []
  {
    Endpoint(ParentOf(w.separator, w.host, w.share, p.names), Unset,
             Of(if |p.names| == 1 then NetworkShareSMB else Directory))
  }

  lemma OneContains(w: World, effectiveAccessOnly: bool, p: Place, edge: Edge)
    requires p.names != [] && edge.kind == Contains
    ensures edge in PlaceEdges(w, SiteOf(w, effectiveAccessOnly), p) <==>
      edge.end == PlaceEnd(w, p) && edge.start == AboveEnd(w, p)
  {
    hide RightsInForce, Principal, ContentId, RightsOf, DaclAces, ShareId, Opening, RightsEdges, EffectiveEdges;
    var site, entry := SiteOf(w, effectiveAccessOnly), EntryOf(w, p.names, p.isDir);
    InForceGranular(w, p.names, p.isDir);
    if edge in RightsEdges(site.domainSuffix, entry.node, entry.rights) ||
      edge in EffectiveEdges(site, entry.node, entry.rights) {
      RightsKinds(site, entry, edge);
    }
    assert edge in PlaceEdges(w, site, p) <==> edge == ContainsEdge(ParentNodeOf(w, site, p.names), entry.node);
  }

  // ----- rights -----

  lemma BitGranted(layer: Layer, aces: seq<Ace>, sid: Sid, kind: EdgeKind, flag: nat)
    requires WellFormedSids(aces) && sid.WellFormed() && flag > 0
    requires forall mask: Mask :: kind in KindsFor(layer, mask) <==> HasFlag(mask, flag)
    ensures var rights := RightsOf(layer, aces);
      (Text(sid) in rights && kind in rights[Text(sid)]) <==> BitAllowed(aces, sid, flag)
  {
    hide Text, KindsFor, HasFlag, RightsOf;
    RightsRecord(layer, aces);
    if Granted(layer, aces, Text(sid), kind) {
      var i :| 0 <= i < |aces| && Grants(layer, aces[i], Text(sid), kind);
      assert aces[i] in aces && aces[i].sid.value.WellFormed();
      TextInjective(aces[i].sid.value, sid);
    }
    if BitAllowed(aces, sid, flag) {
      var i :| 0 <= i < |aces| && aces[i].IsAccessAllowed() && aces[i].sid == Some(sid) && HasFlag(aces[i].mask, flag);
      assert Grants(layer, aces[i], Text(sid), kind);
    }
  }

  lemma KindBit(mask: Mask, share: ShareRight, ntfs: NtfsRight)
    ensures OnShare(share) in KindsFor(ShareLayer, mask) <==> HasFlag(mask, ShareFlag(share))
    ensures OnNtfs(ntfs) in KindsFor(NtfsLayer, mask) <==> HasFlag(mask, NtfsFlag(ntfs))
  {
    hide HasFlag, ShareFlag, NtfsFlag;
  }

  lemma Starts(w: World, sid: Sid)
    requires sid.WellFormed()
    ensures Endpoint(Principal(Texts.Upper(w.domain), Text(sid)), Unset, AnyKind) == PrincipalEnd(w, sid)
  {
    hide Text, Principal, Texts.Upper;
    PrincipalIs(Texts.Upper(w.domain), sid);
  }

  /**
   * An NTFS right at a file or directory is in the graph exactly if effective access is not all that is asked for, the
   * item is emitted, and an allow entry for the SID in the DACL in force has the right's bit.
   */
  lemma NtfsRightEdges(w: World, bound: nat, loads: nat, effectiveAccessOnly: bool, p: Place, sid: Sid,
                       right: NtfsRight)
    requires WellFormed(w) && Bounded(w, bound) && p.Good() && sid.WellFormed()
    ensures p.names != [] &&
      (EdgeOut(w, bound, loads, effectiveAccessOnly, Edge(PrincipalEnd(w, sid), PlaceEnd(w, p), OnNtfs(right))) <==>
        !effectiveAccessOnly && Emitted(w, bound, loads, p) && BitAllowed(AcesInForce(w, p), sid, NtfsFlag(right)))
  {
    hide WalkShare, SentBy, WellFormed, Bounded, SiteOf, Places, RootEdges, PlaceEdges, IdOf, Text, Principal,
      GoodNames,
      AcesInForce, BitAllowed, NtfsFlag, PrincipalEnd;
    var site := SiteOf(w, effectiveAccessOnly);
    var edge := Edge(PrincipalEnd(w, sid), PlaceEnd(w, p), OnNtfs(right));
    InSent(w, bound, loads, effectiveAccessOnly);
    RootHasNone(w, effectiveAccessOnly, edge);
    NtfsAtPlace(w, effectiveAccessOnly, p, sid, right);
    if q :| q in Places(WalkShare(w, bound, loads).run.events) && q.names != [] && edge in PlaceEdges(w, site, q) {
      PlaceEdgesEnd(w, site, q, edge);
      IdInjective(w, p, q);
    }
  }

  lemma NtfsAtPlace(w: World, effectiveAccessOnly: bool, p: Place, sid: Sid, right: NtfsRight)
    requires p.names != [] && sid.WellFormed()
    ensures Edge(PrincipalEnd(w, sid), PlaceEnd(w, p), OnNtfs(right)) in PlaceEdges(w, SiteOf(w, effectiveAccessOnly),
      p) <==>
      !effectiveAccessOnly && BitAllowed(AcesInForce(w, p), sid, NtfsFlag(right))
  {
    hide Text, Principal, RightsInForce, AcesInForce, BitAllowed, NtfsFlag, OwnEdges, PrincipalEnd, ContentId, RightsOf,
      DaclAces, HasFlag;
    var site, entry := SiteOf(w, effectiveAccessOnly), EntryOf(w, p.names, p.isDir);
    ProperRights(w, p);
    Starts(w, sid);
    assert IsSidText(Text(sid));
    RightsEdgeIs(site, ParentNodeOf(w, site, p.names), entry, Text(sid), OnNtfs(right));
    AcesInForceRights(w, p);
    forall mask: Mask ensures OnNtfs(right) in KindsFor(NtfsLayer, mask) <==> HasFlag(mask, NtfsFlag(right)) {
      KindBit(mask, CanDelete, right);
    }
    BitGranted(NtfsLayer, AcesInForce(w, p), sid, OnNtfs(right), NtfsFlag(right));
  }

  /**
   * A share right is in the graph exactly if the share is and an allow entry for the SID in its DACL has the right's
   * bit.
   */
  lemma ShareRightEdges(w: World, bound: nat, loads: nat, effectiveAccessOnly: bool, sid: Sid, right: ShareRight)
    requires WellFormed(w) && Bounded(w, bound) && sid.WellFormed()
    ensures EdgeOut(w, bound, loads, effectiveAccessOnly, Edge(PrincipalEnd(w, sid), ShareEnd(w), OnShare(right))) <==>
      Out(w, bound, loads) && BitAllowed(ShareAces(w), sid, ShareFlag(right))
  {
    hide WalkShare, SentBy, WellFormed, Bounded, SiteOf, Places, RootEdges, PlaceEdges, IdOf, Text, Principal,
      ShareAces, BitAllowed, ShareFlag, PrincipalEnd, ShareEnd, HostEnd;
    var site := SiteOf(w, effectiveAccessOnly);
    var edge := Edge(PrincipalEnd(w, sid), ShareEnd(w), OnShare(right));
    InSent(w, bound, loads, effectiveAccessOnly);
    RootCases(w, effectiveAccessOnly, edge);
    ShareAtRoot(w, effectiveAccessOnly, sid, right);
    if q :| q in Places(WalkShare(w, bound, loads).run.events) && q.names != [] && edge in PlaceEdges(w, site, q) {
      PlaceKinds(w, effectiveAccessOnly, q, edge);
    }
  }

  lemma ShareAtRoot(w: World, effectiveAccessOnly: bool, sid: Sid, right: ShareRight)
    requires sid.WellFormed()
    ensures var site := SiteOf(w, effectiveAccessOnly);
      Edge(PrincipalEnd(w, sid), ShareEnd(w), OnShare(right)) in RightsEdges(site.domainSuffix, site.share,
        site.shareRights) <==>
        BitAllowed(ShareAces(w), sid, ShareFlag(right))
  {
    hide Text, Principal, ShareAces, BitAllowed, ShareFlag, PrincipalEnd, RightsOf, DaclAces, HasFlag, ShareId;
    var site := SiteOf(w, effectiveAccessOnly);
    var edge := Edge(PrincipalEnd(w, sid), ShareEnd(w), OnShare(right));
    SiteRights(w, effectiveAccessOnly);
    Starts(w, sid);
    DaclSids(w);
    assert edge == NewEdge(Principal(site.domainSuffix, Text(sid)), site.share, OnShare(right));
    forall mask: Mask ensures OnShare(right) in KindsFor(ShareLayer, mask) <==> HasFlag(mask, ShareFlag(right)) {
      KindBit(mask, right, CanNTFSDelete);
    }
    BitGranted(ShareLayer, ShareAces(w), sid, OnShare(right), ShareFlag(right));
    if edge in RightsEdges(site.domainSuffix, site.share, site.shareRights) {
      var key, kind :| key in site.shareRights && kind in site.shareRights[key]
        && edge == NewEdge(Principal(site.domainSuffix, key), site.share, kind);
      KeysAreTexts(ShareLayer, ShareAces(w), key);
      assert IsSidText(key) && IsSidText(Text(sid));
      SameKey(site.domainSuffix, key, Text(sid));
    }
  }

  /** An effective right in the graph: the same with both DACLs, by the bits that open the access. */
  lemma EffectiveRightEdges(w: World, bound: nat, loads: nat, effectiveAccessOnly: bool, p: Place, sid: Sid,
                            access: Access)
    requires WellFormed(w) && Bounded(w, bound) && p.Good() && sid.WellFormed()
    ensures p.names != [] &&
      (EdgeOut(w, bound, loads, effectiveAccessOnly,
        Edge(PrincipalEnd(w, sid), PlaceEnd(w, p), CanEffective(access))) <==>
        Emitted(w, bound, loads, p) && Allows(ShareAces(w), sid, access) && Allows(AcesInForce(w, p), sid, access))
  {
    hide WalkShare, SentBy, WellFormed, Bounded, Places, Text, Principal, PrincipalEnd, GoodNames, Allows, AcesInForce,
      ShareAces, ContentId;
    EffectiveAccess(w, bound, loads, effectiveAccessOnly, p, sid, access);
    Starts(w, sid);
    assert EffectiveEdge(w, p, sid, access) == Edge(PrincipalEnd(w, sid), PlaceEnd(w, p), CanEffective(access));
  }

  // ----- no other edges -----

  /** A right: from a principal to an emitted file or directory, or to the share. */
  ghost predicate RightForm(w: World, bound: nat, loads: nat, edge: Edge)
    requires WellFormed(w) && Bounded(w, bound)
  {
    exists sid: Sid :: sid.WellFormed() && edge.start == PrincipalEnd(w, sid)
      && if edge.kind.OnShare? then edge.end == ShareEnd(w)
         else exists p :: Emitted(w, bound, loads, p) && p.Good() && edge.end == PlaceEnd(w, p)
  }

  lemma PlaceRightForm(w: World, effectiveAccessOnly: bool, p: Place, edge: Edge)
    requires p.names != [] && edge in PlaceEdges(w, SiteOf(w, effectiveAccessOnly), p) && edge.kind != Contains
    ensures edge.end == PlaceEnd(w, p)
    ensures exists sid: Sid :: sid.WellFormed() && edge.start == PrincipalEnd(w, sid)
  {
    hide RightsInForce, Principal, ContentId, RightsOf, DaclAces, ShareId, Opening, Text, PrincipalEnd;
    var site, entry := SiteOf(w, effectiveAccessOnly), EntryOf(w, p.names, p.isDir);
    ProperRights(w, p);
    var key: string;
    if edge in RightsEdges(site.domainSuffix, entry.node, entry.rights) {
      var k, kind :| k in entry.rights && kind in entry.rights[k]
        && edge == NewEdge(Principal(site.domainSuffix, k), entry.node, kind);
      key := k;
    } else {
      var k, kind :| k in entry.rights && kind in EffectiveKinds(site.shareRights, entry.rights, k)
        && edge == NewEdge(Principal(site.domainSuffix, k), entry.node, kind);
      key := k;
    }
    assert IsSidText(key);
    var sid: Sid :| sid.WellFormed() && Text(sid) == key;
    Starts(w, sid);
  }

  lemma ShareRightForm(w: World, effectiveAccessOnly: bool, edge: Edge)
    requires var site := SiteOf(w, effectiveAccessOnly); edge in RightsEdges(site.domainSuffix, site.share,
      site.shareRights)
    ensures edge.end == ShareEnd(w)
    ensures exists sid: Sid :: sid.WellFormed() && edge.start == PrincipalEnd(w, sid)
  {
    hide Text, Principal, ShareAces, PrincipalEnd, RightsOf, DaclAces, ShareId;
    var site := SiteOf(w, effectiveAccessOnly);
    SiteRights(w, effectiveAccessOnly);
    DaclSids(w);
    var key, kind :| key in site.shareRights && kind in site.shareRights[key]
      && edge == NewEdge(Principal(site.domainSuffix, key), site.share, kind);
    KeysAreTexts(ShareLayer, ShareAces(w), key);
    var sid: Sid :| sid.WellFormed() && Text(sid) == key;
    Starts(w, sid);
  }

  /** Every edge of the graph of a share is of one of the kinds above, between the nodes said above. */
  lemma EveryEdge(w: World, bound: nat, loads: nat, effectiveAccessOnly: bool, edge: Edge)
    requires WellFormed(w) && Bounded(w, bound) && EdgeOut(w, bound, loads, effectiveAccessOnly, edge)
    ensures edge.kind.OnShare? || edge.kind.OnNtfs? || edge.kind.CanEffective? ==> RightForm(w, bound, loads, edge)
    ensures Out(w, bound, loads)
  {
    hide WalkShare, SentBy, WellFormed, Bounded, SiteOf, Places, RootEdges, PlaceEdges, IdOf, PrincipalEnd, ShareEnd,
      HostEnd, PlaceEnd;
    InSent(w, bound, loads, effectiveAccessOnly);
    RootCases(w, effectiveAccessOnly, edge);
    var site := SiteOf(w, effectiveAccessOnly);
    if edge in RightsEdges(site.domainSuffix, site.share, site.shareRights) {
      ShareRightForm(w, effectiveAccessOnly, edge);
      RootRightsKinds(w, effectiveAccessOnly, edge);
    }
    if p :| p in Places(WalkShare(w, bound, loads).run.events) && p.names != [] && edge in PlaceEdges(w, site, p) {
      PlaceKinds(w, effectiveAccessOnly, p, edge);
      assert Emitted(w, bound, loads, p);
      if edge.kind != Contains {
        PlaceRightForm(w, effectiveAccessOnly, p, edge);
      }
    }
  }
}
