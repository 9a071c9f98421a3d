/** Consequences for the graph: order independence, projection, effective access, containment. */
module GraphTheorems {
  import opened Common
  import opened Kinds
  import opened ByteStrings
  import Texts
  import opened Paths
  import opened OpenGraphs
  import opened Sids
  import opened AccessMasks
  import opened SecurityDescriptors
  import opened RightsCollectors
  import opened Rules
  import opened Contexts
  import opened Traversal
  import opened Coverage
  import opened Emission
  import Contents
  import ShareWorkers

  // ----- listing order -----

  function WithListings(w: World, list: string -> Option<seq<Item>>): World {
    w.(server := w.server.(list := list))
  }

  /** The same directories with the same items, listed in any order. */
  ghost predicate SameContents(list: string -> Option<seq<Item>>, other: string -> Option<seq<Item>>) {
    forall path :: (list(path).Some? <==> other(path).Some?)
      && (list(path).Some? ==> forall item :: item in list(path).value <==> item in other(path).value)
  }

  lemma ListedSame(w: World, list: string -> Option<seq<Item>>, dir: seq<string>, item: Item)
    requires SameContents(w.server.list, list)
    ensures Listed(w, dir, item) == Listed(WithListings(w, list), dir, item)
  {
    hide DirPath, DotName;
  }

  lemma DecidedSame(w: World, list: string -> Option<seq<Item>>, names: seq<string>, item: Item, context: Context)
    requires names != []
    ensures EventOf(w, names, item) == EventOf(WithListings(w, list), names, item)
    ensures Examine(w, Init(names), item, context) == Examine(WithListings(w, list), Init(names), item, context)
    ensures ShareObjectOf(w) == ShareObjectOf(WithListings(w, list))
  {
    hide Evaluate, FullPath;
  }

  lemma {:induction false} EnteredSame(w: World, list: string -> Option<seq<Item>>, dir: seq<string>)
    requires SameContents(w.server.list, list)
    ensures Entered(w, [], dir) == Entered(WithListings(w, list), [], dir)
    decreases |dir|
  {
    hide Listable, IsExplorable;
    var w' := WithListings(w, list);
    ListableSame(w, list, dir);
    if dir != [] {
      EnteredSame(w, list, Init(dir));
      ExplorableSame(w, list, dir);
    }
  }

  lemma ListableSame(w: World, list: string -> Option<seq<Item>>, dir: seq<string>)
    requires SameContents(w.server.list, list)
    ensures Listable(w, dir) == Listable(WithListings(w, list), dir)
  {
    hide DirPath;
  }

  lemma ExplorableSame(w: World, list: string -> Option<seq<Item>>, dir: seq<string>)
    requires SameContents(w.server.list, list) && dir != []
    ensures IsExplorable(w, dir) == IsExplorable(WithListings(w, list), dir)
  {
    hide DirPath, EventOf, DotName;
    forall item ensures EventOf(w, dir, item) == EventOf(WithListings(w, list), dir, item) {
      DecidedSame(w, list, dir, item, FreshContext(w));
    }
  }

  lemma SpecifiedSame(w: World, list: string -> Option<seq<Item>>, e: Event)
    requires SameContents(w.server.list, list)
    ensures Specified(w, [], e) == Specified(WithListings(w, list), [], e)
  {
    hide Entered, Listed, EventOf;
    if e.names != [] {
      EnteredSame(w, list, Init(e.names));
      forall item ensures EventOf(w, e.names, item) == EventOf(WithListings(w, list), e.names, item)
        && Listed(w, Init(e.names), item) == Listed(WithListings(w, list), Init(e.names), item)
      {
        DecidedSame(w, list, e.names, item, FreshContext(w));
        ListedSame(w, list, Init(e.names), item);
      }
    }
  }

  lemma ScopedSame(w: World, list: string -> Option<seq<Item>>)
    requires SameContents(w.server.list, list) && Scoped(w)
    ensures Scoped(WithListings(w, list))
  {
    hide Examine, EventOf, Listed, MayRemember;
    var w' := WithListings(w, list);
    forall names, item, context | Remembering(w', names, item, context)
      ensures Examine(w', Init(names), item, context).0 == EventOf(w', names, item)
    {
      ListedSame(w, list, Init(names), item);
      RememberSame(w, list, context);
      DecidedSame(w, list, names, item, context);
      assert Remembering(w, names, item, context);
    }
  }

  lemma RememberSame(w: World, list: string -> Option<seq<Item>>, context: Context)
    requires SameContents(w.server.list, list) && MayRemember(WithListings(w, list), context)
    ensures MayRemember(w, context)
  {
    hide Listed, FullPath;
    var w' := WithListings(w, list);
    if context.file.Some? {
      var names, item :| IsFileObject(w', context.file.value, names, item);
      ListedSame(w, list, Init(names), item);
      assert IsFileObject(w, context.file.value, names, item);
    }
    if context.dir.Some? {
      var names, item :| IsDirObject(w', context.dir.value, names, item);
      ListedSame(w, list, Init(names), item);
      assert IsDirObject(w, context.dir.value, names, item);
    }
  }

  lemma ImageSame(w: World, list: string -> Option<seq<Item>>, site: Site, root: bool, places: set<Place>)
    requires GoodPlaces(places)
    ensures Image(w, site, root, places) == Image(WithListings(w, list), site, root, places)
  {
    hide ContentId, OwnEdges, GoodNames;
    var w' := WithListings(w, list);
    forall p | p in places ensures IdOf(w, p) == IdOf(w', p) && PlaceEdges(w, site, p) == PlaceEdges(w', site, p) {
      EntrySame(w, list, p.names, p.isDir);
    }
    var a, b := Image(w, site, root, places), Image(w', site, root, places);
    assert a.nodes == b.nodes && a.edges == b.edges && a.dirs == b.dirs;
  }

  lemma {:induction false} NearestSame(w: World, list: string -> Option<seq<Item>>, names: seq<string>)
    ensures NearestRights(w, names) == NearestRights(WithListings(w, list), names)
  {
    hide RightsOf, FullPath, DaclAces;
    if names != [] {
      NearestSame(w, list, names[..|names| - 1]);
    }
  }

  lemma EntrySame(w: World, list: string -> Option<seq<Item>>, names: seq<string>, isDir: bool)
    requires names != []
    ensures EntryOf(w, names, isDir) == EntryOf(WithListings(w, list), names, isDir)
    ensures NodeOf(w, names, isDir) == NodeOf(WithListings(w, list), names, isDir)
  {
    hide RightsOf, FullPath, DaclAces, NearestRights;
    NearestSame(w, list, names[..|names| - 1]);
  }

  /** Two runs over the same share, listed in different orders, put the same into the graph and count the same. */
  lemma OrderIndependent(w: World, list: string -> Option<seq<Item>>, bound: nat, loads: nat, effectiveAccessOnly: bool)
    requires WellFormed(w) && Bounded(w, bound) && Scoped(w) && w.fireAt.None?
    requires SameContents(w.server.list, list)
    requires WellFormed(WithListings(w, list)) && Bounded(WithListings(w, list), bound)
    ensures var walk, other := WalkShare(w, bound, loads), WalkShare(WithListings(w, list), bound, loads);
      && SentBy(w, effectiveAccessOnly, walk) == SentBy(WithListings(w, list), effectiveAccessOnly, other)
      && Tally(walk.run.events) == Tally(other.run.events)
  {
    hide WalkShare, SentBy, Specified, Scoped, WellFormed, Bounded, Tally, Cardinalities, PlacesOf, Image, SiteOf,
      MayExplore, MayProcess;
    var w' := WithListings(w, list);
    var walk, other := WalkShare(w, bound, loads), WalkShare(w', bound, loads);
    ScopedSame(w, list);
    forall e ensures Specified(w, [], e) == Specified(w', [], e) { SpecifiedSame(w, list, e); }
    TraversalExact(w, bound, loads, effectiveAccessOnly);
    TraversalExact(w', bound, loads, effectiveAccessOnly);
    ShareSame(w, list, effectiveAccessOnly);
    assert (set e | e in walk.run.events) == (set e | e in other.run.events);
    assert Places(walk.run.events) == Places(other.run.events);
    SentExact(w, bound, loads, effectiveAccessOnly);
    SentExact(w', bound, loads, effectiveAccessOnly);
    ImageSame(w, list, SiteOf(w, effectiveAccessOnly), walk.root ||
      Places(walk.run.events) != {}, Places(walk.run.events));
  }

  lemma ShareSame(w: World, list: string -> Option<seq<Item>>, effectiveAccessOnly: bool)
    ensures ShareEntered(w) == ShareEntered(WithListings(w, list))
    ensures MayProcess(w, FreshContext(w)) == MayProcess(WithListings(w, list), FreshContext(WithListings(w, list)))
    ensures SiteOf(w, effectiveAccessOnly) == SiteOf(WithListings(w, list), effectiveAccessOnly)
  {
    hide Evaluate, RightsOf, DaclAces;
  }

  // ----- effective access only -----

  /** The kinds of the NTFS table. */
  predicate Granular(edge: Edge) {
    edge.kind.OnNtfs?
  }

  lemma OwnRightsGranular(w: World, names: seq<string>)
    ensures forall sid, kind :: sid in OwnRights(w, names) && kind in OwnRights(w, names)[sid] ==> kind.OnNtfs?
  {
    hide OwnRights;
    forall sid, kind | sid in OwnRights(w, names) && kind in OwnRights(w, names)[sid] ensures kind.OnNtfs? {
      Contents.OwnRightsAreNtfs(w, names, sid, kind);
    }
  }

  lemma {:induction false} NearestGranular(w: World, names: seq<string>)
    ensures forall sid, kind :: sid in NearestRights(w, names) && kind in NearestRights(w, names)[sid] ==> kind.OnNtfs?
  {
    hide OwnRights;
    OwnRightsGranular(w, names);
    OwnRightsGranular(w, []);
    if names != [] {
      NearestGranular(w, names[..|names| - 1]);
    }
  }

  lemma InForceGranular(w: World, names: seq<string>, isDir: bool)
    requires names != []
    ensures forall sid, kind ::
      sid in RightsInForce(w, names, isDir) && kind in RightsInForce(w, names, isDir)[sid] ==> kind.OnNtfs?
  {
    hide OwnRights, NearestRights;
    OwnRightsGranular(w, names);
    NearestGranular(w, names[..|names| - 1]);
  }

  /** At one place the flag drops the granular edges and keeps the rest. */
  lemma PlaceProjection(w: World, site: Site, p: Place)
    requires p.names != [] && !site.effectiveAccessOnly
    ensures PlaceEdges(w, site.(effectiveAccessOnly := true), p) == set edge | edge in PlaceEdges(w, site, p) &&
      !Granular(edge)
  {
    hide RightsInForce, NodeOf, Principal;
    InForceGranular(w, p.names, p.isDir);
    var entry := EntryOf(w, p.names, p.isDir);
    assert forall edge :: edge in RightsEdges(site.domainSuffix, entry.node, entry.rights) ==> Granular(edge);
    assert forall edge :: edge in EffectiveEdges(site, entry.node, entry.rights) ==> !Granular(edge);
    assert EffectiveEdges(site, entry.node, entry.rights) ==
      EffectiveEdges(site.(effectiveAccessOnly := true), entry.node, entry.rights);
  }

  lemma RootProjection(w: World)
    ensures var full, flagged := SiteOf(w, false), SiteOf(w, true);
      flagged == full.(effectiveAccessOnly := true) && RootEdges(flagged) == RootEdges(full)
      && forall edge :: edge in RootEdges(full) ==> !Granular(edge)
  {
    hide Principal, RightsOf, DaclAces;
    var full := SiteOf(w, false);
    forall edge | edge in RootEdges(full) ensures !Granular(edge) {
      if edge in RightsEdges(full.domainSuffix, full.share, full.shareRights) {
        var sid, kind :| sid in full.shareRights && kind in full.shareRights[sid]
          && edge == NewEdge(Principal(full.domainSuffix, sid), full.share, kind);
        ShareKinds(w, sid, kind);
      }
    }
  }

  lemma ShareKinds(w: World, sid: string, kind: EdgeKind)
    requires var rights := SiteOf(w, false).shareRights; sid in rights && kind in rights[sid]
    ensures kind.OnShare?
  {
    hide Contribution, Subject;
    var aces := DaclAces(if w.shareDescriptor == [] then w.rootDescriptor else w.shareDescriptor);
    var i :| 0 <= i < |aces| && kind in Contribution(ShareLayer, aces[i]);
    ShareWorkers.ShareContribution(aces[i], kind);
  }

  /**
   * --effective-access-only is a projection of the full graph: for the same walk, whatever its timeout, rules and
   * listings, the nodes are the same and the edges are the full ones without those of the NTFS table.
   */
  lemma EffectiveOnlyProjects(w: World, bound: nat, loads: nat)
    requires WellFormed(w) && Bounded(w, bound)
    ensures var walk := WalkShare(w, bound, loads);
      var full, flagged := SentBy(w, false, walk), SentBy(w, true, walk);
      && flagged.nodes == full.nodes
      && flagged.edges == set edge | edge in full.edges && !Granular(edge)
  {
    hide WalkShare, SentBy, SiteOf, WellFormed, Bounded, PlaceEdges, RootEdges, IdOf, Granular, Places;
    var walk := WalkShare(w, bound, loads);
    var places := Places(walk.run.events);
    SentExact(w, bound, loads, false);
    SentExact(w, bound, loads, true);
    RootProjection(w);
    var site, flagged := SiteOf(w, false), SiteOf(w, true);
    NotFlagged(w);
    forall p | p in places
      ensures PlaceEdges(w, flagged, p) == set edge | edge in PlaceEdges(w, site, p) && !Granular(edge)
    {
      PlaceProjection(w, site, p);
    }
    ImageProjection(w, site, flagged, walk.root || places != {}, places);
  }

  lemma ImageProjection(w: World, site: Site, flagged: Site, root: bool, places: set<Place>)
    requires GoodPlaces(places) && RootEdges(flagged) == RootEdges(site) && flagged.host == site.host &&
      flagged.share == site.share
    requires forall edge :: edge in RootEdges(site) ==> !Granular(edge)
    requires forall p :: p in places ==>
      PlaceEdges(w, flagged, p) == set edge | edge in PlaceEdges(w, site, p) && !Granular(edge)
    ensures Image(w, flagged, root, places).nodes == Image(w, site, root, places).nodes
    ensures Image(w, flagged, root, places).edges == set edge | edge in Image(w, site, root, places).edges &&
      !Granular(edge)
  {
    hide PlaceEdges, RootEdges, IdOf, Granular, GoodNames;
    var a, b := Image(w, site, root, places), Image(w, flagged, root, places);
    forall edge ensures edge in b.edges <==> edge in a.edges && !Granular(edge) {
      if p :| p in places && edge in PlaceEdges(w, site, p) && !Granular(edge) {
        assert edge in PlaceEdges(w, flagged, p);
      }
    }
  }

  lemma NotFlagged(w: World)
    ensures !SiteOf(w, false).effectiveAccessOnly
    ensures SiteOf(w, true).host == SiteOf(w, false).host && SiteOf(w, true).share == SiteOf(w, false).share
  {
    hide RightsOf, DaclAces;
  }

  // ----- effective access -----

  /** The entry allows the SID the access. */
  predicate AceAllows(ace: Ace, sid: Sid, access: Access) {
    ace.IsAccessAllowed() && ace.sid == Some(sid) && Opens(ace.mask, access)
  }

  /** Some entry allows the SID the access. */
  predicate Allows(aces: seq<Ace>, sid: Sid, access: Access) {
    exists i :: 0 <= i < |aces| && AceAllows(aces[i], sid, access)
  }

  predicate WellFormedSids(aces: seq<Ace>) {
    forall ace :: ace in aces && ace.sid.Some? ==> ace.sid.value.WellFormed()
  }

  lemma OpensByKind(layer: Layer, aces: seq<Ace>, sid: Sid, access: Access)
    requires WellFormedSids(aces) && sid.WellFormed()
    ensures Allows(aces, sid, access) <==>
      exists kind :: kind in Opening(layer, access) && Granted(layer, aces, Text(sid), kind)
  {
    hide Text, Opens, KindsFor, Opening;
    if i :| 0 <= i < |aces| && aces[i].IsAccessAllowed() && aces[i].sid == Some(sid) && Opens(aces[i].mask, access) {
      OpeningBits(layer, aces[i].mask, access);
      var kind :| kind in KindsFor(layer, aces[i].mask) && kind in Opening(layer, access);
      assert Grants(layer, aces[i], Text(sid), kind);
      assert Granted(layer, aces, Text(sid), kind);
    }
    if kind :| kind in Opening(layer, access) && Granted(layer, aces, Text(sid), kind) {
      var i :| 0 <= i < |aces| && Grants(layer, aces[i], Text(sid), kind);
      assert aces[i] in aces;
      TextInjective(aces[i].sid.value, sid);
      OpeningBits(layer, aces[i].mask, access);
    }
  }

  /** The rights map of a DACL opens an access to a SID's text exactly if an entry allows it to the SID. */
  lemma OpensByRights(layer: Layer, aces: seq<Ace>, sid: Sid, access: Access)
    requires WellFormedSids(aces) && sid.WellFormed()
    ensures var rights := RightsOf(layer, aces);
      (Text(sid) in rights && rights[Text(sid)] * Opening(layer, access) != {}) <==> Allows(aces, sid, access)
  {
    hide Text, RightsOf, Opening, Granted, Allows, WellFormedSids;
    var rights := RightsOf(layer, aces);
    RightsRecord(layer, aces);
    OpensByKind(layer, aces, sid, access);
    if kind :| kind in Opening(layer, access) && Granted(layer, aces, Text(sid), kind) {
      assert kind in rights[Text(sid)] * Opening(layer, access);
    }
    if Text(sid) in rights && rights[Text(sid)] * Opening(layer, access) != {} {
      var kind :| kind in rights[Text(sid)] * Opening(layer, access);
      assert Granted(layer, aces, Text(sid), kind);
    }
  }

  function ShareAces(w: World): seq<Ace> {
    DaclAces(if w.shareDescriptor == [] then w.rootDescriptor else w.shareDescriptor)
  }

  function OwnAces(w: World, names: seq<string>): seq<Ace> {
    DaclAces(w.server.descriptor(FullPath(w.separator, names)))
  }

  function NearestAces(w: World, names: seq<string>): seq<Ace> {
    if names == [] || OwnRights(w, names) != map[] then OwnAces(w, names) else NearestAces(w, names[..|names| - 1])
  }

  /**
   * The DACL in force: a file's own unless it grants nothing to anyone, then that of the nearest ancestor that grants
   * something.
   */
  function AcesInForce(w: World, p: Place): seq<Ace>
    requires p.names != []
  {
    if !p.isDir && OwnRights(w, p.names) == map[] then NearestAces(w, Init(p.names)) else OwnAces(w, p.names)
  }

  lemma {:induction false} NearestAcesRights(w: World, names: seq<string>)
    ensures NearestRights(w, names) == RightsOf(NtfsLayer, NearestAces(w, names)) &&
      WellFormedSids(NearestAces(w, names))
  {
    hide RightsOf, DaclAces, FullPath;
    if names == [] || OwnRights(w, names) != map[] {
      DaclSidsWellFormed(w.server.descriptor(FullPath(w.separator, names)));
    } else {
      NearestAcesRights(w, names[..|names| - 1]);
    }
  }

  lemma AcesInForceRights(w: World, p: Place)
    requires p.names != []
    ensures RightsInForce(w, p.names, p.isDir) == RightsOf(NtfsLayer, AcesInForce(w, p)) &&
      WellFormedSids(AcesInForce(w, p))
  {
    hide RightsOf, DaclAces, FullPath, NearestAces, NearestRights;
    NearestAcesRights(w, Init(p.names));
    DaclSidsWellFormed(w.server.descriptor(FullPath(w.separator, p.names)));
  }

  /** The edge that tells a principal's effective access to a place. */
  function EffectiveEdge(w: World, p: Place, sid: Sid, access: Access): Edge
    requires p.names != []
  {
    NewEdge(Principal(Texts.Upper(w.domain), Text(sid)), NodeOf(w, p.names, p.isDir), CanEffective(access))
  }

  /** Every key of a rights map is the text of a well-formed SID. */
  lemma KeysAreTexts(layer: Layer, aces: seq<Ace>, key: string)
    requires WellFormedSids(aces) && key in RightsOf(layer, aces)
    ensures exists sid: Sid :: sid.WellFormed() && Text(sid) == key
  {
    hide Text, KindsFor;
    var i :| 0 <= i < |aces| && Contribution(layer, aces[i]) != {} && Subject(aces[i]) == key;
    assert aces[i] in aces && aces[i].sid.value.WellFormed();
  }

  /** At a place: the effective edge is among its edges exactly if both DACLs allow the access. */
  lemma PlaceEffective(w: World, effectiveAccessOnly: bool, p: Place, sid: Sid, access: Access)
    requires p.names != [] && sid.WellFormed()
    ensures EffectiveEdge(w, p, sid, access) in PlaceEdges(w, SiteOf(w, effectiveAccessOnly), p) <==>
      Allows(ShareAces(w), sid, access) && Allows(AcesInForce(w, p), sid, access)
  {
    hide RightsOf, Text, Principal, Opening, Allows, AcesInForce, DaclAces, WellFormedSids, RightsInForce, NodeOf;
    var site, rights := SiteOf(w, effectiveAccessOnly), RightsInForce(w, p.names, p.isDir);
    var node, edge := NodeOf(w, p.names, p.isDir), EffectiveEdge(w, p, sid, access);
    AcesInForceRights(w, p);
    DaclSids(w);
    OpensByRights(ShareLayer, ShareAces(w), sid, access);
    OpensByRights(NtfsLayer, AcesInForce(w, p), sid, access);
    InForceGranular(w, p.names, p.isDir);
    NotInRights(site.domainSuffix, node, rights, edge);
    assert edge in PlaceEdges(w, site, p) <==> edge in EffectiveEdges(site, node, rights);
    if edge in EffectiveEdges(site, node, rights) {
      var key, kind :| key in rights && kind in EffectiveKinds(site.shareRights, rights, key)
        && edge == NewEdge(Principal(site.domainSuffix, key), node, kind);
      KeysAreTexts(NtfsLayer, AcesInForce(w, p), key);
      var sid': Sid :| sid'.WellFormed() && Text(sid') == key;
      PrincipalInjective(site.domainSuffix, sid, sid');
    }
    assert CanEffective(access) in EffectiveKinds(site.shareRights, rights, Text(sid)) <==>
      Allows(ShareAces(w), sid, access) && Allows(AcesInForce(w, p), sid, access);
  }

  lemma NotInRights(domainSuffix: string, node: Node, rights: Rights, edge: Edge)
    requires edge.kind.CanEffective?
    requires forall sid, kind :: sid in rights && kind in rights[sid] ==> kind.OnNtfs?
    ensures edge !in RightsEdges(domainSuffix, node, rights)
  {
    hide Principal;
    forall e | e in RightsEdges(domainSuffix, node, rights) ensures e.kind.OnNtfs? {
      var sid, kind :| sid in rights && kind in rights[sid] && e == NewEdge(Principal(domainSuffix, sid), node, kind);
    }
  }

  lemma DaclSids(w: World)
    ensures WellFormedSids(ShareAces(w))
  {
    hide DaclAces;
    DaclSidsWellFormed(if w.shareDescriptor == [] then w.rootDescriptor else w.shareDescriptor);
  }

  lemma PlaceEdgesEnd(w: World, site: Site, p: Place, edge: Edge)
    requires p.names != [] && edge in PlaceEdges(w, site, p)
    ensures edge.end.value == IdOf(w, p) && edge.end.kind == Of(if p.isDir then Directory else File)
  {
    hide RightsInForce, Principal, ContentId, EffectiveKinds;
  }

  /**
   * Effective access, end to end: after any walk there is a CanEffective edge from a SID to a file or directory
   * exactly if the item was emitted and some allow entry for the SID in the share DACL, and some allow entry for
   * it in the DACL in force, each carry a bit for the access.
   */
  lemma EffectiveAccess(w: World, bound: nat, loads: nat, effectiveAccessOnly: bool, p: Place, sid: Sid, access: Access)
    requires WellFormed(w) && Bounded(w, bound) && p.Good() && sid.WellFormed()
    ensures var walk := WalkShare(w, bound, loads);
      EffectiveEdge(w, p, sid, access) in SentBy(w, effectiveAccessOnly, walk).edges <==>
        p in Places(walk.run.events) && Allows(ShareAces(w), sid, access) && Allows(AcesInForce(w, p), sid, access)
  {
    hide WalkShare, SentBy, SiteOf, WellFormed, Bounded, PlaceEdges, RootEdges, IdOf, Places, Allows, AcesInForce,
      ShareAces, GoodNames, Text, Principal;
    var walk, site, edge := WalkShare(w, bound, loads), SiteOf(w, effectiveAccessOnly),
      EffectiveEdge(w, p, sid, access);
    SentExact(w, bound, loads, effectiveAccessOnly);
    PlaceEffective(w, effectiveAccessOnly, p, sid, access);
    RootNotEffective(w, effectiveAccessOnly, edge);
    var places := Places(walk.run.events);
    if q :| q in places && edge in PlaceEdges(w, site, q) {
      PlaceEdgesEnd(w, site, q, edge);
      NodeId(w, p);
      IdInjective(w, p, q);
    }
  }

  lemma NodeId(w: World, p: Place)
    requires p.names != []
    ensures NodeOf(w, p.names, p.isDir).id == IdOf(w, p)
  {
  }

  lemma RootNotEffective(w: World, effectiveAccessOnly: bool, edge: Edge)
    requires edge.kind.CanEffective?
    ensures edge !in RootEdges(SiteOf(w, effectiveAccessOnly))
  {
    hide Principal, RightsOf, DaclAces;
    var site := SiteOf(w, effectiveAccessOnly);
    if edge in RightsEdges(site.domainSuffix, site.share, site.shareRights) {
      var sid, kind :| sid in site.shareRights && kind in site.shareRights[sid]
        && edge == NewEdge(Principal(site.domainSuffix, sid), site.share, kind);
      ShareKinds(w, sid, kind);
    }
  }

  /** An entry on the wire that allows the SID the access. */
  predicate WireAceAllows(ace: WireAce, sid: Sid, access: Access) {
    ace.PlainAce? && ace.aceType == ACCESS_ALLOWED_ACE_TYPE && ace.sid == sid && Opens(ace.mask, access)
  }

  /** The same in terms of the entries on the wire, for a DACL in any encoded descriptor. */
  lemma WireAllows(sd: WireDescriptor, order: seq<Part>, rest: Bytes, sid: Sid, access: Access)
    requires Encodable(sd, order)
    ensures Allows(DaclAces(EncodeDescriptor(sd, order) + rest), sid, access) <==>
      && sd.dacl.Some? && HasFlag(sd.control, SE_DACL_PRESENT)
      && exists ace :: ace in sd.dacl.value.aces && WireAceAllows(ace, sid, access)
  {
    hide EncodeDescriptor, EncodeAces, Opens, HasFlag, DescriptorAt, Standard, WireAceAllows;
    DescriptorRoundTrip(sd, order, rest);
    if sd.dacl.Some? && HasFlag(sd.control, SE_DACL_PRESENT) {
      WireAcesAllow(sd.dacl.value.aces, sid, access);
    }
  }

  lemma {:induction false} WireAcesAllow(aces: seq<WireAce>, sid: Sid, access: Access)
    requires forall ace :: ace in aces ==> ace.WellFormed()
    ensures Allows(SeenAces(aces), sid, access) <==> exists ace :: ace in aces && WireAceAllows(ace, sid, access)
  {
    if aces != [] {
      hide Opens, Allows, WireAceAllows;
      var first, rest := aces[0], aces[1..];
      WireAcesAllow(rest, sid, access);
      assert SeenAces(aces) == [first.Seen()] + SeenAces(rest);
      AllowsCons(first.Seen(), SeenAces(rest), sid, access);
      assert AceAllows(first.Seen(), sid, access) <==>
        WireAceAllows(first, sid, access) by { SeenAllows(first, sid, access); }
      assert forall ace :: ace in aces <==> ace == first || ace in rest;
    }
  }

  lemma SeenAllows(ace: WireAce, sid: Sid, access: Access)
    requires ace.WellFormed()
    ensures AceAllows(ace.Seen(), sid, access) <==> WireAceAllows(ace, sid, access)
  {
    hide Opens;
  }

  lemma AllowsCons(ace: Ace, aces: seq<Ace>, sid: Sid, access: Access)
    ensures Allows([ace] + aces, sid, access) <==> AceAllows(ace, sid, access) || Allows(aces, sid, access)
  {
    hide Opens;
    var all := [ace] + aces;
    assert all[0] == ace;
    assert forall i :: 0 <= i < |aces| ==> all[i + 1] == aces[i];
    if Allows(all, sid, access) {
      var i :| 0 <= i < |all| && AceAllows(all[i], sid, access);
      assert i > 0 ==> all[i] == aces[i - 1];
    }
  }

  /** An allow entry with a bit the NTFS table knows. */
  predicate WireGrants(ace: WireAce) {
    ace.PlainAce? && ace.aceType == ACCESS_ALLOWED_ACE_TYPE && KindsFor(NtfsLayer, ace.mask) != {}
  }

  lemma WireAceGrants(ace: WireAce)
    requires ace.WellFormed()
    ensures (exists sid, kind :: Grants(NtfsLayer, ace.Seen(), sid, kind)) <==> WireGrants(ace)
  {
    hide KindsFor, Text;
    if WireGrants(ace) {
      var kind :| kind in KindsFor(NtfsLayer, ace.mask);
      assert Grants(NtfsLayer, ace.Seen(), Text(ace.sid), kind);
    }
  }

  lemma {:induction false} WireAcesGrant(aces: seq<WireAce>)
    requires forall ace :: ace in aces ==> ace.WellFormed()
    ensures (exists sid, kind :: Granted(NtfsLayer, SeenAces(aces), sid, kind)) <==>
      exists ace :: ace in aces && WireGrants(ace)
  {
    if aces != [] {
      hide Granted, Grants, WireGrants;
      var first, rest := aces[0], aces[1..];
      WireAcesGrant(rest);
      WireAceGrants(first);
      assert SeenAces(aces) == [first.Seen()] + SeenAces(rest);
      forall sid, kind
        ensures Granted(NtfsLayer, SeenAces(aces), sid, kind) <==>
          Grants(NtfsLayer, first.Seen(), sid, kind) || Granted(NtfsLayer, SeenAces(rest), sid, kind)
      {
        GrantedCons(first.Seen(), SeenAces(rest), sid, kind);
      }
      assert forall ace :: ace in aces <==> ace == first || ace in rest;
    }
  }

  lemma GrantedCons(ace: Ace, aces: seq<Ace>, sid: string, kind: EdgeKind)
    ensures Granted(NtfsLayer, [ace] + aces, sid, kind) <==>
      Grants(NtfsLayer, ace, sid, kind) || Granted(NtfsLayer, aces, sid, kind)
  {
    hide Grants;
    var all := [ace] + aces;
    assert all[0] == ace;
    assert forall i :: 0 <= i < |aces| ==> all[i + 1] == aces[i];
    if Granted(NtfsLayer, all, sid, kind) {
      var i :| 0 <= i < |all| && Grants(NtfsLayer, all[i], sid, kind);
      assert i > 0 ==> all[i] == aces[i - 1];
    }
  }

  /**
    * A file whose descriptor can be read takes the rights of its nearest ancestor with rights exactly if its DACL
    * allows nobody anything; that it could be read makes no difference.
    */
  lemma ReadableFileInherits(w: World, names: seq<string>, sd: WireDescriptor, order: seq<Part>, rest: Bytes)
    requires names != [] && Encodable(sd, order)
    requires w.server.descriptor(FullPath(w.separator, names)) == EncodeDescriptor(sd, order) + rest
    ensures OwnRights(w, names) == map[] <==>
      !(sd.dacl.Some? && HasFlag(sd.control, SE_DACL_PRESENT) &&
        exists ace :: ace in sd.dacl.value.aces && WireGrants(ace))
    ensures OwnRights(w, names) == map[] ==> RightsInForce(w, names, false) == NearestRights(w, Init(names))
  {
    hide EncodeDescriptor, WireGrants, HasFlag, RightsOf, DaclAces;
    WireToRights(NtfsLayer, sd, order, rest);
    if sd.dacl.Some? { WireAcesGrant(sd.dacl.value.aces); }
    var rights := OwnRights(w, names);
    var aces := if sd.dacl.Some? && HasFlag(sd.control, SE_DACL_PRESENT) then SeenAces(sd.dacl.value.aces) else [];
    if sid, kind :| Granted(NtfsLayer, aces, sid, kind) {
      assert sid in rights;
    } else {
      assert rights.Keys == {};
    }
    assert forall sid, kind :: !Granted(NtfsLayer, [], sid, kind);
  }

  // ----- containment -----

  /** Following parents `steps` times. */
  function Climb(separator: char, id: string, steps: nat): string
    decreases steps
  {
    if steps == 0 then id else Climb(separator, ParentId(separator, id), steps - 1)
  }

  /** From a file or directory its directories come up one by one, and after path-length steps the share: no cycle. */
  lemma {:induction false} ClimbToShare(separator: char, host: string, share: string, names: seq<string>, isDir: bool,
                                        steps: nat)
    requires Separator(separator) && GoodName(host) && GoodName(share) && GoodNames(names) && 1 <= steps <= |names|
    ensures Climb(separator, ContentId(separator, host, share, names, isDir), steps) ==
      if steps == |names| then ShareId(host, share)
      else ContentId(separator, host, share, names[..|names| - steps], true)
  {
    hide ContentId, ParentId, ShareId, GoodName;
    ParentIdIs(separator, host, share, names, isDir);
    var parent := names[..|names| - 1];
    if steps > 1 {
      ClimbToShare(separator, host, share, parent, true, steps - 1);
      assert parent[..|parent| - (steps - 1)] == names[..|names| - steps];
    } else {
      assert steps == |names| <==> |names| == 1;
    }
  }

  /** The edge leads to the place from the directory or share that contains it. */
  predicate Contained(w: World, p: Place, edge: Edge) {
    p.Good() && edge.end.value == IdOf(w, p) && edge.start.value == ParentOf(w.separator, w.host, w.share, p.names)
  }

  /** The children of one parent, in the graph of one share: every Contains edge is one of these. */
  lemma ContainsEdges(w: World, bound: nat, loads: nat, effectiveAccessOnly: bool, edge: Edge)
    requires WellFormed(w) && Bounded(w, bound)
    requires edge in SentBy(w, effectiveAccessOnly, WalkShare(w, bound, loads)).edges && edge.kind == Contains
    ensures exists p :: p in Places(WalkShare(w, bound, loads).run.events) && Contained(w, p, edge)
  {
    hide WalkShare, SentBy, SiteOf, WellFormed, Bounded, PlaceEdges, RootEdges, IdOf, Places, ParentOf, GoodNames;
    SentExact(w, bound, loads, effectiveAccessOnly);
    var site, places := SiteOf(w, effectiveAccessOnly), Places(WalkShare(w, bound, loads).run.events);
    RootNotContains(w, effectiveAccessOnly, edge);
    var p :| p in places && edge in PlaceEdges(w, site, p);
    PlaceContains(w, effectiveAccessOnly, p, edge);
    assert Contained(w, p, edge);
  }

  lemma RootNotContains(w: World, effectiveAccessOnly: bool, edge: Edge)
    requires edge.kind == Contains
    ensures edge !in RootEdges(SiteOf(w, effectiveAccessOnly))
  {
    hide Principal, RightsOf, DaclAces;
    var site := SiteOf(w, effectiveAccessOnly);
    forall e | e in RightsEdges(site.domainSuffix, site.share, site.shareRights) ensures e.kind.OnShare? {
      var sid, kind :| sid in site.shareRights && kind in site.shareRights[sid]
        && e == NewEdge(Principal(site.domainSuffix, sid), site.share, kind);
      ShareKinds(w, sid, kind);
    }
  }

  lemma PlaceContains(w: World, effectiveAccessOnly: bool, p: Place, edge: Edge)
    requires p.names != [] && edge in PlaceEdges(w, SiteOf(w, effectiveAccessOnly), p) && edge.kind == Contains
    ensures edge.end.value == IdOf(w, p) && edge.start.value == ParentOf(w.separator, w.host, w.share, p.names)
  {
    hide RightsInForce, Principal, ContentId, RightsOf, DaclAces, ShareId;
    var site, entry := SiteOf(w, effectiveAccessOnly), EntryOf(w, p.names, p.isDir);
    InForceGranular(w, p.names, p.isDir);
    forall e | e in RightsEdges(site.domainSuffix, entry.node, entry.rights) ensures e.kind.OnNtfs? {
      var sid, kind :| sid in entry.rights && kind in entry.rights[sid]
        && e == NewEdge(Principal(site.domainSuffix, sid), entry.node, kind);
    }
    EffectiveKindsOnly(site, entry.node, entry.rights, edge);
    assert edge == ContainsEdge(ParentNodeOf(w, site, p.names), entry.node);
  }

  lemma EffectiveKindsOnly(site: Site, node: Node, rights: Rights, edge: Edge)
    requires edge.kind == Contains
    ensures edge !in EffectiveEdges(site, node, rights)
  {
    hide Principal, Opening;
  }
}
