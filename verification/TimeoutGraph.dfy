/** What a host timeout does to the graph: which edges are lost, and exactly when one is added. */
module TimeoutGraphs {
  import opened Common
  import opened Kinds
  import opened Paths
  import opened Sids
  import opened OpenGraphs
  import opened AccessMasks
  import opened RightsCollectors
  import opened Contexts
  import opened Traversal
  import opened Coverage
  import opened Emission
  import opened GraphTheorems
  import opened Timeouts
  import Contents

  // ----- the interrupted item -----

  /** The item whose rights were asked for when the sessions were closed, if there is one. */
  function InterruptedItem(walk: ShareWalk, strike: nat): Option<Event> {
    var events, asked := walk.run.events, walk.run.asked;
    if events != [] && LastRead(asked, events[|events| - 1].names) && strike < |asked|
    then Some(events[|events| - 1]) else None
  }

  /** A walk with a timer over c is an interrupted run of what would be met in w. */
  ghost predicate Struck(c: World, w: World, bound: nat, loads: nat, strike: nat) {
    && WellFormed(c) && Bounded(c, bound) && WellFormed(w) && Bounded(w, bound)
    && Interrupted(c, w, WalkShare(c, bound, loads).run.asked, strike)
  }

  ghost predicate SameRead(c: World, w: World, names: seq<string>) {
    SameAnswer(c, w, Reading(names))
  }

  /** The rights of the root and of all directories on the way are read as without the timer. */
  ghost predicate SameAbove(c: World, w: World, dirs: seq<string>) {
    forall k :: 0 <= k <= |dirs| ==> SameRead(c, w, dirs[..k])
  }

  lemma EarlySame(c: World, w: World, asked: seq<Asked>, strike: nat, names: seq<string>)
    requires Interrupted(c, w, asked, strike) && ReadEarly(c, asked, names)
    ensures SameRead(c, w, names)
  {
    hide SameAnswer, NoAnswer, SameSettings, Fired;
    var k :| 0 <= k < |asked| && asked[k].call == Reading(names) && !Fired(c, asked[k].loads);
    assert k < strike;
  }

  /** The walk over the contents has begun, so everything asked before it has been answered. */
  lemma WalkRead(c: World, w: World, bound: nat, loads: nat, strike: nat)
    requires Struck(c, w, bound, loads, strike)
    ensures var walk := WalkShare(c, bound, loads);
      && Tracked(c, [], walk.run)
      && (walk.run.events != [] ==> ReadEarly(c, walk.run.asked, []) && SiteSame(c, w))
      && (walk.root ==> SiteCut(c, w))
  {
    hide Explore, WellFormed, Bounded, MayExplore, MayProcess, ReadEarly, Tracked, SiteSame, SiteCut, Interrupted;
    var walk, context := WalkShare(c, bound, loads), FreshContext(c);
    if !Fired(c, loads) && MayExplore(c, context) && !Fired(c, loads + 1) && c.connect && !Fired(c, loads + 2) &&
      c.mountShare {
      var run := Explore(c, bound, [], loads + 3, context);
      var opening := [Asked(Connecting, loads + 2)] + [Asked(MountingShare, loads + 3)];
      assert walk.run.asked == opening + ContextCalls(c, loads + 3) + run.asked;
      ExploreRead(c, bound, [], loads + 3, context);
      TrackedMore(c, opening + ContextCalls(c, loads + 3), run);
      ContextRead(c, w, opening, run.asked, loads + 3, strike);
      if Fired(c, loads + 3) {
        Contents.ExploreCases(c, bound, [], loads + 3, context);
      }
    } else {
      NothingRead(c, walk.run);
    }
  }

  lemma NothingRead(c: World, run: Run)
    requires run.events == []
    ensures Tracked(c, [], run)
  {
  }

  lemma TrackedMore(c: World, before: seq<Asked>, run: Run)
    requires Tracked(c, [], run)
    ensures Tracked(c, [], run.(asked := before + run.asked))
  {
    hide ReadEarly, Fired;
    forall names | ReadEarly(c, run.asked, names) ensures ReadEarly(c, before + run.asked, names) {
      EarlyMore(c, before, run.asked, [], names);
      assert before + run.asked + [] == before + run.asked;
    }
  }

  /** The context of the share is the one without the timer, or has lost its share rights. */
  ghost predicate SiteSame(c: World, w: World) {
    forall flag :: SiteOf(c, flag) == SiteOf(w, flag)
  }

  ghost predicate SiteCut(c: World, w: World) {
    forall flag :: SiteOf(c, flag) == SiteOf(w, flag) || SiteOf(c, flag) == SiteOf(w, flag).(shareRights := map[])
  }

  lemma ContextRead(c: World, w: World, opening: seq<Asked>, rest: seq<Asked>, loads: nat, strike: nat)
    requires |opening| == 2 && Interrupted(c, w, opening + ContextCalls(c, loads) + rest, strike)
    ensures SiteCut(c, w)
    ensures !Fired(c, loads) ==> SiteSame(c, w) && ReadEarly(c, opening + ContextCalls(c, loads) + rest, [])
  {
    hide RightsOf;
    var asked := opening + ContextCalls(c, loads) + rest;
    assert asked[2] == Asked(ReadingShare, loads);
    if c.shareDescriptor == [] {
      assert asked[3] == Asked(ReadingRoot, loads);
      assert asked[4] == Asked(Reading([]), loads);
    } else {
      assert asked[3] == Asked(Reading([]), loads);
    }
    NoRights();
  }

  lemma NoRights()
    ensures RightsOf(ShareLayer, DaclAces([])) == map[]
  {
    assert DaclAces([]) == [];
  }

  /**
   * Every item's rights and those of all directories above are read as without the timer, but for the interrupted
   * item's.
   */
  lemma Answered(c: World, w: World, bound: nat, loads: nat, strike: nat, e: Event)
    requires Struck(c, w, bound, loads, strike) && e in WalkShare(c, bound, loads).run.events
    ensures e.names != [] && SameAbove(c, w, Init(e.names)) && SiteSame(c, w)
    ensures SameRead(c, w, e.names) || InterruptedItem(WalkShare(c, bound, loads), strike) == Some(e)
  {
    hide WalkShare, WellFormed, Bounded, ReadEarly, SiteSame, SiteCut, SameRead, Interrupted, GoodNames;
    var walk := WalkShare(c, bound, loads);
    var events, asked := walk.run.events, walk.run.asked;
    WalkRead(c, w, bound, loads, strike);
    WalkShape(c, bound, loads);
    var i :| 0 <= i < |events| && events[i] == e;
    forall k | 0 <= k <= |Init(e.names)| ensures SameRead(c, w, Init(e.names)[..k]) {
      assert Init(e.names)[..k] == e.names[..k];
      assert ReadEarly(c, asked, events[i].names[..k]);
      EarlySame(c, w, asked, strike, e.names[..k]);
    }
    if ReadEarly(c, asked, e.names) {
      EarlySame(c, w, asked, strike, e.names);
    } else {
      assert i == |events| - 1 && LastRead(asked, e.names);
      if |asked| <= strike {
        LastSame(c, w, asked, strike, e.names);
      }
    }
  }

  lemma LastSame(c: World, w: World, asked: seq<Asked>, strike: nat, names: seq<string>)
    requires Interrupted(c, w, asked, strike) && LastRead(asked, names) && |asked| <= strike
    ensures SameRead(c, w, names)
  {
    hide SameAnswer, NoAnswer, SameSettings, Fired;
  }

  lemma InterruptedUnread(c: World, w: World, bound: nat, loads: nat, strike: nat)
    requires Struck(c, w, bound, loads, strike)
    ensures var item := InterruptedItem(WalkShare(c, bound, loads), strike); item.Some? ==>
      && item.value in WalkShare(c, bound, loads).run.events
      && c.server.descriptor(FullPath(c.separator, item.value.names)) == []
  {
    hide WalkShare, SameAnswer, SameSettings, Fired, WellFormed, Bounded;
    var asked := WalkShare(c, bound, loads).run.asked;
    assert asked != [] && strike < |asked| ==> NoAnswer(c, asked[|asked| - 1].call);
  }

  // ----- rights and edges of one place -----

  lemma {:induction false} NearestSame(c: World, w: World, dirs: seq<string>)
    requires SameSettings(c, w) && SameAbove(c, w, dirs)
    ensures NearestRights(c, dirs) == NearestRights(w, dirs)
  {
    hide RightsOf, DaclAces, SameSettings, FullPath;
    assert dirs[..|dirs|] == dirs && SameRead(c, w, dirs[..|dirs|]);
    if dirs != [] {
      var up := dirs[..|dirs| - 1];
      forall k | 0 <= k <= |up| ensures SameRead(c, w, up[..k]) {
        assert up[..k] == dirs[..k];
      }
      NearestSame(c, w, up);
    }
  }

  lemma UnreadRights(c: World, names: seq<string>)
    requires c.server.descriptor(FullPath(c.separator, names)) == []
    ensures OwnRights(c, names) == map[]
  {
    assert DaclAces([]) == [];
  }

  /** The rights in force at a place, with and without the timer. */
  lemma ForceCut(c: World, w: World, p: Place)
    requires SameSettings(c, w) && p.names != [] && SameAbove(c, w, Init(p.names))
    ensures SameRead(c, w, p.names) ==> RightsInForce(c, p.names, p.isDir) == RightsInForce(w, p.names, p.isDir)
    ensures c.server.descriptor(FullPath(c.separator, p.names)) == [] ==>
      RightsInForce(c, p.names, p.isDir) == if p.isDir then map[] else NearestRights(w, Init(p.names))
  {
    hide RightsOf, DaclAces, SameSettings, FullPath, SameAbove, NearestRights;
    NearestSame(c, w, Init(p.names));
    if c.server.descriptor(FullPath(c.separator, p.names)) == [] {
      UnreadRights(c, p.names);
    }
  }

  lemma PlaceFixed(c: World, w: World, site: Site, p: Place)
    requires SameSettings(c, w) && p.names != []
    ensures IdOf(c, p) == IdOf(w, p) && ParentNodeOf(c, site, p.names) == ParentNodeOf(w, site, p.names)
    ensures NodeOf(c, p.names, p.isDir) == NodeOf(w, p.names, p.isDir) && PlaceRecord(c, p) == PlaceRecord(w, p)
  {
    hide ContentId;
  }

  lemma RootFixed(c: World, w: World)
    requires SameSettings(c, w)
    ensures HostRecord(c) == HostRecord(w) && ShareRecord(c) == ShareRecord(w)
  {
  }

  /** A rights edge into the file whose reading was interrupted. */
  ghost predicate Added(w: World, walk: ShareWalk, strike: nat, edge: Edge) {
    var item := InterruptedItem(walk, strike);
    && item.Some? && item.value.names != [] && !item.value.isDir && item.value.processed
    && edge.end.value == IdOf(w, Place(item.value.names, false)) && (Granular(edge) || edge.kind.CanEffective?)
  }

  /** A place the interrupted run has emitted, and where its rights come from. */
  lemma PlaceCut(c: World, w: World, bound: nat, loads: nat, strike: nat, p: Place)
    requires Struck(c, w, bound, loads, strike) && p in Places(WalkShare(c, bound, loads).run.events)
    ensures p.names != [] && SameAbove(c, w, Init(p.names)) && SiteSame(c, w)
    ensures SameRead(c, w, p.names) || exists e ::
      InterruptedItem(WalkShare(c, bound, loads), strike) == Some(e) && e.processed && p == Place(e.names, e.isDir)
  {
    hide WalkShare, SameRead, SiteSame, Interrupted, WellFormed, Bounded, InterruptedItem;
    var e :| e in WalkShare(c, bound, loads).run.events && p in PlacesOf(e);
    Answered(c, w, bound, loads, strike, e);
    if p != Place(e.names, e.isDir) {
      var dirs := Init(e.names);
      var j :| 1 <= j <= |dirs| && p == Place(dirs[..j], true);
      assert SameRead(c, w, dirs[..j]);
      forall k | 0 <= k <= |Init(p.names)| ensures SameRead(c, w, Init(p.names)[..k]) {
        assert Init(p.names)[..k] == dirs[..k];
      }
    }
  }

  // ----- the two graphs -----

  lemma PlacesGrow(some: seq<Event>, all: seq<Event>)
    requires some <= all
    ensures Places(some) <= Places(all)
  {
    hide PlacesOf;
    assert forall e :: e in some ==> e in all;
  }

  /** What the interrupted run has emitted, the undisturbed one emits. */
  lemma PlacesCut(c: World, w: World, bound: nat, loads: nat, strike: nat)
    requires Struck(c, w, bound, loads, strike)
    ensures var cut, full := WalkShare(c, bound, loads), WalkShare(w, bound, loads);
      && SameSettings(c, w)
      && (cut.root ==> full.root && SiteCut(c, w))
      && GoodPlaces(Places(full.run.events)) && Places(cut.run.events) <= Places(full.run.events)
  {
    hide WalkShare, WellFormed, Bounded, SameSettings, SiteCut, SiteSame, Places, SameAnswer, NoAnswer, Fired, Tracked,
      ReadEarly;
    InterruptedCalm(c, w, WalkShare(c, bound, loads).run.asked, strike);
    WalkCut(c, w, bound, loads);
    WalkRead(c, w, bound, loads, strike);
    PlacesGrow(WalkShare(c, bound, loads).run.events, WalkShare(w, bound, loads).run.events);
    SentExact(w, bound, loads, false);
  }

  /** An edge of a graph is a root edge or one of a place. */
  lemma InSent(w: World, bound: nat, loads: nat, effectiveAccessOnly: bool)
    requires WellFormed(w) && Bounded(w, bound)
    ensures var walk := WalkShare(w, bound, loads); var places := Places(walk.run.events);
      var sent, site := SentBy(w, effectiveAccessOnly, walk), SiteOf(w, effectiveAccessOnly);
      && (forall p :: p in places ==> p.Good())
      && (forall id :: id in sent.nodes <==>
            ((walk.root || places != {}) && (id == site.host.id || id == site.share.id)) ||
              exists p :: p in places && id == IdOf(w, p))
      && (forall record :: record in sent.records <==>
            ((walk.root || places != {}) && (record == HostRecord(w) || record == ShareRecord(w))) ||
              exists p :: p in places && p.names != [] && record == PlaceRecord(w, p))
      && (forall edge :: edge in sent.edges <==>
            ((walk.root || places != {}) && edge in RootEdges(site))
            || exists p :: p in places && p.names != [] && edge in PlaceEdges(w, site, p))
  {
    hide *;
    SentExact(w, bound, loads, effectiveAccessOnly);
    var walk := WalkShare(w, bound, loads);
    var places := Places(walk.run.events);
    InImage(w, SiteOf(w, effectiveAccessOnly), walk.root || places != {}, places);
    RecordsInImage(w, effectiveAccessOnly, walk.root || places != {}, places);
    GoodEach(places);
  }

  lemma RootCut(site: Site, other: Site)
    requires other == site || other == site.(shareRights := map[])
    ensures RootEdges(other) <= RootEdges(site)
  {
    hide Principal;
  }

  /** The edges of one place: those of the undisturbed run, or rights edges of the interrupted file. */
  lemma PlaceEdgesCut(c: World, w: World, bound: nat, loads: nat, strike: nat, effectiveAccessOnly: bool, p: Place,
                      edge: Edge)
    requires Struck(c, w, bound, loads, strike) && p in Places(WalkShare(c, bound, loads).run.events) && p.names != []
    requires edge in PlaceEdges(c, SiteOf(c, effectiveAccessOnly), p)
    ensures edge in PlaceEdges(w, SiteOf(w, effectiveAccessOnly), p) ||
      Added(w, WalkShare(c, bound, loads), strike, edge)
  {
    hide WalkShare, WellFormed, Bounded, SiteOf, Places, InterruptedItem, SameAnswer, NoAnswer, Fired, SameAbove,
      SameRead,
      RightsInForce, NearestRights, SameSettings, ContentId;
    var site := SiteOf(w, effectiveAccessOnly);
    PlaceCut(c, w, bound, loads, strike, p);
    ForceCut(c, w, p);
    PlaceFixed(c, w, site, p);
    if !SameRead(c, w, p.names) {
      InterruptedUnread(c, w, bound, loads, strike);
      var entry := EntryOf(c, p.names, p.isDir);
      if p.isDir {
        NoRightsNoEdges(site, entry.node);
      }
      if edge in RightsEdges(site.domainSuffix, entry.node, entry.rights) ||
        edge in EffectiveEdges(site, entry.node, entry.rights) {
        InForceGranular(c, p.names, p.isDir);
        RightsKinds(site, entry, edge);
      }
    }
  }

  lemma NoRightsNoEdges(site: Site, node: Node)
    ensures RightsEdges(site.domainSuffix, node, map[]) == {} && EffectiveEdges(site, node, map[]) == {}
  {
  }

  lemma RightsKinds(site: Site, entry: Entry, edge: Edge)
    requires edge in RightsEdges(site.domainSuffix, entry.node, entry.rights) ||
      edge in EffectiveEdges(site, entry.node, entry.rights)
    requires forall sid, kind :: sid in entry.rights && kind in entry.rights[sid] ==> kind.OnNtfs?
    ensures (Granular(edge) || edge.kind.CanEffective?) && edge.end.value == entry.node.id
  {
    hide Principal, Opening;
  }

  /**
   * A timeout loses nodes, and it loses edges; it adds no node, and no edge but rights edges into the one file whose
   * reading it interrupted. So containment, share and host edges, share rights, and everything about any other file or
   * directory, are those of the undisturbed run.
   */
  lemma KeepsStructure(c: World, w: World, bound: nat, loads: nat, strike: nat, effectiveAccessOnly: bool)
    requires Struck(c, w, bound, loads, strike)
    ensures var cut, full := WalkShare(c, bound, loads), WalkShare(w, bound, loads);
      && cut.run.events <= full.run.events
      && SentBy(c, effectiveAccessOnly, cut).records <= SentBy(w, effectiveAccessOnly, full).records
      && SentBy(c, effectiveAccessOnly, cut).nodes <= SentBy(w, effectiveAccessOnly, full).nodes
      && forall edge :: edge in SentBy(c, effectiveAccessOnly, cut).edges ==>
           edge in SentBy(w, effectiveAccessOnly, full).edges || Added(w, cut, strike, edge)
  {
    hide PlaceRecord, HostRecord, ShareRecord;
    hide WalkShare, WellFormed, Bounded, SentBy, Places, RootEdges, PlaceEdges, IdOf, Added, GoodPlaces, SiteOf,
      SameAnswer,
      NoAnswer, Fired, SameSettings;
    var cut, full := WalkShare(c, bound, loads), WalkShare(w, bound, loads);
    InterruptedCalm(c, w, cut.run.asked, strike);
    WalkCut(c, w, bound, loads);
    PlacesCut(c, w, bound, loads, strike);
    InSent(c, bound, loads, effectiveAccessOnly);
    InSent(w, bound, loads, effectiveAccessOnly);
    var other, site := SiteOf(c, effectiveAccessOnly), SiteOf(w, effectiveAccessOnly);
    RootFixed(c, w);
    forall p | p in Places(cut.run.events)
      ensures IdOf(c, p) == IdOf(w, p) && SiteSame(c, w) && p.names != [] && PlaceRecord(c, p) == PlaceRecord(w, p)
    {
      PlaceCut(c, w, bound, loads, strike, p);
      PlaceFixed(c, w, site, p);
    }
    if cut.root || Places(cut.run.events) != {} {
      RootCut(site, other);
    }
    forall edge | edge in SentBy(c, effectiveAccessOnly, cut).edges
      ensures edge in SentBy(w, effectiveAccessOnly, full).edges || Added(w, cut, strike, edge)
    {
      if p :| p in Places(cut.run.events) && p.names != [] && edge in PlaceEdges(c, other, p) {
        PlaceEdgesCut(c, w, bound, loads, strike, effectiveAccessOnly, p, edge);
      }
    }
  }

  // ----- exactly when nothing is added -----

  /** The inherited rights open nothing that the own ones do not, at the NTFS and at the effective level. */
  ghost predicate AddsNothing(site: Site, inherited: Rights, own: Rights) {
    && (!site.effectiveAccessOnly ==>
          forall sid, kind :: sid in inherited && kind in inherited[sid] ==> sid in own && kind in own[sid])
    && forall sid, kind :: sid in inherited && kind in EffectiveKinds(site.shareRights, inherited, sid) ==>
         kind in EffectiveKinds(site.shareRights, own, sid)
  }

  /** The keys are texts of SIDs, the kinds those of the NTFS table. */
  ghost predicate Proper(rights: Rights) {
    && (forall sid :: sid in rights ==> IsSidText(sid))
    && forall sid, kind :: sid in rights && kind in rights[sid] ==> kind.OnNtfs?
  }

  ghost predicate IsSidText(text: string) {
    exists sid: Sid :: sid.WellFormed() && Text(sid) == text
  }

  lemma ProperRights(w: World, p: Place)
    requires p.names != []
    ensures Proper(NearestRights(w, Init(p.names))) && Proper(RightsInForce(w, p.names, p.isDir))
  {
    hide RightsOf, NearestRights, RightsInForce, Text;
    NearestAcesRights(w, Init(p.names));
    AcesInForceRights(w, p);
    NearestGranular(w, Init(p.names));
    InForceGranular(w, p.names, p.isDir);
    forall sid | sid in NearestRights(w, Init(p.names)) ensures IsSidText(sid) {
      KeysAreTexts(NtfsLayer, NearestAces(w, Init(p.names)), sid);
    }
    forall sid | sid in RightsInForce(w, p.names, p.isDir) ensures IsSidText(sid) {
      KeysAreTexts(NtfsLayer, AcesInForce(w, p), sid);
    }
  }

  lemma SameKey(domainSuffix: string, a: string, b: string)
    requires IsSidText(a) && IsSidText(b) && Principal(domainSuffix, a) == Principal(domainSuffix, b)
    ensures a == b
  {
    hide Text, Principal;
    var s: Sid :| s.WellFormed() && Text(s) == a;
    var t: Sid :| t.WellFormed() && Text(t) == b;
    PrincipalInjective(domainSuffix, s, t);
  }

  /** A rights edge tells its SID and its kind. */
  lemma RightsEdgeIs(site: Site, parent: Node, entry: Entry, sid: string, kind: EdgeKind)
    requires Proper(entry.rights) && IsSidText(sid)
    ensures kind.OnNtfs? ==>
      (NewEdge(Principal(site.domainSuffix, sid), entry.node, kind) in OwnEdges(site, parent, entry) <==>
        !site.effectiveAccessOnly && sid in entry.rights && kind in entry.rights[sid])
    ensures kind.CanEffective? ==>
      (NewEdge(Principal(site.domainSuffix, sid), entry.node, kind) in OwnEdges(site, parent, entry) <==>
        kind in EffectiveKinds(site.shareRights, entry.rights, sid))
  {
    hide Principal, EffectiveKinds, IsSidText;
    var edge := NewEdge(Principal(site.domainSuffix, sid), entry.node, kind);
    if edge in RightsEdges(site.domainSuffix, entry.node, entry.rights) {
      var key, k :| key in entry.rights && k in entry.rights[key]
        && edge == NewEdge(Principal(site.domainSuffix, key), entry.node, k);
      SameKey(site.domainSuffix, key, sid);
    }
    if edge in EffectiveEdges(site, entry.node, entry.rights) {
      var key, k :| key in entry.rights && k in EffectiveKinds(site.shareRights, entry.rights, key)
        && edge == NewEdge(Principal(site.domainSuffix, key), entry.node, k);
      SameKey(site.domainSuffix, key, sid);
      EffectiveOnly(site, entry.rights, key, k);
    }
    if kind in EffectiveKinds(site.shareRights, entry.rights, sid) {
      EffectiveOnly(site, entry.rights, sid, kind);
    }
  }

  lemma EffectiveOnly(site: Site, rights: Rights, sid: string, kind: EdgeKind)
    requires kind in EffectiveKinds(site.shareRights, rights, sid)
    ensures kind.CanEffective? && sid in rights
  {
  }

  /** A rights edge is among the edges made of some rights exactly if these hold it. */
  ghost predicate Tells(site: Site, node: Node, inherited: Rights, own: Rights, some: set<Edge>, all: set<Edge>,
                        sid: string, kind: EdgeKind)
    requires sid in inherited
  {
    var edge := NewEdge(Principal(site.domainSuffix, sid), node, kind);
    && (kind.OnNtfs? ==> (edge in some <==> !site.effectiveAccessOnly && kind in inherited[sid]))
    && (kind.OnNtfs? ==> (edge in all <==> !site.effectiveAccessOnly && sid in own && kind in own[sid]))
    && (kind.CanEffective? ==> (edge in some <==> kind in EffectiveKinds(site.shareRights, inherited, sid)))
    && (kind.CanEffective? ==> (edge in all <==> kind in EffectiveKinds(site.shareRights, own, sid)))
  }

  lemma WithinIff(site: Site, parent: Node, node: Node, inherited: Rights, own: Rights)
    requires Proper(inherited) && Proper(own)
    ensures (OwnEdges(site, parent, Entry(node, inherited)) <= OwnEdges(site, parent, Entry(node, own))) <==>
      AddsNothing(site, inherited, own)
  {
    hide Principal, EffectiveKinds, IsSidText, OwnEdges;
    var some, all := OwnEdges(site, parent, Entry(node, inherited)), OwnEdges(site, parent, Entry(node, own));
    forall sid, kind | sid in inherited
      ensures Tells(site, node, inherited, own, some, all, sid, kind)
    {
      RightsEdgeIs(site, parent, Entry(node, inherited), sid, kind);
      RightsEdgeIs(site, parent, Entry(node, own), sid, kind);
    }
    forall sid, kind | sid in inherited && kind in EffectiveKinds(site.shareRights, inherited, sid)
      ensures kind.CanEffective? {
      EffectiveOnly(site, inherited, sid, kind);
    }
    if some <= all {
      WithinAdds(site, node, inherited, own, some, all);
    }
    if AddsNothing(site, inherited, own) {
      forall edge | edge in some ensures edge in all {
        OwnEdgeCases(site, parent, Entry(node, inherited), Entry(node, own), edge);
      }
    }
  }

  lemma WithinAdds(site: Site, node: Node, inherited: Rights, own: Rights, some: set<Edge>, all: set<Edge>)
    requires some <= all && Proper(inherited)
    requires forall sid, kind :: sid in inherited ==> Tells(site, node, inherited, own, some, all, sid, kind)
    requires forall sid, kind :: sid in inherited && kind in EffectiveKinds(site.shareRights, inherited, sid) ==>
      kind.CanEffective?
    ensures AddsNothing(site, inherited, own)
  {
    hide Principal, EffectiveKinds, IsSidText;
    forall sid, kind | sid in inherited && kind in inherited[sid] && !site.effectiveAccessOnly
      ensures sid in own && kind in own[sid]
    {
      assert Tells(site, node, inherited, own, some, all, sid, kind);
      assert NewEdge(Principal(site.domainSuffix, sid), node, kind) in some;
    }
    forall sid, kind | sid in inherited && kind in EffectiveKinds(site.shareRights, inherited, sid)
      ensures kind in EffectiveKinds(site.shareRights, own, sid)
    {
      assert Tells(site, node, inherited, own, some, all, sid, kind);
      assert NewEdge(Principal(site.domainSuffix, sid), node, kind) in some;
    }
  }

  lemma OwnEdgeCases(site: Site, parent: Node, inherited: Entry, own: Entry, edge: Edge)
    requires inherited.node == own.node && AddsNothing(site, inherited.rights, own.rights)
    requires edge in OwnEdges(site, parent, inherited)
    ensures edge in OwnEdges(site, parent, own)
  {
    hide Principal, EffectiveKinds;
    if edge in EffectiveEdges(site, inherited.node, inherited.rights) {
      var sid, kind :| sid in inherited.rights && kind in EffectiveKinds(site.shareRights, inherited.rights, sid)
        && edge == NewEdge(Principal(site.domainSuffix, sid), inherited.node, kind);
      EffectiveOnly(site, own.rights, sid, kind);
    }
  }

  /** With the interrupted item no problem, no place has more edges than without the timer. */
  lemma PlaceWithin(c: World, w: World, bound: nat, loads: nat, strike: nat, effectiveAccessOnly: bool, p: Place)
    requires Struck(c, w, bound, loads, strike) && p in Places(WalkShare(c, bound, loads).run.events) && p.names != []
    requires Harmless(w, effectiveAccessOnly, InterruptedItem(WalkShare(c, bound, loads), strike))
    ensures PlaceEdges(c, SiteOf(c, effectiveAccessOnly), p) <= PlaceEdges(w, SiteOf(w, effectiveAccessOnly), p)
  {
    hide WalkShare, WellFormed, Bounded, SiteOf, Places, InterruptedItem, SameAnswer, NoAnswer, Fired, SameAbove,
      SameRead,
      RightsInForce, NearestRights, SameSettings, ContentId, AddsNothing, OwnEdges;
    var site := SiteOf(w, effectiveAccessOnly);
    PlaceCut(c, w, bound, loads, strike, p);
    ForceCut(c, w, p);
    PlaceFixed(c, w, site, p);
    if !SameRead(c, w, p.names) {
      InterruptedUnread(c, w, bound, loads, strike);
      var node := NodeOf(w, p.names, p.isDir);
      if p.isDir {
        NoRightsWithin(site, ParentNodeOf(w, site, p.names), node, RightsInForce(w, p.names, true));
      } else {
        ProperRights(w, p);
        WithinIff(site, ParentNodeOf(w, site, p.names), node, NearestRights(w, Init(p.names)),
          RightsInForce(w, p.names, false));
      }
    }
  }

  lemma NoRightsWithin(site: Site, parent: Node, node: Node, rights: Rights)
    ensures OwnEdges(site, parent, Entry(node, map[])) <= OwnEdges(site, parent, Entry(node, rights))
  {
    NoRightsNoEdges(site, node);
  }

  /** The interrupted item is no processed file, or what it inherits adds nothing to its own rights. */
  ghost predicate Harmless(w: World, effectiveAccessOnly: bool, item: Option<Event>) {
    item.Some? ==>
      || item.value.names == [] || item.value.isDir || !item.value.processed
      || AddsNothing(SiteOf(w, effectiveAccessOnly), NearestRights(w, Init(item.value.names)),
                     RightsInForce(w, item.value.names, false))
  }

  /** The file that inherits too much has an edge that the undisturbed run has nowhere. */
  lemma HarmAdds(c: World, w: World, bound: nat, loads: nat, strike: nat, effectiveAccessOnly: bool)
    returns (edge: Edge)
    requires Struck(c, w, bound, loads, strike)
    requires !Harmless(w, effectiveAccessOnly, InterruptedItem(WalkShare(c, bound, loads), strike))
    ensures edge in SentBy(c, effectiveAccessOnly, WalkShare(c, bound, loads)).edges
    ensures edge !in SentBy(w, effectiveAccessOnly, WalkShare(w, bound, loads)).edges
  {
    hide WalkShare, WellFormed, Bounded, SentBy, SiteOf, Places, InterruptedItem, SameAnswer, NoAnswer, Fired,
      SameAbove, SameRead,
      RightsInForce, NearestRights, SameSettings, ContentId, AddsNothing, OwnEdges, RootEdges, SiteCut, IdOf,
        GoodPlaces;
    var item := InterruptedItem(WalkShare(c, bound, loads), strike);
    var p, site := Place(item.value.names, false), SiteOf(w, effectiveAccessOnly);
    InterruptedUnread(c, w, bound, loads, strike);
    Answered(c, w, bound, loads, strike, item.value);
    PlacesCut(c, w, bound, loads, strike);
    assert p in PlacesOf(item.value) && p in Places(WalkShare(c, bound, loads).run.events) by {
      PlaceIn(WalkShare(c, bound, loads).run.events, item.value);
    }
    ForceCut(c, w, p);
    PlaceFixed(c, w, site, p);
    ProperRights(w, p);
    var node, parent := NodeOf(w, p.names, false), ParentNodeOf(w, site, p.names);
    WithinIff(site, parent, node, NearestRights(w, Init(p.names)), RightsInForce(w, p.names, false));
    assert !(PlaceEdges(c, site, p) <= PlaceEdges(w, site, p));
    edge :| edge in PlaceEdges(c, site, p) && edge !in PlaceEdges(w, site, p);
    InSent(c, bound, loads, effectiveAccessOnly);
    InSent(w, bound, loads, effectiveAccessOnly);
    PlaceEdgesCut(c, w, bound, loads, strike, effectiveAccessOnly, p, edge);
    RootHasNone(w, effectiveAccessOnly, edge);
    if q :| q in Places(WalkShare(w, bound, loads).run.events) && q.names != [] && edge in PlaceEdges(w, site, q) {
      PlaceEdgesEnd(w, site, q, edge);
      PlaceEdgesEnd(c, site, p, edge);
      IdInjective(w, p, q);
    }
  }

  lemma PlaceIn(events: seq<Event>, e: Event)
    requires e in events && e.processed && e.names != []
    ensures Place(e.names, e.isDir) in PlacesOf(e) && Place(e.names, e.isDir) in Places(events)
  {
    hide Ancestors;
    assert Place(e.names, e.isDir) in PlacesOf(e);
  }

  lemma RootHasNone(w: World, effectiveAccessOnly: bool, edge: Edge)
    requires Granular(edge) || edge.kind.CanEffective?
    ensures edge !in RootEdges(SiteOf(w, effectiveAccessOnly))
  {
    hide RootEdges, SiteOf;
    RootProjection(w);
    if edge.kind.CanEffective? {
      RootNotEffective(w, effectiveAccessOnly, edge);
    }
  }

  /**
   * A timeout only loses edges exactly if the item whose reading it interrupts is harmless: no processed file, or a
   * file whose own rights, at the NTFS and the effective level, include what it inherits when it cannot be read.
   */
  lemma LosesOnlyIff(c: World, w: World, bound: nat, loads: nat, strike: nat, effectiveAccessOnly: bool)
    requires Struck(c, w, bound, loads, strike)
    ensures var cut, full := WalkShare(c, bound, loads), WalkShare(w, bound, loads);
      (SentBy(c, effectiveAccessOnly, cut).edges <= SentBy(w, effectiveAccessOnly, full).edges) <==>
        Harmless(w, effectiveAccessOnly, InterruptedItem(cut, strike))
  {
    hide WalkShare, WellFormed, Bounded, SentBy, Places, RootEdges, PlaceEdges, IdOf, GoodPlaces, SiteOf, SameAnswer,
      NoAnswer, Fired, SameSettings, Harmless, InterruptedItem;
    var cut, full := WalkShare(c, bound, loads), WalkShare(w, bound, loads);
    if Harmless(w, effectiveAccessOnly, InterruptedItem(cut, strike)) {
      KeepsStructure(c, w, bound, loads, strike, effectiveAccessOnly);
      PlacesCut(c, w, bound, loads, strike);
      InSent(c, bound, loads, effectiveAccessOnly);
      InSent(w, bound, loads, effectiveAccessOnly);
      var other, site := SiteOf(c, effectiveAccessOnly), SiteOf(w, effectiveAccessOnly);
      forall p | p in Places(cut.run.events)
        ensures SiteSame(c, w) && PlaceEdges(c, other, p) <= PlaceEdges(w, site, p) {
        PlaceCut(c, w, bound, loads, strike, p);
        PlaceWithin(c, w, bound, loads, strike, effectiveAccessOnly, p);
      }
      if cut.root || Places(cut.run.events) != {} {
        RootCut(site, other);
      }
    } else {
      var edge := HarmAdds(c, w, bound, loads, strike, effectiveAccessOnly);
    }
  }
}
