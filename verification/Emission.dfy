/** What a share puts into the graph, said without the walk: the upward closure of the emitted items. */
module Emission {
  import opened Common
  import Texts
  import opened Kinds
  import RightsCollectors
  import opened Paths
  import opened OpenGraphs
  import opened Contexts
  import opened Traversal
  import opened Coverage

  /** A file or directory below the share. */
  datatype Place = Place(names: seq<string>, isDir: bool)
  {
    predicate Good() {
      names != [] && GoodNames(names)
    }
  }

  function IdOf(w: World, p: Place): string {
    ContentId(w.separator, w.host, w.share, p.names, p.isDir)
  }

  /** The record of a place. */
  function RecordOf(w: World, p: Place): (record: Node)
    requires p.names != []
    ensures record.id == IdOf(w, p)
  {
    NodeOf(w, p.names, p.isDir)
  }

  function ParentNodeOf(w: World, site: Site, names: seq<string>): Node
    requires names != []
  {
    if |names| == 1 then site.share else NodeOf(w, Init(names), true)
  }

  /** The edges that belong to a place: its rights and the edge from its parent. */
  function PlaceEdges(w: World, site: Site, p: Place): set<Edge>
    requires p.names != []
  {
    OwnEdges(site, ParentNodeOf(w, site, p.names), EntryOf(w, p.names, p.isDir))
  }

  function RootEdges(site: Site): set<Edge> {
    {HostEdge(site), ShareEdge(site)} + RightsEdges(site.domainSuffix, site.share, site.shareRights)
  }

  ghost predicate GoodPlaces(places: set<Place>) {
    forall p :: p in places ==> p.Good()
  }

  /** The share node and all places, each with its edges. */
  ghost function Image(w: World, site: Site, root: bool, places: set<Place>): Sent
    requires GoodPlaces(places)
  {
    Sent((if root then {site.host, site.share} else {}) + set p | p in places :: RecordOf(w, p),
         (if root then RootEdges(site) else {}) + set p, edge | p in places && edge in PlaceEdges(w, site, p) :: edge,
         root,
         set p | p in places && p.isDir :: IdOf(w, p))
  }

  /** An emitted item and the directories above it. */
  function PlacesOf(e: Event): set<Place>
  {
    if !e.processed || e.names == [] then {} else Ancestors(Init(e.names)) + {Place(e.names, e.isDir)}
  }

  function Ancestors(dirs: seq<string>): set<Place> {
    set k | 1 <= k <= |dirs| :: Place(dirs[..k], true)
  }

  function Places(events: seq<Event>): set<Place> {
    set e, p | e in events && p in PlacesOf(e) :: p
  }

  ghost predicate GoodEvents(events: seq<Event>) {
    forall e :: e in events ==> e.names != [] && GoodNames(e.names)
  }

  lemma ImageIds(w: World, site: Site, root: bool, places: set<Place>)
    requires GoodPlaces(places)
    ensures Image(w, site, root, places).nodes ==
      (if root then {site.host.id, site.share.id} else {}) + set p | p in places :: IdOf(w, p)
  {
    hide IdOf, RecordOf, PlaceEdges, RootEdges, GoodNames;
    var image := Image(w, site, root, places);
    forall p | p in places ensures IdOf(w, p) in image.nodes {
      assert RecordOf(w, p) in image.records;
    }
    if root {
      assert site.host in image.records && site.share in image.records;
    }
  }

  lemma IdInjective(w: World, p: Place, q: Place)
    requires WellFormed(w) && p.Good() && q.Good() && IdOf(w, p) == IdOf(w, q)
    ensures p == q
  {
    hide ContentId;
    ContentIdInjective(w.separator, w.host, w.share, p.names, p.isDir, w.host, w.share, q.names, q.isDir);
  }

  /** Emitting one more place, whether or not it is out already. */
  lemma EntryImage(w: World, site: Site, places: set<Place>, p: Place)
    requires WellFormed(w) && GoodPlaces(places) && p.Good()
    ensures SendEntry(site, Image(w, site, true, places), ParentNodeOf(w, site, p.names),
      EntryOf(w, p.names, p.isDir)) ==
      Image(w, site, true, places + {p})
  {
    hide ContentId, OwnEdges, RootEdges, RightsInForce, WellFormed;
    var id := IdOf(w, p);
    if p.isDir && id in Image(w, site, true, places).dirs {
      var q :| q in places && q.isDir && IdOf(w, q) == id;
      IdInjective(w, p, q);
      assert places + {p} == places;
    } else {
      ImageInsert(w, site, places, p);
    }
  }

  lemma ImageInsert(w: World, site: Site, places: set<Place>, p: Place)
    requires GoodPlaces(places) && p.Good()
    ensures var before := Image(w, site, true, places);
      Image(w, site, true, places + {p}) ==
        Sent(before.records + {RecordOf(w, p)}, before.edges + PlaceEdges(w, site, p), true,
             before.dirs + if p.isDir then {IdOf(w, p)} else {})
  {
    hide RecordOf;
    hide IdOf, PlaceEdges, RootEdges, GoodNames;
    var before, after := Image(w, site, true, places), Image(w, site, true, places + {p});
    assert after.records == before.records + {RecordOf(w, p)};
    assert after.edges == before.edges + PlaceEdges(w, site, p);
    assert after.dirs == before.dirs + if p.isDir then {IdOf(w, p)} else {};
  }

  lemma {:induction false} PathImage(w: World, site: Site, places: set<Place>, dirs: seq<string>)
    requires WellFormed(w) && GoodPlaces(places) && GoodNames(dirs)
    ensures GoodPlaces(places + Ancestors(dirs))
    ensures SendPath(site, Image(w, site, true, places), EntriesOf(w, dirs)) ==
      Image(w, site, true, places + Ancestors(dirs))
  {
    hide SendEntry, Image, EntryOf, ContentId, WellFormed, GoodName;
    if dirs == [] {
      assert places + Ancestors(dirs) == places;
    } else {
      var init, p := Init(dirs), Place(dirs, true);
      PathImage(w, site, places, init);
      assert EntriesOf(w, dirs)[..|dirs| - 1] == EntriesOf(w, init) by { EntriesInit(w, dirs); }
      assert dirs[..|dirs|] == dirs;
      EntriesParent(w, site, dirs);
      EntryImage(w, site, places + Ancestors(init), p);
      AncestorsInsert(dirs);
      assert places + Ancestors(init) + {p} == places + Ancestors(dirs);
    }
  }

  lemma AncestorsInsert(dirs: seq<string>)
    requires dirs != []
    ensures Ancestors(dirs) == Ancestors(Init(dirs)) + {Place(dirs, true)}
  {
    assert dirs[..|dirs|] == dirs;
    forall k | 1 <= k < |dirs| ensures Init(dirs)[..k] == dirs[..k] {}
  }

  lemma EntriesInit(w: World, dirs: seq<string>)
    requires dirs != []
    ensures EntriesOf(w, dirs)[..|dirs| - 1] == EntriesOf(w, Init(dirs))
  {
    hide EntryOf;
    forall i | 0 <= i < |dirs| - 1 ensures EntriesOf(w, dirs)[i] == EntriesOf(w, Init(dirs))[i] {
      assert Init(dirs)[..i + 1] == dirs[..i + 1];
    }
  }

  lemma EntriesParent(w: World, site: Site, dirs: seq<string>)
    requires dirs != []
    ensures Parent(site, EntriesOf(w, Init(dirs))) == ParentNodeOf(w, site, dirs)
  {
    hide NodeOf, RightsInForce;
    var init := Init(dirs);
    assert init[..|init|] == init;
  }

  lemma RootImage(w: World, site: Site, root: bool)
    ensures GoodPlaces({}) && SendRoot(site, Image(w, site, root, {})) == Image(w, site, true, {})
  {
    hide RightsEdgesFor, HostEdge, ShareEdge;
    assert NOTHING.records + {site.host, site.share} == {site.host, site.share};
  }

  /** An emitted event adds its item and the directories above. */
  lemma EventImage(w: World, site: Site, root: bool, places: set<Place>, e: Event)
    requires WellFormed(w) && GoodPlaces(places) && (root || places == {}) && e.names != [] && GoodNames(e.names)
    ensures GoodPlaces(places + PlacesOf(e))
    ensures SendEvent(w, site, Image(w, site, root, places), e) ==
      if e.processed then Image(w, site, true, places + PlacesOf(e)) else Image(w, site, root, places)
  {
    hide SendPath, SendEntry, SendRoot, Image, EntryOf, EntriesOf, ContentId, WellFormed, GoodName, Ancestors;
    if e.processed {
      var dirs := Init(e.names);
      var start := Image(w, site, root, places);
      assert SendRoot(site, start) == Image(w, site, true, places) by {
        if root { RootDone(w, site, places); } else { RootImage(w, site, false); }
      }
      PathImage(w, site, places, dirs);
      EntriesParent(w, site, e.names);
      EntryImage(w, site, places + Ancestors(dirs), Place(e.names, e.isDir));
      assert places + Ancestors(dirs) + {Place(e.names, e.isDir)} == places + PlacesOf(e);
    } else {
      assert places + PlacesOf(e) == places;
    }
  }

  lemma RootDone(w: World, site: Site, places: set<Place>)
    requires GoodPlaces(places)
    ensures SendRoot(site, Image(w, site, true, places)) == Image(w, site, true, places)
  {
  }

  lemma {:induction false} SendAllImage(w: World, site: Site, root: bool, events: seq<Event>)
    requires WellFormed(w) && GoodEvents(events)
    ensures GoodPlaces(Places(events)) && GoodPlaces({})
    ensures SendAll(w, site, Image(w, site, root, {}), events) ==
      Image(w, site, root || Places(events) != {}, Places(events))
  {
    hide SendEvent, Image, PlacesOf, WellFormed, GoodNames;
    if events == [] {
      assert Places(events) == {};
    } else {
      var init, e := events[..|events| - 1], events[|events| - 1];
      SendAllImage(w, site, root, init);
      assert Places(events) == Places(init) + PlacesOf(e) by {
        assert events == init + [e];
      }
      EventImage(w, site, root || Places(init) != {}, Places(init), e);
      PlacesOfProcessed(e);
      if e.processed {
        assert Places(events) != {};
      } else {
        assert Places(events) == Places(init);
      }
    }
  }

  lemma PlacesOfProcessed(e: Event)
    requires e.names != []
    ensures e.processed <==> PlacesOf(e) != {}
  {
    hide Ancestors;
    assert e.processed ==> Place(e.names, e.isDir) in PlacesOf(e);
  }

  // ----- a whole share -----

  lemma WalkShape(w: World, bound: nat, loads: nat)
    requires WellFormed(w) && Bounded(w, bound)
    ensures var events := WalkShare(w, bound, loads).run.events;
      DistinctNames(events) && GoodEvents(events) && forall e :: e in events ==> Below(w, [], e)
  {
    hide Explore, MayExplore, MayProcess, Bounded, WellFormed, GoodName;
    ExploreShape(w, bound, [], loads + 3, FreshContext(w));
  }

  /**
   * The graph of a share: for every walk, whatever the timeout, the failing listings, the rules and the listing
   * order, it is the image of the upward closure of the items the walk emitted.
   */
  lemma SentExact(w: World, bound: nat, loads: nat, effectiveAccessOnly: bool)
    requires WellFormed(w) && Bounded(w, bound)
    ensures var walk := WalkShare(w, bound, loads); var places := Places(walk.run.events);
      && GoodPlaces(places)
      && SentBy(w, effectiveAccessOnly, walk) ==
          Image(w, SiteOf(w, effectiveAccessOnly), walk.root || places != {}, places)
  {
    hide WalkShare, SendAll, SiteOf, GoodEvents, Places;
    WalkShape(w, bound, loads);
    var walk, site := WalkShare(w, bound, loads), SiteOf(w, effectiveAccessOnly);
    StartImage(w, site, walk.root);
    SendAllImage(w, site, walk.root, walk.run.events);
  }

  lemma StartImage(w: World, site: Site, root: bool)
    ensures GoodPlaces({})
    ensures Image(w, site, root, {}) == if root then AddPath(site, NOTHING, [], None) else NOTHING
  {
    hide HostEdge, ShareEdge, RightsEdgesFor;
    assert NOTHING.records + {site.host, site.share} == {site.host, site.share};
    assert NOTHING.edges + {HostEdge(site), ShareEdge(site)} + RightsEdges(site.domainSuffix, site.share,
      site.shareRights) == RootEdges(site);
  }

  /** What the walk is to emit: the item itself, or a directory above it, is to be examined and processed. */
  ghost predicate ToEmit(w: World, p: Place) {
    exists e :: Specified(w, [], e) && p in PlacesOf(e)
  }

  /** The share is entered at all: explorable by the rules, reachable, mountable. */
  predicate ShareEntered(w: World) {
    MayExplore(w, FreshContext(w)) && w.connect && w.mountShare
  }

  /**
   * Without a timeout and with scoped rules, the walk examines exactly what it is to examine, emits exactly the
   * places to be emitted and counts what it examined. Nothing of this depends on the order of any listing.
   */
  lemma TraversalExact(w: World, bound: nat, loads: nat, effectiveAccessOnly: bool)
    requires WellFormed(w) && Bounded(w, bound) && Scoped(w) && w.fireAt.None?
    ensures var walk := WalkShare(w, bound, loads);
      && (forall p :: p in Places(walk.run.events) <==> ShareEntered(w) && ToEmit(w, p))
      && (walk.root <==> ShareEntered(w) && MayProcess(w, FreshContext(w)))
      && Tally(walk.run.events) == Cardinalities(set e | e in walk.run.events)
      && (forall e :: e in walk.run.events <==> ShareEntered(w) && Specified(w, [], e))
  {
    hide Explore, MayExplore, MayProcess, Bounded, WellFormed, Scoped, Specified, PlacesOf, Cardinalities, Tally,
      GoodEvents;
    var context, walk := FreshContext(w), WalkShare(w, bound, loads);
    ExploreExact(w, bound, [], loads + 3, context);
    WalkShape(w, bound, loads);
    TallyIsCardinality(walk.run.events);
  }

  /** The share node is to be emitted, for itself or for something below it. */
  ghost predicate RootToEmit(w: World) {
    ShareEntered(w) && (MayProcess(w, FreshContext(w)) || exists p :: ToEmit(w, p))
  }

  /** A place to be emitted, and the share is entered. */
  ghost predicate PlaceToEmit(w: World, p: Place) {
    p.names != [] && ShareEntered(w) && ToEmit(w, p)
  }

  /**
   * The graph of a share, node by node and edge by edge: the host and the share if they are to be emitted, the places
   * to be emitted, and the edges of these; nothing else.
   */
  lemma GraphExact(w: World, bound: nat, loads: nat, effectiveAccessOnly: bool)
    requires WellFormed(w) && Bounded(w, bound) && Scoped(w) && w.fireAt.None?
    ensures var sent, site := SentBy(w, effectiveAccessOnly, WalkShare(w, bound, loads)),
      SiteOf(w, effectiveAccessOnly);
      && (forall id :: id in sent.nodes <==>
            (RootToEmit(w) && (id == site.host.id || id == site.share.id)) ||
              exists p :: PlaceToEmit(w, p) && id == IdOf(w, p))
      && (forall record :: record in sent.records <==>
            (RootToEmit(w) && (record == HostRecord(w) || record == ShareRecord(w))) ||
              exists p :: PlaceToEmit(w, p) && record == PlaceRecord(w, p))
      && (forall edge :: edge in sent.edges <==>
            (RootToEmit(w) && edge in RootEdges(site)) ||
              exists p :: PlaceToEmit(w, p) && edge in PlaceEdges(w, site, p))
  {
    hide *;
    SentExact(w, bound, loads, effectiveAccessOnly);
    TraversalExact(w, bound, loads, effectiveAccessOnly);
    var walk, site := WalkShare(w, bound, loads), SiteOf(w, effectiveAccessOnly);
    var places := Places(walk.run.events);
    InImage(w, site, walk.root || places != {}, places);
    RecordsInImage(w, effectiveAccessOnly, walk.root || places != {}, places);
    PlacesToEmit(w, places);
  }

  /** The record of a file or directory: its ID, what it is, and the last name of its path. */
  function PlaceRecord(w: World, p: Place): Node
    requires p.names != []
  {
    Node(IdOf(w, p), if p.isDir then Directory else File, Last(p.names))
  }

  function HostRecord(w: World): Node {
    Node(HostId(Texts.Lower(w.host)), NetworkShareHost, w.host)
  }

  function ShareRecord(w: World): Node {
    Node(ShareId(w.host, w.share), NetworkShareSMB, w.share)
  }

  lemma RecordsInImage(w: World, effectiveAccessOnly: bool, root: bool, places: set<Place>)
    requires GoodPlaces(places)
    ensures forall record :: record in Image(w, SiteOf(w, effectiveAccessOnly), root, places).records <==>
      (root && (record == HostRecord(w) || record == ShareRecord(w))) ||
        exists p :: p in places && p.names != [] && record == PlaceRecord(w, p)
  {
    hide ContentId, PlaceEdges, RootEdges, GoodNames, RightsCollectors.RightsOf, ShareId;
    assert forall p :: p in places ==> p.Good() && p.names != [] && RecordOf(w, p) == PlaceRecord(w, p);
  }

  // ----- the records in the log -----

  /**
   * The records a share sends: those of the host and the share, if it sends anything, and one for each place emitted.
   */
  lemma RecordsSent(w: World, bound: nat, loads: nat, effectiveAccessOnly: bool, record: Node)
    requires WellFormed(w) && Bounded(w, bound)
    ensures var walk := WalkShare(w, bound, loads); var places := Places(walk.run.events);
      record in SentBy(w, effectiveAccessOnly, walk).records <==>
        ((walk.root || places != {}) && (record == HostRecord(w) || record == ShareRecord(w))) ||
        exists p :: p in places && p.Good() && record == PlaceRecord(w, p)
  {
    hide *;
    SentExact(w, bound, loads, effectiveAccessOnly);
    var walk := WalkShare(w, bound, loads);
    var places := Places(walk.run.events);
    RecordsInImage(w, effectiveAccessOnly, walk.root || places != {}, places);
    GoodEach(places);
    GoodNamed();
  }

  lemma GoodNamed()
    ensures forall p: Place :: p.Good() ==> p.names != []
  {
  }

  /** Host, share, files and directories have IDs of their own. */
  lemma OneRecord(w: World, bound: nat, loads: nat, effectiveAccessOnly: bool, a: Node, b: Node)
    requires WellFormed(w) && Bounded(w, bound)
    requires var sent := SentBy(w, effectiveAccessOnly, WalkShare(w, bound, loads));
      a in sent.records && b in sent.records && a.id == b.id
    ensures a == b
  {
    hide *;
    SentExact(w, bound, loads, effectiveAccessOnly);
    var walk := WalkShare(w, bound, loads);
    var places := Places(walk.run.events);
    RecordsInImage(w, effectiveAccessOnly, walk.root || places != {}, places);
    GoodEach(places);
    RootIds(w);
    forall p | p in places ensures p.names != [] && PlaceRecord(w, p).id == IdOf(w, p) &&
      PlaceStart(w, p) { PlaceId(w, p); }
    if p :| p in places && p.names != [] && a == PlaceRecord(w, p) {
      if q :| q in places && q.names != [] && b == PlaceRecord(w, q) {
        IdInjective(w, p, q);
      } else {
        RootNoPlace(w, w, p);
      }
    } else if q :| q in places && q.names != [] && b == PlaceRecord(w, q) {
      RootNoPlace(w, w, q);
    }
  }

  lemma GoodEach(places: set<Place>)
    requires GoodPlaces(places)
    ensures forall p :: p in places ==> p.Good()
  {
  }

  lemma PlaceId(w: World, p: Place)
    requires p.Good()
    ensures p.names != [] && PlaceRecord(w, p).id == IdOf(w, p) && PlaceStart(w, p)
  {
    hide Unc;
  }

  predicate PlaceStart(w: World, p: Place) {
    "DIR:" <= IdOf(w, p) || "FILE:" <= IdOf(w, p)
  }

  lemma RootIds(w: World)
    ensures HostRecord(w).id != ShareRecord(w).id
  {
    hide Texts.Lower;
    assert HostRecord(w).id[0] == 'N' && ShareRecord(w).id[0] == '\\';
  }

  /** The IDs of hosts and shares are no IDs of files or directories, of whatever share. */
  lemma RootNoPlace(w: World, other: World, p: Place)
    requires PlaceStart(other, p)
    ensures HostRecord(w).id != IdOf(other, p) && ShareRecord(w).id != IdOf(other, p)
  {
    hide Texts.Lower, ContentId;
    assert HostRecord(w).id[0] == 'N' && ShareRecord(w).id[0] == '\\';
  }

  /**
   * What the log of the graph gets from a share: of the records sent, exactly those whose ID was not there before, each
   * as it is.
   */
  lemma RecordsLogged(w: World, bound: nat, loads: nat, effectiveAccessOnly: bool, before: seq<Node>, after: seq<Node>)
    requires WellFormed(w) && Bounded(w, bound)
    requires var sent := SentBy(w, effectiveAccessOnly, WalkShare(w, bound, loads));
      && LogFrom(before, after, sent.records) && Distinct(Ids(after))
      && Elements(Ids(after)) == Elements(Ids(before)) + sent.nodes
    ensures var sent := SentBy(w, effectiveAccessOnly, WalkShare(w, bound, loads));
      && before <= after
      && forall record :: record in after[|before|..] <==> record in sent.records && record.id !in Ids(before)
  {
    hide SentBy, WalkShare, WellFormed, Bounded;
    var sent := SentBy(w, effectiveAccessOnly, WalkShare(w, bound, loads));
    forall record ensures record in after[|before|..] <==> record in sent.records && record.id !in Ids(before) {
      if record in after[|before|..] {
        var k :| |before| <= k < |after| && after[k] == record;
        NotBefore(before, after, k);
      }
      if record in sent.records && record.id !in Ids(before) {
        forall j | 0 <= j < |before| ensures Ids(after)[j] != record.id {
          assert Ids(after)[j] == Ids(before)[j];
        }
        assert record.id in Elements(Ids(after));
        var k :| 0 <= k < |after| && Ids(after)[k] == record.id;
        assert k >= |before|;
        OneRecord(w, bound, loads, effectiveAccessOnly, after[k], record);
        assert after[|before|..][k - |before|] == record;
      }
    }
  }

  lemma NotBefore(before: seq<Node>, after: seq<Node>, k: nat)
    requires before <= after && Distinct(Ids(after)) && |before| <= k < |after|
    ensures after[k].id !in Ids(before)
  {
    forall j | 0 <= j < |before| ensures Ids(before)[j] != after[k].id {
      assert Ids(after)[j] != Ids(after)[k];
    }
  }

  lemma PlacesToEmit(w: World, places: set<Place>)
    requires GoodPlaces(places) && forall p :: p in places <==> ShareEntered(w) && ToEmit(w, p)
    ensures forall p :: p in places <==> PlaceToEmit(w, p)
    ensures forall p :: p in places ==> p.names != []
    ensures RootToEmit(w) <==> (ShareEntered(w) && MayProcess(w, FreshContext(w))) || places != {}
  {
    hide ToEmit, ShareEntered, MayProcess;
    forall p | p in places ensures PlaceToEmit(w, p) { assert p.Good(); }
    if places != {} {
      var p :| p in places;
      assert ToEmit(w, p);
    }
    if ShareEntered(w) && exists p :: ToEmit(w, p) {
      var p :| ToEmit(w, p);
      assert p in places;
    }
  }

  lemma InImage(w: World, site: Site, root: bool, places: set<Place>)
    requires GoodPlaces(places)
    ensures forall id :: id in Image(w, site, root, places).nodes <==>
      (root && (id == site.host.id || id == site.share.id)) || exists p :: p in places && id == IdOf(w, p)
    ensures forall edge :: edge in Image(w, site, root, places).edges <==>
      (root && edge in RootEdges(site)) || exists p :: p in places && p.names != [] && edge in PlaceEdges(w, site, p)
  {
    IdsInImage(w, site, root, places);
    EdgesInImage(w, site, root, places);
  }

  lemma IdsInImage(w: World, site: Site, root: bool, places: set<Place>)
    requires GoodPlaces(places)
    ensures forall id :: id in Image(w, site, root, places).nodes <==>
      (root && (id == site.host.id || id == site.share.id)) || exists p :: p in places && id == IdOf(w, p)
  {
    hide IdOf, PlaceEdges, RootEdges, Image;
    ImageIds(w, site, root, places);
  }

  lemma EdgesInImage(w: World, site: Site, root: bool, places: set<Place>)
    requires GoodPlaces(places)
    ensures forall edge :: edge in Image(w, site, root, places).edges <==>
      (root && edge in RootEdges(site)) || exists p :: p in places && p.names != [] && edge in PlaceEdges(w, site, p)
  {
    hide IdOf, PlaceEdges, RootEdges;
    assert forall p :: p in places ==> p.Good() && p.names != [];
  }
}
