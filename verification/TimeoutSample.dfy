/** A share and a moment for which a host timeout adds an edge to the graph. */
module TimeoutSamples {
  import opened Common
  import opened Kinds
  import opened ByteStrings
  import opened Paths
  import opened Sids
  import opened AccessMasks
  import opened SecurityDescriptors
  import opened RightsCollectors
  import opened Traversal
  import opened Coverage
  import opened Emission
  import opened GraphTheorems
  import opened TimeoutGraphs
  import Contents

  const EVERYONE := Sid(1, [0, 0, 0, 0, 0, 1], [0])
  const SYSTEM := Sid(1, [0, 0, 0, 0, 0, 5], [18])

  /** A descriptor whose DACL allows one SID to read. */
  function Letting(sid: Sid): WireDescriptor {
    WireDescriptor(1, 0, 0x8004, None, None, None, Some(WireAcl(2, 0, 0, [PlainAce(0, 0, 1, sid, [])], [])))
  }

  lemma LettingEncodable(sid: Sid)
    requires sid == EVERYONE || sid == SYSTEM
    ensures Encodable(Letting(sid), [DaclPart])
  {
    var sd := Letting(sid);
    var ace := PlainAce(0, 0, 1, sid, []);
    assert ace.Size() == 20 && ace.WellFormed();
    assert [ace][1..] == [];
    assert EncodeAces([ace]) == EncodeAce(ace) + EncodeAces([]);
    assert sd.dacl.value.WellFormed() && sd.WellFormed();
    assert sd.Orders([DaclPart]);
    assert Parts(sd, [DaclPart])[1..] == [];
    assert |Body(sd, [DaclPart])| == |sd.PartBytes(DaclPart)| + |Concat([])|;
  }

  function Blob(sid: Sid): Bytes
    requires sid == EVERYONE || sid == SYSTEM
  {
    LettingEncodable(sid);
    EncodeDescriptor(Letting(sid), [DaclPart])
  }

  lemma BlobAllows(sid: Sid, other: Sid)
    requires sid == EVERYONE || sid == SYSTEM
    ensures Allows(DaclAces(Blob(sid)), other, Read) <==> other == sid
  {
    hide DaclAces, EncodeDescriptor, Allows;
    LettingEncodable(sid);
    WireAllows(Letting(sid), [DaclPart], [], other, Read);
    assert Blob(sid) + [] == Blob(sid);
    var ace := PlainAce(0, 0, 1, sid, []);
    assert ace in Letting(sid).dacl.value.aces;
    assert HasFlag(0x8004, SE_DACL_PRESENT) && Opens(1, Read);
  }

  /** A share that everyone may read, with one file that only the system may read. */
  function Undisturbed(): World {
    World(Server(_ => true, path => if path == "" then Some([Item("f", false, 1)]) else None,
                 path => if path == "f" then Blob(SYSTEM) else Blob(EVERYONE)),
          "h", "s", '\\', "", true, true, Blob(EVERYONE), [], [], Plain(), 1, None)
  }

  /** The timer fires when the walk has come to the file, and its descriptor cannot be read any more. */
  function Met(): World {
    Undisturbed().(server := Undisturbed().server.(descriptor := path => if path == "f" then [] else Blob(EVERYONE)),
                   fireAt := Some(5))
  }

  const FILE := Event(["f"], false, true, true)

  lemma Setting(w: World)
    requires w == Met() || w == Undisturbed()
    ensures WellFormed(w) && Bounded(w, 1)
    ensures forall context :: MayExplore(w, context) && MayProcess(w, context)
    ensures DirPath([]) == "" && FullPath('\\', []) == "" && FullPath('\\', ["f"]) == "f"
  {
    hide Blob;
  }

  lemma Walked(w: World)
    requires w == Met() || w == Undisturbed()
    ensures WellFormed(w) && Bounded(w, 1)
    ensures var walk := WalkShare(w, 1, 0);
      && walk.root && walk.run.events == [FILE]
      && walk.run.asked == [Asked(Connecting, 2), Asked(MountingShare, 3), Asked(ReadingShare, 3),
           Asked(Reading([]), 3),
                            Asked(Mounting([]), 4), Asked(Listing([]), 4), Asked(Reading(["f"]), 5)]
  {
    hide Blob, MayExplore, MayProcess, Explore, Scan, Descend;
    Setting(w);
    BlobNotEmpty(EVERYONE);
    Contents.ExploreCases(w, 1, [], 3, FreshContext(w));
    Scanned(w);
  }

  lemma BlobNotEmpty(sid: Sid)
    requires sid == EVERYONE || sid == SYSTEM
    ensures Blob(sid) != []
  {
    hide Header, Body;
    LettingEncodable(sid);
    assert |Header(Letting(sid), [DaclPart])| == 20;
  }

  lemma Scanned(w: World)
    requires w == Met() || w == Undisturbed()
    ensures WellFormed(w) && Bounded(w, 1)
    ensures var ready := Entering([], 3, FreshContext(w));
      var (run, dirs) := Scan(w, [], [Item("f", false, 1)], ready, []);
      && run.events == [FILE] && run.asked == ready.asked + [Asked(Reading(["f"]), 5)] && run.loads == 5 && dirs == []
      && Descend(w, 1, [], [], run) == run
  {
    hide Blob, MayExplore, MayProcess, FullPath;
    Setting(w);
    var ready := Entering([], 3, FreshContext(w));
    var item := Item("f", false, 1);
    assert [item][1..] == [] && [] + ["f"] == ["f"];
    var (run, dirs) := Step(w, [], item, ready.(loads := 5), []);
    assert Scan(w, [], [], run, dirs) == (run, dirs);
  }

  /**
   * The file is read by nobody but the system, and still the interrupted run says that everyone can read it: it
   * inherits the rights of the root. The undisturbed run has no such edge.
   */
  lemma TimeoutInvents(effectiveAccessOnly: bool)
    ensures Struck(Met(), Undisturbed(), 1, 0, 6)
    ensures InterruptedItem(WalkShare(Met(), 1, 0), 6) == Some(FILE)
    ensures var edge := EffectiveEdge(Undisturbed(), Place(["f"], false), EVERYONE, Read);
      && edge in SentBy(Met(), effectiveAccessOnly, WalkShare(Met(), 1, 0)).edges
      && edge !in SentBy(Undisturbed(), effectiveAccessOnly, WalkShare(Undisturbed(), 1, 0)).edges
  {
    hide Blob, WalkShare, SentBy, EffectiveEdge, Allows, AcesInForce, DaclAces, WellFormed, Bounded, Struck,
      InterruptedItem;
    IsStruck();
    var c, w, p := Met(), Undisturbed(), Place(["f"], false);
    Walked(c);
    Walked(w);
    Setting(w);
    assert FILE in WalkShare(c, 1, 0).run.events && FILE in WalkShare(w, 1, 0).run.events;
    PlaceIn(WalkShare(c, 1, 0).run.events, FILE);
    PlaceIn(WalkShare(w, 1, 0).run.events, FILE);
    EffectiveAccess(c, 1, 0, effectiveAccessOnly, p, EVERYONE, Read);
    EffectiveAccess(w, 1, 0, effectiveAccessOnly, p, EVERYONE, Read);
    InForce();
    BlobNotEmpty(EVERYONE);
    BlobAllows(EVERYONE, EVERYONE);
    BlobAllows(SYSTEM, EVERYONE);
    SameEdge(p);
  }

  lemma IsStruck()
    ensures Struck(Met(), Undisturbed(), 1, 0, 6)
    ensures InterruptedItem(WalkShare(Met(), 1, 0), 6) == Some(FILE)
  {
    hide Blob, WalkShare, WellFormed, Bounded;
    Walked(Met());
    Walked(Undisturbed());
    Setting(Undisturbed());
  }

  lemma SameEdge(p: Place)
    requires p.names != []
    ensures EffectiveEdge(Met(), p, EVERYONE, Read) == EffectiveEdge(Undisturbed(), p, EVERYONE, Read)
  {
    hide ContentId, Text, Principal;
  }

  lemma InForce()
    ensures AcesInForce(Met(), Place(["f"], false)) == DaclAces(Blob(EVERYONE))
    ensures AcesInForce(Undisturbed(), Place(["f"], false)) == DaclAces(Blob(SYSTEM))
  {
    hide Blob, DaclAces, RightsOf, OwnRights;
    var c, w := Met(), Undisturbed();
    Setting(w);
    assert Init(["f"]) == [];
    UnreadRights(c, ["f"]);
    SystemGrants();
  }

  lemma SystemGrants()
    ensures OwnRights(Undisturbed(), ["f"]) != map[]
  {
    hide OwnRights, EncodeDescriptor, FullPath;
    Setting(Undisturbed());
    LettingEncodable(SYSTEM);
    assert Blob(SYSTEM) + [] == Blob(SYSTEM);
    var ace := PlainAce(0, 0, 1, SYSTEM, []);
    assert HasFlag(1, NtfsFlag(CanNTFSReadData)) && OnNtfs(CanNTFSReadData) in KindsFor(NtfsLayer, 1);
    assert ace in Letting(SYSTEM).dacl.value.aces && WireGrants(ace) && HasFlag(0x8004, SE_DACL_PRESENT);
    ReadableFileInherits(Undisturbed(), ["f"], Letting(SYSTEM), [DaclPart], []);
  }
}
