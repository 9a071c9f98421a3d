/** The processing of one share: rule check, connection, rights of the share and its root, then the walk. */
module ShareWorkers {
  import opened Common
  import opened Kinds
  import opened Texts
  import opened Paths
  import opened OpenGraphs
  import opened AccessMasks
  import opened RightsCollectors
  import opened Rules
  import opened Contexts
  import opened Traversal
  import opened Contents
  import SecurityDescriptors

  lemma ParentIdFollows(w: World)
    requires WellFormed(w)
    ensures Follows(w, id => ParentId(w.separator, id))
  {
    hide ContentId, ParentOf, ParentId;
    forall names, isDir | GoodNames(names) && names != []
      ensures ParentId(w.separator, ContentId(w.separator, w.host, w.share, names, isDir))
        == ParentOf(w.separator, w.host, w.share, names)
    {
      ParentIdIs(w.separator, w.host, w.share, names, isDir);
    }
  }

  lemma SharePlain(w: World, rights: ShareRights)
    requires KindSets(rights) == SiteOf(w, false).shareRights
    ensures Plain(rights)
  {
    hide Contribution, Subject;
    var aces := DaclAces(if w.shareDescriptor == [] then w.rootDescriptor else w.shareDescriptor);
    forall sid, kind | sid in rights && kind in rights[sid] ensures !Structural(kind) {
      KindSetsAt(rights, sid);
      InElements(rights[sid], kind);
      assert kind in RightsOf(ShareLayer, aces)[sid];
      var i :| 0 <= i < |aces| && kind in Contribution(ShareLayer, aces[i]);
      ShareContribution(aces[i], kind);
    }
  }

  lemma ShareContribution(ace: SecurityDescriptors.Ace, kind: EdgeKind)
    requires kind in Contribution(ShareLayer, ace)
    ensures kind.OnShare? && !Structural(kind)
  {
  }

  /** Sets up the context for the share: its nodes, its rights and those of its root directory. */
  method NewContext(w: World, og: OpenGraph, flag: TimeoutFlag, effectiveAccessOnly: bool)
    returns (ogc: OpenGraphContext)
    requires WellFormed(w) && og.Valid()
    modifies flag`asked
    ensures flag.asked == old(flag.asked) + ContextCalls(w, flag.loads)
    ensures fresh(ogc) && ogc.graph == og && ogc.Valid() && SetUpFor(w, ogc)
    ensures ogc.Setting() == SiteOf(w, effectiveAccessOnly)
    ensures ogc.path == [] && ogc.element == None && ogc.Emitted() == NOTHING && ogc.totalEdgesCreated == 0
  {
    hide OpenGraph.Valid, ParentId, ContentId, Plain, DaclAces, RightsOf, Upper, Lower;
    var hostNode := Node("NSHOST:" + Lower(w.host), NetworkShareHost, w.host);
    var shareNode := Node("\\\\" + w.host + "\\" + w.share + "\\", NetworkShareSMB, w.share);
    flag.Ask(ReadingShare);
    if w.shareDescriptor == [] {
      flag.Ask(ReadingRoot);
    }
    var shareRights := CollectShareRights(w.shareDescriptor, w.rootDescriptor);
    flag.Ask(Reading([]));
    var shareRootNTFS := CollectNTFSRights(w.server.descriptor(""));
    ParentIdFollows(w);
    SharePlain(w, shareRights);
    ogc := new OpenGraphContext(og, hostNode, shareNode, shareRights, shareRootNTFS, w.domain, effectiveAccessOnly,
                                id => ParentId(w.separator, id));
  }

  /** processShare: what it adds to the graph, what it counts and how often it looks at the timeout. */
  method ProcessShare(w: World, ghost bound: nat, og: OpenGraph, flag: TimeoutFlag, effectiveAccessOnly: bool)
    returns (counts: Counts)
    requires WellFormed(w) && Bounded(w, bound) && og.Valid() && flag.fireAt == w.fireAt
    modifies og, flag
    ensures og.Valid()
    ensures var walk := WalkShare(w, bound, old(flag.loads)); var sent := SentBy(w, effectiveAccessOnly, walk);
      && flag.loads == walk.run.loads && counts == Tally(walk.run.events) &&
           flag.asked == old(flag.asked) + walk.run.asked
      && og.nodeIDs == old(og.nodeIDs) + sent.nodes && og.edgeKeys == old(og.edgeKeys) + sent.edges
      && LogsFrom(old(og.nodeLog), old(og.edgeLog), og.nodeLog, og.edgeLog, sent.records)
  {
    hide OpenGraph.Valid, SentBy, Tally, Explore, Evaluate, ContextCalls, WalkShare, WellFormed, Bounded;
    counts := ZERO;
    ghost var walk := WalkShare(w, bound, flag.loads);
    WalkCases(w, bound, flag.loads);
    SentCases(w, effectiveAccessOnly, walk);
    var fired := flag.Load();
    if fired {
      return;
    }
    var rulesEval := new Evaluator(w.rules, w.compare);
    var ruleShare := ShareObject(w.share, "", |w.share| > 0 && w.share[|w.share| - 1] == '$');
    var explorable := rulesEval.CanExploreShare(ruleShare);
    if !explorable {
      return;
    }
    fired := flag.Load();
    if fired {
      return;
    }
    flag.Ask(Connecting);
    if !w.connect {
      return;
    }
    fired := flag.Load();
    if fired {
      return;
    }
    flag.Ask(MountingShare);
    if !w.mountShare {
      return;
    }
    counts := CollectShare(w, bound, og, flag, rulesEval, ruleShare, effectiveAccessOnly);
    SentSame(w, effectiveAccessOnly, ShareWalk(walk.root, Explore(w, bound, [], old(flag.loads) + 3, FreshContext(w))),
      walk);
  }

  lemma WalkCases(w: World, bound: nat, loads: nat)
    requires WellFormed(w) && Bounded(w, bound)
    ensures var walk, context := WalkShare(w, bound, loads), FreshContext(w);
      var connecting, mounting := [Asked(Connecting, loads + 2)], [Asked(MountingShare, loads + 3)];
      if Fired(w, loads) || !MayExplore(w, context) then walk == ShareWalk(false, Run([], loads + 1, context, []))
      else if Fired(w, loads + 1) then walk == ShareWalk(false, Run([], loads + 2, context, []))
      else if !w.connect then walk == ShareWalk(false, Run([], loads + 2, context, connecting))
      else if Fired(w, loads + 2) then walk == ShareWalk(false, Run([], loads + 3, context, connecting))
      else if !w.mountShare then walk == ShareWalk(false, Run([], loads + 3, context, connecting + mounting))
      else
        var run := Explore(w, bound, [], loads + 3, context);
        && walk.root == MayProcess(w, context) && walk.run.events == run.events && walk.run.loads == run.loads
        && walk.run.asked == connecting + mounting + ContextCalls(w, loads + 3) + run.asked
  {
    hide Explore, MayExplore, MayProcess, ContextCalls, WellFormed, Bounded;
  }

  lemma SentCases(w: World, effectiveAccessOnly: bool, walk: ShareWalk)
    ensures !walk.root && walk.run.events == [] ==>
      SentBy(w, effectiveAccessOnly, walk) == NOTHING && Tally(walk.run.events) == ZERO
  {
    NoEvents(w, SiteOf(w, effectiveAccessOnly), NOTHING);
  }

  /** What is sent depends on the items examined alone. */
  lemma SentSame(w: World, effectiveAccessOnly: bool, walk: ShareWalk, other: ShareWalk)
    requires walk.root == other.root && walk.run.events == other.run.events
    ensures SentBy(w, effectiveAccessOnly, walk) == SentBy(w, effectiveAccessOnly, other)
  {
  }

  /** The part of processShare behind the connection: the context, the share itself, its contents. */
  method CollectShare(w: World, ghost bound: nat, og: OpenGraph, flag: TimeoutFlag, rulesEval: Evaluator,
                      ruleShare: ShareObject, effectiveAccessOnly: bool)
    returns (counts: Counts)
    requires WellFormed(w) && Bounded(w, bound) && og.Valid() && flag.fireAt == w.fireAt
    requires rulesEval.rules == w.rules && rulesEval.compare == w.compare
    requires ruleShare == ShareObjectOf(w) && rulesEval.context == FreshContext(w)
    modifies og, flag, rulesEval
    ensures og.Valid()
    ensures var run := Explore(w, bound, [], old(flag.loads), FreshContext(w));
      var sent := SentBy(w, effectiveAccessOnly, ShareWalk(MayProcess(w, FreshContext(w)), run));
      && flag.loads == run.loads && counts == Tally(run.events)
      && flag.asked == old(flag.asked) + ContextCalls(w, old(flag.loads)) + run.asked
      && og.nodeIDs == old(og.nodeIDs) + sent.nodes && og.edgeKeys == old(og.edgeKeys) + sent.edges
      && LogsFrom(old(og.nodeLog), old(og.edgeLog), og.nodeLog, og.edgeLog, sent.records)
  {
    hide OpenGraph.Valid, Coherent, SendAll, Tally, SetUpFor, Explore, SiteOf, Evaluate, AddPath;
    var ogc := NewContext(w, og, flag, effectiveAccessOnly);
    var processable := rulesEval.CanProcessShare(ruleShare);
    if processable {
      EmitShareOnly(ogc);
    }
    counts := CollectContentsAtDepth(w, bound, ogc, rulesEval, flag, 0, []);
  }

  /** AddPathToGraph before anything is on the stack. */
  method EmitShareOnly(ogc: OpenGraphContext)
    requires ogc.Valid() && ogc.path == [] && ogc.element == None
    modifies ogc, ogc.graph
    ensures ogc.Grows() && ogc.path == [] && ogc.element == None
    ensures ogc.Emitted() == AddPath(ogc.Setting(), old(ogc.Emitted()), [], None)
  {
    hide OpenGraph.Valid, Coherent, AddPath;
    assert AbstractPath([]) == [];
    ogc.AddPathToGraph();
  }
}
