/** A whole scan: targets, their shares, the checkpoint before and after, and what the graph then says. */
module Scans {
  import opened Common
  import opened Kinds
  import opened Paths
  import opened OpenGraphs
  import opened Sids
  import opened Contexts
  import opened Traversal
  import opened ShareWorkers
  import opened Emission
  import opened GraphTheorems
  import opened Checkpoints
  import opened Resume

  /** A share of a target, with the depth below which its walk ends. */
  datatype ShareJob = ShareJob(world: World, bound: nat)
  {
    ghost predicate Good() {
      WellFormed(world) && Bounded(world, bound)
    }
  }

  ghost predicate GoodShares(shares: seq<ShareJob>) {
    forall share :: share in shares ==> share.Good()
  }

  /** What the walk of a share emits, as a set; with a server that answers alike it is always the same. */
  function WalkOf(share: ShareJob): ShareWalk
    requires share.Good()
  {
    WalkShare(share.world, share.bound, 0)
  }

  function ShareSent(share: ShareJob, effectiveAccessOnly: bool): Sent
    requires share.Good()
  {
    SentBy(share.world, effectiveAccessOnly, WalkOf(share))
  }

  ghost function HostWork(shares: seq<ShareJob>, effectiveAccessOnly: bool): Work
    requires GoodShares(shares)
  {
    Work(set share, node | share in shares && node in ShareSent(share, effectiveAccessOnly).records :: node,
         set share, edge | share in shares && edge in ShareSent(share, effectiveAccessOnly).edges :: edge)
  }

  lemma HostWorkNext(shares: seq<ShareJob>, effectiveAccessOnly: bool, i: nat)
    requires GoodShares(shares) && i < |shares|
    ensures GoodShares(shares[..i]) && GoodShares(shares[..i + 1])
    ensures HostWork(shares[..i + 1], effectiveAccessOnly).records
      == HostWork(shares[..i], effectiveAccessOnly).records + ShareSent(shares[i], effectiveAccessOnly).records
    ensures HostWork(shares[..i + 1], effectiveAccessOnly).nodes
      == HostWork(shares[..i], effectiveAccessOnly).nodes + ShareSent(shares[i], effectiveAccessOnly).nodes
    ensures HostWork(shares[..i + 1], effectiveAccessOnly).edges
      == HostWork(shares[..i], effectiveAccessOnly).edges + ShareSent(shares[i], effectiveAccessOnly).edges
  {
    hide ShareSent;
    assert shares[..i + 1] == shares[..i] + [shares[i]];
    var before, all, more := HostWork(shares[..i], effectiveAccessOnly), HostWork(shares[..i + 1], effectiveAccessOnly),
      ShareSent(shares[i], effectiveAccessOnly);
    assert all.records == before.records + more.records;
    IdSetUnion(before.records, more.records);
  }

  lemma IdSetUnion(a: set<Node>, b: set<Node>)
    ensures IdSet(a + b) == IdSet(a) + IdSet(b)
  {
  }

  /** All shares of a target, one after the other. */
  method ProcessTarget(shares: seq<ShareJob>, og: OpenGraph, effectiveAccessOnly: bool)
    requires GoodShares(shares) && og.Valid()
    modifies og
    ensures og.Valid()
    ensures og.nodeIDs == old(og.nodeIDs) + HostWork(shares, effectiveAccessOnly).nodes
    ensures og.edgeKeys == old(og.edgeKeys) + HostWork(shares, effectiveAccessOnly).edges
    ensures LogFrom(old(og.nodeLog), og.nodeLog, HostWork(shares, effectiveAccessOnly).records)
    ensures old(og.edgeLog) <= og.edgeLog
  {
    hide OpenGraph.Valid, LogFrom, WalkShare, SentBy, WellFormed, Bounded, Tally, HostWork;
    NothingLogged(og.nodeLog);
    assert HostWork(shares[..0], effectiveAccessOnly) == Work({}, {}) by { HostWorkNone(effectiveAccessOnly); }
    for i := 0 to |shares|
      invariant og.Valid()
      invariant og.nodeIDs == old(og.nodeIDs) + HostWork(shares[..i], effectiveAccessOnly).nodes
      invariant og.edgeKeys == old(og.edgeKeys) + HostWork(shares[..i], effectiveAccessOnly).edges
      invariant LogFrom(old(og.nodeLog), og.nodeLog, HostWork(shares[..i], effectiveAccessOnly).records)
      invariant old(og.edgeLog) <= og.edgeLog
    {
      ghost var before := og.nodeLog;
      HostWorkNext(shares, effectiveAccessOnly, i);
      assert shares[i].Good();
      var flag := new TimeoutFlag(shares[i].world.fireAt);
      var _ := ProcessShare(shares[i].world, shares[i].bound, og, flag, effectiveAccessOnly);
      LogFromMore(old(og.nodeLog), before, og.nodeLog, HostWork(shares[..i], effectiveAccessOnly).records,
        ShareSent(shares[i], effectiveAccessOnly).records);
    }
    assert shares[..|shares|] == shares;
  }

  lemma NothingLogged(log: seq<Node>)
    ensures LogFrom(log, log, {})
  {
  }

  lemma LogFromMore(before: seq<Node>, middle: seq<Node>, after: seq<Node>, some: set<Node>, more: set<Node>)
    requires LogFrom(before, middle, some) && LogFrom(middle, after, more)
    ensures LogFrom(before, after, some + more)
  {
    forall k | |before| <= k < |after| ensures after[k] in some + more {
      if k < |middle| {
        assert middle[k] in some;
      }
    }
  }

  lemma HostWorkNone(effectiveAccessOnly: bool)
    ensures HostWork([], effectiveAccessOnly) == Work({}, {})
  {
  }

  // ----- one start of the program -----

  ghost predicate GoodTargets(targets: seq<string>, shares: string -> seq<ShareJob>) {
    forall t :: t in targets ==> GoodShares(shares(t))
  }

  ghost function WorkOf(shares: string -> seq<ShareJob>, effectiveAccessOnly: bool, target: string): Work {
    if GoodShares(shares(target)) then HostWork(shares(target), effectiveAccessOnly) else Work({}, {})
  }

  ghost function JobOf(targets: seq<string>, shares: string -> seq<ShareJob>, effectiveAccessOnly: bool): Job {
    Job(targets, t => WorkOf(shares, effectiveAccessOnly, t))
  }

  function SavedOf(cp: Checkpoint): Saved {
    Saved(Marks(cp.processed), cp.nodes, cp.edges)
  }

  ghost predicate GoodFile(job: Job, file: Option<Checkpoint>) {
    file.Some? ==> GoodSaved(job, SavedOf(file.value))
  }

  /** The store and the marks of a running scan: what is marked is in the store, and nothing but the job's work is. */
  ghost predicate Consistent(job: Job, marks: set<string>, og: OpenGraph)
    reads og
  {
    && og.Valid()
    && (forall t :: t in marks ==> job.work(t).nodes <= og.nodeIDs && job.work(t).edges <= og.edgeKeys)
    && Elements(og.nodeLog) <= AllRecords(job) && og.edgeKeys <= AllEdges(job)
  }

  lemma Saving(job: Job, cp: Checkpoint, og: OpenGraph)
    requires Consistent(job, Marks(cp.processed), og) && cp.nodes == og.nodeLog && cp.edges == og.edgeLog
    ensures GoodSaved(job, SavedOf(cp))
  {
    hide Marks;
    assert Elements(og.edgeLog) <= AllEdges(job);
    forall node | node in cp.nodes ensures PlannedNode(job, node) {
      assert node in Elements(og.nodeLog);
    }
    forall edge | edge in cp.edges ensures PlannedEdge(job, edge) {
      assert edge in AllEdges(job);
    }
  }

  lemma Restoring(job: Job, cp: Checkpoint, og: OpenGraph)
    requires GoodSaved(job, SavedOf(cp)) && og.Valid()
    requires og.nodeLog == cp.nodes && og.nodeIDs == Elements(Ids(cp.nodes)) && og.edgeKeys == Elements(cp.edges)
    ensures Consistent(job, Marks(cp.processed), og)
  {
    hide Marks;
    RecordsPlanned(job, cp.nodes);
    forall edge | edge in og.edgeKeys ensures edge in AllEdges(job) {
      assert PlannedEdge(job, edge);
    }
  }

  /** What a scan begins with: the file's marks and records when it resumes, nothing when it does not. */
  function Base(file: Option<Checkpoint>, resume: bool, enabled: bool): Checkpoint {
    if resume && enabled && file.Some? then file.value else Checkpoint(map[], [], [])
  }

  /** Restores the file's marks and graph into the fresh manager and store. */
  method Restore(ghost job: Job, file: Option<Checkpoint>, resume: bool, manager: Manager, og: OpenGraph)
    requires GoodFile(job, file) && og.Valid() && og.nodeLog == [] && og.edgeLog == [] &&
      manager.processedTargets == map[]
    modifies manager, og
    ensures Consistent(job, Marks(manager.processedTargets), og)
    ensures resume && manager.enabled && file.Some? ==>
      manager.processedTargets == file.value.processed && og.nodeLog == file.value.nodes &&
        og.edgeLog == file.value.edges
    ensures !(resume && manager.enabled && file.Some?) ==>
      manager.processedTargets == map[] && og.nodeLog == [] && og.edgeLog == []
  {
    hide GoodSaved;
    if resume && manager.enabled && file.Some? {
      GoodIds(job, file.value);
      manager.RestoreFrom(file.value);
      og.RestoreNodesAndEdges(file.value.nodes, file.value.edges);
      DeduplicatedFixpoint(file.value.edges);
      Restoring(job, file.value, og);
    }
  }

  lemma GoodIds(job: Job, cp: Checkpoint)
    requires GoodSaved(job, SavedOf(cp))
    ensures Distinct(Ids(cp.nodes)) && Distinct(cp.edges)
  {
  }

  // ----- what is done, and what is saved of it -----

  ghost function NodesOf(job: Job, done: seq<string>): set<string> {
    set t, id | t in done && id in job.work(t).nodes :: id
  }

  ghost function EdgesOf(job: Job, done: seq<string>): set<Edge> {
    set t, edge | t in done && edge in job.work(t).edges :: edge
  }

  /** Marks, nodes and edges are those of the base and of the targets done since, and the base's records come first. */
  ghost predicate HasWork(job: Job, base: Checkpoint, done: seq<string>, marks: set<string>, nodes: seq<Node>,
                        edges: seq<Edge>) {
    && marks == Marks(base.processed) + Elements(done)
    && base.nodes <= nodes && Elements(Ids(nodes)) == Elements(Ids(base.nodes)) + NodesOf(job, done)
    && base.edges <= edges && Elements(edges) == Elements(base.edges) + EdgesOf(job, done)
  }

  /** The number of targets done when the file was last written; none if it was not. */
  function SavedAfter(saves: nat -> bool, done: nat): Option<nat> {
    if done == 0 then None else if saves(done - 1) then Some(done) else SavedAfter(saves, done - 1)
  }

  /** The file is as it was, or holds the base and what had been done at the last save. */
  ghost predicate FileHolds(job: Job, base: Checkpoint, file: Option<Checkpoint>, enabled: bool, saves: nat -> bool,
                            done: seq<string>, file': Option<Checkpoint>) {
    match SavedAfter(saves, |done|)
    case None => file' == file
    case Some(n) =>
      && (!enabled ==> file' == file)
      && (enabled ==> n <= |done| && file'.Some?)
      && (enabled ==> HasWork(job, base, done[..n], Marks(file'.value.processed), file'.value.nodes, file'.value.edges))
  }

  lemma DoneMore(job: Job, done: seq<string>, target: string)
    ensures NodesOf(job, done + [target]) == NodesOf(job, done) + job.work(target).nodes
    ensures EdgesOf(job, done + [target]) == EdgesOf(job, done) + job.work(target).edges
    ensures Elements(done + [target]) == Elements(done) + {target}
  {
    assert (done + [target])[|done|] == target;
    assert forall t :: t in done + [target] <==> t in done || t == target;
  }

  lemma NothingDone(job: Job, base: Checkpoint)
    ensures HasWork(job, base, [], Marks(base.processed), base.nodes, base.edges)
  {
    assert NodesOf(job, []) == {} && EdgesOf(job, []) == {};
  }

  /** What the manager has marked; a manager that is switched off marks nothing. */
  ghost predicate UpTo(job: Job, base: Checkpoint, done: seq<string>, manager: Manager, og: OpenGraph)
    reads manager, og
  {
    && Consistent(job, Marks(manager.processedTargets), og)
    && HasWork(job, base, done, Marks(base.processed) + Elements(done), og.nodeLog, og.edgeLog)
    && Marks(manager.processedTargets) == Marks(base.processed) + if manager.enabled then Elements(done) else {}
  }

  /** A worker's part: the target's shares, then the mark. */
  method ProcessThenMark(ghost job: Job, target: string, ghost base: Checkpoint, ghost done: seq<string>,
                         shares: seq<ShareJob>, effectiveAccessOnly: bool, manager: Manager, og: OpenGraph)
    requires target in job.targets && GoodShares(shares) && job.work(target) == HostWork(shares, effectiveAccessOnly)
    requires UpTo(job, base, done, manager, og)
    modifies manager, og
    ensures UpTo(job, base, done + [target], manager, og)
  {
    hide OpenGraph.Valid, HostWork, AllEdges, AllRecords, Marks, GoodShares, NodesOf, EdgesOf;
    ghost var nodes, edges := og.nodeLog, og.edgeLog;
    LogsAre(og);
    ProcessTarget(shares, og, effectiveAccessOnly);
    LogsAre(og);
    TargetLogged(job, target, nodes, og.nodeLog);
    DoneMore(job, done, target);
    manager.MarkTargetProcessed(target);
  }

  lemma LogsAre(og: OpenGraph)
    requires og.Valid()
    ensures og.nodeIDs == Elements(Ids(og.nodeLog)) && og.edgeKeys == Elements(og.edgeLog)
  {
  }

  lemma TargetLogged(job: Job, target: string, before: seq<Node>, after: seq<Node>)
    requires target in job.targets && LogFrom(before, after, job.work(target).records)
    requires Elements(before) <= AllRecords(job)
    ensures Elements(after) <= AllRecords(job) && job.work(target).edges <= AllEdges(job)
  {
    forall node | node in after ensures node in AllRecords(job) {
      var k :| 0 <= k < |after| && after[k] == node;
      if k < |before| {
        assert before[k] in Elements(before);
      }
    }
  }

  method SaveNow(ghost job: Job, ghost base: Checkpoint, ghost done: seq<string>, manager: Manager, og: OpenGraph,
                 file: Option<Checkpoint>)
    returns (file': Option<Checkpoint>)
    requires UpTo(job, base, done, manager, og) && GoodFile(job, file)
    modifies og`nodesOnDisk, og`edgesOnDisk
    ensures GoodFile(job, file') && UpTo(job, base, done, manager, og)
    ensures if manager.enabled
      then file'.Some? && HasWork(job, base, done, Marks(file'.value.processed), file'.value.nodes, file'.value.edges)
      else file' == file
  {
    hide OpenGraph.Valid, AllRecords, AllEdges, Marks, GoodSaved, NodesOf, EdgesOf;
    file' := manager.SaveCheckpoint(og, file);
    if manager.enabled {
      Saving(job, file'.value, og);
    }
  }

  /** All targets that the file does not mark are done, so all work is in the store. */
  lemma Finished(job: Job, base: Checkpoint, done: seq<string>, manager: Manager, og: OpenGraph)
    requires UpTo(job, base, done, manager, og) && done == Remaining(job.targets, Marks(base.processed))
    requires forall t :: t in Marks(base.processed) ==>
      job.work(t).nodes <= Elements(Ids(base.nodes)) && job.work(t).edges <= Elements(base.edges)
    ensures og.Valid() && og.nodeIDs == AllNodes(job) && og.edgeKeys == AllEdges(job)
  {
    hide OpenGraph.Valid, Marks, NodesOf, EdgesOf, Remaining;
    LogsAre(og);
    RecordsAll(job, og.nodeLog);
    RemainingMembers(job.targets, Marks(base.processed));
    forall t | t in job.targets
      ensures job.work(t).nodes <= Elements(Ids(og.nodeLog)) && job.work(t).edges <= Elements(og.edgeLog)
    {
      if t in done {
        DoneHas(job, done, t);
      }
    }
    AllOf(job, og.nodeIDs, og.edgeKeys);
  }

  lemma RecordsAll(job: Job, nodes: seq<Node>)
    requires Elements(nodes) <= AllRecords(job)
    ensures Elements(Ids(nodes)) <= AllNodes(job)
  {
    forall k | 0 <= k < |nodes| ensures Ids(nodes)[k] in AllNodes(job) {
      assert nodes[k] in Elements(nodes);
      var t :| t in job.targets && nodes[k] in job.work(t).records;
      assert nodes[k].id in job.work(t).nodes;
    }
  }

  lemma DoneHas(job: Job, done: seq<string>, t: string)
    requires t in done
    ensures job.work(t).nodes <= NodesOf(job, done) && job.work(t).edges <= EdgesOf(job, done)
  {
  }

  lemma AllOf(job: Job, ids: set<string>, edges: set<Edge>)
    requires forall t :: t in job.targets ==> job.work(t).nodes <= ids && job.work(t).edges <= edges
    ensures AllNodes(job) <= ids && AllEdges(job) <= edges
  {
  }

  /**
   * One start of the program on a list of targets: restore, filter, then process and mark target by target, saving
   * now and then, dying before target number `diesAt`. The targets done are the unmarked ones, in order, up to there.
   * The file stays good; if it was written, it holds what the scan began with and what had been done at the last save,
   * so a resumed scan loses no mark and no record. The store has what the scan began with and the work of all done;
   * if it lives, that is the work of all targets.
   */
  method Scan(targets: seq<string>, shares: string -> seq<ShareJob>, effectiveAccessOnly: bool, filepath: string,
              resume: bool, file: Option<Checkpoint>, saves: nat -> bool, diesAt: nat)
    returns (file': Option<Checkpoint>, og: OpenGraph, completed: bool, ghost done: seq<string>)
    requires GoodTargets(targets, shares) && GoodFile(JobOf(targets, shares, effectiveAccessOnly), file)
    ensures var base := Base(file, resume, filepath != ""); var todo := Remaining(targets, Marks(base.processed));
      && (completed <==> |todo| <= diesAt) && done == (if completed then todo else todo[..diesAt])
    ensures var job, base := JobOf(targets, shares, effectiveAccessOnly), Base(file, resume, filepath != "");
      && GoodFile(job, file') && FileHolds(job, base, file, filepath != "", saves, done, file')
      && HasWork(job, base, done, Marks(base.processed) + Elements(done), og.nodeLog, og.edgeLog)
    ensures fresh(og) && og.Valid()
    ensures completed ==> og.nodeIDs == AllNodes(JobOf(targets, shares, effectiveAccessOnly))
    ensures completed ==> og.edgeKeys == AllEdges(JobOf(targets, shares, effectiveAccessOnly))
  {
    hide OpenGraph.Valid, GoodSaved, HostWork, AllNodes, AllEdges, Remaining, Marks, GoodShares, HasWork, Consistent;
    ghost var job := JobOf(targets, shares, effectiveAccessOnly);
    ghost var base := Base(file, resume, filepath != "");
    og := new OpenGraph();
    var manager := new Manager(filepath);
    Restore(job, file, resume, manager, og);
    BaseCovers(job, file, resume, filepath != "");
    NothingDone(job, base);
    var todo := manager.TargetsToProcess(targets);
    NoMarks();
    assert todo == Remaining(targets, Marks(base.processed));
    file', done := file, [];
    for i := 0 to |todo|
      invariant fresh(og) && fresh(manager) && manager.enabled == (filepath != "")
      invariant GoodFile(job, file') && UpTo(job, base, done, manager, og)
      invariant done == todo[..i] && i <= diesAt
      invariant FileHolds(job, base, file, filepath != "", saves, done, file')
    {
      hide UpTo, GoodFile, FileHolds;
      if i == diesAt {
        Sound(job, base, done, manager, og);
        return file', og, false, done;
      }
      assert todo[..i + 1] == todo[..i] + [todo[i]];
      assert todo[i] in targets;
      ProcessThenMark(job, todo[i], base, done, shares(todo[i]), effectiveAccessOnly, manager, og);
      ghost var before, earlier := done, file';
      done := done + [todo[i]];
      if saves(i) {
        file' := SaveNow(job, base, done, manager, og, file');
      }
      FileNext(job, base, file, filepath != "", saves, before, todo[i], earlier, file');
    }
    assert todo[..|todo|] == todo;
    Sound(job, base, done, manager, og);
    Finished(job, base, done, manager, og);
    completed := true;
  }

  lemma NoMarks()
    ensures Marks(map[]) == {}
  {
  }

  lemma BaseCovers(job: Job, file: Option<Checkpoint>, resume: bool, enabled: bool)
    requires GoodFile(job, file)
    ensures var base := Base(file, resume, enabled);
      forall t :: t in Marks(base.processed) ==>
        job.work(t).nodes <= Elements(Ids(base.nodes)) && job.work(t).edges <= Elements(base.edges)
  {
  }

  lemma FileNext(job: Job, base: Checkpoint, file: Option<Checkpoint>, enabled: bool, saves: nat -> bool,
                 done: seq<string>, target: string, before: Option<Checkpoint>, after: Option<Checkpoint>)
    requires FileHolds(job, base, file, enabled, saves, done, before)
    requires !saves(|done|) ==> after == before
    requires saves(|done|) && !enabled ==> after == before
    requires saves(|done|) && enabled ==>
      after.Some? && HasWork(job, base, done + [target], Marks(after.value.processed), after.value.nodes,
        after.value.edges)
    ensures FileHolds(job, base, file, enabled, saves, done + [target], after)
  {
    hide HasWork, Marks;
    var more := done + [target];
    if saves(|done|) {
      assert more[..|more|] == more;
    } else {
      assert forall n :: 0 <= n <= |done| ==> more[..n] == done[..n];
    }
  }

  lemma Sound(job: Job, base: Checkpoint, done: seq<string>, manager: Manager, og: OpenGraph)
    requires UpTo(job, base, done, manager, og)
    ensures og.Valid() && HasWork(job, base, done, Marks(base.processed) + Elements(done), og.nodeLog, og.edgeLog)
  {
  }

  /** A resumed scan does no target again that the file marks. */
  lemma NotAgain(targets: seq<string>, file: Checkpoint, t: string)
    ensures t in Remaining(targets, Marks(Base(Some(file), true, true).processed)) <==>
      t in targets && t !in Marks(file.processed)
  {
    hide Marks;
    RemainingMembers(targets, Marks(file.processed));
  }

  /** Whatever a resumed scan does and whenever it dies, every mark and every record of the file stays in the file. */
  lemma NothingLost(job: Job, file: Checkpoint, saves: nat -> bool, done: seq<string>, file': Option<Checkpoint>)
    requires FileHolds(job, Base(Some(file), true, true), Some(file), true, saves, done, file')
    ensures file'.Some? && Marks(file.processed) <= Marks(file'.value.processed)
    ensures file.nodes <= file'.value.nodes && file.edges <= file'.value.edges
  {
    hide Marks, NodesOf, EdgesOf;
  }

  // ----- what the finished graph says -----

  /** Host and share name identify a share. */
  ghost predicate DistinctShares(targets: seq<string>, shares: string -> seq<ShareJob>) {
    forall t, t', s, s' ::
      (&& t in targets && t' in targets && s in shares(t) && s' in shares(t')
       && s.world.host == s'.world.host && s.world.share == s'.world.share) ==> s == s'
  }

  /** An edge telling effective access leads to a file or directory of the share that emitted it. */
  lemma EffectiveSource(share: ShareJob, effectiveAccessOnly: bool, edge: Edge)
    requires share.Good() && edge.kind.CanEffective? && edge in ShareSent(share, effectiveAccessOnly).edges
    ensures exists q: Place :: q.Good() && edge.end.value == IdOf(share.world, q)
  {
    hide WalkShare, SentBy, SiteOf, WellFormed, Bounded, PlaceEdges, RootEdges, IdOf, Places, GoodNames;
    SentExact(share.world, share.bound, 0, effectiveAccessOnly);
    RootNotEffective(share.world, effectiveAccessOnly, edge);
    var site, places := SiteOf(share.world, effectiveAccessOnly), Places(WalkOf(share).run.events);
    var q :| q in places && edge in PlaceEdges(share.world, site, q);
    PlaceEdgesEnd(share.world, site, q, edge);
  }

  /** Two shares with an effective edge to the same place are the same host's same share. */
  lemma SameShare(share: ShareJob, other: ShareJob, effectiveAccessOnly: bool, p: Place, sid: Sid, access: Access)
    requires share.Good() && other.Good() && p.Good()
    requires EffectiveEdge(share.world, p, sid, access) in ShareSent(other, effectiveAccessOnly).edges
    requires share.world.separator == other.world.separator
    ensures share.world.host == other.world.host && share.world.share == other.world.share
  {
    hide ShareSent, WalkShare, Bounded, ContentId, RightsInForce, Principal;
    var edge := EffectiveEdge(share.world, p, sid, access);
    EffectiveSource(other, effectiveAccessOnly, edge);
    var q: Place :| q.Good() && edge.end.value == IdOf(other.world, q);
    var w, v := share.world, other.world;
    ContentIdInjective(w.separator, w.host, w.share, p.names, p.isDir, v.host, v.share, q.names, q.isDir);
  }

  /**
   * From the bytes of the DACLs to the edges of a resumed scan: when all targets are done, after any interleaving,
   * crashes and resumes, a CanEffective edge to a file or directory is in the graph exactly if the walk of its share
   * emits the item and the share's DACL and the DACL in force both allow the access to the SID.
   */
  lemma ResumedEffectiveAccess(
      targets: seq<string>, shares: string -> seq<ShareJob>, effectiveAccessOnly: bool,
      states: seq<State>, steps: seq<Step>, k: nat,
      t: string, share: ShareJob, p: Place, sid: Sid, access: Access)
    requires GoodTargets(targets, shares) && DistinctShares(targets, shares) && t in targets && share in shares(t)
    requires forall t', s' :: t' in targets && s' in shares(t') ==> s'.world.separator == share.world.separator
    requires p.Good() && sid.WellFormed()
    requires Behavior(JobOf(targets, shares, effectiveAccessOnly), states, steps) && k <= |steps|
    requires states[k].Up? && Complete(states[k].process)
    ensures share.Good() && |states| == |steps| + 1
    ensures EffectiveEdge(share.world, p, sid, access) in states[k].process.edgeLog <==>
      p in Places(WalkOf(share).run.events) && Allows(ShareAces(share.world), sid, access)
      && Allows(AcesInForce(share.world, p), sid, access)
  {
    hide WellFormed, Bounded, Places, Allows, AcesInForce, ShareAces, EffectiveEdge, Complete, AllEdges, AllNodes,
      ShareSent, HostWork, Next, Enabled;
    var job, edge := JobOf(targets, shares, effectiveAccessOnly), EffectiveEdge(share.world, p, sid, access);
    ResumeEquivalence(job, states, steps, k);
    assert edge in states[k].process.edgeLog <==> edge in AllEdges(job);
    EdgeOfShare(targets, shares, effectiveAccessOnly, t, share, p, sid, access);
    SentEffective(share, effectiveAccessOnly, p, sid, access);
  }

  lemma SentEffective(share: ShareJob, effectiveAccessOnly: bool, p: Place, sid: Sid, access: Access)
    requires share.Good() && p.Good() && sid.WellFormed()
    ensures EffectiveEdge(share.world, p, sid, access) in ShareSent(share, effectiveAccessOnly).edges <==>
      p in Places(WalkOf(share).run.events) && Allows(ShareAces(share.world), sid, access)
      && Allows(AcesInForce(share.world, p), sid, access)
  {
    hide WellFormed, Bounded, Places, Allows, AcesInForce, ShareAces, EffectiveEdge, WalkShare, SentBy;
    EffectiveAccess(share.world, share.bound, 0, effectiveAccessOnly, p, sid, access);
  }

  lemma EdgeOfShare(targets: seq<string>, shares: string -> seq<ShareJob>, effectiveAccessOnly: bool,
                    t: string, share: ShareJob, p: Place, sid: Sid, access: Access)
    requires GoodTargets(targets, shares) && DistinctShares(targets, shares) && t in targets && share in shares(t)
    requires forall t', s' :: t' in targets && s' in shares(t') ==> s'.world.separator == share.world.separator
    requires p.Good()
    ensures share.Good()
    ensures EffectiveEdge(share.world, p, sid, access) in AllEdges(JobOf(targets, shares, effectiveAccessOnly))
      <==> EffectiveEdge(share.world, p, sid, access) in ShareSent(share, effectiveAccessOnly).edges
  {
    hide EffectiveEdge, ShareSent, WellFormed, Bounded;
    var job, edge := JobOf(targets, shares, effectiveAccessOnly), EffectiveEdge(share.world, p, sid, access);
    assert GoodShares(shares(t)) && job.work(t) == HostWork(shares(t), effectiveAccessOnly);
    if edge in AllEdges(job) {
      var t' :| t' in targets && edge in job.work(t').edges;
      assert GoodShares(shares(t'));
      var other :| other in shares(t') && edge in ShareSent(other, effectiveAccessOnly).edges;
      SameShare(share, other, effectiveAccessOnly, p, sid, access);
      assert other == share;
    }
    if edge in ShareSent(share, effectiveAccessOnly).edges {
      assert edge in job.work(t).edges;
    }
  }

  /** A record with the ID of a file or directory is sent by the share of that file or directory alone. */
  lemma RecordSource(share: ShareJob, other: ShareJob, effectiveAccessOnly: bool, p: Place, record: Node)
    requires share.Good() && other.Good() && p.Good() && share.world.separator == other.world.separator
    requires record in ShareSent(other, effectiveAccessOnly).records && record.id == IdOf(share.world, p)
    ensures share.world.host == other.world.host && share.world.share == other.world.share
    ensures p in Places(WalkOf(other).run.events) && record == PlaceRecord(other.world, p)
  {
    hide SentBy, WalkShare, Bounded, ContentId, GoodNames;
    RecordsSent(other.world, other.bound, 0, effectiveAccessOnly, record);
    PlaceId(share.world, p);
    RootNoPlace(other.world, share.world, p);
    var q :| q in Places(WalkOf(other).run.events) && q.Good() && record == PlaceRecord(other.world, q);
    var w, v := share.world, other.world;
    ContentIdInjective(w.separator, w.host, w.share, p.names, p.isDir, v.host, v.share, q.names, q.isDir);
  }

  /**
   * The records of a resumed scan: when all targets are done, after any interleaving, crashes and resumes, the record
   * with the ID of a file or directory is in the graph exactly if the walk of its share emits it, and it is the right
   * one.
   */
  lemma ResumedRecords(
      targets: seq<string>, shares: string -> seq<ShareJob>, effectiveAccessOnly: bool,
      states: seq<State>, steps: seq<Step>, k: nat, t: string, share: ShareJob, p: Place, record: Node)
    requires GoodTargets(targets, shares) && DistinctShares(targets, shares) && t in targets && share in shares(t)
    requires forall t', s' :: t' in targets && s' in shares(t') ==> s'.world.separator == share.world.separator
    requires p.Good() && record.id == IdOf(share.world, p)
    requires Behavior(JobOf(targets, shares, effectiveAccessOnly), states, steps) && k <= |steps|
    requires states[k].Up? && Complete(states[k].process)
    ensures share.Good() && |states| == |steps| + 1 && p.names != []
    ensures record in states[k].process.nodeLog <==>
      p in Places(WalkOf(share).run.events) && record == PlaceRecord(share.world, p)
  {
    hide WellFormed, Bounded, Places, Complete, AllEdges, ShareSent, HostWork, Next, Enabled, IdOf, PlaceRecord;
    var job := JobOf(targets, shares, effectiveAccessOnly);
    ResumeEquivalence(job, states, steps, k);
    var log := states[k].process.nodeLog;
    assert share in shares(t) && GoodShares(shares(t)) && share.Good();
    forall r | r in log && r.id == record.id
      ensures p in Places(WalkOf(share).run.events) && r == PlaceRecord(share.world, p)
    {
      FromShare(targets, shares, effectiveAccessOnly, t, share, p, r);
    }
    if p in Places(WalkOf(share).run.events) && record == PlaceRecord(share.world, p) {
      PlaceSent(targets, shares, effectiveAccessOnly, t, share, p);
      assert record.id in Elements(Ids(log));
      var i :| 0 <= i < |log| && Ids(log)[i] == record.id;
      assert log[i] in log;
    }
  }

  lemma FromShare(targets: seq<string>, shares: string -> seq<ShareJob>, effectiveAccessOnly: bool,
                  t: string, share: ShareJob, p: Place, record: Node)
    requires GoodTargets(targets, shares) && DistinctShares(targets, shares) && t in targets && share in shares(t)
    requires forall t', s' :: t' in targets && s' in shares(t') ==> s'.world.separator == share.world.separator
    requires p.Good() && share.Good() && record.id == IdOf(share.world, p)
    requires record in AllRecords(JobOf(targets, shares, effectiveAccessOnly))
    ensures p in Places(WalkOf(share).run.events) && record == PlaceRecord(share.world, p)
  {
    hide ShareSent, WellFormed, Bounded, IdOf, Places;
    var job := JobOf(targets, shares, effectiveAccessOnly);
    var t' :| t' in targets && record in job.work(t').records;
    assert GoodShares(shares(t'));
    var other :| other in shares(t') && record in ShareSent(other, effectiveAccessOnly).records;
    RecordSource(share, other, effectiveAccessOnly, p, record);
    assert other == share;
  }

  lemma PlaceSent(targets: seq<string>, shares: string -> seq<ShareJob>, effectiveAccessOnly: bool,
                  t: string, share: ShareJob, p: Place)
    requires GoodTargets(targets, shares) && t in targets && share in shares(t) && share.Good() && p.Good()
    requires p in Places(WalkOf(share).run.events)
    ensures IdOf(share.world, p) in AllNodes(JobOf(targets, shares, effectiveAccessOnly))
  {
    hide WellFormed, Bounded, ContentId, Places, SentBy, WalkShare;
    var record := PlaceRecord(share.world, p);
    RecordsSent(share.world, share.bound, 0, effectiveAccessOnly, record);
    assert GoodShares(shares(t));
    assert record in ShareSent(share, effectiveAccessOnly).records;
    assert record in HostWork(shares(t), effectiveAccessOnly).records;
    assert record.id in JobOf(targets, shares, effectiveAccessOnly).work(t).nodes;
  }
}
