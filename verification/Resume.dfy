/**
 * The checkpoint protocol as a transition system: workers emit and mark, the saver copies the marks, then reads the
 * node log, then the edge log, then replaces the file; at any moment the process may die and be started again.
 */
module Resume {
  import opened Common
  import opened OpenGraphs

  /** What processing a target adds to the graph; a deterministic server makes it a function of the target. */
  datatype Work = Work(records: set<Node>, edges: set<Edge>)
  {
    /** The IDs of the node records. */
    const nodes: set<string> := IdSet(records)
  }

  datatype Job = Job(targets: seq<string>, work: string -> Work)

  /** The file on disk. */
  datatype Saved = Saved(marks: set<string>, nodes: seq<Node>, edges: seq<Edge>)

  datatype Worker =
    | Skipped
    | Waiting
    | Running(records: set<Node>, edges: set<Edge>)
    | Finished
    | Marked

  /** How far the saver has come in writing a checkpoint. */
  datatype Saver =
    | Idle
    | HasMarks(marks: set<string>)
    | HasFlushed(marks: set<string>, nodeCount: nat, edgeCount: nat)
    | HasNodes(marks: set<string>, nodes: seq<Node>, edgeCount: nat)
    | HasAll(saved: Saved)

  datatype Process = Process(
    marks: set<string>, nodeLog: seq<Node>, edgeLog: seq<Edge>, workers: seq<Worker>, saver: Saver)

  datatype State = Down(disk: Option<Saved>) | Up(disk: Option<Saved>, process: Process)

  datatype Step =
    | Start(resume: bool)
    | Launch(i: nat)
    | SendNode(i: nat, node: Node)
    | SendEdge(i: nat, edge: Edge)
    | Finish(i: nat)
    | Mark(i: nat)
    | CopyMarks
    | Flush
    | ReadNodes(k: nat)
    | ReadEdges(k: nat)
    | Rename
    | GiveUp
    | Crash
    | CleanUp

  /** A process as it comes up: what is marked on disk is skipped. */
  function Started(job: Job, marks: set<string>, nodeLog: seq<Node>, edgeLog: seq<Edge>): Process {
    Process(marks, nodeLog, edgeLog,
            seq(|job.targets|, i requires 0 <= i < |job.targets| => if job.targets[i] in marks then Skipped
              else Waiting),
            Idle)
  }

  predicate Complete(p: Process) {
    forall i :: 0 <= i < |p.workers| ==> p.workers[i] == Skipped || p.workers[i] == Marked
  }

  predicate Enabled(job: Job, s: State, step: Step) {
    match step
    case Start(_) => s.Down?
    case Crash => s.Up?
    case CleanUp => s.Up? && Complete(s.process)
    case Launch(i) => s.Up? && i < |s.process.workers| == |job.targets| && s.process.workers[i] == Waiting
    case SendNode(i, node) => s.Up? && i < |s.process.workers| == |job.targets|
      && s.process.workers[i].Running? && node in job.work(job.targets[i]).records
    case SendEdge(i, edge) => s.Up? && i < |s.process.workers| == |job.targets|
      && s.process.workers[i].Running? && edge in job.work(job.targets[i]).edges
    case Finish(i) => s.Up? && i < |s.process.workers| == |job.targets|
      && var work := job.work(job.targets[i]); s.process.workers[i] == Running(work.records, work.edges)
    case Mark(i) => s.Up? && i < |s.process.workers| == |job.targets| && s.process.workers[i] == Finished
    case CopyMarks => s.Up? && s.process.saver.Idle?
    case Flush => s.Up? && s.process.saver.HasMarks?
    case ReadNodes(k) => s.Up? && s.process.saver.HasFlushed?
      && s.process.saver.nodeCount <= k <= |s.process.nodeLog|
    case ReadEdges(k) => s.Up? && s.process.saver.HasNodes?
      && s.process.saver.edgeCount <= k <= |s.process.edgeLog|
    case Rename => s.Up? && s.process.saver.HasAll?
    case GiveUp => s.Up?
  }

  /** The logs only grow; a reader sees every record flushed before and possibly some written since. */
  function Next(job: Job, s: State, step: Step): State
    requires Enabled(job, s, step)
  {
    match step
    case Start(resume) =>
      if resume && s.disk.Some?
      then Up(s.disk, Started(job, s.disk.value.marks, s.disk.value.nodes, Deduplicated(s.disk.value.edges)))
      else Up(s.disk, Started(job, {}, [], []))
    case Crash => Down(s.disk)
    case CleanUp => Up(None, s.process)
    case Launch(i) => s.(process := s.process.(workers := s.process.workers[i := Running({}, {})]))
    case SendNode(i, node) =>
      var p := s.process;
      var worker := p.workers[i];
      s.(process := p.(
        nodeLog := if node.id in Ids(p.nodeLog) then p.nodeLog else p.nodeLog + [node],
        workers := p.workers[i := worker.(records := worker.records + {node})]))
    case SendEdge(i, edge) =>
      var p := s.process;
      var worker := p.workers[i];
      s.(process := p.(
        edgeLog := if edge in p.edgeLog then p.edgeLog else p.edgeLog + [edge],
        workers := p.workers[i := worker.(edges := worker.edges + {edge})]))
    case Finish(i) => s.(process := s.process.(workers := s.process.workers[i := Finished]))
    case Mark(i) =>
      s.(process := s.process.(workers := s.process.workers[i := Marked], marks := s.process.marks + {job.targets[i]}))
    case CopyMarks => s.(process := s.process.(saver := HasMarks(s.process.marks)))
    case Flush =>
      s.(process := s.process.(saver := HasFlushed(s.process.saver.marks, |s.process.nodeLog|, |s.process.edgeLog|)))
    case ReadNodes(k) =>
      s.(process := s.process.(saver :=
        HasNodes(s.process.saver.marks, s.process.nodeLog[..k], s.process.saver.edgeCount)))
    case ReadEdges(k) =>
      s.(process := s.process.(saver :=
        HasAll(Saved(s.process.saver.marks, s.process.saver.nodes, s.process.edgeLog[..k]))))
    case Rename => Up(Some(s.process.saver.saved), s.process.(saver := Idle))
    case GiveUp => s.(process := s.process.(saver := Idle))
  }

  /** A run: it begins with nothing on disk and takes enabled steps. */
  predicate Behavior(job: Job, states: seq<State>, steps: seq<Step>) {
    && |states| == |steps| + 1 && states[0] == Down(None)
    && forall k :: 0 <= k < |steps| ==>
         Enabled(job, states[k], steps[k]) && states[k + 1] == Next(job, states[k], steps[k])
  }

  // ----- the invariant -----

  /** The work of the marked targets is in the logs. */
  ghost predicate CoversNodes(job: Job, marks: set<string>, nodes: seq<Node>) {
    forall t :: t in marks ==> job.work(t).nodes <= Elements(Ids(nodes))
  }

  ghost predicate CoversEdges(job: Job, marks: set<string>, edges: seq<Edge>) {
    forall t :: t in marks ==> job.work(t).edges <= Elements(edges)
  }

  ghost predicate PlannedNode(job: Job, node: Node) {
    exists t :: t in job.targets && node in job.work(t).records
  }

  ghost predicate PlannedEdge(job: Job, edge: Edge) {
    exists t :: t in job.targets && edge in job.work(t).edges
  }

  ghost predicate PlannedNodes(job: Job, nodes: seq<Node>) {
    Distinct(Ids(nodes)) && forall node :: node in nodes ==> PlannedNode(job, node)
  }

  ghost predicate PlannedEdges(job: Job, edges: seq<Edge>) {
    Distinct(edges) && forall edge :: edge in edges ==> PlannedEdge(job, edge)
  }

  ghost predicate GoodSaved(job: Job, saved: Saved) {
    && CoversNodes(job, saved.marks, saved.nodes) && CoversEdges(job, saved.marks, saved.edges)
    && PlannedNodes(job, saved.nodes) && PlannedEdges(job, saved.edges)
  }

  ghost predicate GoodWorker(job: Job, p: Process, i: nat)
    requires i < |p.workers| == |job.targets|
  {
    var work := job.work(job.targets[i]);
    match p.workers[i]
    case Skipped => job.targets[i] in p.marks
    case Waiting => true
    case Running(records, edges) =>
      && records <= work.records && IdSet(records) <= Elements(Ids(p.nodeLog))
      && edges <= work.edges && edges <= Elements(p.edgeLog)
    case Finished => work.nodes <= Elements(Ids(p.nodeLog)) && work.edges <= Elements(p.edgeLog)
    case Marked => job.targets[i] in p.marks
  }

  ghost predicate GoodSaver(job: Job, p: Process) {
    match p.saver
    case Idle => true
    case HasMarks(marks) => marks <= p.marks
    case HasFlushed(marks, n, e) =>
      n <= |p.nodeLog| && e <= |p.edgeLog| && CoversNodes(job, marks, p.nodeLog[..n]) &&
        CoversEdges(job, marks, p.edgeLog[..e])
    case HasNodes(marks, nodes, e) =>
      e <= |p.edgeLog| && CoversNodes(job, marks, nodes) && PlannedNodes(job, nodes) &&
        CoversEdges(job, marks, p.edgeLog[..e])
    case HasAll(saved) => GoodSaved(job, saved)
  }

  ghost predicate GoodProcess(job: Job, p: Process) {
    && |p.workers| == |job.targets|
    && CoversNodes(job, p.marks, p.nodeLog) && CoversEdges(job, p.marks, p.edgeLog)
    && PlannedNodes(job, p.nodeLog) && PlannedEdges(job, p.edgeLog)
    && (forall i :: 0 <= i < |p.workers| ==> GoodWorker(job, p, i))
    && GoodSaver(job, p)
  }

  ghost predicate Invariant(job: Job, s: State) {
    && (s.disk.Some? ==> GoodSaved(job, s.disk.value))
    && (s.Up? ==> GoodProcess(job, s.process))
  }

  // ----- the invariant holds in every run -----

  lemma IdsAppend(nodes: seq<Node>, node: Node)
    ensures Ids(nodes + [node]) == Ids(nodes) + [node.id]
    ensures Elements(Ids(nodes + [node])) == Elements(Ids(nodes)) + {node.id}
  {
  }

  /** A prefix of a planned log is planned; whatever a prefix covers, the log covers. */
  lemma Prefix(job: Job, marks: set<string>, nodes: seq<Node>, edges: seq<Edge>, n: nat, n': nat, e: nat, e': nat)
    requires n <= n' <= |nodes| && e <= e' <= |edges|
    ensures PlannedNodes(job, nodes) ==> PlannedNodes(job, nodes[..n'])
    ensures PlannedEdges(job, edges) ==> PlannedEdges(job, edges[..e'])
    ensures CoversNodes(job, marks, nodes[..n]) ==> CoversNodes(job, marks, nodes[..n'])
    ensures CoversEdges(job, marks, edges[..e]) ==> CoversEdges(job, marks, edges[..e'])
  {
    assert Ids(nodes[..n]) == Ids(nodes)[..n] && Ids(nodes[..n']) == Ids(nodes)[..n'];
    assert Elements(Ids(nodes)[..n]) <= Elements(Ids(nodes)[..n']);
    assert Elements(edges[..e]) <= Elements(edges[..e']);
  }

  lemma StartPreserves(job: Job, s: State, resume: bool)
    requires Invariant(job, s) && Enabled(job, s, Start(resume))
    ensures Invariant(job, Next(job, s, Start(resume)))
  {
    if resume && s.disk.Some? {
      DeduplicatedFixpoint(s.disk.value.edges);
    }
  }

  lemma SendNodePreserves(job: Job, s: State, i: nat, node: Node)
    requires Invariant(job, s) && Enabled(job, s, SendNode(i, node))
    ensures Invariant(job, Next(job, s, SendNode(i, node)))
  {
    hide PlannedEdges, CoversEdges, GoodSaved;
    var p, p' := s.process, Next(job, s, SendNode(i, node)).process;
    IdsAppend(p.nodeLog, node);
    assert job.targets[i] in job.targets;
    assert Elements(Ids(p.nodeLog)) <= Elements(Ids(p'.nodeLog)) && node.id in Ids(p'.nodeLog);
    assert PlannedNodes(job, p'.nodeLog) && CoversNodes(job, p'.marks, p'.nodeLog);
    assert forall n :: 0 <= n <= |p.nodeLog| ==> p'.nodeLog[..n] == p.nodeLog[..n];
    assert forall j :: 0 <= j < |p.workers| ==> GoodWorker(job, p, j) ==> GoodWorker(job, p', j);
  }

  lemma SendEdgePreserves(job: Job, s: State, i: nat, edge: Edge)
    requires Invariant(job, s) && Enabled(job, s, SendEdge(i, edge))
    ensures Invariant(job, Next(job, s, SendEdge(i, edge)))
  {
    hide PlannedNodes, CoversNodes, GoodSaved;
    var p, p' := s.process, Next(job, s, SendEdge(i, edge)).process;
    assert job.targets[i] in job.targets;
    assert Elements(p.edgeLog) <= Elements(p'.edgeLog) && edge in p'.edgeLog;
    assert PlannedEdges(job, p'.edgeLog) && CoversEdges(job, p'.marks, p'.edgeLog);
    assert forall n :: 0 <= n <= |p.edgeLog| ==> p'.edgeLog[..n] == p.edgeLog[..n];
    assert forall j :: 0 <= j < |p.workers| ==> GoodWorker(job, p, j) ==> GoodWorker(job, p', j);
  }

  /** Work comes before its mark. */
  lemma WorkerPreserves(job: Job, s: State, step: Step)
    requires step.Launch? || step.Finish? || step.Mark?
    requires Invariant(job, s) && Enabled(job, s, step)
    ensures Invariant(job, Next(job, s, step))
  {
    hide PlannedNodes, PlannedEdges, GoodSaved;
    var p, p' := s.process, Next(job, s, step).process;
    assert GoodWorker(job, p, step.i);
    assert forall j :: 0 <= j < |p.workers| ==> GoodWorker(job, p, j) ==> GoodWorker(job, p', j);
  }

  /** Marks are copied before the graph is read. */
  lemma SaverPreserves(job: Job, s: State, step: Step)
    requires step.CopyMarks? || step.Flush? || step.ReadNodes? || step.ReadEdges? || step.Rename? || step.GiveUp?
    requires Invariant(job, s) && Enabled(job, s, step)
    ensures Invariant(job, Next(job, s, step))
  {
    hide PlannedNodes, PlannedEdges, CoversNodes, CoversEdges;
    var p, p' := s.process, Next(job, s, step).process;
    assert forall j :: 0 <= j < |p.workers| ==> GoodWorker(job, p, j) ==> GoodWorker(job, p', j);
    match step {
      case Flush =>
        FlushCovers(job, p);
      case ReadNodes(k) =>
        Prefix(job, p.saver.marks, p.nodeLog, p.edgeLog, p.saver.nodeCount, k, 0, 0);
      case ReadEdges(k) =>
        Prefix(job, p.saver.marks, p.nodeLog, p.edgeLog, 0, 0, p.saver.edgeCount, k);
      case _ =>
    }
  }

  lemma FlushCovers(job: Job, p: Process)
    requires GoodProcess(job, p) && p.saver.HasMarks?
    ensures CoversNodes(job, p.saver.marks, p.nodeLog[..|p.nodeLog|]) &&
      CoversEdges(job, p.saver.marks, p.edgeLog[..|p.edgeLog|])
  {
    assert p.nodeLog[..|p.nodeLog|] == p.nodeLog && p.edgeLog[..|p.edgeLog|] == p.edgeLog;
  }

  lemma StepPreserves(job: Job, s: State, step: Step)
    requires Invariant(job, s) && Enabled(job, s, step)
    ensures Invariant(job, Next(job, s, step))
  {
    hide GoodProcess, GoodSaved;
    match step {
      case Start(resume) => StartPreserves(job, s, resume);
      case Crash =>
      case CleanUp =>
      case SendNode(i, node) => SendNodePreserves(job, s, i, node);
      case SendEdge(i, edge) => SendEdgePreserves(job, s, i, edge);
      case Launch(_) => WorkerPreserves(job, s, step);
      case Finish(_) => WorkerPreserves(job, s, step);
      case Mark(_) => WorkerPreserves(job, s, step);
      case _ => SaverPreserves(job, s, step);
    }
  }

  lemma {:induction false} RunInvariant(job: Job, states: seq<State>, steps: seq<Step>, k: nat)
    requires Behavior(job, states, steps) && k <= |steps|
    ensures Invariant(job, states[k])
  {
    if k > 0 {
      RunInvariant(job, states, steps, k - 1);
      StepPreserves(job, states[k - 1], steps[k - 1]);
    }
  }

  // ----- what is on disk, and what a completed run has -----

  /**
   * In every reachable state: whatever the checkpoint file marks as processed, it holds all of, node by node and
   * edge by edge; and its node IDs are distinct, so that restoring it gives a consistent store.
   */
  lemma CheckpointCut(job: Job, states: seq<State>, steps: seq<Step>, k: nat)
    requires Behavior(job, states, steps) && k <= |steps| && states[k].disk.Some?
    ensures |states| == |steps| + 1 && var saved := states[k].disk.value;
      && (forall t :: t in saved.marks ==>
            job.work(t).nodes <= Elements(Ids(saved.nodes)) && job.work(t).edges <= Elements(saved.edges))
      && Distinct(Ids(saved.nodes)) && Distinct(saved.edges)
  {
    hide Next, Enabled;
    RunInvariant(job, states, steps, k);
  }

  function AllNodes(job: Job): set<string> {
    set t, id | t in job.targets && id in job.work(t).nodes :: id
  }

  function AllRecords(job: Job): set<Node> {
    set t, node | t in job.targets && node in job.work(t).records :: node
  }

  /** No two records of the job have one ID. */
  predicate OneRecordEach(job: Job) {
    forall a, b :: a in AllRecords(job) && b in AllRecords(job) && a.id == b.id ==> a == b
  }

  function AllEdges(job: Job): set<Edge> {
    set t, edge | t in job.targets && edge in job.work(t).edges :: edge
  }

  /**
   * Whenever all workers are done, after any interleaving, any saves and any number of crashes and resumes, the
   * graph consists of what the targets' work adds up to, each record once. So no two completed runs differ, unless
   * the work has several records for one ID, and then in nothing but which of them came first.
   */
  lemma ResumeEquivalence(job: Job, states: seq<State>, steps: seq<Step>, k: nat)
    requires Behavior(job, states, steps) && k <= |steps| && states[k].Up? && Complete(states[k].process)
    ensures |states| == |steps| + 1 && var p := states[k].process;
      && Elements(Ids(p.nodeLog)) == AllNodes(job) && Distinct(Ids(p.nodeLog))
      && Elements(p.nodeLog) <= AllRecords(job) && (OneRecordEach(job) ==> Elements(p.nodeLog) == AllRecords(job))
      && Elements(p.edgeLog) == AllEdges(job) && Distinct(p.edgeLog)
  {
    hide Next, Enabled, GoodSaver, Elements;
    RunInvariant(job, states, steps, k);
    var p := states[k].process;
    forall t | t in job.targets ensures t in p.marks {
      var i :| 0 <= i < |job.targets| && job.targets[i] == t;
      assert GoodWorker(job, p, i);
    }
    CompleteLogs(job, p);
  }

  /**
   * The records of a planned log are records of the job; a log with all IDs has all of them, if there is one for each
   * ID.
   */
  lemma RecordsPlanned(job: Job, nodes: seq<Node>)
    requires PlannedNodes(job, nodes)
    ensures Elements(nodes) <= AllRecords(job) && Elements(Ids(nodes)) <= AllNodes(job)
    ensures OneRecordEach(job) && AllNodes(job) <= Elements(Ids(nodes)) ==> Elements(nodes) == AllRecords(job)
  {
    forall k | 0 <= k < |nodes| ensures nodes[k] in AllRecords(job) && Ids(nodes)[k] in AllNodes(job) {
      assert PlannedNode(job, nodes[k]);
      var t :| t in job.targets && nodes[k] in job.work(t).records;
      assert nodes[k].id in job.work(t).nodes;
    }
    if OneRecordEach(job) && AllNodes(job) <= Elements(Ids(nodes)) {
      forall record | record in AllRecords(job) ensures record in nodes {
        var t :| t in job.targets && record in job.work(t).records;
        assert record.id in job.work(t).nodes && record.id in AllNodes(job);
        assert record.id in Elements(Ids(nodes));
        var k :| 0 <= k < |nodes| && Ids(nodes)[k] == record.id;
        assert nodes[k] in Elements(nodes) && nodes[k] == record;
      }
    }
  }

  lemma CompleteLogs(job: Job, p: Process)
    requires CoversNodes(job, p.marks, p.nodeLog) && CoversEdges(job, p.marks, p.edgeLog)
    requires PlannedNodes(job, p.nodeLog) && PlannedEdges(job, p.edgeLog)
    requires forall t :: t in job.targets ==> t in p.marks
    ensures Elements(Ids(p.nodeLog)) == AllNodes(job) && Elements(p.edgeLog) == AllEdges(job)
    ensures Elements(p.nodeLog) <= AllRecords(job) && (OneRecordEach(job) ==> Elements(p.nodeLog) == AllRecords(job))
  {
    RecordsPlanned(job, p.nodeLog);
    forall id | id in AllNodes(job) ensures id in Elements(Ids(p.nodeLog)) {
      var t :| t in job.targets && id in job.work(t).nodes;
    }
    forall edge | edge in AllEdges(job) ensures edge in Elements(p.edgeLog) {
      var t :| t in job.targets && edge in job.work(t).edges;
    }
  }

  // ----- every run can be completed -----

  /** What a worker still has to do, in steps. */
  function Effort(work: Work, worker: Worker): nat {
    match worker
    case Waiting => |work.records| + |work.edges| + 3
    case Running(records, edges) => |work.records - records| + |work.edges - edges| + 2
    case Finished => 1
    case _ => 0
  }

  function Efforts(job: Job, workers: seq<Worker>): (total: nat)
    requires |workers| <= |job.targets|
  {
    if workers == [] then 0
    else
      var last := |workers| - 1;
      Efforts(job, workers[..last]) + Effort(job.work(job.targets[last]), workers[last])
  }

  lemma {:induction false} EffortsUpdate(job: Job, workers: seq<Worker>, i: nat, worker: Worker)
    requires i < |workers| <= |job.targets|
    ensures Efforts(job, workers[i := worker])
      == Efforts(job, workers) - Effort(job.work(job.targets[i]), workers[i]) + Effort(job.work(job.targets[i]), worker)
  {
    hide Effort;
    var last := |workers| - 1;
    if i == last {
      assert workers[i := worker][..last] == workers[..last];
    } else {
      assert workers[i := worker][..last] == workers[..last][i := worker];
      EffortsUpdate(job, workers[..last], i, worker);
    }
  }

  lemma OneLess<T>(all: set<T>, done: set<T>, x: T)
    requires x in all - done
    ensures |all - (done + {x})| == |all - done| - 1
  {
    assert all - (done + {x}) == (all - done) - {x};
  }

  /** The step is possible, and it brings worker i nearer to being done. */
  predicate Advances(job: Job, disk: Option<Saved>, p: Process, i: nat, step: Step, worker: Worker)
    requires i < |p.workers| == |job.targets|
  {
    && Enabled(job, Up(disk, p), step) && Next(job, Up(disk, p), step).Up?
    && Next(job, Up(disk, p), step).process.workers == p.workers[i := worker]
    && Effort(job.work(job.targets[i]), worker) < Effort(job.work(job.targets[i]), p.workers[i])
  }

  lemma NodeAdvances(job: Job, disk: Option<Saved>, p: Process, i: nat, node: Node)
    requires i < |p.workers| == |job.targets| && p.workers[i].Running?
    requires node in job.work(job.targets[i]).records - p.workers[i].records
    ensures Advances(job, disk, p, i, SendNode(i, node), Running(p.workers[i].records + {node}, p.workers[i].edges))
  {
    hide Ids;
    OneLess(job.work(job.targets[i]).records, p.workers[i].records, node);
  }

  lemma EdgeAdvances(job: Job, disk: Option<Saved>, p: Process, i: nat, edge: Edge)
    requires i < |p.workers| == |job.targets| && p.workers[i].Running?
    requires edge in job.work(job.targets[i]).edges - p.workers[i].edges
    ensures Advances(job, disk, p, i, SendEdge(i, edge), Running(p.workers[i].records, p.workers[i].edges + {edge}))
  {
    hide Ids;
    OneLess(job.work(job.targets[i]).edges, p.workers[i].edges, edge);
  }

  lemma RunningProgress(job: Job, disk: Option<Saved>, p: Process, i: nat) returns (step: Step, worker: Worker)
    requires i < |p.workers| == |job.targets| && p.workers[i].Running?
    requires p.workers[i].records <= job.work(job.targets[i]).records &&
      p.workers[i].edges <= job.work(job.targets[i]).edges
    ensures Advances(job, disk, p, i, step, worker)
  {
    var work, records, edges := job.work(job.targets[i]), p.workers[i].records, p.workers[i].edges;
    if records == work.records && edges == work.edges {
      step, worker := Finish(i), Finished;
    } else {
      hide Advances;
      if node :| node in work.records - records {
        step, worker := SendNode(i, node), Running(records + {node}, edges);
        NodeAdvances(job, disk, p, i, node);
      } else {
        assert forall node :: node in work.records ==> node in records by {
          assert forall node :: node in work.records && node !in records ==> node in work.records - records;
        }
        assert records == work.records;
        assert !(work.edges <= edges);
        var edge :| edge in work.edges && edge !in edges;
        step, worker := SendEdge(i, edge), Running(records, edges + {edge});
        EdgeAdvances(job, disk, p, i, edge);
      }
    }
  }

  /** A worker that is not done can always advance. */
  lemma Progress(job: Job, disk: Option<Saved>, p: Process, i: nat) returns (step: Step, worker: Worker)
    requires i < |p.workers| == |job.targets| && GoodWorker(job, p, i) && p.workers[i] != Skipped &&
      p.workers[i] != Marked
    ensures Advances(job, disk, p, i, step, worker)
  {
    hide Ids, Elements;
    match p.workers[i] {
      case Waiting =>
        step, worker := Launch(i), Running({}, {});
        var work := job.work(job.targets[i]);
        assert work.records - {} == work.records && work.edges - {} == work.edges;
      case Running(records, edges) =>
        step, worker := RunningProgress(job, disk, p, i);
      case Finished =>
        step, worker := Mark(i), Marked;
    }
  }

  /** From every state the protocol can get into it can still complete, in a bounded number of steps. */
  lemma {:induction false} CanComplete(job: Job, s: State) returns (states: seq<State>, steps: seq<Step>)
    requires Invariant(job, s)
    ensures |states| == |steps| + 1 && states[0] == s
    ensures forall k :: 0 <= k < |steps| ==>
      Enabled(job, states[k], steps[k]) && states[k + 1] == Next(job, states[k], steps[k])
    ensures states[|steps|].Up? && Complete(states[|steps|].process)
    decreases s.Down?, if s.Up? then Efforts(job, s.process.workers) else 0
  {
    hide GoodSaved, CoversNodes, CoversEdges, PlannedNodes, PlannedEdges, GoodSaver, GoodWorker, Effort;
    if s.Up? && Complete(s.process) {
      return [s], [];
    }
    var step: Step;
    if s.Down? {
      step := Start(true);
    } else {
      var i :| 0 <= i < |s.process.workers| && s.process.workers[i] != Skipped && s.process.workers[i] != Marked;
      var worker;
      step, worker := Progress(job, s.disk, s.process, i);
      EffortsUpdate(job, s.process.workers, i, worker);
    }
    StepPreserves(job, s, step);
    states, steps := CanComplete(job, Next(job, s, step));
    states, steps := [s] + states, [step] + steps;
  }
}
