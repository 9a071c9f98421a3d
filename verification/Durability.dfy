/** What a checkpoint file is good for: a save has what there was, a resume loses nothing and repeats nothing. */
module Durability {
  import opened Common
  import opened OpenGraphs
  import opened Resume

  /** All marks and all records of the one are in the other, the records in front. */
  predicate Within(some: Saved, marks: set<string>, nodes: seq<Node>, edges: seq<Edge>) {
    some.marks <= marks && some.nodes <= nodes && some.edges <= edges
  }

  // ----- resuming loses nothing -----

  /** Whatever the saver has in hand, it holds the file, too. */
  predicate SaverKeeps(file: Saved, p: Process) {
    match p.saver
    case Idle => true
    case HasMarks(marks) => file.marks <= marks
    case HasFlushed(marks, n, e) => file.marks <= marks && |file.nodes| <= n && |file.edges| <= e
    case HasNodes(marks, nodes, e) => file.marks <= marks && file.nodes <= nodes && |file.edges| <= e
    case HasAll(saved) => Within(file, saved.marks, saved.nodes, saved.edges)
  }

  predicate Keeps(file: Saved, s: State) {
    && s.disk.Some? && Within(file, s.disk.value.marks, s.disk.value.nodes, s.disk.value.edges)
    && (s.Up? ==> Within(file, s.process.marks, s.process.nodeLog, s.process.edgeLog) && SaverKeeps(file, s.process))
  }

  /** Every start resumes, and the file is not cleaned up. */
  predicate Resuming(step: Step) {
    step != Start(false) && step != CleanUp
  }

  lemma StepKeeps(job: Job, file: Saved, s: State, step: Step)
    requires Keeps(file, s) && Enabled(job, s, step) && Resuming(step) && Distinct(s.disk.value.edges)
    ensures Keeps(file, Next(job, s, step))
  {
    if step.Start? {
      DeduplicatedFixpoint(s.disk.value.edges);
    }
  }

  /**
   * From a file on, as long as every start resumes and nobody cleans up: in every state, through any number of crashes,
   * the file on disk has all marks and records of that file, and so has the process while it runs.
   */
  lemma {:induction false} ResumingKeeps(job: Job, states: seq<State>, steps: seq<Step>, j: nat, k: nat)
    requires Behavior(job, states, steps) && j <= k <= |steps|
    requires states[j].Down? && states[j].disk.Some? && forall m :: j <= m < k ==> Resuming(steps[m])
    ensures |states| == |steps| + 1 && Keeps(states[j].disk.value, states[k])
  {
    hide Enabled, Next;
    if k > j {
      ResumingKeeps(job, states, steps, j, k - 1);
      RunInvariant(job, states, steps, k - 1);
      StepKeeps(job, states[j].disk.value, states[k - 1], steps[k - 1]);
    }
  }

  // ----- resuming repeats nothing -----

  /** No start and no crash in between. */
  predicate OneLife(steps: seq<Step>, j: nat, k: nat)
    requires j <= k <= |steps|
  {
    forall m :: j <= m < k ==> !steps[m].Start? && steps[m] != Crash
  }

  lemma {:induction false} StaysSkipped(job: Job, states: seq<State>, steps: seq<Step>, j: nat, k: nat, i: nat)
    requires Behavior(job, states, steps) && j < k <= |steps| && steps[j] == Start(true) && states[j].disk.Some?
    requires OneLife(steps, j + 1, k) && i < |job.targets| && job.targets[i] in states[j].disk.value.marks
    ensures |states| == |steps| + 1 && states[k].Up? && i < |states[k].process.workers| == |job.targets|
    ensures states[k].process.workers[i] == Skipped
  {
    if k > j + 1 {
      StaysSkipped(job, states, steps, j, k - 1, i);
    }
  }

  /** After a resume no target is launched that the file marked. */
  lemma NeverAgain(job: Job, states: seq<State>, steps: seq<Step>, j: nat, k: nat, i: nat)
    requires Behavior(job, states, steps) && j < k < |steps| && steps[j] == Start(true) && states[j].disk.Some?
    requires OneLife(steps, j + 1, k) && steps[k] == Launch(i)
    ensures i < |job.targets| && |states| == |steps| + 1 && job.targets[i] !in states[j].disk.value.marks
  {
    if i < |job.targets| && job.targets[i] in states[j].disk.value.marks {
      StaysSkipped(job, states, steps, j, k, i);
    }
  }

  // ----- a save has what there was -----

  /** Between the copy of the marks and the renaming the saver does nothing else, and the process lives. */
  predicate OneSave(steps: seq<Step>, a: nat, b: nat)
    requires a <= b <= |steps|
  {
    OneLife(steps, a, b) && forall m :: a <= m < b ==> steps[m] != CopyMarks && steps[m] != Rename && steps[m] != GiveUp
  }

  /** The saver has the marks of the state it began in, and of the logs at least what there was then. */
  predicate SavingFrom(was: Process, p: Process) {
    && was.nodeLog <= p.nodeLog && was.edgeLog <= p.edgeLog
    && match p.saver
       case Idle => false
       case HasMarks(marks) => marks == was.marks
       case HasFlushed(marks, n, e) => marks == was.marks && |was.nodeLog| <= n && |was.edgeLog| <= e
       case HasNodes(marks, nodes, e) =>
         marks == was.marks && was.nodeLog <= nodes <= p.nodeLog && |was.edgeLog| <= e
       case HasAll(saved) =>
         saved.marks == was.marks && was.nodeLog <= saved.nodes <= p.nodeLog && was.edgeLog <= saved.edges <= p.edgeLog
  }

  lemma {:induction false} StillSaving(job: Job, states: seq<State>, steps: seq<Step>, a: nat, k: nat)
    requires Behavior(job, states, steps) && a < k <= |steps| && steps[a] == CopyMarks && OneSave(steps, a + 1, k)
    ensures |states| == |steps| + 1 && states[a].Up? && states[k].Up? &&
      SavingFrom(states[a].process, states[k].process)
  {
    if k > a + 1 {
      StillSaving(job, states, steps, a, k - 1);
      SavingOn(job, states[a].process, states[k - 1], steps[k - 1]);
    }
  }

  lemma SavingOn(job: Job, was: Process, s: State, step: Step)
    requires s.Up? && SavingFrom(was, s.process) && Enabled(job, s, step)
    requires !step.Start? && step != Crash && step != CopyMarks && step != Rename && step != GiveUp
    ensures Next(job, s, step).Up? && SavingFrom(was, Next(job, s, step).process)
  {
  }

  /**
   * What a save writes: the marks as they were when it began, and of both logs at least what there was then and at most
   * what there is when it ends.
   */
  lemma SaveWrites(job: Job, states: seq<State>, steps: seq<Step>, a: nat, b: nat)
    requires Behavior(job, states, steps) && a < b < |steps| && steps[a] == CopyMarks && steps[b] == Rename
    requires OneSave(steps, a + 1, b)
    ensures |states| == |steps| + 1 && states[a].Up? && states[b].Up? && states[b + 1].disk.Some?
    ensures var was, now, saved := states[a].process, states[b].process, states[b + 1].disk.value;
      && saved.marks == was.marks
      && was.nodeLog <= saved.nodes <= now.nodeLog && was.edgeLog <= saved.edges <= now.edgeLog
  {
    StillSaving(job, states, steps, a, b);
  }
}
