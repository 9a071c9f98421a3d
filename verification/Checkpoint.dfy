/** Checkpoint and resume: the manager, the filter of processed targets, and the protocol they take part in. */
module Checkpoints {
  import opened Common
  import opened OpenGraphs

  // ----- the manager -----

  /** The saved part of a scan. */
  datatype Checkpoint = Checkpoint(processed: map<string, bool>, nodes: seq<Node>, edges: seq<Edge>)

  /** The targets a map marks as processed. */
  function Marks(processed: map<string, bool>): set<string> {
    set t | t in processed && processed[t]
  }

  class Manager {
    const enabled: bool
    var processedTargets: map<string, bool>

    constructor (filepath: string)
      ensures enabled == (filepath != "") && processedTargets == map[]
    {
      enabled, processedTargets := filepath != "", map[];
    }

    method MarkTargetProcessed(target: string)
      modifies this
      ensures Marks(processedTargets) == if enabled then Marks(old(processedTargets)) + {target}
        else Marks(old(processedTargets))
    {
      if !enabled {
        return;
      }
      processedTargets := processedTargets[target := true];
    }

    function IsTargetProcessed(target: string): (processed: bool)
      reads this
      ensures processed <==> enabled && target in Marks(processedTargets)
    {
      enabled && target in processedTargets && processedTargets[target]
    }

    /** The copy saveCheckpoint makes under the read lock, key by key in any order. */
    method CopyProcessed() returns (copy: map<string, bool>)
      ensures copy == processedTargets
    {
      copy := map[];
      var keys := processedTargets.Keys;
      while keys != {}
        invariant keys <= processedTargets.Keys
        invariant copy == map t | t in processedTargets && t !in keys :: processedTargets[t]
      {
        var t :| t in keys;
        copy := copy[t := processedTargets[t]];
        keys := keys - {t};
      }
    }

    /** The marks are copied first, the graph is read afterwards; what is written then replaces the old file. */
    method SaveCheckpoint(og: OpenGraph, file: Option<Checkpoint>) returns (file': Option<Checkpoint>)
      requires og.Valid()
      modifies og`nodesOnDisk, og`edgesOnDisk
      ensures og.Valid()
      ensures file' == if enabled then Some(Checkpoint(processedTargets, og.nodeLog, og.edgeLog)) else file
    {
      if !enabled {
        return file;
      }
      var processed := CopyProcessed();
      var nodes, edges := og.GetNodesAndEdges();
      file' := Some(Checkpoint(processed, nodes, edges));
    }

    method RestoreFrom(cp: Checkpoint)
      modifies this
      ensures processedTargets == cp.processed
    {
      processedTargets := cp.processed;
    }

    /** The targets that are still to be scanned, in the order given. */
    method TargetsToProcess(loaded: seq<string>) returns (todo: seq<string>)
      ensures forall t :: t in todo <==> t in loaded && !(enabled && t in Marks(processedTargets))
      ensures todo == Remaining(loaded, if enabled then Marks(processedTargets) else {})
    {
      todo := [];
      for i := 0 to |loaded|
        invariant todo == Remaining(loaded[..i], if enabled then Marks(processedTargets) else {})
      {
        assert loaded[..i + 1][..i] == loaded[..i];
        if IsTargetProcessed(loaded[i]) {
          continue;
        }
        todo := todo + [loaded[i]];
      }
      assert loaded[..|loaded|] == loaded;
      RemainingMembers(loaded, if enabled then Marks(processedTargets) else {});
    }
  }

  function Remaining(loaded: seq<string>, marks: set<string>): seq<string> {
    if loaded == [] then []
    else
      var last := loaded[|loaded| - 1];
      Remaining(loaded[..|loaded| - 1], marks) + if last in marks then [] else [last]
  }

  lemma {:induction false} RemainingMembers(loaded: seq<string>, marks: set<string>)
    ensures forall t :: t in Remaining(loaded, marks) <==> t in loaded && t !in marks
  {
    if loaded != [] {
      RemainingMembers(loaded[..|loaded| - 1], marks);
      assert loaded == loaded[..|loaded| - 1] + [loaded[|loaded| - 1]];
    }
  }

  /** What remains of two lists one after the other; so the filter keeps the order and every repetition. */
  lemma {:induction false} RemainingConcat(a: seq<string>, b: seq<string>, marks: set<string>)
    ensures Remaining(a + b, marks) == Remaining(a, marks) + Remaining(b, marks)
  {
    hide Remaining;
    if b == [] {
      RemainingLast(b, marks);
      assert a + b == a;
    } else {
      var init, last := b[..|b| - 1], b[|b| - 1];
      assert (a + b)[..|a + b| - 1] == a + init && (a + b)[|a + b| - 1] == last;
      RemainingLast(b, marks);
      RemainingLast(a + b, marks);
      RemainingConcat(a, init, marks);
    }
  }

  lemma RemainingLast(loaded: seq<string>, marks: set<string>)
    ensures Remaining(loaded, marks) ==
      if loaded == [] then []
      else
        var last := loaded[|loaded| - 1];
        Remaining(loaded[..|loaded| - 1], marks) + if last in marks then [] else [last]
  {
  }

  /** Of one target. */
  lemma RemainingOne(t: string, marks: set<string>)
    ensures Remaining([t], marks) == if t in marks then [] else [t]
  {
    assert [t][..0] == [];
  }
}
