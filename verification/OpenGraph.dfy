/** The graph store: two append-only record logs with an in-memory index for deduplication. */
module OpenGraphs {
  import opened Common
  import opened Kinds

  /**
   * A node record. Of the properties there is one name: `name` of files and directories, `fqdn` of hosts, `displayName`
   * of shares.
   */
  datatype Node = Node(id: string, kind: NodeKind, name: string)

  datatype Matching = Unset | ById | ByName

  datatype KindFilter = AnyKind | Computer | Of(kind: NodeKind)

  datatype Endpoint = Endpoint(value: string, matchBy: Matching, kind: KindFilter)

  /** An edge record. Its description property is a function of its kind, so the record is its own key. */
  datatype Edge = Edge(start: Endpoint, end: Endpoint, kind: EdgeKind)

  function Ids(nodes: seq<Node>): seq<string> {
    seq(|nodes|, i requires 0 <= i < |nodes| => nodes[i].id)
  }

  function IdSet(nodes: set<Node>): set<string> {
    set n | n in nodes :: n.id
  }

  /** The log left by offering the records of `offered` one after the other to an empty index. */
  function Deduplicated<T(==,!new)>(offered: seq<T>): (log: seq<T>)
    ensures forall x :: x in log <==> x in offered
  {
    if offered == [] then []
    else
      var last := offered[|offered| - 1];
      var log := Deduplicated(offered[..|offered| - 1]);
      if last in log then log else log + [last]
  }

  /** Nothing is lost, nothing is doubled, and first insertions keep their order. */
  lemma {:induction false} DeduplicatedLog<T(!new)>(offered: seq<T>)
    ensures Distinct(Deduplicated(offered))
    ensures Elements(Deduplicated(offered)) == Elements(offered)
    ensures forall i, j :: 0 <= i < j < |Deduplicated(offered)| ==>
      FirstIndex(offered, Deduplicated(offered)[i]) < FirstIndex(offered, Deduplicated(offered)[j])
  {
    if offered != [] {
      var init, last := offered[..|offered| - 1], offered[|offered| - 1];
      DeduplicatedLog(init);
      var before, log := Deduplicated(init), Deduplicated(offered);
      forall x | x in init ensures x in offered && FirstIndex(offered, x) == FirstIndex(init, x) {
        var i := FirstIndex(init, x);
        assert offered[..i] == init[..i];
        FirstIndexUnique(offered, x, i);
      }
      forall i, j | 0 <= i < j < |log|
        ensures FirstIndex(offered, log[i]) < FirstIndex(offered, log[j])
      {
        assert log[i] == before[i] && log[i] in init;
        if j < |before| {
          assert log[j] == before[j] && log[j] in init;
        } else {
          assert offered[..|init|] == init && last !in init;
          FirstIndexUnique(offered, last, |init|);
        }
      }
    }
  }

  lemma {:induction false} DeduplicatedFixpoint<T(!new)>(s: seq<T>)
    requires Distinct(s)
    ensures Deduplicated(s) == s
  {
    if s != [] {
      DeduplicatedFixpoint(s[..|s| - 1]);
      assert s == s[..|s| - 1] + [s[|s| - 1]];
    }
  }

  class OpenGraph {
    var nodeIDs: set<string>
    var edgeKeys: set<Edge>
    var edgeCount: nat
    var nodeLog: seq<Node>
    var edgeLog: seq<Edge>
    // how many whole records have left the write buffers; a torn record behind them is unreadable
    var nodesOnDisk: nat
    var edgesOnDisk: nat

    /** The index and the logs describe the same records, each once. */
    ghost predicate Valid()
      reads this
    {
      && Distinct(Ids(nodeLog)) && Elements(Ids(nodeLog)) == nodeIDs
      && Distinct(edgeLog) && Elements(edgeLog) == edgeKeys
      && edgeCount == |edgeLog|
      && nodesOnDisk <= |nodeLog| && edgesOnDisk <= |edgeLog|
    }

    constructor ()
      ensures Valid() && nodeLog == [] && edgeLog == [] && nodeIDs == {} && edgeKeys == {}
    {
      nodeIDs, edgeKeys, edgeCount := {}, {}, 0;
      nodeLog, edgeLog := [], [];
      nodesOnDisk, edgesOnDisk := 0, 0;
    }

    method AddNode(node: Node)
      requires Valid()
      modifies this
      ensures Valid()
      ensures nodeIDs == old(nodeIDs) + {node.id}
      ensures nodeLog == if node.id in old(nodeIDs) then old(nodeLog) else old(nodeLog) + [node]
      ensures edgeKeys == old(edgeKeys) && edgeLog == old(edgeLog) && edgeCount == old(edgeCount)
    {
      if node.id in nodeIDs {
        return;
      }
      nodeIDs := nodeIDs + {node.id};
      ghost var before := Ids(nodeLog);
      nodeLog := nodeLog + [node];
      assert Ids(nodeLog) == before + [node.id];
      // the write buffer may spill any number of whole records
      var spilled :| nodesOnDisk <= spilled <= |nodeLog|;
      nodesOnDisk := spilled;
    }

    method AddEdge(edge: Edge) returns (added: bool)
      requires Valid()
      modifies this
      ensures Valid()
      ensures added == (edge !in old(edgeKeys))
      ensures edgeKeys == old(edgeKeys) + {edge}
      ensures edgeLog == if added then old(edgeLog) + [edge] else old(edgeLog)
      ensures edgeCount == old(edgeCount) + if added then 1 else 0
      ensures nodeIDs == old(nodeIDs) && nodeLog == old(nodeLog)
    {
      if edge in edgeKeys {
        return false;
      }
      edgeKeys := edgeKeys + {edge};
      edgeLog := edgeLog + [edge];
      var spilled :| edgesOnDisk <= spilled <= |edgeLog|;
      edgesOnDisk := spilled;
      edgeCount := edgeCount + 1;
      added := true;
    }

    method GetNodesAndEdges() returns (nodes: seq<Node>, edges: seq<Edge>)
      requires Valid()
      modifies this`nodesOnDisk, this`edgesOnDisk
      ensures Valid() && nodes == nodeLog && edges == edgeLog
    {
      nodesOnDisk, edgesOnDisk := |nodeLog|, |edgeLog|; // Flush
      nodes, edges := nodeLog[..nodesOnDisk], edgeLog[..edgesOnDisk];
    }

    /**
     * Edges go back through the index, nodes are rewritten as they come. So the store is
     * consistent again exactly when the restored nodes have distinct IDs.
     */
    method RestoreNodesAndEdges(nodes: seq<Node>, edges: seq<Edge>)
      modifies this
      ensures nodeLog == nodes && nodeIDs == Elements(Ids(nodes))
      ensures edgeLog == Deduplicated(edges) && edgeKeys == Elements(edges)
      ensures Valid() <==> Distinct(Ids(nodes))
    {
      nodeIDs, edgeKeys, edgeCount := {}, {}, 0;
      nodeLog, edgeLog := [], [];
      nodesOnDisk, edgesOnDisk := 0, 0;
      for i := 0 to |nodes|
        invariant nodeLog == nodes[..i] && nodeIDs == Elements(Ids(nodes[..i]))
        invariant edgeLog == [] && edgeKeys == {} && edgeCount == 0
        invariant nodesOnDisk == edgesOnDisk == 0
      {
        nodeIDs := nodeIDs + {nodes[i].id};
        nodeLog := nodeLog + [nodes[i]];
        assert Ids(nodes[..i + 1]) == Ids(nodes[..i]) + [nodes[i].id];
      }
      assert nodes[..|nodes|] == nodes;
      for j := 0 to |edges|
        invariant nodeLog == nodes && nodeIDs == Elements(Ids(nodes))
        invariant edgeLog == Deduplicated(edges[..j]) && edgeKeys == Elements(edgeLog)
        invariant edgeCount == |edgeLog|
        invariant nodesOnDisk == edgesOnDisk == 0
      {
        assert edges[..j + 1][..|edges[..j + 1]| - 1] == edges[..j];
        // addEdgeLocked
        if edges[j] !in edgeKeys {
          edgeKeys := edgeKeys + {edges[j]};
          edgeLog := edgeLog + [edges[j]];
          edgeCount := edgeCount + 1;
        }
      }
      assert edges[..|edges|] == edges;
      DeduplicatedLog(edges);
    }
  }

  /** What a checkpoint took out, a restore into any other store puts back, record for record. */
  method SaveThenRestore(from: OpenGraph, to: OpenGraph)
    requires from.Valid() && from != to
    modifies from`nodesOnDisk, from`edgesOnDisk, to
    ensures from.Valid() && to.Valid()
    ensures to.nodeLog == from.nodeLog && to.edgeLog == from.edgeLog
    ensures to.nodeIDs == from.nodeIDs && to.edgeKeys == from.edgeKeys && to.edgeCount == from.edgeCount
    ensures from.nodeLog == old(from.nodeLog) && from.edgeLog == old(from.edgeLog)
  {
    var nodes, edges := from.GetNodesAndEdges();
    DeduplicatedFixpoint(edges);
    to.RestoreNodesAndEdges(nodes, edges);
  }
}
