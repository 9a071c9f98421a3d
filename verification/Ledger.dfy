/** Runs of the graph store: any interleaving of additions by several contexts, and of restores. */
module Ledgers {
  import opened Common
  import opened OpenGraphs

  /** The lock sections of the store; an edge is added on behalf of a context, which counts it if it is new. */
  datatype Call = PutNode(node: Node) | PutEdge(context: nat, edge: Edge) | Restore(nodes: seq<Node>, edges: seq<Edge>)

  /** The logs, and the totalEdgesCreated of each context. */
  datatype Store = Store(nodes: seq<Node>, edges: seq<Edge>, created: seq<int>)

  /** The call names an existing context, and restored nodes have distinct IDs. */
  predicate Proper(call: Call, contexts: nat) {
    match call
    case PutNode(_) => true
    case PutEdge(context, _) => context < contexts
    case Restore(nodes, _) => Distinct(Ids(nodes))
  }

  function After(store: Store, call: Call): (after: Store)
    requires Proper(call, |store.created|)
    ensures |after.created| == |store.created|
  {
    match call
    case PutNode(node) => if node.id in Ids(store.nodes) then store else store.(nodes := store.nodes + [node])
    case PutEdge(context, edge) =>
      if edge in store.edges then store
      else store.(edges := store.edges + [edge], created := store.created[context := store.created[context] + 1])
    case Restore(nodes, edges) => store.(nodes := nodes, edges := Deduplicated(edges))
  }

  predicate AllProper(calls: seq<Call>, contexts: nat) {
    forall k :: 0 <= k < |calls| ==> Proper(calls[k], contexts)
  }

  function Run(store: Store, calls: seq<Call>): (after: Store)
    requires AllProper(calls, |store.created|)
    ensures |after.created| == |store.created|
  {
    if calls == [] then store else After(Run(store, calls[..|calls| - 1]), calls[|calls| - 1])
  }

  /** The store as a run begins. */
  function Fresh(contexts: nat): Store {
    Store([], [], seq(contexts, _ => 0))
  }

  /** One call on the real store, and what its context then does with the answer. */
  method Perform(og: OpenGraph, created: array<int>, call: Call)
    requires og.Valid() && Proper(call, created.Length)
    modifies og, created
    ensures og.Valid()
    ensures Store(og.nodeLog, og.edgeLog, created[..]) ==
      After(Store(old(og.nodeLog), old(og.edgeLog), old(created[..])), call)
  {
    match call
    case PutNode(node) =>
      assert node.id in og.nodeIDs <==> node.id in Ids(og.nodeLog);
      og.AddNode(node);
    case PutEdge(context, edge) =>
      assert edge in og.edgeKeys <==> edge in og.edgeLog;
      var added := og.AddEdge(edge);
      if added {
        created[context] := created[context] + 1;
      }
    case Restore(nodes, edges) =>
      og.RestoreNodesAndEdges(nodes, edges);
  }

  // ----- what was offered since the last restore -----

  function OfferedIds(calls: seq<Call>): seq<string> {
    if calls == [] then []
    else
      var init := calls[..|calls| - 1];
      match calls[|calls| - 1]
      case PutNode(node) => OfferedIds(init) + [node.id]
      case PutEdge(_, _) => OfferedIds(init)
      case Restore(nodes, _) => Ids(nodes)
  }

  function OfferedEdges(calls: seq<Call>): seq<Edge> {
    if calls == [] then []
    else
      var init := calls[..|calls| - 1];
      match calls[|calls| - 1]
      case PutNode(_) => OfferedEdges(init)
      case PutEdge(_, edge) => OfferedEdges(init) + [edge]
      case Restore(_, edges) => edges
  }

  /**
    * After any interleaving the logs are what is offered since the last restore, with every repetition left out; so,
    * by DeduplicatedLog, they are in bijection with the sets offered and in the order of first offers.
    */
  lemma {:induction false} LogsRefineSets(contexts: nat, calls: seq<Call>)
    requires AllProper(calls, contexts)
    ensures var store := Run(Fresh(contexts), calls);
      && Ids(store.nodes) == Deduplicated(OfferedIds(calls))
      && store.edges == Deduplicated(OfferedEdges(calls))
  {
    if calls != [] {
      var init, call := calls[..|calls| - 1], calls[|calls| - 1];
      LogsRefineSets(contexts, init);
      var before := Run(Fresh(contexts), init);
      match call
      case PutNode(node) =>
        var ids := OfferedIds(init);
        assert (ids + [node.id])[..|ids|] == ids;
        assert Ids(before.nodes + [node]) == Ids(before.nodes) + [node.id];
      case PutEdge(_, edge) =>
        var edges := OfferedEdges(init);
        assert (edges + [edge])[..|edges|] == edges;
      case Restore(nodes, _) =>
        DeduplicatedFixpoint(Ids(nodes));
    }
  }

  // ----- the counters -----

  function Sum(created: seq<int>): int {
    if created == [] then 0 else Sum(created[..|created| - 1]) + created[|created| - 1]
  }

  lemma {:induction false} SumBump(created: seq<int>, i: nat)
    requires i < |created|
    ensures Sum(created[i := created[i] + 1]) == Sum(created) + 1
  {
    var init, bumped := created[..|created| - 1], created[i := created[i] + 1];
    if i == |init| {
      assert bumped[..|init|] == init;
    } else {
      SumBump(init, i);
      assert bumped[..|init|] == init[i := init[i] + 1];
    }
  }

  /** As long as nothing is restored, the edge log grows by what the contexts count, taken together. */
  lemma {:induction false} CountersAgree(store: Store, calls: seq<Call>)
    requires AllProper(calls, |store.created|) && forall k :: 0 <= k < |calls| ==> !calls[k].Restore?
    ensures var after := Run(store, calls); |after.edges| - |store.edges| == Sum(after.created) - Sum(store.created)
  {
    if calls != [] {
      var init, call := calls[..|calls| - 1], calls[|calls| - 1];
      CountersAgree(store, init);
      var before := Run(store, init);
      if call.PutEdge? && call.edge !in before.edges {
        SumBump(before.created, call.context);
      }
    }
  }
}
