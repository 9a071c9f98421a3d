/** The graph builder of one share: it emits the current path and element, each once. */
module Contexts {
  import opened Common
  import opened Texts
  import opened Paths
  import opened Kinds
  import opened OpenGraphs
  import opened Sids
  import opened AccessMasks
  import opened RightsCollectors

  /** What is fixed for the whole traversal of a share. */
  datatype Site = Site(host: Node, share: Node, shareRights: Rights, domainSuffix: string, effectiveAccessOnly: bool)

  /** A node with the rights to be emitted for it. */
  datatype Entry = Entry(node: Node, rights: Rights)

  /** What one context has emitted so far, and what it remembers about that. */
  datatype Sent = Sent(records: set<Node>, edges: set<Edge>, root: bool, dirs: set<string>)
  {
    /** The IDs of the node records. */
    const nodes: set<string> := IdSet(records)
  }

  /** A node log after some of these records have been offered to it: new ones stand behind the old ones. */
  predicate LogFrom(before: seq<Node>, after: seq<Node>, records: set<Node>) {
    before <= after && forall k | |before| <= k < |after| :: after[k] in records
  }

  /** Both logs, after some records have been offered. */
  predicate LogsFrom(nodes: seq<Node>, edges: seq<Edge>, nodes': seq<Node>, edges': seq<Edge>, records: set<Node>) {
    LogFrom(nodes, nodes', records) && edges <= edges'
  }

  lemma LogsFromOn(nodes: seq<Node>, edges: seq<Edge>, nodes': seq<Node>, edges': seq<Edge>, nodes'': seq<Node>,
                   edges'': seq<Edge>, some: set<Node>, all: set<Node>)
    requires LogsFrom(nodes, edges, nodes', edges', some) && LogsFrom(nodes', edges', nodes'', edges'', all) &&
      some <= all
    ensures LogsFrom(nodes, edges, nodes'', edges'', all)
  {
    LogFromOn(nodes, nodes', nodes'', some, all);
  }

  lemma LogsFromSame(nodes: seq<Node>, edges: seq<Edge>, records: set<Node>)
    ensures LogsFrom(nodes, edges, nodes, edges, records)
  {
  }

  lemma LogFromOn(before: seq<Node>, middle: seq<Node>, after: seq<Node>, some: set<Node>, all: set<Node>)
    requires LogFrom(before, middle, some) && LogFrom(middle, after, all) && some <= all
    ensures LogFrom(before, after, all)
  {
    forall k | |before| <= k < |after| ensures after[k] in all {
      if k < |middle| {
        assert middle[k] in some;
      }
    }
  }

  // ----- edges -----

  function NewEdge(start: string, end: Node, kind: EdgeKind): Edge {
    Edge(Endpoint(start, Unset, AnyKind), Endpoint(end.id, Unset, Of(end.kind)), kind)
  }

  function HostEdge(site: Site): Edge {
    Edge(Endpoint(Upper(site.host.name), ByName, Computer),
         Endpoint(site.host.id, ById, Of(NetworkShareHost)), HostsNetworkShare)
  }

  function ShareEdge(site: Site): Edge {
    Edge(Endpoint(site.host.id, ById, Of(NetworkShareHost)),
         Endpoint(site.share.id, Unset, Of(site.share.kind)), HasNetworkShare)
  }

  function ContainsEdge(parent: Node, child: Node): Edge {
    Edge(Endpoint(parent.id, Unset, Of(parent.kind)), Endpoint(child.id, Unset, Of(child.kind)), Contains)
  }

  function KindEdges(start: string, node: Node, kinds: set<EdgeKind>): set<Edge> {
    set kind | kind in kinds :: NewEdge(start, node, kind)
  }

  /** One edge per SID of `sids` and kind its rights hold. */
  function RightsEdgesFor(domainSuffix: string, node: Node, rights: Rights, sids: set<string>): set<Edge> {
    set sid, kind | sid in sids && sid in rights && kind in rights[sid] ::
      NewEdge(Principal(domainSuffix, sid), node, kind)
  }

  function RightsEdges(domainSuffix: string, node: Node, rights: Rights): set<Edge> {
    RightsEdgesFor(domainSuffix, node, rights, rights.Keys)
  }

  /** The accesses both layers open to the SID. */
  function EffectiveKinds(shareRights: Rights, rights: Rights, sid: string): set<EdgeKind> {
    set access: Access |
      && sid in rights && sid in shareRights
      && rights[sid] * Opening(NtfsLayer, access) != {}
      && shareRights[sid] * Opening(ShareLayer, access) != {} :: CanEffective(access)
  }

  function EffectiveEdgesFor(site: Site, node: Node, rights: Rights, sids: set<string>): set<Edge> {
    set sid, kind | sid in sids && kind in EffectiveKinds(site.shareRights, rights, sid) ::
      NewEdge(Principal(site.domainSuffix, sid), node, kind)
  }

  function EffectiveEdges(site: Site, node: Node, rights: Rights): set<Edge> {
    EffectiveEdgesFor(site, node, rights, rights.Keys)
  }

  /** Everything emitted with a file or directory node besides the node itself. */
  function OwnEdges(site: Site, parent: Node, entry: Entry): set<Edge> {
    (if site.effectiveAccessOnly then {} else RightsEdges(site.domainSuffix, entry.node, entry.rights)) +
    EffectiveEdges(site, entry.node, entry.rights) +
    {ContainsEdge(parent, entry.node)}
  }

  // ----- what one call emits -----

  function SendRoot(site: Site, sent: Sent): Sent {
    if sent.root then sent
    else Sent(sent.records + {site.host, site.share},
              sent.edges + {HostEdge(site), ShareEdge(site)} + RightsEdges(site.domainSuffix, site.share,
                site.shareRights),
              true, sent.dirs)
  }

  function SendEntry(site: Site, sent: Sent, parent: Node, entry: Entry): Sent {
    if entry.node.kind == Directory && entry.node.id in sent.dirs then sent
    else Sent(sent.records + {entry.node}, sent.edges + OwnEdges(site, parent, entry), sent.root,
              sent.dirs + if entry.node.kind == Directory then {entry.node.id} else {})
  }

  function Parent(site: Site, path: seq<Entry>): Node {
    if path == [] then site.share else path[|path| - 1].node
  }

  function SendPath(site: Site, sent: Sent, path: seq<Entry>): Sent {
    if path == [] then sent
    else
      var init := path[..|path| - 1];
      SendEntry(site, SendPath(site, sent, init), Parent(site, init), path[|path| - 1])
  }

  /** The effect of emitting the current path and, if there is one, the current element. */
  function AddPath(site: Site, sent: Sent, path: seq<Entry>, element: Option<Entry>): Sent {
    var s := SendPath(site, SendRoot(site, sent), path);
    if element.None? then s else SendEntry(site, s, Parent(site, path), element.value)
  }

  // ----- invariants on what was emitted -----

  predicate Structural(kind: EdgeKind) {
    kind == HasNetworkShare || kind == Contains
  }

  /** A Contains edge leads to the node. */
  predicate HasParent(edges: set<Edge>, id: string) {
    exists edge :: edge in edges && edge.kind == Contains && edge.end.value == id
  }

  /** The node is the share itself, or hangs below something. */
  predicate Anchored(root: string, edges: set<Edge>, id: string) {
    id == root || HasParent(edges, id)
  }

  /**
   * An edge may go out: its end is out, and so is the start of a structural edge; the start of a Contains edge is the
   * rightful parent, and is the share or hangs below something itself.
   */
  predicate Ready(root: string, nodes: set<string>, edges: set<Edge>, edge: Edge, lineage: string -> string) {
    && edge.end.value in nodes
    && (Structural(edge.kind) ==> edge.start.value in nodes)
    && (edge.kind == Contains ==>
          edge.start.value == lineage(edge.end.value) && Anchored(root, edges, edge.start.value))
  }

  ghost predicate Grounded(root: string, nodes: set<string>, edges: set<Edge>, lineage: string -> string) {
    forall edge :: edge in edges ==> Ready(root, nodes, edges, edge, lineage)
  }

  /** More nodes and one more edge, if that is ready, leave everything ready. */
  lemma GroundedMore(root: string, nodes: set<string>, edges: set<Edge>, lineage: string -> string, id: string,
                     edge: Edge)
    requires Grounded(root, nodes, edges, lineage)
    ensures Grounded(root, nodes + {id}, edges, lineage)
    ensures Ready(root, nodes, edges, edge, lineage) ==> Grounded(root, nodes, edges + {edge}, lineage)
  {
    forall e | e in edges ensures Ready(root, nodes + {id}, edges, e, lineage) {
      assert Ready(root, nodes, edges, e, lineage);
    }
    forall e | (e in edges || e == edge) && Ready(root, nodes, edges, e, lineage)
      ensures Ready(root, nodes, edges + {edge}, e, lineage)
    {
      if e.kind == Contains {
        AnchoredMore(root, edges, {edge}, e.start.value);
      }
    }
  }

  lemma AnchoredMore(root: string, edges: set<Edge>, others: set<Edge>, id: string)
    requires Anchored(root, edges, id)
    ensures Anchored(root, edges + others, id)
  {
    if id != root {
      var edge :| edge in edges && edge.kind == Contains && edge.end.value == id;
      assert edge in edges + others;
    }
  }

  ghost predicate Coherent(site: Site, sent: Sent, lineage: string -> string) {
    && Grounded(site.share.id, sent.nodes, sent.edges, lineage)
    && (sent.root ==> site.host.id in sent.nodes && site.share.id in sent.nodes)
    && sent.dirs <= sent.nodes
    && forall id :: id in sent.dirs ==> HasParent(sent.edges, id)
  }

  /** Coherence is kept by a node more, and by an edge more that is ready. */
  lemma CoherentMore(site: Site, sent: Sent, lineage: string -> string, node: Node, edge: Edge)
    requires Coherent(site, sent, lineage)
    ensures Coherent(site, sent.(records := sent.records + {node}), lineage)
    ensures Ready(site.share.id, sent.nodes, sent.edges, edge, lineage) ==>
      Coherent(site, sent.(edges := sent.edges + {edge}), lineage)
  {
    hide Grounded, Ready, HasParent;
    assert sent.(records := sent.records + {node}).nodes == sent.nodes + {node.id};
    GroundedMore(site.share.id, sent.nodes, sent.edges, lineage, node.id, edge);
    forall d | d in sent.dirs ensures HasParent(sent.edges + {edge}, d) {
      HasParentMore(sent.edges, {edge}, d);
    }
  }

  lemma HasParentMore(edges: set<Edge>, others: set<Edge>, id: string)
    requires HasParent(edges, id)
    ensures HasParent(edges + others, id)
  {
    var edge :| edge in edges && edge.kind == Contains && edge.end.value == id;
    assert edge in edges + others;
  }

  datatype PathEntry = PathEntry(node: Node, rights: ShareRights)

  function AbstractEntry(entry: PathEntry): Entry {
    Entry(entry.node, KindSets(entry.rights))
  }

  function AbstractPath(path: seq<PathEntry>): (entries: seq<Entry>)
    ensures |entries| == |path|
  {
    seq(|path|, i requires 0 <= i < |path| => AbstractEntry(path[i]))
  }

  /** Rights maps hold permissions only. */
  predicate Plain(rights: ShareRights) {
    forall sid, kind :: sid in rights && kind in rights[sid] ==> !Structural(kind)
  }

  function ParentNode(share: Node, path: seq<PathEntry>): Node {
    if path == [] then share else path[|path| - 1].node
  }

  /** A node that may be emitted below `path`. */
  ghost predicate ChildOf(share: Node, path: seq<PathEntry>, node: Node, rights: ShareRights,
                          lineage: string -> string) {
    lineage(node.id) == ParentNode(share, path).id && Plain(rights)
  }

  /** The path is a chain of directories, each a child of the one before. */
  ghost predicate Chained(share: Node, path: seq<PathEntry>, lineage: string -> string) {
    forall i :: 0 <= i < |path| ==>
      path[i].node.kind == Directory && ChildOf(share, path[..i], path[i].node, path[i].rights, lineage)
  }

  function Names(path: seq<PathEntry>): (names: seq<string>)
    ensures |names| == |path|
  {
    seq(|path|, i requires 0 <= i < |path| => path[i].node.name)
  }

  class OpenGraphContext {
    const graph: OpenGraph
    const host: Node
    const share: Node
    const shareRights: ShareRights
    const shareRootNTFSRights: ShareRights
    const domainSuffix: string
    const effectiveAccessOnly: bool
    var path: seq<PathEntry>
    var element: Option<Node>
    var elementRights: ShareRights
    var totalEdgesCreated: int
    var hostShareEmitted: bool
    var emittedPathNodes: set<string>
    ghost const lineage: string -> string
    ghost var sentRecords: set<Node>
    ghost var sentNodes: set<string>
    ghost var sentEdges: set<Edge>

    ghost function Emitted(): Sent
      reads this
    {
      Sent(sentRecords, sentEdges, hostShareEmitted, emittedPathNodes)
    }

    function Setting(): Site {
      Site(host, share, KindSets(shareRights), domainSuffix, effectiveAccessOnly)
    }

    ghost predicate Valid()
      reads this, graph
    {
      && graph.Valid()
      && sentNodes == Emitted().nodes && sentNodes <= graph.nodeIDs && sentEdges <= graph.edgeKeys
      && Coherent(Setting(), Emitted(), lineage)
      && Plain(shareRights)
    }

    /** The graph grew by this node. */
    twostate predicate SendsNode(node: Node)
      reads this, graph
    {
      && Valid()
      && sentRecords == old(sentRecords) + {node}
      && graph.nodeLog == (if node.id in old(graph.nodeIDs) then old(graph.nodeLog) else old(graph.nodeLog) + [node])
      && sentNodes == old(sentNodes) + {node.id} && graph.nodeIDs == old(graph.nodeIDs) + {node.id}
      && graph.edgeKeys == old(graph.edgeKeys) && graph.edgeCount == old(graph.edgeCount)
      && graph.edgeLog == old(graph.edgeLog)
    }

    /** The graph grew by these edges, the counter by the number of those that were new. */
    twostate predicate SendsEdges(edges: set<Edge>)
      reads this, graph
    {
      && Valid()
      && sentEdges == old(sentEdges) + edges && graph.edgeKeys == old(graph.edgeKeys) + edges
      && totalEdgesCreated - old(totalEdgesCreated) == graph.edgeCount - old(graph.edgeCount)
      && graph.nodeIDs == old(graph.nodeIDs) && graph.nodeLog == old(graph.nodeLog)
      && old(graph.edgeLog) <= graph.edgeLog
    }

    /** The graph grew by what this context has sent since, and the counter with it. */
    twostate predicate Grows()
      reads this, graph
    {
      && Valid()
      && old(sentNodes) <= sentNodes && old(sentEdges) <= sentEdges && old(sentRecords) <= sentRecords
      && LogsFrom(old(graph.nodeLog), old(graph.edgeLog), graph.nodeLog, graph.edgeLog, sentRecords)
      && graph.nodeIDs == old(graph.nodeIDs) + sentNodes && graph.edgeKeys == old(graph.edgeKeys) + sentEdges
      && totalEdgesCreated - old(totalEdgesCreated) == graph.edgeCount - old(graph.edgeCount)
    }

    constructor (graph: OpenGraph, host: Node, share: Node, shareRights: ShareRights, shareRootNTFSRights: ShareRights,
                 domain: string, effectiveAccessOnly: bool, ghost lineage: string -> string)
      requires graph.Valid() && Plain(shareRights)
      ensures Valid() && this.graph == graph
      ensures Setting() == Site(host, share, KindSets(shareRights), Upper(domain), effectiveAccessOnly)
      ensures this.shareRootNTFSRights == shareRootNTFSRights && this.lineage == lineage
      ensures Emitted() == Sent({}, {}, false, {}) && path == [] && element == None && totalEdgesCreated == 0
    {
      this.graph, this.host, this.share := graph, host, share;
      this.shareRights, this.shareRootNTFSRights := shareRights, shareRootNTFSRights;
      this.domainSuffix, this.effectiveAccessOnly := Upper(domain), effectiveAccessOnly;
      path, element, elementRights, totalEdgesCreated := [], None, map[], 0;
      hostShareEmitted, emittedPathNodes := false, {};
      this.lineage, sentRecords, sentNodes, sentEdges := lineage, {}, {}, {};
    }

    method PushPath(node: Node, rights: ShareRights)
      modifies this`path
      ensures path == old(path) + [PathEntry(node, rights)]
    {
      path := path + [PathEntry(node, rights)];
    }

    method PopPath() returns (node: Option<Node>)
      modifies this`path
      ensures old(path) == [] ==> node == None && path == []
      ensures old(path) != [] ==> exists entry :: old(path) == path + [entry] && node == Some(entry.node)
    {
      if |path| == 0 {
        return None;
      }
      var entry := path[|path| - 1];
      path := path[..|path| - 1];
      node := Some(entry.node);
      assert old(path) == path + [entry];
    }

    method SetElement(node: Node)
      modifies this`element
      ensures element == Some(node)
    {
      element := Some(node);
    }

    method SetElementRights(rights: ShareRights)
      modifies this`elementRights
      ensures elementRights == rights
    {
      elementRights := rights;
    }

    method ClearElement()
      modifies this`element, this`elementRights
      ensures element == None && elementRights == map[]
    {
      element, elementRights := None, map[];
    }

    method GetStringPathFromRoot() returns (s: string)
      ensures s == DirPath(Names(path))
    {
      var parts := [];
      for i := 0 to |path|
        invariant parts == NonEmpty(Names(path)[..i])
      {
        var name := path[i].node.name;
        assert Names(path)[..i + 1][..i] == Names(path)[..i];
        if name != "" {
          parts := parts + [name];
        }
      }
      assert Names(path)[..|path|] == Names(path);
      s := Join(parts);
    }

    /** One lock section of the graph store: a node. */
    method EmitNode(node: Node)
      requires Valid()
      modifies this`sentRecords, this`sentNodes, graph
      ensures SendsNode(node)
    {
      hide Coherent, Ready;
      CoherentMore(Setting(), Emitted(), lineage, node, HostEdge(Setting()));
      graph.AddNode(node);
      sentRecords, sentNodes := sentRecords + {node}, sentNodes + {node.id};
    }

    /** One lock section of the graph store: an edge that is ready to go out. */
    method EmitEdge(edge: Edge)
      requires Valid() && Ready(share.id, sentNodes, sentEdges, edge, lineage)
      modifies this`sentEdges, this`totalEdgesCreated, graph
      ensures SendsEdges({edge})
    {
      hide Coherent, Ready;
      CoherentMore(Setting(), Emitted(), lineage, host, edge);
      var added := graph.AddEdge(edge);
      if added {
        totalEdgesCreated := totalEdgesCreated + 1;
      }
      sentEdges := sentEdges + {edge};
    }

    method EmitKinds(edgeSID: string, node: Node, kinds: seq<EdgeKind>)
      requires Valid() && node.id in sentNodes
      requires forall kind :: kind in kinds ==> !Structural(kind)
      modifies this`sentEdges, this`totalEdgesCreated, graph
      ensures SendsEdges(KindEdges(edgeSID, node, Elements(kinds)))
    {
      hide Coherent, Ready, NewEdge;
      hide OpenGraph.Valid;
      for i := 0 to |kinds|
        invariant SendsEdges(KindEdges(edgeSID, node, Elements(kinds[..i])))
      {
        KindReady(edgeSID, node, kinds[i], share.id, sentNodes, sentEdges, lineage);
        EmitEdge(NewEdge(edgeSID, node, kinds[i]));
        assert Elements(kinds[..i + 1]) == Elements(kinds[..i]) + {kinds[i]};
      }
      assert kinds[..|kinds|] == kinds;
    }

    /** The map is walked in any order, each SID's kinds in list order. */
    method AddRightsToGraph(node: Node, rights: ShareRights)
      requires Valid() && node.id in sentNodes
      requires Plain(rights)
      modifies this`sentEdges, this`totalEdgesCreated, graph
      ensures SendsEdges(RightsEdges(domainSuffix, node, KindSets(rights)))
    {
      hide OpenGraph.Valid, Coherent, RightsEdgesFor, KindEdges, Principal;
      RightsEdgesNone(domainSuffix, node, KindSets(rights));
      var sids := rights.Keys;
      ghost var done: set<string> := {};
      while sids != {}
        invariant done !! sids && done + sids == rights.Keys
        invariant SendsEdges(RightsEdgesFor(domainSuffix, node, KindSets(rights), done))
      {
        var sid :| sid in sids;
        EmitKinds(Principal(domainSuffix, sid), node, rights[sid]);
        RightsEdgesInsert(domainSuffix, node, KindSets(rights), done, sid);
        sids, done := sids - {sid}, done + {sid};
      }
    }

    /** Intersects, SID by SID, the rights of the node with those of the share. */
    method AddEffectiveRightsToGraph(node: Node, nodeRights: ShareRights)
      requires Valid() && node.id in sentNodes
      modifies this`sentEdges, this`totalEdgesCreated, graph
      ensures SendsEdges(EffectiveEdges(Setting(), node, KindSets(nodeRights)))
    {
      hide OpenGraph.Valid, Coherent, EffectiveEdgesFor, EffectiveKinds, Principal, ComputeEffectiveRights;
      EffectiveEdgesNone(Setting(), node, KindSets(nodeRights));
      var sids := nodeRights.Keys;
      ghost var done: set<string> := {};
      while sids != {}
        invariant done !! sids && done + sids == nodeRights.Keys
        invariant SendsEdges(EffectiveEdgesFor(Setting(), node, KindSets(nodeRights), done))
      {
        var sid :| sid in sids;
        var shareKinds := if sid in shareRights then shareRights[sid] else [];
        var effective := ComputeEffectiveRights(shareKinds, nodeRights[sid]);
        EffectiveAgrees(shareRights, nodeRights, sid);
        EffectiveEdgesInsert(Setting(), node, KindSets(nodeRights), done, sid);
        sids, done := sids - {sid}, done + {sid};
        if |effective| == 0 {
          continue;
        }
        EmitKinds(Principal(domainSuffix, sid), node, effective);
      }
    }

    method EmitHost()
      requires Valid()
      modifies this`sentRecords, this`sentNodes, this`sentEdges, this`totalEdgesCreated, graph
      ensures Grows() && sentRecords == old(sentRecords) + {host} && host.id in sentNodes
      ensures sentEdges == old(sentEdges) + {HostEdge(Setting())}
    {
      hide OpenGraph.Valid, Coherent;
      EmitNode(host);
      EmitEdge(HostEdge(Setting()));
    }

    method EmitShare()
      requires Valid() && host.id in sentNodes
      modifies this`sentRecords, this`sentNodes, this`sentEdges, this`totalEdgesCreated, graph
      ensures Grows() && sentRecords == old(sentRecords) + {share} && share.id in sentNodes
      ensures sentEdges == old(sentEdges) +
        (RightsEdges(domainSuffix, share, KindSets(shareRights)) + {ShareEdge(Setting())})
    {
      hide OpenGraph.Valid, Coherent, RightsEdgesFor, Plain;
      EmitNode(share);
      AddRightsToGraph(share, shareRights);
      EmitEdge(ShareEdge(Setting()));
    }

    /** Host, share and share rights, once per context. */
    method EmitRoot()
      requires Valid() && !hostShareEmitted
      modifies this`sentRecords, this`sentNodes, this`sentEdges, this`totalEdgesCreated, this`hostShareEmitted, graph
      ensures Grows()
      ensures Emitted() == SendRoot(Setting(), old(Emitted()))
    {
      hide OpenGraph.Valid, Coherent, RightsEdgesFor, Plain, HostEdge, ShareEdge;
      EmitHost();
      EmitShare();
      CoherentMarks(Setting(), Emitted(), lineage, {});
      hostShareEmitted := true;
    }

    /** The rights edges of a node and the edge from its parent. */
    method EmitOwnEdges(parent: Node, node: Node, rights: ShareRights)
      requires Valid() && Plain(rights)
      requires node.id in sentNodes && parent.id in sentNodes && lineage(node.id) == parent.id
      requires Anchored(share.id, sentEdges, parent.id)
      modifies this`sentEdges, this`totalEdgesCreated, graph
      ensures SendsEdges(OwnEdges(Setting(), parent, Entry(node, KindSets(rights))))
    {
      hide OpenGraph.Valid, Coherent, RightsEdgesFor, EffectiveEdgesFor, Plain;
      ghost var before := sentEdges;
      if !effectiveAccessOnly {
        AddRightsToGraph(node, rights);
      }
      AddEffectiveRightsToGraph(node, rights);
      assert Anchored(share.id, sentEdges, parent.id) by {
        AnchoredMore(share.id, before, sentEdges, parent.id);
        assert before + sentEdges == sentEdges;
      }
      EmitEdge(ContainsEdge(parent, node));
    }

    /** A node and its edges, marked when it is a directory. */
    method EmitEntry(parent: Node, node: Node, rights: ShareRights)
      requires Valid() && Plain(rights)
      requires parent.id in sentNodes && lineage(node.id) == parent.id && Anchored(share.id, sentEdges, parent.id)
      requires !(node.kind == Directory && node.id in emittedPathNodes)
      modifies this`sentRecords, this`sentNodes, this`sentEdges, this`totalEdgesCreated, this`emittedPathNodes, graph
      ensures Grows()
      ensures Emitted() == SendEntry(Setting(), old(Emitted()), parent, Entry(node, KindSets(rights)))
      ensures HasParent(sentEdges, node.id)
    {
      hide OpenGraph.Valid, Coherent, OwnEdges, Plain, HasParent;
      EmitNode(node);
      EmitOwnEdges(parent, node, rights);
      OwnEdgesHold(Setting(), parent, Entry(node, KindSets(rights)), sentEdges);
      if node.kind == Directory {
        CoherentMarks(Setting(), Emitted(), lineage, {node.id});
        emittedPathNodes := emittedPathNodes + {node.id};
      }
    }

    /** The directories of the path that are not out yet, outermost first. */
    method EmitPath() returns (parent: Node)
      requires Valid() && Chained(share, path, lineage) && hostShareEmitted
      modifies this`sentRecords, this`sentNodes, this`sentEdges, this`totalEdgesCreated, this`emittedPathNodes, graph
      ensures Grows() && parent == ParentNode(share, path) && parent.id in sentNodes
      ensures Anchored(share.id, sentEdges, parent.id)
      ensures Emitted() == SendPath(Setting(), old(Emitted()), AbstractPath(path))
    {
      hide OpenGraph.Valid, OwnEdges, Plain, HasParent, Grounded, LogsFrom;
      LogsFromSame(graph.nodeLog, graph.edgeLog, sentRecords);
      parent := share;
      for i := 0 to |path|
        invariant Grows()
        invariant parent == ParentNode(share, path[..i]) && parent.id in sentNodes
        invariant Anchored(share.id, sentEdges, parent.id)
        invariant Emitted() == SendPath(Setting(), old(Emitted()), AbstractPath(path[..i]))
      {
        var entry := path[i];
        assert ChildOf(share, path[..i], entry.node, entry.rights, lineage);
        SendPathSnoc(Setting(), old(Emitted()), path, i);
        if entry.node.id !in emittedPathNodes {
          ghost var nodes, edges, records := graph.nodeLog, graph.edgeLog, sentRecords;
          EmitEntry(parent, entry.node, entry.rights);
          LogsFromOn(old(graph.nodeLog), old(graph.edgeLog), nodes, edges, graph.nodeLog, graph.edgeLog, records,
            sentRecords);
        }
        parent := entry.node;
      }
      assert path[..|path|] == path;
    }

    /** Root, unless it is out already. */
    method EmitRootOnce()
      requires Valid()
      modifies this`sentRecords, this`sentNodes, this`sentEdges, this`totalEdgesCreated, this`hostShareEmitted, graph
      ensures Grows() && hostShareEmitted
      ensures Emitted() == SendRoot(Setting(), old(Emitted()))
    {
      hide OpenGraph.Valid, Coherent, LogsFrom, SendRoot;
      SendRootOnce(Setting(), Emitted());
      LogsFromSame(graph.nodeLog, graph.edgeLog, sentRecords);
      if !hostShareEmitted {
        EmitRoot();
      }
    }

    /** The current element below its parent, unless it is a directory that is out already. */
    method EmitCurrent(parent: Node)
      requires Valid() && parent.id in sentNodes && Anchored(share.id, sentEdges, parent.id)
      requires element.Some? ==> lineage(element.value.id) == parent.id && Plain(elementRights)
      modifies this`sentRecords, this`sentNodes, this`sentEdges, this`totalEdgesCreated, this`emittedPathNodes, graph
      ensures Grows()
      ensures Emitted() == if element.None? then old(Emitted())
        else SendEntry(Setting(), old(Emitted()), parent, Entry(element.value, KindSets(elementRights)))
    {
      hide OpenGraph.Valid, Coherent, LogsFrom, OwnEdges, Plain, Anchored;
      LogsFromSame(graph.nodeLog, graph.edgeLog, sentRecords);
      if element.None? {
        return;
      }
      if element.value.kind == Directory && element.value.id in emittedPathNodes {
        return;
      }
      EmitEntry(parent, element.value, elementRights);
    }

    /** Emits what is new of the root, of the path and of the current element. */
    method AddPathToGraph()
      requires Valid() && Chained(share, path, lineage)
      requires element.Some? ==> ChildOf(share, path, element.value, elementRights, lineage)
      modifies this`sentRecords, this`sentNodes, this`sentEdges, this`totalEdgesCreated, this`hostShareEmitted,
        this`emittedPathNodes, graph
      ensures Grows()
      ensures Emitted() == AddPath(Setting(), old(Emitted()), AbstractPath(path),
        if element.None? then None else Some(Entry(element.value, KindSets(elementRights))))
    {
      hide OpenGraph.Valid, Coherent, OwnEdges, SendPath, SendRoot, SendEntry, LogsFrom, Chained, Anchored, Plain;
      EmitRootOnce();
      ghost var nodes, edges, records := graph.nodeLog, graph.edgeLog, sentRecords;
      var parent := EmitPath();
      LogsFromOn(old(graph.nodeLog), old(graph.edgeLog), nodes, edges, graph.nodeLog, graph.edgeLog, records,
        sentRecords);
      assert Parent(Setting(), AbstractPath(path)) == parent;
      nodes, edges, records := graph.nodeLog, graph.edgeLog, sentRecords;
      EmitCurrent(parent);
      LogsFromOn(old(graph.nodeLog), old(graph.edgeLog), nodes, edges, graph.nodeLog, graph.edgeLog, records,
        sentRecords);
    }
  }

  lemma SendPathSnoc(site: Site, sent: Sent, path: seq<PathEntry>, i: nat)
    requires i < |path|
    ensures SendPath(site, sent, AbstractPath(path[..i + 1])) ==
      SendEntry(site, SendPath(site, sent, AbstractPath(path[..i])), ParentNode(site.share, path[..i]),
        AbstractEntry(path[i]))
  {
    hide SendEntry;
    assert AbstractPath(path[..i + 1])[..i] == AbstractPath(path[..i]);
    assert Parent(site, AbstractPath(path[..i])) == ParentNode(site.share, path[..i]);
  }

  lemma SendRootOnce(site: Site, sent: Sent)
    ensures SendRoot(site, sent).root && (sent.root ==> SendRoot(site, sent) == sent)
  {
  }

  /** Marks may be set once what they stand for is out. */
  lemma CoherentMarks(site: Site, sent: Sent, lineage: string -> string, dirs: set<string>)
    requires Coherent(site, sent, lineage) && dirs <= sent.nodes && forall id :: id in dirs ==>
      HasParent(sent.edges, id)
    ensures Coherent(site, sent.(dirs := sent.dirs + dirs), lineage)
    ensures {site.host.id, site.share.id} <= sent.nodes ==> Coherent(site, sent.(root := true), lineage)
  {
    hide Grounded, HasParent;
  }

  lemma OwnEdgesHold(site: Site, parent: Node, entry: Entry, edges: set<Edge>)
    requires OwnEdges(site, parent, entry) <= edges
    ensures HasParent(edges, entry.node.id)
  {
    hide RightsEdges, EffectiveEdges;
    assert ContainsEdge(parent, entry.node) in edges;
  }

  lemma RightsEdgesNone(domainSuffix: string, node: Node, rights: Rights)
    ensures RightsEdgesFor(domainSuffix, node, rights, {}) == {}
  {
  }

  lemma EffectiveEdgesNone(site: Site, node: Node, rights: Rights)
    ensures EffectiveEdgesFor(site, node, rights, {}) == {}
  {
  }

  lemma RightsEdgesInsert(domainSuffix: string, node: Node, rights: Rights, sids: set<string>, sid: string)
    requires sid in rights
    ensures RightsEdgesFor(domainSuffix, node, rights, sids + {sid}) ==
      RightsEdgesFor(domainSuffix, node, rights, sids) + KindEdges(Principal(domainSuffix, sid), node, rights[sid])
  {
    hide NewEdge, Principal;
  }

  lemma EffectiveEdgesInsert(site: Site, node: Node, rights: Rights, sids: set<string>, sid: string)
    ensures EffectiveEdgesFor(site, node, rights, sids + {sid}) == EffectiveEdgesFor(site, node, rights, sids) +
      KindEdges(Principal(site.domainSuffix, sid), node, EffectiveKinds(site.shareRights, rights, sid))
  {
    hide NewEdge, Principal, EffectiveKinds;
  }

  lemma KindReady(start: string, node: Node, kind: EdgeKind, root: string, nodes: set<string>, edges: set<Edge>,
                  lineage: string -> string)
    requires node.id in nodes && !Structural(kind)
    ensures Ready(root, nodes, edges, NewEdge(start, node, kind), lineage)
  {
  }

  lemma EffectiveAgrees(shareRights: ShareRights, nodeRights: ShareRights, sid: string)
    requires sid in nodeRights
    ensures Elements(ComputeEffectiveRights(if sid in shareRights then shareRights[sid] else [], nodeRights[sid])) ==
      EffectiveKinds(KindSets(shareRights), KindSets(nodeRights), sid)
  {
    var shareKinds := if sid in shareRights then shareRights[sid] else [];
    var effective := EffectiveKinds(KindSets(shareRights), KindSets(nodeRights), sid);
    forall access: Access
      ensures CanEffective(access) in effective <==> BothLayers(shareKinds, nodeRights[sid], access)
    {
      hide Opening;
      HasAnyMeets(shareKinds, Opening(ShareLayer, access));
      HasAnyMeets(nodeRights[sid], Opening(NtfsLayer, access));
    }
  }

  lemma HasAnyMeets(kinds: seq<EdgeKind>, targets: set<EdgeKind>)
    ensures HasAny(kinds, targets) <==> Elements(kinds) * targets != {}
  {
    if kind :| kind in kinds && kind in targets {
      assert kind in Elements(kinds) * targets;
    }
  }
}
