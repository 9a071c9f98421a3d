/** Containment: a tree at every moment of any number of contexts that work on one graph. */
module Containment {
  import opened Kinds
  import Texts
  import opened Paths
  import opened OpenGraphs
  import opened RightsCollectors
  import opened Contexts
  import opened Traversal
  import opened Coverage
  import opened Emission
  import opened GraphTheorems

  // ----- contexts taking turns at the lock of the graph -----

  /** What one context has put into the graph so far; `root` is the ID of its share. */
  datatype Share = Share(root: string, nodes: set<string>, edges: set<Edge>)

  datatype Graph = Graph(nodes: set<string>, edges: set<Edge>, sent: seq<Share>)

  /** The lock sections of EmitNode and EmitEdge. */
  datatype Put = PutNode(context: nat, id: string) | PutEdge(context: nat, edge: Edge)

  /** The parent function all contexts are set up with. */
  function Lineage(separator: char): string -> string {
    id => ParentId(separator, id)
  }

  /** A context puts in an edge only when that is ready, as EmitEdge demands. */
  predicate Enabled(g: Graph, put: Put, separator: char) {
    && put.context < |g.sent|
    && (put.PutEdge? ==> var s := g.sent[put.context]; Ready(s.root, s.nodes, s.edges, put.edge, Lineage(separator)))
  }

  function Next(g: Graph, put: Put): Graph
    requires put.context < |g.sent|
  {
    var share := g.sent[put.context];
    match put
    case PutNode(i, id) => Graph(g.nodes + {id}, g.edges, g.sent[i := share.(nodes := share.nodes + {id})])
    case PutEdge(i, edge) => Graph(g.nodes, g.edges + {edge}, g.sent[i := share.(edges := share.edges + {edge})])
  }

  /** The ID of the share node of a context. */
  ghost predicate ShareRoot(root: string) {
    exists host, share :: GoodName(host) && GoodName(share) && root == ShareId(host, share)
  }

  ghost predicate Empty(share: Share) {
    ShareRoot(share.root) && share.nodes == {} && share.edges == {}
  }

  /** A run: the graph is empty, the contexts are set up for shares and have sent nothing. */
  ghost predicate Behavior(graphs: seq<Graph>, puts: seq<Put>, separator: char) {
    && |graphs| == |puts| + 1
    && graphs[0].nodes == {} && graphs[0].edges == {}
    && (forall i :: 0 <= i < |graphs[0].sent| ==> Empty(graphs[0].sent[i]))
    && forall k :: 0 <= k < |puts| ==>
         Enabled(graphs[k], puts[k], separator) && graphs[k + 1] == Next(graphs[k], puts[k])
  }

  /** A containment edge leads from the parent to the child. */
  ghost predicate Holds(edges: set<Edge>, parent: string, child: string) {
    exists edge :: edge in edges && edge.kind == Contains && edge.start.value == parent && edge.end.value == child
  }

  /** Containment edges lead up from the node, n of them, the last one from the share. */
  ghost predicate Hangs(edges: set<Edge>, separator: char, id: string, n: nat, root: string)
    decreases n
  {
    if n == 0 then id == root
    else Holds(edges, ParentId(separator, id), id) && Hangs(edges, separator, ParentId(separator, id), n - 1, root)
  }

  ghost predicate Hung(share: Share, separator: char, id: string) {
    exists n: nat :: n > 0 && Hangs(share.edges, separator, id, n, share.root)
  }

  /** Everything a context has sent is ready, and what has a parent hangs from its share. */
  ghost predicate GoodShare(share: Share, separator: char) {
    && ShareRoot(share.root)
    && Grounded(share.root, share.nodes, share.edges, Lineage(separator))
    && forall edge :: edge in share.edges && edge.kind == Contains ==> Hung(share, separator, edge.end.value)
  }

  predicate SentBySome(g: Graph, edge: Edge) {
    exists i :: 0 <= i < |g.sent| && edge in g.sent[i].edges
  }

  ghost predicate Invariant(g: Graph, separator: char) {
    && (forall i :: 0 <= i < |g.sent| ==>
          GoodShare(g.sent[i], separator) && g.sent[i].nodes <= g.nodes && g.sent[i].edges <= g.edges)
    && (forall edge :: edge in g.edges ==> SentBySome(g, edge))
  }

  lemma {:induction false} RunInvariant(graphs: seq<Graph>, puts: seq<Put>, separator: char, k: nat)
    requires Behavior(graphs, puts, separator) && k <= |puts|
    ensures Invariant(graphs[k], separator)
  {
    hide Ready, ParentId;
    if k > 0 {
      RunInvariant(graphs, puts, separator, k - 1);
      StepPreserves(graphs[k - 1], puts[k - 1], separator);
    }
  }

  lemma {:induction false} HangsMore(edges: set<Edge>, more: set<Edge>, separator: char, id: string, n: nat,
                                     root: string)
    requires Hangs(edges, separator, id, n, root) && edges <= more
    ensures Hangs(more, separator, id, n, root)
    decreases n
  {
    hide ParentId;
    if n > 0 {
      HangsMore(edges, more, separator, ParentId(separator, id), n - 1, root);
    }
  }

  lemma NodeKeepsShare(share: Share, separator: char, id: string, edge: Edge)
    requires GoodShare(share, separator)
    ensures GoodShare(share.(nodes := share.nodes + {id}), separator)
  {
    hide Ready, ParentId, Hangs;
    GroundedMore(share.root, share.nodes, share.edges, Lineage(separator), id, edge);
    forall e | e in share.edges && e.kind == Contains
      ensures Hung(share.(nodes := share.nodes + {id}), separator, e.end.value)
    {
      var n: nat :| n > 0 && Hangs(share.edges, separator, e.end.value, n, share.root);
    }
  }

  /** A new containment edge starts where something hangs already, so its end hangs one edge lower. */
  lemma EdgeKeepsShare(share: Share, separator: char, edge: Edge)
    requires GoodShare(share, separator) && Ready(share.root, share.nodes, share.edges, edge, Lineage(separator))
    ensures GoodShare(share.(edges := share.edges + {edge}), separator)
  {
    hide ParentId, Grounded;
    var after := share.(edges := share.edges + {edge});
    GroundedMore(share.root, share.nodes, share.edges, Lineage(separator), edge.end.value, edge);
    forall e | e in after.edges && e.kind == Contains ensures Hung(after, separator, e.end.value) {
      if e in share.edges {
        var n: nat :| n > 0 && Hangs(share.edges, separator, e.end.value, n, share.root);
        HangsMore(share.edges, after.edges, separator, e.end.value, n, share.root);
      } else {
        var n := StartHangs(share, separator, edge);
        HangsMore(share.edges, after.edges, separator, edge.start.value, n, share.root);
        assert Holds(after.edges, edge.start.value, edge.end.value);
        assert Hangs(after.edges, separator, edge.end.value, n + 1, share.root);
      }
    }
  }

  lemma StartHangs(share: Share, separator: char, edge: Edge) returns (n: nat)
    requires GoodShare(share, separator) && Anchored(share.root, share.edges, edge.start.value)
    ensures Hangs(share.edges, separator, edge.start.value, n, share.root)
  {
    if edge.start.value == share.root {
      n := 0;
    } else {
      var above :| above in share.edges && above.kind == Contains && above.end.value == edge.start.value;
      assert Hung(share, separator, above.end.value);
      n :| n > 0 && Hangs(share.edges, separator, above.end.value, n, share.root);
    }
  }

  lemma StepPreserves(g: Graph, put: Put, separator: char)
    requires Invariant(g, separator) && Enabled(g, put, separator)
    ensures Invariant(Next(g, put), separator)
  {
    hide GoodShare, Ready;
    var after, share := Next(g, put), g.sent[put.context];
    match put {
      case PutNode(_, id) => NodeKeepsShare(share, separator, id,
        Edge(Endpoint("", Unset, AnyKind), Endpoint("", Unset, AnyKind), Contains));
      case PutEdge(_, edge) => EdgeKeepsShare(share, separator, edge);
    }
    forall edge | edge in after.edges ensures SentBySome(after, edge) {
      if edge in g.edges {
        var i :| 0 <= i < |g.sent| && edge in g.sent[i].edges;
        assert edge in after.sent[i].edges;
      } else {
        assert edge in after.sent[put.context].edges;
      }
    }
  }

  /** Two containment edges into one child. */
  predicate Siblings(e: Edge, f: Edge) {
    e.kind == Contains && f.kind == Contains && e.end.value == f.end.value
  }

  lemma EdgeReady(g: Graph, separator: char, edge: Edge)
    requires Invariant(g, separator) && edge in g.edges
    ensures edge.end.value in g.nodes && (Structural(edge.kind) ==> edge.start.value in g.nodes)
    ensures edge.kind == Contains ==> edge.start.value == ParentId(separator, edge.end.value)
  {
    hide ParentId;
    assert SentBySome(g, edge);
    var i :| 0 <= i < |g.sent| && edge in g.sent[i].edges;
    assert GoodShare(g.sent[i], separator);
    assert Ready(g.sent[i].root, g.sent[i].nodes, g.sent[i].edges, edge, Lineage(separator));
  }

  /**
    * In every state of every interleaving: the end of an edge is out, the start of a Contains or HasNetworkShare edge
    * is out as well, and two Contains edges into one child come from one parent.
    */
  lemma OneParent(graphs: seq<Graph>, puts: seq<Put>, separator: char, k: nat)
    requires Behavior(graphs, puts, separator) && k <= |puts|
    ensures |graphs| == |puts| + 1
    ensures forall edge :: edge in graphs[k].edges ==>
      edge.end.value in graphs[k].nodes && (Structural(edge.kind) ==> edge.start.value in graphs[k].nodes)
    ensures forall e, f :: e in graphs[k].edges && f in graphs[k].edges && Siblings(e, f) ==>
      e.start.value == f.start.value
  {
    hide ParentId, Invariant, Ready;
    RunInvariant(graphs, puts, separator, k);
    forall edge | edge in graphs[k].edges
      ensures edge.end.value in graphs[k].nodes && (Structural(edge.kind) ==> edge.start.value in graphs[k].nodes)
      ensures edge.kind == Contains ==> edge.start.value == ParentId(separator, edge.end.value)
    {
      EdgeReady(graphs[k], separator, edge);
    }
  }

  lemma {:induction false} HangsClimbs(edges: set<Edge>, separator: char, id: string, n: nat, root: string, m: nat)
    requires Hangs(edges, separator, id, n, root)
    ensures Climb(separator, id, n) == root
    ensures m < n ==> Holds(edges, Climb(separator, id, m + 1), Climb(separator, id, m))
    decreases n
  {
    hide ParentId;
    if n > 0 {
      HangsClimbs(edges, separator, ParentId(separator, id), n - 1, root, if m > 0 then m - 1 else 0);
      assert Climb(separator, id, 1) == Climb(separator, ParentId(separator, id), 0);
    }
  }

  lemma ChainInGraph(g: Graph, separator: char, child: Edge) returns (i: nat, n: nat)
    requires Invariant(g, separator) && child in g.edges && child.kind == Contains
    ensures i < |g.sent| && n > 0 && ShareRoot(g.sent[i].root)
    ensures Climb(separator, child.end.value, n) == g.sent[i].root && g.sent[i].root in g.nodes
    ensures forall m | 0 <= m < n ::
      Holds(g.edges, Climb(separator, child.end.value, m + 1), Climb(separator, child.end.value, m))
  {
    hide ParentId, Climb, Ready, Grounded, Hangs;
    var id := child.end.value;
    assert SentBySome(g, child);
    i :| 0 <= i < |g.sent| && child in g.sent[i].edges;
    var share := g.sent[i];
    assert GoodShare(share, separator) && Hung(share, separator, id);
    n :| n > 0 && Hangs(share.edges, separator, id, n, share.root);
    HangsMore(share.edges, g.edges, separator, id, n, share.root);
    forall m | 0 <= m < n ensures Holds(g.edges, Climb(separator, id, m + 1), Climb(separator, id, m)) {
      HangsClimbs(g.edges, separator, id, n, share.root, m);
    }
    HangsClimbs(g.edges, separator, id, n, share.root, 0);
    TopOut(g, separator, Climb(separator, id, n - 1 + 1), Climb(separator, id, n - 1));
  }

  lemma TopOut(g: Graph, separator: char, parent: string, id: string)
    requires Invariant(g, separator) && Holds(g.edges, parent, id)
    ensures parent in g.nodes
  {
    hide Invariant, ParentId;
    var edge :| edge in g.edges && edge.kind == Contains && edge.start.value == parent && edge.end.value == id;
    EdgeReady(g, separator, edge);
  }

  /**
   * In every state of every interleaving, containment edges of the graph lead up from each child to the share of some
   * context.
   */
  lemma ChainToShare(graphs: seq<Graph>, puts: seq<Put>, separator: char, k: nat, child: Edge) returns (i: nat, n: nat)
    requires Behavior(graphs, puts, separator) && k <= |puts| && child in graphs[k].edges && child.kind == Contains
    ensures |graphs| == |puts| + 1 && i < |graphs[k].sent| && n > 0 && ShareRoot(graphs[k].sent[i].root)
    ensures Climb(separator, child.end.value, n) == graphs[k].sent[i].root && graphs[k].sent[i].root in graphs[k].nodes
    ensures forall m | 0 <= m < n ::
      Holds(graphs[k].edges, Climb(separator, child.end.value, m + 1), Climb(separator, child.end.value, m))
  {
    hide Climb, Invariant, Holds, Enabled, Next;
    RunInvariant(graphs, puts, separator, k);
    i, n := ChainInGraph(graphs[k], separator, child);
  }

  /** From the share there is no way up, so no chain goes on through it. */
  lemma {:induction false} AboveShare(separator: char, host: string, share: string, steps: nat)
    requires steps > 0
    ensures Climb(separator, ShareId(host, share), steps) == ""
    decreases steps
  {
    assert ShareId(host, share)[0] == '\\' && Split("") == [""];
    assert ParentId(separator, ShareId(host, share)) == "" && ParentId(separator, "") == "";
    ClimbEmpty(separator, steps - 1);
  }

  lemma {:induction false} ClimbEmpty(separator: char, steps: nat)
    ensures Climb(separator, "", steps) == ""
  {
    assert Split("") == [""] && ParentId(separator, "") == "";
    if steps > 0 {
      ClimbEmpty(separator, steps - 1);
    }
  }

  lemma {:induction false} ClimbSplit(separator: char, id: string, m: nat, n: nat)
    ensures Climb(separator, id, m + n) == Climb(separator, Climb(separator, id, m), n)
    decreases m
  {
    hide ParentId;
    if m > 0 {
      ClimbSplit(separator, ParentId(separator, id), m - 1, n);
    }
  }

  /**
    * No cycle, and the share is reached in path-length steps: in every state of every interleaving, each file or
    * directory with a parent climbs, by containment edges of that graph, one for each name of its path, to its share,
    * and the share is out.
    */
  lemma PathToShare(graphs: seq<Graph>, puts: seq<Put>, separator: char, k: nat, child: Edge,
                    host: string, share: string, names: seq<string>, isDir: bool)
    requires Separator(separator) && Behavior(graphs, puts, separator) && k <= |puts|
    requires child in graphs[k].edges && child.kind == Contains
    requires GoodName(host) && GoodName(share) && GoodNames(names) && names != []
    requires child.end.value == ContentId(separator, host, share, names, isDir)
    ensures |graphs| == |puts| + 1
    ensures Climb(separator, child.end.value, |names|) == ShareId(host, share) &&
      ShareId(host, share) in graphs[k].nodes
    ensures forall m | 0 <= m < |names| ::
      Holds(graphs[k].edges, Climb(separator, child.end.value, m + 1), Climb(separator, child.end.value, m))
  {
    hide ParentId, Climb, Enabled, Next, Holds, ContentId, ShareId, GoodName;
    var i, n := ChainToShare(graphs, puts, separator, k, child);
    var id, root := child.end.value, graphs[k].sent[i].root;
    ClimbToShare(separator, host, share, names, isDir, |names|);
    var h, s :| GoodName(h) && GoodName(s) && root == ShareId(h, s);
    RootIsNoPlace(h, s);
    if n < |names| {
      ClimbToShare(separator, host, share, names, isDir, n);
      PlaceStart(separator, host, share, names[..|names| - n], true);
      assert false;
    }
    if n > |names| {
      ClimbSplit(separator, id, |names|, n - |names|);
      AboveShare(separator, host, share, n - |names|);
      assert false;
    }
  }

  lemma RootIsNoPlace(host: string, share: string)
    ensures ShareId(host, share) != "" && ShareId(host, share)[0] == '\\'
  {
  }

  lemma PlaceStart(separator: char, host: string, share: string, names: seq<string>, isDir: bool)
    ensures var id := ContentId(separator, host, share, names, isDir); id != "" && id[0] != '\\'
  {
  }

  // ----- at the items of one walk -----

  /** What a walk has sent when it has examined its first n items. */
  function SentAfter(w: World, effectiveAccessOnly: bool, walk: ShareWalk, n: nat): Sent
    requires n <= |walk.run.events|
  {
    SentBy(w, effectiveAccessOnly, walk.(run := walk.run.(events := walk.run.events[..n])))
  }

  /** With a place, the directories above it are there. */
  lemma PlacesClosed(events: seq<Event>, p: Place, k: nat)
    requires p in Places(events) && 0 < k < |p.names|
    ensures Place(p.names[..|p.names| - k], true) in Places(events)
  {
    var e :| e in events && p in PlacesOf(e);
    var q := Place(p.names[..|p.names| - k], true);
    if p == Place(e.names, e.isDir) {
      assert q.names == Init(e.names)[..|p.names| - k];
    } else {
      var j :| 1 <= j <= |Init(e.names)| && p == Place(Init(e.names)[..j], true);
      assert q.names == Init(e.names)[..j - k];
    }
    assert q in PlacesOf(e);
  }

  lemma SentAfterImage(w: World, bound: nat, loads: nat, effectiveAccessOnly: bool, n: nat)
    requires WellFormed(w) && Bounded(w, bound) && n <= |WalkShare(w, bound, loads).run.events|
    ensures var walk := WalkShare(w, bound, loads); var places := Places(walk.run.events[..n]);
      && GoodPlaces(places)
      && SentAfter(w, effectiveAccessOnly, walk, n) ==
          Image(w, SiteOf(w, effectiveAccessOnly), walk.root || places != {}, places)
  {
    hide WalkShare, SendAll, SiteOf, Places, Bounded, WellFormed, Image, AddPath;
    WalkShape(w, bound, loads);
    var walk, site := WalkShare(w, bound, loads), SiteOf(w, effectiveAccessOnly);
    assert GoodEvents(walk.run.events[..n]);
    StartImage(w, site, walk.root);
    SendAllImage(w, site, walk.root, walk.run.events[..n]);
  }

  lemma PlaceHeld(w: World, effectiveAccessOnly: bool, root: bool, places: set<Place>, p: Place)
    requires GoodPlaces(places) && p in places
    ensures Holds(Image(w, SiteOf(w, effectiveAccessOnly), root, places).edges,
                  ParentOf(w.separator, w.host, w.share, p.names), IdOf(w, p))
    ensures IdOf(w, p) in Image(w, SiteOf(w, effectiveAccessOnly), root, places).nodes
  {
    hide RightsEdges, EffectiveEdges, RightsInForce, RootEdges, RightsOf, ContentId, ShareId;
    assert p.Good();
    var site := SiteOf(w, effectiveAccessOnly);
    var edge := ContainsEdge(ParentNodeOf(w, site, p.names), NodeOf(w, p.names, p.isDir));
    assert edge in PlaceEdges(w, site, p);
    assert edge in Image(w, site, root, places).edges;
  }

  /**
    * After any number of items of any walk: from an emitted place containment edges lead up, one for each name of its
    * path, through its directories to the share, and all of them are out.
    */
  lemma PlacesHang(w: World, bound: nat, loads: nat, effectiveAccessOnly: bool, n: nat, p: Place, k: nat)
    requires WellFormed(w) && Bounded(w, bound) && n <= |WalkShare(w, bound, loads).run.events|
    requires p in Places(WalkShare(w, bound, loads).run.events[..n]) && k < |p.names|
    ensures var sent := SentAfter(w, effectiveAccessOnly, WalkShare(w, bound, loads), n);
      && Holds(sent.edges, Climb(w.separator, IdOf(w, p), k + 1), Climb(w.separator, IdOf(w, p), k))
      && Climb(w.separator, IdOf(w, p), k) in sent.nodes
      && Climb(w.separator, IdOf(w, p), |p.names|) == ShareId(w.host, w.share) && ShareId(w.host, w.share) in sent.nodes
  {
    hide WalkShare, SentAfter, SiteOf, Places, Bounded, Image, Holds, ContentId, ShareId, Climb;
    SentAfterImage(w, bound, loads, effectiveAccessOnly, n);
    var walk := WalkShare(w, bound, loads);
    var places := Places(walk.run.events[..n]);
    assert p.Good();
    if k > 0 {
      PlacesClosed(walk.run.events[..n], p, k);
    }
    var q := if k == 0 then p else Place(p.names[..|p.names| - k], true);
    PlaceHeld(w, effectiveAccessOnly, walk.root || places != {}, places, q);
    RootOut(w, effectiveAccessOnly, places);
    ClimbHere(w, p, q, k);
  }

  lemma RootOut(w: World, effectiveAccessOnly: bool, places: set<Place>)
    requires GoodPlaces(places)
    ensures ShareId(w.host, w.share) in Image(w, SiteOf(w, effectiveAccessOnly), true, places).nodes
  {
    hide ShareId, RightsOf, Texts.Upper;
    ImageIds(w, SiteOf(w, effectiveAccessOnly), true, places);
  }

  lemma ClimbHere(w: World, p: Place, q: Place, k: nat)
    requires WellFormed(w) && p.Good() && k < |p.names|
    requires q == if k == 0 then p else Place(p.names[..|p.names| - k], true)
    ensures Climb(w.separator, IdOf(w, p), k) == IdOf(w, q)
    ensures Climb(w.separator, IdOf(w, p), k + 1) == ParentOf(w.separator, w.host, w.share, q.names)
    ensures Climb(w.separator, IdOf(w, p), |p.names|) == ShareId(w.host, w.share)
  {
    hide ContentId, ShareId, Climb, GoodListing, GoodName;
    if k > 0 {
      ClimbToShare(w.separator, w.host, w.share, p.names, p.isDir, k);
    } else {
      ClimbNone(w.separator, IdOf(w, p));
    }
    ClimbToShare(w.separator, w.host, w.share, p.names, p.isDir, k + 1);
    ClimbToShare(w.separator, w.host, w.share, p.names, p.isDir, |p.names|);
    assert q.names[..|q.names| - 1] == p.names[..|p.names| - (k + 1)];
  }

  lemma ClimbNone(separator: char, id: string)
    ensures Climb(separator, id, 0) == id
  {
  }
}
