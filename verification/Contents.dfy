/** The walk as the scanner runs it: two loops and a recursion over a shared context. */
module Contents {
  import opened Common
  import Texts
  import opened Kinds
  import opened Paths
  import opened OpenGraphs
  import opened AccessMasks
  import opened RightsCollectors
  import opened Rules
  import opened Contexts
  import opened Traversal
  import SecurityDescriptors

  /** The parent function of the context is the one of the UNC paths. */
  ghost predicate Follows(w: World, lineage: string -> string) {
    forall names, isDir :: GoodNames(names) && names != [] ==>
      lineage(ContentId(w.separator, w.host, w.share, names, isDir)) == ParentOf(w.separator, w.host, w.share, names)
  }

  /** The context was set up for the share of this world. */
  ghost predicate SetUpFor(w: World, ogc: OpenGraphContext) {
    && ogc.share.id == ShareId(w.host, w.share) && ogc.share.name == w.share
    && Follows(w, ogc.lineage)
    && KindSets(ogc.shareRootNTFSRights) == OwnRights(w, [])
  }

  /** The stack entry for the directory `names`. */
  ghost predicate IsEntry(w: World, names: seq<string>, entry: PathEntry) {
    names != [] && entry.node == NodeOf(w, names, true) && KindSets(entry.rights) == OwnRights(w, names)
  }

  /** The stack holds the directories leading to `names`. */
  ghost predicate PathIs(w: World, path: seq<PathEntry>, names: seq<string>) {
    |path| == |names| && forall i :: 0 <= i < |path| ==> IsEntry(w, names[..i + 1], path[i])
  }

  lemma NtfsPlain(w: World, names: seq<string>, rights: ShareRights)
    requires KindSets(rights) == OwnRights(w, names)
    ensures Plain(rights)
  {
    hide OwnRights, Structural, KindSets;
    forall sid, kind | sid in rights && kind in rights[sid] ensures !Structural(kind) {
      assert kind in KindSets(rights)[sid] by { KindSetsAt(rights, sid); InElements(rights[sid], kind); }
      OwnRightsAreNtfs(w, names, sid, kind);
    }
  }

  lemma InElements(kinds: seq<EdgeKind>, kind: EdgeKind)
    requires kind in kinds
    ensures kind in Elements(kinds)
  {
  }

  lemma OwnRightsAreNtfs(w: World, names: seq<string>, sid: string, kind: EdgeKind)
    requires sid in OwnRights(w, names) && kind in OwnRights(w, names)[sid]
    ensures kind.OnNtfs? && !Structural(kind)
  {
    hide Contribution, Subject;
    var aces := DaclAces(w.server.descriptor(FullPath(w.separator, names)));
    var i :| 0 <= i < |aces| && kind in Contribution(NtfsLayer, aces[i]);
    ContributionLayer(aces[i], kind);
  }

  lemma ContributionLayer(ace: SecurityDescriptors.Ace, kind: EdgeKind)
    requires kind in Contribution(NtfsLayer, ace)
    ensures kind.OnNtfs?
  {
  }

  lemma EntryChained(w: World, share: Node, path: seq<PathEntry>, names: seq<string>, lineage: string -> string, i: nat)
    requires PathIs(w, path, names) && GoodNames(names) && Follows(w, lineage) && share.id == ShareId(w.host, w.share)
    requires i < |path|
    ensures path[i].node.kind == Directory && ChildOf(share, path[..i], path[i].node, path[i].rights, lineage)
  {
    hide OwnRights, KindSets, Plain, ContentId;
    assert IsEntry(w, names[..i + 1], path[i]);
    NtfsPlain(w, names[..i + 1], path[i].rights);
    assert names[..i + 1][..i] == names[..i];
    assert i > 0 ==> IsEntry(w, names[..i - 1 + 1], path[i - 1]);
  }

  /** A stack that follows the names is a chain the builder accepts, and abstracts to their entries. */
  lemma PathChained(w: World, share: Node, path: seq<PathEntry>, names: seq<string>, lineage: string -> string)
    requires PathIs(w, path, names) && GoodNames(names) && Follows(w, lineage) && share.id == ShareId(w.host, w.share)
    ensures Chained(share, path, lineage)
  {
    hide PathIs, Follows, ShareId, GoodNames, ChildOf;
    forall i | 0 <= i < |path|
      ensures path[i].node.kind == Directory && ChildOf(share, path[..i], path[i].node, path[i].rights, lineage)
    {
      EntryChained(w, share, path, names, lineage, i);
    }
  }

  lemma PathAbstracts(w: World, path: seq<PathEntry>, names: seq<string>)
    requires PathIs(w, path, names)
    ensures AbstractPath(path) == EntriesOf(w, names)
  {
    hide OwnRights, KindSets, ContentId;
    forall i | 0 <= i < |path| ensures AbstractEntry(path[i]) == EntryOf(w, names[..i + 1], true) {
      assert IsEntry(w, names[..i + 1], path[i]);
    }
  }

  /** The stack entries' names spell the directory. */
  lemma PathNames(w: World, path: seq<PathEntry>, names: seq<string>)
    requires PathIs(w, path, names)
    ensures Names(path) == names
  {
    forall i | 0 <= i < |path| ensures path[i].node.name == names[i] {
      assert IsEntry(w, names[..i + 1], path[i]);
    }
  }

  /** What an item below the stack needs for its emission. */
  lemma ChildReady(w: World, share: Node, path: seq<PathEntry>, names: seq<string>, isDir: bool,
                   rights: ShareRights, lineage: string -> string)
    requires names != [] && GoodNames(names) && PathIs(w, path, names[..|names| - 1])
    requires Follows(w, lineage) && share.id == ShareId(w.host, w.share) && Plain(rights)
    ensures ChildOf(share, path, NodeOf(w, names, isDir), rights, lineage)
  {
    hide ContentId, Plain, OwnRights, KindSets;
    var dirs := names[..|names| - 1];
    assert dirs != [] ==> IsEntry(w, dirs[..|dirs| - 1 + 1], path[|dirs| - 1]);
    assert dirs[..|dirs|] == dirs;
  }

  /** The inheritance loop for a file without rights of its own. */
  method InheritRights(w: World, ogc: OpenGraphContext, ghost names: seq<string>) returns (rights: ShareRights)
    requires SetUpFor(w, ogc) && PathIs(w, ogc.path, names)
    ensures KindSets(rights) == NearestRights(w, names)
  {
    hide OwnRights, KindSets, NearestRights, IsEntry, Follows;
    var i := |ogc.path|;
    assert names[..i] == names;
    while i > 0
      invariant 0 <= i <= |ogc.path|
      invariant NearestRights(w, names) == NearestRights(w, names[..i])
    {
      i := i - 1;
      NearestStep(w, names, i, ogc.path[i]);
      if |ogc.path[i].rights| > 0 {
        return ogc.path[i].rights;
      }
    }
    rights := ogc.shareRootNTFSRights;
    NearestRoot(w);
  }

  /** One directory of the way up. */
  lemma NearestStep(w: World, names: seq<string>, i: nat, entry: PathEntry)
    requires i < |names| && IsEntry(w, names[..i + 1], entry)
    ensures NearestRights(w, names[..i + 1]) == if |entry.rights| > 0 then KindSets(entry.rights)
      else NearestRights(w, names[..i])
  {
    hide OwnRights, KindSets;
    assert names[..i + 1][..i] == names[..i];
    KindSetsEmpty(entry.rights);
  }

  lemma NearestRoot(w: World)
    ensures NearestRights(w, []) == OwnRights(w, [])
  {
  }

  lemma KindSetsEmpty(rights: ShareRights)
    ensures KindSets(rights) == map[] <==> |rights| == 0
  {
    assert |rights| == 0 <==> rights.Keys == {};
  }

  /** The evaluator and the context serve this world, and the context stands in the directory `names`. */
  ghost predicate At(w: World, ogc: OpenGraphContext, eval: Evaluator, names: seq<string>)
    reads ogc, ogc.graph
  {
    && WellFormed(w) && GoodNames(names)
    && eval.rules == w.rules && eval.compare == w.compare
    && ogc.Valid() && SetUpFor(w, ogc)
    && PathIs(w, ogc.path, names)
  }

  /** Makes the node the current element and emits it with the path below which it lies. */
  method EmitElement(w: World, ogc: OpenGraphContext, eval: Evaluator, node: Node, ghost e: Event,
                     ghost names: seq<string>)
    requires At(w, ogc, eval, names)
    requires e.names != [] && e.names[..|e.names| - 1] == names && GoodNames(e.names) && e.processed
    requires node == NodeOf(w, e.names, e.isDir) && ogc.element == Some(node)
    requires KindSets(ogc.elementRights) == RightsInForce(w, e.names, e.isDir) && Plain(ogc.elementRights)
    modifies ogc, ogc.graph
    ensures ogc.Grows() && ogc.path == old(ogc.path)
    ensures ogc.Emitted() == SendEvent(w, ogc.Setting(), old(ogc.Emitted()), e)
  {
    hide OpenGraph.Valid, Coherent, OwnRights, KindSets, ContentId, AddPath, Plain, RightsInForce;
    PathChained(w, ogc.share, ogc.path, names, ogc.lineage);
    PathAbstracts(w, ogc.path, names);
    ChildReady(w, ogc.share, ogc.path, e.names, e.isDir, ogc.elementRights, ogc.lineage);
    ogc.AddPathToGraph();
  }

  /** A directory found in the listing: explorable ones are reported for the next level. */
  method ExamineDirectory(w: World, ogc: OpenGraphContext, eval: Evaluator, item: Item, fullPath: string,
                          ghost names: seq<string>)
    returns (counts: Counts, found: Option<PathEntry>)
    requires At(w, ogc, eval, names) && ogc.element == None && eval.context.depth == |ogc.path|
    requires GoodName(item.name) && item.isDir && fullPath == FullPath(w.separator, names + [item.name])
    requires KindSets(ogc.elementRights) == OwnRights(w, names + [item.name])
    modifies ogc, ogc.graph, eval
    ensures ogc.Grows() && ogc.path == old(ogc.path) && ogc.element == None
    ensures var (e, context) := Examine(w, names, item, old(eval.context));
      && eval.context == context && context.depth == old(eval.context.depth) && counts == CountOf(e)
      && ogc.Emitted() == SendEvent(w, ogc.Setting(), old(ogc.Emitted()), e)
      && (found.Some? <==> e.admitted) && (found.Some? ==> IsEntry(w, names + [item.name], found.value))
  {
    hide OpenGraph.Valid, Coherent, OwnRights, KindSets, ContentId, AddPath, SetUpFor, PathIs, Plain, Evaluate,
      GoodName;
    ghost var path := names + [item.name];
    assert path[..|path| - 1] == names;
    counts, found := ZERO, None;
    var ruleDir := DirObject(item.name, fullPath);
    var admitted := eval.CanExploreDir(ruleDir);
    if !admitted {
      counts := counts.(skippedDirectories := 1);
      return;
    }
    counts := counts.(totalDirectories := 1);
    var node := Node("DIR:" + UncPath(w, fullPath), Directory, item.name);
    assert node == NodeOf(w, path, true) by { UncPathIs(w, path, true); }
    ogc.SetElement(node);
    var rights := ogc.elementRights;
    var processed := eval.CanProcessDir(ruleDir);
    if processed {
      NtfsPlain(w, path, rights);
      EmitElement(w, ogc, eval, node, Event(path, true, true, true), names);
      counts := counts.(processedDirectories := 1);
    }
    found := Some(PathEntry(node, rights));
    ogc.ClearElement();
  }

  function UncPath(w: World, fullPath: string): string {
    "\\\\" + w.host + "\\" + w.share + "\\" + fullPath
  }

  lemma UncPathIs(w: World, names: seq<string>, isDir: bool)
    ensures ContentId(w.separator, w.host, w.share, names, isDir) ==
      (if isDir then "DIR:" else "FILE:") + UncPath(w, FullPath(w.separator, names))
  {
  }

  /** A file whose own descriptor gives no rights takes those of the nearest ancestor that has some. */
  method ResolveFileRights(w: World, ogc: OpenGraphContext, ghost names: seq<string>)
    requires names != [] && SetUpFor(w, ogc) && PathIs(w, ogc.path, names[..|names| - 1])
    requires KindSets(ogc.elementRights) == OwnRights(w, names)
    modifies ogc`elementRights
    ensures KindSets(ogc.elementRights) == RightsInForce(w, names, false) && Plain(ogc.elementRights)
  {
    hide OwnRights, KindSets, Plain, NearestRights, PathIs;
    KindSetsEmpty(ogc.elementRights);
    NtfsPlain(w, names, ogc.elementRights);
    if |ogc.elementRights| == 0 {
      ghost var dirs := names[..|names| - 1];
      var inherited := InheritRights(w, ogc, dirs);
      NearestPlain(w, dirs, inherited);
      KindSetsEmpty(inherited);
      if |inherited| > 0 {
        ogc.SetElementRights(inherited);
      }
    }
  }

  /** A file found in the listing; the second rule decision repeats the first. */
  method ExamineFile(w: World, ogc: OpenGraphContext, eval: Evaluator, item: Item, fullPath: string,
                     ghost names: seq<string>)
    returns (counts: Counts)
    requires At(w, ogc, eval, names) && ogc.element == None && eval.context.depth == |ogc.path|
    requires GoodName(item.name) && !item.isDir && fullPath == FullPath(w.separator, names + [item.name])
    requires KindSets(ogc.elementRights) == OwnRights(w, names + [item.name])
    modifies ogc, ogc.graph, eval
    ensures ogc.Grows() && ogc.path == old(ogc.path) && ogc.element == None
    ensures var (e, context) := Examine(w, names, item, old(eval.context));
      && eval.context == context && context.depth == old(eval.context.depth) && counts == CountOf(e)
      && ogc.Emitted() == SendEvent(w, ogc.Setting(), old(ogc.Emitted()), e)
  {
    hide OpenGraph.Valid, Coherent, OwnRights, KindSets, ContentId, AddPath, PathIs, Plain, Evaluate, GoodName,
      RightsInForce, SetUpFor;
    ghost var path := names + [item.name];
    assert path[..|path| - 1] == names;
    counts := ZERO;
    var ruleFile := FileObject(item.name, fullPath, item.size, Texts.Lower(Texts.Ext(item.name)));
    var allowed := eval.CanProcessFile(ruleFile);
    if !allowed {
      counts := counts.(skippedFiles := 1);
      return;
    }
    counts := counts.(totalFiles := 1);
    var node := Node("FILE:" + UncPath(w, fullPath), File, item.name);
    assert node == NodeOf(w, path, false) by { UncPathIs(w, path, false); }
    ogc.SetElement(node);
    ResolveFileRights(w, ogc, path);
    var again := eval.CanProcessFile(ruleFile);
    if again {
      EmitElement(w, ogc, eval, node, Event(path, false, true, true), names);
      counts := counts.(processedFiles := 1);
    }
    ogc.ClearElement();
  }

  lemma {:induction false} NearestPlain(w: World, names: seq<string>, rights: ShareRights)
    requires KindSets(rights) == NearestRights(w, names)
    ensures Plain(rights)
  {
    hide OwnRights, KindSets;
    if names == [] || OwnRights(w, names) != map[] {
      NtfsPlain(w, if names == [] then [] else names, rights);
    } else {
      NearestPlain(w, names[..|names| - 1], rights);
    }
  }

  /** The directories put on the list, as stack entries. */
  ghost predicate AreEntries(w: World, names: seq<string>, entries: seq<PathEntry>, dirs: seq<string>) {
    |entries| == |dirs| && forall k :: 0 <= k < |dirs| ==> IsEntry(w, names + [dirs[k]], entries[k])
  }

  lemma AreEntriesSnoc(w: World, names: seq<string>, entries: seq<PathEntry>, dirs: seq<string>, entry: PathEntry,
                       dir: string)
    requires AreEntries(w, names, entries, dirs) && IsEntry(w, names + [dir], entry)
    ensures AreEntries(w, names, entries + [entry], dirs + [dir])
  {
    hide IsEntry;
  }

  lemma NoEvents(w: World, site: Site, sent: Sent)
    ensures Tally([]) == ZERO && SendAll(w, site, sent, []) == sent
  {
  }

  /** One more event at the end of a walk. */
  lemma EventSnoc(w: World, site: Site, sent: Sent, events: seq<Event>, e: Event)
    ensures Tally(events + [e]) == Tally(events).Add(CountOf(e))
    ensures SendAll(w, site, sent, events + [e]) == SendEvent(w, site, SendAll(w, site, sent, events), e)
  {
    hide SendEvent, CountOf;
    assert (events + [e])[..|events|] == events;
  }

  /** One item of the listing, whatever it is. */
  method ExamineItem(w: World, ogc: OpenGraphContext, eval: Evaluator, flag: TimeoutFlag, item: Item,
                     currentPath: string,
                     ghost names: seq<string>)
    returns (counts: Counts, found: Option<PathEntry>)
    requires At(w, ogc, eval, names) && ogc.element == None && eval.context.depth == |ogc.path|
    requires GoodName(item.name) && currentPath == DirPath(names)
    modifies ogc, ogc.graph, eval, flag`asked
    ensures ogc.Grows() && ogc.path == old(ogc.path) && ogc.element == None
    ensures var (e, context) := Examine(w, names, item, old(eval.context));
      && eval.context == context && context.depth == old(eval.context.depth) && counts == CountOf(e)
      && ogc.Emitted() == SendEvent(w, ogc.Setting(), old(ogc.Emitted()), e)
      && flag.asked == old(flag.asked) + [Asked(Reading(e.names), flag.loads)]
      && (found.Some? <==> e.isDir && e.admitted) && (found.Some? ==> IsEntry(w, names + [item.name], found.value))
  {
    hide OpenGraph.Valid, Coherent, KindSets, SendEvent, SetUpFor, PathIs, GoodName, IsEntry, CountOf, RightsOf,
      DaclAces;
    var fullPath := if currentPath == "" then item.name else currentPath + [w.separator] + item.name;
    assert (names + [item.name])[..|names|] == names;
    assert fullPath == FullPath(w.separator, names + [item.name]);
    flag.Ask(Reading(names + [item.name]));
    var elementRights := CollectNTFSRights(w.server.descriptor(fullPath));
    ogc.SetElementRights(elementRights);
    if item.isDir {
      counts, found := ExamineDirectory(w, ogc, eval, item, fullPath, names);
    } else {
      counts := ExamineFile(w, ogc, eval, item, fullPath, names);
      found := None;
    }
  }

  /** The first loop: every item of the listing, until the timeout. */
  method ScanContents(w: World, ogc: OpenGraphContext, eval: Evaluator, flag: TimeoutFlag,
                      items: seq<Item>, currentPath: string, ghost names: seq<string>, ghost start: Run)
    returns (counts: Counts, entries: seq<PathEntry>, ghost run: Run, ghost dirs: seq<string>)
    requires At(w, ogc, eval, names) && ogc.element == None && flag.fireAt == w.fireAt
    requires eval.context.depth == |ogc.path|
    requires GoodListing(items) && currentPath == DirPath(names)
    requires start.events == [] && start.loads == flag.loads && start.eval == eval.context
    modifies ogc, ogc.graph, eval, flag
    ensures At(w, ogc, eval, names)
    ensures ogc.Grows() && ogc.path == old(ogc.path) && ogc.element == None
    ensures (run, dirs) == Scan(w, names, items, start, [])
    ensures eval.context == run.eval && flag.loads == run.loads && counts == Tally(run.events)
    ensures start.asked <= run.asked && flag.asked == old(flag.asked) + run.asked[|start.asked|..]
    ensures ogc.Emitted() == SendAll(w, ogc.Setting(), old(ogc.Emitted()), run.events)
    ensures AreEntries(w, names, entries, dirs)
  {
    hide OpenGraph.Valid, Coherent, SendAll, Tally, SendEvent, SetUpFor, PathIs, GoodName, CountOf, Examine, IsEntry,
      DotName;
    counts, entries, run, dirs := ZERO, [], start, [];
    NoEvents(w, ogc.Setting(), ogc.Emitted());
    ghost var all := Scan(w, names, items, run, dirs);
    for i := 0 to |items|
      invariant At(w, ogc, eval, names)
      invariant ogc.Grows() && ogc.path == old(ogc.path) && ogc.element == None
      invariant all == Scan(w, names, items[i..], run, dirs)
      invariant eval.context.depth == |ogc.path|
      invariant eval.context == run.eval && flag.loads == run.loads && counts == Tally(run.events)
      invariant start.asked <= run.asked && flag.asked == old(flag.asked) + run.asked[|start.asked|..]
      invariant ogc.Emitted() == SendAll(w, ogc.Setting(), old(ogc.Emitted()), run.events)
      invariant AreEntries(w, names, entries, dirs)
    {
      var item := items[i];
      var fired := flag.Load();
      ghost var before := run;
      run := run.(loads := run.loads + 1);
      if fired {
        break;
      }
      ghost var (run', dirs') := Step(w, names, item, run, dirs);
      assert items[i..][1..] == items[i + 1..];
      assert all == Scan(w, names, items[i + 1..], run', dirs');
      if DotName(item.name) {
        continue;
      }
      var delta, found := ExamineItem(w, ogc, eval, flag, item, currentPath, names);
      ghost var (e, context) := Examine(w, names, item, run.eval);
      EventSnoc(w, ogc.Setting(), old(ogc.Emitted()), run.events, e);
      counts := counts.Add(delta);
      if found.Some? {
        AreEntriesSnoc(w, names, entries, dirs, found.value, item.name);
        entries := entries + [found.value];
      }
      run, dirs := run', dirs';
    }
  }

  /** One directory of the list: on the stack while it is explored, off it afterwards. */
  method ExploreChild(w: World, ghost bound: nat, ogc: OpenGraphContext, eval: Evaluator, flag: TimeoutFlag,
                      dir: PathEntry, depth: nat, ghost names: seq<string>, ghost name: string)
    returns (counts: Counts)
    requires At(w, ogc, eval, names) && ogc.element == None && flag.fireAt == w.fireAt
    requires Bounded(w, bound) && GoodName(name) && depth == |names| < bound && IsEntry(w, names + [name], dir)
    modifies ogc, ogc.graph, eval, flag
    ensures At(w, ogc, eval, names)
    ensures ogc.Grows() && ogc.path == old(ogc.path) && ogc.element == None
    ensures var run := Explore(w, bound, names + [name], old(flag.loads), old(eval.context));
      && eval.context == run.eval && flag.loads == run.loads && counts == Tally(run.events)
      && flag.asked == old(flag.asked) + run.asked
      && ogc.Emitted() == SendAll(w, ogc.Setting(), old(ogc.Emitted()), run.events)
    decreases bound - |names|, 0
  {
    hide OpenGraph.Valid, Coherent, SetUpFor, IsEntry, Explore, SendAll, Tally;
    PushedPath(w, ogc.path, names, dir, name);
    ogc.PushPath(dir.node, dir.rights);
    ghost var pushed := ogc.path;
    counts := CollectContentsAtDepth(w, bound, ogc, eval, flag, depth + 1, names + [name]);
    var popped := ogc.PopPath();
    assert ogc.path == pushed[..|pushed| - 1] == old(ogc.path);
  }

  /** The second loop: the listed directories one after the other, until the timeout. */
  method DescendInto(w: World, ghost bound: nat, ogc: OpenGraphContext, eval: Evaluator, flag: TimeoutFlag,
                     entries: seq<PathEntry>, depth: nat, ghost names: seq<string>, ghost dirs: seq<string>,
                       ghost start: Run)
    returns (counts: Counts)
    requires At(w, ogc, eval, names) && ogc.element == None && flag.fireAt == w.fireAt
    requires Bounded(w, bound) && GoodNames(dirs) && depth == |names| && (dirs == [] || |names| < bound)
    requires AreEntries(w, names, entries, dirs)
    requires eval.context == start.eval && flag.loads == start.loads
    modifies ogc, ogc.graph, eval, flag
    ensures At(w, ogc, eval, names)
    ensures ogc.Grows() && ogc.path == old(ogc.path) && ogc.element == None
    ensures var run := Descend(w, bound, names, dirs, Run([], start.loads, start.eval, []));
      && eval.context == run.eval && flag.loads == run.loads && counts == Tally(run.events)
      && flag.asked == old(flag.asked) + run.asked
      && ogc.Emitted() == SendAll(w, ogc.Setting(), old(ogc.Emitted()), run.events)
    decreases bound - |names|, 1
  {
    hide OpenGraph.Valid, Coherent, SetUpFor, PathIs, IsEntry, Explore, Descend, GoodName, SendAll, Tally, WellFormed,
      Bounded;
    counts := ZERO;
    ghost var run := Run([], start.loads, start.eval, []);
    NoEvents(w, ogc.Setting(), ogc.Emitted());
    ghost var all := Descend(w, bound, names, dirs, run);
    for k := 0 to |entries|
      invariant At(w, ogc, eval, names)
      invariant ogc.Grows() && ogc.path == old(ogc.path) && ogc.element == None
      invariant all == Descend(w, bound, names, dirs[k..], run)
      invariant eval.context == run.eval && flag.loads == run.loads && counts == Tally(run.events)
      invariant flag.asked == old(flag.asked) + run.asked
      invariant ogc.Emitted() == SendAll(w, ogc.Setting(), old(ogc.Emitted()), run.events)
    {
      var dir := entries[k];
      ghost var below := names + [dirs[k]];
      var fired := flag.Load();
      if fired {
        DescendStops(w, bound, names, dirs[k..], run);
        run := run.(loads := run.loads + 1);
        break;
      }
      assert IsEntry(w, names + [dirs[k]], entries[k]);
      assert below == names + [dirs[k..][0]];
      var subCounts := ExploreChild(w, bound, ogc, eval, flag, dir, depth, names, dirs[k]);
      ghost var sub := Explore(w, bound, below, run.loads + 1, run.eval);
      counts := counts.Add(subCounts);
      assert dirs[k..][1..] == dirs[k + 1..];
      DirectoryDone(w, bound, names, dirs[k..], run, ogc.Setting(), old(ogc.Emitted()));
      run := Run(run.events + sub.events, sub.loads, sub.eval, run.asked + sub.asked);
    }
    if |entries| == |dirs| {
      DescendNone(w, bound, names, run);
    }
  }

  lemma DescendStops(w: World, bound: nat, names: seq<string>, dirs: seq<string>, run: Run)
    requires WellFormed(w) && Bounded(w, bound) && GoodNames(names) && GoodNames(dirs) && dirs != [] && |names| < bound
    requires Fired(w, run.loads)
    ensures Descend(w, bound, names, dirs, run) == run.(loads := run.loads + 1)
  {
  }

  lemma DescendNone(w: World, bound: nat, names: seq<string>, run: Run)
    requires WellFormed(w) && Bounded(w, bound) && GoodNames(names)
    ensures Descend(w, bound, names, [], run) == run
  {
  }

  /** The walk after the first of the directories. */
  lemma DirectoryDone(w: World, bound: nat, names: seq<string>, dirs: seq<string>, run: Run, site: Site, sent: Sent)
    requires WellFormed(w) && Bounded(w, bound) && GoodNames(names) && GoodNames(dirs) && dirs != [] && |names| < bound
    requires !Fired(w, run.loads)
    ensures var sub := Explore(w, bound, names + [dirs[0]], run.loads + 1, run.eval);
      && Descend(w, bound, names, dirs, run) == Descend(w, bound, names, dirs[1..],
           Run(run.events + sub.events, sub.loads, sub.eval, run.asked + sub.asked))
      && Tally(run.events + sub.events) == Tally(run.events).Add(Tally(sub.events))
      && SendAll(w, site, sent, run.events + sub.events) ==
           SendAll(w, site, SendAll(w, site, sent, run.events), sub.events)
  {
    hide Explore, SendAll, Tally, Bounded, WellFormed, GoodName;
    var sub := Explore(w, bound, names + [dirs[0]], run.loads + 1, run.eval);
    TallyConcat(run.events, sub.events);
    SendAllConcat(w, site, sent, run.events, sub.events);
  }

  lemma PushedPath(w: World, path: seq<PathEntry>, names: seq<string>, entry: PathEntry, dir: string)
    requires PathIs(w, path, names) && IsEntry(w, names + [dir], entry)
    ensures PathIs(w, path + [PathEntry(entry.node, entry.rights)], names + [dir])
  {
    hide IsEntry;
    var path', names' := path + [entry], names + [dir];
    forall i | 0 <= i < |path'| ensures IsEntry(w, names'[..i + 1], path'[i]) {
      assert i < |path| ==> names'[..i + 1] == names[..i + 1] && IsEntry(w, names[..i + 1], path[i]);
      assert i == |path| ==> names'[..i + 1] == names';
    }
  }

  /**
   * The walk. Whatever the listings, the rules and the moment of the timeout: it comes back to the stack it found,
   * leaves no current element, has examined and emitted what the specification says and counts exactly that.
   */
  method CollectContentsAtDepth(w: World, ghost bound: nat, ogc: OpenGraphContext, eval: Evaluator, flag: TimeoutFlag,
                                depth: nat, ghost names: seq<string>)
    returns (counts: Counts)
    requires At(w, ogc, eval, names) && ogc.element == None && flag.fireAt == w.fireAt
    requires Bounded(w, bound) && |names| <= bound && depth == |names|
    modifies ogc, ogc.graph, eval, flag
    ensures At(w, ogc, eval, names)
    ensures ogc.Grows() && ogc.path == old(ogc.path) && ogc.element == None
    ensures var run := Explore(w, bound, names, old(flag.loads), old(eval.context));
      && eval.context == run.eval && flag.loads == run.loads && counts == Tally(run.events)
      && flag.asked == old(flag.asked) + run.asked
      && ogc.Emitted() == SendAll(w, ogc.Setting(), old(ogc.Emitted()), run.events)
    decreases bound - |names|, 3
  {
    hide OpenGraph.Valid, Coherent, GoodName, SendAll, Tally, Scan, Descend, DirPath, PathIs, Follows, AreEntries,
      OwnRights, KindSets, Bounded, WellFormed, GoodListing, Explore;
    counts := ZERO;
    NoEvents(w, ogc.Setting(), ogc.Emitted());
    ExploreCases(w, bound, names, flag.loads, eval.context);
    var fired := flag.Load();
    if fired {
      return;
    }
    if w.maxDepth > 0 && depth >= w.maxDepth {
      return;
    }
    var shareName := ogc.share.name;
    if shareName == "" {
      return;
    }
    var currentPath := ogc.GetStringPathFromRoot();
    PathNames(w, ogc.path, names);
    flag.Ask(Mounting(names));
    if !w.server.mount(currentPath) {
      return;
    }
    ghost var entered := eval.context;
    eval.SetDepth(depth);
    flag.Ask(Listing(names));
    var contents := w.server.list(currentPath);
    if contents.None? {
      return;
    }
    ghost var start := Entering(names, flag.loads - 1, entered);
    counts := CollectListing(w, bound, ogc, eval, flag, contents.value, currentPath, depth, names, start);
  }

  lemma ExploreCases(w: World, bound: nat, names: seq<string>, loads: nat, eval: Context)
    requires WellFormed(w) && Bounded(w, bound) && GoodNames(names) && |names| <= bound
    ensures var run, path := Explore(w, bound, names, loads, eval), DirPath(names);
      if Fired(w, loads) || (w.maxDepth > 0 && |names| >= w.maxDepth) ||
        w.share == "" then run == Run([], loads + 1, eval, [])
      else if !w.server.mount(path) then run == Run([], loads + 1, eval, [Asked(Mounting(names), loads + 1)])
      else if w.server.list(path).None? then run == Entering(names, loads, eval)
      else
        var items := w.server.list(path).value;
        var (scanned, dirs) := Scan(w, names, items, Entering(names, loads, eval), []);
        && GoodListing(items) && GoodNames(dirs) && (dirs == [] || |names| < bound)
        && run == Descend(w, bound, names, dirs, scanned)
  {
    hide Scan, GoodName;
    var path := DirPath(names);
    if w.server.list(path).Some? && (w.maxDepth > 0 ==> |names| < w.maxDepth) {
      ListedDirs(w, bound, names, w.server.list(path).value, Entering(names, loads, eval));
    }
  }

  /** Both loops over a listing. */
  method CollectListing(w: World, ghost bound: nat, ogc: OpenGraphContext, eval: Evaluator, flag: TimeoutFlag,
                        items: seq<Item>, currentPath: string, depth: nat, ghost names: seq<string>, ghost start: Run)
    returns (counts: Counts)
    requires At(w, ogc, eval, names) && ogc.element == None && flag.fireAt == w.fireAt
    requires Bounded(w, bound) && |names| <= bound && depth == |names| == |ogc.path| == eval.context.depth
    requires GoodListing(items) && currentPath == DirPath(names)
    requires start.events == [] && start.loads == flag.loads && start.eval == eval.context
    requires var dirs := Scan(w, names, items, start, []).1; GoodNames(dirs) && (dirs == [] || |names| < bound)
    modifies ogc, ogc.graph, eval, flag
    ensures At(w, ogc, eval, names)
    ensures ogc.Grows() && ogc.path == old(ogc.path) && ogc.element == None
    ensures var (scanned, dirs) := Scan(w, names, items, start, []); var run := Descend(w, bound, names, dirs, scanned);
      && eval.context == run.eval && flag.loads == run.loads && counts == Tally(run.events)
      && start.asked <= run.asked && flag.asked == old(flag.asked) + run.asked[|start.asked|..]
      && ogc.Emitted() == SendAll(w, ogc.Setting(), old(ogc.Emitted()), run.events)
    decreases bound - |names|, 2
  {
    hide LogsFrom;
    hide OpenGraph.Valid, Coherent, GoodName, SendAll, Tally, Scan, Descend, DirPath, PathIs, Follows, AreEntries,
      OwnRights, KindSets, GoodListing;
    ghost var before := ogc.Emitted();
    var entries;
    ghost var run, dirs;
    counts, entries, run, dirs := ScanContents(w, ogc, eval, flag, items, currentPath, names, start);
    ghost var nodes, edges, records := ogc.graph.nodeLog, ogc.graph.edgeLog, ogc.sentRecords;
    var subCounts := DescendInto(w, bound, ogc, eval, flag, entries, depth, names, dirs, run);
    LogsFromOn(old(ogc.graph.nodeLog), old(ogc.graph.edgeLog), nodes, edges, ogc.graph.nodeLog, ogc.graph.edgeLog,
      records,
      ogc.sentRecords);
    ghost var sub := Descend(w, bound, names, dirs, Run([], run.loads, run.eval, []));
    DescendFrom(w, bound, names, dirs, run);
    TallyConcat(run.events, sub.events);
    SendAllConcat(w, ogc.Setting(), before, run.events, sub.events);
    counts := counts.Add(subCounts);
  }

  /** Earlier events only stand in front. */
  lemma {:induction false} DescendFrom(w: World, bound: nat, names: seq<string>, dirs: seq<string>, run: Run)
    requires WellFormed(w) && Bounded(w, bound) && GoodNames(names) && GoodNames(dirs)
    requires dirs == [] || |names| < bound
    ensures var later := Descend(w, bound, names, dirs, Run([], run.loads, run.eval, []));
      Descend(w, bound, names, dirs, run) ==
        Run(run.events + later.events, later.loads, later.eval, run.asked + later.asked)
    decreases |dirs|
  {
    hide Explore, WellFormed, Bounded, GoodName;
    if dirs == [] || Fired(w, run.loads) {
      assert run.events + [] == run.events && run.asked + [] == run.asked;
    } else {
      var sub := Explore(w, bound, names + [dirs[0]], run.loads + 1, run.eval);
      var rest := Descend(w, bound, names, dirs[1..], Run([], sub.loads, sub.eval, []));
      assert [] + sub.events == sub.events && [] + sub.asked == sub.asked;
      DescendFrom(w, bound, names, dirs[1..],
        Run(run.events + sub.events, sub.loads, sub.eval, run.asked + sub.asked));
      DescendFrom(w, bound, names, dirs[1..], Run(sub.events, sub.loads, sub.eval, sub.asked));
      assert run.events + (sub.events + rest.events) == run.events + sub.events + rest.events;
      assert run.asked + (sub.asked + rest.asked) == run.asked + sub.asked + rest.asked;
    }
  }
}
