/** The recursive walk over the contents of a share, driving the graph builder. */
module Traversal {
  import opened Common
  import opened Kinds
  import opened ByteStrings
  import opened Texts
  import opened Paths
  import opened OpenGraphs
  import opened AccessMasks
  import opened RightsCollectors
  import opened Rules
  import opened Contexts

  // ----- the world outside -----

  datatype Item = Item(name: string, isDir: bool, size: int)

  /**
   * What the file server answers in one run; an empty descriptor means it could not be read. A walk makes no call twice
   * (AskedOnce), so a function of the path is as good as a server whose answers change while it is walked.
   */
  datatype Server = Server(
    mount: string -> bool,
    list: string -> Option<seq<Item>>,
    descriptor: string -> Bytes)

  /** One share on one host, the rules and options it is walked with, and the moment of the timeout. */
  datatype World = World(
    server: Server, host: string, share: string, separator: char, domain: string,
    connect: bool, mountShare: bool, shareDescriptor: Bytes, rootDescriptor: Bytes,
    rules: seq<Rule>, compare: Compare,
    maxDepth: int, fireAt: Option<nat>)

  predicate DotName(name: string) {
    name == "." || name == ".."
  }

  /** A listing is a map from names, and names hold no separators. */
  ghost predicate WellFormed(w: World) {
    && Separator(w.separator) && GoodName(w.host) && GoodName(w.share)
    && forall path :: w.server.list(path).Some? ==> GoodListing(w.server.list(path).value)
  }

  predicate GoodListing(items: seq<Item>) {
    && (forall i :: 0 <= i < |items| ==> GoodName(items[i].name))
    && (forall i, j :: 0 <= i < j < |items| ==> items[i].name != items[j].name)
  }

  /** Below `bound` the walk ends: by the depth limit, or because the server has no directories there. */
  ghost predicate Bounded(w: World, bound: nat) {
    if w.maxDepth > 0 then bound == w.maxDepth
    else forall names :: GoodNames(names) && |names| >= bound ==> NoDirs(w.server.list(DirPath(names)))
  }

  predicate NoDirs(listing: Option<seq<Item>>) {
    listing.Some? ==> forall item :: item in listing.value ==> !item.isDir || DotName(item.name)
  }

  predicate Fired(w: World, loads: nat) {
    w.fireAt.Some? && loads >= w.fireAt.value
  }

  /**
   * The calls of a walk to the server; files and directories are named from the share's root, which is the empty path.
   */
  datatype Call =
    | Connecting | MountingShare | ReadingShare | ReadingRoot
    | Mounting(names: seq<string>) | Listing(names: seq<string>) | Reading(names: seq<string>)

  /** A call, and how often the timeout flag had been read when it was made. */
  datatype Asked = Asked(call: Call, loads: nat)

  class TimeoutFlag {
    const fireAt: Option<nat>
    var loads: nat
    /** The calls made so far. */
    ghost var asked: seq<Asked>

    constructor (fireAt: Option<nat>)
      ensures this.fireAt == fireAt && loads == 0 && asked == []
    {
      this.fireAt, loads, asked := fireAt, 0, [];
    }

    /** The timer may set the flag between any two loads, once. */
    method Load() returns (fired: bool)
      modifies this`loads
      ensures fired == (fireAt.Some? && old(loads) >= fireAt.value) && loads == old(loads) + 1
    {
      fired := fireAt.Some? && loads >= fireAt.value;
      loads := loads + 1;
    }

    /** Notes a call. */
    ghost method Ask(call: Call)
      modifies this`asked
      ensures asked == old(asked) + [Asked(call, loads)]
    {
      asked := asked + [Asked(call, loads)];
    }
  }

  // ----- what the walk examines -----

  /** One examined item: its path below the share, the first rule decision and whether it is emitted. */
  datatype Event = Event(names: seq<string>, isDir: bool, admitted: bool, processed: bool)

  datatype Counts = Counts(
    totalFiles: int, skippedFiles: int, processedFiles: int,
    totalDirectories: int, skippedDirectories: int, processedDirectories: int)
  {
    function Add(other: Counts): Counts {
      Counts(totalFiles + other.totalFiles, skippedFiles + other.skippedFiles, processedFiles + other.processedFiles,
             totalDirectories + other.totalDirectories, skippedDirectories + other.skippedDirectories,
             processedDirectories + other.processedDirectories)
    }
  }

  const ZERO := Counts(0, 0, 0, 0, 0, 0)

  function Unit(b: bool): int {
    if b then 1 else 0
  }

  function CountOf(e: Event): Counts {
    if e.isDir then Counts(0, 0, 0, Unit(e.admitted), Unit(!e.admitted), Unit(e.processed))
    else Counts(Unit(e.admitted), Unit(!e.admitted), Unit(e.processed), 0, 0, 0)
  }

  function Tally(events: seq<Event>): Counts {
    if events == [] then ZERO else Tally(events[..|events| - 1]).Add(CountOf(events[|events| - 1]))
  }

  lemma {:induction false} TallyConcat(a: seq<Event>, b: seq<Event>)
    ensures Tally(a + b) == Tally(a).Add(Tally(b))
  {
    hide CountOf;
    if b == [] {
      assert a + b == a;
    } else {
      assert (a + b)[..|a + b| - 1] == a + b[..|b| - 1];
      TallyConcat(a, b[..|b| - 1]);
    }
  }

  /**
   * A walk so far: what it examined, how often it read the timeout flag, what the evaluator remembers, what it asked.
   */
  datatype Run = Run(events: seq<Event>, loads: nat, eval: Context, asked: seq<Asked>)

  function DirObjectOf(w: World, names: seq<string>): DirObject
    requires names != []
  {
    DirObject(names[|names| - 1], FullPath(w.separator, names))
  }

  function FileObjectOf(w: World, names: seq<string>, size: int): FileObject
    requires names != []
  {
    FileObject(names[|names| - 1], FullPath(w.separator, names), size, Lower(Ext(names[|names| - 1])))
  }

  predicate MayExplore(w: World, context: Context) {
    Evaluate(w.rules, Exploration, context, w.compare)
  }

  predicate MayProcess(w: World, context: Context) {
    Evaluate(w.rules, Processing, context, w.compare)
  }

  /** The rule decisions for one item of the directory `names`, and what the evaluator remembers of it. */
  function Examine(w: World, names: seq<string>, item: Item, eval: Context): (Event, Context) {
    var path := names + [item.name];
    if item.isDir then
      var eval := eval.(dir := Some(DirObjectOf(w, path)));
      var admitted := MayExplore(w, eval);
      (Event(path, true, admitted, admitted && MayProcess(w, eval)), eval)
    else
      var eval := eval.(file := Some(FileObjectOf(w, path, item.size)));
      (Event(path, false, MayProcess(w, eval), MayProcess(w, eval)), eval)
  }

  /** Examines one item; an explorable directory is put on the list. */
  function Step(w: World, names: seq<string>, item: Item, run: Run, dirs: seq<string>): (Run, seq<string>) {
    if DotName(item.name) then (run, dirs)
    else
      var (e, eval) := Examine(w, names, item, run.eval);
      (Run(run.events + [e], run.loads, eval, run.asked + [Asked(Reading(e.names), run.loads)]),
       if e.isDir && e.admitted then dirs + [item.name] else dirs)
  }

  /** Examines the items of a listing until the timeout. */
  function Scan(w: World, names: seq<string>, items: seq<Item>, run: Run, dirs: seq<string>): (Run, seq<string>)
    decreases |items|
  {
    if items == [] then (run, dirs)
    else if Fired(w, run.loads) then (run.(loads := run.loads + 1), dirs)
    else
      var (run', dirs') := Step(w, names, items[0], run.(loads := run.loads + 1), dirs);
      Scan(w, names, items[1..], run', dirs')
  }

  /** Every name on the list belongs to a directory of the listing, once. */
  lemma {:induction false} ScanDirs(w: World, names: seq<string>, items: seq<Item>, run: Run, dirs: seq<string>)
    ensures forall d :: d in Scan(w, names, items, run, dirs).1 ==>
      d in dirs || exists item :: item in items && item.isDir && !DotName(item.name) && item.name == d
    decreases |items|
  {
    if items != [] && !Fired(w, run.loads) {
      var (run', dirs') := Step(w, names, items[0], run.(loads := run.loads + 1), dirs);
      ScanDirs(w, names, items[1..], run', dirs');
    }
  }

  /** The listed directories have good names, and there are none where the walk ends. */
  lemma ListedDirs(w: World, bound: nat, names: seq<string>, items: seq<Item>, run: Run)
    requires WellFormed(w) && Bounded(w, bound) && GoodNames(names) && w.server.list(DirPath(names)) == Some(items)
    requires w.maxDepth > 0 ==> |names| < w.maxDepth
    ensures GoodNames(Scan(w, names, items, run, []).1)
    ensures Scan(w, names, items, run, []).1 == [] || |names| < bound
  {
    ScanDirs(w, names, items, run, []);
    var dirs := Scan(w, names, items, run, []).1;
    assert GoodListing(items);
    forall d | d in dirs ensures GoodName(d) && |names| < bound {
      var item :| item in items && item.isDir && !DotName(item.name) && item.name == d;
      assert |names| >= bound ==> NoDirs(w.server.list(DirPath(names)));
    }
    assert dirs != [] ==> dirs[0] in dirs;
  }

  /** Explores the listed directories one after the other until the timeout. */
  function Descend(w: World, bound: nat, names: seq<string>, dirs: seq<string>, run: Run): Run
    requires WellFormed(w) && Bounded(w, bound) && GoodNames(names) && GoodNames(dirs)
    requires dirs == [] || |names| < bound
    decreases bound - |names|, 0, |dirs|
  {
    if dirs == [] then run
    else if Fired(w, run.loads) then run.(loads := run.loads + 1)
    else
      var sub := Explore(w, bound, names + [dirs[0]], run.loads + 1, run.eval);
      Descend(w, bound, names, dirs[1..], Run(run.events + sub.events, sub.loads, sub.eval, run.asked + sub.asked))
  }

  /** A walk that has mounted the share and asked for a listing. */
  function Entering(names: seq<string>, loads: nat, eval: Context): Run {
    Run([], loads + 1, eval.(depth := |names|), [Asked(Mounting(names), loads + 1), Asked(Listing(names), loads + 1)])
  }

  /** The walk below the directory `names`. */
  function Explore(w: World, bound: nat, names: seq<string>, loads: nat, eval: Context): Run
    requires WellFormed(w) && Bounded(w, bound) && GoodNames(names) && |names| <= bound
    decreases bound - |names|, 1, 0
  {
    var run := Run([], loads + 1, eval, []);
    var path := DirPath(names);
    if Fired(w, loads) || (w.maxDepth > 0 && |names| >= w.maxDepth) || w.share == "" then run
    else if !w.server.mount(path) then run.(asked := [Asked(Mounting(names), loads + 1)])
    else
      var run := Entering(names, loads, eval);
      match w.server.list(path)
      case None => run
      case Some(items) =>
        var (run', dirs) := Scan(w, names, items, run, []);
        ListedDirs(w, bound, names, items, run);
        Descend(w, bound, names, dirs, run')
  }

  // ----- what the walk emits -----

  function NodeOf(w: World, names: seq<string>, isDir: bool): Node
    requires names != []
  {
    Node(ContentId(w.separator, w.host, w.share, names, isDir), if isDir then Directory else File, names[|names| - 1])
  }

  /** The rights in the file's or directory's own DACL; the empty path is the share root. */
  function OwnRights(w: World, names: seq<string>): Rights {
    RightsOf(NtfsLayer, DaclAces(w.server.descriptor(FullPath(w.separator, names))))
  }

  /** The first non-empty rights going up from the directory `names`; at the top, those of the share root. */
  function NearestRights(w: World, names: seq<string>): Rights {
    if names == [] then OwnRights(w, [])
    else if OwnRights(w, names) != map[] then OwnRights(w, names)
    else NearestRights(w, names[..|names| - 1])
  }

  /** The rights found are those of the deepest directory that has any, and of the share root if none has. */
  lemma {:induction false} NearestIs(w: World, names: seq<string>) returns (k: nat)
    ensures k <= |names| && NearestRights(w, names) == OwnRights(w, names[..k])
    ensures k > 0 ==> OwnRights(w, names[..k]) != map[]
    ensures forall i :: k < i <= |names| ==> OwnRights(w, names[..i]) == map[]
  {
    hide OwnRights;
    assert names[..|names|] == names;
    if names == [] || OwnRights(w, names) != map[] {
      k := |names|;
    } else {
      var init := names[..|names| - 1];
      k := NearestIs(w, init);
      assert forall i :: 0 <= i <= |init| ==> init[..i] == names[..i];
    }
  }

  /** A file without rights of its own takes those of the nearest ancestor with rights; a directory never does. */
  function RightsInForce(w: World, names: seq<string>, isDir: bool): Rights
    requires names != []
  {
    if !isDir && OwnRights(w, names) == map[] then NearestRights(w, names[..|names| - 1]) else OwnRights(w, names)
  }

  function EntryOf(w: World, names: seq<string>, isDir: bool): Entry
    requires names != []
  {
    Entry(NodeOf(w, names, isDir), RightsInForce(w, names, isDir))
  }

  function EntriesOf(w: World, names: seq<string>): (entries: seq<Entry>)
    ensures |entries| == |names|
  {
    seq(|names|, i requires 0 <= i < |names| => EntryOf(w, names[..i + 1], true))
  }

  function SendEvent(w: World, site: Site, sent: Sent, e: Event): Sent {
    if !e.processed || e.names == [] then sent
    else AddPath(site, sent, EntriesOf(w, e.names[..|e.names| - 1]), Some(EntryOf(w, e.names, e.isDir)))
  }

  function SendAll(w: World, site: Site, sent: Sent, events: seq<Event>): Sent {
    if events == [] then sent
    else SendEvent(w, site, SendAll(w, site, sent, events[..|events| - 1]), events[|events| - 1])
  }

  lemma {:induction false} SendAllConcat(w: World, site: Site, sent: Sent, a: seq<Event>, b: seq<Event>)
    ensures SendAll(w, site, sent, a + b) == SendAll(w, site, SendAll(w, site, sent, a), b)
  {
    hide SendEvent;
    if b == [] {
      assert a + b == a;
    } else {
      assert (a + b)[..|a + b| - 1] == a + b[..|b| - 1];
      SendAllConcat(w, site, sent, a, b[..|b| - 1]);
    }
  }

  // ----- a whole share -----

  function ShareObjectOf(w: World): ShareObject {
    ShareObject(w.share, "", |w.share| > 0 && w.share[|w.share| - 1] == '$')
  }

  /** What the evaluator remembers when the share has been shown to it. */
  function FreshContext(w: World): Context {
    Context(Some(ShareObjectOf(w)), None, None, 0)
  }

  /** Whether the share itself is emitted, and the walk over its contents. */
  datatype ShareWalk = ShareWalk(root: bool, run: Run)

  /**
   * What is asked for the context of the share: its descriptor, failing that the root's, and the root's NTFS rights.
   */
  function ContextCalls(w: World, loads: nat): seq<Asked> {
    [Asked(ReadingShare, loads)] + (if w.shareDescriptor == [] then [Asked(ReadingRoot, loads)] else []) +
    [Asked(Reading([]), loads)]
  }

  function WalkShare(w: World, bound: nat, loads: nat): ShareWalk
    requires WellFormed(w) && Bounded(w, bound)
  {
    var context := FreshContext(w);
    var connecting, mounting := [Asked(Connecting, loads + 2)], [Asked(MountingShare, loads + 3)];
    if Fired(w, loads) || !MayExplore(w, context) then ShareWalk(false, Run([], loads + 1, context, []))
    else if Fired(w, loads + 1) then ShareWalk(false, Run([], loads + 2, context, []))
    else if !w.connect then ShareWalk(false, Run([], loads + 2, context, connecting))
    else if Fired(w, loads + 2) then ShareWalk(false, Run([], loads + 3, context, connecting))
    else if !w.mountShare then ShareWalk(false, Run([], loads + 3, context, connecting + mounting))
    else
      var run := Explore(w, bound, [], loads + 3, context);
      ShareWalk(MayProcess(w, context), run.(asked := connecting + mounting + ContextCalls(w, loads + 3) + run.asked))
  }

  function SiteOf(w: World, effectiveAccessOnly: bool): Site {
    Site(Node(HostId(Lower(w.host)), NetworkShareHost, w.host),
         Node(ShareId(w.host, w.share), NetworkShareSMB, w.share),
         RightsOf(ShareLayer, DaclAces(if w.shareDescriptor == [] then w.rootDescriptor else w.shareDescriptor)),
         Upper(w.domain), effectiveAccessOnly)
  }

  const NOTHING := Sent({}, {}, false, {})

  /** Everything the processing of the share puts into the graph. */
  function SentBy(w: World, effectiveAccessOnly: bool, walk: ShareWalk): Sent {
    var site := SiteOf(w, effectiveAccessOnly);
    SendAll(w, site, if walk.root then AddPath(site, NOTHING, [], None) else NOTHING, walk.run.events)
  }
}
