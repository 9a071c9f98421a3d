/** What the walk examines, said without the walk: which items, how they are decided, how they are counted. */
module Coverage {
  import opened Common
  import opened Comparisons
  import opened Paths
  import opened Rules
  import opened Traversal
  import Texts

  // ----- the declarative side -----

  predicate Listed(w: World, dir: seq<string>, item: Item) {
    var listing := w.server.list(DirPath(dir));
    listing.Some? && item in listing.value && !DotName(item.name)
  }

  /** Of a directory, everything in the listing but the two dot entries. */
  lemma ListedItems(w: World, dir: seq<string>, item: Item)
    ensures Listed(w, dir, item) <==>
      var listing := w.server.list(DirPath(dir));
      listing.Some? && item in listing.value && item.name != "." && item.name != ".."
  {
  }

  /** The directory can be listed and lies above the depth limit. */
  predicate Listable(w: World, dir: seq<string>) {
    && (w.maxDepth > 0 ==> |dir| < w.maxDepth)
    && w.share != "" && w.server.mount(DirPath(dir)) && w.server.list(DirPath(dir)).Some?
  }

  function Init(names: seq<string>): seq<string>
    requires names != []
  {
    names[..|names| - 1]
  }

  function Last(names: seq<string>): string
    requires names != []
  {
    names[|names| - 1]
  }

  /** The context in which an item would be decided if the evaluator remembered nothing but the share. */
  function CleanContext(w: World, names: seq<string>): Context
    requires names != []
  {
    FreshContext(w).(depth := |names| - 1)
  }

  /** The event of an item by its own properties and its depth alone. */
  function EventOf(w: World, names: seq<string>, item: Item): (e: Event)
    requires names != []
    ensures e.names == names && e.isDir == item.isDir
  {
    var clean := CleanContext(w, names);
    if item.isDir then
      var c := clean.(dir := Some(DirObjectOf(w, names)));
      Event(names, true, MayExplore(w, c), MayExplore(w, c) && MayProcess(w, c))
    else
      var c := clean.(file := Some(FileObjectOf(w, names, item.size)));
      Event(names, false, MayProcess(w, c), MayProcess(w, c))
  }

  /** `item` is a directory the rules let in. */
  predicate Explorable(w: World, names: seq<string>, item: Item)
    requires names != []
  {
    item.isDir && EventOf(w, names, item).admitted
  }

  /** The walk from directory `from` reaches directory `dir` and lists it. */
  ghost predicate Entered(w: World, from: seq<string>, dir: seq<string>)
    decreases |dir|
  {
    && Listable(w, dir)
    && |from| <= |dir|
    && (|dir| == |from| ==> dir == from)
    && (|dir| > |from| ==> Entered(w, from, Init(dir)) && IsExplorable(w, dir))
  }

  predicate IsExplorable(w: World, dir: seq<string>)
    requires dir != []
  {
    var listing := w.server.list(DirPath(Init(dir)));
    listing.Some? &&
      exists item :: item in listing.value && !DotName(item.name) && item.name == Last(dir) && Explorable(w, dir, item)
  }

  /** The walk from directory `from` is to examine this. */
  ghost predicate Specified(w: World, from: seq<string>, e: Event) {
    && |e.names| > |from| && Entered(w, from, Init(e.names))
    && exists item :: Listed(w, Init(e.names), item) && item.name == Last(e.names) && e == EventOf(w, e.names, item)
  }

  /** An object of this world the evaluator may still remember. */
  ghost predicate MayRemember(w: World, context: Context) {
    && context.share == Some(ShareObjectOf(w))
    && (context.file.Some? ==> exists names, item :: IsFileObject(w, context.file.value, names, item))
    && (context.dir.Some? ==> exists names, item :: IsDirObject(w, context.dir.value, names, item))
  }

  predicate IsFileObject(w: World, file: FileObject, names: seq<string>, item: Item) {
    names != [] && Listed(w, Init(names), item) && !item.isDir && item.name == Last(names)
      && file == FileObjectOf(w, names, item.size)
  }

  predicate IsDirObject(w: World, dir: DirObject, names: seq<string>, item: Item) {
    names != [] && Listed(w, Init(names), item) && item.isDir && item.name == Last(names)
      && dir == DirObjectOf(w, names)
  }

  /** Whatever object of this world the evaluator still remembers, it decides each item by the item itself. */
  ghost predicate Scoped(w: World) {
    forall names, item, context ::
      Remembering(w, names, item, context) ==> Examine(w, Init(names), item, context).0 == EventOf(w, names, item)
  }

  ghost predicate Remembering(w: World, names: seq<string>, item: Item, context: Context) {
    && names != [] && Listed(w, Init(names), item) && item.name == Last(names)
    && MayRemember(w, context) && context.depth == |names| - 1
  }

  /** Rules whose text mentions no file in exploration and neither file nor directory in processing are scoped. */
  lemma TextuallyScoped(w: World)
    requires ScopeReads(w.rules, Exploration) <= {ShareSource, DirSource, DepthSource}
    requires ScopeReads(w.rules, Processing) <= {ShareSource, DepthSource}
    ensures Scoped(w)
  {
    hide EventOf, Examine;
    forall names, item, context | Remembering(w, names, item, context)
      ensures Examine(w, Init(names), item, context).0 == EventOf(w, names, item)
    {
      assert Init(names) + [item.name] == names;
      ExaminedByText(w, names, item, context);
    }
  }

  lemma ExaminedByText(w: World, names: seq<string>, item: Item, context: Context)
    requires ScopeReads(w.rules, Exploration) <= {ShareSource, DirSource, DepthSource}
    requires ScopeReads(w.rules, Processing) <= {ShareSource, DepthSource}
    requires names != [] && item.name == Last(names) && Init(names) + [item.name] == names
    requires context.share == Some(ShareObjectOf(w)) && context.depth == |names| - 1
    ensures Examine(w, Init(names), item, context).0 == EventOf(w, names, item)
  {
    hide Evaluate, ScopeReads, DirObjectOf, FileObjectOf;
    var clean := CleanContext(w, names);
    if item.isDir {
      var shown := Some(DirObjectOf(w, names));
      EvaluateFrame(w.rules, Exploration, context.(dir := shown), clean.(dir := shown), w.compare);
      EvaluateFrame(w.rules, Processing, context.(dir := shown), clean.(dir := shown), w.compare);
    } else {
      var shown := Some(FileObjectOf(w, names, item.size));
      EvaluateFrame(w.rules, Processing, context.(file := shown), clean.(file := shown), w.compare);
    }
  }

  // ----- one listing -----

  function ItemEvents(w: World, dir: seq<string>, item: Item): seq<Event> {
    if DotName(item.name) then [] else [EventOf(w, dir + [item.name], item)]
  }

  function ItemDirs(w: World, dir: seq<string>, item: Item): seq<string> {
    if !DotName(item.name) && Explorable(w, dir + [item.name], item) then [item.name] else []
  }

  /** The events of a listing, in listing order. */
  function ListingEvents(w: World, dir: seq<string>, items: seq<Item>): seq<Event> {
    if items == [] then [] else ItemEvents(w, dir, items[0]) + ListingEvents(w, dir, items[1..])
  }

  /** The explorable directories of a listing, in listing order. */
  function ListingDirs(w: World, dir: seq<string>, items: seq<Item>): seq<string> {
    if items == [] then [] else ItemDirs(w, dir, items[0]) + ListingDirs(w, dir, items[1..])
  }

  ghost predicate ItemsListed(w: World, dir: seq<string>, items: seq<Item>) {
    forall i :: 0 <= i < |items| && !DotName(items[i].name) ==> Listed(w, dir, items[i])
  }

  lemma ExamineRemembers(w: World, dir: seq<string>, item: Item, context: Context)
    requires Listed(w, dir, item) && MayRemember(w, context)
    ensures var after := Examine(w, dir, item, context).1; MayRemember(w, after) && after.depth == context.depth
  {
    hide Evaluate, Listed;
    var names := dir + [item.name];
    assert Init(names) == dir;
    if item.isDir {
      assert IsDirObject(w, DirObjectOf(w, names), names, item);
    } else {
      assert IsFileObject(w, FileObjectOf(w, names, item.size), names, item);
    }
  }

  /** Without a timeout and with scoped rules the scan of a listing examines every item by itself. */
  lemma {:induction false} ScanExact(w: World, dir: seq<string>, items: seq<Item>, run: Run, dirs: seq<string>)
    requires Scoped(w) && w.fireAt.None? && ItemsListed(w, dir, items)
    requires MayRemember(w, run.eval) && run.eval.depth == |dir|
    ensures var (after, found) := Scan(w, dir, items, run, dirs);
      && after.events == run.events + ListingEvents(w, dir, items) && found == dirs + ListingDirs(w, dir, items)
      && MayRemember(w, after.eval)
    decreases |items|
  {
    hide Step, ItemEvents, ItemDirs, MayRemember, Scoped, Listed;
    if items == [] {
      assert run.events + [] == run.events && dirs + [] == dirs;
    } else {
      var item, rest, ready := items[0], items[1..], run.(loads := run.loads + 1);
      StepExact(w, dir, item, ready, dirs);
      var (run', dirs') := Step(w, dir, item, ready, dirs);
      assert ItemsListed(w, dir, rest);
      ScanExact(w, dir, rest, run', dirs');
      assert run'.events + ListingEvents(w, dir, rest) == run.events + ListingEvents(w, dir, items);
      assert dirs' + ListingDirs(w, dir, rest) == dirs + ListingDirs(w, dir, items);
    }
  }

  lemma StepExact(w: World, dir: seq<string>, item: Item, run: Run, dirs: seq<string>)
    requires Scoped(w) && (!DotName(item.name) ==> Listed(w, dir, item))
    requires MayRemember(w, run.eval) && run.eval.depth == |dir|
    ensures var (after, found) := Step(w, dir, item, run, dirs);
      && after.events == run.events + ItemEvents(w, dir, item) && found == dirs + ItemDirs(w, dir, item)
      && MayRemember(w, after.eval) && after.eval.depth == |dir| && after.loads == run.loads
  {
    hide Examine, EventOf, MayRemember, Scoped, Listed;
    if !DotName(item.name) {
      ScopedAt(w, dir, item, run.eval);
      ExamineRemembers(w, dir, item, run.eval);
    }
  }

  lemma ScopedAt(w: World, dir: seq<string>, item: Item, context: Context)
    requires Scoped(w) && Listed(w, dir, item) && MayRemember(w, context) && context.depth == |dir|
    ensures Examine(w, dir, item, context).0 == EventOf(w, dir + [item.name], item)
  {
    hide Examine, EventOf, MayRemember, Listed;
    var names := dir + [item.name];
    assert Init(names) == dir;
    assert Remembering(w, names, item, context);
  }

  lemma {:induction false} ListingEventsExact(w: World, dir: seq<string>, items: seq<Item>, e: Event)
    ensures e in ListingEvents(w, dir, items) <==>
      exists item :: item in items && !DotName(item.name) && e == EventOf(w, dir + [item.name], item)
  {
    hide EventOf;
    if items != [] {
      ListingEventsExact(w, dir, items[1..], e);
      assert items == [items[0]] + items[1..];
    }
  }

  lemma {:induction false} ListingDirsExact(w: World, dir: seq<string>, items: seq<Item>, name: string)
    ensures name in ListingDirs(w, dir, items) <==>
      exists item :: item in items && !DotName(item.name) && item.name == name && Explorable(w, dir + [name], item)
  {
    hide Explorable;
    if items != [] {
      ListingDirsExact(w, dir, items[1..], name);
      assert items == [items[0]] + items[1..];
    }
  }

  // ----- the whole walk -----

  /** Reaching a directory from `from`: through a directory of `from`, and on from there. */
  lemma {:induction false} EnteredFront(w: World, from: seq<string>, dir: seq<string>)
    requires |dir| > |from|
    ensures Entered(w, from, dir) <==>
      && Listable(w, from) && dir[..|from|] == from && IsExplorable(w, dir[..|from| + 1])
      && Entered(w, dir[..|from| + 1], dir)
    decreases |dir|
  {
    hide IsExplorable, Listable;
    var next := dir[..|from| + 1];
    if |dir| == |next| {
      assert Init(dir) == dir[..|from|] && next == dir;
    } else {
      EnteredFront(w, from, Init(dir));
      assert Init(dir)[..|from| + 1] == next && Init(dir)[..|from|] == dir[..|from|];
    }
  }

  /** What is to be examined from `from`: the items of its listing, and what is to be examined from its directories. */
  lemma SpecifiedSplit(w: World, from: seq<string>, e: Event)
    ensures Specified(w, from, e) <==>
      && |e.names| > |from| && e.names[..|from|] == from && Listable(w, from)
      && (|e.names| == |from| + 1 ==>
            exists item :: Listed(w, from, item) && item.name == Last(e.names) && e == EventOf(w, e.names, item))
      && (|e.names| > |from| + 1 ==>
            IsExplorable(w, e.names[..|from| + 1]) && Specified(w, e.names[..|from| + 1], e))
  {
    hide IsExplorable, Listable, EventOf, Listed;
    if |e.names| == |from| + 1 {
      assert Init(e.names) == e.names[..|from|];
    } else if |e.names| > |from| {
      EnteredFront(w, from, Init(e.names));
      assert Init(e.names)[..|from| + 1] == e.names[..|from| + 1] && Init(e.names)[..|from|] == e.names[..|from|];
    }
  }

  /** One directory of the listing after the other. */
  lemma {:induction false} DescendExact(w: World, bound: nat, names: seq<string>, dirs: seq<string>, run: Run)
    requires WellFormed(w) && Bounded(w, bound) && GoodNames(names) && GoodNames(dirs)
    requires dirs == [] || |names| < bound
    requires Scoped(w) && w.fireAt.None? && MayRemember(w, run.eval)
    ensures var after := Descend(w, bound, names, dirs, run);
      && MayRemember(w, after.eval)
      && forall e :: e in after.events <==>
        e in run.events || (|e.names| > |names| && e.names[|names|] in dirs &&
          Specified(w, names + [e.names[|names|]], e))
    decreases bound - |names|, 0, |dirs|
  {
    hide Scoped, MayRemember, Specified, GoodName, WellFormed, Bounded, Explore;
    if dirs != [] {
      var below := names + [dirs[0]];
      var sub := Explore(w, bound, below, run.loads + 1, run.eval);
      ExploreExact(w, bound, below, run.loads + 1, run.eval);
      DescendExact(w, bound, names, dirs[1..],
        Run(run.events + sub.events, sub.loads, sub.eval, run.asked + sub.asked));
      forall e ensures e in sub.events <==>
        |e.names| > |names| && e.names[|names|] == dirs[0] && Specified(w, below, e) {
        if Specified(w, below, e) {
          SpecifiedBelow(w, below, e);
        }
      }
      assert dirs == [dirs[0]] + dirs[1..];
    }
  }

  lemma SpecifiedBelow(w: World, from: seq<string>, e: Event)
    requires Specified(w, from, e) && from != []
    ensures |e.names| > |from| && e.names[|from| - 1] == Last(from)
  {
    SpecifiedSplit(w, from, e);
    assert e.names[..|from|][|from| - 1] == Last(from);
  }

  /** Without a timeout and with scoped rules the walk examines what it is to examine, and nothing else. */
  lemma {:induction false} ExploreExact(w: World, bound: nat, names: seq<string>, loads: nat, eval: Context)
    requires WellFormed(w) && Bounded(w, bound) && GoodNames(names) && |names| <= bound
    requires Scoped(w) && w.fireAt.None? && MayRemember(w, eval)
    ensures var run := Explore(w, bound, names, loads, eval);
      && MayRemember(w, run.eval)
      && forall e :: e in run.events <==> Specified(w, names, e)
    decreases bound - |names|, 1, 0
  {
    hide Scoped, MayRemember, Specified, GoodName, Bounded, Scan, Listable, ItemsListed;
    var run := Explore(w, bound, names, loads, eval);
    if !Listable(w, names) {
      UnlistableExact(w, bound, names, loads, eval);
    } else {
      var items, ready := ListingReady(w, bound, names, loads, eval);
      ScanExact(w, names, items, ready, []);
      ListedDirs(w, bound, names, items, ready);
      var (scanned, dirs) := Scan(w, names, items, ready, []);
      DescendExact(w, bound, names, dirs, scanned);
      assert [] + ListingEvents(w, names, items) == ListingEvents(w, names, items);
      assert [] + ListingDirs(w, names, items) == ListingDirs(w, names, items);
      forall e ensures e in run.events <==> Specified(w, names, e) {
        ListingExact(w, names, items, e);
      }
    }
  }

  lemma UnlistableExact(w: World, bound: nat, names: seq<string>, loads: nat, eval: Context)
    requires WellFormed(w) && Bounded(w, bound) && GoodNames(names) && |names| <= bound
    requires w.fireAt.None? && MayRemember(w, eval) && !Listable(w, names)
    ensures var run := Explore(w, bound, names, loads, eval);
      && MayRemember(w, run.eval) && run.events == [] && forall e :: !Specified(w, names, e)
  {
    hide Specified, WellFormed, Bounded;
    forall e ensures !Specified(w, names, e) {
      SpecifiedSplit(w, names, e);
    }
  }

  lemma ListingReady(w: World, bound: nat, names: seq<string>, loads: nat, eval: Context)
    returns (items: seq<Item>, ready: Run)
    requires WellFormed(w) && Bounded(w, bound) && GoodNames(names) && |names| <= bound
    requires w.fireAt.None? && MayRemember(w, eval) && Listable(w, names)
    ensures w.server.list(DirPath(names)) == Some(items) && ItemsListed(w, names, items) && GoodListing(items)
    ensures MayRemember(w, ready.eval) && ready.eval.depth == |names| && ready.events == []
    ensures w.maxDepth > 0 ==> |names| < w.maxDepth
    ensures var (scanned, dirs) := Scan(w, names, items, ready, []);
      && GoodNames(dirs) && (dirs == [] || |names| < bound)
      && Explore(w, bound, names, loads, eval) == Descend(w, bound, names, dirs, scanned)
  {
    hide Scan, Bounded, GoodListing, GoodName;
    items := w.server.list(DirPath(names)).value;
    ready := Entering(names, loads, eval);
    ListedDirs(w, bound, names, items, ready);
  }

  /** An event is to be examined from `names` exactly if the listing has it or one of its directories leads to it. */
  lemma ListingExact(w: World, names: seq<string>, items: seq<Item>, e: Event)
    requires Listable(w, names) && w.server.list(DirPath(names)) == Some(items)
    ensures Specified(w, names, e) <==>
      || e in ListingEvents(w, names, items)
      || (|e.names| > |names| && e.names[|names|] in ListingDirs(w, names, items)
          && Specified(w, names + [e.names[|names|]], e))
  {
    hide Specified, Listable, ListingEvents, ListingDirs;
    SpecifiedSplit(w, names, e);
    ListedEvent(w, names, items, e);
    if |e.names| > |names| {
      DeeperEvent(w, names, items, e);
    }
  }

  lemma ListedEvent(w: World, names: seq<string>, items: seq<Item>, e: Event)
    requires w.server.list(DirPath(names)) == Some(items)
    ensures e in ListingEvents(w, names, items) <==>
      && |e.names| == |names| + 1 && e.names[..|names|] == names
      && exists item :: Listed(w, names, item) && item.name == Last(e.names) && e == EventOf(w, e.names, item)
  {
    hide ListingEvents, EventOf, DotName, DirPath;
    ListingEventsExact(w, names, items, e);
    if e in ListingEvents(w, names, items) {
      var item :| item in items && !DotName(item.name) && e == EventOf(w, names + [item.name], item);
      assert e.names == names + [item.name];
      assert Listed(w, names, item);
    }
    if |e.names| == |names| + 1 && e.names[..|names|] == names {
      assert e.names == names + [Last(e.names)];
    }
  }

  lemma DeeperEvent(w: World, names: seq<string>, items: seq<Item>, e: Event)
    requires w.server.list(DirPath(names)) == Some(items) && |e.names| > |names|
    ensures e.names[|names|] in ListingDirs(w, names, items) && Specified(w, names + [e.names[|names|]], e) <==>
      && e.names[..|names|] == names && |e.names| > |names| + 1
      && IsExplorable(w, e.names[..|names| + 1]) && Specified(w, e.names[..|names| + 1], e)
  {
    hide Specified, Explorable, DotName, Listable, ListingDirs;
    var next := names + [e.names[|names|]];
    assert Init(next) == names && Last(next) == e.names[|names|];
    ListingDirsExact(w, names, items, e.names[|names|]);
    SpecifiedSplit(w, next, e);
    if e.names[..|names| + 1] == next {
      assert e.names[..|names|] == e.names[..|names| + 1][..|names|] == names;
    } else {
      assert e.names[..|names|] != names;
    }
  }

  // ----- every walk: any rules, any timeout, any failing listing -----

  predicate DistinctNames(events: seq<Event>) {
    forall i, j :: 0 <= i < j < |events| ==> events[i].names != events[j].names
  }

  /** An event strictly below a directory, above the depth limit, with good names. */
  predicate Below(w: World, from: seq<string>, e: Event) {
    && |from| < |e.names| && e.names[..|from|] == from && GoodNames(e.names)
    && (w.maxDepth > 0 ==> |e.names| <= w.maxDepth)
    && (!e.isDir ==> e.admitted == e.processed) && (e.processed ==> e.admitted)
  }

  /** The events of a scan: items of one directory, with names not in `open`. */
  predicate Flat(w: World, from: seq<string>, events: seq<Event>, open: set<string>) {
    && DistinctNames(events)
    && forall e :: e in events ==> Below(w, from, e) && |e.names| == |from| + 1 && Last(e.names) !in open
  }

  predicate FlatDirs(dirs: seq<string>, open: set<string>) {
    Distinct(dirs) && forall d :: d in dirs ==> d !in open
  }

  function ItemNames(items: seq<Item>): set<string> {
    set i | 0 <= i < |items| :: items[i].name
  }

  lemma {:induction false} ScanShape(w: World, from: seq<string>, items: seq<Item>, run: Run, dirs: seq<string>)
    requires GoodListing(items) && GoodNames(from) && (w.maxDepth > 0 ==> |from| < w.maxDepth)
    requires Flat(w, from, run.events, ItemNames(items)) && FlatDirs(dirs, ItemNames(items))
    ensures var (after, found) := Scan(w, from, items, run, dirs);
      Flat(w, from, after.events, {}) && FlatDirs(found, {})
    decreases |items|
  {
    hide Below, Examine, DotName;
    if items != [] && !Fired(w, run.loads) {
      var item, rest := items[0], items[1..];
      var ready := run.(loads := run.loads + 1);
      var (run', dirs') := Step(w, from, item, ready, dirs);
      assert ItemNames(items) == ItemNames(rest) + {item.name};
      assert item.name !in ItemNames(rest);
      ExamineBelow(w, from, item, run.eval);
      ScanShape(w, from, rest, run', dirs');
    }
  }

  lemma ExamineBelow(w: World, from: seq<string>, item: Item, context: Context)
    requires GoodNames(from) && GoodName(item.name) && (w.maxDepth > 0 ==> |from| < w.maxDepth)
    ensures var e := Examine(w, from, item, context).0; Below(w, from, e) && e.names == from + [item.name]
  {
    hide MayExplore, MayProcess;
    assert (from + [item.name])[..|from|] == from;
  }

  /** Events so far: direct items, or items below directories that are done. */
  predicate Apart(w: World, from: seq<string>, events: seq<Event>, dirs: seq<string>) {
    && DistinctNames(events)
    && forall e :: e in events ==> Below(w, from, e) && (|e.names| == |from| + 1 || e.names[|from|] !in dirs)
  }

  lemma {:induction false} DescendShape(w: World, bound: nat, names: seq<string>, dirs: seq<string>, run: Run)
    requires WellFormed(w) && Bounded(w, bound) && GoodNames(names) && GoodNames(dirs) && Distinct(dirs)
    requires dirs == [] || |names| < bound
    requires Apart(w, names, run.events, dirs)
    ensures var after := Descend(w, bound, names, dirs, run);
      DistinctNames(after.events) && forall e :: e in after.events ==> Below(w, names, e)
    decreases bound - |names|, 0, |dirs|
  {
    hide Below, WellFormed, Bounded, Explore, GoodName;
    if dirs != [] && !Fired(w, run.loads) {
      var below := names + [dirs[0]];
      var sub := Explore(w, bound, below, run.loads + 1, run.eval);
      ExploreShape(w, bound, below, run.loads + 1, run.eval);
      forall e | e in sub.events ensures Below(w, names, e) && |e.names| > |names| + 1 && e.names[|names|] == dirs[0] {
        BelowDeeper(w, names, dirs[0], e);
      }
      forall e | e in run.events ensures |e.names| > |names| { BelowLonger(w, names, e); }
      assert Apart(w, names, run.events + sub.events, dirs[1..]);
      DescendShape(w, bound, names, dirs[1..],
        Run(run.events + sub.events, sub.loads, sub.eval, run.asked + sub.asked));
    }
  }

  lemma BelowLonger(w: World, from: seq<string>, e: Event)
    requires Below(w, from, e)
    ensures |e.names| > |from|
  {
  }

  lemma BelowDeeper(w: World, from: seq<string>, dir: string, e: Event)
    requires Below(w, from + [dir], e)
    ensures Below(w, from, e) && |e.names| > |from| + 1 && e.names[|from|] == dir
  {
    assert e.names[..|from| + 1][..|from|] == e.names[..|from|];
    assert e.names[..|from| + 1][|from|] == dir;
  }

  /** Every walk examines an item at most once, and nothing at or below the depth limit. */
  lemma {:induction false} ExploreShape(w: World, bound: nat, names: seq<string>, loads: nat, eval: Context)
    requires WellFormed(w) && Bounded(w, bound) && GoodNames(names) && |names| <= bound
    ensures var run := Explore(w, bound, names, loads, eval);
      DistinctNames(run.events) && forall e :: e in run.events ==> Below(w, names, e)
    decreases bound - |names|, 1, 0
  {
    hide Below, Bounded, Scan, GoodListing, GoodName;
    var path := DirPath(names);
    if !Fired(w, loads) && (w.maxDepth > 0 ==> |names| < w.maxDepth) && w.share != "" && w.server.mount(path)
      && w.server.list(path).Some?
    {
      var items := w.server.list(path).value;
      var ready := Entering(names, loads, eval);
      ListedDirs(w, bound, names, items, ready);
      ScanShape(w, names, items, ready, []);
      var (scanned, dirs) := Scan(w, names, items, ready, []);
      DescendShape(w, bound, names, dirs, scanned);
    }
  }

  /** The event is strictly below this directory of `from`. */
  predicate Under(from: seq<string>, dir: string, e: Event) {
    |e.names| > |from| + 1 && e.names[|from|] == dir
  }

  /** What lies below one directory is examined in one go. */
  ghost predicate Blocks(from: seq<string>, events: seq<Event>) {
    forall i, j, k, dir :: 0 <= i < j < k < |events| && Under(from, dir, events[i]) && Under(from, dir, events[k]) ==>
      Under(from, dir, events[j])
  }

  lemma {:induction false} DescendBlocks(w: World, bound: nat, names: seq<string>, dirs: seq<string>, run: Run)
    requires WellFormed(w) && Bounded(w, bound) && GoodNames(names) && GoodNames(dirs) && Distinct(dirs)
    requires dirs == [] || |names| < bound
    requires Blocks(names, run.events) && forall e, d :: e in run.events && d in dirs ==> !Under(names, d, e)
    ensures Blocks(names, Descend(w, bound, names, dirs, run).events)
    decreases |dirs|
  {
    hide Below, WellFormed, Bounded, Explore, GoodName;
    if dirs != [] && !Fired(w, run.loads) {
      var below := names + [dirs[0]];
      var sub := Explore(w, bound, below, run.loads + 1, run.eval);
      ExploreShape(w, bound, below, run.loads + 1, run.eval);
      forall e | e in sub.events ensures Under(names, dirs[0], e) {
        BelowDeeper(w, names, dirs[0], e);
      }
      BlocksMore(names, dirs[0], run.events, sub.events);
      DescendBlocks(w, bound, names, dirs[1..],
        Run(run.events + sub.events, sub.loads, sub.eval, run.asked + sub.asked));
    }
  }

  lemma BlocksMore(from: seq<string>, dir: string, events: seq<Event>, more: seq<Event>)
    requires Blocks(from, events) && (forall e :: e in events ==> !Under(from, dir, e))
    requires forall e :: e in more ==> Under(from, dir, e)
    ensures Blocks(from, events + more)
  {
    var all := events + more;
    forall x | 0 <= x < |events| ensures !Under(from, dir, all[x]) {
      assert all[x] in events;
    }
    forall i, j, k, d | 0 <= i < j < k < |all| && Under(from, d, all[i]) && Under(from, d, all[k])
      ensures Under(from, d, all[j])
    {
      if k >= |events| {
        assert all[k] in more && d == dir;
        assert all[j] in more;
      }
    }
  }

  /**
   * Not breadth first: in every walk, once it has entered a directory it examines all below it before anything else.
   */
  lemma DepthFirst(w: World, bound: nat, names: seq<string>, loads: nat, eval: Context)
    requires WellFormed(w) && Bounded(w, bound) && GoodNames(names) && |names| <= bound
    ensures Blocks(names, Explore(w, bound, names, loads, eval).events)
  {
    hide Below, Bounded, Scan, GoodListing, GoodName, Descend;
    var path := DirPath(names);
    if !Fired(w, loads) && (w.maxDepth > 0 ==> |names| < w.maxDepth) && w.share != "" && w.server.mount(path)
      && w.server.list(path).Some?
    {
      var items := w.server.list(path).value;
      var ready := Entering(names, loads, eval);
      ListedDirs(w, bound, names, items, ready);
      ScanShape(w, names, items, ready, []);
      var (scanned, dirs) := Scan(w, names, items, ready, []);
      forall e, d | e in scanned.events ensures !Under(names, d, e) { }
      DescendBlocks(w, bound, names, dirs, scanned);
    }
  }

  // ----- the counters -----

  datatype Outcome = Admitted | Refused | Processed

  predicate Has(e: Event, outcome: Outcome) {
    match outcome
    case Admitted => e.admitted
    case Refused => !e.admitted
    case Processed => e.processed
  }

  function Those(events: set<Event>, isDir: bool, outcome: Outcome): set<Event> {
    set e | e in events && e.isDir == isDir && Has(e, outcome)
  }

  function Cardinalities(events: set<Event>): Counts {
    Counts(|Those(events, false, Admitted)|, |Those(events, false, Refused)|, |Those(events, false, Processed)|,
           |Those(events, true, Admitted)|, |Those(events, true, Refused)|, |Those(events, true, Processed)|)
  }

  lemma ThoseInsert(events: set<Event>, e: Event, isDir: bool, outcome: Outcome)
    requires e !in events
    ensures |Those(events + {e}, isDir, outcome)| ==
      |Those(events, isDir, outcome)| + Unit(e.isDir == isDir && Has(e, outcome))
  {
    hide Has;
    var before, after := Those(events, isDir, outcome), Those(events + {e}, isDir, outcome);
    if e.isDir == isDir && Has(e, outcome) {
      assert after == before + {e};
    } else {
      assert after == before;
    }
  }

  lemma CountOfHas(e: Event)
    ensures CountOf(e) == Counts(
      Unit(!e.isDir && Has(e, Admitted)), Unit(!e.isDir && Has(e, Refused)), Unit(!e.isDir && Has(e, Processed)),
      Unit(e.isDir && Has(e, Admitted)), Unit(e.isDir && Has(e, Refused)), Unit(e.isDir && Has(e, Processed)))
  {
  }

  /** The six counters are the sizes of six sets of examined items. */
  lemma {:induction false} TallyIsCardinality(events: seq<Event>)
    requires Distinct(events)
    ensures Tally(events) == Cardinalities(Elements(events))
  {
    hide Has;
    if events != [] {
      var init, e := events[..|events| - 1], events[|events| - 1];
      TallyIsCardinality(init);
      CountOfHas(e);
      assert Elements(events) == Elements(init) + {e};
      assert e !in Elements(init);
      hide CountOf;
      forall isDir, outcome ensures
        |Those(Elements(events), isDir, outcome)| ==
          |Those(Elements(init), isDir, outcome)| + Unit(e.isDir == isDir && Has(e, outcome))
      {
        ThoseInsert(Elements(init), e, isDir, outcome);
      }
    }
  }

  /** The counts a walk returns, for every walk; in particular every counted file has been emitted. */
  lemma CountsAreCardinalities(w: World, bound: nat, loads: nat, eval: Context)
    requires WellFormed(w) && Bounded(w, bound)
    ensures var events := Explore(w, bound, [], loads, eval).events;
      && Tally(events) == Cardinalities(Elements(events))
      && Tally(events).totalFiles == Tally(events).processedFiles
  {
    hide Explore, Tally;
    ExploreShape(w, bound, [], loads, eval);
    var events := Explore(w, bound, [], loads, eval).events;
    TallyIsCardinality(events);
    assert Those(Elements(events), false, Admitted) == Those(Elements(events), false, Processed);
  }

  // ----- the timeout -----

  lemma {:induction false} ScanExtends(w: World, names: seq<string>, items: seq<Item>, run: Run, dirs: seq<string>)
    ensures var after := Scan(w, names, items, run, dirs).0;
      run.events <= after.events && run.loads <= after.loads && run.asked <= after.asked
    decreases |items|
  {
    hide Examine;
    if items != [] && !Fired(w, run.loads) {
      var (run', dirs') := Step(w, names, items[0], run.(loads := run.loads + 1), dirs);
      ScanExtends(w, names, items[1..], run', dirs');
    }
  }

  lemma {:induction false} DescendExtends(w: World, bound: nat, names: seq<string>, dirs: seq<string>, run: Run)
    requires WellFormed(w) && Bounded(w, bound) && GoodNames(names) && GoodNames(dirs)
    requires dirs == [] || |names| < bound
    ensures var after := Descend(w, bound, names, dirs, run);
      run.events <= after.events && run.loads <= after.loads && run.asked <= after.asked
    decreases bound - |names|, 0, |dirs|
  {
    hide Explore, Bounded, WellFormed, GoodName;
    if dirs != [] && !Fired(w, run.loads) {
      var sub := Explore(w, bound, names + [dirs[0]], run.loads + 1, run.eval);
      ExploreExtends(w, bound, names + [dirs[0]], run.loads + 1, run.eval);
      DescendExtends(w, bound, names, dirs[1..],
        Run(run.events + sub.events, sub.loads, sub.eval, run.asked + sub.asked));
    }
  }

  lemma {:induction false} ExploreExtends(w: World, bound: nat, names: seq<string>, loads: nat, eval: Context)
    requires WellFormed(w) && Bounded(w, bound) && GoodNames(names) && |names| <= bound
    ensures Explore(w, bound, names, loads, eval).loads > loads
    decreases bound - |names|, 1, 0
  {
    hide Scan, Descend, Bounded, GoodListing, GoodName;
    var path := DirPath(names);
    if !Fired(w, loads) && (w.maxDepth > 0 ==> |names| < w.maxDepth) && w.share != "" && w.server.mount(path)
      && w.server.list(path).Some?
    {
      var items := w.server.list(path).value;
      var ready := Entering(names, loads, eval);
      ListedDirs(w, bound, names, items, ready);
      ScanExtends(w, names, items, ready, []);
      var (scanned, dirs) := Scan(w, names, items, ready, []);
      DescendExtends(w, bound, names, dirs, scanned);
    }
  }

  lemma DescendFired(w: World, bound: nat, names: seq<string>, dirs: seq<string>, run: Run)
    requires WellFormed(w) && Bounded(w, bound) && GoodNames(names) && GoodNames(dirs)
    requires dirs == [] || |names| < bound
    ensures Fired(w, run.loads) ==>
      var after := Descend(w, bound, names, dirs, run); after.events == run.events && Fired(w, after.loads)
  {
    hide Explore, Bounded, WellFormed;
  }

  // ----- why rules must be scoped -----

  /** What a scan without a timeout examines. */
  function ScanEvents(w: World, names: seq<string>, items: seq<Item>, eval: Context): seq<Event> {
    if items == [] then []
    else if DotName(items[0].name) then ScanEvents(w, names, items[1..], eval)
    else
      var (e, eval) := Examine(w, names, items[0], eval);
      [e] + ScanEvents(w, names, items[1..], eval)
  }

  lemma {:induction false} ScanIsEvents(w: World, names: seq<string>, items: seq<Item>, run: Run, dirs: seq<string>)
    requires w.fireAt.None?
    ensures Scan(w, names, items, run, dirs).0.events == run.events + ScanEvents(w, names, items, run.eval)
    decreases |items|
  {
    hide Examine, DotName;
    if items != [] {
      var (run', dirs') := Step(w, names, items[0], run.(loads := run.loads + 1), dirs);
      ScanIsEvents(w, names, items[1..], run', dirs');
    }
  }

  /** Every event is that of an item. */
  lemma {:induction false} ScanEventNames(w: World, names: seq<string>, items: seq<Item>, eval: Context)
    ensures forall e :: e in ScanEvents(w, names, items, eval) ==>
      exists item :: item in items && e.names == names + [item.name]
    decreases |items|
  {
    hide DotName, MayExplore, MayProcess;
    if items != [] {
      ScanEventNames(w, names, items[1..], if DotName(items[0].name) then eval
        else Examine(w, names, items[0], eval).1);
    }
  }

  /** Two items, the others after them, and events of other items before them. */
  predicate PairFirst(names: seq<string>, a: Item, b: Item, rest: seq<Item>, run: Run) {
    && !DotName(a.name) && !DotName(b.name) && GoodListing([a, b] + rest)
    && forall e :: e in run.events ==> e.names != names + [a.name] && e.names != names + [b.name]
  }

  /** The events of a scan whose first two items are a and b. */
  lemma PairEvents(w: World, names: seq<string>, a: Item, b: Item, rest: seq<Item>, run: Run, dirs: seq<string>)
    requires w.fireAt.None? && PairFirst(names, a, b, rest, run)
    ensures var (e, c) := Examine(w, names, a, run.eval); var (f, d) := Examine(w, names, b, c);
      && Scan(w, names, [a, b] + rest, run, dirs).0.events == run.events + ([e, f] + ScanEvents(w, names, rest, d))
      && e.names == names + [a.name] && f.names == names + [b.name] && a.name != b.name
  {
    hide DotName, MayExplore, MayProcess, GoodListing, DirObjectOf, FileObjectOf;
    var items := [a, b] + rest;
    ScanIsEvents(w, names, items, run, dirs);
    assert items[1..] == [b] + rest && items[1..][1..] == rest;
    PairApart(names, a, b, rest, run);
    var (e, c) := Examine(w, names, a, run.eval);
    var (f, d) := Examine(w, names, b, c);
    assert ScanEvents(w, names, items[1..], c) == [f] + ScanEvents(w, names, rest, d);
    assert [e] + ([f] + ScanEvents(w, names, rest, d)) == [e, f] + ScanEvents(w, names, rest, d);
  }

  lemma PairRest(w: World, names: seq<string>, a: Item, b: Item, rest: seq<Item>, run: Run, eval: Context)
    requires PairFirst(names, a, b, rest, run)
    ensures forall e :: e in ScanEvents(w, names, rest, eval) ==>
      e.names != names + [a.name] && e.names != names + [b.name]
  {
    hide DotName, ScanEvents, GoodName;
    var items := [a, b] + rest;
    ScanEventNames(w, names, rest, eval);
    forall x | x in ScanEvents(w, names, rest, eval)
      ensures x.names != names + [a.name] && x.names != names + [b.name]
    {
      var item :| item in rest && x.names == names + [item.name];
      var k :| 0 <= k < |rest| && rest[k] == item;
      assert items[k + 2] == item && items[0].name != items[k + 2].name && items[1].name != items[k + 2].name;
      assert x.names[|names|] == item.name;
    }
  }

  /** Events of two items and the rest: what they are made of can be told by the names. */
  lemma SameEvents(before: seq<Event>, e: Event, f: Event, rest: seq<Event>, g: Event, h: Event, others: seq<Event>)
    requires e.names == h.names && f.names == g.names && e.names != f.names
    requires forall x :: x in before || x in rest || x in others ==> x.names != e.names && x.names != f.names
    ensures Elements(before + ([e, f] + rest)) == Elements(before + ([g, h] + others)) <==>
      e == h && f == g && Elements(before + rest) == Elements(before + others)
  {
    var one, two := before + ([e, f] + rest), before + ([g, h] + others);
    assert Elements(one) == Elements(before + rest) + {e, f};
    assert Elements(two) == Elements(before + others) + {g, h};
    if Elements(one) == Elements(two) {
      assert e in Elements(two) && f in Elements(two) && h in Elements(one) && g in Elements(one);
      forall x ensures x in Elements(before + rest) <==> x in Elements(before + others) {
        assert x in Elements(one) <==> x in Elements(two);
      }
    }
  }

  /**
   * A file and a directory listed next to each other are examined alike in either order, whatever comes before and
   * after, exactly if showing the one object to the evaluator first does not change its decisions about the other.
   */
  lemma SwapIff(w: World, names: seq<string>, file: Item, dir: Item, rest: seq<Item>, run: Run, dirs: seq<string>)
    requires w.fireAt.None? && !file.isDir && dir.isDir
    requires PairFirst(names, file, dir, rest, run) && PairFirst(names, dir, file, rest, run)
    ensures var f := run.eval.(file := Some(FileObjectOf(w, names + [file.name], file.size)));
      var d := run.eval.(dir := Some(DirObjectOf(w, names + [dir.name])));
      var both := f.(dir := d.dir);
      var fileFirst := Scan(w, names, [file, dir] + rest, run, dirs).0.events;
      var dirFirst := Scan(w, names, [dir, file] + rest, run, dirs).0.events;
      Elements(fileFirst) == Elements(dirFirst) <==>
        && MayProcess(w, f) == MayProcess(w, both)
        && MayExplore(w, d) == MayExplore(w, both)
        && (MayExplore(w, d) ==> MayProcess(w, d) == MayProcess(w, both))
  {
    hide Evaluate, DirObjectOf, FileObjectOf, DotName, PairFirst;
    PairEvents(w, names, file, dir, rest, run, dirs);
    PairEvents(w, names, dir, file, rest, run, dirs);
    PairApart(names, file, dir, rest, run);
    var (e, c) := Examine(w, names, file, run.eval);
    var (g, k) := Examine(w, names, dir, run.eval);
    var (f, both) := Examine(w, names, dir, c);
    var (h, same) := Examine(w, names, file, k);
    assert both == same;
    PairRest(w, names, file, dir, rest, run, both);
    SameEvents(run.events, e, f, ScanEvents(w, names, rest, both), g, h, ScanEvents(w, names, rest, both));
  }

  lemma PairApart(names: seq<string>, a: Item, b: Item, rest: seq<Item>, run: Run)
    requires PairFirst(names, a, b, rest, run)
    ensures a.name != b.name && names + [a.name] != names + [b.name]
    ensures forall e :: e in run.events ==> e.names != names + [a.name] && e.names != names + [b.name]
  {
    assert ([a, b] + rest)[0].name != ([a, b] + rest)[1].name;
    assert (names + [a.name])[|names|] != (names + [b.name])[|names|];
  }

  /** The items before the first one of this sort. */
  function Until(items: seq<Item>, isDir: bool): seq<Item> {
    if items == [] || (!DotName(items[0].name) && items[0].isDir == isDir) then []
    else if DotName(items[0].name) then Until(items[1..], isDir)
    else [items[0]] + Until(items[1..], isDir)
  }

  /** The contexts differ at most in the object of this sort. */
  predicate AlikeBut(isDir: bool, a: Context, b: Context) {
    if isDir then a.(dir := b.dir) == b else a.(file := b.file) == b
  }

  ghost predicate DecidedAlike(w: World, names: seq<string>, items: seq<Item>, a: Context, b: Context) {
    forall item :: item in items ==> Examine(w, names, item, a).0 == Examine(w, names, item, b).0
  }

  /**
   * What is examined in one sort of context and in the other: the same, exactly if it is up to the next item of the
   * sort.
   */
  lemma {:induction false} RestIff(w: World, names: seq<string>, items: seq<Item>, isDir: bool, a: Context, b: Context)
    requires AlikeBut(isDir, a, b)
    ensures ScanEvents(w, names, items, a) == ScanEvents(w, names, items, b) <==>
      DecidedAlike(w, names, Until(items, isDir), a, b)
    decreases |items|
  {
    hide DotName, MayExplore, MayProcess, DirObjectOf, FileObjectOf;
    if items != [] {
      var item, rest := items[0], items[1..];
      if DotName(item.name) {
        RestIff(w, names, rest, isDir, a, b);
      } else {
        var (e, c) := Examine(w, names, item, a);
        var (f, d) := Examine(w, names, item, b);
        if item.isDir == isDir {
          assert e == f && c == d;
        } else {
          RestIff(w, names, rest, isDir, c, d);
          forall x | x in Until(rest, isDir)
            ensures Examine(w, names, x, c).0 == Examine(w, names, x, a).0 &&
              Examine(w, names, x, d).0 == Examine(w, names, x, b).0
          {
            UntilOther(rest, isDir, x);
          }
          assert DecidedAlike(w, names, Until(items, isDir), a, b) <==>
            e == f && DecidedAlike(w, names, Until(rest, isDir), a, b);
          assert DecidedAlike(w, names, Until(rest, isDir), a, b) <==> DecidedAlike(w, names, Until(rest, isDir), c, d);
          HeadAndRest(e, ScanEvents(w, names, rest, c), f, ScanEvents(w, names, rest, d));
        }
      }
    }
  }

  lemma HeadAndRest(e: Event, rest: seq<Event>, f: Event, others: seq<Event>)
    ensures [e] + rest == [f] + others <==> e == f && rest == others
  {
    if [e] + rest == [f] + others {
      assert ([e] + rest)[0] == ([f] + others)[0] && ([e] + rest)[1..] == rest && ([f] + others)[1..] == others;
    }
  }

  lemma {:induction false} UntilOther(items: seq<Item>, isDir: bool, x: Item)
    requires x in Until(items, isDir)
    ensures x in items && x.isDir != isDir
    decreases |items|
  {
    hide DotName;
    if x != items[0] || DotName(items[0].name) {
      UntilOther(items[1..], isDir, x);
    }
  }

  /** Two lists of events of the same items, in the same order, have the same elements only if they are the same. */
  lemma SameNamesSame(before: seq<Event>, a: seq<Event>, b: seq<Event>)
    requires |a| == |b| && forall i :: 0 <= i < |a| ==> a[i].names == b[i].names
    requires DistinctNames(a) && forall e, f :: e in before && f in a ==> e.names != f.names
    ensures Elements(before + a) == Elements(before + b) <==> a == b
  {
    if Elements(before + a) == Elements(before + b) {
      forall i | 0 <= i < |a| ensures a[i] == b[i] {
        assert b[i] in Elements(before + b) && a[i] in a;
        assert b[i] in before || b[i] in a;
        if j :| 0 <= j < |a| && a[j] == b[i] {
          assert a[j].names == a[i].names;
        }
      }
    }
  }

  lemma {:induction false} SamePositions(w: World, names: seq<string>, items: seq<Item>, a: Context, b: Context)
    ensures var one, two := ScanEvents(w, names, items, a), ScanEvents(w, names, items, b);
      |one| == |two| && forall i :: 0 <= i < |one| ==> one[i].names == two[i].names
    decreases |items|
  {
    hide DotName, MayExplore, MayProcess;
    if items != [] {
      if DotName(items[0].name) {
        SamePositions(w, names, items[1..], a, b);
      } else {
        SamePositions(w, names, items[1..], Examine(w, names, items[0], a).1, Examine(w, names, items[0], b).1);
      }
    }
  }

  lemma {:induction false} ScanEventsDistinct(w: World, names: seq<string>, items: seq<Item>, eval: Context)
    requires GoodListing(items)
    ensures DistinctNames(ScanEvents(w, names, items, eval))
    decreases |items|
  {
    hide DotName, MayExplore, MayProcess, GoodName;
    if items != [] {
      var rest := items[1..];
      if DotName(items[0].name) {
        ScanEventsDistinct(w, names, rest, eval);
      } else {
        var (e, c) := Examine(w, names, items[0], eval);
        ScanEventsDistinct(w, names, rest, c);
        ScanEventNames(w, names, rest, c);
        forall x | x in ScanEvents(w, names, rest, c) ensures x.names != e.names {
          var item :| item in rest && x.names == names + [item.name];
          assert e.names[|names|] == items[0].name && x.names[|names|] == item.name;
        }
      }
    }
  }

  /**
   * Two files, or two directories, listed next to each other are examined alike in either order exactly if the items of
   * the other sort that come after them, up to the next one of their own sort, are decided alike with either in memory.
   */
  lemma SwapSameSort(w: World, names: seq<string>, a: Item, b: Item, rest: seq<Item>, run: Run, dirs: seq<string>)
    requires w.fireAt.None? && a.isDir == b.isDir
    requires PairFirst(names, a, b, rest, run) && PairFirst(names, b, a, rest, run)
    requires forall e, item :: e in run.events && item in rest ==> e.names != names + [item.name]
    ensures var first := Scan(w, names, [a, b] + rest, run, dirs).0.events;
      var second := Scan(w, names, [b, a] + rest, run, dirs).0.events;
      Elements(first) == Elements(second) <==>
        DecidedAlike(w, names, Until(rest, a.isDir), Examine(w, names, b, run.eval).1, Examine(w, names, a, run.eval).1)
  {
    hide Evaluate, DirObjectOf, FileObjectOf, DotName, PairFirst;
    PairEvents(w, names, a, b, rest, run, dirs);
    PairEvents(w, names, b, a, rest, run, dirs);
    PairApart(names, a, b, rest, run);
    var (e, c) := Examine(w, names, a, run.eval);
    var (g, k) := Examine(w, names, b, run.eval);
    var (f, last) := Examine(w, names, b, c);
    var (h, other) := Examine(w, names, a, k);
    assert e == h && f == g && last == k && other == c;
    var one, two := ScanEvents(w, names, rest, k), ScanEvents(w, names, rest, c);
    PairRest(w, names, a, b, rest, run, k);
    PairRest(w, names, a, b, rest, run, c);
    SameEvents(run.events, e, f, one, g, h, two);
    RestIff(w, names, rest, a.isDir, k, c);
    SamePositions(w, names, rest, k, c);
    RestDistinct(w, names, a, b, rest, run, k);
    SameNamesSame(run.events, one, two);
  }

  lemma RestDistinct(w: World, names: seq<string>, a: Item, b: Item, rest: seq<Item>, run: Run, eval: Context)
    requires PairFirst(names, a, b, rest, run)
    requires forall e, item :: e in run.events && item in rest ==> e.names != names + [item.name]
    ensures var events := ScanEvents(w, names, rest, eval);
      DistinctNames(events) && forall e, f :: e in run.events && f in events ==> e.names != f.names
  {
    hide DotName, GoodName;
    var items := [a, b] + rest;
    assert rest == items[2..];
    assert GoodListing(rest);
    ScanEventsDistinct(w, names, rest, eval);
    ScanEventNames(w, names, rest, eval);
  }

  /** The comparisons of the rule language; patterns match nothing. */
  function Plain(): Compare {
    Standard((_, _) => false)
  }

  /** A rule that looks at files lets the listing order decide what becomes of a directory. */
  lemma OrderMatters(server: Server, run: Run)
    requires run.eval.file.None? && run.events == []
    ensures var denyExe := Rule(false, Processing, Field("FILE.EXTENSION", "=", Str(".exe")));
      var w := World(server, "host", "share", '/', "", true, true, [], [], [denyExe], Plain(), 0, None);
      var file, dir := Item("a.exe", false, 1), Item("d", true, 0);
      Elements(Scan(w, [], [file, dir], run, []).0.events) != Elements(Scan(w, [], [dir, file], run, []).0.events)
  {
    hide Examine, Scan, PairFirst, DotName, Holds, Texts.Ext, Texts.Lower, Texts.Upper;
    var denyExe := Rule(false, Processing, Field("FILE.EXTENSION", "=", Str(".exe")));
    var w := World(server, "host", "share", '/', "", true, true, [], [], [denyExe], Plain(), 0, None);
    var file, dir := Item("a.exe", false, 1), Item("d", true, 0);
    TwoItems(file, dir, run);
    TwoItems(dir, file, run);
    assert [file, dir] + [] == [file, dir] && [dir, file] + [] == [dir, file];
    SwapIff(w, [], file, dir, [], run, []);
    var f := run.eval.(file := Some(FileObjectOf(w, [file.name], file.size)));
    var d := run.eval.(dir := Some(DirObjectOf(w, [dir.name])));
    assert [] + [file.name] == [file.name] && [] + [dir.name] == [dir.name];
    OneRule(w, denyExe, f);
    OneRule(w, denyExe, d);
    OneRule(w, denyExe, f.(dir := d.dir));
    ExeHasExtension();
    DeniesExe(f);
    DeniesExe(d);
    DeniesExe(f.(dir := d.dir));
  }

  lemma DeniesExe(context: Context)
    ensures Holds(Field("FILE.EXTENSION", "=", Str(".exe")), context, Plain()) <==>
      context.file.Some? && Texts.Upper(context.file.value.extension) == ".EXE"
  {
    hide Rune, Amount;
    assert Texts.Upper("FILE.EXTENSION") == "FILE.EXTENSION" && Texts.Upper(".exe") == ".EXE";
  }

  lemma ExeHasExtension()
    ensures Texts.Upper(Texts.Lower(Texts.Ext("a.exe"))) == ".EXE"
  {
    Texts.ExtIs("a", "exe");
    assert "a" + ("." + "exe") == "a.exe" && "." + "exe" == ".exe" && Texts.Lower(".exe") == ".exe";
    assert Texts.Upper(".exe") == ".EXE";
  }

  lemma TwoItems(a: Item, b: Item, run: Run)
    requires run.events == [] && (a.name == "a.exe" || a.name == "d") && (b.name == "a.exe" || b.name == "d") &&
      a.name != b.name
    ensures PairFirst([], a, b, [], run)
  {
  }

  lemma OneRule(w: World, rule: Rule, context: Context)
    requires w.rules == [rule] && rule.Rule? && rule.scope == Processing && !rule.allow
    ensures MayExplore(w, context)
    ensures MayProcess(w, context) == !Holds(rule.condition, context, w.compare)
  {
    hide Holds;
    assert w.rules[1..] == [];
    assert FirstDecision([], Processing, context, w.compare, true);
    assert FirstDecision([], Exploration, context, w.compare, true);
    assert DefaultAllow([rule][1..]);
  }
}
