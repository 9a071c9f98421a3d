/** Host timeouts: what a walk loses, and what it may add, when the timer closes the sessions under it. */
module Timeouts {
  import opened Common
  import opened Paths
  import opened Rules
  import opened Traversal
  import opened Coverage
  import Contents

  // ----- an interrupted run and the undisturbed one -----

  /** The worlds differ in nothing but what the server answers and when the timer fires. */
  ghost predicate SameSettings(c: World, w: World) {
    c == w.(server := c.server, connect := c.connect, mountShare := c.mountShare,
            shareDescriptor := c.shareDescriptor, rootDescriptor := c.rootDescriptor, fireAt := c.fireAt)
  }

  ghost predicate SameAnswer(c: World, w: World, call: Call) {
    match call
    case Connecting => c.connect == w.connect
    case MountingShare => c.mountShare == w.mountShare
    case ReadingShare => c.shareDescriptor == w.shareDescriptor
    case ReadingRoot => c.rootDescriptor == w.rootDescriptor
    case Mounting(names) => c.server.mount(DirPath(names)) == w.server.mount(DirPath(names))
    case Listing(names) => c.server.list(DirPath(names)) == w.server.list(DirPath(names))
    case Reading(names) =>
      c.server.descriptor(FullPath(c.separator, names)) == w.server.descriptor(FullPath(w.separator, names))
  }

  /** What the caller sees of a call on a session that has been closed. */
  ghost predicate NoAnswer(c: World, call: Call) {
    match call
    case Connecting => !c.connect
    case MountingShare => !c.mountShare
    case ReadingShare => c.shareDescriptor == []
    case ReadingRoot => c.rootDescriptor == []
    case Mounting(names) => !c.server.mount(DirPath(names))
    case Listing(names) => c.server.list(DirPath(names)).None?
    case Reading(names) => c.server.descriptor(FullPath(c.separator, names)) == []
  }

  /**
   * c is what a run with a timer meets, and w what it would have met without: from call number `strike` on the sessions
   * are closed and nothing is answered any more. The timer sets the flag before it closes the sessions, so a call made
   * before the flag was set is answered.
   */
  ghost predicate Interrupted(c: World, w: World, asked: seq<Asked>, strike: nat) {
    && SameSettings(c, w) && w.fireAt.None?
    && (forall k :: 0 <= k < |asked| ==>
          if k < strike then SameAnswer(c, w, asked[k].call) else NoAnswer(c, asked[k].call))
    && (forall k :: 0 <= k < |asked| && !Fired(c, asked[k].loads) ==> k < strike)
  }

  /** A call is answered as it would have been, or has failed because of the timeout. */
  ghost predicate Calm(c: World, w: World, asked: seq<Asked>) {
    && SameSettings(c, w) && w.fireAt.None?
    && forall k :: 0 <= k < |asked| ==>
         SameAnswer(c, w, asked[k].call) || (NoAnswer(c, asked[k].call) && Fired(c, asked[k].loads))
  }

  lemma InterruptedCalm(c: World, w: World, asked: seq<Asked>, strike: nat)
    requires Interrupted(c, w, asked, strike)
    ensures Calm(c, w, asked)
  {
    hide SameAnswer, NoAnswer, SameSettings;
  }

  lemma CalmPart(c: World, w: World, asked: seq<Asked>, before: seq<Asked>, part: seq<Asked>)
    requires Calm(c, w, asked) && before + part <= asked
    ensures Calm(c, w, part)
  {
    hide SameAnswer, NoAnswer, SameSettings;
    forall k | 0 <= k < |part|
      ensures SameAnswer(c, w, part[k].call) || (NoAnswer(c, part[k].call) && Fired(c, part[k].loads))
    {
      assert part[k] == (before + part)[|before| + k] == asked[|before| + k];
    }
  }

  // ----- what is examined -----

  /** As long as the flag would not be seen set the two runs are the same; then the interrupted one is behind. */
  ghost predicate Agrees(c: World, cut: Run, full: Run) {
    if Fired(c, cut.loads) then cut.events <= full.events else cut == full
  }

  lemma SameExamine(c: World, w: World, names: seq<string>, item: Item, context: Context)
    requires SameSettings(c, w)
    ensures Examine(c, names, item, context) == Examine(w, names, item, context)
  {
    hide Evaluate;
  }

  lemma {:induction false} ScanCut(c: World, w: World, names: seq<string>, items: seq<Item>, run: Run,
                                   dirs: seq<string>)
    requires SameSettings(c, w) && w.fireAt.None?
    ensures var (cut, found) := Scan(c, names, items, run, dirs); var (full, all) := Scan(w, names, items, run, dirs);
      Agrees(c, cut, full) && (!Fired(c, cut.loads) ==> found == all)
    decreases |items|
  {
    hide Examine, SameSettings, DotName;
    if items != [] {
      SameExamine(c, w, names, items[0], run.eval);
      var (run', dirs') := Step(c, names, items[0], run.(loads := run.loads + 1), dirs);
      if Fired(c, run.loads) {
        ScanExtends(w, names, items, run, dirs);
      } else {
        ScanCut(c, w, names, items[1..], run', dirs');
      }
    }
  }

  lemma {:induction false} DescendCut(c: World, w: World, bound: nat, names: seq<string>, dirs: seq<string>, run: Run)
    requires WellFormed(c) && Bounded(c, bound) && WellFormed(w) && Bounded(w, bound)
    requires GoodNames(names) && GoodNames(dirs) && (dirs == [] || |names| < bound)
    requires Calm(c, w, Descend(c, bound, names, dirs, run).asked)
    ensures Agrees(c, Descend(c, bound, names, dirs, run), Descend(w, bound, names, dirs, run))
    decreases bound - |names|, 0, |dirs|
  {
    hide Explore, Bounded, WellFormed, GoodName, Calm;
    if dirs != [] {
      assert w.fireAt.None? by { CalmTimer(c, w, Descend(c, bound, names, dirs, run).asked); }
      if Fired(c, run.loads) {
        DescendExtends(w, bound, names, dirs, run);
      } else {
        var below := names + [dirs[0]];
        var cut := Explore(c, bound, below, run.loads + 1, run.eval);
        var full := Explore(w, bound, below, run.loads + 1, run.eval);
        var run' := Run(run.events + cut.events, cut.loads, cut.eval, run.asked + cut.asked);
        var full' := Run(run.events + full.events, full.loads, full.eval, run.asked + full.asked);
        DescendExtends(c, bound, names, dirs[1..], run');
        DescendExtends(w, bound, names, dirs[1..], full');
        CalmPart(c, w, Descend(c, bound, names, dirs, run).asked, run.asked, cut.asked);
        ExploreCut(c, w, bound, below, run.loads + 1, run.eval);
        if Fired(c, cut.loads) {
          DescendFired(c, bound, names, dirs[1..], run');
        } else {
          DescendCut(c, w, bound, names, dirs[1..], run');
        }
      }
    }
  }

  lemma CalmTimer(c: World, w: World, asked: seq<Asked>)
    requires Calm(c, w, asked)
    ensures w.fireAt.None? && SameSettings(c, w)
  {
  }

  /** What an interrupted walk has examined is a prefix of what the undisturbed walk examines. */
  lemma {:induction false} ExploreCut(c: World, w: World, bound: nat, names: seq<string>, loads: nat, eval: Context)
    requires WellFormed(c) && Bounded(c, bound) && WellFormed(w) && Bounded(w, bound) && GoodNames(names) &&
      |names| <= bound
    requires Calm(c, w, Explore(c, bound, names, loads, eval).asked)
    ensures Agrees(c, Explore(c, bound, names, loads, eval), Explore(w, bound, names, loads, eval))
    decreases bound - |names|, 2, 0
  {
    hide Scan, Descend, Explore, Bounded, WellFormed, GoodListing, GoodName, Calm;
    var path, cut, ready := DirPath(names), Explore(c, bound, names, loads, eval), Entering(names, loads, eval);
    CalmTimer(c, w, cut.asked);
    Contents.ExploreCases(c, bound, names, loads, eval);
    Contents.ExploreCases(w, bound, names, loads, eval);
    if !Fired(c, loads) && (w.maxDepth > 0 ==> |names| < w.maxDepth) && w.share != "" {
      if !c.server.mount(path) {
        CalmAt(c, w, cut.asked, 0);
      } else if c.server.list(path).None? {
        CalmAt(c, w, cut.asked, 0);
        CalmAt(c, w, cut.asked, 1);
      } else {
        ListingCut(c, w, bound, names, loads, eval);
      }
    }
  }

  lemma CalmAt(c: World, w: World, asked: seq<Asked>, k: nat)
    requires Calm(c, w, asked) && k < |asked|
    ensures SameAnswer(c, w, asked[k].call) || (NoAnswer(c, asked[k].call) && Fired(c, asked[k].loads))
  {
  }

  lemma {:induction false} ListingCut(c: World, w: World, bound: nat, names: seq<string>, loads: nat, eval: Context)
    requires WellFormed(c) && Bounded(c, bound) && WellFormed(w) && Bounded(w, bound) && GoodNames(names) &&
      |names| <= bound
    requires Calm(c, w, Explore(c, bound, names, loads, eval).asked)
    requires !Fired(c, loads) && (w.maxDepth > 0 ==> |names| < w.maxDepth) && w.share != ""
    requires c.server.mount(DirPath(names)) && c.server.list(DirPath(names)).Some?
    ensures Agrees(c, Explore(c, bound, names, loads, eval), Explore(w, bound, names, loads, eval))
    decreases bound - |names|, 1, 0
  {
    hide Scan, Descend, Explore, Bounded, WellFormed, GoodListing, GoodName, Calm;
    var path, ready := DirPath(names), Entering(names, loads, eval);
    var run := Explore(c, bound, names, loads, eval);
    CalmTimer(c, w, run.asked);
    Contents.ExploreCases(c, bound, names, loads, eval);
    var items := c.server.list(path).value;
    var (scanned, dirs) := Scan(c, names, items, ready, []);
    ScanExtends(c, names, items, ready, []);
    DescendExtends(c, bound, names, dirs, scanned);
    CalmAt(c, w, run.asked, 0);
    CalmAt(c, w, run.asked, 1);
    DescendFired(c, bound, names, dirs, scanned);
    if Fired(c, loads + 1) {
      ScanFired(c, names, items, ready, []);
    } else {
      assert w.server.mount(path) && w.server.list(path) == Some(items);
      Contents.ExploreCases(w, bound, names, loads, eval);
      ScanCut(c, w, names, items, ready, []);
      var (full, all) := Scan(w, names, items, ready, []);
      DescendExtends(w, bound, names, all, full);
      if !Fired(c, scanned.loads) {
        CalmPart(c, w, run.asked, [], Descend(c, bound, names, dirs, scanned).asked);
        DescendCut(c, w, bound, names, dirs, scanned);
      }
    }
  }

  lemma ScanFired(c: World, names: seq<string>, items: seq<Item>, run: Run, dirs: seq<string>)
    requires Fired(c, run.loads)
    ensures var after := Scan(c, names, items, run, dirs).0; after.events == run.events && Fired(c, after.loads)
  {
  }

  lemma WalkCut(c: World, w: World, bound: nat, loads: nat)
    requires WellFormed(c) && Bounded(c, bound) && WellFormed(w) && Bounded(w, bound)
    requires Calm(c, w, WalkShare(c, bound, loads).run.asked)
    ensures var cut, full := WalkShare(c, bound, loads), WalkShare(w, bound, loads);
      cut.run.events <= full.run.events && (cut.root ==> full.root)
  {
    hide Explore, WellFormed, Bounded, Evaluate, Calm, ContextCalls;
    var cut, context := WalkShare(c, bound, loads), FreshContext(c);
    CalmTimer(c, w, cut.run.asked);
    if !Fired(c, loads) && MayExplore(c, context) && !Fired(c, loads + 1) && c.connect && !Fired(c, loads + 2) &&
      c.mountShare {
      var run := Explore(c, bound, [], loads + 3, context);
      var before := [Asked(Connecting, loads + 2)] + [Asked(MountingShare, loads + 3)] + ContextCalls(c, loads + 3);
      assert cut.run.asked == before + run.asked;
      CalmAt(c, w, cut.run.asked, 0);
      CalmAt(c, w, cut.run.asked, 1);
      CalmPart(c, w, cut.run.asked, before, run.asked);
      ExploreCut(c, w, bound, [], loads + 3, context);
    }
  }

  // ----- what has been read -----

  /** The rights were read before the flag was set. */
  ghost predicate ReadEarly(c: World, asked: seq<Asked>, names: seq<string>) {
    exists k :: 0 <= k < |asked| && asked[k].call == Reading(names) && !Fired(c, asked[k].loads)
  }

  predicate LastRead(asked: seq<Asked>, names: seq<string>) {
    asked != [] && asked[|asked| - 1].call == Reading(names)
  }

  /** Of all items but the last one the rights were read early; those of the last one were, or were asked for last. */
  ghost predicate EventsRead(c: World, run: Run) {
    && (forall i :: 0 <= i < |run.events| && (i < |run.events| - 1 || !Fired(c, run.loads)) ==>
          ReadEarly(c, run.asked, run.events[i].names))
    && (run.events != [] ==>
          var e := run.events[|run.events| - 1]; ReadEarly(c, run.asked, e.names) || LastRead(run.asked, e.names))
  }

  /** Of all directories above the items, too. */
  ghost predicate Tracked(c: World, from: seq<string>, run: Run) {
    && EventsRead(c, run)
    && forall i, k :: 0 <= i < |run.events| && |from| < k < |run.events[i].names| ==>
         ReadEarly(c, run.asked, run.events[i].names[..k])
  }

  ghost predicate DirsRead(c: World, names: seq<string>, dirs: seq<string>, run: Run) {
    !Fired(c, run.loads) ==> forall d :: d in dirs ==> ReadEarly(c, run.asked, names + [d])
  }

  lemma EarlyMore(c: World, before: seq<Asked>, asked: seq<Asked>, after: seq<Asked>, names: seq<string>)
    requires ReadEarly(c, asked, names)
    ensures ReadEarly(c, before + asked + after, names)
  {
    hide Fired;
    var k :| 0 <= k < |asked| && asked[k].call == Reading(names) && !Fired(c, asked[k].loads);
    assert (before + asked + after)[|before| + k] == asked[k];
  }

  lemma {:induction false} ScanRead(c: World, names: seq<string>, items: seq<Item>, run: Run, dirs: seq<string>)
    requires EventsRead(c, run) && DirsRead(c, names, dirs, run)
    requires forall i :: 0 <= i < |run.events| ==> |run.events[i].names| == |names| + 1
    ensures var (after, found) := Scan(c, names, items, run, dirs);
      && EventsRead(c, after) && DirsRead(c, names, found, after)
      && forall i :: 0 <= i < |after.events| ==> |after.events[i].names| == |names| + 1
    decreases |items|
  {
    hide Examine, DotName, ReadEarly;
    if items != [] && !Fired(c, run.loads) {
      var (run', dirs') := Step(c, names, items[0], run.(loads := run.loads + 1), dirs);
      StepRead(c, names, items[0], run, dirs);
      ScanRead(c, names, items[1..], run', dirs');
    }
  }

  lemma StepRead(c: World, names: seq<string>, item: Item, run: Run, dirs: seq<string>)
    requires EventsRead(c, run) && DirsRead(c, names, dirs, run) && !Fired(c, run.loads)
    requires forall i :: 0 <= i < |run.events| ==> |run.events[i].names| == |names| + 1
    ensures var (after, found) := Step(c, names, item, run.(loads := run.loads + 1), dirs);
      && EventsRead(c, after) && DirsRead(c, names, found, after)
      && forall i :: 0 <= i < |after.events| ==> |after.events[i].names| == |names| + 1
  {
    hide MayExplore, MayProcess, DotName, ReadEarly;
    if !DotName(item.name) {
      var (after, found) := Step(c, names, item, run.(loads := run.loads + 1), dirs);
      var e := after.events[|after.events| - 1];
      assert e.names == names + [item.name];
      forall n | ReadEarly(c, run.asked, n) ensures ReadEarly(c, after.asked, n) {
        EarlyMore(c, [], run.asked, after.asked[|run.asked|..], n);
        assert [] + run.asked + after.asked[|run.asked|..] == after.asked;
      }
      if !Fired(c, after.loads) {
        NewRead(c, after.asked, e.names);
      }
    }
  }

  lemma NewRead(c: World, asked: seq<Asked>, names: seq<string>)
    requires LastRead(asked, names) && !Fired(c, asked[|asked| - 1].loads)
    ensures ReadEarly(c, asked, names)
  {
  }

  lemma {:induction false} DescendRead(c: World, bound: nat, names: seq<string>, dirs: seq<string>, run: Run)
    requires WellFormed(c) && Bounded(c, bound) && GoodNames(names) && GoodNames(dirs)
    requires dirs == [] || |names| < bound
    requires Tracked(c, names, run) && DirsRead(c, names, dirs, run)
    ensures Tracked(c, names, Descend(c, bound, names, dirs, run))
    decreases bound - |names|, 0, |dirs|
  {
    hide Explore, Bounded, WellFormed, GoodName, ReadEarly;
    if dirs != [] && !Fired(c, run.loads) {
      var below := names + [dirs[0]];
      var sub := Explore(c, bound, below, run.loads + 1, run.eval);
      var run' := Run(run.events + sub.events, sub.loads, sub.eval, run.asked + sub.asked);
      ExploreRead(c, bound, below, run.loads + 1, run.eval);
      ExploreShape(c, bound, below, run.loads + 1, run.eval);
      forall n ensures ReadEarly(c, run.asked, n) || ReadEarly(c, sub.asked, n) ==> ReadEarly(c, run'.asked, n) {
        BothRead(c, run.asked, sub.asked, n);
      }
      assert ReadEarly(c, run'.asked, below);
      SubTracked(c, names, dirs[0], run, sub);
      DescendRead(c, bound, names, dirs[1..], run');
    }
  }

  lemma BothRead(c: World, a: seq<Asked>, b: seq<Asked>, names: seq<string>)
    ensures ReadEarly(c, a, names) || ReadEarly(c, b, names) ==> ReadEarly(c, a + b, names)
  {
    hide ReadEarly;
    if ReadEarly(c, a, names) {
      EarlyMore(c, [], a, b, names);
      assert [] + a + b == a + b;
    }
    if ReadEarly(c, b, names) {
      EarlyMore(c, a, b, [], names);
      assert a + b + [] == a + b;
    }
  }

  /** What a subdirectory adds. */
  lemma SubTracked(c: World, names: seq<string>, dir: string, run: Run, sub: Run)
    requires Tracked(c, names, run) && !Fired(c, run.loads) && Tracked(c, names + [dir], sub)
    requires ReadEarly(c, run.asked + sub.asked, names + [dir])
    requires forall n :: ReadEarly(c, run.asked, n) || ReadEarly(c, sub.asked, n) ==>
      ReadEarly(c, run.asked + sub.asked, n)
    requires forall e :: e in sub.events ==> |e.names| > |names| + 1 && e.names[..|names| + 1] == names + [dir]
    ensures Tracked(c, names, Run(run.events + sub.events, sub.loads, sub.eval, run.asked + sub.asked))
  {
    hide ReadEarly, Fired;
    var all, asked := run.events + sub.events, run.asked + sub.asked;
    forall i, k | 0 <= i < |all| && |names| < k < |all[i].names| ensures ReadEarly(c, asked, all[i].names[..k]) {
      if i >= |run.events| {
        var e := sub.events[i - |run.events|];
        assert e in sub.events;
        if k > |names| + 1 {
          assert ReadEarly(c, sub.asked, e.names[..k]);
        }
      }
    }
    if sub.events != [] {
      assert all[|all| - 1] == sub.events[|sub.events| - 1];
      if LastRead(sub.asked, all[|all| - 1].names) {
        assert LastRead(asked, all[|all| - 1].names);
      }
    }
  }

  lemma {:induction false} ExploreRead(c: World, bound: nat, names: seq<string>, loads: nat, eval: Context)
    requires WellFormed(c) && Bounded(c, bound) && GoodNames(names) && |names| <= bound
    ensures Tracked(c, names, Explore(c, bound, names, loads, eval))
    decreases bound - |names|, 1, 0
  {
    hide Explore, Scan, Descend, Bounded, WellFormed, GoodListing, GoodName, ReadEarly;
    Contents.ExploreCases(c, bound, names, loads, eval);
    var path := DirPath(names);
    if !Fired(c, loads) && (c.maxDepth > 0 ==> |names| < c.maxDepth) && c.share != "" && c.server.mount(path)
      && c.server.list(path).Some?
    {
      var ready := Entering(names, loads, eval);
      var (scanned, dirs) := Scan(c, names, c.server.list(path).value, ready, []);
      ScanRead(c, names, c.server.list(path).value, ready, []);
      DescendRead(c, bound, names, dirs, scanned);
    }
  }

  // ----- no call is made twice -----

  predicate DistinctCalls(asked: seq<Asked>) {
    forall i, j :: 0 <= i < j < |asked| ==> asked[i].call != asked[j].call
  }

  function NamesOf(call: Call): seq<string> {
    match call
    case Mounting(names) => names
    case Listing(names) => names
    case Reading(names) => names
    case _ => []
  }

  /** A call of the walk from a directory: for that directory or one below, or for the rights of something below. */
  predicate CallBelow(from: seq<string>, call: Call) {
    var names := NamesOf(call);
    && (call.Mounting? || call.Listing? || (call.Reading? && |names| > |from|))
    && from <= names && GoodNames(names)
  }

  /** Calls so far: for the directory itself, for its items, or below directories that are done. */
  predicate CallApart(from: seq<string>, dirs: seq<string>, call: Call) {
    var names := NamesOf(call);
    && CallBelow(from, call)
    && (|names| == |from| || (call.Reading? && |names| == |from| + 1) || names[|from|] !in dirs)
  }

  predicate Once(from: seq<string>, dirs: seq<string>, asked: seq<Asked>) {
    DistinctCalls(asked) && forall a :: a in asked ==> CallApart(from, dirs, a.call)
  }

  /** Calls of a scan: none yet about the items that are still to come. */
  predicate ScanOnce(from: seq<string>, open: set<string>, asked: seq<Asked>) {
    && DistinctCalls(asked)
    && forall a :: a in asked ==>
         && CallBelow(from, a.call)
         && (|NamesOf(a.call)| == |from| ||
              (a.call.Reading? && |NamesOf(a.call)| == |from| + 1 && Last(NamesOf(a.call)) !in open))
  }

  lemma DistinctMore(asked: seq<Asked>, more: seq<Asked>)
    requires DistinctCalls(asked) && DistinctCalls(more)
    requires forall a, b :: a in asked && b in more ==> a.call != b.call
    ensures DistinctCalls(asked + more)
  {
    var all := asked + more;
    forall i, j | 0 <= i < j < |all| ensures all[i].call != all[j].call {
      if i < |asked| && j >= |asked| {
        assert all[i] in asked && all[j] in more;
      }
    }
  }

  lemma {:induction false} ScanAsksOnce(w: World, from: seq<string>, items: seq<Item>, run: Run, dirs: seq<string>)
    requires GoodListing(items) && GoodNames(from) && ScanOnce(from, ItemNames(items), run.asked)
    ensures ScanOnce(from, {}, Scan(w, from, items, run, dirs).0.asked)
    decreases |items|
  {
    hide DotName, CallBelow, DistinctCalls;
    if items != [] && !Fired(w, run.loads) {
      var item, rest := items[0], items[1..];
      assert ItemNames(items) == ItemNames(rest) + {item.name};
      assert item.name !in ItemNames(rest);
      ItemAskedOnce(w, from, item, ItemNames(rest), run, dirs);
      var (run', dirs') := Step(w, from, item, run.(loads := run.loads + 1), dirs);
      ScanAsksOnce(w, from, rest, run', dirs');
    }
  }

  lemma ItemAskedOnce(w: World, from: seq<string>, item: Item, open: set<string>, run: Run, dirs: seq<string>)
    requires GoodName(item.name) && GoodNames(from) && item.name !in open &&
      ScanOnce(from, open + {item.name}, run.asked)
    ensures ScanOnce(from, open, Step(w, from, item, run.(loads := run.loads + 1), dirs).0.asked)
  {
    hide DotName, ScanOnce, GoodName, GoodNames, MayExplore, MayProcess;
    FewerOpen(from, item.name, open, run.asked);
    var asked := Step(w, from, item, run.(loads := run.loads + 1), dirs).0.asked;
    var call := Asked(Reading(from + [item.name]), run.loads + 1);
    assert asked == run.asked || asked == run.asked + [call];
    OneMoreReading(from, item.name, open, run.asked, call);
  }

  lemma FewerOpen(from: seq<string>, name: string, open: set<string>, asked: seq<Asked>)
    requires ScanOnce(from, open + {name}, asked)
    ensures ScanOnce(from, open, asked)
  {
    hide CallBelow, DistinctCalls;
  }

  lemma OneMoreReading(from: seq<string>, name: string, open: set<string>, asked: seq<Asked>, call: Asked)
    requires GoodName(name) && GoodNames(from) && name !in open && ScanOnce(from, open + {name}, asked)
    requires call.call == Reading(from + [name])
    ensures ScanOnce(from, open, asked + [call])
  {
    hide DistinctCalls, CallBelow;
    ReadingBelow(from, name);
    var names := from + [name];
    assert Last(names) == name && names[..|from|] == from;
    OneCall(call);
    DistinctMore(asked, [call]);
  }

  lemma ReadingBelow(from: seq<string>, name: string)
    requires GoodNames(from) && GoodName(name)
    ensures CallBelow(from, Reading(from + [name]))
  {
    hide GoodName;
  }

  lemma OneCall(a: Asked)
    ensures DistinctCalls([a])
  {
  }

  lemma {:induction false} DescendAsksOnce(w: World, bound: nat, names: seq<string>, dirs: seq<string>, run: Run)
    requires WellFormed(w) && Bounded(w, bound) && GoodNames(names) && GoodNames(dirs) && Distinct(dirs)
    requires dirs == [] || |names| < bound
    requires Once(names, dirs, run.asked)
    ensures Once(names, [], Descend(w, bound, names, dirs, run).asked)
    decreases bound - |names|, 0, |dirs|
  {
    hide WellFormed, Bounded, Explore, GoodName, DistinctCalls;
    if dirs != [] && !Fired(w, run.loads) {
      var below := names + [dirs[0]];
      var sub := Explore(w, bound, below, run.loads + 1, run.eval);
      ExploreAsksOnce(w, bound, below, run.loads + 1, run.eval);
      forall a | a in sub.asked
        ensures CallBelow(names, a.call) && |NamesOf(a.call)| > |names| && NamesOf(a.call)[|names|] == dirs[0]
        ensures a.call.Reading? ==> |NamesOf(a.call)| > |names| + 1
      {
        CallDeeper(names, dirs[0], a.call);
      }
      DistinctMore(run.asked, sub.asked);
      assert Once(names, dirs[1..], run.asked + sub.asked);
      DescendAsksOnce(w, bound, names, dirs[1..],
        Run(run.events + sub.events, sub.loads, sub.eval, run.asked + sub.asked));
    }
  }

  lemma CallDeeper(from: seq<string>, dir: string, call: Call)
    requires CallBelow(from + [dir], call)
    ensures CallBelow(from, call) && |NamesOf(call)| > |from| && NamesOf(call)[|from|] == dir
    ensures call.Reading? ==> |NamesOf(call)| > |from| + 1
  {
    var names := NamesOf(call);
    assert names[..|from| + 1] == from + [dir];
    assert names[..|from|] == names[..|from| + 1][..|from|];
    assert names[|from|] == names[..|from| + 1][|from|];
  }

  lemma EnteringOnce(names: seq<string>, loads: nat, eval: Context, open: set<string>)
    requires GoodNames(names)
    ensures ScanOnce(names, open, Entering(names, loads, eval).asked)
    ensures CallBelow(names, Mounting(names))
  {
  }

  lemma ScannedOnce(from: seq<string>, dirs: seq<string>, asked: seq<Asked>)
    requires ScanOnce(from, {}, asked)
    ensures Once(from, dirs, asked)
  {
    hide DistinctCalls, CallBelow;
  }

  lemma {:induction false} ExploreAsksOnce(w: World, bound: nat, names: seq<string>, loads: nat, eval: Context)
    requires WellFormed(w) && Bounded(w, bound) && GoodNames(names) && |names| <= bound
    ensures var asked := Explore(w, bound, names, loads, eval).asked;
      DistinctCalls(asked) && forall a :: a in asked ==> CallBelow(names, a.call)
    decreases bound - |names|, 1, 0
  {
    hide Explore, Scan, Descend, Bounded, WellFormed, GoodListing, GoodName, ScanOnce, DirPath;
    Contents.ExploreCases(w, bound, names, loads, eval);
    var path := DirPath(names);
    forall open ensures ScanOnce(names, open, Entering(names, loads, eval).asked) {
      EnteringOnce(names, loads, eval, open);
    }
    EnteringOnce(names, loads, eval, {});
    ScannedOnce(names, [], Entering(names, loads, eval).asked);
    if !Fired(w, loads) && (w.maxDepth > 0 ==> |names| < w.maxDepth) && w.share != "" && w.server.mount(path)
      && w.server.list(path).Some?
    {
      var items, ready := w.server.list(path).value, Entering(names, loads, eval);
      var (scanned, dirs) := Scan(w, names, items, ready, []);
      ScanAsksOnce(w, names, items, ready, []);
      ScanShape(w, names, items, ready, []);
      ScannedOnce(names, dirs, scanned.asked);
      DescendAsksOnce(w, bound, names, dirs, scanned);
    }
  }

  // ----- the flag stops the walk -----

  /** Each call was made before the flag was read as set: the last time it had been read, it was not. */
  predicate Prompt(w: World, asked: seq<Asked>) {
    forall a :: a in asked ==> a.loads > 0 && !Fired(w, a.loads - 1)
  }

  lemma PromptMore(w: World, asked: seq<Asked>, more: seq<Asked>)
    requires Prompt(w, asked) && Prompt(w, more)
    ensures Prompt(w, asked + more)
  {
  }

  lemma {:induction false} ScanPrompt(w: World, from: seq<string>, items: seq<Item>, run: Run, dirs: seq<string>)
    requires Prompt(w, run.asked)
    ensures Prompt(w, Scan(w, from, items, run, dirs).0.asked)
    decreases |items|
  {
    hide DotName, MayExplore, MayProcess;
    if items != [] && !Fired(w, run.loads) {
      var call := Asked(Reading(from + [items[0].name]), run.loads + 1);
      PromptMore(w, run.asked, [call]);
      var (run', dirs') := Step(w, from, items[0], run.(loads := run.loads + 1), dirs);
      assert run'.asked == run.asked || run'.asked == run.asked + [call];
      ScanPrompt(w, from, items[1..], run', dirs');
    }
  }

  lemma {:induction false} DescendPrompt(w: World, bound: nat, names: seq<string>, dirs: seq<string>, run: Run)
    requires WellFormed(w) && Bounded(w, bound) && GoodNames(names) && GoodNames(dirs)
    requires (dirs == [] || |names| < bound) && Prompt(w, run.asked)
    ensures Prompt(w, Descend(w, bound, names, dirs, run).asked)
    decreases bound - |names|, 0, |dirs|
  {
    hide WellFormed, Bounded, Explore, GoodName, Prompt;
    if dirs != [] && !Fired(w, run.loads) {
      var below := names + [dirs[0]];
      var sub := Explore(w, bound, below, run.loads + 1, run.eval);
      ExplorePrompt(w, bound, below, run.loads + 1, run.eval);
      PromptMore(w, run.asked, sub.asked);
      DescendPrompt(w, bound, names, dirs[1..],
        Run(run.events + sub.events, sub.loads, sub.eval, run.asked + sub.asked));
    }
  }

  lemma {:induction false} ExplorePrompt(w: World, bound: nat, names: seq<string>, loads: nat, eval: Context)
    requires WellFormed(w) && Bounded(w, bound) && GoodNames(names) && |names| <= bound
    ensures Prompt(w, Explore(w, bound, names, loads, eval).asked)
    decreases bound - |names|, 1, 0
  {
    hide Explore, Scan, Descend, Bounded, WellFormed, GoodListing, GoodName, DirPath;
    Contents.ExploreCases(w, bound, names, loads, eval);
    var path := DirPath(names);
    if !Fired(w, loads) && (w.maxDepth > 0 ==> |names| < w.maxDepth) && w.share != "" && w.server.mount(path)
      && w.server.list(path).Some?
    {
      var items, ready := w.server.list(path).value, Entering(names, loads, eval);
      var (scanned, dirs) := Scan(w, names, items, ready, []);
      ScanPrompt(w, names, items, ready, []);
      DescendPrompt(w, bound, names, dirs, scanned);
    }
  }

  /** Once a share's walk has read the flag as set, it makes no further call to the server, of whatever kind. */
  lemma NoCallAfterFlag(w: World, bound: nat, loads: nat)
    requires WellFormed(w) && Bounded(w, bound)
    ensures Prompt(w, WalkShare(w, bound, loads).run.asked)
  {
    hide Explore, WellFormed, Bounded, MayExplore, MayProcess;
    var walk, context := WalkShare(w, bound, loads), FreshContext(w);
    if !Fired(w, loads) && MayExplore(w, context) && !Fired(w, loads + 1) && w.connect && !Fired(w, loads + 2) &&
      w.mountShare {
      var opening := [Asked(Connecting, loads + 2)] + [Asked(MountingShare, loads + 3)] + ContextCalls(w, loads + 3);
      ExplorePrompt(w, bound, [], loads + 3, context);
      PromptMore(w, opening, Explore(w, bound, [], loads + 3, context).asked);
    }
  }

  /**
   * A walk makes no call twice, and calls for different items are for different paths. So whatever a server answers,
   * and however its answers change while it is walked, some function of the path gives the same answers.
   */
  lemma AskedOnce(w: World, bound: nat, loads: nat)
    requires WellFormed(w) && Bounded(w, bound)
    ensures DistinctCalls(WalkShare(w, bound, loads).run.asked)
  {
    hide Explore, WellFormed, Bounded, MayExplore, MayProcess;
    var walk, context := WalkShare(w, bound, loads), FreshContext(w);
    if !Fired(w, loads) && MayExplore(w, context) && !Fired(w, loads + 1) && w.connect && !Fired(w, loads + 2) &&
      w.mountShare {
      var opening := [Asked(Connecting, loads + 2)] + [Asked(MountingShare, loads + 3)] + ContextCalls(w, loads + 3);
      ExploreAsksOnce(w, bound, [], loads + 3, context);
      DistinctMore(opening, Explore(w, bound, [], loads + 3, context).asked);
    }
  }

  lemma PathsDiffer(separator: char, names: seq<string>, others: seq<string>)
    requires Separator(separator) && GoodNames(names) && GoodNames(others) && names != others
    ensures FullPath(separator, names) != FullPath(separator, others) && DirPath(names) != DirPath(others)
  {
    hide GoodName, ContentId;
    FullPathsDiffer(separator, names, others);
    FullPathsDiffer('\\', names, others);
    DirPathFull(names);
    DirPathFull(others);
  }

  lemma FullPathsDiffer(separator: char, names: seq<string>, others: seq<string>)
    requires Separator(separator) && GoodNames(names) && GoodNames(others) && names != others
    ensures FullPath(separator, names) != FullPath(separator, others)
  {
    if names == [] || others == [] {
      NotRoot(separator, if names == [] then others else names);
    } else if FullPath(separator, names) == FullPath(separator, others) {
      ContentIdInjective(separator, "h", "s", names, false, "h", "s", others, false);
    }
  }

  lemma NotRoot(separator: char, names: seq<string>)
    requires GoodNames(names) && names != []
    ensures FullPath(separator, names) != ""
  {
    assert GoodName(names[|names| - 1]);
  }

  lemma DirPathFull(names: seq<string>)
    requires GoodNames(names)
    ensures DirPath(names) == FullPath('\\', names)
  {
    hide GoodName;
    DirPathGood(names);
    if names != [] {
      DirPathGood(names[..|names| - 1]);
    }
  }
}
