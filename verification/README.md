# ShareHound's core, modelled and proved

ShareHound walks the SMB shares of a network, reads the access control lists it finds and writes a graph of hosts, shares,
files, directories and the rights principals have on them. This project models the logic of that, mostly of the Go
implementation, in Dafny, and proves what the graph, the checkpoint file, the rule language and the connection pool can
be relied on for. The file server is an oracle: functions that answer which directories can be listed, what is in them and
which descriptor bytes an object has. The
answers are those of one run, so a read that fails in the middle of a run is among them.

The main results, and how they build on each other:

1. **Descriptor bytes to rights** (`Bytes`, `Decimal`, `Sid`, `SecurityDescriptor`, `Layout`, `AccessMask`, `Collector`). An encoder for the packet formats
   of MS-DTYP (sections 2.4.2.2, 2.4.4.1, 2.4.5 and 2.4.6) is written next to the parsers, and the parsers are proved to
   invert it, for every order of the components and whatever bytes follow. The ACE loops are proved to record exactly what
   the entries grant. The formats are also read byte by byte. The text of a SID, read back number by number, is the SID, and
   texts and principal names never merge two identifiers.
2. **The walk and the graph of a share** (`Rules`, `Paths`, `OpenGraph`, `Context`, `Traversal`, `Contents`, `ShareWorker`,
   `Coverage`, `Emission`, `GraphTheorems`, `EdgeKinds`, `Fields`, `Containment`, `Timeout`, `TimeoutGraph`, `TimeoutSample`). The two loops and the recursion run over a shared path stack, a stateful rule
   evaluator and a timeout flag that may fire at any read. They are proved against a recursive specification; that one is proved
   against a declarative one: which items are examined, which places are emitted, which records and edges exist and what is
   counted. What a rule's field says about an item, and what each kind of edge says, is stated endpoint by endpoint.
   From this follow independence of the listing order, the projection law of `--effective-access-only`, the meaning of the
   `CanEffective…` edges in terms of the two DACLs, the containment tree for any interleaving of contexts on one graph, and
   what a host timeout does: it loses nodes and edges, and exactly when it also adds rights edges to one file.
3. **Store, checkpoint, resume** (`OpenGraph`, `Ledger`, `Checkpoint`, `Resume`, `Durability`, `Scan`). Workers, the saver, crashes and restarts
   are steps of a transition system. In every reachable state the file holds all the work of every target it marks, and
   a completed run has the same graph whatever was interleaved, saved, lost and resumed. A resumed run loses no mark and no
   record and repeats no marked target. `Scans.ResumedEffectiveAccess` and `Scans.ResumedRecords` join this to 1 and 2: from
   the bytes of the DACLs and the names on the server to the edges and records of a resumed scan.
4. **ShareQL** (`Texts`, `Splitter`, `ShareQL`, `ShareQLPrint`, `ShareQLValues`, `ShareQLRoundTrip`, `ShareQLLines`, `ShareQLCase`,
   `Comparison`, `RuleFile`). A printer is written next to the parser, and for literals, comparisons, conditions, rules and rule
   files it is proved exactly when the parser gives back what was printed. Letter case decides neither how a rule is read nor,
   without patterns, what it decides. For the rule files that come with the program it is proved from their text what they decide.
5. **Pool, snapshots, embedded descriptors, address ranges** (`Pools`, `Snapshot`, `SnapshotDocument`, `EmbeddedDescriptor`,
   `Networks`).

How the parts are written: code that changes state is a class or a method with loops and is proved against a
specification function; the theorems are about those functions. `Go` maps are iterated in any order. Byte strings are sequences
of numbers below 256, access masks are numbers below 2^32, Go's `map[string]bool` sets are sets or maps. Everything the
world outside decides (listings, descriptors, pings, connections, the moment of the timeout, interleavings) is a parameter or
a choice of step.

## Where the code does not do what its documentation, or its reader, expects

The model follows the code.

- The comment at `Go/internal/collector/contents.go:297-300` has a file inherit the rights of an ancestor when its descriptor is not
  accessible. The code inherits whenever the collected rights are empty, so also for a file whose DACL can be read and grants
  nothing (`GraphTheorems.ReadableFileInherits`). Its effective edges then come from the ancestor's DACL.
- `Go/internal/collector/contents.go:68` and `:94` speak of a breadth-first traversal. The directories of a listing are explored one after
  the other, each to its full depth, after all items of the listing have been examined (`Coverage.DepthFirst`).
- `Go/internal/worker/worker.go:93` promises to keep closing new connections after a host timeout. A session that connects while
  `ForceCloseAll` runs has been dropped from the active map, and no later round closes it for as long as it is held
  (`Pools.StrayAfterForce`; exactly which sessions outlive a round: `Pools.SurvivesForce`). Once its user returns it, the next
  round closes it, and when the target is left nothing is open (`Pools.NoLeak`).
- A host timeout is meant to end the work on a host. It closes the sessions under a walk that has just begun to examine a file;
  the file's descriptor then reads as empty, the file inherits, and edges go out that its own DACL does not grant
  (`TimeoutGraphs.LosesOnlyIff` says exactly when, `TimeoutSamples.TimeoutInvents` gives a share and a moment).
- `Go/README.md:560` documents a field `SHARE.TYPE`. `GetFieldValue` does not know it (`Go/internal/rules/evaluator.go:17-65`, `Rules.ShareTypeUnknown`).
- Rules are described object by object, but the evaluator keeps the last file and the last directory it was shown. A
  `FILE.*` rule therefore also decides about directories listed after a file, and the outcome depends on the listing order
  (`Coverage.SwapIff` and `Coverage.SwapSameSort` say exactly when, `Coverage.OrderMatters` gives a share for which it does). A file is decided twice
  and alike, so the counters of total and processed files always agree (`Coverage.CountsAreCardinalities`).
- `Go/README.md:565` documents `FILE.SIZE` as the size in bytes. Equality turns both numbers into the character with that code
  point, so `FILE.SIZE = 2000000` also holds of 3000000 bytes and `DEPTH = 65` of depth 97 (`Comparisons.SizeMistaken`; exactly
  when equality is right: `Comparisons.EqualityExact`). Order is right for numbers, but every text that is not empty counts as 0
  (`Comparisons.OrderExact`).
- An unquoted literal that begins with a comparator tried earlier is misread: in `FILE.NAME = index` the parser sees `IN`
  (`ShareQLRoundTrip.UnquotedMisread`; exactly when: `BareRoundTrip`). A list directly inside a list comes back only if it has one item, and
  an empty list comes back as a list of one empty string (`ShareQLValues.ValueRoundTrip`).
- Brackets are counted inside quotes, too: in `FILE.NAME = '(' OR FILE.NAME = 'b'` the parser does not see the `OR`
  (`Splitters.OpenHides`). Text behind the scope that does not begin with `IF` is ignored, so a rule with the `IF` forgotten always
  applies (`ShareQLLines.IfForgotten`).
- `calculateSDLength` measures the component at the highest offset only if that offset lies beyond the header and the
  component begins with 1 or 2. For a descriptor with a single component, or with an ACL of revision 4 at its end, it uses an
  estimate of 64 bytes (`EmbeddedDescriptors.LengthExact`, `EmbeddedDescriptors.RecoveredExactly`).

## Model

| member | source | states |
|---|---|---|
| Sids.ParseSID | Go/internal/smb/sid.go:19-43 | the parsing loop yields what the specification reads from the front of the bytes, or an error when they are too short |
| Sids.SidRoundTrip | Go/internal/smb/sid.go:19-43 | parsing the section 2.4.2.2 encoding of any SID, followed by any bytes, gives the SID back |
| Sids.String | Go/internal/smb/sid.go:47-66 | the builder loop yields the text form of the SID |
| Sids.TextReads | Go/internal/smb/sid.go:47-66 | cut at its dashes, the text is "S", the revision, the authority as one number with the first byte highest, and the sub-authorities, all in decimal |
| Decimals.NumberDec | Go/internal/smb/sid.go:49-63 | a number in decimal reads as that number and has no zeros in front |
| Sids.DomainText | Go/internal/smb/sid.go:125-127 | a text counts as a domain SID exactly if revision is 1, authority is 5 and there are two or more sub-authorities, the first being 21 |
| Sids.PrincipalIs | Go/internal/graph/context.go:349-357 | the domain and a dash stand before the SID exactly if there is a domain and the SID is none of a domain |
| Sids.TextInjective | Go/internal/smb/sid.go:47-66 | two SIDs with the same text are the same, for any 48-bit authority and any numbers of sub-authorities |
| Sids.PrincipalInjective | Go/internal/graph/context.go:349-357 | with one domain prefix for non-domain SIDs, two SIDs with the same edge start are the same, even if only one was prefixed |
| SecurityDescriptors.ParseSecurityDescriptor | Go/internal/smb/security_descriptor.go:91-140 | on any bytes: header fields, owner, group and ACLs as the offsets and control flags say; an error below 20 bytes; no read out of bounds |
| SecurityDescriptors.ParseACL | Go/internal/smb/security_descriptor.go:143-168 | the entry loop stops at the count, at the end of the bytes or at the first entry that does not parse |
| SecurityDescriptors.AclAt | Go/internal/smb/security_descriptor.go:143-168 | on any bytes, no more entries than the header's count |
| SecurityDescriptors.ParseACE | Go/internal/smb/security_descriptor.go:171-205 | an entry accepted fits the bytes, and an entry of a non-standard type has no SID |
| SecurityDescriptors.AceRoundTrip | Go/internal/smb/security_descriptor.go:171-205 | parsing an encoded entry, standard or not and whatever follows, gives type, flags, size, mask and SID back |
| SecurityDescriptors.AcesRoundTrip | Go/internal/smb/security_descriptor.go:155-165 | a run of encoded entries is read entry by entry; non-standard ones are stepped over by their size |
| SecurityDescriptors.AclRoundTrip | Go/internal/smb/security_descriptor.go:143-168 | parsing an encoded ACL, with slack and trailing bytes, gives its header and all its entries |
| SecurityDescriptors.DescriptorRoundTrip | Go/internal/smb/security_descriptor.go:91-140 | for every order of the components and any trailing bytes, parsing the encoding gives owner, group and the flagged ACLs |
| Layouts.SidBytes | Go/internal/smb/sid.go:19-43 | which byte is which part of a SID, and how many bytes there have to be |
| Layouts.AceBytes | Go/internal/smb/security_descriptor.go:171-205 | which byte is which part of an entry, and which entries are refused |
| Layouts.AclBytes | Go/internal/smb/security_descriptor.go:143-168 | the header fields of an ACL, its first entry, and when there is none |
| Layouts.DescriptorBytes | Go/internal/smb/security_descriptor.go:91-140 | where the four offsets stand, and the two control bits that say whether the ACLs are there |
| Layouts.ComponentBytes | Go/internal/smb/security_descriptor.go:107-137 | a component is read from its offset on, and there is none at offset zero or beyond the end |
| Layouts.LocalSystem | Go/internal/smb/sid.go:19-66 | twelve bytes, the SID they are, and its text S-1-5-18 |
| AccessMasks.GetShareRightsForMask | Go/internal/smb/access_mask.go:121-129 | a kind is in the result exactly if its bit is in the mask, and once |
| AccessMasks.GetNTFSRightsForMask | Go/internal/smb/access_mask.go:132-140 | a kind is in the result exactly if its bit is in the mask, and once |
| AccessMasks.ComputeEffectiveRights | Go/internal/smb/access_mask.go:169-189 | an effective kind is in the result exactly if both layers have a kind that opens the access, and nothing else is in it |
| AccessMasks.OpeningBits | Go/internal/smb/access_mask.go:71-118 | through either table, a mask has a kind opening an access exactly if it has the specific, the generic or the generic-all bit |
| AccessMasks.TableBits | Go/internal/smb/access_mask.go:71-118 | both tables, right by right: the number of the bit |
| AccessMasks.FlagIsBit | Go/internal/smb/access_mask.go:121-140 | testing a flag is asking whether that bit of the mask is set |
| RightsCollectors.CollectAce | Go/internal/collector/ntfs_rights.go:36-55 | one entry adds the kinds of its mask to the SID it names, if it is an allow entry with a SID and a known bit, and else nothing |
| RightsCollectors.CollectAces | Go/internal/collector/ntfs_rights.go:36-55 | the loop over any list of entries builds the rights map of that list |
| RightsCollectors.CollectNTFSRights | Go/internal/collector/ntfs_rights.go:11-58 | the rights map of the descriptor's DACL; empty when there is no descriptor, it does not parse or has no DACL |
| RightsCollectors.CollectShareRights | Go/internal/collector/share_rights.go:11-82 | the same with the share table; without a share descriptor, that of the root directory |
| RightsCollectors.RightsRecord | Go/internal/collector/share_rights.go:59-79 | the map has a kind for a SID exactly if some allow entry for the SID has the bit, and has no SID without kinds |
| RightsCollectors.RecordsUnique | Go/internal/collector/share_rights.go:59-79 | DACLs that grant the same have the same map: order, duplicates and splits over several entries do not matter |
| RightsCollectors.WireToRights | Go/internal/collector/ntfs_rights.go:24-55 | from the encoded descriptor to the map: exactly the grants of the wire entries, if the DACL is flagged as present |
| Paths.SplitUnc | Go/internal/collector/contents.go:172-179 | host, share and path names can be read off the UNC path |
| Paths.ContentIdInjective | Go/internal/collector/contents.go:208-210 | no two files or directories of any hosts and shares have the same node ID |
| Paths.ParentIdIs | Go/internal/collector/contents.go:277-278 | the parent's node ID is a function of the child's ID alone, across hosts and shares |
| Paths.SplitFullPath | Go/internal/collector/contents.go:172-176 | the names can be read off the path from the share's root |
| Paths.RootIdsRead | Go/internal/worker/worker.go:383-389 | the parts of host and share IDs can be read off them |
| Paths.ContentIdReads | Go/internal/collector/contents.go:208-210 | what an item's ID begins with says whether it is a directory, and the rest is its UNC path |
| OpenGraphs.OpenGraph.AddNode | Go/internal/graph/opengraph.go:118-127 | a node with a new ID goes to the end of the log and into the index, any other leaves the store as it is; the invariant holds |
| OpenGraphs.OpenGraph.AddEdge | Go/internal/graph/opengraph.go:138-153 | true exactly for a new key; then log, index and counter grow by it, and else nothing changes |
| OpenGraphs.OpenGraph.GetNodesAndEdges | Go/internal/graph/opengraph.go:442-481 | after the flush, the records read are the logs |
| OpenGraphs.OpenGraph.RestoreNodesAndEdges | Go/internal/graph/opengraph.go:484-509 | nodes as given, edges without repetitions; the store is consistent exactly if the node IDs are distinct |
| OpenGraphs.SaveThenRestore | Go/internal/graph/opengraph.go:442-509 | restoring what was read out makes any store equal to the one read, record for record |
| OpenGraphs.DeduplicatedLog | Go/internal/graph/opengraph.go:144-153 | the log is distinct, has the elements offered and keeps the order of first offers |
| Ledgers.Perform | Go/internal/graph/context.go:221-223 | one call on the store and the caller's counting do what the step of the run model says |
| Ledgers.LogsRefineSets | Go/internal/graph/opengraph.go:118-153 | after any interleaving of additions by any contexts and restores, the logs are what was offered since the last restore, without repetitions |
| Ledgers.CountersAgree | Go/internal/graph/context.go:364-367 | between restores the edge log grows by the sum of what all contexts counted in totalEdgesCreated |
| Rules.ShareTypeUnknown | Go/internal/rules/evaluator.go:17-65 | the documented field SHARE.TYPE has no value, whatever has been shown |
| Rules.Decision | Go/internal/rules/evaluator.go:135-163 | the decision is that of the first rule that applies, else of the first default, else allow |
| Rules.OneRuleDecides | Go/internal/rules/evaluator.go:135-163 | a single rule decides exactly where its condition holds; elsewhere everything is allowed |
| Rules.OtherScope | Go/internal/rules/evaluator.go:145-160 | a rule of the other scope can be left out anywhere |
| Rules.BothScopes | Go/internal/rules/evaluator.go:145-160 | a rule without a scope word counts in both scopes |
| Rules.InIsOr | Go/internal/rules/rule.go:146-165 | being in a list is being equal to one of its items |
| Rules.ComparatorLaws | Go/internal/rules/rule.go:54-80 | NOT IN and != negate IN and =; <= and >= are < and > or = |
| Rules.ComparatorMeanings | Go/internal/rules/rule.go:54-80 | == is equality, < and > are order, MATCHES is the pattern |
| Rules.UnknownComparator | Go/internal/rules/rule.go:78-79 | any other comparator never holds |
| Rules.AndHolds | Go/internal/rules/rule.go:97-104 | AND holds exactly if each of its conditions does, none of them included |
| Rules.OrHolds | Go/internal/rules/rule.go:111-118 | OR holds exactly if not all of its conditions fail |
| Rules.HoldsFrame | Go/internal/rules/rule.go:43-119 | a condition cannot tell apart contexts that agree on the objects its fields mention |
| Rules.EvaluateFrame | Go/internal/rules/evaluator.go:135-163 | a decision cannot tell apart contexts that agree on the objects mentioned by the rules of its scope |
| Rules.Evaluator.Decide | Go/internal/rules/evaluator.go:135-163 | the two loops compute that decision and change nothing |
| Rules.Evaluator.SetDepth | Go/internal/rules/evaluator.go:97-99 | only the remembered depth changes |
| Rules.Evaluator.CanExploreShare | Go/internal/rules/evaluator.go:107-117 | the share is remembered, nothing else changes, and the decision is made with it |
| Rules.Evaluator.CanExploreDir | Go/internal/rules/evaluator.go:107-117 | the directory is remembered together with whatever was, and the decision is made with all of it |
| Rules.Evaluator.CanProcessShare | Go/internal/rules/evaluator.go:120-132 | the same for processing the share |
| Rules.Evaluator.CanProcessDir | Go/internal/rules/evaluator.go:120-132 | the same for processing a directory |
| Rules.Evaluator.CanProcessFile | Go/internal/rules/evaluator.go:120-132 | the same for processing a file |
| FieldMeanings.FileFields | Go/internal/collector/contents.go:248-260 | the fields of a file are the name, path, size and lower-case extension of the file examined, and no other field changes |
| FieldMeanings.DirFields | Go/internal/collector/contents.go:185-201 | the fields of a directory are name and path of the directory examined, under both names of each |
| FieldMeanings.ShareFields | Go/internal/worker/worker.go:332-341 | a share's fields: its name, no description, and whether the name ends in a dollar sign; depth is 0 |
| FieldMeanings.DepthField | Go/internal/collector/contents.go:135 | while the items of a directory are examined, DEPTH is the number of names in its path |
| FieldMeanings.Unshown | Go/internal/rules/evaluator.go:17-65 | before a share, file or directory has been shown, its fields have no value |
| FieldMeanings.DenyFileName | Go/internal/rules/evaluator.go:120-132 | one rule against a file name denies the files with that name, in any case, and no others |
| FieldMeanings.DenyFilePath | Go/internal/rules/evaluator.go:120-132 | one rule against a path denies the file whose names are those, in any case, and no other |
| FieldMeanings.DenyExtension | Go/internal/rules/evaluator.go:120-132 | one rule against an extension denies the files with it, and no others |
| FieldMeanings.DenyDirName | Go/internal/collector/contents.go:193-230 | one rule against exploring a directory name keeps out of those directories and emits none of them, one against processing only leaves their nodes out |
| FieldMeanings.DenyShareName | Go/internal/worker/worker.go:341-416 | the same for a share name |
| Contexts.OpenGraphContext.PushPath | Go/internal/graph/context.go:112-114 | one entry more on the stack, nothing else changed |
| Contexts.OpenGraphContext.PopPath | Go/internal/graph/context.go:117-124 | takes off the last entry and returns its node; an empty stack stays empty |
| Contexts.OpenGraphContext.GetStringPathFromRoot | Go/internal/graph/context.go:173-182 | the non-empty names on the stack, joined by backslashes |
| Contexts.OpenGraphContext.AddPathToGraph | Go/internal/graph/context.go:185-330 | root once, directories of the path once each, then the element: the records and edges emitted are the specified sets, and of the records exactly those with new IDs go to the log as they are; store, counter and invariant (ends out, parents out and rightful) are kept |
| Contexts.OpenGraphContext.AddRightsToGraph | Go/internal/graph/context.go:333-378 | exactly one edge per principal and right, in any order of the map; the counter grows by the new ones |
| Contexts.OpenGraphContext.AddEffectiveRightsToGraph | Go/internal/graph/context.go:390-418 | exactly the effective edges of the SIDs both maps open |
| Contexts.EffectiveAgrees | Go/internal/graph/context.go:390-418 | SID by SID, the list intersection is the set of accesses opened at both layers |
| Traversal.TallyConcat | Go/internal/collector/contents.go:29-36 | adding counters is counting the concatenated events |
| Contents.InheritRights | Go/internal/collector/contents.go:301-319 | the loop finds the rights of the nearest ancestor with rights, else those of the share root |
| Traversal.NearestIs | Go/internal/collector/contents.go:301-319 | inherited are the rights of the ancestor that has rights with none below it that has, else those of the share |
| Contents.ResolveFileRights | Go/internal/collector/contents.go:297-319 | a file's rights in force: its own, unless it has none |
| Contents.ExamineDirectory | Go/internal/collector/contents.go:185-246 | decisions, emission, counters and the list of the next level are those specified for a directory |
| Contents.ExamineFile | Go/internal/collector/contents.go:248-332 | decisions, inheritance, emission and counters are those specified for a file |
| Contents.ScanContents | Go/internal/collector/contents.go:158-335 | the first loop, up to the end or the timeout, does what the specification of a scan says |
| Contents.DescendInto | Go/internal/collector/contents.go:338-377 | the second loop keeps the stack and does what the specification of a descent says |
| Contents.CollectContentsAtDepth | Go/internal/collector/contents.go:95-380 | for any listings, rules and moment of the timeout: stack restored, no current element, events, emissions, evaluator state and counts as specified; it terminates |
| ShareWorkers.NewContext | Go/internal/worker/worker.go:364-413 | the context is set up with the nodes, the rights and the root rights of this share |
| ShareWorkers.ProcessShare | Go/internal/worker/worker.go:308-433 | with all early exits: the store grows by exactly the IDs, records and edges the walk of the share sends, and the counts are its counts |
| Coverage.ListedItems | Go/internal/collector/contents.go:168-170 | of a listing, everything but the two dot entries is to be examined |
| Coverage.TextuallyScoped | Go/internal/rules/evaluator.go:107-132 | rules whose text mentions no file in exploration, and neither file nor directory in processing, decide every item by itself |
| Coverage.ExploreExact | Go/internal/collector/contents.go:158-377 | without a timeout and with such rules, the walk examines exactly the items of the directories reachable through explorable ones |
| Coverage.ExploreShape | Go/internal/collector/contents.go:114-117 | in every walk no item is examined twice and none lies deeper than the depth limit |
| Coverage.CountsAreCardinalities | Go/internal/collector/contents.go:158-377 | the six counters are the sizes of six sets of items; total and processed files agree |
| Timeouts.ExploreCut | Go/internal/collector/contents.go:108-165 | wherever the timer fires, and whatever mounts and listings fail once it has closed the sessions, what was examined is a prefix of what the undisturbed walk examines |
| Timeouts.NoCallAfterFlag | Go/internal/worker/worker.go:325-363 | once a share's walk has read the timeout flag as set, it makes no further call to the server |
| Timeouts.AskedOnce | Go/internal/collector/contents.go:129-182 | a walk makes no call to the server twice, so answers that change over time are those of some function of the call |
| Timeouts.PathsDiffer | Go/internal/collector/contents.go:172-176 | calls about different items are about different paths |
| Timeouts.ExploreRead | Go/internal/collector/contents.go:158-182 | in every walk, the rights of all examined items but the last, and of all directories above every item, were read before the flag was set |
| Coverage.DepthFirst | Go/internal/collector/contents.go:337-377 | in every walk, what lies below one directory of a listing is examined in one go |
| Coverage.SwapIff | Go/internal/rules/evaluator.go:107-132 | a file and a directory listed together, whatever comes before and after, are examined alike in both orders exactly if showing the one first changes no decision about the other |
| Coverage.SwapSameSort | Go/internal/rules/evaluator.go:107-132 | two files, or two directories, are examined alike in both orders exactly if the items of the other sort up to the next one of their own are decided alike with either remembered |
| Coverage.OrderMatters | Go/internal/rules/evaluator.go:120-132 | one rule on file extensions and two items whose order decides what becomes of the directory |
| Emission.IdInjective | Go/internal/collector/contents.go:208-210 | places of a share have different IDs |
| Emission.SendAllImage | Go/internal/graph/context.go:185-330 | emitting any events one after the other, with all once-only flags, amounts to the upward closure of the processed ones |
| Emission.SentExact | Go/internal/graph/context.go:185-330 | for every walk at all, the graph of a share is the image of the upward closure of what was emitted |
| Emission.TraversalExact | Go/internal/collector/contents.go:158-377 | without a timeout and with scoped rules: examined, emitted and counted is exactly what the declarative side says |
| Emission.GraphExact | Go/internal/collector/contents.go:158-377 | the same for the graph: its nodes and edges are exactly those of the share to be emitted and of the places to be emitted, each record with the right ID, kind and name |
| Emission.RecordsSent | Go/internal/graph/context.go:185-330 | for every walk: the records of host and share if anything is sent, and for each emitted place one with its ID, whether it is a directory, and its name |
| Emission.OneRecord | Go/internal/graph/context.go:185-330 | a share sends one record for each ID |
| Emission.RecordsLogged | Go/internal/graph/opengraph.go:118-127 | what the log gets from a share: exactly the records sent whose ID was not in it |
| EdgeMeanings.HostAndShareEdges | Go/internal/graph/context.go:203-250 | both ends of the host and share edges, and that they are out exactly if the share is |
| EdgeMeanings.ContainmentEdges | Go/internal/graph/context.go:253-330 | Contains edges are exactly those from what lies above to each emitted place |
| EdgeMeanings.NtfsRightEdges | Go/internal/graph/context.go:333-378 | an NTFS right is out exactly if not only effective access is asked for, the place is emitted and an allow entry in force has its bit |
| EdgeMeanings.ShareRightEdges | Go/internal/graph/context.go:333-378 | a share right is out exactly if the share is and an allow entry of its DACL has the bit |
| EdgeMeanings.EffectiveRightEdges | Go/internal/graph/context.go:390-418 | an effective right is out exactly if the place is emitted and both DACLs allow the access |
| EdgeMeanings.EveryEdge | Go/internal/graph/context.go:185-418 | there are no other edges: every right leads from a principal to an emitted place or to the share |
| GraphTheorems.OrderIndependent | Go/internal/collector/contents.go:158 | listing the same contents in another order gives the same nodes, edges and counts |
| GraphTheorems.EffectiveOnlyProjects | Go/internal/graph/context.go:264-309 | with effectiveAccessOnly the same nodes, and exactly the edges whose kind is not in the NTFS table |
| GraphTheorems.OpensByRights | Go/internal/smb/access_mask.go:169-189 | a rights map opens an access to a SID's text exactly if an allow entry for the SID has a bit for it |
| GraphTheorems.EffectiveAccess | Go/internal/graph/context.go:390-418 | a CanEffective edge exists exactly if the item was emitted and both the share's DACL and the DACL in force allow the access to the SID |
| GraphTheorems.WireAllows | Go/internal/collector/ntfs_rights.go:24-55 | what "allow" means in terms of the encoded descriptor: flag set, DACL there, a plain allow entry with a bit |
| GraphTheorems.ReadableFileInherits | Go/internal/collector/contents.go:297-319 | a file with a readable descriptor inherits exactly if its DACL grants nobody anything |
| GraphTheorems.ClimbToShare | Go/internal/graph/context.go:203-330 | following parents from a place reaches the share in path-length steps, over its directories one by one |
| GraphTheorems.ContainsEdges | Go/internal/graph/context.go:203-330 | every Contains edge leads to an emitted place from the directory or share that contains it |
| Containment.RunInvariant | Go/internal/graph/opengraph.go:118-153 | in every state of any interleaving of node and edge insertions, each edge ready in its context, every Contains child hangs from the share of its context by Contains edges that context has sent |
| Containment.OneParent | Go/internal/graph/context.go:203-330 | in every state of every such interleaving: edge ends are out, structural starts are out, and a child has one parent |
| Containment.ChainToShare | Go/internal/graph/context.go:203-330 | in every such state, Contains edges of the graph lead up from each Contains child to an emitted share, without a cycle |
| Containment.PathToShare | Go/internal/graph/context.go:203-330 | and for a file or directory they do in as many steps as its path has names, to its own share |
| Containment.PlacesHang | Go/internal/graph/context.go:203-330 | after any number of items of any walk, each emitted place has that chain |
| TimeoutGraphs.KeepsStructure | Go/internal/worker/worker.go:82-92 | an interrupted run adds no node, and no edge but rights edges into the one file whose reading was interrupted; containment, share and host edges and share rights are among the undisturbed ones |
| TimeoutGraphs.LosesOnlyIff | Go/internal/collector/contents.go:297-319 | all edges of an interrupted run are among the undisturbed ones exactly if the interrupted item is no processed file, or what it inherits adds nothing to its own rights at the NTFS and the effective level |
| TimeoutSamples.TimeoutInvents | Go/internal/smb/session.go:497-528 | a share, a moment and a file that only the system may read, of which the interrupted run says that everyone can read it |
| Checkpoints.Manager.MarkTargetProcessed | Go/internal/checkpoint/checkpoint.go:73-80 | the target is marked if checkpoints are enabled, no other mark changes |
| Checkpoints.Manager.IsTargetProcessed | Go/internal/checkpoint/checkpoint.go:83-90 | true exactly for marked targets of an enabled manager |
| Checkpoints.Manager.CopyProcessed | Go/internal/checkpoint/checkpoint.go:153-158 | the copy loop, in any order of the keys, yields the map |
| Checkpoints.Manager.SaveCheckpoint | Go/internal/checkpoint/checkpoint.go:148-193 | the file becomes marks, nodes and edges of the store, or stays if checkpoints are disabled |
| Checkpoints.Manager.RestoreFrom | Go/internal/checkpoint/checkpoint.go:231-235 | the marks are those of the file |
| Checkpoints.Manager.TargetsToProcess | Go/cmd/sharehound/main.go:338-346 | the unmarked targets, all of them, in the order given |
| Checkpoints.RemainingConcat | Go/cmd/sharehound/main.go:338-346 | what remains of two lists is what remains of each, in order and with repetitions |
| Resume.StepPreserves | Go/internal/checkpoint/checkpoint.go:148-193 | each step of workers, saver, crash and restart keeps the protocol invariant |
| Resume.RunInvariant | Go/cmd/sharehound/main.go:254-269 | the invariant holds in every state of every run |
| Resume.CheckpointCut | Go/internal/checkpoint/checkpoint.go:153-161 | in every reachable state the file has every node and edge of every target it marks, though others append meanwhile, and its records are distinct |
| Resume.ResumeEquivalence | Go/cmd/sharehound/main.go:254-269 | whenever all workers are done, after any interleaving, saves, crashes and resumes, the logs are the work of all targets, each node once and with one of the records sent for it, each edge once |
| Resume.CanComplete | Go/cmd/sharehound/main.go:402-408 | from every state that satisfies the invariant a completing run exists, so nothing gets stuck |
| Durability.ResumingKeeps | Go/cmd/sharehound/main.go:254-269 | in any run whose starts all resume, through any crashes, the file keeps every mark and record it once had |
| Durability.NeverAgain | Go/cmd/sharehound/main.go:338-346 | after a resume no target is launched that the file marked |
| Durability.SaveWrites | Go/internal/checkpoint/checkpoint.go:148-193 | a save writes the marks of the moment it began, and of the logs at least what there was then and at most what there is when it ends |
| Scans.ProcessTarget | Go/internal/worker/worker.go:41-305 | the share loop: the store grows by the nodes, records and edges of all shares |
| Scans.Restore | Go/cmd/sharehound/main.go:254-269 | on resume the marks, the nodes and the edges are those of the file, record for record; otherwise there are none |
| Scans.ProcessThenMark | Go/cmd/sharehound/main.go:402-408 | marks and store are then exactly those from before and this target's: the mark and the work |
| Scans.Scan | Go/cmd/sharehound/main.go:254-409 | the targets done are the unmarked ones in order, up to where it dies; the file is as it was or holds exactly what the scan began with and what had been done at the last save; a scan that lives has exactly the work of all targets |
| Scans.NotAgain | Go/cmd/sharehound/main.go:338-346 | a resumed scan does a target exactly if the file does not mark it |
| Scans.NothingLost | Go/cmd/sharehound/main.go:254-269 | whatever a resumed scan does and whenever it dies, every mark and record of the file stays in it |
| Scans.SaveNow | Go/cmd/sharehound/main.go:402-409 | with checkpoints the file then holds exactly what the scan began with and what has been done since |
| Scans.ResumedEffectiveAccess | Go/cmd/sharehound/main.go:254-409 | in a completed run, however resumed, a CanEffective edge is in the log exactly if the walk emits the item and both DACLs allow the access |
| Scans.ResumedRecords | Go/cmd/sharehound/main.go:254-409 | in a completed run, however resumed, the record with the ID of a place is in the log exactly if the walk emits it, and has its kind and name |
| Splitters.SplitAtKeyword | Go/internal/rules/parser.go:263-320 | the loop with builder, depth and quote state yields the specified parts |
| Splitters.SplitListItems | Go/internal/rules/parser.go:323-352 | the loop yields the parts between commas outside quotes |
| Splitters.Rejoin | Go/internal/rules/parser.go:263-320 | the parts with the keyword between them, in some case each time, are the input |
| Splitters.Protected | Go/internal/rules/parser.go:277-303 | text in brackets of either kind or in quotes of either kind is not cut, whatever keywords are in it |
| Splitters.OpenHides | Go/internal/rules/parser.go:290-301 | behind an opening bracket that is not closed again, inside quotes or not, nothing is cut |
| Splitters.PartsAreFinal | Go/internal/rules/parser.go:263-320 | splitting a part again gives the part alone |
| Splitters.Split | Go/internal/rules/parser.go:127-175 | there is a part, and when there are several each is shorter than the input, which is what makes the recursion end |
| Texts.TrimSpace | Go/internal/rules/parser.go:127-128 | the result has no space at its ends, is no longer, and trimmed text is left alone |
| Texts.TrimSpaceCuts | Go/internal/rules/parser.go:127-128 | trimming takes white space off the ends and nothing else |
| Texts.Spaces | Go/internal/rules/parser.go:32 | the six white space characters of ASCII |
| Texts.CaseFolding | Go/internal/rules/parser.go:59-60 | letters change case, and nothing else changes |
| Texts.ExtIs | Go/internal/collector/contents.go:249-257 | an extension begins with the last dot; without a dot there is none |
| ShareQL.Index | Go/internal/rules/parser.go:186-188 | the first position of the pattern, or -1 exactly if there is none |
| ShareQLPrinting.ComparisonRoundTrip | Go/internal/rules/parser.go:178-215 | a printed comparison comes back exactly if its literal does and no comparator tried earlier is seen in the literal |
| ShareQLValues.ValueRoundTrip | Go/internal/rules/parser.go:218-260 | a printed literal comes back exactly if its lists are not empty and lists in lists have one item |
| ShareQLValues.QuotedRead | Go/internal/rules/parser.go:235-239 | quotes of both kinds are taken off, whatever is between them; one quote alone makes the parser slice out of bounds |
| ShareQLRoundTrip.ParseUndoesPrint | Go/internal/rules/parser.go:127-215 | a printed condition comes back exactly if connectives join two or more and every comparison in it comes back |
| ShareQLRoundTrip.RegularRoundTrip | Go/internal/rules/parser.go:127-260 | conditions whose strings have no spaces, with listable literals and proper connectives, always come back |
| ShareQLRoundTrip.ParsedConnectives | Go/internal/rules/parser.go:127-175 | on any text, the parser makes no connective of fewer than two conditions |
| ShareQLRoundTrip.BareRoundTrip | Go/internal/rules/parser.go:184-191 | an unquoted string comes back exactly if it does not begin with a comparator tried earlier |
| ShareQLRoundTrip.UnquotedMisread | Go/internal/rules/parser.go:184-191 | a concrete comparison that does not come back |
| ShareQLLines.Parse | Go/internal/rules/parser.go:26-48 | the line loop yields the rules and the numbers of the lines with errors |
| ShareQLLines.LinesConcat | Go/internal/rules/parser.go:26-48 | the report of two pieces of a file is that of the one and then of the other |
| ShareQLLines.ErrorLines | Go/internal/rules/parser.go:37-41 | the errors are the numbers of the faulty lines, counted from one, in order |
| ShareQLLines.SkippedLine | Go/internal/rules/parser.go:33-35 | a skipped line anywhere changes no rule and no number of errors |
| ShareQLLines.CommentSkipped | Go/internal/rules/parser.go:33-35 | white space and comments of both kinds, indented or not, are skipped |
| ShareQLLines.SkippedIs | Go/internal/rules/parser.go:33-35 | nothing else is skipped |
| ShareQLLines.RuleRead | Go/internal/rules/parser.go:57-124 | action, scope and condition are read with any white space between and around them, or none |
| ShareQLLines.IfForgotten | Go/internal/rules/parser.go:100-123 | text behind the scope that does not begin with IF is ignored, and the rule always applies |
| ShareQLLines.DefaultRead | Go/internal/rules/parser.go:61-74 | a default with or without a space before the colon, and any white space behind it |
| ShareQLLines.RuleRoundTrip | Go/internal/rules/parser.go:57-124 | a printed rule comes back exactly if its condition does |
| ShareQLLines.FileRoundTrip | Go/internal/rules/parser.go:26-48 | a printed rule file comes back without errors exactly if every rule does |
| ShareQLCase.CaseBlind | Go/internal/rules/parser.go:57-260 | a rule line in capitals is read as the line itself is, up to the case of fields and strings; errors stay errors |
| ShareQLCase.FileCaseBlind | Go/internal/rules/parser.go:26-48 | the same for a file: the same rules up to case, the same lines in error |
| ShareQLCase.CaseNeverDecides | Go/internal/rules/rule.go:121-165 | without patterns, rules in capitals decide everything as the rules themselves do |
| Comparisons.NumeralIs | Go/internal/rules/parser.go:251-256 | a numeral is an optional minus, digits, and possibly a point and digits |
| Comparisons.AmountIs | Go/internal/rules/parser.go:251-256 | its value is the one it is written for |
| Comparisons.OrderExact | Go/internal/rules/rule.go:128-219 | sizes and depths are ordered as numbers; a text that is not empty is ordered as 0 |
| Comparisons.NumbersEqual | Go/internal/rules/rule.go:121-198 | two numbers of 32 bits are equal exactly if they are the same, or code points of one letter in both cases, or both no code points |
| Comparisons.EqualityExact | Go/internal/rules/rule.go:121-198 | equality to a number means that number alone exactly if it is a code point and no letter |
| Comparisons.SizeMistaken | Go/internal/rules/rule.go:121-198 | two sizes that count as equal |
| RuleFiles.MaxDepthFile | rules/max_depth_1.shareql:1 | for every n, such a file is read without errors, denies exploring anything deeper than n, and nothing else |
| RuleFiles.SkipCommonShares | rules/skip_common_shares.shareql:1-2 | the file is read without errors and denies exploring c$, print$, ipc$ and admin$ in any case, and nothing else |
| RuleFiles.DefaultRules | Go/internal/rules/parser.go:11-15 | the default rules are read without errors and decide the same |
| EmbeddedDescriptors.CalculateSDLength | Go/internal/smb/srvsvc.go:319-367 | on any bytes, the largest offset plus the measured or estimated size, and 0 below 20 bytes |
| EmbeddedDescriptors.FirstAccepted | Go/internal/smb/srvsvc.go:277-316 | the least accepted position, or none if there is none |
| EmbeddedDescriptors.AcceptedIs | Go/internal/smb/srvsvc.go:277-316 | what is accepted, byte by byte: revision, zero, a control bit, a DACL that parses, and a length that fits |
| EmbeddedDescriptors.Extracted | Go/internal/smb/srvsvc.go:277-316 | what is found is a non-empty contiguous part within the payload |
| EmbeddedDescriptors.ExtractSecurityDescriptor | Go/internal/smb/srvsvc.go:277-316 | the scan returns the bytes of the first accepted position, or an error if there is none |
| EmbeddedDescriptors.LengthExact | Go/internal/smb/srvsvc.go:319-367 | the length is right exactly if the last component is measured or happens to have 64 bytes |
| EmbeddedDescriptors.RecoveredExactly | Go/internal/smb/srvsvc.go:277-316 | between a prefix without accepted positions and a non-empty suffix, exactly the encoded descriptor is found if and only if that holds |
| EmbeddedDescriptors.RecoveredParses | Go/internal/smb/srvsvc.go:277-316 | and then the bytes found parse to the descriptor encoded |
| Networks.IncIP | Go/internal/utils/network.go:76-83 | the carry loop adds one modulo 256^n on an array of any length |
| Networks.ExpandCIDR | Go/internal/utils/network.go:57-73 | for prefixes 1 to 32 the loop ends, at the end of the address space too, and yields the block in order, less first and last when there are more than two |
| Networks.BlockMember | Go/internal/utils/network.go:63-65 | the next 2^(32-p) addresses from the masked one are in the block |
| Networks.BlockEnds | Go/internal/utils/network.go:63-65 | the block fits the address space, and the address after it, wrapped around, is outside |
| Networks.NoPrefixNoEnd | Go/internal/utils/network.go:63-65 | for prefix 0 every address is in the block, so the loop never leaves it |
| Networks.HostsDistinct | Go/internal/utils/network.go:57-73 | no address text is returned twice |
| Networks.DottedReads | Go/internal/utils/network.go:63-65 | read back, an address text gives the four bytes in their order |
| Networks.HostsAre | Go/internal/utils/network.go:57-73 | a text is in the result exactly if it is that of an address of the block, in a block of more than two neither the least nor the greatest; in increasing order |
| Pools.ConnectionPool.Reuse | Go/internal/worker/pool.go:42-61 | the idle session returned last becomes active; with none idle nothing changes |
| Pools.LastReturnedFirst | Go/internal/worker/pool.go:42-105 | a session returned to a pool with room is the one that is reused next |
| Pools.ConnectionPool.MarkActive | Go/internal/worker/pool.go:75-78 | the new session becomes active, nothing else changes |
| Pools.ConnectionPool.MarkInactive | Go/internal/worker/pool.go:55-57 | the session is not active any more, nothing else changes |
| Pools.ConnectionPool.GetConnection | Go/internal/worker/pool.go:34-89 | all its lock sections in a row: an idle session that answers, else a new one if it connects, else none; dead and failed sessions are not tracked any more |
| Pools.AcquiredSteps | Go/internal/worker/pool.go:34-89 | that is what the steps of one user of the transition system amount to when nobody comes in between |
| Pools.ConnectionPool.ReturnConnection | Go/internal/worker/pool.go:92-105 | inactive, and idle if there is room; else closed |
| Pools.ConnectionPool.CloseAll | Go/internal/worker/pool.go:108-118 | exactly the idle sessions are closed, and none is idle any more |
| Pools.ConnectionPool.ForceCloseAll | Go/internal/worker/pool.go:122-149 | exactly the active and the idle sessions are closed, and the pool is empty |
| Pools.RunInvariant | Go/internal/worker/pool.go:34-149 | the pool invariant holds in every state of every interleaving of its lock sections |
| Pools.OnePlace | Go/internal/worker/pool.go:34-149 | a session is in one idle list, once, or in one user's hands; lists keep to the maximum; active sessions are held and not idle |
| Pools.NoLeak | Go/internal/worker/worker.go:78-79 | when the target is left, every session ever opened is closed and none is idle |
| Pools.TrackedUntilForced | Go/internal/worker/pool.go:34-89 | before a timeout the pool knows every live session but one about to be closed after a failed ping |
| Pools.SurvivesForce | Go/internal/worker/pool.go:122-149 | in every reachable state a live session outlives ForceCloseAll exactly if its user is about to close it after a failed ping, or it is held, an earlier ForceCloseAll struck it while active, it was not tracked since and came to life after that |
| Pools.StrayAfterForce | Go/internal/worker/worker.go:90-96 | a run in which a session outlives a closing by force while it is held, and is closed by the next one after it has been returned |
| Pools.CanLeave | Go/internal/worker/worker.go:145-194 | from every reachable state the target can be left, with no session open |
| Snapshots.StreamNdjson | Python/sharehound/core/StreamingOpenGraph.py:176-193 | the line loop writes the specified entries, up to the byte limit |
| Snapshots.RecordLines | Python/sharehound/core/StreamingOpenGraph.py:180-180 | whatever follows the records, and however torn, they come back as whole lines first |
| Snapshots.StreamCut | Python/sharehound/core/StreamingOpenGraph.py:176-193 | reading up to a size taken earlier gives exactly the records there were then, whatever bytes were added since |
| Snapshots.DocumentInjective | Python/sharehound/core/StreamingOpenGraph.py:146-165 | no two different graphs have the same export |
| SnapshotDocuments.DocumentRead | Python/sharehound/core/StreamingOpenGraph.py:146-165 | read back by its lines, a document has the nodes under "nodes" and the edges under "edges", in order, and the source kind before both |
| Snapshots.StoredNode | Python/sharehound/core/StreamingOpenGraph.py:61-74 | stored is the node itself, with the source kind behind its kinds unless it has it or there is none |
| Snapshots.StreamingOpenGraph.AddNode | Python/sharehound/core/StreamingOpenGraph.py:61-74 | true exactly for a new ID; then the log grows by the node with the source kind among its kinds |
| Snapshots.StreamingOpenGraph.AddEdge | Python/sharehound/core/StreamingOpenGraph.py:79-87 | true exactly if both ends are known and the key is new; then the log grows by the edge |
| Snapshots.StreamingOpenGraph.AddEdgeWithoutValidation | Python/sharehound/core/StreamingOpenGraph.py:89-93 | true exactly if the key is new; then the log grows by the edge |
| Snapshots.StreamingOpenGraph.WriteEdge | Python/sharehound/core/StreamingOpenGraph.py:95-103 | key set, counter, file and log stay in step |
| Snapshots.StreamingOpenGraph.ExportToFile | Python/sharehound/core/StreamingOpenGraph.py:120-173 | the document has exactly the records of the moment the lock was held, although others add before and between the reads; so both ends of every validated edge are in it |

## Left out

- SMB, LDAP, Kerberos, DNS and RPC transport, and the Windows-native paths: they are oracles (listing, descriptor, mount, connect, ping).
- Logging, progress display, command line, ZIP output, JSON encoding and credentials: no state the proofs need.
- The Python collector, context and worker: they repeat the Go core. Of the Python code only the disk-backed graph is modelled, without `clear` and `close`; the JSON texts of records and the library's edge key are parameters.
- The totals in `WorkerResults` and the pending counters: sub-counts are added at every level again (`Go/internal/collector/contents.go:364-372`) and `DirectoriesPending` is decremented twice, so no conservation law holds of them. The returned `TraversalCounts` are proved exact instead.
- `MATCHES` (`Go/internal/rules/rule.go:168-178`): what a pattern matches is a parameter. Numerals are kept as written and compared as exact decimals, where the source rounds to 64 bits; of a number beyond 64 bits the low 32 bits count.
- Text beyond ASCII: upper and lower case and white space are those of ASCII (`strings.EqualFold` also folds other letters, so `Comparisons.NumbersEqual` is about ASCII letters), and a character is a byte where lengths are compared with file sizes.
- File and directory names are taken to be non-empty and free of separators, and `filepath.Join` is modelled for such names only; the server's listing is a map, so names in one listing are distinct.
- Timestamps, sizes and other node properties besides ID, kind and one name (`name` of files and directories, `fqdn` of hosts, `displayName` of shares): they are written out and never read back by the core.
- The choice of the domain suffix from the host name (`Go/internal/worker/worker.go:368-374`): the suffix is a parameter.
- The sharing of a context between shares: `hostShareEmitted` is never reset, and the program makes a context per share.
- Endpoint closure of Go checkpoints taken in mid-run: edges are read after nodes without a limit, so a newer edge may be in the file without its node. `Resume.CheckpointCut` claims the targets marked.
- The stop signal: the `break` at `Go/cmd/sharehound/main.go:395` leaves only the `select`, so targets go on being started. In the model a signal is one more save.
- Write errors: replacing the checkpoint file is one step, and encoding it succeeds. A failed save leaves the old file.
- Time stamp, target total and statistics in the checkpoint file: no decision of the resume path depends on them.
- The reconnection loop of `ProcessTarget` beyond its pool discipline, and the filter of share types and names.
- Resume.ResumeEquivalence: takes the work of a target to be a function of the target, so no host timeouts and a server that answers alike; with timeouts two runs differ, and `TimeoutGraphs.KeepsStructure` and `TimeoutGraphs.LosesOnlyIff` say by what.
- OpenGraphs.OpenGraph.GetNodesAndEdges: reads with nobody adding in the meantime; reading while others append is the subject of `Resume`.
- Scans.ProcessTarget: goes through the shares one after the other, and a target that cannot be reached or listed has none; that shares interleave at the lock of the store is the subject of `Ledgers` and `Containment`.
- Scans.Scan: goes through the targets one by one; their interleaving at the store's lock is what `Resume` is for.
- Networks.ExpandCIDR: takes the parsed IPv4 address and prefix. Prefix 0 is excluded because the loop does not end (`Networks.NoPrefixNoEnd`). The only caller lets IPv4 blocks through alone (`Go/internal/targets/loader.go:110-112`); IPv6 blocks are not modelled, `Networks.IncIP` covers their carry.
- Coverage.ExploreExact: needs rules that decide every item by itself (`Coverage.Scoped`); `Coverage.TextuallyScoped` gives a condition on the rule text, `Coverage.SwapIff` says what happens otherwise.
- Contents.CollectContentsAtDepth: without a depth limit the server's directory tree has to be of finite depth, which is the ghost parameter `bound`.
- Contexts.OpenGraphContext.AddPathToGraph: states the emitted records as sets; their order in the log depends on the iteration order of Go's maps.
- Snapshots.StreamCut: takes a newline to be one byte on disk. The files are opened in text mode, so on Windows a newline is two bytes of the size taken but counts as one while reading (`Python/sharehound/core/StreamingOpenGraph.py:139-142`, `:182`), and after N records up to N bytes of later records pass the limit.
- Snapshots.StreamingOpenGraph.ExportToFile: the same, and failing writes are left out.
- TimeoutGraphs.LosesOnlyIff: the sessions of one walk are closed at one moment, after the flag is set; from then on no call of that walk is answered. The Windows-native fallback, which may answer again, is not modelled here.
- Pools.NoLeak: the moment a session connects is one step, so a timeout strikes before or after it, not inside.
