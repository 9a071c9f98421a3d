/** The disk-backed graph of the Python collector, and snapshots of it taken while others go on adding. */
module Snapshots {
  import opened Common
  import opened Texts

  datatype Node = Node(id: string, kinds: seq<string>, properties: string)

  datatype Edge = Edge(start: string, end: string, kind: string, properties: string)

  // ----- records in a file -----

  /** What json.dumps makes of a dictionary: one line in braces. */
  predicate RecordText(s: string) {
    |s| >= 2 && s[0] == '{' && s[|s| - 1] == '}' && forall i :: 0 <= i < |s| ==> s[i] != '\n'
  }

  predicate RecordTexts(texts: seq<string>) {
    forall i :: 0 <= i < |texts| ==> RecordText(texts[i])
  }

  function Render(texts: seq<string>): string {
    if texts == [] then "" else texts[0] + ("\n" + Render(texts[1..]))
  }

  lemma {:induction false} RenderSnoc(texts: seq<string>, text: string)
    ensures Render(texts + [text]) == Render(texts) + (text + "\n")
  {
    if texts == [] {
      assert Render([text][1..]) == "";
      assert texts + [text] == [text];
    } else {
      assert (texts + [text])[1..] == texts[1..] + [text];
      RenderSnoc(texts[1..], text);
    }
  }

  /** The lines of a text, each with its newline; the last may have none. */
  function ReadLines(content: string): (lines: seq<string>)
    ensures forall line :: line in lines ==> line != ""
  {
    if content == "" then []
    else
      var rest := ReadLines(content[1..]);
      if content[0] == '\n' then ["\n"] + rest
      else if rest == [] then [content]
      else
        assert forall line :: line in rest[1..] ==> line in rest;
        [content[..1] + rest[0]] + rest[1..]
  }

  function Terminated(texts: seq<string>): (lines: seq<string>)
    ensures |lines| == |texts|
  {
    if texts == [] then [] else [texts[0] + "\n"] + Terminated(texts[1..])
  }

  lemma {:induction false} FirstLine(text: string, rest: string)
    requires forall i :: 0 <= i < |text| ==> text[i] != '\n'
    ensures ReadLines(text + ("\n" + rest)) == [text + "\n"] + ReadLines(rest)
  {
    var content := text + ("\n" + rest);
    if text == "" {
      assert content[1..] == rest && text + "\n" == "\n";
    } else {
      assert content[1..] == text[1..] + ("\n" + rest);
      FirstLine(text[1..], rest);
      assert content[..1] + (text[1..] + "\n") == text + "\n";
    }
  }

  /** Whatever follows the records, and however it is torn, they come back as whole lines first. */
  lemma {:induction false} RecordLines(texts: seq<string>, tail: string)
    requires RecordTexts(texts)
    ensures ReadLines(Render(texts) + tail) == Terminated(texts) + ReadLines(tail)
  {
    if texts == [] {
      assert Render(texts) + tail == tail;
      assert [] + ReadLines(tail) == ReadLines(tail);
    } else {
      hide ReadLines;
      assert RecordText(texts[0]) && RecordTexts(texts[1..]);
      var rest := Render(texts[1..]) + tail;
      assert Render(texts) + tail == texts[0] + ("\n" + rest);
      FirstLine(texts[0], rest);
      RecordLines(texts[1..], tail);
    }
  }

  // ----- streaming -----

  function Separator(first: bool): string {
    if first then "\n      " else ",\n      "
  }

  /** What is written for the remaining lines. */
  function Streamed(lines: seq<string>, limit: Option<nat>, readSoFar: nat, first: bool): string {
    if lines == [] then ""
    else
      var read := readSoFar + if limit.Some? then |lines[0]| else 0;
      if limit.Some? && read > limit.value then ""
      else
        var line := TrimSpace(lines[0]);
        if line == "" then Streamed(lines[1..], limit, read, first)
        else Separator(first) + line + Streamed(lines[1..], limit, read, false)
  }

  method StreamNdjson(content: string, byteLimit: Option<nat>) returns (written: string)
    ensures written == Streamed(ReadLines(content), byteLimit, 0, true)
  {
    hide TrimSpace, ReadLines, Separator, Streamed;
    written := "";
    var first, readSoFar: nat := true, 0;
    var lines := ReadLines(content);
    ghost var all := Streamed(lines, byteLimit, 0, true);
    assert lines[0..] == lines && written + all == all;
    for i := 0 to |lines|
      invariant written + Streamed(lines[i..], byteLimit, readSoFar, first) == all
    {
      StreamedNext(lines, i, byteLimit, readSoFar, first);
      if byteLimit.Some? {
        readSoFar := readSoFar + |lines[i]|;
        if readSoFar > byteLimit.value {
          assert written + "" == written;
          return;
        }
      }
      var line := TrimSpace(lines[i]);
      if line == "" {
        continue;
      }
      Regroup(written, Separator(first), line, Streamed(lines[i + 1..], byteLimit, readSoFar, false));
      if first {
        written := written + Separator(true);
        first := false;
      } else {
        written := written + Separator(false);
      }
      written := written + line;
    }
    StreamedNone(byteLimit, readSoFar, first);
    assert lines[|lines|..] == [] && written + "" == written;
  }

  lemma StreamedNext(lines: seq<string>, i: nat, limit: Option<nat>, readSoFar: nat, first: bool)
    requires i < |lines|
    ensures Streamed(lines[i..], limit, readSoFar, first) ==
      var read := readSoFar + if limit.Some? then |lines[i]| else 0;
      if limit.Some? && read > limit.value then ""
      else
        var line := TrimSpace(lines[i]);
        if line == "" then Streamed(lines[i + 1..], limit, read, first)
        else Separator(first) + line + Streamed(lines[i + 1..], limit, read, false)
  {
    hide TrimSpace, Separator;
    assert lines[i..][0] == lines[i] && lines[i..][1..] == lines[i + 1..];
  }

  lemma StreamedNone(limit: Option<nat>, readSoFar: nat, first: bool)
    ensures Streamed([], limit, readSoFar, first) == ""
  {
  }

  lemma Regroup(a: string, b: string, c: string, d: string)
    ensures a + (b + c + d) == a + b + c + d
  {
  }

  /** The list entries for these records. */
  function Listing(texts: seq<string>, first: bool): string {
    if texts == [] then ""
    else Separator(first) + texts[0] + Listing(texts[1..], false)
  }

  lemma StripRecord(text: string)
    requires RecordText(text)
    ensures TrimSpace(text + "\n") == text
  {
    var line := text + "\n";
    assert line[0] == '{' && line[..|line| - 1] == text;
  }

  /** Up to the limit the records are written, beyond it nothing is. */
  lemma {:induction false} StreamExact(texts: seq<string>, others: seq<string>, readSoFar: nat, first: bool)
    requires RecordTexts(texts) && forall line :: line in others ==> line != ""
    ensures Streamed(Terminated(texts) + others, Some(readSoFar + |Render(texts)|), readSoFar, first) ==
      Listing(texts, first)
  {
    hide TrimSpace, RecordText, Separator, Streamed;
    var lines, limit := Terminated(texts) + others, readSoFar + |Render(texts)|;
    if texts == [] {
      assert lines == others;
      if others == [] {
        StreamedNone(Some(limit), readSoFar, first);
      } else {
        assert others[0] in others && others[0..] == others;
        StreamedNext(others, 0, Some(limit), readSoFar, first);
      }
    } else {
      var line, rest := texts[0] + "\n", texts[1..];
      assert RecordText(texts[0]) && RecordTexts(rest);
      NotEmpty(texts[0]);
      StripRecord(texts[0]);
      StreamExact(rest, others, readSoFar + |line|, false);
      assert lines[0] == line && lines[1..] == Terminated(rest) + others && lines[0..] == lines;
      StreamedNext(lines, 0, Some(limit), readSoFar, first);
    }
  }

  lemma NotEmpty(text: string)
    requires RecordText(text)
    ensures text != ""
  {
  }

  /** Reading a file that was cut at its size at some moment gives the records it had then, whatever was added since. */
  lemma StreamCut(texts: seq<string>, tail: string)
    requires RecordTexts(texts)
    ensures Streamed(ReadLines(Render(texts) + tail), Some(|Render(texts)|), 0, true) == Listing(texts, true)
  {
    hide ReadLines, Streamed;
    RecordLines(texts, tail);
    StreamExact(texts, ReadLines(tail), 0, true);
  }

  // ----- the exported document -----

  /** `sourceKind` is the source kind as JSON. */
  function Metadata(sourceKind: string): string {
    "  \"metadata\": {\"source_kind\": " + sourceKind + "},\n"
  }

  function Document(metadata: string, nodes: string, edges: string): string {
    "{\n" + metadata + "  \"graph\": {\n" + "    \"nodes\": [" + nodes + "\n    ],\n" +
    "    \"edges\": [" + edges + "\n    ]\n" + "  }\n" + "}\n"
  }

  /** Position of the first newline. */
  predicate FirstNewline(s: string, i: nat) {
    i < |s| && s[i] == '\n' && forall k :: 0 <= k < i ==> s[k] != '\n'
  }

  /** The end of a list is not an entry. */
  lemma EndIsNoEntry(texts: seq<string>, first: bool, end: string, rest: string)
    requires texts != []
    ensures Listing(texts, first) + end != "\n    ]" + rest
  {
    var s, t := Listing(texts, first) + end, "\n    ]" + rest;
    assert first ==> s[5] == ' ' && t[5] == ']';
    assert !first ==> s[0] == ',' && t[0] == '\n';
  }

  lemma FirstEntry(texts: seq<string>, first: bool, end: string)
    requires texts != []
    ensures Listing(texts, first) + end == Separator(first) + (texts[0] + (Listing(texts[1..], false) + end))
  {
    var rest := Listing(texts[1..], false);
    assert Separator(first) + texts[0] + rest + end == Separator(first) + (texts[0] + (rest + end));
  }

  /** The records of a list can be read back, whatever follows the list's end. */
  lemma {:induction false} ListingInjective(a: seq<string>, b: seq<string>, first: bool, rest: string, other: string)
    requires RecordTexts(a) && RecordTexts(b)
    requires Listing(a, first) + ("\n    ]" + rest) == Listing(b, first) + ("\n    ]" + other)
    ensures a == b && rest == other
  {
    hide Listing, Separator, RecordText;
    var end, end' := "\n    ]" + rest, "\n    ]" + other;
    NoEntries(first, end);
    NoEntries(first, end');
    if a == [] && b == [] {
      assert rest == end[6..] && other == end'[6..];
    } else if a == [] {
      EndIsNoEntry(b, first, end', rest);
    } else if b == [] {
      EndIsNoEntry(a, first, end, other);
    } else {
      var as', bs := a[1..], b[1..];
      FirstEntry(a, first, end);
      FirstEntry(b, first, end');
      SameTail(Separator(first), a[0] + (Listing(as', false) + end), b[0] + (Listing(bs, false) + end'));
      assert RecordText(a[0]) && RecordText(b[0]) && RecordTexts(as') && RecordTexts(bs);
      TextThenRest(a[0], as', end, b[0], bs, end');
      ListingInjective(as', bs, false, rest, other);
      assert a == [a[0]] + as' && b == [b[0]] + bs;
    }
  }

  lemma NoEntries(first: bool, end: string)
    ensures Listing([], first) + end == end
  {
  }

  lemma SameTail(head: string, s: string, t: string)
    requires head + s == head + t
    ensures s == t
  {
    assert s == (head + s)[|head|..] && t == (head + t)[|head|..];
  }

  /** What follows a record begins with a newline, or with a comma and a newline. */
  lemma AfterText(texts: seq<string>, end: string)
    requires |end| > 1 && end[0] == '\n' && end[1] == ' '
    ensures var s := Listing(texts, false) + end;
      |s| > 1 && (if texts == [] then s[0] == '\n' else s[0] == ',' && s[1] == '\n')
  {
  }

  /** A record ends at its last brace before the first newline. */
  lemma TextThenRest(a: string, as': seq<string>, end: string, b: string, bs: seq<string>, end': string)
    requires RecordText(a) && RecordText(b) && |end| > 1 && |end'| > 1
    requires end[0] == '\n' && end[1] == ' ' && end'[0] == '\n' && end'[1] == ' '
    requires a + (Listing(as', false) + end) == b + (Listing(bs, false) + end')
    ensures a == b && Listing(as', false) + end == Listing(bs, false) + end'
  {
    hide Listing;
    AfterText(as', end);
    AfterText(bs, end');
    var r, q := Listing(as', false) + end, Listing(bs, false) + end';
    var s := a + r;
    var i, j := if as' == [] then |a| else |a| + 1, if bs == [] then |b| else |b| + 1;
    assert s[i] == (if as' == [] then r[0] else r[1]) == '\n' && s[j] == (if bs == [] then q[0] else q[1]) == '\n';
    assert FirstNewline(s, i) by {
      assert forall k :: 0 <= k < |a| ==> s[k] == a[k];
      assert as' != [] ==> s[|a|] == r[0];
    }
    assert FirstNewline(s, j) by {
      assert forall k :: 0 <= k < |b| ==> s[k] == b[k];
      assert bs != [] ==> s[|b|] == q[0];
    }
    assert i == j;
    assert a[|a| - 1] == s[|a| - 1] && b[|b| - 1] == s[|b| - 1];
    assert |a| == |b| by {
      assert as' != [] ==> s[|a|] == ',';
      assert bs != [] ==> s[|b|] == ',';
    }
    assert a == s[..|a|] == b && r == s[|a|..] == q;
  }

  /** No two different graphs have the same export. */
  lemma DocumentInjective(metadata: string, nodes: seq<string>, edges: seq<string>, nodes': seq<string>,
                          edges': seq<string>)
    requires RecordTexts(nodes) && RecordTexts(edges) && RecordTexts(nodes') && RecordTexts(edges')
    requires Document(metadata, Listing(nodes, true), Listing(edges, true))
      == Document(metadata, Listing(nodes', true), Listing(edges', true))
    ensures nodes == nodes' && edges == edges'
  {
    hide Listing;
    var head := "{\n" + metadata + "  \"graph\": {\n" + "    \"nodes\": [";
    var middle, foot := ",\n" + "    \"edges\": [", "\n" + "  }\n" + "}\n";
    var n, e, n', e' := Listing(nodes, true), Listing(edges, true), Listing(nodes', true), Listing(edges', true);
    var rest, rest' := middle + (e + ("\n    ]" + foot)), middle + (e' + ("\n    ]" + foot));
    DocumentParts(metadata, n, e);
    DocumentParts(metadata, n', e');
    SameTail(head, n + ("\n    ]" + rest), n' + ("\n    ]" + rest'));
    ListingInjective(nodes, nodes', true, rest, rest');
    SameTail(middle, e + ("\n    ]" + foot), e' + ("\n    ]" + foot));
    ListingInjective(edges, edges', true, foot, foot);
  }

  lemma DocumentParts(metadata: string, nodes: string, edges: string)
    ensures Document(metadata, nodes, edges) ==
      ("{\n" + metadata + "  \"graph\": {\n" + "    \"nodes\": [") +
      (nodes + ("\n    ]" + ((",\n" + "    \"edges\": [") + (edges + ("\n    ]" + ("\n" + "  }\n" + "}\n"))))))
  {
  }

  // ----- the graph -----

  /** JSON texts of nodes, edges and kinds, and the key that tells edges apart. */
  datatype Format = Format(node: Node -> string, edge: Edge -> string, kind: string -> string, key: Edge -> string)
  {
    ghost predicate Good() {
      (forall n :: RecordText(node(n))) && (forall e :: RecordText(edge(e)))
    }

    function NodeTexts(nodes: seq<Node>): (texts: seq<string>) {
      seq(|nodes|, i requires 0 <= i < |nodes| => node(nodes[i]))
    }

    function EdgeTexts(edges: seq<Edge>): (texts: seq<string>) {
      seq(|edges|, i requires 0 <= i < |edges| => edge(edges[i]))
    }

    function Keys(edges: seq<Edge>): seq<string> {
      seq(|edges|, i requires 0 <= i < |edges| => key(edges[i]))
    }
  }

  function Ids(nodes: seq<Node>): seq<string> {
    seq(|nodes|, i requires 0 <= i < |nodes| => nodes[i].id)
  }

  /** Index and file hold these nodes, each ID once. */
  predicate NodesHeld(format: Format, log: seq<Node>, ids: set<string>, file: string) {
    file == Render(format.NodeTexts(log)) && Distinct(Ids(log)) && ids == Elements(Ids(log))
  }

  /** Index and file hold these edges, each key once. */
  predicate EdgesHeld(format: Format, log: seq<Edge>, keys: set<string>, file: string) {
    file == Render(format.EdgeTexts(log)) && Distinct(format.Keys(log)) && keys == Elements(format.Keys(log))
  }

  lemma OneMoreNode(format: Format, log: seq<Node>, ids: set<string>, file: string, node: Node)
    requires format.Good() && NodesHeld(format, log, ids, file) && node.id !in ids
    ensures NodesHeld(format, log + [node], ids + {node.id}, file + (format.node(node) + "\n"))
  {
    hide Render, RecordText, Distinct;
    DistinctMore(Ids(log), node.id);
    RenderSnoc(format.NodeTexts(log), format.node(node));
    assert format.NodeTexts(log + [node]) == format.NodeTexts(log) + [format.node(node)];
    assert Ids(log + [node]) == Ids(log) + [node.id];
  }

  lemma OneMoreEdge(format: Format, log: seq<Edge>, keys: set<string>, file: string, edge: Edge)
    requires format.Good() && EdgesHeld(format, log, keys, file) && format.key(edge) !in keys
    ensures EdgesHeld(format, log + [edge], keys + {format.key(edge)}, file + (format.edge(edge) + "\n"))
  {
    hide Render, RecordText, Distinct;
    DistinctMore(format.Keys(log), format.key(edge));
    RenderSnoc(format.EdgeTexts(log), format.edge(edge));
    assert format.EdgeTexts(log + [edge]) == format.EdgeTexts(log) + [format.edge(edge)];
    assert format.Keys(log + [edge]) == format.Keys(log) + [format.key(edge)];
  }

  /** What another thread may offer. */
  datatype Offer = OfferNode(node: Node) | OfferEdge(edge: Edge) | OfferEdgeUnchecked(edge: Edge)

  class StreamingOpenGraph {
    const sourceKind: string
    const format: Format
    var nodeIds: set<string>
    var edgeKeys: set<string>
    var edgeCount: nat
    // everything written, and how much of it has left the write buffers
    var nodeFile: string
    var edgeFile: string
    var nodesOnDisk: nat
    var edgesOnDisk: nat
    var closed: bool
    ghost var nodeLog: seq<Node>
    ghost var edgeLog: seq<Edge>
    ghost var checked: set<Edge>

    ghost predicate Valid()
      reads this
    {
      && format.Good()
      && NodesHeld(format, nodeLog, nodeIds, nodeFile) && nodesOnDisk <= |nodeFile|
      && EdgesHeld(format, edgeLog, edgeKeys, edgeFile) && edgesOnDisk <= |edgeFile| && edgeCount == |edgeLog|
      && (forall e :: e in checked ==> e in edgeLog && e.start in nodeIds && e.end in nodeIds)
    }

    /** Only additions. */
    twostate predicate Grows()
      reads this
    {
      && old(nodeFile) <= nodeFile && old(edgeFile) <= edgeFile && closed == old(closed)
      && old(nodesOnDisk) <= nodesOnDisk && old(edgesOnDisk) <= edgesOnDisk
    }

    constructor (sourceKind: string, format: Format)
      requires format.Good()
      ensures Valid() && nodeLog == [] && edgeLog == [] && checked == {} && !closed
      ensures this.sourceKind == sourceKind && this.format == format
    {
      this.sourceKind, this.format := sourceKind, format;
      nodeIds, edgeKeys, edgeCount := {}, {}, 0;
      nodeFile, edgeFile, nodesOnDisk, edgesOnDisk, closed := "", "", 0, 0, false;
      nodeLog, edgeLog, checked := [], [], {};
    }

    /** The node as it is stored: with the source kind among its kinds. */
    function Stored(node: Node): Node {
      if sourceKind != "" && sourceKind !in node.kinds then node.(kinds := node.kinds + [sourceKind]) else node
    }

    method AddNode(node: Node) returns (added: bool)
      requires Valid()
      modifies this
      ensures Valid() && Grows()
      ensures added == (node.id !in old(nodeIds))
      ensures nodeLog == if added then old(nodeLog) + [Stored(node)] else old(nodeLog)
      ensures edgeLog == old(edgeLog) && checked == old(checked)
    {
      if node.id in nodeIds {
        return false;
      }
      hide NodesHeld, EdgesHeld;
      var stored := Stored(node);
      OneMoreNode(format, nodeLog, nodeIds, nodeFile, stored);
      nodeIds := nodeIds + {node.id};
      nodeFile := nodeFile + (format.node(stored) + "\n");
      nodeLog := nodeLog + [stored];
      // the write buffer may spill any part of it, torn records included
      var spilled :| nodesOnDisk <= spilled <= |nodeFile|;
      nodesOnDisk := spilled;
      added := true;
    }

    method AddEdge(edge: Edge) returns (added: bool)
      requires Valid()
      modifies this
      ensures Valid() && Grows()
      ensures added == (edge.start in old(nodeIds) && edge.end in old(nodeIds) && format.key(edge) !in old(edgeKeys))
      ensures edgeLog == if added then old(edgeLog) + [edge] else old(edgeLog)
      ensures checked == if added then old(checked) + {edge} else old(checked)
      ensures nodeLog == old(nodeLog)
    {
      if edge.start !in nodeIds {
        return false;
      }
      if edge.end !in nodeIds {
        return false;
      }
      added := WriteEdge(edge);
      if added {
        checked := checked + {edge};
      }
    }

    method AddEdgeWithoutValidation(edge: Edge) returns (added: bool)
      requires Valid()
      modifies this
      ensures Valid() && Grows()
      ensures added == (format.key(edge) !in old(edgeKeys))
      ensures edgeLog == if added then old(edgeLog) + [edge] else old(edgeLog)
      ensures nodeLog == old(nodeLog) && checked == old(checked)
    {
      added := WriteEdge(edge);
    }

    method WriteEdge(edge: Edge) returns (added: bool)
      requires Valid()
      modifies this`edgeKeys, this`edgeCount, this`edgeFile, this`edgesOnDisk, this`edgeLog
      ensures Valid() && Grows()
      ensures added == (format.key(edge) !in old(edgeKeys))
      ensures edgeLog == if added then old(edgeLog) + [edge] else old(edgeLog)
    {
      var key := format.key(edge);
      if key in edgeKeys {
        return false;
      }
      hide NodesHeld, EdgesHeld;
      OneMoreEdge(format, edgeLog, edgeKeys, edgeFile, edge);
      edgeKeys := edgeKeys + {key};
      edgeFile := edgeFile + (format.edge(edge) + "\n");
      edgeLog := edgeLog + [edge];
      var spilled :| edgesOnDisk <= spilled <= |edgeFile|;
      edgesOnDisk := spilled;
      edgeCount := edgeCount + 1;
      added := true;
    }

    /** What other threads do in the meantime. */
    method Interfere(offers: seq<Offer>)
      requires Valid()
      modifies this
      ensures Valid() && Grows()
    {
      for i := 0 to |offers|
        invariant Valid() && Grows()
      {
        match offers[i]
        case OfferNode(node) => var _ := AddNode(node);
        case OfferEdge(edge) => var _ := AddEdge(edge);
        case OfferEdgeUnchecked(edge) => var _ := AddEdgeWithoutValidation(edge);
      }
    }

    /**
      * A snapshot, with others adding before the nodes are read and again before the edges are read, and with any
      * torn record at the end of the files: it has exactly the records there were when it began. So both ends of
      * every edge that was added with validation are among its nodes.
      */
    method ExportToFile(includeMetadata: bool, before: seq<Offer>, between: seq<Offer>)
      returns (document: Option<string>)
      requires Valid()
      modifies this
      ensures Valid() && Grows()
      ensures document == if old(closed) then None else Some(Document(
        if includeMetadata && sourceKind != "" then Metadata(format.kind(sourceKind)) else "",
        Listing(format.NodeTexts(old(nodeLog)), true), Listing(format.EdgeTexts(old(edgeLog)), true)))
      ensures forall e :: e in old(checked) ==>
        e in old(edgeLog) && e.start in Ids(old(nodeLog)) && e.end in Ids(old(nodeLog))
    {
      if closed {
        return None;
      }
      hide Listing, Render, Document, Metadata, RecordTexts;
      nodesOnDisk, edgesOnDisk := |nodeFile|, |edgeFile|;
      var nodeLimit, edgeLimit := nodesOnDisk, edgesOnDisk;
      ghost var nodeTexts, edgeTexts := format.NodeTexts(nodeLog), format.EdgeTexts(edgeLog);
      TextsAreRecords(format, nodeLog, edgeLog);
      var metadata := if includeMetadata && sourceKind != "" then Metadata(format.kind(sourceKind)) else "";
      Interfere(before);
      var nodes := StreamFile(nodeFile, nodesOnDisk, nodeLimit, nodeTexts);
      Interfere(between);
      var edges := StreamFile(edgeFile, edgesOnDisk, edgeLimit, edgeTexts);
      document := Some(Document(metadata, nodes, edges));
    }
  }

  lemma DistinctMore(s: seq<string>, x: string)
    requires Distinct(s) && x !in Elements(s)
    ensures Distinct(s + [x]) && Elements(s + [x]) == Elements(s) + {x}
  {
  }

  lemma TextsAreRecords(format: Format, nodes: seq<Node>, edges: seq<Edge>)
    requires format.Good()
    ensures RecordTexts(format.NodeTexts(nodes)) && RecordTexts(format.EdgeTexts(edges))
  {
    hide RecordText;
  }

  /** Reads the part of a grown file that is on disk, up to a limit taken when it held these records. */
  method StreamFile(file: string, onDisk: nat, limit: nat, ghost texts: seq<string>) returns (written: string)
    requires RecordTexts(texts) && Render(texts) <= file && limit == |Render(texts)| <= onDisk <= |file|
    ensures written == Listing(texts, true)
  {
    hide Streamed, ReadLines, Listing, Render;
    written := StreamNdjson(file[..onDisk], Some(limit));
    StreamCut(texts, file[limit..onDisk]);
    assert Render(texts) == file[..limit];
    assert file[..onDisk] == Render(texts) + file[limit..onDisk];
  }

  /** What is stored of a node: itself, and the source kind behind its own kinds unless it has it or there is none. */
  lemma StoredNode(graph: StreamingOpenGraph, node: Node)
    ensures var stored := graph.Stored(node);
      && stored.id == node.id && stored.properties == node.properties && node.kinds <= stored.kinds
      && (graph.sourceKind != "" ==> graph.sourceKind in stored.kinds)
      && (forall kind :: kind in stored.kinds && kind !in node.kinds ==> kind == graph.sourceKind != "")
      && |stored.kinds| <= |node.kinds| + 1 && (Distinct(node.kinds) ==> Distinct(stored.kinds))
  {
    if Distinct(node.kinds) && graph.sourceKind !in node.kinds {
      assert graph.sourceKind !in Elements(node.kinds);
      DistinctMore(node.kinds, graph.sourceKind);
    }
  }
}
