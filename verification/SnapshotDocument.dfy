/** Reading an exported snapshot back, line by line. */
module SnapshotDocuments {
  import opened Common
  import opened Texts
  import opened Snapshots

  // ----- a reader -----

  /** The text of an entry: without indentation, newline and the comma behind it. */
  function Entry(line: string): string {
    var t := TrimSpace(line);
    if t != "" && t[|t| - 1] == ',' then t[..|t| - 1] else t
  }

  /** The entries up to the line that closes the list. */
  function Entries(lines: seq<string>): seq<string> {
    if lines == [] || "    ]" <= lines[0] then [] else [Entry(lines[0])] + Entries(lines[1..])
  }

  /** The entries of the list under this name. */
  function Section(lines: seq<string>, name: string): seq<string> {
    if lines == [] then []
    else if lines[0] == "    \"" + name + "\": [\n" then Entries(lines[1..])
    else Section(lines[1..], name)
  }

  // ----- lines of a list -----

  lemma OneMoreLine(text: string, rest: string)
    requires forall i :: 0 <= i < |text| ==> text[i] != '\n'
    ensures ReadLines(text + "\n" + rest) == [text + "\n"] + ReadLines(rest)
  {
    FirstLine(text, rest);
    assert text + "\n" + rest == text + ("\n" + rest);
  }

  function EntryLine(text: string, more: bool): string {
    "      " + text + (if more then "," else "")
  }

  lemma EntryIs(text: string, more: bool)
    requires RecordText(text)
    ensures Entry(EntryLine(text, more) + "\n") == text
    ensures forall i :: 0 <= i < |EntryLine(text, more)| ==> EntryLine(text, more)[i] != '\n'
  {
    var inner := text + (if more then "," else "");
    var line := EntryLine(text, more);
    assert line + "\n" == ((((((" " + (" " + (" " + (" " + (" " + (" " + (inner + "\n"))))))))))));
    hide TrimSpace;
    StripNewline(inner);
    StripSpace(inner + "\n");
    StripSpace(" " + (inner + "\n"));
    StripSpace(" " + (" " + (inner + "\n")));
    StripSpace(" " + (" " + (" " + (inner + "\n"))));
    StripSpace(" " + (" " + (" " + (" " + (inner + "\n")))));
    StripSpace(" " + (" " + (" " + (" " + (" " + (inner + "\n"))))));
    assert (text + ",")[..|text|] == text;
    assert forall i :: 0 <= i < |line| ==> line[i] == if i < 6 then ' ' else if i < 6 + |text| then text[i - 6]
      else ',';
  }

  lemma StripSpace(line: string)
    ensures TrimSpace(" " + line) == TrimSpace(line)
  {
    assert (" " + line)[1..] == line;
  }

  lemma StripNewline(text: string)
    requires text != "" && Trimmed(text)
    ensures TrimSpace(text + "\n") == text
  {
    assert (text + "\n")[0] == text[0] && (text + "\n")[..|text|] == text;
  }

  /** The entries, line by line, and what follows the list. */
  function Body(texts: seq<string>, close: string): string {
    if texts == [] then close else EntryLine(texts[0], |texts| > 1) + "\n" + Body(texts[1..], close)
  }

  lemma {:induction false} ListingBody(texts: seq<string>, first: bool, close: string)
    ensures Listing(texts, first) + ("\n" + close)
      == (if texts == [] || first then "" else ",") + "\n" + Body(texts, close)
  {
    hide Listing, Separator;
    if texts == [] {
      NoEntries(first, "\n" + close);
      assert "" + "\n" + close == "\n" + close;
    } else {
      var rest := texts[1..];
      ListingBody(rest, false, close);
      FirstEntry(texts, first, "\n" + close);
      SeparatorIs(first);
      Regrouped(if first then "" else ",", texts[0], if rest == [] then "" else ",", Body(rest, close));
    }
  }

  lemma SeparatorIs(first: bool)
    ensures Separator(first) == (if first then "" else ",") + "\n      "
  {
  }

  lemma Regrouped(before: string, text: string, after: string, rest: string)
    ensures before + "\n      " + (text + (after + "\n" + rest)) ==
      before + "\n" + ("      " + text + after + "\n" + rest)
  {
  }

  ghost predicate Closing(close: string) {
    var lines := ReadLines(close);
    lines != [] && "    ]" <= lines[0]
  }

  lemma {:induction false} BodyRead(texts: seq<string>, close: string, name: string)
    requires RecordTexts(texts) && Closing(close)
    ensures Entries(ReadLines(Body(texts, close))) == texts
    ensures Section(ReadLines(Body(texts, close)), name) == Section(ReadLines(close), name)
  {
    hide ReadLines, Entry, RecordText;
    if texts != [] {
      hide EntryLine;
      var line, rest := EntryLine(texts[0], |texts| > 1), Body(texts[1..], close);
      assert RecordText(texts[0]) && RecordTexts(texts[1..]);
      EntryIs(texts[0], |texts| > 1);
      OneMoreLine(line, rest);
      BodyRead(texts[1..], close, name);
      EntryLineIsNoLabel(texts[0], |texts| > 1, name);
      var lines := [line + "\n"] + ReadLines(rest);
      assert lines[1..] == ReadLines(rest);
      assert texts == [texts[0]] + texts[1..];
    }
  }

  lemma EntryLineIsNoLabel(text: string, more: bool, name: string)
    ensures var line := EntryLine(text, more) + "\n"; !("    ]" <= line) && line != "    \"" + name + "\": [\n"
  {
    var line := EntryLine(text, more) + "\n";
    assert line[4] == ' ' && ("    \"" + name + "\": [\n")[4] == '"' && "    ]"[4] == ']';
  }

  /** A labelled list, and what follows it. */
  lemma LabelledList(name: string, texts: seq<string>, close: string, wanted: string)
    requires RecordTexts(texts) && Closing(close) && forall i :: 0 <= i < |name| ==> name[i] != '\n'
    ensures var head := "    \"" + name + "\": [";
      Section(ReadLines(head + (Listing(texts, true) + ("\n" + close))), wanted)
        == if name == wanted then texts else Section(ReadLines(close), wanted)
  {
    hide ReadLines, Entries, Listing, RecordText;
    var head, body := "    \"" + name + "\": [", Body(texts, close);
    ListingBody(texts, true, close);
    assert head + (Listing(texts, true) + ("\n" + close)) == head + "\n" + body;
    OneMoreLine(head, body);
    BodyRead(texts, close, wanted);
    var lines := [head + "\n"] + ReadLines(body);
    assert lines[1..] == ReadLines(body);
    SameLabel(name, wanted);
  }

  lemma SameLabel(name: string, wanted: string)
    ensures "    \"" + name + "\": [" + "\n" == "    \"" + wanted + "\": [\n" <==> name == wanted
  {
    var s, t := "    \"" + name + "\": [" + "\n", "    \"" + wanted + "\": [\n";
    assert s[5..|s| - 5] == name && t[5..|t| - 5] == wanted;
  }

  // ----- the document -----

  /** What stands between the lists, and behind them. */
  lemma Closings(more: string)
    ensures Closing("    ],\n" + more) && Closing("    ]\n" + more)
    ensures Section(ReadLines("    ],\n" + more), "edges") == Section(ReadLines(more), "edges")
  {
    hide ReadLines;
    OneMoreLine("    ],", more);
    OneMoreLine("    ]", more);
    assert "    ]," + "\n" + more == "    ],\n" + more && "    ]" + "\n" + more == "    ]\n" + more;
    var lines := ["    ],\n"] + ReadLines(more);
    assert lines[1..] == ReadLines(more);
    assert "    ],\n"[4] == ']' && ("    \"" + "edges" + "\": [\n")[4] == '"';
  }

  lemma SkipLine(text: string, rest: string, name: string)
    requires forall i :: 0 <= i < |text| ==> text[i] != '\n'
    requires |text| < 4 || text[2] != ' '
    ensures Section(ReadLines(text + "\n" + rest), name) == Section(ReadLines(rest), name)
  {
    hide ReadLines;
    OneMoreLine(text, rest);
    var lines := [text + "\n"] + ReadLines(rest);
    assert lines[1..] == ReadLines(rest);
    var wanted := "    \"" + name + "\": [\n";
    assert |wanted| > 5 && wanted[2] == ' ';
  }

  function MetadataOf(kind: Option<string>): string {
    match kind
    case None => ""
    case Some(text) => Metadata(text)
  }

  function GraphText(nodes: seq<string>, edges: seq<string>): string {
    "    \"nodes\": [" + (Listing(nodes, true) + ("\n" + ("    ],\n" + EdgesText(edges))))
  }

  function EdgesText(edges: seq<string>): string {
    "    \"edges\": [" + (Listing(edges, true) + ("\n" + ("    ]\n" + "  }\n}\n")))
  }

  lemma DocumentShape(metadata: string, nodes: seq<string>, edges: seq<string>)
    ensures Document(metadata, Listing(nodes, true), Listing(edges, true))
      == "{" + "\n" + (metadata + ("  \"graph\": {" + "\n" + GraphText(nodes, edges)))
  {
    hide Listing;
    var n, e := Listing(nodes, true), Listing(edges, true);
    DocumentParts(metadata, n, e);
    var foot := "  }\n}\n";
    assert "\n    ]" + ("\n" + "  }\n" + "}\n") == "\n" + ("    ]\n" + foot);
    assert (",\n" + "    \"edges\": [") + (e + ("\n" + ("    ]\n" + foot))) == ",\n" + EdgesText(edges);
    assert "\n    ]" + (",\n" + EdgesText(edges)) == "\n" + ("    ],\n" + EdgesText(edges));
    assert "{\n" + metadata + "  \"graph\": {\n" + "    \"nodes\": [" ==
      "{" + "\n" + (metadata + ("  \"graph\": {" + "\n" + "    \"nodes\": ["));
  }

  /**
    * An export is read back by its lines: the nodes stand in the list under "nodes" and the edges in the list under
    * "edges", in order and unchanged, and the source kind stands in a line of its own before both.
    */
  lemma DocumentRead(kind: Option<string>, nodes: seq<string>, edges: seq<string>)
    requires RecordTexts(nodes) && RecordTexts(edges)
    requires kind.Some? ==> forall i :: 0 <= i < |kind.value| ==> kind.value[i] != '\n'
    ensures var lines := ReadLines(Document(MetadataOf(kind), Listing(nodes, true), Listing(edges, true)));
      && Section(lines, "nodes") == nodes && Section(lines, "edges") == edges
      && (kind.Some? ==> |lines| > 1 && lines[1] == "  \"metadata\": {\"source_kind\": " + kind.value + "},\n")
  {
    hide ReadLines, Listing, RecordText, Section, Document, GraphText;
    var graph := GraphText(nodes, edges);
    DocumentShape(MetadataOf(kind), nodes, edges);
    GraphRead(nodes, edges);
    var rest := "  \"graph\": {" + "\n" + graph;
    SkipBoth("  \"graph\": {", graph);
    if kind.None? {
      SkipBoth("{", rest);
      assert "" + rest == rest;
    } else {
      var line := "  \"metadata\": {\"source_kind\": " + kind.value + "}" + ",";
      assert Metadata(kind.value) + rest == line + "\n" + rest;
      assert line[2] == '"';
      SkipBoth(line, rest);
      SkipBoth("{", line + "\n" + rest);
      OneMoreLine("{", line + "\n" + rest);
      OneMoreLine(line, rest);
    }
  }

  lemma SkipBoth(text: string, rest: string)
    requires forall i :: 0 <= i < |text| ==> text[i] != '\n'
    requires |text| < 4 || text[2] != ' '
    ensures Section(ReadLines(text + "\n" + rest), "nodes") == Section(ReadLines(rest), "nodes")
    ensures Section(ReadLines(text + "\n" + rest), "edges") == Section(ReadLines(rest), "edges")
  {
    hide ReadLines, Section;
    SkipLine(text, rest, "nodes");
    SkipLine(text, rest, "edges");
  }

  lemma GraphRead(nodes: seq<string>, edges: seq<string>)
    requires RecordTexts(nodes) && RecordTexts(edges)
    ensures Section(ReadLines(GraphText(nodes, edges)), "nodes") == nodes
    ensures Section(ReadLines(GraphText(nodes, edges)), "edges") == edges
  {
    hide ReadLines, Listing, RecordText, Section;
    Closings(EdgesText(edges));
    Closings("  }\n}\n");
    LabelledList("nodes", nodes, "    ],\n" + EdgesText(edges), "nodes");
    LabelledList("nodes", nodes, "    ],\n" + EdgesText(edges), "edges");
    LabelledList("edges", edges, "    ]\n" + "  }\n}\n", "edges");
    assert "    \"" + "nodes" + "\": [" == "    \"nodes\": [";
    assert "    \"" + "edges" + "\": [" == "    \"edges\": [";
  }
}
