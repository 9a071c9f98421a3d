/** ShareQL rule lines and rule files. */
module ShareQLLines {
  import opened Texts
  import opened Splitters
  import opened Rules
  import opened ShareQL
  import opened ShareQLPrinting
  import opened ShareQLValues
  import opened ShareQLRoundTrip

  // ----- parsing -----

  function ParseLine(line: string): Parsed<Rule> {
    var t := TrimSpace(line);
    var upper := Upper(t);
    if "DEFAULT:" <= upper || "DEFAULT :" <= upper then
      var behavior := TrimSpace(Upper(t[Index(t, ":") + 1..]));
      if behavior == "ALLOW" then Done(Default(true)) else if behavior == "DENY" then Done(Default(false)) else Error
    else if "ALLOW" <= upper then ParseScope(true, TrimSpace(DropFirst(t, 5)))
    else if "DENY" <= upper then ParseScope(false, TrimSpace(DropFirst(t, 4)))
    else Error
  }

  function DropFirst(s: string, n: nat): string {
    if n <= |s| then s[n..] else ""
  }

  function ParseScope(allow: bool, remaining: string): Parsed<Rule> {
    if "EXPLORATION" <= Upper(remaining) then ParseIf(allow, Exploration, TrimSpace(DropFirst(remaining, 11)))
    else if "PROCESSING" <= Upper(remaining) then ParseIf(allow, Processing, TrimSpace(DropFirst(remaining, 10)))
    else ParseIf(allow, All, remaining)
  }

  function ParseIf(allow: bool, scope: Scope, remaining: string): Parsed<Rule> {
    if "IF " <= Upper(remaining) then
      match ParseCondition(TrimSpace(DropFirst(remaining, 3)))
      case Done(condition) => Done(Rule(allow, scope, condition))
      case Error => Error
      case Panic => Panic
    else Done(Rule(allow, scope, AlwaysTrue))
  }

  /** The rules read, and the numbers of the lines with errors. */
  datatype Report = Report(rules: seq<Rule>, errors: seq<nat>)

  predicate Skipped(line: string) {
    line == "" || "#" <= line || "//" <= line
  }

  /** What the remaining lines add, after `n` lines. */
  function ParseLines(lines: seq<string>, n: nat): Parsed<Report> {
    if lines == [] then Done(Report([], []))
    else
      var line, rest := TrimSpace(lines[0]), ParseLines(lines[1..], n + 1);
      if Skipped(line) then rest
      else
        match ParseLine(line)
        case Panic => Panic
        case Error => After(Report([], [n + 1]), rest)
        case Done(rule) => After(Report([rule], []), rest)
  }

  function After(first: Report, rest: Parsed<Report>): Parsed<Report> {
    match rest
    case Done(report) => Done(Report(first.rules + report.rules, first.errors + report.errors))
    case Error => Error
    case Panic => Panic
  }

  /** The pieces between newlines. */
  function Lines(input: string): (lines: seq<string>)
    ensures lines != []
  {
    if input == "" then [""]
    else if input[0] == '\n' then [""] + Lines(input[1..])
    else Prepend(input[..1], Lines(input[1..]))
  }

  method Parse(input: string) returns (r: Parsed<Report>)
    ensures r == ParseLines(Lines(input), 0)
  {
    hide ParseLine, Lines, ParseLines, TrimSpace;
    var rules: seq<Rule> := [];
    var errors: seq<nat> := [];
    var lines := Lines(input);
    assert lines[0..] == lines;
    AfterNothing(ParseLines(lines, 0));
    for i := 0 to |lines|
      invariant After(Report(rules, errors), ParseLines(lines[i..], i)) == ParseLines(lines, 0)
    {
      var line := TrimSpace(lines[i]);
      ghost var done, rest := Report(rules, errors), ParseLines(lines[i + 1..], i + 1);
      assert lines[i..][0] == lines[i] && lines[i..][1..] == lines[i + 1..];
      FirstLine(lines[i..], i);
      if line == "" || "#" <= line || "//" <= line {
        continue;
      }
      match ParseLine(line) {
        case Panic =>
          return Panic;
        case Error =>
          AfterTwice(done, Report([], [i + 1]), rest);
          assert rules + [] == rules;
          errors := errors + [i + 1];
        case Done(rule) =>
          AfterTwice(done, Report([rule], []), rest);
          assert errors + [] == errors;
          rules := rules + [rule];
      }
    }
    assert lines[|lines|..] == [];
    NoLines(|lines|);
    r := Done(Report(rules, errors));
    assert rules + [] == rules && errors + [] == errors;
  }

  lemma FirstLine(lines: seq<string>, n: nat)
    requires lines != []
    ensures ParseLines(lines, n) ==
      var line, rest := TrimSpace(lines[0]), ParseLines(lines[1..], n + 1);
      if Skipped(line) then rest
      else
        match ParseLine(line)
        case Panic => Panic
        case Error => After(Report([], [n + 1]), rest)
        case Done(rule) => After(Report([rule], []), rest)
  {
    hide ParseLine, TrimSpace, Skipped, After;
  }

  lemma NoLines(n: nat)
    ensures ParseLines([], n) == Done(Report([], []))
  {
  }

  lemma AfterNothing(rest: Parsed<Report>)
    ensures After(Report([], []), rest) == rest
  {
    if rest.Done? {
      assert [] + rest.value.rules == rest.value.rules && [] + rest.value.errors == rest.value.errors;
    }
  }

  lemma AfterTwice(first: Report, second: Report, rest: Parsed<Report>)
    ensures After(first, After(second, rest)) ==
      After(Report(first.rules + second.rules, first.errors + second.errors), rest)
  {
    if rest.Done? {
      assert first.rules + (second.rules + rest.value.rules) == first.rules + second.rules + rest.value.rules;
      assert first.errors + (second.errors + rest.value.errors) == first.errors + second.errors + rest.value.errors;
    }
  }

  // ----- what a report says -----

  /** A report of what follows another. */
  function Then(first: Parsed<Report>, second: Parsed<Report>): Parsed<Report> {
    match first
    case Done(report) => After(report, second)
    case Error => Error
    case Panic => Panic
  }

  lemma AfterThen(first: Report, second: Parsed<Report>, third: Parsed<Report>)
    ensures After(first, Then(second, third)) == Then(After(first, second), third)
  {
    if second.Done? { AfterTwice(first, second.value, third); }
  }

  /** The lines of a file are judged one by one. */
  lemma {:induction false} LinesConcat(a: seq<string>, b: seq<string>, n: nat)
    ensures ParseLines(a + b, n) == Then(ParseLines(a, n), ParseLines(b, n + |a|))
  {
    hide ParseLine, TrimSpace, Skipped, ParseLines, Then, After;
    if a == [] {
      NoLines(n);
      assert a + b == b;
      ThenNothing(ParseLines(b, n));
    } else {
      assert (a + b)[1..] == a[1..] + b;
      LinesConcat(a[1..], b, n + 1);
      FirstLine(a, n);
      FirstLine(a + b, n);
      AfterThen(Report([], [n + 1]), ParseLines(a[1..], n + 1), ParseLines(b, n + |a|));
      var parsed := ParseLine(TrimSpace(a[0]));
      if parsed.Done? {
        AfterThen(Report([parsed.value], []), ParseLines(a[1..], n + 1), ParseLines(b, n + |a|));
      }
      ThenPanic(ParseLines(b, n + |a|));
    }
  }

  lemma ThenNothing(rest: Parsed<Report>)
    ensures Then(Done(Report([], [])), rest) == rest
  {
    AfterNothing(rest);
  }

  lemma ThenPanic(rest: Parsed<Report>)
    ensures Then(Panic, rest) == Panic
  {
  }

  predicate Faulty(line: string) {
    !Skipped(TrimSpace(line)) && ParseLine(TrimSpace(line)).Error?
  }

  /** The errors are the numbers of the faulty lines, in order. */
  lemma {:induction false} ErrorLines(lines: seq<string>, n: nat)
    requires ParseLines(lines, n).Done?
    ensures var errors := ParseLines(lines, n).value.errors;
      && (forall k :: k in errors <==> n < k <= n + |lines| && Faulty(lines[k - n - 1]))
      && (forall i, j :: 0 <= i < j < |errors| ==> errors[i] < errors[j])
  {
    hide ParseLine, TrimSpace, Skipped, ParseLines;
    if lines == [] {
      NoLines(n);
    } else {
      FirstLine(lines, n);
      ErrorLines(lines[1..], n + 1);
      var errors, rest := ParseLines(lines, n).value.errors, ParseLines(lines[1..], n + 1).value.errors;
      assert errors == rest || errors == [n + 1] + rest;
      assert forall i :: 0 <= i < |rest| ==> rest[i] in rest;
    }
  }

  /** The numbering of the lines shows in the errors alone. */
  lemma {:induction false} Renumbered(lines: seq<string>, n: nat, m: nat)
    ensures var r, s := ParseLines(lines, n), ParseLines(lines, m);
      r.Done? == s.Done? && (r.Done? ==> r.value.rules == s.value.rules && |r.value.errors| == |s.value.errors|)
  {
    hide ParseLine, TrimSpace, Skipped, ParseLines;
    if lines == [] {
      NoLines(n);
      NoLines(m);
    } else {
      FirstLine(lines, n);
      FirstLine(lines, m);
      Renumbered(lines[1..], n + 1, m + 1);
    }
  }

  /** A skipped line, wherever it stands, changes neither the rules nor which other lines are in error. */
  lemma SkippedLine(a: seq<string>, line: string, b: seq<string>)
    requires Skipped(TrimSpace(line))
    ensures var r, s := ParseLines(a + [line] + b, 0), ParseLines(a + b, 0);
      r.Done? == s.Done? && (r.Done? ==> r.value.rules == s.value.rules && |r.value.errors| == |s.value.errors|)
  {
    hide ParseLine, TrimSpace, Skipped, ParseLines;
    var n := |a|;
    LinesConcat(a, b, 0);
    LinesConcat(a, [line] + b, 0);
    assert a + [line] + b == a + ([line] + b);
    FirstLine([line] + b, n);
    assert ([line] + b)[1..] == b;
    Renumbered(b, n, n + 1);
  }

  // ----- which lines are skipped -----

  lemma {:induction false} TrimIndent(indent: string, s: string)
    requires Blank(indent)
    ensures TrimSpace(indent + s) == TrimSpace(s)
  {
    if indent == "" {
      assert indent + s == s;
    } else {
      assert (indent + s)[1..] == indent[1..] + s;
      assert forall i :: 0 <= i < |indent[1..]| ==> indent[1..][i] == indent[i + 1];
      TrimIndent(indent[1..], s);
    }
  }

  /** Trimming does not cut into what begins and ends without white space. */
  lemma {:induction false} TrimKeeps(p: string, s: string)
    requires p != "" && Trimmed(p)
    ensures p <= TrimSpace(p + s)
  {
    var t := p + s;
    assert t[0] == p[0];
    if s == "" {
      assert t == p;
    } else if Space(t[|t| - 1]) {
      assert t[..|t| - 1] == p + s[..|s| - 1];
      TrimKeeps(p, s[..|s| - 1]);
    }
  }

  /** White space, and comments of both kinds behind white space, are skipped. */
  lemma CommentSkipped(indent: string, text: string)
    requires Blank(indent)
    ensures Skipped(TrimSpace(indent)) && Skipped(TrimSpace(indent + ("#" + text))) &&
      Skipped(TrimSpace(indent + ("//" + text)))
  {
    hide TrimSpace;
    TrimIndent(indent, "");
    assert indent + "" == indent;
    TrimIndent(indent, "#" + text);
    TrimKeeps("#", text);
    TrimIndent(indent, "//" + text);
    TrimKeeps("//", text);
  }

  /** Nothing else is. */
  lemma SkippedIs(line: string) returns (indent: string, rest: string)
    requires Skipped(TrimSpace(line))
    ensures line == indent + rest && Blank(indent) && (rest == "" || "#" <= rest || "//" <= rest)
  {
    hide TrimSpace;
    var before, after := TrimSpaceCuts(line);
    var t := TrimSpace(line);
    if t == "" {
      indent, rest := line, "";
    } else {
      indent, rest := before, t + after;
      assert line == before + (t + after);
    }
  }

  // ----- printing -----

  predicate PrintableRule(rule: Rule) {
    rule.Rule? && !rule.condition.AlwaysTrue? ==> Printable(rule.condition)
  }

  function ActionWord(allow: bool): string {
    if allow then "ALLOW" else "DENY"
  }

  /** Scope and condition, each with a space before it. */
  function PrintScope(scope: Scope, condition: string): string {
    match scope
    case All => condition
    case Exploration => " EXPLORATION" + condition
    case Processing => " PROCESSING" + condition
  }

  function PrintIf(condition: Condition): string
    requires !condition.AlwaysTrue? ==> Printable(condition)
  {
    if condition.AlwaysTrue? then "" else " IF " + Print(condition)
  }

  function PrintRule(rule: Rule): string
    requires PrintableRule(rule)
  {
    match rule
    case Default(allow) => "DEFAULT: " + ActionWord(allow)
    case Rule(allow, scope, condition) => ActionWord(allow) + PrintScope(scope, PrintIf(condition))
  }

  predicate FaithfulRule(rule: Rule)
    requires PrintableRule(rule)
  {
    rule.Rule? && !rule.condition.AlwaysTrue? ==> Faithful(rule.condition)
  }

  // ----- lines with any white space -----

  lemma TrimEnd(s: string, after: string)
    requires Blank(after)
    ensures TrimSpace(s + after) == TrimSpace(s)
    decreases |s| + |after|
  {
    if after == "" {
      assert s + after == s;
    } else if s == "" {
      TrimIndent(after, "");
      assert s + after == after && after + "" == after;
    } else if Space(s[0]) {
      TrimEnd(s[1..], after);
      assert (s + after)[1..] == s[1..] + after;
    } else {
      var init := after[..|after| - 1];
      assert (s + after)[..|s + after| - 1] == s + init && (s + after)[0] == s[0];
      TrimEnd(s, init);
    }
  }

  /** A text whose beginning is not white space keeps it, and what follows it is trimmed as by itself. */
  lemma TrimBehind(word: string, tail: string)
    requires word != "" && Trimmed(word)
    ensures var t := TrimSpace(word + tail); word <= t && TrimSpace(t[|word|..]) == TrimSpace(tail)
  {
    hide TrimSpace, Space;
    var t := TrimSpace(word + tail);
    TrimKeeps(word, tail);
    var before, after := TrimSpaceCuts(word + tail);
    assert before == "" by { NoIndent(word, tail, before, t + after); }
    assert word + tail == t + after;
    assert tail == t[|word|..] + after by {
      assert (word + tail)[|word|..] == tail && (t + after)[|word|..] == t[|word|..] + after;
    }
    TrimEnd(t[|word|..], after);
  }

  lemma NoIndent(word: string, tail: string, before: string, rest: string)
    requires word != "" && !Space(word[0]) && Blank(before) && word + tail == before + rest
    ensures before == ""
  {
    assert (word + tail)[0] == word[0];
  }

  function ScopeWord(scope: Scope): string {
    match scope
    case All => ""
    case Exploration => "EXPLORATION"
    case Processing => "PROCESSING"
  }

  function Ruled(allow: bool, scope: Scope, parsed: Parsed<Condition>): Parsed<Rule> {
    match parsed
    case Done(condition) => Done(Rule(allow, scope, condition))
    case Error => Error
    case Panic => Panic
  }

  lemma NoDefault(upper: string)
    requires "ALLOW" <= upper || "DENY" <= upper
    ensures !("DEFAULT:" <= upper) && !("DEFAULT :" <= upper)
  {
    assert upper[0] == 'A' || upper[2] == 'N';
  }

  lemma ActionLine(allow: bool, line: string)
    requires ActionWord(allow) <= Upper(TrimSpace(line))
    ensures ParseLine(line) == ParseScope(allow, TrimSpace(DropFirst(TrimSpace(line), |ActionWord(allow)|)))
  {
    hide TrimSpace, ParseScope, Upper, Index, DropFirst;
    var upper := Upper(TrimSpace(line));
    NoDefault(upper);
    assert !allow ==> upper[0] == 'D';
  }

  lemma ActionRead(allow: bool, tail: string)
    ensures ParseLine(ActionWord(allow) + tail) == ParseScope(allow, TrimSpace(tail))
  {
    hide TrimSpace, ParseLine, ParseScope, Space, Trimmed, Upper;
    var word := ActionWord(allow);
    assert Word(word) by { ActionWords(); }
    WordTrimmed(word);
    TrimBehind(word, tail);
    var t := TrimSpace(word + tail);
    var rest := t[|word|..];
    assert t == word + rest;
    UpperConcat(word, rest);
    ActionLine(allow, word + tail);
    assert DropFirst(t, |word|) == rest;
  }

  lemma WordTrimmed(word: string)
    requires Word(word)
    ensures Trimmed(word)
  {
  }

  lemma ScopeRead(allow: bool, scope: Scope, gap: string, tail: string)
    requires !scope.All? && Blank(gap)
    ensures ParseScope(allow, TrimSpace(gap + (ScopeWord(scope) + tail))) == ParseIf(allow, scope, TrimSpace(tail))
  {
    hide TrimSpace, ParseIf, Space, Trimmed, Blank;
    var word := ScopeWord(scope);
    ScopeWords();
    TrimIndent(gap, word + tail);
    TrimBehind(word, tail) by { WordTrimmed(word); }
    var t := TrimSpace(word + tail);
    assert t == word + t[|word|..];
    UpperConcat(word, t[|word|..]);
    assert Upper(t)[0] == word[0] && |word| == if scope.Exploration? then 11 else 10;
  }

  lemma IfTrimmed(text: string)
    requires TrimSpace(text) != ""
    ensures var t := TrimSpace("IF " + text); "IF " <= t && TrimSpace(t[3..]) == TrimSpace(text)
  {
    hide TrimSpace;
    assert "IF " + text == "IF" + (" " + text);
    TrimBehind("IF", " " + text);
    TrimIndent(" ", text);
    var t := TrimSpace("IF " + text);
    assert t[2..] != "" by { if t[2..] == "" { NothingTrimmed(); } }
    var before, after := TrimSpaceCuts("IF " + text);
    NoIndent("IF", " " + text, before, t + after);
    assert before + t + after == t + after;
    assert t[2] == ("IF " + text)[2] == ' ';
    assert t[2..] == " " + t[3..];
    TrimIndent(" ", t[3..]);
  }

  lemma NothingTrimmed()
    ensures TrimSpace("") == ""
  {
  }

  /** Action, scope and condition, with whatever white space between and around them. */
  lemma RuleRead(allow: bool, scope: Scope, gap: string, gap': string, text: string)
    requires Blank(gap) && Blank(gap') && TrimSpace(text) != ""
    ensures ParseLine(ActionWord(allow) + (gap + (ScopeWord(scope) + (gap' + ("IF " + text)))))
      == Ruled(allow, scope, ParseCondition(TrimSpace(text)))
  {
    hide TrimSpace, ParseScope, ParseIf, Blank, ActionWord, ParseCondition;
    var rest := gap' + ("IF " + text);
    ActionRead(allow, gap + (ScopeWord(scope) + rest));
    TrimIndent(gap', "IF " + text);
    IfTrimmed(text);
    IfRead(allow, scope, TrimSpace("IF " + text));
    if scope.All? {
      assert ScopeWord(scope) + rest == rest;
      TrimIndent(gap, rest);
      NoScopeTaken(allow, TrimSpace(rest));
    } else {
      ScopeRead(allow, scope, gap, rest);
    }
  }

  lemma IfRead(allow: bool, scope: Scope, remaining: string)
    requires "IF " <= remaining
    ensures ParseIf(allow, scope, remaining) == Ruled(allow, scope, ParseCondition(TrimSpace(remaining[3..])))
  {
    hide ParseCondition, TrimSpace;
    assert Upper(remaining)[..3] == "IF ";
  }

  /** Behind the scope, anything that does not begin with IF is ignored: the rule then always applies. */
  lemma IfForgotten(allow: bool, scope: Scope, gap: string, text: string)
    requires Blank(gap) && !scope.All? && !("IF " <= Upper(TrimSpace(text)))
    ensures ParseLine(ActionWord(allow) + (gap + (ScopeWord(scope) + text))) == Done(Rule(allow, scope, AlwaysTrue))
  {
    hide TrimSpace, ParseScope, Blank, ActionWord;
    ActionRead(allow, gap + (ScopeWord(scope) + text));
    ScopeRead(allow, scope, gap, text);
  }

  lemma ColonIn(rest: string)
    ensures Index("DEFAULT:" + rest, ":") == 7 && Index("DEFAULT :" + rest, ":") == 8
  {
    var s, t := "DEFAULT:" + rest, "DEFAULT :" + rest;
    forall i | 0 <= i < 7 ensures !At(s, ":", i) {
      assert s[i] == "DEFAULT:"[i] != ':';
      if At(s, ":", i) { AtBegun(s, ":", i); }
    }
    forall i | 0 <= i < 8 ensures !At(t, ":", i) {
      assert t[i] == "DEFAULT :"[i] != ':';
      if At(t, ":", i) { AtBegun(t, ":", i); }
    }
    assert s[7..8] == ":" && t[8..9] == ":";
    IndexIs(s, ":", 7);
    IndexIs(t, ":", 8);
  }

  lemma HeadWords()
    ensures Upper("DEFAULT:") == "DEFAULT:" && Upper("DEFAULT :") == "DEFAULT :"
  {
  }

  lemma UpperBlank(gap: string)
    requires Blank(gap)
    ensures Upper(gap) == gap
  {
    assert forall i :: 0 <= i < |gap| ==> Space(gap[i]);
  }

  /** A default, with or without a space before the colon and any white space behind it. */
  lemma DefaultRead(spaced: bool, gap: string, allow: bool)
    requires Blank(gap)
    ensures ParseLine((if spaced then "DEFAULT :" else "DEFAULT:") + (gap + ActionWord(allow))) == Done(Default(allow))
  {
    hide Index, TrimSpace, Upper, Blank;
    var head, word := if spaced then "DEFAULT :" else "DEFAULT:", ActionWord(allow);
    var line := head + (gap + word);
    assert line[|line| - 1] == word[|word| - 1];
    assert Trimmed(line);
    ColonIn(gap + word);
    assert line[|head|..] == gap + word;
    UpperConcat(head, gap + word);
    UpperConcat(gap, word);
    Words();
    HeadWords();
    UpperBlank(gap);
    TrimIndent(gap, word);
  }

  // ----- parsing undoes printing -----

  lemma DefaultRoundTrip(allow: bool)
    ensures ParseLine("DEFAULT: " + ActionWord(allow)) == Done(Default(allow))
  {
    hide ParseLine;
    DefaultRead(false, " ", allow);
    assert "DEFAULT:" + (" " + ActionWord(allow)) == "DEFAULT: " + ActionWord(allow);
  }

  lemma ScopeWords()
    ensures Word("EXPLORATION") && Word("PROCESSING")
  {
  }

  lemma ActionWords()
    ensures Word("ALLOW") && Word("DENY")
  {
  }

  lemma Words()
    ensures Upper("IF ") == "IF " && Upper("EXPLORATION") == "EXPLORATION" && Upper("PROCESSING") == "PROCESSING"
    ensures Upper("ALLOW") == "ALLOW" && Upper("DENY") == "DENY" && Upper(" ") == " " &&
      Upper("DEFAULT: ") == "DEFAULT: "
  {
  }

  /** Nothing, or a space and text that does not end in a space. */
  predicate Tail(tail: string) {
    tail == "" || (tail[0] == ' ' && !Space(tail[|tail| - 1]))
  }

  predicate Word(word: string) {
    word != "" && !Space(word[0]) && !Space(word[|word| - 1]) && Upper(word) == word
  }

  /** A word and what follows it. */
  lemma WordTail(word: string, tail: string)
    requires Word(word) && Tail(tail)
    ensures Trimmed(word + tail) && DropFirst(word + tail, |word|) == tail &&
      TrimSpace(" " + (word + tail)) == word + tail
    ensures word <= Upper(word + tail)
  {
    hide Space, TrimSpace, Upper;
    UpperConcat(word, tail);
    TrimLeft(word + tail);
    assert (word + tail)[|word|..] == tail;
  }

  /** The condition as it is parsed; none at all is always true. */
  function Reread(condition: Condition): Parsed<Condition>
    requires !condition.AlwaysTrue? ==> Printable(condition)
  {
    if condition.AlwaysTrue? then Done(AlwaysTrue) else ParseCondition(Print(condition))
  }

  lemma PrintedIf(condition: Condition)
    requires !condition.AlwaysTrue? ==> Printable(condition)
    ensures Tail(PrintIf(condition))
    ensures var rest := TrimSpace(PrintIf(condition)); rest != "" ==> rest[0] == 'I'
    ensures condition.AlwaysTrue? ==> TrimSpace(PrintIf(condition)) == ""
    ensures !condition.AlwaysTrue? ==> TrimSpace(PrintIf(condition)) == "IF " + Print(condition)
  {
    hide Print, Printable;
    if !condition.AlwaysTrue? {
      hide TrimSpace;
      PrintedTrimmed(condition);
      var text := "IF " + Print(condition);
      assert PrintIf(condition) == " " + text;
      TrimLeft(text);
    }
  }

  lemma ParsePrintedIf(allow: bool, scope: Scope, condition: Condition)
    requires !condition.AlwaysTrue? ==> Printable(condition)
    ensures ParseIf(allow, scope, TrimSpace(PrintIf(condition))) == Ruled(allow, scope, Reread(condition))
  {
    hide Print, Printable, TrimSpace, Upper, ParseCondition, PrintIf;
    PrintedIf(condition);
    Words();
    if !condition.AlwaysTrue? {
      var text := "IF " + Print(condition);
      PrintedTrimmed(condition);
      UpperConcat("IF ", Print(condition));
      assert DropFirst(text, 3) == Print(condition);
    } else {
      assert |Upper("")| == 0;
    }
  }

  /** A scope word is taken off. */
  lemma ScopeTaken(allow: bool, scope: Scope, tail: string)
    requires !scope.All? && Tail(tail)
    ensures Tail(PrintScope(scope, tail))
    ensures ParseScope(allow, TrimSpace(PrintScope(scope, tail))) == ParseIf(allow, scope, TrimSpace(tail))
  {
    hide TrimSpace, Upper, ParseIf, ParseScope, PrintScope, ScopeWord, Space;
    var word := ScopeWord(scope);
    ScopeWordIs(scope);
    WordTail(word, tail);
    ScopePrinted(scope, tail);
    ScopeRead(allow, scope, " ", tail);
    assert (" " + (word + tail))[1..] == word + tail;
  }

  lemma ScopeWordIs(scope: Scope)
    requires !scope.All?
    ensures Word(ScopeWord(scope))
  {
    ScopeWords();
  }

  lemma ScopePrinted(scope: Scope, tail: string)
    requires !scope.All?
    ensures PrintScope(scope, tail) == " " + (ScopeWord(scope) + tail)
  {
  }

  lemma NoScopeTaken(allow: bool, remaining: string)
    requires remaining != "" ==> remaining[0] == 'I'
    ensures ParseScope(allow, remaining) == ParseIf(allow, All, remaining)
  {
    hide TrimSpace, ParseIf;
    if remaining != "" {
      assert Upper(remaining)[0] == UpperChar('I');
    } else {
      assert |Upper(remaining)| == 0;
    }
  }

  lemma ParsePrintedScope(allow: bool, scope: Scope, condition: Condition)
    requires !condition.AlwaysTrue? ==> Printable(condition)
    ensures Tail(PrintScope(scope, PrintIf(condition)))
    ensures ParseScope(allow, TrimSpace(PrintScope(scope, PrintIf(condition)))) ==
      Ruled(allow, scope, Reread(condition))
  {
    hide Printable, TrimSpace, Upper, ParseIf, PrintIf, Reread, Space, ParseScope, Tail;
    PrintedIf(condition);
    ParsePrintedIf(allow, scope, condition);
    if scope.All? {
      NoScopeTaken(allow, TrimSpace(PrintIf(condition)));
    } else {
      ScopeTaken(allow, scope, PrintIf(condition));
    }
  }

  lemma ActionTaken(allow: bool, tail: string)
    requires Tail(tail)
    ensures ParseLine(ActionWord(allow) + tail) == ParseScope(allow, TrimSpace(tail))
    ensures var line := ActionWord(allow) + tail; TrimSpace(line) == line && !Skipped(line)
  {
    hide TrimSpace, Upper, ParseLine, ParseScope, Space, Trimmed;
    var word := ActionWord(allow);
    assert Word(word) by { ActionWords(); }
    WordTail(word, tail);
    ActionRead(allow, tail);
    assert (word + tail)[0] == word[0];
  }

  /** A printed rule is given back exactly when its condition is. */
  lemma RuleRoundTrip(rule: Rule)
    requires PrintableRule(rule)
    ensures ParseLine(PrintRule(rule)) == Done(rule) <==> FaithfulRule(rule)
  {
    hide Printable, Faithful, TrimSpace, ParseLine, ParseScope, PrintScope, ParseCondition, Print, ActionWord, Tail;
    match rule
    case Default(allow) => DefaultRoundTrip(allow);
    case Rule(allow, scope, condition) =>
      ParsePrintedScope(allow, scope, condition);
      ActionTaken(allow, PrintScope(scope, PrintIf(condition)));
      if !condition.AlwaysTrue? { ParseUndoesPrint(condition); }
  }

  // ----- rule files -----

  function PrintRules(rules: seq<Rule>): (texts: seq<string>)
    requires forall rule :: rule in rules ==> PrintableRule(rule)
    ensures |texts| == |rules| && forall i :: 0 <= i < |rules| ==> texts[i] == PrintRule(rules[i])
  {
    if rules == [] then [] else [PrintRule(rules[0])] + PrintRules(rules[1..])
  }

  function JoinLines(texts: seq<string>): string {
    if texts == [] then "" else if |texts| == 1 then texts[0] else texts[0] + ("\n" + JoinLines(texts[1..]))
  }

  predicate OneLine(s: string) {
    forall i :: 0 <= i < |s| ==> s[i] != '\n'
  }

  lemma {:induction false} LinesCross(a: string, b: string)
    requires OneLine(a)
    ensures Lines(a + b) == Prepend(a, Lines(b))
  {
    if a == "" {
      assert a + b == b;
      assert "" + Lines(b)[0] == Lines(b)[0];
    } else {
      hide Lines;
      assert forall i :: 0 <= i < |a[1..]| ==> a[1..][i] == a[i + 1];
      LinesCross(a[1..], b);
      assert (a + b)[1..] == a[1..] + b && (a + b)[..1] == a[..1] && a == a[..1] + a[1..];
      LinesFirst(a + b);
      PrependTwice(a[..1], a[1..], Lines(b));
    }
  }

  lemma LinesFirst(text: string)
    requires text != ""
    ensures text[0] == '\n' ==> Lines(text) == [""] + Lines(text[1..])
    ensures text[0] != '\n' ==> Lines(text) == Prepend(text[..1], Lines(text[1..]))
  {
  }

  lemma {:induction false} LinesJoined(texts: seq<string>)
    requires texts != [] && forall i :: 0 <= i < |texts| ==> OneLine(texts[i])
    ensures Lines(JoinLines(texts)) == texts
  {
    hide OneLine;
    var first, others := texts[0], texts[1..];
    if others == [] {
      LinesCross(first, "");
      assert first + "" == first;
    } else {
      assert forall i :: 0 <= i < |others| ==> others[i] == texts[i + 1];
      LinesJoined(others);
      var rest := JoinLines(others);
      LinesCross(first, "\n" + rest);
      LinesFirst("\n" + rest);
      assert ("\n" + rest)[1..] == rest && first + "" == first;
    }
  }

  lemma PrintedNotSkipped(rule: Rule)
    requires PrintableRule(rule)
    ensures var line := PrintRule(rule); TrimSpace(line) == line && !Skipped(line)
  {
    match rule
    case Default(allow) =>
      hide TrimSpace;
      assert Trimmed(PrintRule(rule));
    case Rule(allow, scope, condition) =>
      hide TrimSpace, Skipped, ActionWord, PrintScope, Printable, PrintIf, Tail;
      ParsePrintedScope(allow, scope, condition);
      ActionTaken(allow, PrintScope(scope, PrintIf(condition)));
  }

  lemma {:induction false} LinesRoundTrip(rules: seq<Rule>, n: nat)
    requires forall rule :: rule in rules ==> PrintableRule(rule)
    ensures ParseLines(PrintRules(rules), n) == Done(Report(rules, [])) <==>
      forall rule :: rule in rules ==> FaithfulRule(rule)
  {
    hide PrintableRule, FaithfulRule, ParseLine, PrintRule, TrimSpace, Skipped, After, ParseLines;
    if rules == [] {
      NoLines(n);
    } else {
      var first, others := rules[0], rules[1..];
      var text, texts := PrintRule(first), PrintRules(others);
      assert PrintRules(rules) == [text] + texts && ([text] + texts)[1..] == texts;
      RuleRoundTrip(first);
      PrintedNotSkipped(first);
      LinesRoundTrip(others, n + 1);
      FirstLine([text] + texts, n);
      AfterRule(ParseLine(text), n, ParseLines(texts, n + 1), first, others);
      assert rules == [first] + others;
      assert (forall rule :: rule in rules ==> FaithfulRule(rule)) <==>
        FaithfulRule(first) && (forall rule :: rule in others ==> FaithfulRule(rule));
    }
  }

  lemma AfterRule(parsed: Parsed<Rule>, n: nat, rest: Parsed<Report>, first: Rule, others: seq<Rule>)
    ensures (match parsed
             case Panic => Panic
             case Error => After(Report([], [n + 1]), rest)
             case Done(rule) => After(Report([rule], []), rest)) == Done(Report([first] + others, []))
      <==> parsed == Done(first) && rest == Done(Report(others, []))
  {
    if rest.Done? {
      var report := rest.value;
      assert [] + report.errors == report.errors;
      assert |[n + 1] + report.errors| > 0;
      if parsed.Done? {
        assert ([parsed.value] + report.rules)[1..] == report.rules && ([first] + others)[1..] == others;
      }
    }
  }

  /** A rule file printed line by line is read back, without errors, exactly when every rule is faithful. */
  lemma FileRoundTrip(rules: seq<Rule>)
    requires forall rule :: rule in rules ==> PrintableRule(rule) && OneLine(PrintRule(rule))
    ensures ParseLines(Lines(JoinLines(PrintRules(rules))), 0) == Done(Report(rules, []))
      <==> forall rule :: rule in rules ==> FaithfulRule(rule)
  {
    hide PrintableRule, FaithfulRule, PrintRule, OneLine, ParseLine;
    if rules == [] {
      assert Lines("") == [""] && TrimSpace("") == "" && [""][1..] == [];
    } else {
      LinesJoined(PrintRules(rules));
      LinesRoundTrip(rules, 0);
    }
  }
}
