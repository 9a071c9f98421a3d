/**
 * The rule files that come with the collector, and the rules it has by default: how they are read and what they decide.
 */
module RuleFiles {
  import opened Comparisons
  import opened Decimals
  import opened Rules
  import opened Texts
  import opened ShareQL
  import opened ShareQLLines
  import opened ShareQLPrinting
  import opened ShareQLRoundTrip
  import opened ShareQLValues

  // ----- reading -----

  /** These rules are read without errors from their texts, one a line, with a newline behind the last or not. */
  lemma FileRead(rules: seq<Rule>)
    requires rules != [] && forall rule :: rule in rules ==> PrintableRule(rule) && OneLine(PrintRule(rule))
    requires forall rule :: rule in rules ==> FaithfulRule(rule)
    ensures var text := JoinLines(PrintRules(rules));
      ParseLines(Lines(text), 0) == Done(Report(rules, [])) &&
        ParseLines(Lines(text + "\n"), 0) == Done(Report(rules, []))
  {
    hide PrintableRule, FaithfulRule, PrintRule, OneLine, ParseLine, Lines, ParseLines, TrimSpace, Skipped;
    var texts := PrintRules(rules);
    FileRoundTrip(rules);
    LinesJoined(texts);
    BlankIsOneLine();
    LinesJoined(texts + [""]);
    JoinNewline(texts);
    CommentSkipped("", "");
    SkippedLine(texts, "", []);
    assert texts + [""] + [] == texts + [""] && texts + [] == texts;
    ErrorsNone(ParseLines(texts + [""], 0));
  }

  lemma BlankIsOneLine()
    ensures OneLine("")
  {
  }

  lemma ErrorsNone(parsed: Parsed<Report>)
    ensures parsed.Done? && |parsed.value.errors| == 0 ==> parsed == Done(Report(parsed.value.rules, []))
  {
  }

  lemma {:induction false} JoinNewline(texts: seq<string>)
    requires texts != []
    ensures JoinLines(texts + [""]) == JoinLines(texts) + "\n"
  {
    assert (texts + [""])[1..] == texts[1..] + [""];
    if |texts| > 1 {
      JoinNewline(texts[1..]);
      assert texts[0] + ("\n" + (JoinLines(texts[1..]) + "\n")) == texts[0] + ("\n" + JoinLines(texts[1..])) + "\n";
    } else {
      assert texts[0] + ("\n" + "") == texts[0] + "\n";
    }
  }

  lemma OneRuleFile(rule: Rule)
    requires PrintableRule(rule) && FaithfulRule(rule) && OneLine(PrintRule(rule))
    ensures ParseLines(Lines(PrintRule(rule) + "\n"), 0) == Done(Report([rule], []))
  {
    hide PrintableRule, FaithfulRule, PrintRule, OneLine, Lines, ParseLines;
    FileRead([rule]);
    assert PrintRules([rule]) == [PrintRule(rule)];
  }

  // ----- max_depth_1.shareql to max_depth_5.shareql -----

  function DepthRule(n: nat): Rule {
    Rule(false, Exploration, Field("DEPTH", ">", Num(Dec(n))))
  }

  /** The file for depth n is read without errors, denies exploring anything deeper than n, and nothing else. */
  lemma MaxDepthFile(n: nat, context: Context, matches: (FieldValue, Value) -> bool)
    ensures ParseLines(Lines("DENY EXPLORATION IF DEPTH > " + Dec(n) + "\n"), 0) == Done(Report([DepthRule(n)], []))
    ensures Evaluate([DepthRule(n)], Exploration, context, Standard(matches)) <==> context.depth <= n
    ensures Evaluate([DepthRule(n)], Processing, context, Standard(matches))
  {
    hide *;
    var rule := DepthRule(n);
    DepthRulePrinted(n);
    OneRuleFile(rule);
    DepthDecides(n, context, matches);
  }

  lemma DepthDecides(n: nat, context: Context, matches: (FieldValue, Value) -> bool)
    ensures Evaluate([DepthRule(n)], Exploration, context, Standard(matches)) <==> context.depth <= n
    ensures Evaluate([DepthRule(n)], Processing, context, Standard(matches))
  {
    hide Dec, Amount, Standard, Evaluate;
    var rule := DepthRule(n);
    assert Upper("DEPTH") == "DEPTH";
    OrderExact(context.depth, "", n, matches);
    OneRuleDecides(rule, Exploration, context, Standard(matches));
    Elsewhere(rule, context, Standard(matches));
  }

  /** A rule for exploration says nothing about processing. */
  lemma Elsewhere(rule: Rule, context: Context, compare: Compare)
    requires rule.Rule? && rule.scope == Exploration
    ensures Evaluate([rule], Processing, context, compare)
  {
    assert [rule][1..] == [] && DefaultAllow([]);
    assert FirstDecision([], Processing, context, compare, true);
  }

  lemma DepthCondition(n: nat)
    ensures Printable(DepthRule(n).condition) && Faithful(DepthRule(n).condition)
    ensures Print(DepthRule(n).condition) == "DEPTH > " + Dec(n)
  {
    hide Numeral, Dec, Faithful, FIELDS, KnownField;
    WrittenNumber(n);
    DepthKnown();
    RegularFaithful(DepthRule(n).condition);
    hide COMPARATORS;
    assert "DEPTH" + " " + ">" + " " == "DEPTH > ";
  }

  /** A denial of exploration, piece by piece. */
  lemma DenialPrinted(condition: Condition)
    requires Printable(condition) && !condition.AlwaysTrue?
    ensures PrintableRule(Rule(false, Exploration, condition))
    ensures PrintRule(Rule(false, Exploration, condition)) == "DENY EXPLORATION IF " + Print(condition)
  {
    hide Print, Printable;
    var text := Print(condition);
    assert "DENY" + (" EXPLORATION" + (" IF " + text)) == ("DENY" + " EXPLORATION" + " IF ") + text;
    assert "DENY" + " EXPLORATION" + " IF " == "DENY EXPLORATION IF ";
  }

  lemma DepthRulePrinted(n: nat)
    ensures var rule := DepthRule(n);
      PrintableRule(rule) && FaithfulRule(rule) && OneLine(PrintRule(rule)) &&
      PrintRule(rule) == "DENY EXPLORATION IF DEPTH > " + Dec(n)
  {
    hide Print, Printable, Faithful, Dec, OneLine, PrintRule;
    DepthCondition(n);
    DenialPrinted(DepthRule(n).condition);
    assert "DENY EXPLORATION IF " + ("DEPTH > " + Dec(n)) == ("DENY EXPLORATION IF " + "DEPTH > ") + Dec(n);
    assert "DENY EXPLORATION IF " + "DEPTH > " == "DENY EXPLORATION IF DEPTH > ";
    DigitsOnOneLine("DENY EXPLORATION IF DEPTH > ", Dec(n));
  }

  lemma DigitsOnOneLine(head: string, digits: string)
    requires Digits(digits) && '\n' !in head
    ensures OneLine(head + digits)
  {
    forall i | 0 <= i < |head + digits| ensures (head + digits)[i] != '\n' {
      assert i < |head| ==> head[i] in head;
    }
  }

  lemma DepthKnown()
    ensures KnownField("DEPTH") && ">" in COMPARATORS
  {
    assert Upper("DEPTH") == "DEPTH" && FIELDS[0] == "DEPTH" && COMPARATORS[8] == ">";
  }

  // ----- rules against shares by name -----

  function Strs(names: seq<string>): (items: seq<Value>)
    ensures |items| == |names| && forall i :: 0 <= i < |names| ==> items[i] == Str(names[i])
  {
    seq(|names|, i requires 0 <= i < |names| => Str(names[i]))
  }

  function NamesRule(names: seq<string>): Rule {
    Rule(false, Exploration, Field("SHARE.NAME", "IN", List(Strs(names))))
  }

  const EXPLORE_REST := Rule(true, Exploration, AlwaysTrue)

  /** The name is in the list, in any case. */
  predicate Named(name: string, names: seq<string>) {
    exists i :: 0 <= i < |names| && Upper(names[i]) == Upper(name)
  }

  lemma NamesHold(names: seq<string>, context: Context, matches: (FieldValue, Value) -> bool)
    requires context.share.Some?
    ensures Holds(NamesRule(names).condition, context, Standard(matches)) <==> Named(context.share.value.name, names)
  {
    hide Amount;
    var name, items := context.share.value.name, Strs(names);
    assert Upper("SHARE.NAME") == "SHARE.NAME";
    hide Upper;
    forall i | 0 <= i < |names|
      ensures Standard(matches).equal(Words(name), items[i]) == (Upper(names[i]) == Upper(name)) {
    }
    if Named(name, names) {
      var i :| 0 <= i < |names| && Upper(names[i]) == Upper(name);
      assert items[i] in items;
    }
  }

  /** Such rules deny exploring the shares named, and allow everything else. */
  lemma NamesDecide(names: seq<string>, before: seq<Rule>, context: Context, matches: (FieldValue, Value) -> bool)
    requires context.share.Some? && (before == [] || before == [Default(true)])
    ensures var rules := before + [NamesRule(names), EXPLORE_REST];
      && (Evaluate(rules, Exploration, context, Standard(matches)) <==> !Named(context.share.value.name, names))
      && Evaluate(rules, Processing, context, Standard(matches))
  {
    hide Standard, Named, NamesRule;
    NamesHold(names, context, matches);
    var rule, compare := NamesRule(names), Standard(matches);
    assert rule.Rule? && !rule.allow && rule.scope == Exploration by { NamesRuleIs(names); }
    var rules := before + [rule, EXPLORE_REST];
    var denied := Named(context.share.value.name, names);
    var first := |before| + if denied then 0 else 1;
    assert forall k :: 0 <= k < |before| ==> rules[k] == Default(true);
    assert rules[|before|] == rule && rules[|before| + 1] == EXPLORE_REST;
    Decision(rules, Exploration, context, compare, first, if before == [] then |rules| else 0);
    Decision(rules, Processing, context, compare, |rules|, if before == [] then |rules| else 0);
  }

  lemma NamesRuleIs(names: seq<string>)
    ensures var rule := NamesRule(names); rule.Rule? && !rule.allow && rule.scope == Exploration
  {
  }

  predicate PlainName(name: string) {
    SafeText(name) && NoSpace(name) && '\n' !in name
  }

  lemma ListIs(items: seq<Value>)
    requires items != []
    requires forall item :: item in items ==> Writable(item) && Single(item) && Listable(item) && Spaceless(item)
    ensures Writable(List(items)) && Listable(List(items)) && Spaceless(List(items))
  {
    hide SafeText, NoSpace;
  }

  lemma NamesCondition(names: seq<string>)
    requires names != [] && forall name :: name in names ==> PlainName(name)
    ensures var condition := NamesRule(names).condition;
      Printable(condition) && Faithful(condition) &&
      Print(condition) == "SHARE.NAME IN [" + PrintItems(Strs(names)) + "]"
  {
    hide Faithful, PrintItems;
    var condition := NamesRule(names).condition;
    assert Upper("SHARE.NAME") == "SHARE.NAME" && FIELDS[1] == "SHARE.NAME" && COMPARATORS[1] == "IN";
    var items := Strs(names);
    forall item | item in items ensures Writable(item) && Single(item) && Listable(item) && Spaceless(item) {
      assert item.Str? && item.text in names;
    }
    ListIs(items);
    RegularFaithful(condition);
    assert "SHARE.NAME" + " " + "IN" + " " == "SHARE.NAME IN ";
  }

  lemma {:induction false} ItemsOnOneLine(names: seq<string>)
    requires forall name :: name in names ==> PlainName(name)
    ensures '\n' !in PrintItems(Strs(names))
  {
    if names != [] {
      assert Strs(names)[1..] == Strs(names[1..]);
      ItemsOnOneLine(names[1..]);
      assert names[0] in names && PrintValue(Strs(names)[0]) == "'" + names[0] + "'";
    }
  }

  function NamesText(names: seq<string>): string {
    "DENY EXPLORATION IF SHARE.NAME IN [" + PrintItems(Strs(names)) + "]"
  }

  lemma NamesRulePrinted(names: seq<string>)
    requires names != [] && forall name :: name in names ==> PlainName(name)
    ensures var rule := NamesRule(names);
      PrintableRule(rule) && FaithfulRule(rule) && OneLine(PrintRule(rule)) &&
      PrintRule(rule) == NamesText(names)
  {
    hide Print, Printable, Faithful, PrintRule, PrintItems, PlainName;
    NamesCondition(names);
    DenialPrinted(NamesRule(names).condition);
    var items := PrintItems(Strs(names));
    assert "DENY EXPLORATION IF " + ("SHARE.NAME IN [" + items + "]") ==
      ("DENY EXPLORATION IF " + "SHARE.NAME IN [") + items + "]";
    assert "DENY EXPLORATION IF " + "SHARE.NAME IN [" == "DENY EXPLORATION IF SHARE.NAME IN [";
    ItemsOnOneLine(names);
    var text := "DENY EXPLORATION IF SHARE.NAME IN [" + items + "]";
    forall i | 0 <= i < |text| ensures text[i] != '\n' {
      assert 35 <= i < 35 + |items| ==> text[i] == items[i - 35] && text[i] in items;
    }
  }

  // ----- skip_common_shares.shareql, and the default rules -----

  lemma RestPrinted()
    ensures PrintableRule(EXPLORE_REST) && FaithfulRule(EXPLORE_REST)
    ensures PrintRule(EXPLORE_REST) == "ALLOW EXPLORATION" && OneLine("ALLOW EXPLORATION")
  {
  }

  lemma DefaultPrinted()
    ensures PrintableRule(Default(true)) && FaithfulRule(Default(true))
    ensures PrintRule(Default(true)) == "DEFAULT: ALLOW" && OneLine("DEFAULT: ALLOW")
  {
  }

  /** Trailing white space is no part of a line. */
  lemma {:induction false} TrimmedAlike(a: seq<string>, b: seq<string>, n: nat)
    requires |a| == |b| && forall i :: 0 <= i < |a| ==> TrimSpace(a[i]) == TrimSpace(b[i])
    ensures ParseLines(a, n) == ParseLines(b, n)
  {
    hide TrimSpace, Skipped, ParseLine, After;
    if a != [] {
      assert forall i :: 0 <= i < |a[1..]| ==> a[1..][i] == a[i + 1] && b[1..][i] == b[i + 1];
      TrimmedAlike(a[1..], b[1..], n + 1);
    }
  }

  lemma TrimTrailing()
    ensures TrimSpace("ALLOW EXPLORATION ") == TrimSpace("ALLOW EXPLORATION")
  {
    var s := "ALLOW EXPLORATION ";
    assert s[..|s| - 1] == "ALLOW EXPLORATION";
  }

  /** A rule against names, then permission for the rest; the last line ends in a space. */
  lemma NamesFileRead(names: seq<string>)
    requires names != [] && forall name :: name in names ==> PlainName(name)
    ensures ParseLines(Lines(NamesText(names) + ("\n" + "ALLOW EXPLORATION ")), 0)
      == Done(Report([NamesRule(names), EXPLORE_REST], []))
  {
    hide PrintableRule, FaithfulRule, PrintRule, OneLine, ParseLine, Lines, ParseLines, TrimSpace, Skipped, NamesRule;
    hide PlainName, NamesText;
    NamesRulePrinted(names);
    var rule, text := NamesRule(names), NamesText(names);
    var texts, spaced := [text, "ALLOW EXPLORATION"], [text, "ALLOW EXPLORATION "];
    RestPrinted();
    SpacedOneLine();
    var rules := [rule, EXPLORE_REST];
    FileRead(rules);
    assert PrintRules(rules) == texts;
    LinesJoined(texts);
    LinesJoined(spaced);
    assert spaced[1..] == ["ALLOW EXPLORATION "];
    assert JoinLines(spaced) == text + ("\n" + "ALLOW EXPLORATION ");
    TrimTrailing();
    TrimmedAlike(texts, spaced, 0);
  }

  lemma SpacedOneLine()
    ensures OneLine("ALLOW EXPLORATION ")
  {
  }

  const COMMON_SHARES := ["c$", "print$", "ipc$", "admin$"]
  const ADMIN_SHARES := ["c$", "print$", "admin$", "ipc$"]

  lemma CommonPlain()
    ensures COMMON_SHARES != [] && forall name :: name in COMMON_SHARES ==> PlainName(name)
    ensures ADMIN_SHARES != [] && forall name :: name in ADMIN_SHARES ==> PlainName(name)
  {
  }

  lemma ItemsStep(name: string, names: seq<string>)
    ensures names == [] ==> PrintItems(Strs([name] + names)) == "'" + name + "'"
    ensures names != [] ==> PrintItems(Strs([name] + names)) == "'" + name + "'" + "," + PrintItems(Strs(names))
  {
    var items := Strs([name] + names);
    assert items[1..] == Strs(names) && items[0] == Str(name);
    assert PrintValue(Str(name)) == "'" + name + "'";
    hide PrintValue;
  }

  lemma FourItems(a: string, b: string, c: string, d: string)
    ensures PrintItems(Strs([a, b, c, d])) ==
      "'" + a + "'" + "," + ("'" + b + "'" + "," + ("'" + c + "'" + "," + ("'" + d + "'")))
  {
    hide PrintItems, Strs;
    ItemsStep(d, []);
    ItemsStep(c, [d]);
    ItemsStep(b, [c, d]);
    ItemsStep(a, [b, c, d]);
    assert [a] + [b, c, d] == [a, b, c, d] && [b] + [c, d] == [b, c, d] && [c] + [d] == [c, d] && [d] + [] == [d];
  }

  /** In any case, the administrative shares and those of printers and pipes. */
  predicate WellKnown(name: string) {
    Upper(name) in ["C$", "PRINT$", "IPC$", "ADMIN$"]
  }

  lemma CommonNamed(name: string)
    ensures Named(name, COMMON_SHARES) <==> WellKnown(name)
    ensures Named(name, ADMIN_SHARES) <==> WellKnown(name)
  {
    assert Upper("c$") == "C$" && Upper("print$") == "PRINT$" && Upper("ipc$") == "IPC$" && Upper("admin$") == "ADMIN$";
    hide Upper;
    var a, b := COMMON_SHARES, ADMIN_SHARES;
    assert a[0] == b[0] == "c$" && a[1] == b[1] == "print$" && a[2] == b[3] == "ipc$" && a[3] == b[2] == "admin$";
  }

  const SKIP_COMMON_SHARES :=
    "DENY EXPLORATION IF SHARE.NAME IN [" + "'c$','print$','ipc$','admin$'" + "]" + ("\n" + "ALLOW EXPLORATION ")

  const DEFAULT_RULES := [
    "DEFAULT: ALLOW",
    "DENY EXPLORATION IF SHARE.NAME IN [" + "'c$','print$','admin$','ipc$'" + "]",
    "ALLOW EXPLORATION"]

  lemma CommonItems()
    ensures PrintItems(Strs(COMMON_SHARES)) == "'c$','print$','ipc$','admin$'"
  {
    hide Strs, PrintItems;
    FourItems("c$", "print$", "ipc$", "admin$");
  }

  lemma AdminItems()
    ensures PrintItems(Strs(ADMIN_SHARES)) == "'c$','print$','admin$','ipc$'"
  {
    hide Strs, PrintItems;
    FourItems("c$", "print$", "admin$", "ipc$");
  }

  lemma CommonText()
    ensures NamesText(COMMON_SHARES) + ("\n" + "ALLOW EXPLORATION ") == SKIP_COMMON_SHARES
  {
    hide Strs, PrintItems, COMMON_SHARES;
    CommonItems();
  }

  lemma AdminText()
    ensures NamesText(ADMIN_SHARES) == DEFAULT_RULES[1]
  {
    hide Strs, PrintItems, ADMIN_SHARES;
    AdminItems();
  }

  /** The file is read without errors; it denies exploring c$, print$, ipc$ and admin$ in any case, and nothing else. */
  lemma SkipCommonShares(context: Context, matches: (FieldValue, Value) -> bool)
    requires context.share.Some?
    ensures var rules := [NamesRule(COMMON_SHARES), EXPLORE_REST];
      && ParseLines(Lines(SKIP_COMMON_SHARES), 0) == Done(Report(rules, []))
      && (Evaluate(rules, Exploration, context, Standard(matches)) <==> !WellKnown(context.share.value.name))
      && Evaluate(rules, Processing, context, Standard(matches))
  {
    hide *;
    CommonPlain();
    NamesFileRead(COMMON_SHARES);
    NamesDecide(COMMON_SHARES, [], context, matches);
    assert [] + [NamesRule(COMMON_SHARES), EXPLORE_REST] == [NamesRule(COMMON_SHARES), EXPLORE_REST];
    CommonNamed(context.share.value.name);
    CommonText();
  }

  /** The default rules are read without errors, and decide everything as that file does. */
  lemma DefaultRules(context: Context, matches: (FieldValue, Value) -> bool)
    requires context.share.Some?
    ensures var rules := [Default(true), NamesRule(ADMIN_SHARES), EXPLORE_REST];
      && ParseLines(Lines(JoinLines(DEFAULT_RULES)), 0) == Done(Report(rules, []))
      && (Evaluate(rules, Exploration, context, Standard(matches)) <==> !WellKnown(context.share.value.name))
      && Evaluate(rules, Processing, context, Standard(matches))
  {
    hide *;
    DefaultsRead();
    NamesDecide(ADMIN_SHARES, [Default(true)], context, matches);
    assert [Default(true)] + [NamesRule(ADMIN_SHARES), EXPLORE_REST] ==
      [Default(true), NamesRule(ADMIN_SHARES), EXPLORE_REST];
    CommonNamed(context.share.value.name);
  }

  lemma DefaultsRead()
    ensures ParseLines(Lines(JoinLines(DEFAULT_RULES)), 0)
      == Done(Report([Default(true), NamesRule(ADMIN_SHARES), EXPLORE_REST], []))
  {
    hide PrintableRule, FaithfulRule, PrintRule, OneLine, Lines, ParseLines, NamesRule, PlainName, JoinLines, NamesText;
    CommonPlain();
    AdminText();
    NamesRulePrinted(ADMIN_SHARES);
    RestPrinted();
    DefaultPrinted();
    var rules := [Default(true), NamesRule(ADMIN_SHARES), EXPLORE_REST];
    FileRead(rules);
    assert PrintRules(rules) == DEFAULT_RULES;
  }
}
