/** Letter case decides nothing about how a rule is read. */
module ShareQLCase {
  import opened Common
  import opened Texts
  import opened Splitters
  import opened Comparisons
  import opened Rules
  import opened ShareQL
  import opened ShareQLPrinting
  import opened ShareQLValues
  import opened ShareQLLines
  import FieldMeanings
  import ShareQLRoundTrip

  // ----- upper case, operation by operation -----

  lemma UpperSame(c: char)
    ensures Space(UpperChar(c)) == Space(c) && Quote(UpperChar(c)) == Quote(c)
    ensures Opens(UpperChar(c)) == Opens(c) && Closes(UpperChar(c)) == Closes(c)
    ensures c < 'A' || '[' <= c <= '`' ==> UpperChar(c) == c
    ensures UpperChar(c) < 'A' || '[' <= UpperChar(c) <= '`' ==> UpperChar(c) == c
  {
  }

  lemma UpperParts(s: string, i: nat, j: nat)
    requires i <= j <= |s|
    ensures Upper(s[i..j]) == Upper(s)[i..j] && Upper(s[i..]) == Upper(s)[i..] && Upper(s[..i]) == Upper(s)[..i]
    ensures Upper(Upper(s)) == Upper(s)
  {
  }

  lemma {:induction false} UpperTrim(s: string)
    ensures TrimSpace(Upper(s)) == Upper(TrimSpace(s))
    decreases |s|
  {
    hide Upper, Space;
    if s != "" {
      UpperSame(s[0]);
      UpperSame(s[|s| - 1]);
      if Space(s[0]) {
        UpperParts(s, 1, |s|);
        UpperTrim(s[1..]);
      } else if Space(s[|s| - 1]) {
        UpperParts(s, |s| - 1, |s|);
        UpperTrim(s[..|s| - 1]);
      }
    }
  }

  lemma UpperPrepend(s: string, parts: seq<string>)
    requires parts != []
    ensures UpperAll(Prepend(s, parts)) == Prepend(Upper(s), UpperAll(parts))
    ensures UpperAll([""] + parts) == [""] + UpperAll(parts)
  {
    UpperConcat(s, parts[0]);
    assert forall i :: 0 < i < |parts| ==> Prepend(s, parts)[i] == Prepend(s, parts)[1..][i - 1] == parts[1..][i - 1];
    assert forall i :: 0 < i < |parts| ==>
      Prepend(Upper(s), UpperAll(parts))[i] == UpperAll(parts)[1..][i - 1];
  }

  lemma {:induction false} UpperSplit(text: string, keyword: string, depth: int, quote: Option<char>)
    requires keyword != ""
    ensures Split(Upper(text), keyword, depth, quote) == UpperAll(Split(text, keyword, depth, quote))
  {
    hide Split, Upper, DepthAfter, QuoteAfter, UpperAll;
    if text == "" {
      EmptySplit(keyword, depth, quote);
      UpperOne("");
    } else {
      UpperParts(text, 1, |text|);
      UpperCuts(text, keyword, depth, quote);
      SplitUnfold(text, keyword, depth, quote);
      SplitUnfold(Upper(text), keyword, depth, quote);
      if Cuts(text, keyword, depth, quote) {
        UpperParts(text, |keyword|, |text|);
        UpperSplit(text[|keyword|..], keyword, depth, quote);
        UpperPrepend("", Split(text[|keyword|..], keyword, depth, quote));
      } else {
        var rest := Split(text[1..], keyword, DepthAfter(depth, text[0]), QuoteAfter(quote, text[0]));
        UpperSplit(text[1..], keyword, DepthAfter(depth, text[0]), QuoteAfter(quote, text[0]));
        UpperPrepend(text[..1], rest);
      }
    }
  }

  lemma UpperOne(text: string)
    ensures UpperAll([text]) == [Upper(text)] && Upper("") == ""
  {
  }

  lemma UpperCuts(text: string, keyword: string, depth: int, quote: Option<char>)
    requires text != ""
    ensures Cuts(Upper(text), keyword, depth, quote) == Cuts(text, keyword, depth, quote)
    ensures DepthAfter(depth, Upper(text)[0]) == DepthAfter(depth, text[0])
    ensures QuoteAfter(quote, Upper(text)[0]) == QuoteAfter(quote, text[0])
  {
    hide Upper;
    UpperSame(text[0]);
    UpperParts(text, 0, |text|);
  }

  lemma {:induction false} UpperItems(text: string, quote: Option<char>)
    ensures Items(Upper(text), quote) == UpperAll(Items(text, quote))
  {
    hide Upper, QuoteAfter, UpperAll, Items;
    if text == "" {
      EmptySplit(" ", 0, quote);
      UpperOne("");
    } else {
      UpperParts(text, 1, |text|);
      UpperSame(text[0]);
      UpperQuote(text, quote);
      ItemsUnfold(text, quote);
      ItemsUnfold(Upper(text), quote);
      UpperItems(text[1..], quote);
      UpperItems(text[1..], QuoteAfter(quote, text[0]));
      UpperPrepend(text[..1], Items(text[1..], quote));
      UpperPrepend(text[..1], Items(text[1..], QuoteAfter(quote, text[0])));
    }
  }

  lemma UpperQuote(text: string, quote: Option<char>)
    requires text != ""
    ensures QuoteAfter(quote, Upper(text)[0]) == QuoteAfter(quote, text[0])
  {
  }

  // ----- literals -----

  function FoldValue(v: Value): Value {
    match v
    case Str(text) => Str(Upper(text))
    case Bool(b) => Bool(b)
    case Num(numeral) => Num(numeral)
    case List(items) => List(FoldValues(items))
  }

  function FoldValues(items: seq<Value>): (folded: seq<Value>) {
    if items == [] then [] else [FoldValue(items[0])] + FoldValues(items[1..])
  }

  lemma FoldMore(item: Value, items: seq<Value>)
    ensures FoldValues([item] + items) == [FoldValue(item)] + FoldValues(items)
  {
    assert ([item] + items)[1..] == items;
  }

  function Fold<T, U>(parsed: Parsed<T>, f: T -> U): Parsed<U> {
    match parsed
    case Done(value) => Done(f(value))
    case Error => Error
    case Panic => Panic
  }

  lemma MarkUpper(t: string, mark: char)
    requires mark < 'A'
    ensures Index(Upper(t), [mark]) == Index(t, [mark])
  {
    hide Index;
    forall i | 0 <= i < |t| ensures At(Upper(t), [mark], i) == At(t, [mark], i) {
      UpperSame(t[i]);
      assert t[i..i + 1] == [t[i]] && Upper(t)[i..i + 1] == [Upper(t)[i]];
    }
    assert forall i :: At(t, [mark], i) ==> 0 <= i < |t|;
    assert forall i :: At(Upper(t), [mark], i) ==> 0 <= i < |t|;
  }

  lemma FiguresUpper(s: string)
    ensures Figures(Upper(s)) == Figures(s)
  {
    forall i | 0 <= i < |s| ensures '0' <= Upper(s)[i] <= '9' <==> '0' <= s[i] <= '9' { UpperSame(s[i]); }
  }

  lemma NumeralUpper(t: string)
    ensures Numeral(Upper(t)) == Numeral(t)
    ensures Numeral(t) ==> Upper(t) == t
  {
    hide Index, Figures;
    if t != "" { UpperSame(t[0]); }
    assert "-" <= Upper(t) <==> "-" <= t;
    var u := if "-" <= t then t[1..] else t;
    if "-" <= t { UpperParts(t, 1, |t|); }
    MarkUpper(u, '.');
    FiguresUpper(u);
    var point := Index(u, ".");
    if point != -1 {
      UpperParts(u, point, |u|);
      UpperParts(u, point + 1, |u|);
      FiguresUpper(u[..point]);
      FiguresUpper(u[point + 1..]);
    }
    if Numeral(t) {
      forall i | 0 <= i < |t| ensures Upper(t)[i] == t[i] {
        NumeralChars(t, i);
        UpperSame(t[i]);
      }
    }
  }

  lemma UpperEnds(t: string, open: char, close: char)
    requires (open < 'A' || '[' <= open <= '`') && (close < 'A' || '[' <= close <= '`')
    ensures Bracketed(Upper(t), open, close) == Bracketed(t, open, close)
  {
    if t != "" {
      UpperSame(t[0]);
      UpperSame(t[|t| - 1]);
    }
  }

  predicate InQuotes(t: string) {
    Bracketed(t, '\'', '\'') || Bracketed(t, '"', '"')
  }

  lemma QuotedCase(t: string)
    requires Trimmed(t) && !Bracketed(t, '[', ']') && InQuotes(t)
    ensures ParseValue(t) == if |t| == 1 then Panic else Done(Str(t[1..|t| - 1]))
  {
    hide Upper, Numeral, Items, TrimSpace;
  }

  lemma PlainCase(t: string)
    requires Trimmed(t) && !Bracketed(t, '[', ']') && !InQuotes(t)
    ensures ParseValue(t) ==
      Done(if Upper(t) == "TRUE" then Bool(true) else if Upper(t) == "FALSE" then Bool(false)
           else if Numeral(t) then Num(t) else Str(t))
  {
    hide Upper, Numeral, Items, TrimSpace;
  }

  lemma ValueTrim(input: string)
    ensures ParseValue(TrimSpace(input)) == ParseValue(input)
  {
    hide Upper, Numeral, Items, TrimSpace, ParseValues;
  }

  /** Both readings of a literal agree up to case. */
  predicate SameValue(t: string) {
    ParseValue(Upper(t)) == Fold(ParseValue(t), FoldValue)
  }

  lemma FoldListed(parsed: Parsed<seq<Value>>)
    ensures Fold(Listed(parsed), FoldValue) == Listed(Fold(parsed, FoldValues))
  {
  }

  lemma ListedSame(t: string, parsed: Parsed<seq<Value>>)
    requires ParseValue(t) == Listed(parsed) && ParseValue(Upper(t)) == Listed(Fold(parsed, FoldValues))
    ensures SameValue(t)
  {
    hide ParseValue, Upper;
    FoldListed(parsed);
  }

  lemma UpperListRead(inner: string, parts: seq<string>)
    requires parts == Items(inner, None)
    ensures forall part :: part in UpperAll(parts) ==> |part| < |inner| + 1
    ensures ParseValue(Upper("[" + inner + "]")) == Listed(ParseValues(UpperAll(parts), |inner| + 1))
  {
    hide ParseValue, ParseValues, Upper, Items, UpperAll, Listed;
    UpperBrackets(inner);
    UpperItems(inner, None);
    ParseList(Upper(inner));
    assert |Upper(inner)| == |inner|;
  }

  lemma UpperList(inner: string, parts: seq<string>)
    requires parts == Items(inner, None) && forall part :: part in parts ==> |part| < |inner| + 1
    requires forall part :: part in UpperAll(parts) ==> |part| < |inner| + 1
    requires ParseValues(UpperAll(parts), |inner| + 1) == Fold(ParseValues(parts, |inner| + 1), FoldValues)
    ensures SameValue("[" + inner + "]")
  {
    hide ParseValue, ParseValues, Upper, Items, UpperAll, Fold, Listed, SameValue;
    ParseList(inner);
    UpperListRead(inner, parts);
    ListedSame("[" + inner + "]", ParseValues(parts, |inner| + 1));
  }

  lemma UpperBrackets(inner: string)
    ensures Upper("[" + inner + "]") == "[" + Upper(inner) + "]"
  {
  }

  lemma UpperQuoted(t: string)
    requires Trimmed(t) && Trimmed(Upper(t)) && !Bracketed(t, '[', ']') && InQuotes(t)
    ensures SameValue(t)
  {
    hide ParseValue, Upper, Trimmed;
    UpperEnds(t, '[', ']');
    UpperEnds(t, '\'', '\'');
    UpperEnds(t, '"', '"');
    if |t| > 1 { UpperParts(t, 1, |t| - 1); }
    QuotedCase(t);
    QuotedCase(Upper(t));
  }

  lemma UpperPlain(t: string)
    requires Trimmed(t) && Trimmed(Upper(t)) && !Bracketed(t, '[', ']') && !InQuotes(t)
    ensures SameValue(t)
  {
    hide ParseValue, Upper, Trimmed, Numeral, Bracketed;
    UpperEnds(t, '[', ']');
    UpperEnds(t, '\'', '\'');
    UpperEnds(t, '"', '"');
    UpperParts(t, 0, |t|);
    NumeralUpper(t);
    PlainCase(t);
    PlainCase(Upper(t));
  }

  function Inner(t: string): (inner: string)
    requires Bracketed(t, '[', ']')
    ensures t == "[" + inner + "]"
  {
    t[1..|t| - 1]
  }

  lemma {:induction false} UpperValue(input: string)
    ensures SameValue(input)
    decreases |input|, 0
  {
    hide ParseValue, ParseValues, TrimSpace, Upper, Items, Bracketed, InQuotes, Trimmed, Fold;
    var t := TrimSpace(input);
    UpperTrim(input);
    ValueTrim(input);
    ValueTrim(Upper(input));
    if Bracketed(t, '[', ']') {
      var inner := Inner(t);
      ParseList(inner);
      UpperValues(Items(inner, None), |inner| + 1);
      UpperList(inner, Items(inner, None));
    } else if InQuotes(t) {
      UpperQuoted(t);
    } else {
      UpperPlain(t);
    }
  }

  lemma {:induction false} UpperValues(parts: seq<string>, bound: nat)
    requires forall part :: part in parts ==> |part| < bound
    ensures forall part :: part in UpperAll(parts) ==> |part| < bound
    ensures ParseValues(UpperAll(parts), bound) == Fold(ParseValues(parts, bound), FoldValues)
    decreases bound, |parts|
  {
    hide ParseValue, TrimSpace, Upper;
    if parts != [] {
      UpperTrim(parts[0]);
      UpperValue(TrimSpace(parts[0]));
      UpperValues(parts[1..], bound);
      assert UpperAll(parts)[0] == Upper(parts[0]) && UpperAll(parts)[1..] == UpperAll(parts[1..]);
      var first, rest := ParseValue(TrimSpace(parts[0])), ParseValues(parts[1..], bound);
      if first.Done? && rest.Done? { FoldMore(first.value, rest.value); }
    }
  }

  // ----- conditions -----

  function FoldCondition(c: Condition): Condition {
    match c
    case AlwaysTrue => AlwaysTrue
    case Field(field, comparator, value) => Field(Upper(field), comparator, FoldValue(value))
    case Not(inner) => Not(FoldCondition(inner))
    case And(conjuncts) => And(FoldConditions(conjuncts))
    case Or(disjuncts) => Or(FoldConditions(disjuncts))
  }

  function FoldConditions(cs: seq<Condition>): (folded: seq<Condition>) {
    if cs == [] then [] else [FoldCondition(cs[0])] + FoldConditions(cs[1..])
  }

  lemma FoldMoreConditions(c: Condition, cs: seq<Condition>)
    ensures FoldConditions([c] + cs) == [FoldCondition(c)] + FoldConditions(cs)
  {
    assert ([c] + cs)[1..] == cs;
  }

  lemma UpperPosition(input: string, comparator: string)
    requires comparator != "" && comparator[0] != ' '
    ensures Position(Upper(input), comparator) == Position(input, comparator)
  {
    hide Index;
    UpperParts(input, 0, |input|);
    var bare := Index(Upper(input), comparator);
    if bare > 0 { UpperSame(input[bare - 1]); }
  }

  /** The comparison read at a comparator. */
  function ReadAt(input: string, comparator: string, i: nat): Parsed<Condition>
    requires i < |input| && ValueStart(input, comparator, i) <= |input|
  {
    match ParseValue(TrimSpace(input[ValueStart(input, comparator, i)..]))
    case Error => Error
    case Panic => Panic
    case Done(value) => Done(Field(TrimSpace(input[..i]), comparator, value))
  }

  lemma UpperReadAt(input: string, comparator: string, i: nat)
    requires i < |input| && ValueStart(input, comparator, i) <= |input|
    ensures ValueStart(Upper(input), comparator, i) == ValueStart(input, comparator, i)
    ensures ReadAt(Upper(input), comparator, i) == Fold(ReadAt(input, comparator, i), FoldCondition)
  {
    hide Upper, TrimSpace, ParseValue, FoldValue;
    UpperSame(input[i]);
    var start := ValueStart(input, comparator, i);
    UpperParts(input, i, |input|);
    UpperParts(input, start, |input|);
    UpperTrim(input[..i]);
    UpperTrim(input[start..]);
    UpperValue(TrimSpace(input[start..]));
  }

  lemma TryNext(input: string, k: nat)
    requires k < |COMPARATORS|
    ensures COMPARATORS[k] != "" && COMPARATORS[k][0] != ' '
    ensures TryComparators(input, k) ==
      var i := Position(input, COMPARATORS[k]);
      if i == -1 then TryComparators(input, k + 1) else ReadAt(input, COMPARATORS[k], i)
  {
    hide TrimSpace, ParseValue, Position;
    ComparatorShape(k);
  }

  lemma TryNone(input: string)
    ensures TryComparators(input, |COMPARATORS|) == Error
  {
  }

  lemma {:induction false} UpperComparators(input: string, k: nat)
    requires k <= |COMPARATORS|
    ensures TryComparators(Upper(input), k) == Fold(TryComparators(input, k), FoldCondition)
    decreases |COMPARATORS| - k
  {
    hide Upper, Position, ReadAt, TryComparators, FoldCondition;
    if k == |COMPARATORS| {
      TryNone(input);
      TryNone(Upper(input));
    } else {
      hide COMPARATORS;
      TryNext(input, k);
      TryNext(Upper(input), k);
      UpperPosition(input, COMPARATORS[k]);
      var i := Position(input, COMPARATORS[k]);
      if i == -1 {
        UpperComparators(input, k + 1);
      } else {
        UpperReadAt(input, COMPARATORS[k], i);
      }
    }
  }

  lemma ParseTrim(text: string)
    ensures ParseCondition(TrimSpace(text)) == ParseCondition(text)
  {
    hide Split, TrimSpace, TryComparators, ParseAll;
  }

  /** Both readings of a text agree up to case. */
  predicate Agree(text: string) {
    ParseCondition(Upper(text)) == Fold(ParseCondition(text), FoldCondition)
  }

  lemma UpperCut(input: string, keyword: string, parts: seq<string>)
    requires Trimmed(input) && |parts| >= 2 && ShareQLRoundTrip.Separator(keyword)
    requires Split(input, keyword, 0, None) == parts && (keyword == " AND " ==> |Split(input, " OR ", 0, None)| == 1)
    requires forall part :: part in parts ==> |part| < |input|
    requires forall part :: part in UpperAll(parts) ==> |part| < |input|
    requires ParseAll(UpperAll(parts), |input|) == Fold(ParseAll(parts, |input|), FoldConditions)
    ensures Agree(input)
  {
    hide ParseCondition, ParseAll, Upper, Split, TrimSpace, UpperAll;
    UpperTrim(input);
    UpperSplit(input, keyword, 0, None);
    UpperSplit(input, " OR ", 0, None);
    Whole(input);
    Whole(Upper(input));
    ShareQLRoundTrip.ParseCut(input, keyword, parts);
    ShareQLRoundTrip.ParseCut(Upper(input), keyword, UpperAll(parts));
  }

  /** A split into one part is the text itself. */
  lemma Whole(text: string)
    ensures |Split(text, " OR ", 0, None)| == 1 ==> Split(text, " OR ", 0, None) == [text]
    ensures |Split(text, " AND ", 0, None)| == 1 ==> Split(text, " AND ", 0, None) == [text]
  {
    hide Split;
    var ors := Rejoin(text, " OR ", 0, None);
    var ands := Rejoin(text, " AND ", 0, None);
  }

  lemma FoldNegated(parsed: Parsed<Condition>)
    ensures Fold(ShareQLRoundTrip.Negated(parsed), FoldCondition)
      == ShareQLRoundTrip.Negated(Fold(parsed, FoldCondition))
  {
  }

  lemma SingleUpper(input: string)
    requires Trimmed(input) && Split(input, " OR ", 0, None) == [input] && Split(input, " AND ", 0, None) == [input]
    ensures var u := Upper(input);
      && Trimmed(u) && Split(u, " OR ", 0, None) == [u] && Split(u, " AND ", 0, None) == [u]
      && Upper(u) == u && |u| == |input| && Bracketed(u, '(', ')') == Bracketed(input, '(', ')')
  {
    hide Upper, Split, TrimSpace, Bracketed;
    UpperTrim(input);
    UpperSplit(input, " OR ", 0, None);
    UpperSplit(input, " AND ", 0, None);
    UpperOne(input);
    UpperEnds(input, '(', ')');
    UpperParts(input, 0, |input|);
  }

  lemma UpperSingle(input: string)
    requires Trimmed(input) && Split(input, " OR ", 0, None) == [input] && Split(input, " AND ", 0, None) == [input]
    requires "NOT " <= Upper(input) ==> |input| >= 4 && Agree(input[4..])
    requires !("NOT " <= Upper(input)) && Bracketed(input, '(', ')') ==> |input| >= 2 && Agree(input[1..|input| - 1])
    ensures Agree(input)
  {
    hide ParseCondition, Upper, Split, TrimSpace, Trimmed, ParseComparison, Bracketed, FoldCondition, Fold;
    hide ShareQLRoundTrip.Negated;
    SingleUpper(input);
    ShareQLRoundTrip.ParseSingle(input);
    ShareQLRoundTrip.ParseSingle(Upper(input));
    if "NOT " <= Upper(input) {
      UpperParts(input, 4, |input|);
      FoldNegated(ParseCondition(input[4..]));
    } else if Bracketed(input, '(', ')') {
      UpperParts(input, 1, |input| - 1);
    } else {
      UpperComparison(input);
    }
  }

  lemma UpperComparison(input: string)
    ensures ParseComparison(Upper(input)) == Fold(ParseComparison(input), FoldCondition)
  {
    hide TryComparators, FoldCondition, TrimSpace, Upper;
    UpperTrim(input);
    UpperComparators(TrimSpace(input), 0);
  }

  lemma BracketsApart(input: string)
    requires Bracketed(input, '(', ')')
    ensures |input| >= 2
  {
  }

  lemma {:induction false} UpperCondition(text: string)
    ensures Agree(text)
    decreases |text| + 1, 0
  {
    hide Agree, TrimSpace, Upper, Split;
    var input := TrimSpace(text);
    AgreeTrimmed(text);
    Whole(input);
    var ors, ands := Split(input, " OR ", 0, None), Split(input, " AND ", 0, None);
    if |ors| > 1 {
      UpperConditions(ors, |input|);
      UpperCut(input, " OR ", ors);
    } else if |ands| > 1 {
      UpperConditions(ands, |input|);
      UpperCut(input, " AND ", ands);
    } else {
      if "NOT " <= Upper(input) {
        UpperCondition(input[4..]);
      } else if Bracketed(input, '(', ')') {
        BracketsApart(input);
        UpperCondition(input[1..|input| - 1]);
      }
      UpperSingle(input);
    }
  }

  lemma AgreeTrimmed(text: string)
    ensures Agree(TrimSpace(text)) ==> Agree(text)
  {
    hide ParseCondition, TrimSpace, Upper, Fold;
    UpperTrim(text);
    ParseTrim(text);
    ParseTrim(Upper(text));
  }

  lemma {:induction false} UpperConditions(parts: seq<string>, bound: nat)
    requires forall part :: part in parts ==> |part| < bound
    ensures forall part :: part in UpperAll(parts) ==> |part| < bound
    ensures ParseAll(UpperAll(parts), bound) == Fold(ParseAll(parts, bound), FoldConditions)
    decreases bound, |parts|
  {
    hide ParseCondition, Upper;
    if parts != [] {
      UpperCondition(parts[0]);
      UpperConditions(parts[1..], bound);
      assert UpperAll(parts)[0] == Upper(parts[0]) && UpperAll(parts)[1..] == UpperAll(parts[1..]);
      var first, rest := ParseCondition(parts[0]), ParseAll(parts[1..], bound);
      if first.Done? && rest.Done? { FoldMoreConditions(first.value, rest.value); }
    }
  }

  // ----- rule lines -----

  function FoldRule(rule: Rule): Rule {
    match rule
    case Default(allow) => Default(allow)
    case Rule(allow, scope, condition) => Rule(allow, scope, FoldCondition(condition))
  }

  lemma UpperDrop(s: string, n: nat)
    ensures DropFirst(Upper(s), n) == Upper(DropFirst(s, n))
  {
    if n <= |s| { UpperParts(s, n, |s|); }
  }

  lemma UpperIf(allow: bool, scope: Scope, remaining: string)
    ensures ParseIf(allow, scope, Upper(remaining)) == Fold(ParseIf(allow, scope, remaining), FoldRule)
  {
    hide ParseCondition, TrimSpace, Upper, DropFirst;
    UpperParts(remaining, 0, |remaining|);
    UpperDrop(remaining, 3);
    UpperTrim(DropFirst(remaining, 3));
    UpperCondition(TrimSpace(DropFirst(remaining, 3)));
  }

  lemma UpperScope(allow: bool, remaining: string)
    ensures ParseScope(allow, Upper(remaining)) == Fold(ParseScope(allow, remaining), FoldRule)
  {
    hide ParseIf, TrimSpace, Upper, DropFirst, FoldRule;
    UpperParts(remaining, 0, |remaining|);
    UpperDrop(remaining, 11);
    UpperDrop(remaining, 10);
    UpperTrim(DropFirst(remaining, 11));
    UpperTrim(DropFirst(remaining, 10));
    UpperIf(allow, Exploration, TrimSpace(DropFirst(remaining, 11)));
    UpperIf(allow, Processing, TrimSpace(DropFirst(remaining, 10)));
    UpperIf(allow, All, remaining);
  }

  /**
    * A rule line in capitals is read as the line itself is, up to the letter case of fields and strings: keywords,
    * comparators and literals are recognized in any case, and lines with errors stay lines with errors.
    */
  lemma CaseBlind(line: string)
    ensures ParseLine(Upper(line)) == Fold(ParseLine(line), FoldRule)
  {
    hide ParseScope, TrimSpace, Upper, DropFirst, Index;
    var t := TrimSpace(line);
    UpperTrim(line);
    UpperParts(t, 0, |t|);
    MarkUpper(t, ':');
    UpperDrop(t, 5);
    UpperDrop(t, 4);
    UpperTrim(DropFirst(t, 5));
    UpperTrim(DropFirst(t, 4));
    UpperScope(true, TrimSpace(DropFirst(t, 5)));
    UpperScope(false, TrimSpace(DropFirst(t, 4)));
    var i := Index(t, ":") + 1;
    UpperParts(t, i, |t|);
    UpperParts(t[i..], 0, |t| - i);
  }

  // ----- rule files and decisions -----

  function FoldRules(rules: seq<Rule>): (folded: seq<Rule>)
    ensures |folded| == |rules| && forall i :: 0 <= i < |rules| ==> folded[i] == FoldRule(rules[i])
  {
    seq(|rules|, i requires 0 <= i < |rules| => FoldRule(rules[i]))
  }

  function FoldReport(report: Report): Report {
    Report(FoldRules(report.rules), report.errors)
  }

  lemma UpperSkipped(line: string)
    ensures Skipped(Upper(line)) == Skipped(line)
  {
    if line != "" { UpperSame(line[0]); }
    if |line| > 1 { UpperSame(line[1]); }
  }

  lemma FoldAfter(first: Report, rest: Parsed<Report>)
    ensures Fold(After(first, rest), FoldReport) == After(FoldReport(first), Fold(rest, FoldReport))
  {
    if rest.Done? {
      var report := rest.value;
      assert FoldRules(first.rules + report.rules) == FoldRules(first.rules) + FoldRules(report.rules);
    }
  }

  /** The same for the lines of a file: the same rules up to letter case, and the same lines in error. */
  lemma {:induction false} FileCaseBlind(lines: seq<string>, n: nat)
    ensures ParseLines(UpperAll(lines), n) == Fold(ParseLines(lines, n), FoldReport)
  {
    hide ParseLine, TrimSpace, Upper, Skipped, ParseLines, After, Fold, FoldReport;
    if lines == [] {
      NoLines(n);
      FoldNothing();
      assert UpperAll([]) == [];
    } else {
      var line, rest := TrimSpace(lines[0]), ParseLines(lines[1..], n + 1);
      assert UpperAll(lines)[0] == Upper(lines[0]) && UpperAll(lines)[1..] == UpperAll(lines[1..]);
      FirstLine(lines, n);
      FirstLine(UpperAll(lines), n);
      UpperTrim(lines[0]);
      UpperSkipped(line);
      CaseBlind(line);
      FileCaseBlind(lines[1..], n + 1);
      FoldLine(ParseLine(line), rest, n + 1);
    }
  }

  lemma FoldNothing()
    ensures Fold(Done(Report([], [])), FoldReport) == Done(Report([], []))
  {
  }

  lemma FoldLine(parsed: Parsed<Rule>, rest: Parsed<Report>, n: nat)
    ensures Fold(match parsed
                 case Panic => Panic
                 case Error => After(Report([], [n]), rest)
                 case Done(rule) => After(Report([rule], []), rest), FoldReport)
      == match Fold(parsed, FoldRule)
         case Panic => Panic
         case Error => After(Report([], [n]), Fold(rest, FoldReport))
         case Done(rule) => After(Report([rule], []), Fold(rest, FoldReport))
  {
    hide After, FoldRule;
    FoldAfter(Report([], [n]), rest);
    assert FoldReport(Report([], [n])) == Report([], [n]);
    if parsed.Done? {
      FoldAfter(Report([parsed.value], []), rest);
      assert FoldReport(Report([parsed.value], [])) == Report([FoldRule(parsed.value)], []);
    }
  }

  /** No pattern is matched. */
  predicate Patternless(c: Condition) {
    match c
    case AlwaysTrue => true
    case Field(_, comparator, _) => comparator != "MATCHES"
    case Not(inner) => Patternless(inner)
    case And(conjuncts) => forall c :: c in conjuncts ==> Patternless(c)
    case Or(disjuncts) => forall c :: c in disjuncts ==> Patternless(c)
  }

  /** Comparing with a literal, its letter case does not matter. */
  lemma FoldCompare(field: FieldValue, literal: Value, matches: (FieldValue, Value) -> bool)
    ensures var compare := Standard(matches);
      && compare.equal(field, FoldValue(literal)) == compare.equal(field, literal)
      && compare.less(field, FoldValue(literal)) == compare.less(field, literal)
      && compare.greater(field, FoldValue(literal)) == compare.greater(field, literal)
  {
    hide FieldText, LiteralText, Upper, FoldValue, LiteralNumber;
    FoldedText(literal);
  }

  lemma FoldedText(literal: Value)
    ensures Upper(LiteralText(FoldValue(literal))) == Upper(LiteralText(literal))
    ensures LiteralNumber(FoldValue(literal)) == LiteralNumber(literal)
  {
    hide Rune, Amount;
    if literal.Str? { UpperParts(literal.text, 0, |literal.text|); }
  }

  lemma {:induction false} FoldItems(items: seq<Value>)
    ensures |FoldValues(items)| == |items| && forall i :: 0 <= i < |items| ==>
      FoldValues(items)[i] == FoldValue(items[i])
  {
    if items != [] { FoldItems(items[1..]); }
  }

  lemma {:induction false} FoldEach(cs: seq<Condition>)
    ensures |FoldConditions(cs)| == |cs| && forall i :: 0 <= i < |cs| ==> FoldConditions(cs)[i] == FoldCondition(cs[i])
  {
    if cs != [] { FoldEach(cs[1..]); }
  }

  lemma FoldCompares(field: FieldValue, comparator: string, literal: Value, matches: (FieldValue, Value) -> bool)
    requires comparator != "MATCHES"
    ensures Compares(field, comparator, FoldValue(literal), Standard(matches))
      == Compares(field, comparator, literal, Standard(matches))
  {
    hide Standard, FoldValue;
    var compare := Standard(matches);
    FoldCompare(field, literal, matches);
    FoldedList(literal);
    if literal.List? {
      var folded := FoldValue(literal).items;
      forall i | 0 <= i < |literal.items|
        ensures compare.equal(field, folded[i]) == compare.equal(field, literal.items[i]) {
        FoldCompare(field, literal.items[i], matches);
      }
      assert forall x :: x in folded <==> exists i :: 0 <= i < |folded| && folded[i] == x;
    }
  }

  lemma FoldedList(literal: Value)
    ensures literal.List? == FoldValue(literal).List?
    ensures literal.List? ==> var folded := FoldValue(literal).items;
      |folded| == |literal.items| && forall i :: 0 <= i < |folded| ==> folded[i] == FoldValue(literal.items[i])
  {
    if literal.List? { FoldItems(literal.items); }
  }

  lemma {:induction false} FoldHolds(c: Condition, context: Context, matches: (FieldValue, Value) -> bool)
    requires Patternless(c)
    ensures Holds(FoldCondition(c), context, Standard(matches)) == Holds(c, context, Standard(matches))
    decreases c
  {
    hide Standard, Compares, GetFieldValue, Upper;
    match c
    case AlwaysTrue =>
    case Field(field, comparator, literal) =>
      UpperParts(field, 0, |field|);
      FieldMeanings.AnyCase(context, field, Upper(field));
      FoldCompares(GetFieldValue(context, field), comparator, literal, matches);
    case Not(inner) => FoldHolds(inner, context, matches);
    case And(conjuncts) => FoldAll(conjuncts, context, matches);
    case Or(disjuncts) => FoldAll(disjuncts, context, matches);
  }

  lemma {:induction false} FoldAll(cs: seq<Condition>, context: Context, matches: (FieldValue, Value) -> bool)
    requires forall c :: c in cs ==> Patternless(c)
    ensures (forall c :: c in FoldConditions(cs) ==> Holds(c, context, Standard(matches)))
      <==> (forall c :: c in cs ==> Holds(c, context, Standard(matches)))
    ensures (exists c :: c in FoldConditions(cs) && Holds(c, context, Standard(matches)))
      <==> (exists c :: c in cs && Holds(c, context, Standard(matches)))
    decreases cs
  {
    hide Standard, Holds, Patternless, FoldCondition;
    FoldEach(cs);
    forall c | c in cs ensures Holds(FoldCondition(c), context, Standard(matches)) ==
      Holds(c, context, Standard(matches)) {
      FoldHolds(c, context, matches);
    }
    forall c | c in FoldConditions(cs) ensures exists d :: d in cs && c == FoldCondition(d) {
      var i :| 0 <= i < |cs| && FoldConditions(cs)[i] == c;
      assert cs[i] in cs;
    }
    forall c | c in cs ensures FoldCondition(c) in FoldConditions(cs) {
      var i :| 0 <= i < |cs| && cs[i] == c;
      assert FoldConditions(cs)[i] == FoldCondition(c);
    }
  }

  /** Without patterns, rules in capitals decide everything as the rules themselves do. */
  lemma CaseNeverDecides(rules: seq<Rule>, scope: Scope, context: Context, matches: (FieldValue, Value) -> bool)
    requires forall rule :: rule in rules && rule.Rule? ==> Patternless(rule.condition)
    ensures Evaluate(FoldRules(rules), scope, context, Standard(matches))
      == Evaluate(rules, scope, context, Standard(matches))
  {
    hide Standard;
    FoldDefault(rules);
    FoldFirst(rules, scope, context, matches, DefaultAllow(rules));
  }

  lemma {:induction false} FoldDefault(rules: seq<Rule>)
    ensures DefaultAllow(FoldRules(rules)) == DefaultAllow(rules)
  {
    if rules != [] {
      FoldDefault(rules[1..]);
      assert FoldRules(rules)[1..] == FoldRules(rules[1..]);
    }
  }

  lemma {:induction false} FoldFirst(rules: seq<Rule>, scope: Scope, context: Context,
                                     matches: (FieldValue, Value) -> bool, otherwise: bool)
    requires forall rule :: rule in rules && rule.Rule? ==> Patternless(rule.condition)
    ensures FirstDecision(FoldRules(rules), scope, context, Standard(matches), otherwise)
      == FirstDecision(rules, scope, context, Standard(matches), otherwise)
  {
    hide Standard, Holds, Patternless, FoldCondition;
    if rules != [] {
      if rules[0].Rule? { FoldHolds(rules[0].condition, context, matches); }
      FoldFirst(rules[1..], scope, context, matches, otherwise);
      assert FoldRules(rules)[1..] == FoldRules(rules[1..]);
    }
  }
}
