/** Printing ShareQL conditions, and exactly when the parser gives a printed condition back. */
module ShareQLRoundTrip {
  import opened Common
  import opened Texts
  import opened Splitters
  import opened Rules
  import opened ShareQL
  import opened ShareQLPrinting
  import opened ShareQLValues

  /** Operands of AND, OR and NOT stand in parentheses. */
  function Print(c: Condition): string
    requires Printable(c)
    decreases c, 0
  {
    match c
    case Field(field, comparator, value) => Comparison(field, comparator, PrintValue(value))
    case Not(inner) => "NOT " + Wrap(Print(inner))
    case And(conjuncts) => Joined(PrintAll(conjuncts), " AND ")
    case Or(disjuncts) => Joined(PrintAll(disjuncts), " OR ")
  }

  function PrintAll(cs: seq<Condition>): (texts: seq<string>)
    requires forall c :: c in cs ==> Printable(c)
    ensures |texts| == |cs| && forall i :: 0 <= i < |cs| ==> texts[i] == Print(cs[i])
    decreases cs, |cs|
  {
    if cs == [] then [] else [Print(cs[0])] + PrintAll(cs[1..])
  }

  function Wrap(text: string): string {
    "(" + text + ")"
  }

  function Joined(texts: seq<string>, separator: string): string {
    if texts == [] then ""
    else if |texts| == 1 then Wrap(texts[0])
    else Wrap(texts[0]) + (separator + Joined(texts[1..], separator))
  }

  /**
   * Fields the evaluator knows, comparators the parser knows, strings without quotes and brackets, no empty connective.
   */
  predicate Printable(c: Condition) {
    match c
    case AlwaysTrue => false
    case Field(field, comparator, value) => KnownField(field) && comparator in COMPARATORS && Writable(value)
    case Not(inner) => Printable(inner)
    case And(conjuncts) => conjuncts != [] && forall c :: c in conjuncts ==> Printable(c)
    case Or(disjuncts) => disjuncts != [] && forall c :: c in disjuncts ==> Printable(c)
  }

  /**
    * Connectives join at least two conditions, literals are listable, and in no comparison is a comparator that the
    * parser tries earlier seen in the literal.
    */
  predicate Faithful(c: Condition)
    requires Printable(c)
  {
    match c
    case Field(_, comparator, value) =>
      Listable(value) && !Mistakable(PrintValue(value), FirstIndex(COMPARATORS, comparator))
    case Not(inner) => Faithful(inner)
    case And(conjuncts) => |conjuncts| >= 2 && forall c :: c in conjuncts ==> Faithful(c)
    case Or(disjuncts) => |disjuncts| >= 2 && forall c :: c in disjuncts ==> Faithful(c)
  }

  // ----- where the splitters do not cut -----

  /** Where a scan stands: bracket depth and open quote. */
  datatype Spot = Spot(depth: int, quote: Option<char>)

  function Step(spot: Spot, c: char): Spot {
    Spot(DepthAfter(spot.depth, c), QuoteAfter(spot.quote, c))
  }

  /** No keyword of the form space, `avoid`, ... is cut at x when y follows. */
  predicate Held(x: char, y: char, avoid: char, spot: Spot) {
    spot.depth != 0 || spot.quote.Some? || x != ' ' || UpperChar(y) != avoid
  }

  /** A scan goes over the text from one spot to another without a cut; `next` follows the text. */
  predicate Crosses(s: string, next: char, avoid: char, from: Spot, to: Spot) {
    if s == "" then from == to
    else Held(s[0], CharAt(s, 1, next), avoid, from) && Crosses(s[1..], next, avoid, Step(from, s[0]), to)
  }

  lemma {:induction false} CrossConcat(a: string, b: string, next: char, avoid: char, from: Spot, middle: Spot,
                                       to: Spot)
    requires Crosses(a, CharAt(b, 0, next), avoid, from, middle) && Crosses(b, next, avoid, middle, to)
    ensures Crosses(a + b, next, avoid, from, to)
  {
    hide Held, Step;
    if a == "" {
      assert a + b == b;
    } else {
      assert (a + b)[1..] == a[1..] + b;
      CrossConcat(a[1..], b, next, avoid, Step(from, a[0]), middle, to);
    }
  }

  predicate Avoids(keyword: string, avoid: char) {
    (keyword == " OR " && avoid == 'O') || (keyword == " AND " && avoid == 'A')
  }

  lemma HeldNotCut(text: string, keyword: string, next: char, avoid: char, spot: Spot)
    requires text != "" && Avoids(keyword, avoid) && Held(text[0], CharAt(text, 1, next), avoid, spot)
    ensures !Cuts(text, keyword, spot.depth, spot.quote)
  {
    if Begins(text, keyword) {
      assert Upper(text)[0] == Upper(keyword)[0] == ' ' && Upper(text)[1] == Upper(keyword)[1] == avoid;
    }
  }

  /** Text crossed without a cut goes to the part being built. */
  lemma {:induction false} SplitCrossed(a: string, b: string, keyword: string, avoid: char, from: Spot, to: Spot)
    requires Avoids(keyword, avoid) && Crosses(a, CharAt(b, 0, '('), avoid, from, to)
    ensures Split(a + b, keyword, from.depth, from.quote) == Prepend(a, Split(b, keyword, to.depth, to.quote))
  {
    hide Split, Cuts, Held, DepthAfter, QuoteAfter;
    var rest := Split(b, keyword, to.depth, to.quote);
    if a == "" {
      assert a + b == b;
      assert "" + rest[0] == rest[0];
    } else {
      var text, spot := a + b, Step(from, a[0]);
      assert text[1..] == a[1..] + b && text[..1] == a[..1] && a == a[..1] + a[1..];
      HeldNotCut(text, keyword, '(', avoid, from);
      SplitUnfold(text, keyword, from.depth, from.quote);
      SplitCrossed(a[1..], b, keyword, avoid, spot, to);
      PrependTwice(a[..1], a[1..], rest);
    }
  }

  const TOP := Spot(0, None)

  lemma SplitSingle(text: string, keyword: string, avoid: char)
    requires Avoids(keyword, avoid) && Crosses(text, '(', avoid, TOP, TOP)
    ensures Split(text, keyword, 0, None) == [text]
  {
    SplitCrossed(text, "", keyword, avoid, TOP, TOP);
    EmptySplit(keyword, 0, None);
    assert text + "" == text;
  }

  // ----- crossing what is printed -----

  predicate Plain(s: string) {
    forall i :: 0 <= i < |s| ==> !Quote(s[i]) && !Opens(s[i]) && !Closes(s[i])
  }

  lemma {:induction false} CrossPlain(s: string, next: char, avoid: char, spot: Spot)
    requires Plain(s)
    requires forall i :: 0 <= i < |s| ==> Held(s[i], CharAt(s, i + 1, next), avoid, spot)
    ensures Crosses(s, next, avoid, spot, spot)
  {
    hide Held;
    if s != "" {
      forall i | 0 <= i < |s[1..]|
        ensures s[1..][i] == s[i + 1] && CharAt(s[1..], i + 1, next) == CharAt(s, i + 2, next)
      {
      }
      assert Step(spot, s[0]) == spot;
      CrossPlain(s[1..], next, avoid, spot);
    }
  }

  /** One character. */
  lemma CrossChar(c: char, next: char, avoid: char, from: Spot)
    requires c != ' '
    ensures Crosses([c], next, avoid, from, Step(from, c))
  {
    assert [c][1..] == "";
  }

  lemma {:induction false} CrossValue(v: Value, next: char, avoid: char, d: nat)
    requires Writable(v)
    ensures Crosses(PrintValue(v), next, avoid, Spot(d, None), Spot(d, None))
    decreases v, 0
  {
    hide Crosses, Numeral;
    var here := Spot(d, None);
    match v
    case Str(text) =>
      var quoted := Spot(d, Some('\''));
      CrossChar('\'', CharAt(text + "'", 0, next), avoid, here);
      CrossPlain(text, '\'', avoid, quoted);
      CrossChar('\'', next, avoid, quoted);
      CrossConcat(text, "'", next, avoid, quoted, quoted, here);
      CrossConcat("'", text + "'", next, avoid, here, quoted, here);
      assert "'" + text + "'" == "'" + (text + "'");
    case Bool(b) => CrossPlain(PrintValue(v), next, avoid, here);
    case Num(numeral) =>
      forall i | 0 <= i < |numeral| ensures NumeralChar(numeral[i]) { NumeralChars(numeral, i); }
      CrossPlain(numeral, next, avoid, here);
    case List(items) =>
      var inner, inside := PrintItems(items), Spot(d + 1, None);
      CrossChar('[', CharAt(inner + "]", 0, next), avoid, here);
      CrossItems(items, ']', avoid, d + 1);
      CrossChar(']', next, avoid, inside);
      CrossConcat(inner, "]", next, avoid, inside, inside, here);
      CrossConcat("[", inner + "]", next, avoid, here, inside, here);
      assert "[" + inner + "]" == "[" + (inner + "]");
  }

  lemma {:induction false} CrossItems(items: seq<Value>, next: char, avoid: char, d: nat)
    requires forall item :: item in items ==> Writable(item)
    ensures Crosses(PrintItems(items), next, avoid, Spot(d, None), Spot(d, None))
    decreases items, |items|
  {
    hide Writable;
    var here := Spot(d, None);
    if items != [] {
      hide Crosses;
      if |items| == 1 {
        CrossValue(items[0], next, avoid, d);
      } else {
        var first, rest := PrintValue(items[0]), PrintItems(items[1..]);
        CrossValue(items[0], ',', avoid, d);
        CrossChar(',', CharAt(rest, 0, next), avoid, here);
        CrossItems(items[1..], next, avoid, d);
        CrossConcat(",", rest, next, avoid, here, here, here);
        CrossConcat(first, "," + rest, next, avoid, here, here, here);
        assert first + "," + rest == first + ("," + rest);
      }
    }
  }

  predicate Keyed(avoid: char) {
    avoid == 'O' || avoid == 'A'
  }

  lemma CrossComparison(field: string, m: nat, v: Value, next: char, avoid: char, d: nat)
    requires KnownField(field) && m < |COMPARATORS| && Writable(v) && Keyed(avoid)
    ensures Crosses(Comparison(field, COMPARATORS[m], PrintValue(v)), next, avoid, Spot(d, None), Spot(d, None))
  {
    hide Crosses, PrintValue, Writable, Clear, Upper, KnownField, Held, COMPARATORS;
    var comparator, value, here := COMPARATORS[m], PrintValue(v), Spot(d, None);
    var head := field + " " + comparator + " ";
    PrintedEnds(v);
    KnownFieldsClear(field);
    ComparatorShape(m);
    ComparatorUnmarked(m);
    forall i | 0 <= i < |head|
      ensures !Quote(head[i]) && !Opens(head[i]) && !Closes(head[i])
      ensures Held(head[i], CharAt(head, i + 1, value[0]), avoid, here)
    {
      HeadHeld(field, m, value[0], avoid, here, i);
    }
    CrossPlain(head, value[0], avoid, here);
    CrossValue(v, next, avoid, d);
    CrossConcat(head, value, next, avoid, here, here, here);
  }

  lemma HeadHeld(field: string, m: nat, next: char, avoid: char, spot: Spot, i: nat)
    requires Clear(Upper(field)) && m < |COMPARATORS| && Shaped(COMPARATORS[m], m == 0) && Unmarked(COMPARATORS[m]) &&
      Keyed(avoid)
    requires next == '\'' || next == '[' || next == 'T' || next == 'F' || NumeralChar(next)
    requires i < |field| + |COMPARATORS[m]| + 2
    ensures var head := field + " " + COMPARATORS[m] + " ";
            !Quote(head[i]) && !Opens(head[i]) && !Closes(head[i]) &&
              Held(head[i], CharAt(head, i + 1, next), avoid, spot)
  {
    hide Clear, Upper;
    var comparator := COMPARATORS[m];
    var head := field + " " + comparator + " ";
    var j := i - |field| - 1;
    if i < |field| {
      FieldLetter(field, i);
      assert head[i] == field[i];
    } else if j == -1 {
      assert head[i] == ' ' && head[i + 1] == comparator[0];
    } else if j < |comparator| {
      assert head[i] == comparator[j];
      if comparator[j] == ' ' { assert head[i + 1] == comparator[j + 1]; }
    } else {
      assert head[i] == ' ';
    }
  }

  lemma CrossWrap(text: string, next: char, avoid: char, d: nat)
    requires Crosses(text, ')', avoid, Spot(d + 1, None), Spot(d + 1, None))
    ensures Crosses(Wrap(text), next, avoid, Spot(d, None), Spot(d, None))
  {
    hide Crosses;
    var here, inside := Spot(d, None), Spot(d + 1, None);
    CrossChar('(', CharAt(text + ")", 0, next), avoid, here);
    CrossChar(')', next, avoid, inside);
    CrossConcat(text, ")", next, avoid, inside, inside, here);
    CrossConcat("(", text + ")", next, avoid, here, inside, here);
    assert Wrap(text) == "(" + (text + ")");
  }

  predicate Separator(keyword: string) {
    keyword == " OR " || keyword == " AND "
  }

  lemma CrossSeparator(separator: string, avoid: char, spot: Spot)
    requires Separator(separator) && Keyed(avoid) && (spot.depth != 0 || separator[1] != avoid)
    ensures Crosses(separator, '(', avoid, spot, spot)
  {
    CrossPlain(separator, '(', avoid, spot);
  }

  lemma SeparatorSpace(separator: string)
    requires Separator(separator)
    ensures separator != "" && separator[0] == ' '
  {
  }

  lemma {:induction false} CrossJoined(texts: seq<string>, separator: string, next: char, avoid: char, d: nat)
    requires Separator(separator) && Keyed(avoid) && (d != 0 || separator[1] != avoid)
    requires forall i :: 0 <= i < |texts| ==> Crosses(texts[i], ')', avoid, Spot(d + 1, None), Spot(d + 1, None))
    ensures Crosses(Joined(texts, separator), next, avoid, Spot(d, None), Spot(d, None))
  {
    var here := Spot(d, None);
    if texts != [] {
      hide Crosses, Keyed, Separator;
      if |texts| == 1 {
        CrossWrap(texts[0], next, avoid, d);
      } else {
        var first, rest := Wrap(texts[0]), Joined(texts[1..], separator);
        assert forall i :: 0 <= i < |texts[1..]| ==> texts[1..][i] == texts[i + 1];
        CrossJoined(texts[1..], separator, next, avoid, d);
        CrossWrap(texts[0], ' ', avoid, d);
        CrossSeparator(separator, avoid, here);
        assert rest[0] == '(';
        CrossConcat(separator, rest, next, avoid, here, here, here);
        SeparatorSpace(separator);
        CrossConcat(first, separator + rest, next, avoid, here, here, here);
      }
    }
  }

  /** At depth 0, a connective may be cut at its own keyword. */
  lemma {:induction false} CrossPrint(c: Condition, next: char, avoid: char, d: nat)
    requires Printable(c) && Keyed(avoid)
    requires d != 0 || ((c.And? ==> avoid == 'O') && (c.Or? ==> avoid == 'A'))
    ensures Crosses(Print(c), next, avoid, Spot(d, None), Spot(d, None))
    decreases c, 0
  {
    hide Crosses, Joined, KnownField, COMPARATORS, Writable, PrintValue;
    match c
    case Field(field, comparator, value) =>
      CrossComparison(field, FirstIndex(COMPARATORS, comparator), value, next, avoid, d);
    case Not(inner) =>
      var here, wrapped := Spot(d, None), Wrap(Print(inner));
      CrossPrint(inner, ')', avoid, d + 1);
      CrossWrap(Print(inner), next, avoid, d);
      CrossNot(avoid, here);
      CrossConcat("NOT ", wrapped, next, avoid, here, here, here);
    case And(conjuncts) =>
      CrossAll(conjuncts, avoid, d);
      CrossJoined(PrintAll(conjuncts), " AND ", next, avoid, d);
    case Or(disjuncts) =>
      CrossAll(disjuncts, avoid, d);
      CrossJoined(PrintAll(disjuncts), " OR ", next, avoid, d);
  }

  lemma CrossNot(avoid: char, spot: Spot)
    requires Keyed(avoid)
    ensures Crosses("NOT ", '(', avoid, spot, spot)
  {
    CrossPlain("NOT ", '(', avoid, spot);
  }

  lemma {:induction false} CrossAll(cs: seq<Condition>, avoid: char, d: nat)
    requires Keyed(avoid) && forall c :: c in cs ==> Printable(c)
    ensures forall i :: 0 <= i < |cs| ==> Crosses(PrintAll(cs)[i], ')', avoid, Spot(d + 1, None), Spot(d + 1, None))
    decreases cs, |cs|
  {
    hide Crosses, Printable, Print, PrintAll;
    forall i | 0 <= i < |cs| ensures Crosses(PrintAll(cs)[i], ')', avoid, Spot(d + 1, None), Spot(d + 1, None)) {
      CrossPrint(cs[i], ')', avoid, d + 1);
    }
  }

  // ----- parsing what is printed -----

  lemma ComparisonEnds(field: string, comparator: string, value: Value)
    requires KnownField(field) && Writable(value)
    ensures var text := Comparison(field, comparator, PrintValue(value));
            text != "" && Trimmed(text) && text[0] != '(' && !("NOT " <= Upper(text))
  {
    hide Clear, Upper, KnownField, PrintValue, Writable;
    KnownFieldsClear(field);
    FieldLetter(field, 0);
    PrintedEnds(value);
    var text, v := Comparison(field, comparator, PrintValue(value)), PrintValue(value);
    assert text[0] == field[0] && text[|text| - 1] == v[|v| - 1];
    NotWord(field, comparator + " " + v);
    assert text == field + (" " + (comparator + " " + v));
  }

  lemma PrintedTrimmed(c: Condition)
    requires Printable(c)
    ensures Print(c) != "" && Trimmed(Print(c))
    ensures c.Field? || c.Not? ==> Print(c)[0] != '('
    ensures c.Field? ==> !("NOT " <= Upper(Print(c)))
  {
    hide COMPARATORS, KnownField, Writable, Upper, Comparison, Joined;
    match c
    case Field(field, comparator, value) => ComparisonEnds(field, comparator, value);
    case Not(inner) =>
    case And(conjuncts) => JoinedEnds(PrintAll(conjuncts), " AND ");
    case Or(disjuncts) => JoinedEnds(PrintAll(disjuncts), " OR ");
  }

  /** No known field is the word NOT. */
  lemma NotWord(field: string, rest: string)
    requires Clear(Upper(field)) && field != ""
    ensures !("NOT " <= Upper(field + (" " + rest)))
  {
    UpperConcat(field, " " + rest);
    var u := Upper(field + (" " + rest));
    assert u[0] == Upper(field)[0];
    assert ClearAt(Upper(field), 0);
    if |field| > 1 {
      assert u[1] == Upper(field)[1];
    } else {
      assert u[1] == UpperChar(' ');
    }
  }

  lemma {:induction false} JoinedEnds(texts: seq<string>, separator: string)
    ensures texts != [] ==> var s := Joined(texts, separator); s != "" && s[0] == '(' && s[|s| - 1] == ')'
  {
    if |texts| > 1 {
      JoinedEnds(texts[1..], separator);
    }
  }

  function Negated(parsed: Parsed<Condition>): Parsed<Condition> {
    match parsed
    case Done(inner) => Done(Not(inner))
    case Error => Error
    case Panic => Panic
  }

  /** A text that neither splitter cuts. */
  lemma ParseSingle(text: string)
    requires Trimmed(text) && Split(text, " OR ", 0, None) == [text] && Split(text, " AND ", 0, None) == [text]
    ensures "NOT " <= Upper(text) ==> |text| >= 4 && ParseCondition(text) == Negated(ParseCondition(text[4..]))
    ensures !("NOT " <= Upper(text)) && Bracketed(text, '(', ')') && |text| >= 2 ==>
      ParseCondition(text) == ParseCondition(text[1..|text| - 1])
    ensures !("NOT " <= Upper(text)) && !Bracketed(text, '(', ')') ==> ParseCondition(text) == ParseComparison(text)
  {
    hide Split, Trimmed, ParseComparison, ParseAll, TrimSpace;
    assert "NOT " <= Upper(text) ==> |Upper(text)| >= 4;
  }

  lemma ParseCut(text: string, keyword: string, parts: seq<string>)
    requires Trimmed(text) && |parts| >= 2 && Separator(keyword)
    requires Split(text, keyword, 0, None) == parts && (keyword == " AND " ==> Split(text, " OR ", 0, None) == [text])
    ensures forall part :: part in parts ==> |part| < |text|
    ensures ParseCondition(text) ==
      match ParseAll(parts, |text|)
      case Done(conditions) => Done(if keyword == " OR " then Or(conditions) else And(conditions))
      case Error => Error
      case Panic => Panic
  {
    hide Trimmed, ParseAll;
  }

  /** Parentheses around a printed condition change nothing. */
  lemma ParseWrapped(c: Condition)
    requires Printable(c)
    ensures ParseCondition(Wrap(Print(c))) == ParseCondition(Print(c))
  {
    hide Crosses, Print, Printable, ParseCondition, Split;
    var text := Wrap(Print(c));
    CrossPrint(c, ')', 'O', 1);
    CrossPrint(c, ')', 'A', 1);
    CrossWrap(Print(c), '(', 'O', 0);
    CrossWrap(Print(c), '(', 'A', 0);
    SplitSingle(text, " OR ", 'O');
    SplitSingle(text, " AND ", 'A');
    ParseSingle(text);
    assert text[1..|text| - 1] == Print(c);
    assert Upper(text)[0] == UpperChar('(');
  }

  function WrapAll(texts: seq<string>): (wrapped: seq<string>)
    ensures |wrapped| == |texts| && forall i :: 0 <= i < |texts| ==> wrapped[i] == Wrap(texts[i])
  {
    if texts == [] then [] else [Wrap(texts[0])] + WrapAll(texts[1..])
  }

  lemma {:induction false} SplitJoined(texts: seq<string>, separator: string, avoid: char)
    requires Avoids(separator, avoid) && texts != []
    requires forall i :: 0 <= i < |texts| ==> Crosses(texts[i], ')', avoid, Spot(1, None), Spot(1, None))
    ensures Split(Joined(texts, separator), separator, 0, None) == WrapAll(texts)
  {
    hide Crosses, Split, Wrap;
    var first, others := Wrap(texts[0]), texts[1..];
    if |texts| == 1 {
      CrossWrap(texts[0], '(', avoid, 0);
      SplitSingle(first, separator, avoid);
    } else {
      assert forall i :: 0 <= i < |others| ==> others[i] == texts[i + 1];
      SplitJoined(others, separator, avoid);
      CrossWrap(texts[0], ' ', avoid, 0);
      var rest := Joined(others, separator);
      assert (separator + rest)[0] == ' ';
      SplitCrossed(first, separator + rest, separator, avoid, TOP, TOP);
      SplitHere(separator, rest);
      assert first + "" == first;
    }
  }

  lemma SplitHere(separator: string, rest: string)
    requires Separator(separator)
    ensures Split(separator + rest, separator, 0, None) == [""] + Split(rest, separator, 0, None)
  {
    var text := separator + rest;
    UpperTake(text, |separator|);
    assert text[..|separator|] == separator && text[|separator|..] == rest;
    SplitUnfold(text, separator, 0, None);
  }

  lemma {:induction false} ParsedAllCount(parts: seq<string>, bound: nat)
    requires forall part :: part in parts ==> |part| < bound
    ensures var r := ParseAll(parts, bound); r.Done? ==> |r.value| == |parts|
    decreases |parts|
  {
    hide ParseCondition;
    if parts != [] {
      ParsedAllCount(parts[1..], bound);
    }
  }

  /** The parser never makes a connective of fewer than two conditions. */
  lemma {:induction false} ParsedConnectives(text: string)
    ensures var r := ParseCondition(text); r.Done? ==>
      (r.value.And? ==> |r.value.conjuncts| >= 2) && (r.value.Or? ==> |r.value.disjuncts| >= 2)
    decreases |text|
  {
    hide Split, ParseComparison, ParseAll, TrimSpace;
    var input := TrimSpace(text);
    var orParts, andParts := Split(input, " OR ", 0, None), Split(input, " AND ", 0, None);
    if |orParts| > 1 {
      ParsedAllCount(orParts, |input|);
    } else if |andParts| > 1 {
      ParsedAllCount(andParts, |input|);
    } else if "NOT " <= Upper(input) {
    } else if Bracketed(input, '(', ')') {
      ParsedConnectives(input[1..|input| - 1]);
    } else {
      ComparisonIsField(input);
    }
  }

  lemma ComparisonIsField(text: string)
    ensures var r := ParseComparison(text); r.Done? ==> r.value.Field?
  {
    TriedIsField(TrimSpace(text), 0);
  }

  lemma {:induction false} TriedIsField(input: string, k: nat)
    requires k <= |COMPARATORS|
    ensures var r := TryComparators(input, k); r.Done? ==> r.value.Field?
    decreases |COMPARATORS| - k
  {
    hide Position, ParseValue, TrimSpace;
    if k < |COMPARATORS| {
      ComparatorShape(k);
      hide COMPARATORS;
      if Position(input, COMPARATORS[k]) == -1 {
        TriedIsField(input, k + 1);
      }
    }
  }

  lemma {:induction false} AllParsed(cs: seq<Condition>, bound: nat)
    requires forall c :: c in cs ==> Printable(c)
    requires forall part :: part in WrapAll(PrintAll(cs)) ==> |part| < bound
    ensures ParseAll(WrapAll(PrintAll(cs)), bound) == Done(cs) <==> forall c :: c in cs ==> Faithful(c)
    decreases cs, |cs|
  {
    hide Printable, Faithful, ParseCondition, Print, Wrap;
    if cs != [] {
      var first, rest := cs[0], cs[1..];
      var text, texts := Wrap(Print(first)), WrapAll(PrintAll(rest));
      assert WrapAll(PrintAll(cs)) == [text] + texts;
      assert text in WrapAll(PrintAll(cs)) && forall part :: part in texts ==> part in WrapAll(PrintAll(cs));
      ParseWrapped(first);
      ParseUndoesPrint(first);
      AllParsed(rest, bound);
      AllFirst(text, texts, bound);
      assert cs == [first] + rest;
      assert (forall c :: c in cs ==> Faithful(c)) <==> Faithful(first) && (forall c :: c in rest ==> Faithful(c));
    }
  }

  lemma AllFirst(part: string, parts: seq<string>, bound: nat)
    requires |part| < bound && forall p :: p in parts ==> |p| < bound
    ensures forall p :: p in [part] + parts ==> |p| < bound
    ensures ParseAll([part] + parts, bound) ==
      match ParseCondition(part)
      case Error => Error
      case Panic => Panic
      case Done(condition) =>
        match ParseAll(parts, bound)
        case Error => Error
        case Panic => Panic
        case Done(conditions) => Done([condition] + conditions)
  {
    hide ParseCondition;
    assert ([part] + parts)[1..] == parts;
  }

  lemma ParseField(c: Condition)
    requires Printable(c) && c.Field?
    ensures ParseCondition(Print(c)) == Done(c) <==> Faithful(c)
  {
    hide Crosses, KnownField, Writable, PrintValue, Split, ParseCondition, ParseValue, Listable, Comparison,
      ParseComparison, COMPARATORS;
    var text, m := Print(c), FirstIndex(COMPARATORS, c.comparator);
    PrintedTrimmed(c);
    CrossPrint(c, '(', 'O', 0);
    CrossPrint(c, '(', 'A', 0);
    SplitSingle(text, " OR ", 'O');
    SplitSingle(text, " AND ", 'A');
    ParseSingle(text);
    PrintedEnds(c.value);
    ValueRoundTrip(c.value);
    ComparisonRoundTrip(c.field, m, PrintValue(c.value), c.value);
  }

  lemma NotPrefix(rest: string)
    ensures "NOT " <= Upper("NOT " + rest)
  {
    UpperConcat("NOT ", rest);
    assert Upper("NOT ") == "NOT ";
  }

  lemma PrintNot(inner: Condition)
    requires Printable(inner)
    ensures Printable(Not(inner)) && Print(Not(inner)) == "NOT " + Wrap(Print(inner))
  {
    hide Wrap, KnownField, Writable, COMPARATORS, Joined, PrintValue;
  }

  lemma ParseNot(inner: Condition)
    requires Printable(inner) && Printable(Not(inner))
    ensures ParseCondition(Print(Not(inner))) == Negated(ParseCondition(Print(inner)))
  {
    hide Crosses, Printable, ParseCondition, Split, Print, Upper, Wrap;
    PrintNot(inner);
    var text := Print(Not(inner));
    PrintedTrimmed(Not(inner));
    CrossPrint(Not(inner), '(', 'O', 0);
    CrossPrint(Not(inner), '(', 'A', 0);
    SplitSingle(text, " OR ", 'O');
    SplitSingle(text, " AND ", 'A');
    ParseSingle(text);
    NotPrefix(Wrap(Print(inner)));
    assert text[4..] == Wrap(Print(inner));
    ParseWrapped(inner);
  }

  lemma {:induction false} ParseConnective(cs: seq<Condition>, isOr: bool)
    requires |cs| >= 2 && forall c :: c in cs ==> Printable(c)
    ensures var c := if isOr then Or(cs) else And(cs);
            ParseCondition(Print(c)) == Done(c) <==> forall c :: c in cs ==> Faithful(c)
    decreases cs, |cs| + 1
  {
    hide Crosses, ParseCondition, Split, Joined;
    var c, keyword, avoid := if isOr then Or(cs) else And(cs), if isOr then " OR " else " AND ", if isOr then 'O'
      else 'A';
    var texts := PrintAll(cs);
    var text := Print(c);
    PrintedTrimmed(c);
    CrossAll(cs, avoid, 0);
    SplitJoined(texts, keyword, avoid);
    if !isOr {
      CrossPrint(c, '(', 'O', 0);
      SplitSingle(text, " OR ", 'O');
    }
    ParseCut(text, keyword, WrapAll(texts));
    AllParsed(cs, |text|);
  }

  /**
    * Parsing undoes printing exactly when the condition is faithful: literals are listable, connectives join at least
    * two conditions, and no comparator that is tried earlier is seen in a literal.
    */
  lemma {:induction false} ParseUndoesPrint(c: Condition)
    requires Printable(c)
    ensures ParseCondition(Print(c)) == Done(c) <==> Faithful(c)
    decreases c, 0
  {
    hide ParseCondition, Print;
    match c
    case Field(_, _, _) => ParseField(c);
    case Not(inner) =>
      ParseUndoesPrint(inner);
      ParseNot(inner);
    case And(conjuncts) =>
      ParsedConnectives(Print(c));
      if |conjuncts| >= 2 { ParseConnective(conjuncts, false); }
    case Or(disjuncts) =>
      ParsedConnectives(Print(c));
      if |disjuncts| >= 2 { ParseConnective(disjuncts, true); }
  }

  // ----- literals without spaces -----

  predicate NoSpace(s: string) {
    forall i :: 0 <= i < |s| ==> s[i] != ' '
  }

  /** In text without spaces a comparator is seen exactly at the beginning. */
  lemma SeenAtStart(value: string, k: nat)
    requires NoSpace(value) && k < |COMPARATORS|
    ensures SeenIn(value, k) <==> COMPARATORS[k] <= Upper(value)
  {
    ComparatorShape(k);
    hide Upper, Index, COMPARATORS, At;
    var c, u := COMPARATORS[k], Upper(" " + value);
    UpperConcat(" ", value);
    assert Upper(" ") == " " by { assert UpperChar(' ') == ' '; }
    assert forall i :: 0 < i < |u| ==> u[i] != ' ' by {
      forall i | 0 < i < |u| ensures u[i] != ' ' { assert u[i] == UpperChar(value[i - 1]); }
    }
    var spaced, bare := Index(u, " " + c + " "), Index(u, c);
    if spaced != -1 { AtInner(u, c, spaced); }
    assert spaced == -1;
    if bare != -1 { AtBegun(u, c, bare); }
    StartsAfterSpace(Upper(value), c);
    assert u == " " + Upper(value);
  }

  lemma StartsAfterSpace(value: string, pattern: string)
    ensures At(" " + value, pattern, 1) <==> pattern <= value
  {
    AtShift(" ", value, pattern, 0);
  }

  /** The strings in a literal have no spaces. */
  predicate Spaceless(v: Value) {
    match v
    case Str(text) => NoSpace(text)
    case Bool(_) => true
    case Num(_) => true
    case List(items) => forall item :: item in items ==> Spaceless(item)
  }

  lemma {:induction false} PrintedNoSpace(v: Value)
    requires Writable(v) && Spaceless(v)
    ensures NoSpace(PrintValue(v))
    decreases v, 0
  {
    hide Numeral;
    match v
    case Str(text) =>
    case Bool(_) =>
    case Num(numeral) =>
      forall i | 0 <= i < |numeral| ensures numeral[i] != ' ' { NumeralChars(numeral, i); }
    case List(items) => PrintedItemsNoSpace(items);
  }

  lemma {:induction false} PrintedItemsNoSpace(items: seq<Value>)
    requires forall item :: item in items ==> Writable(item) && Spaceless(item)
    ensures NoSpace(PrintItems(items))
    decreases items, |items|
  {
    hide Writable, Spaceless;
    if items != [] {
      PrintedNoSpace(items[0]);
      PrintedItemsNoSpace(items[1..]);
    }
  }

  lemma {:induction false} SpacelessUnmistaken(v: Value, k: nat, m: nat)
    requires Writable(v) && Spaceless(v) && k <= m <= |COMPARATORS|
    ensures !MistakableFrom(PrintValue(v), k, m)
    decreases m - k
  {
    hide Writable, Spaceless, PrintValue, COMPARATORS, SeenIn, NoSpace;
    if k < m {
      var text := PrintValue(v);
      PrintedNoSpace(v);
      PrintedEnds(v);
      ComparatorShape(k);
      SeenAtStart(text, k);
      assert Upper(text)[0] == UpperChar(text[0]) == text[0];
      SpacelessUnmistaken(v, k + 1, m);
    }
  }

  /** Connectives join at least two conditions, literals are listable and their strings have no spaces. */
  predicate Regular(c: Condition) {
    match c
    case AlwaysTrue => false
    case Field(_, _, value) => Listable(value) && Spaceless(value)
    case Not(inner) => Regular(inner)
    case And(conjuncts) => |conjuncts| >= 2 && forall c :: c in conjuncts ==> Regular(c)
    case Or(disjuncts) => |disjuncts| >= 2 && forall c :: c in disjuncts ==> Regular(c)
  }

  lemma {:induction false} RegularFaithful(c: Condition)
    requires Printable(c) && Regular(c)
    ensures Faithful(c)
  {
    hide COMPARATORS, Spaceless, Writable, KnownField, PrintValue;
    match c
    case Field(_, comparator, value) => SpacelessUnmistaken(value, 0, FirstIndex(COMPARATORS, comparator));
    case Not(inner) => RegularFaithful(inner);
    case And(conjuncts) => forall c | c in conjuncts ensures Faithful(c) { RegularFaithful(c); }
    case Or(disjuncts) => forall c | c in disjuncts ensures Faithful(c) { RegularFaithful(c); }
  }

  /** Conditions whose quoted strings have no spaces are always given back. */
  lemma RegularRoundTrip(c: Condition)
    requires Printable(c) && Regular(c)
    ensures ParseCondition(Print(c)) == Done(c)
  {
    RegularFaithful(c);
    ParseUndoesPrint(c);
  }

  // ----- unquoted literals -----

  lemma {:induction false} BareMistakable(value: string, k: nat, m: nat)
    requires NoSpace(value) && k <= m <= |COMPARATORS|
    ensures MistakableFrom(value, k, m) <==> exists i :: k <= i < m && COMPARATORS[i] <= Upper(value)
    decreases m - k
  {
    hide COMPARATORS, SeenIn, Upper, NoSpace;
    if k < m {
      SeenAtStart(value, k);
      BareMistakable(value, k + 1, m);
    }
  }

  /** An unquoted string is given back exactly when it does not begin with a comparator that is tried earlier. */
  lemma BareRoundTrip(field: string, m: nat, text: string)
    requires KnownField(field) && m < |COMPARATORS| && text != "" && Trimmed(text) && NoSpace(text)
    requires ParseValue(text) == Done(Str(text))
    ensures ParseComparison(Comparison(field, COMPARATORS[m], text)) == Done(Field(field, COMPARATORS[m], Str(text)))
      <==> forall k :: 0 <= k < m ==> !(COMPARATORS[k] <= Upper(text))
  {
    hide COMPARATORS, KnownField, ParseValue, ParseComparison, Upper;
    ComparisonRoundTrip(field, m, text, Str(text));
    BareMistakable(text, 0, m);
  }

  /** FILE.NAME = index is not read as it is written. */
  lemma UnquotedMisread()
    ensures COMPARATORS[6] == "=" && ParseValue("index") == Done(Str("index"))
    ensures ParseComparison(Comparison("FILE.NAME", "=", "index")) != Done(Field("FILE.NAME", "=", Str("index")))
  {
    hide ParseComparison, Position;
    var text := "index";
    assert Upper(text) == "INDEX" && COMPARATORS[1] == "IN" && COMPARATORS[6] == "=";
    assert Upper("FILE.NAME") == "FILE.NAME" == FIELDS[4];
    BareText(text);
    BareRoundTrip("FILE.NAME", 6, text);
  }

  lemma BareText(text: string)
    requires text == "index"
    ensures ParseValue(text) == Done(Str(text)) && NoSpace(text) && Trimmed(text)
  {
    assert Upper(text)[0] == 'I';
    if Numeral(text) { NumeralChars(text, 0); }
  }
}
