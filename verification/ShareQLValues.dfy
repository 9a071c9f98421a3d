/** Printing ShareQL literals, and exactly when the parser gives a printed literal back. */
module ShareQLValues {
  import opened Common
  import opened Texts
  import opened Splitters
  import opened Rules
  import opened ShareQL

  /** Strings in single quotes, lists in square brackets. */
  function PrintValue(v: Value): string
    decreases v, 0
  {
    match v
    case Str(text) => "'" + text + "'"
    case Bool(b) => if b then "TRUE" else "FALSE"
    case Num(numeral) => numeral
    case List(items) => "[" + PrintItems(items) + "]"
  }

  function PrintItems(items: seq<Value>): string
    decreases items, |items|
  {
    if items == [] then ""
    else if |items| == 1 then PrintValue(items[0])
    else PrintValue(items[0]) + "," + PrintItems(items[1..])
  }

  predicate SafeText(s: string) {
    forall i :: 0 <= i < |s| ==> !Quote(s[i]) && !Opens(s[i]) && !Closes(s[i])
  }

  /** The strings have no quotes and no brackets, and the numerals are numerals. */
  predicate Writable(v: Value) {
    match v
    case Str(text) => SafeText(text)
    case Bool(_) => true
    case Num(numeral) => Numeral(numeral)
    case List(items) => forall item :: item in items ==> Writable(item)
  }

  /** No comma outside quotes is needed to print the value. */
  predicate Single(v: Value) {
    v.List? ==> |v.items| <= 1 && forall item :: item in v.items ==> Single(item)
  }

  /** Lists have items, and lists inside lists have just one: the splitter of list items does not see brackets. */
  predicate Listable(v: Value) {
    v.List? ==> v.items != [] && forall item :: item in v.items ==> Single(item) && Listable(item)
  }

  // ----- commas -----

  function Through(s: string, quote: Option<char>): Option<char> {
    if s == "" then quote else Through(s[1..], QuoteAfter(quote, s[0]))
  }

  function Commas(s: string, quote: Option<char>): nat {
    if s == "" then 0
    else (if s[0] == ',' && quote == None then 1 else 0) + Commas(s[1..], QuoteAfter(quote, s[0]))
  }

  lemma {:induction false} CommasConcat(a: string, b: string, quote: Option<char>)
    ensures Through(a + b, quote) == Through(b, Through(a, quote))
    ensures Commas(a + b, quote) == Commas(a, quote) + Commas(b, Through(a, quote))
  {
    hide QuoteAfter;
    if a == "" {
      assert a + b == b;
    } else {
      assert (a + b)[1..] == a[1..] + b;
      CommasConcat(a[1..], b, QuoteAfter(quote, a[0]));
    }
  }

  lemma {:induction false} ItemsCount(s: string, quote: Option<char>)
    ensures |Items(s, quote)| == 1 + Commas(s, quote)
  {
    if s != "" {
      ItemsCount(s[1..], QuoteAfter(quote, s[0]));
    }
  }

  lemma ItemsUnfold(text: string, quote: Option<char>)
    requires text != ""
    ensures Items(text, quote) ==
      if text[0] == ',' && quote == None then [""] + Items(text[1..], quote)
      else Prepend(text[..1], Items(text[1..], QuoteAfter(quote, text[0])))
  {
  }

  /** Text without a comma is read into the item being built. */
  lemma {:induction false} ItemsCross(a: string, b: string, quote: Option<char>)
    requires Commas(a, quote) == 0
    ensures Items(a + b, quote) == Prepend(a, Items(b, Through(a, quote)))
  {
    hide AfterQuote, QuoteAfter, Items;
    if a == "" {
      assert a + b == b;
      assert "" + Items(b, quote)[0] == Items(b, quote)[0];
    } else {
      var quote' := QuoteAfter(quote, a[0]);
      ItemsUnfold(a + b, quote);
      assert (a + b)[1..] == a[1..] + b && (a + b)[..1] == a[..1] && a == a[..1] + a[1..];
      ItemsCross(a[1..], b, quote');
      PrependTwice(a[..1], a[1..], Items(b, Through(a, quote)));
    }
  }

  /** Text without quotes, and without commas unless it is quoted. */
  lemma {:induction false} PlainCommas(s: string, quote: Option<char>)
    requires forall i :: 0 <= i < |s| ==> !Quote(s[i]) && (s[i] != ',' || quote.Some?)
    ensures Through(s, quote) == quote && Commas(s, quote) == 0
  {
    if s != "" {
      assert forall i :: 0 <= i < |s[1..]| ==> s[1..][i] == s[i + 1];
      PlainCommas(s[1..], quote);
    }
  }

  predicate NumeralChar(c: char) {
    '0' <= c <= '9' || c == '-' || c == '.'
  }

  lemma FiguresChars(s: string)
    requires Figures(s)
    ensures forall i :: 0 <= i < |s| ==> NumeralChar(s[i])
  {
    forall i | 0 <= i < |s| ensures NumeralChar(s[i]) { assert s[i] in s; }
  }

  lemma NumeralChars(s: string, i: nat)
    requires Numeral(s) && i < |s|
    ensures NumeralChar(s[i])
  {
    hide Index, Figures;
    var t := if "-" <= s then s[1..] else s;
    assert s[i] == '-' || exists j :: 0 <= j < |t| && t[j] == s[i] by {
      if "-" <= s {
        assert s[0] == '-';
        if i > 0 { assert t[i - 1] == s[i]; }
      } else {
        assert t[i] == s[i];
      }
    }
    UnsignedChars(t);
  }

  lemma UnsignedChars(t: string)
    requires var point := Index(t, "."); if point == -1 then Figures(t)
      else Figures(t[..point]) && Figures(t[point + 1..])
    ensures forall j :: 0 <= j < |t| ==> NumeralChar(t[j])
  {
    hide Index, Figures;
    var point := Index(t, ".");
    if point == -1 {
      FiguresChars(t);
    } else {
      FiguresChars(t[..point]);
      FiguresChars(t[point + 1..]);
      assert t[point] == t[point..point + 1][0] == '.';
      assert t == t[..point] + ['.'] + t[point + 1..];
    }
  }

  lemma NumeralNonEmpty(s: string)
    requires Numeral(s)
    ensures s != ""
  {
  }

  lemma QuotedCommas(text: string)
    requires SafeText(text)
    ensures Through("'" + text + "'", None) == None && Commas("'" + text + "'", None) == 0
  {
    CommasConcat("'" + text, "'", None);
    CommasConcat("'", text, None);
    PlainCommas(text, Some('\''));
    assert Through("'", None) == Some('\'') && Commas("'", None) == 0;
    assert Through("'", Some('\'')) == None && Commas("'", Some('\'')) == 0;
  }

  /** The commas of a printed value, outside quotes. */
  lemma {:induction false} PrintedCommas(v: Value)
    requires Writable(v)
    ensures Through(PrintValue(v), None) == None
    ensures Commas(PrintValue(v), None) == 0 <==> Single(v)
    decreases v, 0
  {
    match v
    case Str(text) => QuotedCommas(text);
    case Bool(b) => PlainCommas(PrintValue(v), None);
    case Num(numeral) =>
      forall i | 0 <= i < |numeral| ensures !Quote(numeral[i]) && numeral[i] != ',' { NumeralChars(numeral, i); }
      PlainCommas(numeral, None);
    case List(items) =>
      PrintedItemsCommas(items);
      CommasConcat("[" + PrintItems(items), "]", None);
      CommasConcat("[", PrintItems(items), None);
      PlainCommas("[", None);
      PlainCommas("]", None);
  }

  lemma {:induction false} PrintedItemsCommas(items: seq<Value>)
    requires forall item :: item in items ==> Writable(item)
    ensures Through(PrintItems(items), None) == None
    ensures items == [] ==> Commas(PrintItems(items), None) == 0
    ensures items != [] ==> Commas(PrintItems(items), None) >= |items| - 1
    ensures items != [] ==>
      (Commas(PrintItems(items), None) == |items| - 1 <==> forall item :: item in items ==> Single(item))
    decreases items, |items|
  {
    hide Single, Writable, Commas, Through;
    if items == [] {
      PlainCommas("", None);
    } else {
      PrintedCommas(items[0]);
      var first, rest := PrintValue(items[0]), items[1..];
      if |items| > 1 {
        PrintedItemsCommas(rest);
        CommasConcat(first + ",", PrintItems(rest), None);
        CommasConcat(first, ",", None);
        CommaAlone();
        assert forall item :: item in items <==> item == items[0] || item in rest;
      }
    }
  }

  lemma CommaAlone()
    ensures Through(",", None) == None && Commas(",", None) == 1
  {
  }

  function Printed(items: seq<Value>): (texts: seq<string>)
    ensures |texts| == |items| && forall i :: 0 <= i < |items| ==> texts[i] == PrintValue(items[i])
  {
    if items == [] then [] else [PrintValue(items[0])] + Printed(items[1..])
  }

  lemma {:induction false} ItemsPrinted(items: seq<Value>)
    requires items != [] && forall item :: item in items ==> Writable(item) && Single(item)
    ensures Items(PrintItems(items), None) == Printed(items)
  {
    hide Single, Writable, Items;
    var first, rest := PrintValue(items[0]), items[1..];
    PrintedCommas(items[0]);
    if rest == [] {
      ItemsCross(first, "", None);
      EmptySplit(" ", 0, None);
      assert first + "" == first;
    } else {
      ItemsPrinted(rest);
      ItemsCross(first, "," + PrintItems(rest), None);
      ItemsCut(PrintItems(rest));
      assert first + ("," + PrintItems(rest)) == PrintItems(items);
      assert first + "" == first;
    }
  }

  lemma ItemsCut(rest: string)
    ensures Items("," + rest, None) == [""] + Items(rest, None)
  {
    assert ("," + rest)[1..] == rest;
  }

  // ----- reading back -----

  /** How a printed value begins and ends. */
  lemma PrintedEnds(v: Value)
    requires Writable(v)
    ensures PrintValue(v) != "" && Trimmed(PrintValue(v))
    ensures var c := PrintValue(v)[0]; c == '\'' || c == '[' || c == 'T' || c == 'F' || NumeralChar(c)
  {
    hide Numeral, SafeText, PrintItems;
    if v.Num? {
      NumeralNonEmpty(v.numeral);
      NumeralChars(v.numeral, 0);
      NumeralChars(v.numeral, |v.numeral| - 1);
    }
  }

  lemma ScalarRoundTrip(v: Value)
    requires Writable(v) && !v.List?
    ensures ParseValue(PrintValue(v)) == Done(v)
  {
    hide ParseValue, Numeral;
    match v
    case Str(text) => QuotedRead('\'', text);
    case Bool(b) => BoolRoundTrip(b);
    case Num(numeral) => NumRoundTrip(numeral);
  }

  lemma BoolRoundTrip(b: bool)
    ensures ParseValue(if b then "TRUE" else "FALSE") == Done(Bool(b))
  {
    hide ParseValue;
    UpperBooleans();
    ParsePlain(if b then "TRUE" else "FALSE");
  }

  lemma NumRoundTrip(numeral: string)
    requires Numeral(numeral)
    ensures ParseValue(numeral) == Done(Num(numeral))
  {
    hide ParseValue, Numeral;
    NumeralNonEmpty(numeral);
    NumeralChars(numeral, 0);
    NumeralChars(numeral, |numeral| - 1);
    assert Upper(numeral)[0] == UpperChar(numeral[0]) == numeral[0];
    ParsePlain(numeral);
  }

  /** Quotes of both kinds are taken off; a quote alone makes the parser slice out of bounds. */
  lemma QuotedRead(quote: char, text: string)
    requires quote == '\'' || quote == '"'
    ensures ParseValue([quote] + text + [quote]) == Done(Str(text)) && ParseValue([quote]) == Panic
  {
    var t := [quote] + text + [quote];
    assert Trimmed(t) && t[1..|t| - 1] == text;
    assert Trimmed([quote]);
  }

  /** A text that begins with neither bracket nor quote. */
  lemma ParsePlain(t: string)
    requires t != "" && Trimmed(t) && t[0] != '[' && t[0] != '\'' && t[0] != '"'
    ensures ParseValue(t) ==
      Done(if Upper(t) == "TRUE" then Bool(true) else if Upper(t) == "FALSE" then Bool(false)
           else if Numeral(t) then Num(t) else Str(t))
  {
    hide Upper, Numeral, Items, TrimSpace;
  }

  lemma UpperBooleans()
    ensures Upper("TRUE") == "TRUE" && Upper("FALSE") == "FALSE"
  {
  }

  function Listed(parsed: Parsed<seq<Value>>): Parsed<Value> {
    match parsed
    case Done(values) => Done(List(values))
    case Error => Error
    case Panic => Panic
  }

  /** A bracketed text is parsed item by item. */
  lemma ParseList(inner: string)
    ensures forall part :: part in Items(inner, None) ==> |part| < |inner| + 1
    ensures ParseValue("[" + inner + "]") == Listed(ParseValues(Items(inner, None), |inner| + 1))
  {
    hide Items, TrimSpace, Upper, Numeral, ParseValues;
    var t := "[" + inner + "]";
    assert Trimmed(t) && t[1..|t| - 1] == inner;
  }

  lemma {:induction false} ListRoundTrip(items: seq<Value>)
    requires forall item :: item in items ==> Writable(item)
    ensures ParseValue(PrintValue(List(items))) == Done(List(items)) <==> Listable(List(items))
    decreases items, |items| + 1
  {
    hide Single, Writable, Items, ParseValue, ParseValues, Commas, PrintItems, Printed;
    var inner := PrintItems(items);
    ParseList(inner);
    ItemsCount(inner, None);
    PrintedItemsCommas(items);
    ParsedCount(Items(inner, None), |inner| + 1);
    if items != [] && forall item :: item in items ==> Single(item) {
      ItemsPrinted(items);
      ItemsRoundTrip(items, |inner| + 1);
    }
  }

  lemma {:induction false} ParsedCount(parts: seq<string>, bound: nat)
    requires forall part :: part in parts ==> |part| < bound
    ensures var r := ParseValues(parts, bound); r.Done? ==> |r.value| == |parts|
    decreases |parts|
  {
    if parts != [] {
      ParsedCount(parts[1..], bound);
    }
  }

  lemma ParseFirst(part: string, parts: seq<string>, bound: nat)
    requires Trimmed(part) && |part| < bound && forall p :: p in parts ==> |p| < bound
    ensures forall p :: p in [part] + parts ==> |p| < bound
    ensures ParseValues([part] + parts, bound) ==
      match ParseValue(part)
      case Error => Error
      case Panic => Panic
      case Done(value) =>
        match ParseValues(parts, bound)
        case Error => Error
        case Panic => Panic
        case Done(values) => Done([value] + values)
  {
    hide TrimSpace, Trimmed, ParseValue;
    assert ([part] + parts)[1..] == parts;
  }

  lemma BothRead(first: Parsed<Value>, rest: Parsed<seq<Value>>, value: Value, values: seq<Value>)
    ensures (match first
             case Error => Error
             case Panic => Panic
             case Done(v) =>
               match rest
               case Error => Error
               case Panic => Panic
               case Done(vs) => Done([v] + vs)) == Done([value] + values)
      <==> first == Done(value) && rest == Done(values)
  {
    if first.Done? && rest.Done? {
      assert ([first.value] + rest.value)[1..] == rest.value && ([value] + values)[1..] == values;
    }
  }

  lemma PrintedMore(items: seq<Value>)
    ensures items == [] ==> Printed(items) == []
    ensures items != [] ==> Printed(items) == [PrintValue(items[0])] + Printed(items[1..])
  {
  }

  lemma NothingRead(bound: nat)
    ensures ParseValues([], bound) == Done([])
  {
  }

  lemma {:induction false} ItemsRoundTrip(items: seq<Value>, bound: nat)
    requires forall item :: item in items ==> Writable(item)
    requires forall part :: part in Printed(items) ==> |part| < bound
    ensures ParseValues(Printed(items), bound) == Done(items) <==> forall item :: item in items ==> Listable(item)
    decreases items, |items|
  {
    hide Writable, Listable, ParseValue, ParseValues, PrintValue, Printed, TrimSpace, Trimmed, NumeralChar;
    PrintedMore(items);
    if items == [] {
      NothingRead(bound);
    } else {
      var first, rest := items[0], items[1..];
      var text, texts := PrintValue(first), Printed(rest);
      assert text in Printed(items) && forall part :: part in texts ==> part in Printed(items);
      ValueRoundTrip(first);
      PrintedEnds(first);
      ItemsRoundTrip(rest, bound);
      ParseFirst(text, texts, bound);
      BothRead(ParseValue(text), ParseValues(texts, bound), first, rest);
      assert items == [first] + rest;
      assert (forall item :: item in items ==> Listable(item)) <==>
        Listable(first) && (forall item :: item in rest ==> Listable(item));
    }
  }

  /** A printed literal is given back exactly when its lists have items and lists inside lists have just one. */
  lemma {:induction false} ValueRoundTrip(v: Value)
    requires Writable(v)
    ensures ParseValue(PrintValue(v)) == Done(v) <==> Listable(v)
    decreases v, 0
  {
    if v.List? {
      ListRoundTrip(v.items);
    } else {
      ScalarRoundTrip(v);
    }
  }
}
