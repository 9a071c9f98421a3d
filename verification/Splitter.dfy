/** The quote- and bracket-aware splitters of the ShareQL parser. */
module Splitters {
  import opened Common
  import opened Texts

  predicate Quote(c: char) {
    c == '\'' || c == '"'
  }

  predicate Opens(c: char) {
    c == '(' || c == '['
  }

  predicate Closes(c: char) {
    c == ')' || c == ']'
  }

  /** The quote the scan is in after reading a quote character. */
  function AfterQuote(quote: Option<char>, c: char): Option<char> {
    if quote == None then Some(c) else if quote == Some(c) then None else quote
  }

  /** The keyword stands at the beginning of the text, in any case. */
  predicate Begins(text: string, keyword: string) {
    Upper(keyword) <= Upper(text)
  }

  function Prepend(s: string, parts: seq<string>): (all: seq<string>)
    requires parts != []
    ensures |all| == |parts| && all[0] == s + parts[0] && all[1..] == parts[1..]
  {
    [s + parts[0]] + parts[1..]
  }

  function QuoteAfter(quote: Option<char>, c: char): Option<char> {
    if Quote(c) then AfterQuote(quote, c) else quote
  }

  function DepthAfter(depth: int, c: char): int {
    if Opens(c) then depth + 1 else if Closes(c) then depth - 1 else depth
  }

  /** A scan that stands before `text` at this bracket depth and in this quote cuts here. */
  predicate Cuts(text: string, keyword: string, depth: int, quote: Option<char>)
    requires text != ""
  {
    !Quote(text[0]) && !Opens(text[0]) && !Closes(text[0]) && quote == None && depth == 0 && Begins(text, keyword)
  }

  /** The rest of a split, when the scan stands before `text`. */
  function Split(text: string, keyword: string, depth: int, quote: Option<char>): (parts: seq<string>)
    requires keyword != ""
    ensures parts != []
    ensures forall part :: part in parts ==> |part| <= |text| && (|parts| > 1 ==> |part| < |text|)
  {
    if text == "" then [""]
    else if Cuts(text, keyword, depth, quote) then
      assert |Upper(keyword)| <= |Upper(text)|;
      [""] + Split(text[|keyword|..], keyword, depth, quote)
    else Prepend(text[..1], Split(text[1..], keyword, DepthAfter(depth, text[0]), QuoteAfter(quote, text[0])))
  }

  lemma SplitUnfold(text: string, keyword: string, depth: int, quote: Option<char>)
    requires keyword != "" && text != ""
    ensures Cuts(text, keyword, depth, quote) ==> |keyword| <= |text|
    ensures Split(text, keyword, depth, quote) ==
      if Cuts(text, keyword, depth, quote) then [""] + Split(text[|keyword|..], keyword, depth, quote)
      else Prepend(text[..1], Split(text[1..], keyword, DepthAfter(depth, text[0]), QuoteAfter(quote, text[0])))
  {
    hide DepthAfter, QuoteAfter;
    assert Cuts(text, keyword, depth, quote) ==> |Upper(keyword)| <= |Upper(text)|;
  }

  /** The parts collected so far, the one being built, and the rest. */
  function Glued(parts: seq<string>, current: string, rest: seq<string>): seq<string>
    requires rest != []
  {
    parts + Prepend(current, rest)
  }

  lemma GlueChar(parts: seq<string>, current: string, c: string, rest: seq<string>)
    requires rest != []
    ensures Glued(parts, current, Prepend(c, rest)) == Glued(parts, current + c, rest)
  {
    assert current + (c + rest[0]) == (current + c) + rest[0];
  }

  lemma GlueCut(parts: seq<string>, current: string, rest: seq<string>)
    requires rest != []
    ensures Glued(parts, current, [""] + rest) == Glued(parts + [current], "", rest)
  {
    assert current + "" == current && "" + rest[0] == rest[0];
    assert Prepend(current, [""] + rest) == [current] + rest;
  }

  lemma GlueEnds(rest: seq<string>, parts: seq<string>, current: string)
    requires rest != []
    ensures Glued([], "", rest) == rest && Glued(parts, current, [""]) == parts + [current]
  {
    assert "" + rest[0] == rest[0] && current + "" == current;
  }

  /** Copying the character at i to the part being built. */
  lemma CopyChar(input: string, keyword: string, i: nat, depth: int, quote: Option<char>, parts: seq<string>,
                 current: string)
    requires keyword != "" && i < |input| && !Cuts(input[i..], keyword, depth, quote)
    ensures Glued(parts, current, Split(input[i..], keyword, depth, quote))
      == Glued(parts, current + [input[i]],
        Split(input[i + 1..], keyword, DepthAfter(depth, input[i]), QuoteAfter(quote, input[i])))
  {
    hide Cuts, DepthAfter, QuoteAfter, Glued;
    var text := input[i..];
    assert text[..1] == [input[i]] && text[1..] == input[i + 1..];
    GlueChar(parts, current, [input[i]],
      Split(text[1..], keyword, DepthAfter(depth, input[i]), QuoteAfter(quote, input[i])));
  }

  lemma CutAt(input: string, keyword: string, i: nat, depth: int, quote: Option<char>, parts: seq<string>,
              current: string)
    requires keyword != "" && i + |keyword| <= |input| && Cuts(input[i..], keyword, depth, quote)
    ensures Glued(parts, current, Split(input[i..], keyword, depth, quote))
      == Glued(parts + [current], "", Split(input[i + |keyword|..], keyword, depth, quote))
  {
    hide Cuts, Glued;
    assert input[i..][|keyword|..] == input[i + |keyword|..];
    GlueCut(parts, current, Split(input[i + |keyword|..], keyword, depth, quote));
  }

  function QuoteOf(inQuote: bool, quoteChar: char): Option<char> {
    if inQuote then Some(quoteChar) else None
  }

  method SplitAtKeyword(input: string, keyword: string) returns (parts: seq<string>)
    requires keyword != ""
    ensures parts == Split(input, keyword, 0, None)
  {
    hide Split, Glued, Upper, Begins;
    parts := [];
    var current, depth, inQuote, quoteChar := "", 0, false, '\0';
    var upper := Upper(input);
    var i := 0;
    assert input[0..] == input;
    GlueEnds(Split(input, keyword, 0, None), parts, current);
    while i < |input|
      invariant 0 <= i <= |input|
      invariant Glued(parts, current, Split(input[i..], keyword, depth, QuoteOf(inQuote, quoteChar))) ==
        Split(input, keyword, 0, None)
    {
      var c := input[i];
      BeginsAt(input, keyword, i);
      if !Cuts(input[i..], keyword, depth, QuoteOf(inQuote, quoteChar)) {
        CopyChar(input, keyword, i, depth, QuoteOf(inQuote, quoteChar), parts, current);
      }
      if Quote(c) {
        if !inQuote {
          inQuote, quoteChar := true, c;
        } else if c == quoteChar {
          inQuote := false;
        }
        current, i := current + [c], i + 1;
        continue;
      }
      if Opens(c) {
        depth, current, i := depth + 1, current + [c], i + 1;
        continue;
      }
      if Closes(c) {
        depth, current, i := depth - 1, current + [c], i + 1;
        continue;
      }
      if !inQuote && depth == 0 && i + |keyword| <= |input| && upper[i..i + |keyword|] == Upper(keyword) {
        CutAt(input, keyword, i, depth, None, parts, current);
        parts, current, i := parts + [current], "", i + |keyword|;
        continue;
      }
      current, i := current + [c], i + 1;
    }
    assert input[i..] == "";
    EmptySplit(keyword, depth, QuoteOf(inQuote, quoteChar));
    GlueEnds([""], parts, current);
    parts := parts + [current];
  }

  lemma EmptySplit(keyword: string, depth: int, quote: Option<char>)
    requires keyword != ""
    ensures Split("", keyword, depth, quote) == [""] && Items("", quote) == [""]
  {
  }

  lemma BeginsAt(input: string, keyword: string, i: nat)
    requires i <= |input|
    ensures Begins(input[i..], keyword) <==>
      i + |keyword| <= |input| && Upper(input)[i..i + |keyword|] == Upper(keyword)
  {
    assert Upper(input[i..]) == Upper(input)[i..];
    if i + |keyword| <= |input| {
      assert Upper(input)[i..i + |keyword|] == Upper(input[i..])[..|keyword|];
    }
  }

  // ----- what a split is -----

  /** The parts with the separators between them. */
  function Interleave(parts: seq<string>, separators: seq<string>): string
    requires |parts| == |separators| + 1
  {
    if separators == [] then parts[0] else parts[0] + separators[0] + Interleave(parts[1..], separators[1..])
  }

  lemma InterleavePrepend(s: string, parts: seq<string>, separators: seq<string>)
    requires |parts| == |separators| + 1
    ensures Interleave(Prepend(s, parts), separators) == s + Interleave(parts, separators)
  {
    if separators != [] {
      assert (s + parts[0]) + separators[0] + Interleave(parts[1..], separators[1..])
        == s + (parts[0] + separators[0] + Interleave(parts[1..], separators[1..]));
    }
  }

  /** Rejoining: the parts with copies of the keyword between them, each in its own case, are the input. */
  lemma {:induction false} Rejoin(text: string, keyword: string, depth: int, quote: Option<char>)
    returns (separators: seq<string>)
    requires keyword != ""
    ensures |Split(text, keyword, depth, quote)| == |separators| + 1
    ensures forall s :: s in separators ==> Upper(s) == Upper(keyword)
    ensures Interleave(Split(text, keyword, depth, quote), separators) == text
  {
    hide Split, Begins, DepthAfter, QuoteAfter, Interleave;
    if text == "" {
      separators := [];
      EmptySplit(keyword, depth, quote);
      InterleaveOne("");
    } else {
      SplitUnfold(text, keyword, depth, quote);
      if Cuts(text, keyword, depth, quote) {
        var rest := text[|keyword|..];
        var separators' := Rejoin(rest, keyword, depth, quote);
        CutsKeyword(text, keyword);
        separators := [text[..|keyword|]] + separators';
        InterleaveCut(text[..|keyword|], Split(rest, keyword, depth, quote), separators');
        assert text == text[..|keyword|] + rest;
      } else {
        var depth', quote' := DepthAfter(depth, text[0]), QuoteAfter(quote, text[0]);
        separators := Rejoin(text[1..], keyword, depth', quote');
        InterleavePrepend(text[..1], Split(text[1..], keyword, depth', quote'), separators);
        assert text == text[..1] + text[1..];
      }
    }
  }

  lemma CutsKeyword(text: string, keyword: string)
    requires |keyword| <= |text| && Begins(text, keyword)
    ensures Upper(text[..|keyword|]) == Upper(keyword)
  {
    UpperTake(text, |keyword|);
  }

  lemma InterleaveCut(separator: string, parts: seq<string>, separators: seq<string>)
    requires |parts| == |separators| + 1
    ensures Interleave([""] + parts, [separator] + separators) == separator + Interleave(parts, separators)
  {
    assert ([""] + parts)[1..] == parts && ([separator] + separators)[1..] == separators;
    assert "" + separator == separator;
  }

  lemma InterleaveOne(part: string)
    ensures Interleave([part], []) == part
  {
  }

  lemma UpperTake(text: string, n: nat)
    requires n <= |text|
    ensures Upper(text[..n]) == Upper(text)[..n]
  {
  }

  lemma CutsPrefix(text: string, first: string, keyword: string, depth: int, quote: Option<char>)
    requires first <= text && first != "" && Cuts(first, keyword, depth, quote)
    ensures Cuts(text, keyword, depth, quote)
  {
    hide Upper;
    assert first == text[..|first|];
    UpperTake(text, |first|);
  }

  /** The first part taken by itself is not cut again. */
  lemma {:induction false} FirstPart(text: string, keyword: string, depth: int, quote: Option<char>)
    requires keyword != ""
    ensures var first := Split(text, keyword, depth, quote)[0];
      Split(first, keyword, depth, quote) == [first] && first <= text
  {
    hide Split, Cuts, DepthAfter, QuoteAfter;
    if text == "" {
      EmptySplit(keyword, depth, quote);
    } else {
      SplitUnfold(text, keyword, depth, quote);
      if Cuts(text, keyword, depth, quote) {
        EmptySplit(keyword, depth, quote);
      } else {
        var depth', quote' := DepthAfter(depth, text[0]), QuoteAfter(quote, text[0]);
        FirstPart(text[1..], keyword, depth', quote');
        var first, rest := Split(text, keyword, depth, quote)[0], Split(text[1..], keyword, depth', quote')[0];
        assert first == text[..1] + rest && first[1..] == rest && first[..1] == text[..1] && first[0] == text[0];
        assert text == text[..1] + text[1..];
        if Cuts(first, keyword, depth, quote) {
          CutsPrefix(text, first, keyword, depth, quote);
        }
        SplitUnfold(first, keyword, depth, quote);
      }
    }
  }

  /** Splitting any later part again gives the part alone. */
  lemma {:induction false} Resplit(text: string, keyword: string, depth: int, quote: Option<char>, i: nat)
    requires keyword != "" && 0 < i < |Split(text, keyword, depth, quote)|
    ensures var part := Split(text, keyword, depth, quote)[i]; Split(part, keyword, 0, None) == [part]
  {
    hide Split, DepthAfter, QuoteAfter, Begins;
    if text == "" {
      EmptySplit(keyword, depth, quote);
    } else {
      SplitUnfold(text, keyword, depth, quote);
      if Cuts(text, keyword, depth, quote) {
        if i == 1 {
          FirstPart(text[|keyword|..], keyword, depth, quote);
        } else {
          Resplit(text[|keyword|..], keyword, depth, quote, i - 1);
        }
      } else {
        var depth', quote' := DepthAfter(depth, text[0]), QuoteAfter(quote, text[0]);
        var rest := Split(text[1..], keyword, depth', quote');
        assert Split(text, keyword, depth, quote)[i] == Prepend(text[..1], rest)[1..][i - 1] == rest[1..][i - 1] ==
          rest[i];
        Resplit(text[1..], keyword, depth', quote', i);
      }
    }
  }

  /** The two together: no part of an input is cut again. */
  lemma PartsAreFinal(input: string, keyword: string, part: string)
    requires keyword != "" && part in Split(input, keyword, 0, None)
    ensures Split(part, keyword, 0, None) == [part]
  {
    var parts := Split(input, keyword, 0, None);
    var i :| 0 <= i < |parts| && parts[i] == part;
    if i == 0 {
      FirstPart(input, keyword, 0, None);
    } else {
      Resplit(input, keyword, 0, None, i);
    }
  }

  // ----- what is protected -----

  /** No quotes and no brackets. */
  predicate Bare(s: string) {
    forall i :: 0 <= i < |s| ==> s[i] != '\'' && s[i] != '"' && s[i] != '(' && s[i] != ')' && s[i] != '[' && s[i] != ']'
  }

  lemma PrependTwice(a: string, b: string, parts: seq<string>)
    requires parts != []
    ensures Prepend(a, Prepend(b, parts)) == Prepend(a + b, parts)
  {
    assert a + (b + parts[0]) == (a + b) + parts[0];
  }

  lemma BareFirst(s: string, depth: int, quote: Option<char>)
    requires s != "" && Bare(s)
    ensures Bare(s[1..]) && DepthAfter(depth, s[0]) == depth && QuoteAfter(quote, s[0]) == quote
  {
  }

  /** Inside brackets, and inside quotes, text is copied. */
  lemma {:induction false} BareCopied(s: string, rest: string, keyword: string, depth: int, quote: Option<char>)
    requires keyword != "" && Bare(s) && (depth != 0 || quote.Some?)
    ensures Split(s + rest, keyword, depth, quote) == Prepend(s, Split(rest, keyword, depth, quote))
  {
    hide Split, Begins, Bare, DepthAfter, QuoteAfter, Prepend;
    var parts := Split(rest, keyword, depth, quote);
    if s == "" {
      assert s + rest == rest && "" + parts[0] == parts[0];
      assert Prepend("", parts) == [parts[0]] + parts[1..] == parts;
    } else {
      BareFirst(s, depth, quote);
      BareCopied(s[1..], rest, keyword, depth, quote);
      assert (s + rest)[1..] == s[1..] + rest && (s + rest)[..1] == s[..1] && s == s[..1] + s[1..];
      SplitUnfold(s + rest, keyword, depth, quote);
      PrependTwice(s[..1], s[1..], parts);
    }
  }

  /** Text in round or square brackets, or in single or double quotes, is not cut, whatever keywords are in it. */
  lemma Protected(open: char, inner: string, close: char, keyword: string)
    requires keyword != "" && Bare(inner)
    requires ((open == '(' || open == '[') && (close == ')' || close == ']')) ||
      (open == close && (open == '\'' || open == '"'))
    ensures Split([open] + (inner + [close]), keyword, 0, None) == [[open] + (inner + [close])]
  {
    hide Split, Begins;
    var text := [open] + (inner + [close]);
    assert text[1..] == inner + [close] && text[..1] == [open];
    SplitUnfold(text, keyword, 0, None);
    if open == '(' || open == '[' {
      BareCopied(inner, [close], keyword, 1, None);
      LastChar(close, keyword, 1, None);
    } else {
      BareCopied(inner, [close], keyword, 0, Some(open));
      LastChar(close, keyword, 0, Some(open));
    }
  }

  lemma LastChar(c: char, keyword: string, depth: int, quote: Option<char>)
    requires keyword != "" && (Quote(c) || Closes(c))
    ensures Split([c], keyword, depth, quote) == [[c]]
  {
    hide Begins;
    EmptySplit(keyword, DepthAfter(depth, c), QuoteAfter(quote, c));
    SplitUnfold([c], keyword, depth, quote);
    assert [c][1..] == "" && [c] + "" == [c];
  }

  /** A bracket counts inside quotes, too: behind an opening one that is not closed again, nothing is cut. */
  lemma {:induction false} OpenHides(a: string, b: string, keyword: string, depth: nat, quote: Option<char>)
    requires keyword != "" && Bare(keyword) && Unclosed(a) && Unclosed(b)
    ensures LastEnds(Split(a + ("(" + b), keyword, depth, quote), "(" + b)
    decreases |a|
  {
    hide Split, Begins, Bare, DepthAfter, QuoteAfter, Prepend, Unclosed, LastEnds;
    var text := a + ("(" + b);
    SplitUnfold(text, keyword, depth, quote);
    if a == "" {
      assert text == "(" + b && text[1..] == b && text[..1] == "(";
      DepthGrows("(", depth);
      DeepCopied(b, keyword, depth + 1, QuoteAfter(quote, '('));
      LastAlone("(", b);
    } else if Cuts(text, keyword, depth, quote) {
      KeywordBefore(a, "(" + b, keyword);
      UnclosedTail(a, |keyword|);
      assert text[|keyword|..] == a[|keyword|..] + ("(" + b);
      OpenHides(a[|keyword|..], b, keyword, depth, quote);
      LastKept("", Split(text[|keyword|..], keyword, depth, quote), "(" + b);
    } else {
      UnclosedTail(a, 1);
      DepthGrows(a, depth);
      assert text[1..] == a[1..] + ("(" + b) && text[0] == a[0];
      OpenHides(a[1..], b, keyword, DepthAfter(depth, a[0]), QuoteAfter(quote, a[0]));
      LastKept(text[..1], Split(text[1..], keyword, DepthAfter(depth, a[0]), QuoteAfter(quote, a[0])), "(" + b);
    }
  }

  /** No closing brackets. */
  predicate Unclosed(s: string) {
    forall i :: 0 <= i < |s| ==> s[i] != ')' && s[i] != ']'
  }

  lemma UnclosedTail(s: string, n: nat)
    requires Unclosed(s) && n <= |s|
    ensures Unclosed(s[n..])
  {
  }

  lemma DepthGrows(s: string, depth: nat)
    requires s != "" && Unclosed(s)
    ensures DepthAfter(depth, s[0]) >= depth && (s[0] == '(' ==> DepthAfter(depth, s[0]) == depth + 1)
  {
  }

  ghost predicate LastEnds(parts: seq<string>, end: string) {
    parts != [] && exists front :: parts[|parts| - 1] == front + end
  }

  lemma LastAlone(front: string, end: string)
    ensures LastEnds(Prepend(front, [end]), front + end)
  {
    assert Prepend(front, [end])[0] == "" + (front + end);
  }

  lemma LastKept(c: string, parts: seq<string>, end: string)
    requires LastEnds(parts, end)
    ensures LastEnds([""] + parts, end) && LastEnds(Prepend(c, parts), end)
  {
    var front :| parts[|parts| - 1] == front + end;
    assert c + (front + end) == (c + front) + end;
    var all := Prepend(c, parts);
    assert |parts| > 1 ==> all[|all| - 1] == all[1..][|all| - 2] == parts[1..][|all| - 2] == parts[|parts| - 1];
  }

  lemma {:induction false} DeepCopied(s: string, keyword: string, depth: int, quote: Option<char>)
    requires keyword != "" && depth > 0 && Unclosed(s)
    ensures Split(s, keyword, depth, quote) == [s]
  {
    hide Split, DepthAfter, QuoteAfter, Begins, Unclosed;
    if s == "" {
      EmptySplit(keyword, depth, quote);
    } else {
      SplitUnfold(s, keyword, depth, quote);
      UnclosedTail(s, 1);
      DepthGrows(s, depth);
      DeepCopied(s[1..], keyword, DepthAfter(depth, s[0]), QuoteAfter(quote, s[0]));
      assert s[..1] + s[1..] == s;
    }
  }

  lemma KeywordBefore(a: string, rest: string, keyword: string)
    requires Bare(keyword) && Begins(a + rest, keyword) && rest != "" && rest[0] == '('
    ensures |keyword| <= |a|
  {
    var text := Upper(a + rest);
    assert text[|a|] == UpperChar(rest[0]) == '(';
    assert forall i :: 0 <= i < |keyword| ==> UpperChar(keyword[i]) == Upper(keyword)[i] == text[i];
    assert forall c: char :: UpperChar(c) == '(' ==> c == '(';
  }

  // ----- lists -----

  /** Splitting at commas outside quotes. */
  function Items(text: string, quote: Option<char>): (parts: seq<string>)
    ensures parts != []
    ensures forall part :: part in parts ==> |part| <= |text|
  {
    if text == "" then [""]
    else if Quote(text[0]) then Prepend(text[..1], Items(text[1..], AfterQuote(quote, text[0])))
    else if text[0] == ',' && quote == None then [""] + Items(text[1..], quote)
    else Prepend(text[..1], Items(text[1..], quote))
  }

  /** Copying the character at i to the item being built. */
  lemma CopyItemChar(input: string, i: nat, quote: Option<char>, parts: seq<string>, current: string)
    requires i < |input| && (Quote(input[i]) || input[i] != ',' || quote != None)
    ensures Glued(parts, current, Items(input[i..], quote))
      == Glued(parts, current + [input[i]], Items(input[i + 1..], QuoteAfter(quote, input[i])))
  {
    hide AfterQuote, Glued;
    var text := input[i..];
    assert text[..1] == [input[i]] && text[1..] == input[i + 1..];
    GlueChar(parts, current, [input[i]], Items(text[1..], QuoteAfter(quote, input[i])));
  }

  method SplitListItems(input: string) returns (parts: seq<string>)
    ensures parts == Items(input, None)
  {
    hide Items, Glued;
    parts := [];
    var current, inQuote, quoteChar := "", false, '\0';
    assert input[0..] == input;
    GlueEnds(Items(input, None), parts, current);
    for i := 0 to |input|
      invariant Glued(parts, current, Items(input[i..], QuoteOf(inQuote, quoteChar))) == Items(input, None)
    {
      var c := input[i];
      if Quote(c) || c != ',' || inQuote {
        CopyItemChar(input, i, QuoteOf(inQuote, quoteChar), parts, current);
      }
      if Quote(c) {
        if !inQuote {
          inQuote, quoteChar := true, c;
        } else if c == quoteChar {
          inQuote := false;
        }
        current := current + [c];
        continue;
      }
      if c == ',' && !inQuote {
        CutItem(input, i, parts, current);
        parts, current := parts + [current], "";
        continue;
      }
      current := current + [c];
    }
    assert input[|input|..] == "";
    EmptySplit(" ", 0, QuoteOf(inQuote, quoteChar));
    GlueEnds([""], parts, current);
    parts := parts + [current];
  }

  lemma CutItem(input: string, i: nat, parts: seq<string>, current: string)
    requires i < |input| && input[i] == ','
    ensures Glued(parts, current, Items(input[i..], None)) == Glued(parts + [current], "", Items(input[i + 1..], None))
  {
    hide Glued;
    assert input[i..][1..] == input[i + 1..];
    GlueCut(parts, current, Items(input[i + 1..], None));
  }
}
