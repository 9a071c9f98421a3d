/** The ShareQL condition parser: recursive descent over the splitters, down to comparisons and literals. */
module ShareQL {
  import opened Common
  import opened Texts
  import opened Splitters
  import opened Rules

  /** A result, an error return, or a slice out of bounds. */
  datatype Parsed<+T> = Done(value: T) | Error | Panic

  // ----- text -----

  /** The pattern stands at position i. */
  predicate At(s: string, pattern: string, i: int) {
    0 <= i && i + |pattern| <= |s| && s[i..i + |pattern|] == pattern
  }

  lemma AtTail(s: string, pattern: string, j: int)
    requires s != ""
    ensures At(s, pattern, j) <==> (j == 0 && pattern <= s) || (j > 0 && At(s[1..], pattern, j - 1))
  {
    if j > 0 && j + |pattern| <= |s| {
      assert s[1..][j - 1..j - 1 + |pattern|] == s[j..j + |pattern|];
    }
  }

  /** The first position of the pattern, or -1. */
  function Index(s: string, pattern: string): (i: int)
    ensures i == -1 || At(s, pattern, i)
    ensures forall j | 0 <= j < i || (i == -1 && 0 <= j <= |s|) :: !At(s, pattern, j)
  {
    if pattern <= s then 0
    else if s == "" then -1
    else
      var i := Index(s[1..], pattern);
      AtTail(s, pattern, i + 1);
      assert forall j | 0 <= j <= |s| :: At(s, pattern, j) ==> j > 0 && At(s[1..], pattern, j - 1) by {
        forall j | 0 <= j <= |s| ensures At(s, pattern, j) ==>
          j > 0 && At(s[1..], pattern, j - 1) { AtTail(s, pattern, j); }
      }
      if i == -1 then -1 else i + 1
  }

  // ----- values -----

  predicate Figures(s: string) {
    s != "" && Digits(s)
  }

  /** An optional sign, digits, and possibly a point with digits behind it. */
  predicate Numeral(s: string) {
    var t := if "-" <= s then s[1..] else s;
    var point := Index(t, ".");
    if point == -1 then Figures(t) else Figures(t[..point]) && Figures(t[point + 1..])
  }

  predicate Bracketed(t: string, open: char, close: char) {
    t != "" && t[0] == open && t[|t| - 1] == close
  }

  function ParseValue(input: string): Parsed<Value>
    decreases |input|, 0
  {
    var t := TrimSpace(input);
    if Bracketed(t, '[', ']') then
      match ParseValues(Items(t[1..|t| - 1], None), |t| - 1)
      case Done(values) => Done(List(values))
      case Error => Error
      case Panic => Panic
    else if Bracketed(t, '\'', '\'') || Bracketed(t, '"', '"') then
      if |t| == 1 then Panic else Done(Str(t[1..|t| - 1]))
    else if Upper(t) == "TRUE" then Done(Bool(true))
    else if Upper(t) == "FALSE" then Done(Bool(false))
    else if Numeral(t) then Done(Num(t))
    else Done(Str(t))
  }

  function ParseValues(parts: seq<string>, ghost bound: nat): Parsed<seq<Value>>
    requires forall part :: part in parts ==> |part| < bound
    decreases bound, |parts|
  {
    if parts == [] then Done([])
    else
      match ParseValue(TrimSpace(parts[0]))
      case Error => Error
      case Panic => Panic
      case Done(value) =>
        match ParseValues(parts[1..], bound)
        case Error => Error
        case Panic => Panic
        case Done(values) => Done([value] + values)
  }

  // ----- comparisons -----

  /** In the order they are tried. */
  const COMPARATORS := ["NOT IN", "IN", "MATCHES", "!=", "<=", ">=", "=", "<", ">"]

  /**
   * Where the parser sees this comparator: between spaces anywhere, else at its first occurrence if a space precedes
   * it.
   */
  function Position(input: string, comparator: string): (i: int)
    requires comparator != "" && comparator[0] != ' '
    ensures i == -1 || (0 <= i < |input| && ValueStart(input, comparator, i) <= |input|)
  {
    var spaced := Index(Upper(input), " " + comparator + " ");
    if spaced != -1 then spaced
    else
      var bare := Index(Upper(input), comparator);
      if bare > 0 && input[bare - 1] != ' ' then -1 else
        assert bare != -1 ==> Upper(input)[bare..bare + |comparator|][0] == comparator[0];
        bare
  }

  function ValueStart(input: string, comparator: string, i: nat): nat
    requires i < |input|
  {
    i + |comparator| + if input[i] == ' ' then 1 else 0
  }

  function ParseComparison(input: string): Parsed<Condition> {
    TryComparators(TrimSpace(input), 0)
  }

  function TryComparators(input: string, k: nat): Parsed<Condition>
    requires k <= |COMPARATORS|
    decreases |COMPARATORS| - k
  {
    if k == |COMPARATORS| then Error
    else
      var comparator := COMPARATORS[k];
      var i := Position(input, comparator);
      if i == -1 then TryComparators(input, k + 1)
      else
        match ParseValue(TrimSpace(input[ValueStart(input, comparator, i)..]))
        case Error => Error
        case Panic => Panic
        case Done(value) => Done(Field(TrimSpace(input[..i]), comparator, value))
  }

  // ----- conditions -----

  function ParseCondition(text: string): Parsed<Condition>
    decreases |text| + 1, 0
  {
    var input := TrimSpace(text);
    var orParts := Split(input, " OR ", 0, None);
    var andParts := Split(input, " AND ", 0, None);
    if |orParts| > 1 then
      match ParseAll(orParts, |input|)
      case Done(conditions) => Done(Or(conditions))
      case Error => Error
      case Panic => Panic
    else if |andParts| > 1 then
      match ParseAll(andParts, |input|)
      case Done(conditions) => Done(And(conditions))
      case Error => Error
      case Panic => Panic
    else if "NOT " <= Upper(input) then
      match ParseCondition(input[4..])
      case Done(inner) => Done(Not(inner))
      case Error => Error
      case Panic => Panic
    else if Bracketed(input, '(', ')') then ParseCondition(input[1..|input| - 1])
    else ParseComparison(input)
  }

  function ParseAll(parts: seq<string>, ghost bound: nat): Parsed<seq<Condition>>
    requires forall part :: part in parts ==> |part| < bound
    decreases bound, |parts|
  {
    if parts == [] then Done([])
    else
      match ParseCondition(parts[0])
      case Error => Error
      case Panic => Panic
      case Done(condition) =>
        match ParseAll(parts[1..], bound)
        case Error => Error
        case Panic => Panic
        case Done(conditions) => Done([condition] + conditions)
  }
}
