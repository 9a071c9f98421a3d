/** Comparing a field with a literal. */
module Comparisons {
  import opened Common
  import opened Texts
  import Decimals
  import opened Rules
  import opened ShareQL
  import opened ShareQLPrinting

  // ----- texts of values -----

  const RUNES := 0x110000

  /** The low 32 bits as a code point: one character, the replacement character when there is no such code point. */
  function Rune(n: int): (s: string)
    ensures |s| == 1
  {
    var r := n % 0x1_0000_0000;
    if r < 0xD800 || 0xE000 <= r < RUNES then [r as char] else ['\U{FFFD}']
  }

  function FieldText(field: FieldValue): string {
    match field
    case Nil => ""
    case Words(s) => s
    case Flag(b) => if b then "true" else "false"
    case Number(n) => Rune(n)
  }

  // ----- numerals -----

  /** An optional sign, digits, and possibly a point and digits. */
  function Numeric(minus: bool, whole: string, fraction: Option<string>): string {
    (if minus then "-" else "") + (whole + match fraction case None => "" case Some(digits) => "." + digits)
  }

  lemma PointIn(whole: string, rest: string)
    requires Digits(whole)
    ensures Index(whole, ".") == -1 && Index(whole + ("." + rest), ".") == |whole|
  {
    var t := whole + ("." + rest);
    forall i | 0 <= i < |whole| ensures !At(whole, ".", i) && !At(t, ".", i) {
      assert whole[i..i + 1] == [whole[i]] && t[i..i + 1] == [whole[i]];
    }
    assert t[|whole|..|whole| + 1] == ".";
    IndexIs(t, ".", |whole|);
  }

  /** Texts of that form are numerals, ... */
  lemma NumericIsNumeral(minus: bool, whole: string, fraction: Option<string>)
    requires Figures(whole) && (fraction.Some? ==> Figures(fraction.value))
    ensures Numeral(Numeric(minus, whole, fraction))
  {
    hide Index;
    var t := whole + match fraction case None => "" case Some(digits) => "." + digits;
    var s := Numeric(minus, whole, fraction);
    assert t[0] == whole[0];
    assert minus ==> s == "-" + t && s[1..] == t;
    assert !minus ==> s == t;
    PointIn(whole, if fraction.Some? then fraction.value else "");
    if fraction.Some? {
      assert t[..|whole|] == whole && t[|whole| + 1..] == fraction.value;
    } else {
      assert t == whole;
    }
  }

  /** ... and no others. */
  lemma NumeralIs(s: string) returns (minus: bool, whole: string, fraction: Option<string>)
    requires Numeral(s)
    ensures Figures(whole) && (fraction.Some? ==> Figures(fraction.value)) && s == Numeric(minus, whole, fraction)
  {
    hide Index, Figures;
    minus := "-" <= s;
    var t := if minus then s[1..] else s;
    whole, fraction := PointCut(t);
    assert minus ==> s == "-" + t;
    assert !minus ==> s == "" + t;
  }

  lemma PointCut(t: string) returns (whole: string, fraction: Option<string>)
    requires var point := Index(t, "."); if point == -1 then Figures(t)
      else Figures(t[..point]) && Figures(t[point + 1..])
    ensures Figures(whole) && (fraction.Some? ==> Figures(fraction.value))
    ensures t == whole + match fraction case None => "" case Some(digits) => "." + digits
  {
    hide Index, Figures;
    var point := Index(t, ".");
    if point == -1 {
      whole, fraction := t, None;
      assert whole + "" == whole;
    } else {
      whole, fraction := t[..point], Some(t[point + 1..]);
      assert t[point..point + 1] == ".";
      assert t == whole + ("." + fraction.value);
    }
  }

  /** A numeral as a number; of the digits behind the point only the value counts. */
  function Amount(numeral: string): real {
    if !Numeral(numeral) then 0.0
    else if "-" <= numeral then -Unsigned(numeral[1..]) else Unsigned(numeral)
  }

  function Unsigned(t: string): real
    requires var point := Index(t, "."); if point == -1 then Figures(t)
      else Figures(t[..point]) && Figures(t[point + 1..])
  {
    var point := Index(t, ".");
    if point == -1 then Decimals.Number(t) as real
    else Decimals.Number(t[..point]) as real + Decimals.Number(t[point + 1..]) as real / Ten(|t| - point - 1)
  }

  function Ten(n: nat): (r: real)
    ensures r >= 1.0
  {
    if n == 0 then 1.0 else 10.0 * Ten(n - 1)
  }

  /** Towards zero. */
  function Whole(x: real): int {
    if x < 0.0 then -(-x).Floor else x.Floor
  }

  function LiteralText(literal: Value): string {
    match literal
    case Str(text) => text
    case Bool(b) => if b then "true" else "false"
    case Num(numeral) => Rune(Whole(Amount(numeral)))
    case List(_) => ""
  }

  // ----- numbers of values -----

  /** A text that is not empty counts as 0. */
  function TextNumber(s: string): Option<real> {
    if s == "" then None else Some(0.0)
  }

  function FieldNumber(field: FieldValue): Option<real> {
    match field
    case Number(n) => Some(n as real)
    case Words(s) => TextNumber(s)
    case _ => None
  }

  function LiteralNumber(literal: Value): Option<real> {
    match literal
    case Num(numeral) => Some(Amount(numeral))
    case Str(text) => TextNumber(text)
    case _ => None
  }

  predicate Before(a: Option<real>, b: Option<real>) {
    a.Some? && b.Some? && a.value < b.value
  }

  /** The comparisons of the rule language; only what a pattern matches is left open. */
  function Standard(matches: (FieldValue, Value) -> bool): Compare {
    Compare((field, literal) => Upper(FieldText(field)) == Upper(LiteralText(literal)),
            (field, literal) => Before(FieldNumber(field), LiteralNumber(literal)),
            (field, literal) => Before(LiteralNumber(literal), FieldNumber(field)),
            matches)
  }

  // ----- comparing numbers -----

  lemma UnsignedIs(whole: string, fraction: Option<string>)
    requires Figures(whole) && (fraction.Some? ==> Figures(fraction.value))
    ensures var t, point := Numeric(false, whole, fraction), Index(Numeric(false, whole, fraction), ".");
      && (if point == -1 then Figures(t) else Figures(t[..point]) && Figures(t[point + 1..]))
      && Unsigned(t) == Decimals.Number(whole) as real +
        (if fraction.Some? then Decimals.Number(fraction.value) as real / Ten(|fraction.value|) else 0.0)
  {
    hide Index, Ten, Decimals.Number, Figures;
    FiguresDigits(whole);
    var t := Numeric(false, whole, fraction);
    match fraction
    case None =>
      assert t == whole;
      PointIn(whole, "");
    case Some(digits) =>
      assert t == whole + ("." + digits);
      PointIn(whole, digits);
      assert t[..|whole|] == whole && t[|whole| + 1..] == digits;
  }

  lemma FiguresDigits(s: string)
    requires Figures(s)
    ensures Digits(s) && s != ""
  {
  }

  /** The value of a numeral is the one it is written for. */
  lemma AmountIs(minus: bool, whole: string, fraction: Option<string>)
    requires Figures(whole) && (fraction.Some? ==> Figures(fraction.value))
    ensures var size := Decimals.Number(whole) as real +
              (if fraction.Some? then Decimals.Number(fraction.value) as real / Ten(|fraction.value|) else 0.0);
      Amount(Numeric(minus, whole, fraction)) == if minus then -size else size
  {
    hide Index, Ten, Decimals.Number, Unsigned, Numeral;
    NumericIsNumeral(minus, whole, fraction);
    UnsignedIs(whole, fraction);
    var t, s := Numeric(false, whole, fraction), Numeric(minus, whole, fraction);
    assert t[0] == whole[0];
    assert minus ==> s == "-" + t && s[1..] == t;
  }

  lemma WrittenNumber(n: nat)
    ensures Numeral(Decimals.Dec(n)) && Amount(Decimals.Dec(n)) == n as real && Whole(Amount(Decimals.Dec(n))) == n
  {
    hide Numeral, Amount;
    var digits := Decimals.Dec(n);
    Decimals.NumberDec(n);
    NumericIsNumeral(false, digits, None);
    AmountIs(false, digits, None);
    assert Numeric(false, digits, None) == digits;
  }

  /** Sizes and depths are ordered as numbers; a text that is not empty is ordered as the number 0. */
  lemma OrderExact(n: int, s: string, m: nat, matches: (FieldValue, Value) -> bool)
    ensures var compare, literal := Standard(matches), Num(Decimals.Dec(m));
      && (Compares(Number(n), "<", literal, compare) <==> n < m)
      && (Compares(Number(n), ">", literal, compare) <==> n > m)
      && (Compares(Words(s), "<", literal, compare) <==> s != "" && 0 < m)
      && !Compares(Words(s), ">", literal, compare)
  {
    hide Amount;
    WrittenNumber(m);
  }

  predicate Letter(n: int) {
    'A' as int <= n <= 'Z' as int || 'a' as int <= n <= 'z' as int
  }

  /** Not a code point of its own. */
  predicate NoRune(n: int) {
    0xD800 <= n < 0xE000 || n >= RUNES || n == 0xFFFD
  }

  function Code(n: int): int {
    if NoRune(n) then 0xFFFD else if 'a' as int <= n <= 'z' as int then n - 32 else n
  }

  lemma RuneCode(n: nat)
    requires n < 0x1_0000_0000
    ensures |Upper(Rune(n))| == 1 && Upper(Rune(n))[0] as int == Code(n)
  {
  }

  lemma CodesEqual(n: nat, m: nat)
    ensures Code(n) == Code(m) <==>
      n == m || (Letter(n) && Letter(m) && (n == m + 32 || m == n + 32)) || (NoRune(n) && NoRune(m))
  {
  }

  /**
    * Numbers are compared for equality as characters: two of 32 bits are equal exactly if they are the same number, or
    * code points of one letter in both cases, or both no code points.
    */
  lemma NumbersEqual(n: nat, m: nat, matches: (FieldValue, Value) -> bool)
    requires n < 0x1_0000_0000 && m < 0x1_0000_0000
    ensures Standard(matches).equal(Number(n), Num(Decimals.Dec(m))) <==>
      n == m || (Letter(n) && Letter(m) && (n == m + 32 || m == n + 32)) || (NoRune(n) && NoRune(m))
  {
    hide Amount, Rune, Upper, Code;
    WrittenNumber(m);
    RuneCode(n);
    RuneCode(m);
    CodesEqual(n, m);
    var a, b := Upper(Rune(n)), Upper(Rune(m));
    assert a == b <==> a[0] == b[0];
  }

  /** So equality to a number means that number alone exactly if it is a code point that is no letter. */
  lemma EqualityExact(m: nat, matches: (FieldValue, Value) -> bool)
    requires m < 0x1_0000_0000
    ensures (forall n: nat | n < 0x1_0000_0000 ::
      Standard(matches).equal(Number(n), Num(Decimals.Dec(m))) <==> n == m) <==> !Letter(m) && !NoRune(m)
  {
    var compare, literal := Standard(matches), Num(Decimals.Dec(m));
    hide Standard, Rune;
    forall n: nat | n < 0x1_0000_0000 ensures compare.equal(Number(n), literal) <==>
      n == m || (Letter(n) && Letter(m) && (n == m + 32 || m == n + 32)) || (NoRune(n) && NoRune(m)) {
      NumbersEqual(n, m, matches);
    }
    var other: nat := if Letter(m) then (if m < 97 then m + 32 else m - 32) else if m == 0xD800 then 0xD801 else 0xD800;
    assert Letter(m) || NoRune(m) ==> compare.equal(Number(other), literal);
  }

  /** FILE.SIZE = 2000000 holds of a file of 3000000 bytes. */
  lemma SizeMistaken(matches: (FieldValue, Value) -> bool)
    ensures Standard(matches).equal(Number(3000000), Num(Decimals.Dec(2000000)))
  {
    NumbersEqual(3000000, 2000000, matches);
  }
}
