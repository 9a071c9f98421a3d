/** Decimal numbers, and texts made of them. */
module Decimals {
  import opened Texts

  function Dec(n: nat): (s: string)
    ensures |s| > 0 && Digits(s)
  {
    if n < 10 then ['0' + n as char] else Dec(n / 10) + ['0' + (n % 10) as char]
  }

  lemma {:induction false} DecInjective(m: nat, n: nat)
    requires Dec(m) == Dec(n)
    ensures m == n
  {
    NumberDec(m);
    NumberDec(n);
  }

  /** Reading a run of digits. */
  function Number(s: string): nat
    requires Digits(s)
  {
    if s == "" then 0 else 10 * Number(s[..|s| - 1]) + (s[|s| - 1] as int - '0' as int)
  }

  /** A number written in decimal reads as that number, and has no zeros in front. */
  lemma {:induction false} NumberDec(n: nat)
    ensures Number(Dec(n)) == n
    ensures |Dec(n)| > 1 ==> Dec(n)[0] != '0'
  {
    var s := Dec(n);
    if n >= 10 {
      NumberDec(n / 10);
      assert s[..|s| - 1] == Dec(n / 10);
      if n / 10 < 10 {
        assert Dec(n / 10) == ['0' + (n / 10) as char];
      }
      assert s[0] == Dec(n / 10)[0];
    }
  }

  /** The pieces of a text between separators. */
  function Pieces(s: string, separator: char): (pieces: seq<string>)
    ensures pieces != []
  {
    if s == "" then [""]
    else
      var rest := Pieces(s[1..], separator);
      if s[0] == separator then [""] + rest else [s[..1] + rest[0]] + rest[1..]
  }

  lemma {:induction false} PiecesFirst(d: string, separator: char, rest: string)
    requires separator !in d
    ensures Pieces(d, separator) == [d]
    ensures Pieces(d + ([separator] + rest), separator) == [d] + Pieces(rest, separator)
  {
    var s := d + ([separator] + rest);
    if d == "" {
      assert s[1..] == rest;
    } else {
      PiecesFirst(d[1..], separator, rest);
      assert s[1..] == d[1..] + ([separator] + rest);
      assert d == d[..1] + d[1..] && s[..1] == d[..1];
      assert ([d[1..]] + Pieces(rest, separator))[1..] == Pieces(rest, separator);
    }
  }
}
