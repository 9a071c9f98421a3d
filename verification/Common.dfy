/** Small shared vocabulary. */
module Common {

  datatype Option<+T> = None | Some(value: T)

  datatype Result<+T> = Ok(value: T) | Err

  predicate Distinct<T(==)>(s: seq<T>) {
    forall i, j :: 0 <= i < j < |s| ==> s[i] != s[j]
  }

  function Elements<T(==)>(s: seq<T>): set<T> {
    set x | x in s
  }

  lemma {:induction false} DistinctSize<T>(s: seq<T>)
    requires Distinct(s)
    ensures |Elements(s)| == |s|
  {
    if s != [] {
      var init, last := s[..|s| - 1], s[|s| - 1];
      DistinctSize(init);
      assert Elements(s) == Elements(init) + {last};
      assert last !in init;
    }
  }

  /** Index of the first occurrence of x in s. */
  function FirstIndex<T(==)>(s: seq<T>, x: T): (i: nat)
    requires x in s
    ensures i < |s| && s[i] == x && x !in s[..i]
  {
    if s[0] == x then 0 else 1 + FirstIndex(s[1..], x)
  }

  lemma {:induction false} FirstIndexUnique<T>(s: seq<T>, x: T, i: nat)
    requires i < |s| && s[i] == x && x !in s[..i]
    ensures FirstIndex(s, x) == i
  {
    if i > 0 {
      assert s[0] == s[..i][0] && s[1..][..i - 1] == s[..i][1..];
      FirstIndexUnique(s[1..], x, i - 1);
    }
  }

  lemma AtLeastOne(n: int, b: nat)
    ensures n >= 1 ==> n * b >= b
    ensures n <= -1 ==> n * b + b <= 0
  {
    if n >= 1 {
      assert n * b == b + (n - 1) * b;
    } else if n <= -1 {
      assert n * b + b == (n + 1) * b;
    }
  }

  lemma DivBlock(q: nat, b: nat, k: nat)
    requires k < b
    ensures (q * b + k) / b == q
  {
    var x := q * b + k;
    var d, m := x / b, x % b;
    assert x == d * b + m;
    assert (d - q) * b == d * b - q * b;
    AtLeastOne(d - q, b);
  }
}
