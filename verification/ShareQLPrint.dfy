/** Printing ShareQL comparisons, and exactly when the parser gives a printed comparison back. */
module ShareQLPrinting {
  import opened Texts
  import opened Splitters
  import opened Rules
  import opened ShareQL

  // ----- the first occurrence of a pattern -----

  /** No occurrence of the pattern begins in the first n characters. */
  predicate NoneIn(s: string, pattern: string, n: nat) {
    forall i :: 0 <= i < n ==> !At(s, pattern, i)
  }

  lemma AtShift(a: string, b: string, pattern: string, i: int)
    requires i >= 0
    ensures At(a + b, pattern, |a| + i) <==> At(b, pattern, i)
  {
    if i + |pattern| <= |b| {
      assert (a + b)[|a| + i..|a| + i + |pattern|] == b[i..i + |pattern|];
    }
  }

  lemma AtRange(s: string, pattern: string, i: int)
    ensures At(s, pattern, i) ==> 0 <= i <= |s| - |pattern|
  {
  }

  lemma IndexIs(s: string, pattern: string, i: nat)
    requires At(s, pattern, i) && NoneIn(s, pattern, i)
    ensures Index(s, pattern) == i
  {
    hide At;
    AtRange(s, pattern, i);
    AtRange(s, pattern, Index(s, pattern));
  }

  lemma NoIndex(s: string, pattern: string)
    requires NoneIn(s, pattern, |s| + 1)
    ensures Index(s, pattern) == -1
  {
    hide At;
    AtRange(s, pattern, Index(s, pattern));
  }

  /** When nothing begins in the first part, the search goes on in the second. */
  lemma IndexSkips(a: string, b: string, pattern: string)
    requires NoneIn(a + b, pattern, |a|)
    ensures Index(a + b, pattern) == if Index(b, pattern) == -1 then -1 else |a| + Index(b, pattern)
  {
    hide At, Index;
    var j := Index(b, pattern);
    if j == -1 {
      forall k | 0 <= k <= |a + b| ensures !At(a + b, pattern, k) {
        if k >= |a| { AtShift(a, b, pattern, k - |a|); }
      }
      NoIndex(a + b, pattern);
    } else {
      AtRange(b, pattern, j);
      AtShift(a, b, pattern, j);
      forall k | 0 <= k < |a| + j ensures !At(a + b, pattern, k) {
        if k >= |a| { AtShift(a, b, pattern, k - |a|); }
      }
      IndexIs(a + b, pattern, |a| + j);
    }
  }

  lemma UpperConcat(a: string, b: string)
    ensures Upper(a + b) == Upper(a) + Upper(b)
  {
  }

  // ----- fields and comparators -----

  /** The fields an evaluator knows. */
  const FIELDS := ["DEPTH", "SHARE.NAME", "SHARE.DESCRIPTION", "SHARE.HIDDEN", "FILE.NAME", "FILE.PATH", "FILE.SIZE",
                   "FILE.EXTENSION", "DIR.NAME", "DIR.PATH", "DIRECTORY.NAME", "DIRECTORY.PATH"]

  predicate KnownField(field: string) {
    Upper(field) in FIELDS
  }

  /** The comparator could begin with these two characters. */
  predicate Begun(comparator: string, x: char, y: char)
    requires comparator != ""
  {
    comparator[0] == x && (|comparator| == 1 || comparator[1] == y)
  }

  function CharAt(s: string, i: nat, next: char): char {
    if i < |s| then s[i] else next
  }

  /** No comparator begins inside the text when a space follows it, and nothing in it matters to the splitters. */
  predicate Clear(s: string) {
    forall i | 0 <= i < |s| :: ClearAt(s, i)
  }

  predicate ClearAt(s: string, i: nat)
    requires i < |s|
  {
    var x, y := s[i], CharAt(s, i + 1, ' ');
    (x == '.' || 'A' <= x <= 'Z') && !(x == 'N' && y == 'O') && !(x == 'I' && y == 'N') && !(x == 'M' && y == 'A')
  }

  lemma ShareFieldsClear()
    ensures Clear("DEPTH") && Clear("SHARE.NAME") && Clear("SHARE.DESCRIPTION") && Clear("SHARE.HIDDEN")
  {
  }

  lemma FileFieldsClear()
    ensures Clear("FILE.NAME") && Clear("FILE.PATH") && Clear("FILE.SIZE") && Clear("FILE.EXTENSION")
  {
  }

  lemma DirFieldsClear()
    ensures Clear("DIR.NAME") && Clear("DIR.PATH") && Clear("DIRECTORY.NAME") && Clear("DIRECTORY.PATH")
  {
  }

  lemma KnownFieldsClear(field: string)
    requires KnownField(field)
    ensures field != "" && Clear(Upper(field))
  {
    hide Upper, Clear;
    ShareFieldsClear();
    FileFieldsClear();
    DirFieldsClear();
  }

  lemma FieldLetter(field: string, i: nat)
    requires Clear(Upper(field)) && i < |field|
    ensures !Space(field[i]) && !Quote(field[i]) && !Opens(field[i]) && !Closes(field[i])
  {
    assert ClearAt(Upper(field), i);
  }

  predicate Shaped(c: string, spaced: bool) {
    && c != "" && c[0] in "NIM!<>=" && c[|c| - 1] in "NS=<>"
    && (c[0] in "NIM" ==>
      |c| > 1 && (c[0] == 'N' ==> c[1] == 'O') && (c[0] == 'I' ==> c[1] == 'N') && (c[0] == 'M' ==> c[1] == 'A'))
    && Upper(c) == c
    && (!spaced ==> ' ' !in c)
  }

  /** How the comparators look, as far as their searches can interfere. */
  lemma ComparatorShape(k: nat)
    requires k < |COMPARATORS|
    ensures Shaped(COMPARATORS[k], k == 0)
  {
    if k == 0 { assert COMPARATORS[k] == "NOT IN"; } else if k == 1 { assert COMPARATORS[k] == "IN"; }
    else if k == 2 { assert COMPARATORS[k] == "MATCHES"; } else if k == 3 { assert COMPARATORS[k] == "!="; }
    else if k == 4 { assert COMPARATORS[k] == "<="; } else if k == 5 { assert COMPARATORS[k] == ">="; }
    else if k == 6 { assert COMPARATORS[k] == "="; } else if k == 7 { assert COMPARATORS[k] == "<"; }
    else { assert COMPARATORS[k] == ">"; }
  }

  predicate Unmarked(c: string) {
    && (forall i :: 0 <= i < |c| ==> !Quote(c[i]) && !Opens(c[i]) && !Closes(c[i]) && c[i] != '\n')
    && (forall i :: 0 <= i < |c| && c[i] == ' ' ==> i + 1 < |c| && c[i + 1] == 'I')
  }

  lemma ComparatorUnmarked(k: nat)
    requires k < |COMPARATORS|
    ensures Unmarked(COMPARATORS[k])
  {
    if k == 0 { assert COMPARATORS[k] == "NOT IN"; } else if k == 1 { assert COMPARATORS[k] == "IN"; }
    else if k == 2 { assert COMPARATORS[k] == "MATCHES"; } else if k == 3 { assert COMPARATORS[k] == "!="; }
    else if k == 4 { assert COMPARATORS[k] == "<="; } else if k == 5 { assert COMPARATORS[k] == ">="; }
    else if k == 6 { assert COMPARATORS[k] == "="; } else if k == 7 { assert COMPARATORS[k] == "<"; }
    else { assert COMPARATORS[k] == ">"; }
  }

  /** An earlier comparator does not begin inside a later one. */
  lemma Apart(k: nat, m: nat, j: nat)
    requires k < m < |COMPARATORS| && j < |COMPARATORS[m]|
    ensures COMPARATORS[k] != "" && !Begun(COMPARATORS[k], COMPARATORS[m][j], CharAt(COMPARATORS[m], j + 1, ' '))
  {
    if m == 1 { assert COMPARATORS[m] == "IN"; } else if m == 2 { assert COMPARATORS[m] == "MATCHES"; }
    else if m == 3 { assert COMPARATORS[m] == "!="; } else if m == 4 { assert COMPARATORS[m] == "<="; }
    else if m == 5 { assert COMPARATORS[m] == ">="; } else if m == 6 { assert COMPARATORS[m] == "="; }
    else if m == 7 { assert COMPARATORS[m] == "<"; } else { assert COMPARATORS[m] == ">"; }
    if k == 0 { assert COMPARATORS[k] == "NOT IN"; } else if k == 1 { assert COMPARATORS[k] == "IN"; }
    else if k == 2 { assert COMPARATORS[k] == "MATCHES"; } else if k == 3 { assert COMPARATORS[k] == "!="; }
    else if k == 4 { assert COMPARATORS[k] == "<="; } else if k == 5 { assert COMPARATORS[k] == ">="; }
    else if k == 6 { assert COMPARATORS[k] == "="; } else { assert COMPARATORS[k] == "<"; }
  }

  lemma AtBegun(s: string, pattern: string, i: int)
    requires pattern != "" && At(s, pattern, i)
    ensures 0 <= i < |s| && Begun(pattern, s[i], CharAt(s, i + 1, ' '))
  {
    assert s[i] == s[i..i + |pattern|][0];
    if |pattern| > 1 {
      assert s[i + 1] == s[i..i + |pattern|][1];
    }
  }

  // ----- a printed comparison -----

  function Comparison(field: string, comparator: string, value: string): string {
    field + " " + comparator + " " + value
  }

  /** Upper case, piece by piece. */
  lemma UpperComparison(field: string, m: nat, value: string)
    requires m < |COMPARATORS|
    ensures Upper(Comparison(field, COMPARATORS[m], value))
      == (Upper(field) + " " + COMPARATORS[m]) + Upper(" " + value)
  {
    var comparator := COMPARATORS[m];
    ComparatorShape(m);
    UpperConcat(field, " ");
    UpperConcat(field + " ", comparator);
    UpperConcat(field + " " + comparator, " " + value);
    assert Comparison(field, comparator, value) == (field + " " + comparator) + (" " + value);
  }

  /** Before the value, no earlier comparator begins. */
  lemma Quiet(field: string, k: nat, m: nat, value: string, i: nat)
    requires Clear(Upper(field)) && k < m < |COMPARATORS| && i < |field| + 1 + |COMPARATORS[m]|
    ensures COMPARATORS[k] != ""
    ensures var u := Upper(Comparison(field, COMPARATORS[m], value));
            i < |u| && !Begun(COMPARATORS[k], u[i], CharAt(u, i + 1, ' '))
  {
    ComparatorShape(k);
    UpperComparison(field, m, value);
    hide Upper;
    var u := Upper(Comparison(field, COMPARATORS[m], value));
    assert |u| > |field| + 1 + |COMPARATORS[m]| && u[|field| + 1 + |COMPARATORS[m]|] == ' ' by {
      assert Upper(" " + value)[0] == UpperChar(' ');
    }
    if i < |field| {
      assert ClearAt(Upper(field), i);
      assert u[i] == Upper(field)[i] && u[i + 1] == CharAt(Upper(field), i + 1, ' ');
    } else if i == |field| {
      assert u[i] == ' ';
    } else {
      var j := i - |field| - 1;
      Apart(k, m, j);
      assert u[i] == COMPARATORS[m][j] && u[i + 1] == CharAt(COMPARATORS[m], j + 1, ' ');
    }
  }

  lemma QuietSearch(field: string, k: nat, m: nat, value: string)
    requires Clear(Upper(field)) && k < m < |COMPARATORS|
    ensures var u, n := Upper(Comparison(field, COMPARATORS[m], value)), |field| + 1 + |COMPARATORS[m]|;
            NoneIn(u, COMPARATORS[k], n) && NoneIn(u, " " + COMPARATORS[k] + " ", n)
  {
    hide Upper, Begun, Clear, At, CharAt, Comparison;
    var c, u, n := COMPARATORS[k], Upper(Comparison(field, COMPARATORS[m], value)), |field| + 1 + |COMPARATORS[m]|;
    ComparatorShape(k);
    ComparatorShape(m);
    forall i | 0 <= i < n ensures !At(u, c, i) && !At(u, " " + c + " ", i) {
      Quiet(field, k, m, value, i);
      if At(u, c, i) {
        AtBegun(u, c, i);
      } else if At(u, " " + c + " ", i) {
        AtInner(u, c, i);
        SpaceIn(field, m, value, i);
        Quiet(field, k, m, value, i + 1);
        AtBegun(u, c, i + 1);
      }
    }
  }

  lemma AtInner(s: string, pattern: string, i: int)
    requires At(s, " " + pattern + " ", i)
    ensures 0 <= i < |s| && s[i] == ' ' && At(s, pattern, i + 1)
    ensures i + 1 + |pattern| < |s| && s[i + 1 + |pattern|] == ' '
  {
    var window := s[i..i + |pattern| + 2];
    assert s[i] == window[0] && s[i + 1 + |pattern|] == window[|pattern| + 1];
    assert s[i + 1..i + 1 + |pattern|] == window[1..1 + |pattern|] == pattern;
  }

  /** The first space of a printed comparison follows the field. */
  lemma SpaceIn(field: string, m: nat, value: string, i: nat)
    requires Clear(Upper(field)) && 0 < m < |COMPARATORS| && i < |field| + 1 + |COMPARATORS[m]|
    ensures var u := Upper(Comparison(field, COMPARATORS[m], value)); i < |u| && (u[i] == ' ' ==> i == |field|)
  {
    UpperComparison(field, m, value);
    ComparatorShape(m);
    hide Upper;
    var u := Upper(Comparison(field, COMPARATORS[m], value));
    if i < |field| {
      assert u[i] == Upper(field)[i] && ClearAt(Upper(field), i);
    } else if i > |field| {
      assert u[i] == COMPARATORS[m][i - |field| - 1];
    }
  }

  /** An earlier comparator is seen exactly where it is seen in the value with a space before it. */
  lemma PositionLater(field: string, k: nat, m: nat, value: string)
    requires Clear(Upper(field)) && k < m < |COMPARATORS|
    ensures COMPARATORS[k] != "" && COMPARATORS[k][0] != ' '
    ensures Position(Comparison(field, COMPARATORS[m], value), COMPARATORS[k]) ==
      var i := Position(" " + value, COMPARATORS[k]);
      if i == -1 then -1 else |field| + 1 + |COMPARATORS[m]| + i
  {
    hide Upper, Clear, Index, At;
    var c, text := COMPARATORS[k], Comparison(field, COMPARATORS[m], value);
    var a := Upper(field) + " " + COMPARATORS[m];
    ComparatorShape(k);
    UpperComparison(field, m, value);
    QuietSearch(field, k, m, value);
    IndexSkips(a, Upper(" " + value), c);
    IndexSkips(a, Upper(" " + value), " " + c + " ");
    var bare := Index(Upper(" " + value), c);
    if bare != -1 {
      AtBegun(Upper(" " + value), c, bare);
      assert Upper(" " + value)[0] == ' ' by { assert UpperChar(' ') == ' '; }
      assert bare > 0;
      assert text == (field + " " + COMPARATORS[m]) + (" " + value);
      assert text[|a| + bare - 1] == (" " + value)[bare - 1];
    }
  }

  /** The comparator itself is seen behind the field. */
  lemma PositionOwn(field: string, m: nat, value: string)
    requires Clear(Upper(field)) && m < |COMPARATORS|
    ensures COMPARATORS[m] != "" && COMPARATORS[m][0] != ' '
    ensures Position(Comparison(field, COMPARATORS[m], value), COMPARATORS[m]) == |field|
  {
    var c := COMPARATORS[m];
    ComparatorShape(m);
    UpperComparison(field, m, value);
    hide Upper, Index;
    var u, pattern := Upper(Comparison(field, c, value)), " " + c + " ";
    assert Upper(" " + value)[0] == ' ' by { assert UpperChar(' ') == ' '; }
    assert u[|field|..|field| + |pattern|] == pattern;
    forall i | 0 <= i < |field| ensures !At(u, pattern, i) {
      assert u[i] == Upper(field)[i] && ClearAt(Upper(field), i);
      if At(u, pattern, i) { AtBegun(u, pattern, i); }
    }
    IndexIs(u, pattern, |field|);
  }

  /** Some comparator tried before number m is seen in the printed value. */
  predicate Mistakable(value: string, m: nat)
    requires m <= |COMPARATORS|
  {
    MistakableFrom(value, 0, m)
  }

  predicate MistakableFrom(value: string, k: nat, m: nat)
    requires k <= m <= |COMPARATORS|
    decreases m - k
  {
    k < m && (SeenIn(value, k) || MistakableFrom(value, k + 1, m))
  }

  predicate SeenIn(value: string, k: nat)
    requires k < |COMPARATORS|
  {
    ComparatorShape(k);
    Position(" " + value, COMPARATORS[k]) != -1
  }

  lemma {:induction false} TryFrom(field: string, m: nat, value: string, k: nat, v: Value)
    requires KnownField(field) && k <= m < |COMPARATORS| && Trimmed(value) && value != ""
    ensures TryComparators(Comparison(field, COMPARATORS[m], value), k) == Done(Field(field, COMPARATORS[m], v))
      <==> !MistakableFrom(value, k, m) && ParseValue(value) == Done(v)
    decreases m - k
  {
    hide Clear, Upper, KnownField, Position, ParseValue, TrimSpace, FIELDS;
    KnownFieldsClear(field);
    var text := Comparison(field, COMPARATORS[m], value);
    ComparatorShape(k);
    if k == m {
      PositionOwn(field, m, value);
      FieldLetter(field, 0);
      FieldLetter(field, |field| - 1);
      assert text[..|field|] == field && Trimmed(field);
      assert text[|field|] == ' ';
      assert text[ValueStart(text, COMPARATORS[m], |field|)..] == " " + value;
      TrimLeft(value);
    } else {
      PositionLater(field, k, m, value);
      Apart(k, m, 0);
      assert COMPARATORS[k] != COMPARATORS[m];
      if Position(text, COMPARATORS[k]) == -1 {
        TryFrom(field, m, value, k + 1, v);
      }
    }
  }

  lemma TrimLeft(value: string)
    requires Trimmed(value)
    ensures TrimSpace(" " + value) == value
  {
    assert (" " + value)[1..] == value;
  }

  /**
    * A printed comparison over a known field is given back exactly when its value is, and no comparator that is tried
    * earlier is seen in the value.
    */
  lemma ComparisonRoundTrip(field: string, m: nat, value: string, v: Value)
    requires KnownField(field) && m < |COMPARATORS| && Trimmed(value) && value != ""
    ensures ParseComparison(Comparison(field, COMPARATORS[m], value)) == Done(Field(field, COMPARATORS[m], v))
      <==> !Mistakable(value, m) && ParseValue(value) == Done(v)
  {
    hide Clear, Upper, KnownField, ParseValue, TryComparators, FIELDS;
    KnownFieldsClear(field);
    FieldLetter(field, 0);
    var text := Comparison(field, COMPARATORS[m], value);
    assert text[0] == field[0] && text[|text| - 1] == value[|value| - 1];
    TryFrom(field, m, value, 0, v);
  }
}
