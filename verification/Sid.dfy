/** Security identifiers: binary form (sections 2.4.2.1 and 2.4.2.2 of MS-DTYP), text and principal names. */
module Sids {
  import opened Common
  import opened ByteStrings
  import opened Texts
  import opened Decimals

  datatype Sid = Sid(revision: byte, authority: Bytes, subAuthorities: seq<uint32>)
  {
    predicate WellFormed() {
      |authority| == 6 && |subAuthorities| <= 0xFF
    }

    function Size(): nat {
      8 + 4 * |subAuthorities|
    }
  }

  // ----- binary form -----

  function SubAuthorities(data: Bytes, n: nat): (subs: seq<uint32>)
    requires 8 + 4 * n <= |data|
    ensures |subs| == n
  {
    seq(n, i requires 0 <= i < n => U32(data, 8 + 4 * i))
  }

  /** What parsing the front of `data` yields. */
  function SidAt(data: Bytes): (r: Result<Sid>)
    ensures r.Ok? ==> r.value.WellFormed() && r.value.Size() <= |data|
  {
    if |data| < 8 then Err
    else
      var count: int := data[1];
      if |data| < 8 + 4 * count then Err
      else Ok(Sid(data[0], data[2..8], SubAuthorities(data, count)))
  }

  method ParseSID(data: Bytes) returns (r: Result<Sid>)
    ensures r == SidAt(data)
  {
    if |data| < 8 {
      return Err;
    }
    var revision, subAuthorityCount: int := data[0], data[1];
    var identifierAuthority := data[2..8];
    var expectedLen := 8 + subAuthorityCount * 4;
    if |data| < expectedLen {
      return Err;
    }
    var subAuthorities := new uint32[subAuthorityCount](_ => 0);
    for i := 0 to subAuthorityCount
      invariant forall k :: 0 <= k < i ==> subAuthorities[k] == U32(data, 8 + 4 * k)
    {
      var offset := 8 + i * 4;
      subAuthorities[i] := U32(data, offset);
    }
    assert subAuthorities[..] == SubAuthorities(data, subAuthorityCount);
    return Ok(Sid(revision, identifierAuthority, subAuthorities[..]));
  }

  function EncodeSubs(subs: seq<uint32>): (data: Bytes)
    ensures |data| == 4 * |subs|
  {
    if subs == [] then [] else EncodeSubs(subs[..|subs| - 1]) + LE32(subs[|subs| - 1])
  }

  /** The packet representation of section 2.4.2.2 of MS-DTYP. */
  function EncodeSid(sid: Sid): (data: Bytes)
    requires sid.WellFormed()
    ensures |data| == sid.Size()
  {
    [sid.revision, |sid.subAuthorities|] + sid.authority + EncodeSubs(sid.subAuthorities)
  }

  lemma {:induction false} EncodedSub(subs: seq<uint32>, i: nat)
    requires i < |subs|
    ensures Holds(EncodeSubs(subs), 4 * i, LE32(subs[i]))
  {
    hide LE32;
    var init := subs[..|subs| - 1];
    if i < |init| {
      EncodedSub(init, i);
      HoldsPart(EncodeSubs(subs), 0, EncodeSubs(init)[..4 * i], LE32(subs[i]), EncodeSubs(subs)[4 * i + 4..]);
    }
  }

  lemma SubInPlace(sid: Sid, rest: Bytes, i: nat)
    requires sid.WellFormed() && i < |sid.subAuthorities|
    ensures U32(EncodeSid(sid) + rest, 8 + 4 * i) == sid.subAuthorities[i]
  {
    var data, subs := EncodeSid(sid) + rest, EncodeSubs(sid.subAuthorities);
    var head := [sid.revision, |sid.subAuthorities|] + sid.authority;
    assert data[8..8 + |subs|] == subs;
    EncodedSub(sid.subAuthorities, i);
    assert data[8 + 4 * i..8 + 4 * i + 4] == subs[4 * i..4 * i + 4];
    HoldsU32(data, 8 + 4 * i, sid.subAuthorities[i]);
  }

  /** Parsing inverts the encoding, whatever bytes follow. */
  lemma SidRoundTrip(sid: Sid, rest: Bytes)
    requires sid.WellFormed()
    ensures SidAt(EncodeSid(sid) + rest) == Ok(sid)
  {
    var data := EncodeSid(sid) + rest;
    assert data[2..8] == sid.authority;
    forall i | 0 <= i < |sid.subAuthorities| ensures U32(data, 8 + 4 * i) == sid.subAuthorities[i] {
      SubInPlace(sid, rest, i);
    }
    assert SubAuthorities(data, |sid.subAuthorities|) == sid.subAuthorities;
  }

  // ----- text -----

  /** The 48-bit big-endian value of the identifier authority. */
  function AuthorityValue(authority: Bytes): nat {
    if authority == [] then 0
    else var last: int := authority[|authority| - 1];
      0x100 * AuthorityValue(authority[..|authority| - 1]) + last
  }

  function SubText(subs: seq<uint32>): (s: string)
    ensures subs != [] ==> |s| > 0 && s[0] == '-'
    ensures forall i :: 0 <= i < |s| ==> s[i] == '-' || '0' <= s[i] <= '9'
  {
    if subs == [] then "" else "-" + (Dec(subs[0]) + SubText(subs[1..]))
  }

  function Text(sid: Sid): (s: string) {
    "S-" + Dec(sid.revision) + "-" + Dec(AuthorityValue(sid.authority)) + SubText(sid.subAuthorities)
  }

  /** The text of the sub-authorities, extended at the back as the builder does. */
  lemma {:induction false} SubTextSnoc(subs: seq<uint32>, sub: uint32)
    ensures SubText(subs + [sub]) == SubText(subs) + ("-" + Dec(sub))
  {
    var all := subs + [sub];
    if subs == [] {
      assert all == [sub] && SubText(all[1..]) == "";
    } else {
      assert all[0] == subs[0] && all[1..] == subs[1..] + [sub];
      SubTextSnoc(subs[1..], sub);
    }
  }

  method String(sid: Sid) returns (s: string)
    requires |sid.authority| == 6
    ensures s == Text(sid)
  {
    hide Dec;
    var identAuth: nat := 0;
    for i := 0 to 6
      invariant identAuth == AuthorityValue(sid.authority[..i])
    {
      var b: int := sid.authority[i];
      identAuth := identAuth * 0x100 + b;
      assert sid.authority[..i + 1][..i] == sid.authority[..i];
    }
    assert sid.authority[..6] == sid.authority;
    s := "S-" + Dec(sid.revision) + "-" + Dec(identAuth);
    ghost var front := s;
    for i := 0 to |sid.subAuthorities|
      invariant s == front + SubText(sid.subAuthorities[..i])
    {
      s := s + ("-" + Dec(sid.subAuthorities[i]));
      assert sid.subAuthorities[..i + 1] == sid.subAuthorities[..i] + [sid.subAuthorities[i]];
      SubTextSnoc(sid.subAuthorities[..i], sid.subAuthorities[i]);
    }
    assert sid.subAuthorities[..|sid.subAuthorities|] == sid.subAuthorities;
  }

  lemma {:induction false} AuthorityInjective(a: Bytes, b: Bytes)
    requires |a| == |b| && AuthorityValue(a) == AuthorityValue(b)
    ensures a == b
  {
    if a != [] {
      var i := |a| - 1;
      AuthorityInjective(a[..i], b[..i]);
      assert a == a[..i] + [a[i]] && b == b[..i] + [b[i]];
    }
  }

  /** Length of the run of digits at the front. */
  function LeadingDigits(s: string): nat {
    if s == "" || !('0' <= s[0] <= '9') then 0 else 1 + LeadingDigits(s[1..])
  }

  lemma {:induction false} DigitsEnd(d: string, rest: string)
    requires Digits(d) && (rest == "" || rest[0] == '-')
    ensures LeadingDigits(d + rest) == |d|
  {
    if d == "" {
      assert d + rest == rest;
    } else {
      assert (d + rest)[1..] == d[1..] + rest;
      DigitsEnd(d[1..], rest);
    }
  }

  /** A run of digits ends where the next dash or the text ends. */
  lemma DigitsThenRest(d: string, r: string, e: string, q: string)
    requires Digits(d) && Digits(e) && d + r == e + q
    requires (r == "" || r[0] == '-') && (q == "" || q[0] == '-')
    ensures d == e && r == q
  {
    DigitsEnd(d, r);
    DigitsEnd(e, q);
    assert d == (d + r)[..|d|] && r == (d + r)[|d|..];
    assert e == (e + q)[..|e|] && q == (e + q)[|e|..];
  }

  lemma {:induction false} SubTextInjective(a: seq<uint32>, b: seq<uint32>)
    requires SubText(a) == SubText(b)
    ensures a == b
  {
    if a != [] && b != [] {
      var restA, restB := SubText(a[1..]), SubText(b[1..]);
      assert SubText(a)[1..] == Dec(a[0]) + restA && SubText(b)[1..] == Dec(b[0]) + restB;
      DigitsThenRest(Dec(a[0]), restA, Dec(b[0]), restB);
      DecInjective(a[0], b[0]);
      SubTextInjective(a[1..], b[1..]);
      assert a == [a[0]] + a[1..] && b == [b[0]] + b[1..];
    }
  }

  /** No two identifiers share a text, whatever their number of sub-authorities. */
  lemma TextInjective(a: Sid, b: Sid)
    requires |a.authority| == |b.authority| && Text(a) == Text(b)
    ensures a == b
  {
    var restA := TextSplit(a);
    var restB := TextSplit(b);
    DigitsThenRest(Dec(a.revision), restA, Dec(b.revision), restB);
    DecInjective(a.revision, b.revision);
    DigitsThenRest(Dec(AuthorityValue(a.authority)), SubText(a.subAuthorities),
                   Dec(AuthorityValue(b.authority)), SubText(b.subAuthorities));
    DecInjective(AuthorityValue(a.authority), AuthorityValue(b.authority));
    AuthorityInjective(a.authority, b.authority);
    SubTextInjective(a.subAuthorities, b.subAuthorities);
  }

  lemma TextSplit(sid: Sid) returns (rest: string)
    ensures Text(sid)[2..] == Dec(sid.revision) + rest && |rest| > 0 && rest[0] == '-'
    ensures rest[1..] == Dec(AuthorityValue(sid.authority)) + SubText(sid.subAuthorities)
  {
    rest := "-" + Dec(AuthorityValue(sid.authority)) + SubText(sid.subAuthorities);
    assert Text(sid) == "S-" + (Dec(sid.revision) + rest);
  }

  // ----- reading the text -----

  lemma SixBytes(authority: Bytes)
    requires |authority| == 6
    ensures var b0: int, b1: int, b2: int, b3: int, b4: int, b5: int :=
        authority[0], authority[1], authority[2], authority[3], authority[4], authority[5];
      AuthorityValue(authority) ==
        0x100_0000_0000 * b0 + 0x1_0000_0000 * b1 + 0x100_0000 * b2 + 0x1_0000 * b3 + 0x100 * b4 + b5
  {
    var a := authority;
    assert a[..5][..4] == a[..4] && a[..4][..3] == a[..3] && a[..3][..2] == a[..2] && a[..2][..1] == a[..1];
    assert a[..1][..0] == [];
    assert AuthorityValue(a[..1]) == a[0] as int;
    assert AuthorityValue(a[..2]) == 0x100 * AuthorityValue(a[..1]) + a[1] as int;
    assert AuthorityValue(a[..3]) == 0x100 * AuthorityValue(a[..2]) + a[2] as int;
    assert AuthorityValue(a[..4]) == 0x100 * AuthorityValue(a[..3]) + a[3] as int;
    assert AuthorityValue(a[..5]) == 0x100 * AuthorityValue(a[..4]) + a[4] as int;
  }

  /** The sub-authorities, one piece of digits each. */
  lemma {:induction false} SubPieces(d: string, subs: seq<uint32>)
    requires '-' !in d
    ensures var pieces := Pieces(d + SubText(subs), '-');
      |pieces| == 1 + |subs| && pieces[0] == d && forall i :: 0 <= i < |subs| ==> pieces[1 + i] == Dec(subs[i])
    decreases |subs|
  {
    PiecesFirst(d, '-', "");
    if subs == [] {
      assert d + "" == d;
    } else {
      var rest := Dec(subs[0]) + SubText(subs[1..]);
      PiecesFirst(d, '-', rest);
      SubPieces(Dec(subs[0]), subs[1..]);
      assert d + SubText(subs) == d + (['-'] + rest);
    }
  }

  /**
   * What the text says: pieces between dashes, the letter S first, then the revision, the authority as one number with
   * its first byte highest, and the sub-authorities, in decimal.
   */
  lemma TextReads(sid: Sid)
    requires |sid.authority| == 6
    ensures var pieces, a := Pieces(Text(sid), '-'), sid.authority;
      && |pieces| == 3 + |sid.subAuthorities| && pieces[0] == "S"
      && (forall i :: 1 <= i < |pieces| ==> pieces[i] != "" && Digits(pieces[i]))
      && Number(pieces[1]) == sid.revision
      && (var b0: int, b1: int, b2: int, b3: int, b4: int, b5: int := a[0], a[1], a[2], a[3], a[4], a[5];
          Number(pieces[2]) ==
            0x100_0000_0000 * b0 + 0x1_0000_0000 * b1 + 0x100_0000 * b2 + 0x1_0000 * b3 + 0x100 * b4 + b5)
      && forall i :: 0 <= i < |sid.subAuthorities| ==> Number(pieces[3 + i]) == sid.subAuthorities[i]
  {
    hide Dec, AuthorityValue, SubText, Pieces, Number;
    var value := AuthorityValue(sid.authority);
    var tail := Dec(value) + SubText(sid.subAuthorities);
    SixBytes(sid.authority);
    SubPieces(Dec(value), sid.subAuthorities);
    PiecesFirst(Dec(sid.revision), '-', tail);
    PiecesFirst("S", '-', Dec(sid.revision) + (['-'] + tail));
    assert Text(sid) == "S" + (['-'] + (Dec(sid.revision) + (['-'] + tail)));
    NumberDec(sid.revision);
    NumberDec(value);
    var pieces := Pieces(Text(sid), '-');
    assert pieces == ["S"] + ([Dec(sid.revision)] + Pieces(tail, '-'));
    forall i | 0 <= i < |sid.subAuthorities|
      ensures pieces[3 + i] == Dec(sid.subAuthorities[i]) && Number(Dec(sid.subAuthorities[i])) == sid.subAuthorities[i]
    {
      NumberDec(sid.subAuthorities[i]);
    }
    forall i | 1 <= i < |pieces| ensures pieces[i] != "" && Digits(pieces[i]) {
      if i >= 3 {
        assert pieces[3 + (i - 3)] == Dec(sid.subAuthorities[i - 3]);
      }
    }
  }

  // ----- principal names -----

  predicate IsDomainSID(sid: string) {
    "S-1-5-21-" <= sid
  }

  /** The start of a rights edge: non-domain SIDs carry the domain name in front. */
  function Principal(domainSuffix: string, sid: string): string {
    if domainSuffix != "" && !IsDomainSID(sid) then domainSuffix + "-" + sid else sid
  }

  /** An identifier of a domain: revision 1, authority 5, and behind the 21 at least one more sub-authority. */
  predicate InDomain(sid: Sid) {
    && sid.revision == 1 && sid.authority == [0, 0, 0, 0, 0, 5]
    && |sid.subAuthorities| >= 2 && sid.subAuthorities[0] == 21
  }

  lemma {:induction false} SmallDecs()
    ensures Dec(1) == "1" && Dec(5) == "5" && Dec(21) == "21"
    ensures AuthorityValue([0, 0, 0, 0, 0, 5]) == 5
  {
    assert Dec(2) == "2";
    SixBytes([0, 0, 0, 0, 0, 5]);
  }

  /** The text tells a domain's identifiers from the others. */
  lemma DomainText(sid: Sid)
    requires |sid.authority| == 6
    ensures IsDomainSID(Text(sid)) <==> InDomain(sid)
  {
    hide Text;
    if IsDomainSID(Text(sid)) {
      TextInDomain(sid, Text(sid)[9..]);
    }
    if InDomain(sid) {
      DomainInText(sid);
    }
  }

  lemma TextInDomain(sid: Sid, r: string)
    requires |sid.authority| == 6 && Text(sid) == "S-1-5-21-" + r
    ensures InDomain(sid)
  {
    hide Dec, AuthorityValue, SubText, Text;
    SmallDecs();
    var rest := TextSplit(sid);
    assert ("S-1-5-21-" + r)[2..] == "1" + ("-5-21-" + r);
    DigitsThenRest(Dec(sid.revision), rest, "1", "-5-21-" + r);
    DecInjective(sid.revision, 1);
    assert ("-5-21-" + r)[1..] == "5" + ("-21-" + r);
    SubShape(sid.subAuthorities);
    DigitsThenRest(Dec(AuthorityValue(sid.authority)), SubText(sid.subAuthorities), "5", "-21-" + r);
    DecInjective(AuthorityValue(sid.authority), 5);
    AuthorityInjective(sid.authority, [0, 0, 0, 0, 0, 5]);
    assert ("-21-" + r)[1..] == "21" + ("-" + r);
    FirstIs21(sid.subAuthorities, "-" + r);
  }

  lemma SubShape(subs: seq<uint32>)
    ensures if subs == [] then SubText(subs) == ""
      else SubText(subs) != "" && SubText(subs)[0] == '-' && SubText(subs)[1..] == Dec(subs[0]) + SubText(subs[1..])
  {
  }

  lemma FirstIs21(subs: seq<uint32>, r: string)
    requires r != "" && r[0] == '-' && SubText(subs) != "" && SubText(subs)[1..] == "21" + r
    ensures |subs| >= 2 && subs[0] == 21
  {
    hide Dec, SubText;
    SmallDecs();
    SubShape(subs);
    SubShape(subs[1..]);
    DigitsThenRest(Dec(subs[0]), SubText(subs[1..]), "21", r);
    DecInjective(subs[0], 21);
  }

  lemma DomainInText(sid: Sid)
    requires InDomain(sid)
    ensures "S-1-5-21-" <= Text(sid)
  {
    hide Dec, AuthorityValue;
    SmallDecs();
    var tail := SubText(sid.subAuthorities[1..]);
    assert SubText(sid.subAuthorities) == "-" + ("21" + tail) && tail[0] == '-';
    assert Text(sid) == "S-" + "1" + "-" + "5" + ("-" + ("21" + tail));
    assert Text(sid) == "S-1-5-21" + tail && tail == "-" + tail[1..];
  }

  /** The domain's name stands in front of an identifier exactly if there is one and the identifier is no domain's. */
  lemma PrincipalIs(domainSuffix: string, sid: Sid)
    requires |sid.authority| == 6
    ensures Principal(domainSuffix, Text(sid)) ==
      if domainSuffix != "" && !InDomain(sid) then domainSuffix + "-" + Text(sid) else Text(sid)
  {
    hide Text;
    DomainText(sid);
  }

  /** Position k holds the last 'S' of s. */
  predicate LastS(s: string, k: nat) {
    k < |s| && s[k] == 'S' && forall i :: k < i < |s| ==> s[i] != 'S'
  }

  /** The text starts behind the domain prefix, at the last 'S'. */
  lemma PrincipalSplit(domainSuffix: string, sid: Sid) returns (k: nat)
    ensures var p := Principal(domainSuffix, Text(sid)); LastS(p, k) && p[k..] == Text(sid)
  {
    assert LastS(Text(sid), 0);
    var p := Principal(domainSuffix, Text(sid));
    k := |p| - |Text(sid)|;
    assert p[k..] == Text(sid);
    assert forall i :: k <= i < |p| ==> p[i] == p[k..][i - k];
  }

  /** The prefix rewrite merges no two identifiers, even a prefixed and an unprefixed one. */
  lemma PrincipalInjective(domainSuffix: string, a: Sid, b: Sid)
    requires |a.authority| == |b.authority|
    requires Principal(domainSuffix, Text(a)) == Principal(domainSuffix, Text(b))
    ensures a == b
  {
    var i := PrincipalSplit(domainSuffix, a);
    var j := PrincipalSplit(domainSuffix, b);
    TextInjective(a, b);
  }
}
