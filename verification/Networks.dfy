/** Address ranges: the carry of the address counter and the expansion of a CIDR block. */
module Networks {
  import opened Common
  import opened ByteStrings
  import opened Texts
  import opened Decimals

  // ----- addresses as numbers -----

  function Pow2(n: nat): (p: nat)
    ensures p > 0
  {
    if n == 0 then 1 else 2 * Pow2(n - 1)
  }

  lemma Pow2Next(n: nat)
    ensures Pow2(n + 1) == 2 * Pow2(n)
  {
  }

  lemma {:induction false} Pow2Add(m: nat, n: nat)
    ensures Pow2(m + n) == Pow2(m) * Pow2(n)
  {
    hide Pow2;
    if m == 0 {
      PowZero();
    } else {
      Pow2Add(m - 1, n);
      Pow2Next(m - 1);
      Pow2Next(m - 1 + n);
      Doubled(Pow2(m - 1), Pow2(n));
    }
  }

  lemma Doubled(a: nat, b: nat)
    ensures 2 * (a * b) == (2 * a) * b
  {
  }

  lemma PowZero()
    ensures Pow2(0) == 1
  {
  }

  lemma ByteMore(n: nat)
    ensures Pow2(8 * (n + 1)) == 256 * Pow2(8 * n)
  {
    Pow2Add(8, 8 * n);
    assert Pow2(8) == 256;
  }

  /** The big-endian value of an address. */
  function Value(ip: Bytes): (v: nat)
    ensures v < Pow2(8 * |ip|)
  {
    if ip == [] then 0
    else
      var init, last: int := ip[..|ip| - 1], ip[|ip| - 1];
      ByteMore(|init|);
      256 * Value(init) + last
  }

  lemma {:induction false} ValueInjective(a: Bytes, b: Bytes)
    requires |a| == |b| && Value(a) == Value(b)
    ensures a == b
  {
    if a != [] {
      var i := |a| - 1;
      ValueInjective(a[..i], b[..i]);
      assert a == a[..i] + [a[i]] && b == b[..i] + [b[i]];
    }
  }

  // ----- the counter -----

  /** Bytes from j on that are all zero after the carry has gone through them. */
  lemma {:induction false} ValueZeros(before: Bytes, after: Bytes, j: nat)
    requires |before| == |after| && 0 <= j <= |before|
    requires before[..j] == after[..j]
    requires forall k :: j <= k < |before| ==> before[k] == 255 && after[k] == 0
    ensures Value(before) + 1 == Value(after) + Pow2(8 * (|before| - j))
  {
    hide Pow2;
    if j < |before| {
      var n := |before| - 1;
      assert before[..n][..j] == before[..j] == after[..j] == after[..n][..j];
      ValueZeros(before[..n], after[..n], j);
      ByteMore(n - j);
    } else {
      assert before == before[..j] == after[..j] == after;
      assert Pow2(8 * 0) == 1 by { PowZero(); }
    }
  }

  /** The byte at j takes the carry. */
  lemma {:induction false} ValueCarry(before: Bytes, after: Bytes, j: nat)
    requires |before| == |after| && j < |before|
    requires before[..j] == after[..j]
    requires before[j] < 255 && after[j] == before[j] + 1
    requires forall k :: j < k < |before| ==> before[k] == 255 && after[k] == 0
    ensures Value(after) == Value(before) + 1
    decreases |before|
  {
    hide Pow2;
    var n := |before| - 1;
    if j < n {
      assert before[..n][..j] == before[..j] == after[..j] == after[..n][..j];
      ValueCarry(before[..n], after[..n], j);
    } else {
      assert before[..n] == after[..n];
    }
  }

  lemma SmallMod(v: nat, p: nat)
    requires v < p
    ensures (v + 1) % p == if v + 1 == p then 0 else v + 1
  {
  }

  /** Counts one up; the largest address is followed by the smallest. */
  method IncIP(ip: array<byte>)
    modifies ip
    ensures Value(ip[..]) == (Value(old(ip[..])) + 1) % Pow2(8 * ip.Length)
  {
    hide Value, Pow2;
    ghost var before := ip[..];
    SmallMod(Value(before), Pow2(8 * ip.Length));
    var j := ip.Length - 1;
    while j >= 0
      invariant -1 <= j < ip.Length
      invariant ip[..j + 1] == before[..j + 1]
      invariant forall k :: j < k < ip.Length ==> before[k] == 255 && ip[k] == 0
    {
      var b: int := ip[j];
      ip[j] := if b == 255 then 0 else b + 1;
      if ip[j] > 0 {
        ValueCarry(before, ip[..], j);
        return;
      }
      j := j - 1;
    }
    ValueZeros(before, ip[..], 0);
  }

  // ----- blocks -----

  /** The number of addresses that share the first `prefix` bits. */
  function BlockSize(prefix: nat): (size: nat)
    requires prefix <= 32
    ensures size > 0
  {
    Pow2(32 - prefix)
  }

  /** ipnet.Contains: the first `prefix` bits are those of the network. */
  predicate InBlock(network: nat, prefix: nat, v: nat)
    requires prefix <= 32
  {
    v / BlockSize(prefix) == network / BlockSize(prefix)
  }

  lemma FloorBlock(v: nat, b: nat)
    requires b > 0
    ensures 0 <= v / b * b <= v
  {
    assert v == v / b * b + v % b;
  }

  /** ip.Mask: the bits behind the prefix are cleared. */
  function Masked(v: nat, prefix: nat): (m: nat)
    requires prefix <= 32
    ensures m <= v
  {
    FloorBlock(v, BlockSize(prefix));
    v / BlockSize(prefix) * BlockSize(prefix)
  }

  /** A block has its size many addresses, in a row from the masked one. */
  lemma BlockMember(v: nat, prefix: nat, k: nat)
    requires prefix <= 32 && k < BlockSize(prefix)
    ensures InBlock(Masked(v, prefix), prefix, Masked(v, prefix) + k)
  {
    hide Pow2;
    var b := BlockSize(prefix);
    DivBlock(v / b, b, k);
    DivBlock(v / b, b, 0);
  }

  /** The block fits, and the address after it, taken around at the end of the address space, is outside. */
  lemma BlockEnds(v: nat, prefix: nat)
    requires 1 <= prefix <= 32 && v < Pow2(32)
    ensures Masked(v, prefix) + BlockSize(prefix) <= Pow2(32)
    ensures !InBlock(Masked(v, prefix), prefix, (Masked(v, prefix) + BlockSize(prefix)) % Pow2(32))
  {
    hide Pow2;
    var b, n, q := BlockSize(prefix), Pow2(prefix), v / BlockSize(prefix);
    Pow2Add(prefix, 32 - prefix);
    assert n >= 2 by {
      Pow2Add(1, prefix - 1);
      Pow2One();
    }
    Quotient(v, n, b);
    DivBlock(q, b, 0);
    NextBlock(q, n, b, Pow2(32));
  }

  lemma Pow2One()
    ensures Pow2(1) == 2
  {
  }

  lemma Quotient(v: nat, n: nat, b: nat)
    requires b > 0 && v < n * b
    ensures v / b < n && v / b * b + b <= n * b
  {
    var q := v / b;
    assert v == q * b + v % b;
    assert (n - q) * b == n * b - q * b;
    AtLeastOne(n - q, b);
    AtLeastOne(n - q - 1, b);
    assert (n - q - 1) * b == n * b - q * b - b;
  }

  lemma NextBlock(q: nat, n: nat, b: nat, p: nat)
    requires b > 0 && q < n && p == n * b && q * b + b <= p
    ensures p > 0 && (q * b + b) % p / b == if q + 1 == n then 0 else q + 1
  {
    var next := q * b + b;
    if q + 1 < n {
      assert (n - q - 1) * b == p - next;
      AtLeastOne(n - q - 1, b);
      SmallNext(next, p);
      assert next == (q + 1) * b + 0;
      DivBlock(q + 1, b, 0);
    } else {
      assert next == p;
      SelfMod(p, b);
    }
  }

  lemma SelfMod(p: nat, b: nat)
    requires p > 0 && b > 0
    ensures p % p / b == 0
  {
    assert p % p == 0;
  }

  lemma SmallNext(x: nat, p: nat)
    requires x < p
    ensures x % p == x
  {
  }

  /** Without a prefix every address is in the block, so counting never leaves it. */
  lemma NoPrefixNoEnd(network: nat, v: nat)
    requires network < Pow2(32) && v < Pow2(32)
    ensures InBlock(network, 0, v)
  {
    hide Pow2;
    assert network == 0 * Pow2(32) + network && v == 0 * Pow2(32) + v;
    DivBlock(0, Pow2(32), network);
    DivBlock(0, Pow2(32), v);
  }

  // ----- expansion -----

  /** The address with this value. */
  function Address(v: nat, n: nat): (ip: Bytes)
    requires v < Pow2(8 * n)
    ensures |ip| == n && Value(ip) == v
  {
    if n == 0 then []
    else
      ByteMore(n - 1);
      Address(v / 256, n - 1) + [v % 256]
  }

  /** Dotted decimal. */
  function Dotted(ip: Bytes): string
    requires |ip| == 4
  {
    Dec(ip[0]) + ("." + (Dec(ip[1]) + ("." + (Dec(ip[2]) + ("." + Dec(ip[3]))))))
  }

  /** The texts of n addresses in a row. */
  function Row(first: nat, n: nat): (texts: seq<string>)
    requires first + n <= Pow2(32)
    ensures |texts| == n
  {
    seq(n, k requires 0 <= k < n => Dotted(Address(first + k, 4)))
  }

  lemma RowNext(first: nat, n: nat)
    requires first + n < Pow2(32)
    ensures Row(first, n + 1) == Row(first, n) + [Dotted(Address(first + n, 4))]
    ensures Row(first, 0) == []
  {
    hide Pow2, Address, Dotted;
  }

  /** Network and broadcast address are left out of a block of more than two. */
  function Hosts(v: nat, prefix: nat): (texts: seq<string>)
    requires 1 <= prefix <= 32 && v < Pow2(32)
    ensures |texts| == if BlockSize(prefix) > 2 then BlockSize(prefix) - 2 else BlockSize(prefix)
  {
    BlockEnds(v, prefix);
    var all := Row(Masked(v, prefix), BlockSize(prefix));
    if |all| > 2 then all[1..|all| - 1] else all
  }

  /** Where the counter stands after k steps. */
  function Counter(v: nat, prefix: nat, k: nat): nat
    requires prefix <= 32
  {
    (Masked(v, prefix) + k) % Pow2(32)
  }

  /** After k steps the counter is in the block exactly if k addresses are not yet all of it. */
  lemma CountedTo(v: nat, prefix: nat, k: nat)
    requires 1 <= prefix <= 32 && v < Pow2(32) && k <= BlockSize(prefix)
    ensures Masked(v, prefix) + BlockSize(prefix) <= Pow2(32)
    ensures InBlock(Masked(v, prefix), prefix, Counter(v, prefix, k)) <==> k < BlockSize(prefix)
    ensures k < BlockSize(prefix) ==> Counter(v, prefix, k) == Masked(v, prefix) + k
    ensures k < BlockSize(prefix) ==> (Counter(v, prefix, k) + 1) % Pow2(32) == Counter(v, prefix, k + 1)
  {
    hide Pow2, InBlock, Masked, BlockSize;
    BlockEnds(v, prefix);
    if k < BlockSize(prefix) {
      BlockMember(v, prefix, k);
      SmallNext(Masked(v, prefix) + k, Pow2(32));
    }
  }

  /** Counts through the block until the counter leaves it, around the end of the address space if need be. */
  method ExpandCIDR(address: Bytes, prefix: nat) returns (ips: seq<string>)
    requires |address| == 4 && 1 <= prefix <= 32
    ensures ips == Hosts(Value(address), prefix)
  {
    hide Value, Pow2, BlockSize, Masked, InBlock, Address, Dotted, Row, Counter;
    ghost var v, size := Value(address), BlockSize(prefix);
    var network := Masked(Value(address), prefix);
    CountedTo(v, prefix, 0);
    RowNext(network, 0);
    var masked := Address(network, 4);
    var ip := new byte[4](i requires 0 <= i < 4 => masked[i]);
    assert ip[..] == masked;
    ips := [];
    ghost var k: nat := 0;
    while InBlock(network, prefix, Value(ip[..]))
      invariant k <= size && ips == Row(network, k)
      invariant Value(ip[..]) == Counter(v, prefix, k)
      invariant InBlock(network, prefix, Value(ip[..])) <==> k < size
      decreases size - k
    {
      CountedTo(v, prefix, k);
      ValueInjective(ip[..], Address(network + k, 4));
      RowNext(network, k);
      ips := ips + [Dotted(ip[..])];
      IncIP(ip);
      k := k + 1;
      CountedTo(v, prefix, k);
    }
    if |ips| > 2 {
      return ips[1..|ips| - 1];
    }
  }

  // ----- no address twice -----

  lemma DigitsThenDot(d: string, r: string, e: string, q: string)
    requires Digits(d) && Digits(e) && d + ("." + r) == e + ("." + q)
    ensures d == e && r == q
  {
    var s := d + ("." + r);
    assert s[|d|] == '.' && s[|e|] == '.';
    assert forall i :: 0 <= i < |d| ==> s[i] == d[i];
    assert forall i :: 0 <= i < |e| ==> s[i] == e[i];
    assert |d| == |e|;
    assert d == s[..|d|] == e && r == s[|d| + 1..] == q;
  }

  lemma DottedInjective(a: Bytes, b: Bytes)
    requires |a| == 4 && |b| == 4 && Dotted(a) == Dotted(b)
    ensures a == b
  {
    hide Dec, Digits;
    var a3, b3 := Dec(a[3]), Dec(b[3]);
    var a2, b2 := Dec(a[2]) + ("." + a3), Dec(b[2]) + ("." + b3);
    var a1, b1 := Dec(a[1]) + ("." + a2), Dec(b[1]) + ("." + b2);
    DigitsThenDot(Dec(a[0]), a1, Dec(b[0]), b1);
    DigitsThenDot(Dec(a[1]), a2, Dec(b[1]), b2);
    DigitsThenDot(Dec(a[2]), a3, Dec(b[2]), b3);
    forall i | 0 <= i < 4 ensures a[i] == b[i] { DecInjective(a[i], b[i]); }
  }

  /** The hosts of a block are different texts, in the order of their addresses. */
  lemma HostsDistinct(v: nat, prefix: nat, i: nat, j: nat)
    requires 1 <= prefix <= 32 && v < Pow2(32) && i < j < |Hosts(v, prefix)|
    ensures Hosts(v, prefix)[i] != Hosts(v, prefix)[j]
  {
    hide Value, Pow2, BlockSize, Masked, Address, Dotted;
    BlockEnds(v, prefix);
    var first, skipped := Masked(v, prefix), if BlockSize(prefix) > 2 then 1 else 0;
    var a, b := Address(first + skipped + i, 4), Address(first + skipped + j, 4);
    assert Hosts(v, prefix)[i] == Dotted(a) && Hosts(v, prefix)[j] == Dotted(b);
    if Dotted(a) == Dotted(b) {
      DottedInjective(a, b);
    }
  }

  // ----- what the texts say -----

  lemma FourBytes(ip: Bytes)
    requires |ip| == 4
    ensures var b0: int, b1: int, b2: int, b3: int := ip[0], ip[1], ip[2], ip[3];
      Value(ip) == 0x100_0000 * b0 + 0x1_0000 * b1 + 0x100 * b2 + b3
  {
    assert ip[..3][..2] == ip[..2] && ip[..2][..1] == ip[..1] && ip[..1][..0] == [];
    assert Value(ip[..1]) == ip[0] as int;
    assert Value(ip[..2]) == 256 * Value(ip[..1]) + ip[1] as int;
    assert Value(ip[..3]) == 256 * Value(ip[..2]) + ip[2] as int;
  }

  /** Four decimal numbers between dots. */
  predicate DottedText(text: string) {
    var pieces := Pieces(text, '.');
    |pieces| == 4 && forall i :: 0 <= i < 4 ==> pieces[i] != "" && Digits(pieces[i])
  }

  /** The address a text names: its first number is the highest byte. */
  function AddressIn(text: string): nat
    requires DottedText(text)
  {
    var pieces := Pieces(text, '.');
    0x100_0000 * Number(pieces[0]) + 0x1_0000 * Number(pieces[1]) + 0x100 * Number(pieces[2]) + Number(pieces[3])
  }

  /** Read back, the text gives the bytes in their order. */
  lemma DottedReads(ip: Bytes)
    requires |ip| == 4
    ensures DottedText(Dotted(ip)) && AddressIn(Dotted(ip)) == Value(ip)
    ensures forall i :: 0 <= i < 4 ==> Number(Pieces(Dotted(ip), '.')[i]) == ip[i]
  {
    hide Dec, Number, Value, Pieces;
    FourBytes(ip);
    var d0, d1, d2, d3 := Dec(ip[0]), Dec(ip[1]), Dec(ip[2]), Dec(ip[3]);
    NumberDec(ip[0]);
    NumberDec(ip[1]);
    NumberDec(ip[2]);
    NumberDec(ip[3]);
    PiecesFirst(d3, '.', "");
    PiecesFirst(d2, '.', d3);
    PiecesFirst(d1, '.', d2 + (['.'] + d3));
    PiecesFirst(d0, '.', d1 + (['.'] + (d2 + (['.'] + d3))));
    var pieces := Pieces(Dotted(ip), '.');
    assert pieces == [d0, d1, d2, d3];
    forall i | 0 <= i < 4 ensures Number(pieces[i]) == ip[i] && Digits(pieces[i]) && pieces[i] != "" {
    }
  }

  /** The address is in the block, and in a block of more than two it is neither the least nor the greatest in it. */
  predicate IsHost(v: nat, prefix: nat, a: nat)
    requires prefix <= 32
  {
    && InBlock(v, prefix, a)
    && (BlockSize(prefix) > 2 ==> InBlock(v, prefix, a + 1) && a > 0 && InBlock(v, prefix, a - 1))
  }

  lemma BlockIs(v: nat, prefix: nat, a: nat)
    requires prefix <= 32
    ensures InBlock(v, prefix, a) <==> Masked(v, prefix) <= a < Masked(v, prefix) + BlockSize(prefix)
  {
    hide Pow2;
    var b := BlockSize(prefix);
    if InBlock(v, prefix, a) {
      assert a == a / b * b + a % b;
    }
    if Masked(v, prefix) <= a < Masked(v, prefix) + b {
      DivBlock(v / b, b, a - Masked(v, prefix));
    }
  }

  /**
   * What an expansion gives: the hosts of the block, all of them, each in dotted decimal, in increasing order.
   */
  lemma HostsAre(v: nat, prefix: nat)
    requires 1 <= prefix <= 32 && v < Pow2(32)
    ensures forall i :: 0 <= i < |Hosts(v, prefix)| ==>
      DottedText(Hosts(v, prefix)[i]) && IsHost(v, prefix, AddressIn(Hosts(v, prefix)[i]))
    ensures forall i, j :: 0 <= i < j < |Hosts(v, prefix)| ==>
      AddressIn(Hosts(v, prefix)[i]) < AddressIn(Hosts(v, prefix)[j])
    ensures forall a :: 0 <= a < Pow2(32) && IsHost(v, prefix, a) ==>
      exists i :: 0 <= i < |Hosts(v, prefix)| && AddressIn(Hosts(v, prefix)[i]) == a
  {
    hide Pow2, BlockSize, InBlock, Masked, Hosts, AddressIn, DottedText;
    var hosts, first, size := Hosts(v, prefix), Masked(v, prefix), BlockSize(prefix);
    var skipped := if size > 2 then 1 else 0;
    forall i | 0 <= i < |hosts|
      ensures DottedText(hosts[i]) && AddressIn(hosts[i]) == first + skipped + i &&
        IsHost(v, prefix, first + skipped + i)
    {
      HostAt(v, prefix, i);
      BlockIs(v, prefix, first + skipped + i);
      BlockIs(v, prefix, first + skipped + i + 1);
      if skipped == 1 {
        BlockIs(v, prefix, first + i);
      }
    }
    forall a | 0 <= a < Pow2(32) && IsHost(v, prefix, a)
      ensures exists i :: 0 <= i < |hosts| && AddressIn(hosts[i]) == a
    {
      BlockIs(v, prefix, a);
      BlockIs(v, prefix, a + 1);
      if size > 2 {
        BlockIs(v, prefix, a - 1);
      }
      var i := a - first - skipped;
      assert 0 <= i < |hosts| && AddressIn(hosts[i]) == a;
    }
  }

  lemma HostAt(v: nat, prefix: nat, i: nat)
    requires 1 <= prefix <= 32 && v < Pow2(32) && i < |Hosts(v, prefix)|
    ensures var text := Hosts(v, prefix)[i];
      DottedText(text) && AddressIn(text) == Masked(v, prefix) + (if BlockSize(prefix) > 2 then 1 else 0) + i
  {
    hide Pow2, BlockSize, Masked, Value, Address, Dotted, AddressIn, DottedText;
    BlockEnds(v, prefix);
    var a := Masked(v, prefix) + (if BlockSize(prefix) > 2 then 1 else 0) + i;
    assert Hosts(v, prefix)[i] == Dotted(Address(a, 4));
    DottedReads(Address(a, 4));
  }
}
