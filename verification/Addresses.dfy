/** Address rules of the proxy: private ranges, and the allow list of exact addresses and
    IPv4 blocks. A u32 is an integer below 2^32, with shift and bitwise `&` written out. */
module Addresses {
  import opened Wrappers
  import opened Text

  const TWO32: int := 0x1_0000_0000

  type U32 = n: int | 0 <= n < TWO32

  type U16 = n: int | 0 <= n < 0x1_0000

  datatype IpAddr =
    | V4(addr: U32)
    | V6(s0: U16, s1: U16, s2: U16, s3: U16, s4: U16, s5: U16, s6: U16, s7: U16)

  function Pow2(k: nat): (r: nat)
    ensures r > 0
  {
    if k == 0 then 1 else 2 * Pow2(k - 1)
  }

  /** `a << k`; shifting a u32 by its whole width is not defined. */
  function Shl(a: U32, k: nat): U32
    requires k < 32
  {
    (a * Pow2(k)) % TWO32
  }

  /** Bitwise and of the `w` lowest bits. */
  function BitAnd(a: nat, b: nat, w: nat): nat {
    if w == 0 then 0 else (a % 2) * (b % 2) + 2 * BitAnd(a / 2, b / 2, w - 1)
  }

  function Mask(p: nat): U32
    requires p <= 32
  {
    if p == 0 then 0 else Shl(TWO32 - 1, 32 - p)
  }

  lemma DivUnique(a: int, m: int, q: int, r: int)
    requires m > 0 && 0 <= r < m && a == q * m + r
    ensures a / m == q
  {
    var d := a / m;
    assert d < q ==> (d + 1) * m <= q * m;
    assert d > q ==> (q + 1) * m <= d * m;
  }

  lemma ModUnique(a: int, m: int, q: int, r: int)
    requires m > 0 && 0 <= r < m && a == q * m + r
    ensures a % m == r
  {
    DivUnique(a, m, q, r);
  }

  lemma {:induction false} Pow2Of32()
    ensures Pow2(32) == TWO32
  {
    assert Pow2(8) == 256;
    assert Pow2(16) == 0x1_0000 by { assert Pow2(12) == 4096; }
    assert Pow2(24) == 0x100_0000 by { assert Pow2(20) == 0x10_0000; }
    assert Pow2(28) == 0x1000_0000;
  }

  lemma {:induction false} Pow2Monotone(j: nat, k: nat)
    requires j <= k
    ensures Pow2(j) <= Pow2(k)
  {
    if j < k {
      Pow2Monotone(j, k - 1);
    }
  }

  lemma {:induction false} AndOnes(a: nat, w: nat)
    requires a < Pow2(w)
    ensures BitAnd(a, Pow2(w) - 1, w) == a
  {
    if w > 0 {
      AndOnes(a / 2, w - 1);
      assert (Pow2(w) - 1) % 2 == 1 && (Pow2(w) - 1) / 2 == Pow2(w - 1) - 1;
    }
  }

  lemma HalfThenDivide(a: nat, m: nat)
    requires m > 0
    ensures (a / 2) / m == a / (2 * m)
  {
    var q, r := (a / 2) / m, (a / 2) % m;
    assert a == q * (2 * m) + (2 * r + a % 2);
    DivUnique(a, 2 * m, q, 2 * r + a % 2);
  }

  /** Masking off the `k` lowest bits. */
  lemma {:induction false} AndHighBits(a: nat, k: nat, w: nat)
    requires k <= w && a < Pow2(w)
    ensures Pow2(k) <= Pow2(w) && BitAnd(a, Pow2(w) - Pow2(k), w) == a / Pow2(k) * Pow2(k)
  {
    Pow2Monotone(k, w);
    if k == 0 {
      AndOnes(a, w);
    } else {
      var m, n := Pow2(k - 1), Pow2(w - 1);
      AndHighBits(a / 2, k - 1, w - 1);
      EvenMask(n, m);
      HalfThenDivide(a, m);
      Doubled(a / (2 * m), m);
    }
  }

  lemma EvenMask(n: nat, m: nat)
    requires m <= n
    ensures (2 * n - 2 * m) % 2 == 0 && (2 * n - 2 * m) / 2 == n - m
  {
  }

  lemma Doubled(q: int, m: int)
    ensures 2 * (q * m) == q * (2 * m)
  {
  }

  lemma MaskValue(p: nat)
    requires p <= 32
    ensures Pow2(32 - p) <= TWO32 && Mask(p) == TWO32 - Pow2(32 - p)
  {
    Pow2Of32();
    Pow2Monotone(32 - p, 32);
    if p > 0 {
      var m := Pow2(32 - p);
      ModUnique((TWO32 - 1) * m, TWO32, m - 1, TWO32 - m);
    }
  }

  /** The block test of the code: `value & mask == network`. */
  predicate InBlock(value: U32, base: U32, p: nat)
    requires p <= 32
  {
    BitAnd(value, Mask(p), 32) == BitAnd(base, Mask(p), 32)
  }

  /** It holds exactly when the two addresses agree in their first `p` bits. */
  lemma BlockByDivision(value: U32, base: U32, p: nat)
    requires p <= 32
    ensures InBlock(value, base, p) <==> value / Pow2(32 - p) == base / Pow2(32 - p)
  {
    Pow2Of32();
    MaskValue(p);
    AndHighBits(value, 32 - p, 32);
    AndHighBits(base, 32 - p, 32);
    var m := Pow2(32 - p);
    if value / m * m == base / m * m {
      DivUnique(value / m * m, m, value / m, 0);
      DivUnique(base / m * m, m, base / m, 0);
    }
  }

  function Octet(v: U32, i: nat): int
    requires i < 4
  {
    v / Pow2(8 * (3 - i)) % 256
  }

  predicate IsPrivateV4(v: U32) {
    var (o0, o1) := (Octet(v, 0), Octet(v, 1));
    || o0 == 0 || o0 == 10 || o0 == 127
    || (o0 == 169 && o1 == 254)
    || (o0 == 172 && 16 <= o1 <= 31)
    || (o0 == 192 && o1 == 168)
    || (o0 == 100 && 64 <= o1 <= 127)
  }

  /** `to_ipv4_mapped`: ::ffff:a.b.c.d */
  function MappedV4(ip: IpAddr): Option<U32>
    requires ip.V6?
  {
    if ip.s0 == ip.s1 == ip.s2 == ip.s3 == ip.s4 == 0 && ip.s5 == 0xffff
    then Some(ip.s6 * 0x1_0000 + ip.s7) else None
  }

  predicate IsPrivate(ip: IpAddr) {
    match ip
    case V4(v) => IsPrivateV4(v)
    case V6(s0, s1, s2, s3, s4, s5, s6, s7) =>
      || (s0 == s1 == s2 == s3 == s4 == s5 == s6 == 0 && s7 <= 1)
      || (match MappedV4(ip)
          case Some(v) => IsPrivateV4(v)
          case None => 0xfe80 <= s0 <= 0xfebf || 0xfc00 <= s0 <= 0xfdff)
  }

  function Addr4(a: Byte, b: Byte, c: Byte, d: Byte): U32 {
    ((a * 256 + b) * 256 + c) * 256 + d
  }

  const PRIVATE_BLOCKS: seq<(U32, nat)> := [
    (Addr4(0, 0, 0, 0), 8), (Addr4(10, 0, 0, 0), 8), (Addr4(127, 0, 0, 0), 8),
    (Addr4(169, 254, 0, 0), 16), (Addr4(172, 16, 0, 0), 12),
    (Addr4(192, 168, 0, 0), 16), (Addr4(100, 64, 0, 0), 10)]

  lemma SmallPowers()
    ensures Pow2(16) == 0x1_0000 && Pow2(20) == 0x10_0000 && Pow2(22) == 0x40_0000 && Pow2(24) == 0x100_0000
  {
    assert Pow2(8) == 256;
    assert Pow2(12) == 4096;
    assert Pow2(16) == 0x1_0000;
    assert Pow2(20) == 0x10_0000;
    assert Pow2(22) == 0x40_0000;
  }

  lemma Octets(v: U32)
    ensures var w := v / 0x1_0000;
      && Octet(v, 0) == w / 256 && Octet(v, 1) == w % 256
      && v / 0x10_0000 == w / 16 && v / 0x40_0000 == w / 64 && v / 0x100_0000 == w / 256
  {
    SmallPowers();
  }

  lemma Block8(v: U32, a: Byte)
    ensures InBlock(v, Addr4(a, 0, 0, 0), 8) <==> Octet(v, 0) == a
  {
    SmallPowers();
    Octets(v);
    BlockByDivision(v, Addr4(a, 0, 0, 0), 8);
    assert Addr4(a, 0, 0, 0) / 0x100_0000 == a;
  }

  lemma Block16(v: U32, a: Byte, b: Byte)
    ensures InBlock(v, Addr4(a, b, 0, 0), 16) <==> Octet(v, 0) == a && Octet(v, 1) == b
  {
    SmallPowers();
    Octets(v);
    BlockByDivision(v, Addr4(a, b, 0, 0), 16);
    assert Addr4(a, b, 0, 0) / 0x1_0000 == a * 256 + b;
  }

  lemma Block12(v: U32)
    ensures InBlock(v, Addr4(172, 16, 0, 0), 12) <==> Octet(v, 0) == 172 && 16 <= Octet(v, 1) <= 31
  {
    SmallPowers();
    Octets(v);
    BlockByDivision(v, Addr4(172, 16, 0, 0), 12);
    assert Addr4(172, 16, 0, 0) / 0x10_0000 == 172 * 16 + 1;
  }

  lemma Block10(v: U32)
    ensures InBlock(v, Addr4(100, 64, 0, 0), 10) <==> Octet(v, 0) == 100 && 64 <= Octet(v, 1) <= 127
  {
    SmallPowers();
    Octets(v);
    BlockByDivision(v, Addr4(100, 64, 0, 0), 10);
    assert Addr4(100, 64, 0, 0) / 0x40_0000 == 100 * 4 + 1;
  }

  predicate InPrivateBlock(v: U32, i: nat)
    requires i < 7
  {
    InBlock(v, PRIVATE_BLOCKS[i].0, PRIVATE_BLOCKS[i].1)
  }

  /** The octet tests are the union of the seven private blocks. */
  lemma PrivateIsTheBlocks(v: U32)
    ensures IsPrivate(V4(v)) <==> exists i :: 0 <= i < 7 && InPrivateBlock(v, i)
  {
    Block8(v, 0);
    Block8(v, 10);
    Block8(v, 127);
    Block16(v, 169, 254);
    Block12(v);
    Block16(v, 192, 168);
    Block10(v);
    assert IsPrivateV4(v) <==>
      || InPrivateBlock(v, 0) || InPrivateBlock(v, 1) || InPrivateBlock(v, 2) || InPrivateBlock(v, 3)
      || InPrivateBlock(v, 4) || InPrivateBlock(v, 5) || InPrivateBlock(v, 6);
  }

  function Mapped(v: U32): IpAddr {
    V6(0, 0, 0, 0, 0, 0xffff, v / 0x1_0000, v % 0x1_0000)
  }

  /** The verdict carries over to mapped addresses; otherwise the two IPv6 ranges are fe80::/10
      and fc00::/7, next to the loopback and the unspecified address. */
  lemma PrivateV6(ip: IpAddr)
    requires ip.V6?
    ensures forall v: U32 :: ip == Mapped(v) ==> (IsPrivate(ip) <==> IsPrivate(V4(v)))
    ensures (forall v: U32 :: ip != Mapped(v)) ==>
      (IsPrivate(ip) <==>
        || ip.s0 / Pow2(6) == 0xfe80 / Pow2(6)
        || ip.s0 / Pow2(9) == 0xfc00 / Pow2(9)
        || ip == V6(0, 0, 0, 0, 0, 0, 0, 0)
        || ip == V6(0, 0, 0, 0, 0, 0, 0, 1))
  {
    assert Pow2(6) == 64;
    assert Pow2(9) == 512;
    if MappedV4(ip).Some? {
      assert ip == Mapped(MappedV4(ip).value);
    }
  }

  // ---- the allow list ----

  function SplitOnce(s: string, sep: char): Option<(string, string)> {
    if s == "" then None
    else if s[0] == sep then Some(("", s[1..]))
    else
      match SplitOnce(s[1..], sep)
      case Some((before, after)) => Some(([s[0]] + before, after))
      case None => None
  }

  /** The standard library's parsers, as they are. */
  datatype Parsers = Parsers(v4: string -> Option<U32>, number: string -> Option<nat>, ip: string -> Option<IpAddr>)

  /** What one entry of the allow list is meant to admit: one address, or the IPv4 addresses
      that share the first `p` bits of a base address. Anything unparsable admits nothing. */
  predicate Admits(parse: Parsers, entry: string, ip: IpAddr) {
    match SplitOnce(entry, '/')
    case None => parse.ip(entry) == Some(ip)
    case Some((base, prefix)) =>
      && ip.V4? && parse.v4(base).Some? && parse.number(prefix).Some? && parse.number(prefix).value <= 32
      && var m := Pow2(32 - parse.number(prefix).value);
      && ip.addr / m == parse.v4(base).value / m
  }

  lemma {:induction false} SplitOnceMeans(before: string, after: string, sep: char)
    requires sep !in before
    ensures SplitOnce(before + [sep] + after, sep) == Some((before, after))
    ensures SplitOnce(before, sep) == None
  {
    var s := before + [sep] + after;
    if before != "" {
      SplitOnceMeans(before[1..], after, sep);
      assert s[1..] == before[1..] + [sep] + after;
      assert [before[0]] + before[1..] == before;
    } else {
      assert s[1..] == after;
    }
  }

  /** An entry without a slash admits the address it parses to. With a slash, what stands before
      the first one is a base address and what stands after it a number of bits up to 32, and the
      entry admits the IPv4 addresses that agree with the base in that many leading bits. */
  lemma EntryMeans(parse: Parsers, base: string, prefix: string, ip: IpAddr)
    requires '/' !in base
    ensures Admits(parse, base, ip) <==> parse.ip(base) == Some(ip)
    ensures Admits(parse, base + "/" + prefix, ip) <==>
            exists b: U32, p: nat :: parse.v4(base) == Some(b) && parse.number(prefix) == Some(p) && p <= 32
              && ip.V4? && ip.addr / Pow2(32 - p) == b / Pow2(32 - p)
  {
    SplitOnceMeans(base, prefix, '/');
    if parse.v4(base).Some? && parse.number(prefix).Some? {
      var b, p := parse.v4(base).value, parse.number(prefix).value;
      assert Some(b) == parse.v4(base) && Some(p) == parse.number(prefix);
    }
  }

  predicate SomeAdmits(parse: Parsers, entries: seq<string>, ip: IpAddr) {
    exists e :: e in entries && Admits(parse, e, ip)
  }

  predicate BlockMatches(block: (U32, U32), ip: IpAddr) {
    ip.V4? && BitAnd(ip.addr, block.1, 32) == block.0
  }

  class ProxyConfig {
    var exact: set<IpAddr>
    var blocks: seq<(U32, U32)>

    constructor ()
      ensures exact == {} && blocks == []
    {
      exact, blocks := {}, [];
    }

    ghost predicate Listed(ip: IpAddr)
      reads this
    {
      ip in exact || exists b :: b in blocks && BlockMatches(b, ip)
    }

    /** One entry: afterwards the list admits what it did and what the entry admits. */
    method AddEntry(entry: string, parse: Parsers)
      modifies this
      ensures forall ip :: Listed(ip) <==> old(Listed(ip)) || Admits(parse, entry, ip)
    {
      match SplitOnce(entry, '/') {
        case Some((base, prefix)) =>
          if parse.v4(base).Some? && parse.number(prefix).Some? {
            var p := parse.number(prefix).value;
            if p <= 32 {
              var mask := Mask(p);
              AndBounded(parse.v4(base).value, mask, 32);
              var network := BitAnd(parse.v4(base).value, mask, 32);
              EntryAdmits(parse, entry, (network, mask));
              blocks := blocks + [(network, mask)];
            }
          }
        case None =>
          if parse.ip(entry).Some? {
            exact := exact + {parse.ip(entry).value};
          }
      }
    }

    /** Adds the entries of a comma-separated list. Afterwards an address is listed exactly when
        it was before or some entry admits it, so neither order nor repetition matters, and more
        entries never list less. */
    method SetAllowPrivate(entries: string, parse: Parsers)
      modifies this
      ensures forall ip :: Listed(ip) <==> old(Listed(ip)) || SomeAdmits(parse, ParseList(entries), ip)
    {
      var items := ParseList(entries);
      for i := 0 to |items|
        invariant forall ip :: Listed(ip) <==> old(Listed(ip)) || SomeAdmits(parse, items[..i], ip)
      {
        AddEntry(items[i], parse);
        OneMoreEntry(parse, items, i);
      }
      assert items[..|items|] == items;
    }

    method AllowlistedAddr(ip: IpAddr) returns (r: bool)
      ensures r <==> Listed(ip)
    {
      if ip in exact {
        return true;
      }
      if ip.V4? {
        for i := 0 to |blocks|
          invariant forall b :: b in blocks[..i] ==> !BlockMatches(b, ip)
        {
          if BitAnd(ip.addr, blocks[i].1, 32) == blocks[i].0 {
            assert BlockMatches(blocks[i], ip);
            return true;
          }
          assert blocks[..i + 1] == blocks[..i] + [blocks[i]];
        }
        assert blocks[..|blocks|] == blocks;
      }
      return false;
    }

    /** A public address always passes, a private one only when it is listed. */
    method AddrAllowed(ip: IpAddr) returns (r: bool)
      ensures r <==> !IsPrivate(ip) || Listed(ip)
    {
      if !IsPrivate(ip) {
        return true;
      }
      r := AllowlistedAddr(ip);
    }
  }

  lemma {:induction false} AndBounded(a: nat, b: nat, w: nat)
    ensures BitAnd(a, b, w) <= a
  {
    if w > 0 {
      AndBounded(a / 2, b / 2, w - 1);
      assert b % 2 == 0 || b % 2 == 1;
    }
  }

  lemma OneMoreEntry(parse: Parsers, items: seq<string>, i: nat)
    requires i < |items|
    ensures forall ip :: SomeAdmits(parse, items[..i + 1], ip) <==>
                         SomeAdmits(parse, items[..i], ip) || Admits(parse, items[i], ip)
  {
  }

  lemma EntryAdmits(parse: Parsers, entry: string, block: (U32, U32))
    requires var s := SplitOnce(entry, '/');
      && s.Some? && parse.v4(s.value.0).Some? && parse.number(s.value.1).Some? && parse.number(s.value.1).value <= 32
      && var p := parse.number(s.value.1).value;
      && block == (BitAnd(parse.v4(s.value.0).value, Mask(p), 32), Mask(p))
    ensures forall ip :: BlockMatches(block, ip) <==> Admits(parse, entry, ip)
  {
    var (base, prefix) := SplitOnce(entry, '/').value;
    forall ip: IpAddr | ip.V4? ensures BlockMatches(block, ip) <==> Admits(parse, entry, ip) {
      BlockByDivision(ip.addr, parse.v4(base).value, parse.number(prefix).value);
    }
  }
}
