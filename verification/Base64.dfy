/** Base64 (section 4 of RFC 4648), and the proxy's incremental encoding of a response body. */
module Base64 {
  import opened Wrappers

  type Sextet = n: int | 0 <= n < 64

  const PAD := '='
  const MAX_RESPONSE_BYTES: nat := 50 * 1024 * 1024

  function Digit(n: Sextet): (c: char)
    ensures c != PAD
  {
    if n < 26 then ('A' as int + n) as char
    else if n < 52 then ('a' as int + (n - 26)) as char
    else if n < 62 then ('0' as int + (n - 52)) as char
    else if n == 62 then '+' else '/'
  }

  function Value(c: char): Option<Sextet> {
    if 'A' <= c <= 'Z' then Some(c as int - 'A' as int)
    else if 'a' <= c <= 'z' then Some(c as int - 'a' as int + 26)
    else if '0' <= c <= '9' then Some(c as int - '0' as int + 52)
    else if c == '+' then Some(62) else if c == '/' then Some(63) else None
  }

  /** The four characters of a group of one to three bytes, padded. */
  function PaddedGroup(g: seq<Byte>): string {
    if g == [] || |g| > 3 then ""
    else
      var b1 := if |g| > 1 then g[1] else 0;
      var b2 := if |g| > 2 then g[2] else 0;
      [ Digit(g[0] / 4), Digit(g[0] % 4 * 16 + b1 / 16),
        if |g| > 1 then Digit(b1 % 16 * 4 + b2 / 64) else PAD,
        if |g| > 2 then Digit(b2 % 64) else PAD ]
  }

  /** The same without padding. */
  function BareGroup(g: seq<Byte>): string {
    if g == [] || |g| > 3 then "" else PaddedGroup(g)[..|g| + 1]
  }

  /** Encodes three bytes at a time, what is left over as one last group. */
  function EncodeWith(group: seq<Byte> -> string, bytes: seq<Byte>): string {
    if |bytes| <= 3 then (if bytes == [] then "" else group(bytes))
    else group(bytes[..3]) + EncodeWith(group, bytes[3..])
  }

  function Encode(bytes: seq<Byte>): string { EncodeWith(PaddedGroup, bytes) }

  function EncodeNoPad(bytes: seq<Byte>): string { EncodeWith(BareGroup, bytes) }

  /** Reads one group of four characters; padding only in the last group, and bits that carry
      no data must be zero. */
  function ReadGroup(s: string, last: bool): Option<seq<Byte>> {
    if |s| != 4 then None
    else
      var v0, v1, v2, v3 := Value(s[0]), Value(s[1]), Value(s[2]), Value(s[3]);
      if v0 == None || v1 == None then None
      else if last && s[2] == PAD && s[3] == PAD then
        (if v1.value % 16 == 0 then Some([v0.value * 4 + v1.value / 16]) else None)
      else if v2 == None then None
      else if last && s[3] == PAD then
        (if v2.value % 4 == 0 then Some([v0.value * 4 + v1.value / 16, v1.value % 16 * 16 + v2.value / 4]) else None)
      else if v3 == None then None
      else Some([v0.value * 4 + v1.value / 16, v1.value % 16 * 16 + v2.value / 4, v2.value % 4 * 64 + v3.value])
  }

  function DecodeWith(read: (string, bool) -> Option<seq<Byte>>, s: string): Option<seq<Byte>> {
    if s == "" then Some([])
    else if |s| < 4 then None
    else
      match (read(s[..4], |s| == 4), DecodeWith(read, s[4..]))
      case (Some(group), Some(rest)) => Some(group + rest)
      case _ => None
  }

  function Decode(s: string): Option<seq<Byte>> { DecodeWith(ReadGroup, s) }

  lemma DigitValue(n: Sextet, c: char)
    ensures Value(c) == Some(n) <==> Digit(n) == c
  {
  }

  lemma Ungroup(b0: Byte, b1: Byte, b2: Byte)
    ensures b0 / 4 * 4 + (b0 % 4 * 16 + b1 / 16) / 16 == b0
    ensures (b0 % 4 * 16 + b1 / 16) % 16 * 16 + (b1 % 16 * 4 + b2 / 64) / 4 == b1
    ensures (b1 % 16 * 4 + b2 / 64) % 4 * 64 + b2 % 64 == b2
    ensures (b0 % 4 * 16 + 0 / 16) % 16 == 0 && (b1 % 16 * 4 + 0 / 64) % 4 == 0
  {
  }

  lemma GroupRoundTrip(g: seq<Byte>, last: bool)
    requires 1 <= |g| <= 3 && (last || |g| == 3)
    ensures ReadGroup(PaddedGroup(g), last) == Some(g)
  {
    var b1 := if |g| > 1 then g[1] else 0;
    var b2 := if |g| > 2 then g[2] else 0;
    var d0, d1, d2, d3: Sextet := g[0] / 4, g[0] % 4 * 16 + b1 / 16, b1 % 16 * 4 + b2 / 64, b2 % 64;
    DigitValue(d0, Digit(d0));
    DigitValue(d1, Digit(d1));
    DigitValue(d2, Digit(d2));
    DigitValue(d3, Digit(d3));
    Ungroup(g[0], b1, b2);
    assert g == if |g| == 1 then [g[0]] else if |g| == 2 then [g[0], b1] else [g[0], b1, b2];
  }

  lemma Regroup(v0: Sextet, v1: Sextet, v2: Sextet, v3: Sextet)
    ensures var b0, b1, b2 := v0 * 4 + v1 / 16, v1 % 16 * 16 + v2 / 4, v2 % 4 * 64 + v3;
      && b0 / 4 == v0 && b0 % 4 * 16 + b1 / 16 == v1 && b1 % 16 * 4 + b2 / 64 == v2 && b2 % 64 == v3
  {
  }

  /** A group is written by the digits its bytes are regrouped into. */
  lemma WrittenAs(s: string, b0: Byte, b1: Byte, b2: Byte, v0: Sextet, v1: Sextet, v2: Sextet, v3: Sextet)
    requires |s| == 4 && Digit(v0) == s[0] && Digit(v1) == s[1]
    requires b0 / 4 == v0 && b0 % 4 * 16 + b1 / 16 == v1 && b1 % 16 * 4 + b2 / 64 == v2 && b2 % 64 == v3
    ensures s[2] == s[3] == PAD && b1 == 0 ==> PaddedGroup([b0]) == s
    ensures Digit(v2) == s[2] && s[3] == PAD && b2 == 0 ==> PaddedGroup([b0, b1]) == s
    ensures Digit(v2) == s[2] && Digit(v3) == s[3] ==> PaddedGroup([b0, b1, b2]) == s
  {
    assert s == [s[0], s[1], s[2], s[3]];
  }

  lemma LastOfOne(s: string)
    requires |s| == 4 && s[2] == s[3] == PAD && ReadGroup(s, true).Some?
    ensures var g := ReadGroup(s, true).value; |g| == 1 && PaddedGroup(g) == s
  {
    var v0: int, v1: int := Value(s[0]).value, Value(s[1]).value;
    DigitValue(v0, s[0]);
    DigitValue(v1, s[1]);
    Regroup(v0, v1, 0, 0);
    WrittenAs(s, v0 * 4 + v1 / 16, 0, 0, v0, v1, 0, 0);
  }

  lemma LastOfTwo(s: string)
    requires |s| == 4 && s[2] != PAD && s[3] == PAD && ReadGroup(s, true).Some?
    ensures var g := ReadGroup(s, true).value; |g| == 2 && PaddedGroup(g) == s
  {
    var v0: int, v1: int, v2: int := Value(s[0]).value, Value(s[1]).value, Value(s[2]).value;
    DigitValue(v0, s[0]);
    DigitValue(v1, s[1]);
    DigitValue(v2, s[2]);
    Regroup(v0, v1, v2, 0);
    WrittenAs(s, v0 * 4 + v1 / 16, v1 % 16 * 16 + v2 / 4, 0, v0, v1, v2, 0);
  }

  lemma WholeGroup(s: string, last: bool)
    requires |s| == 4 && ReadGroup(s, last).Some? && (last ==> s[3] != PAD)
    ensures var g := ReadGroup(s, last).value; |g| == 3 && PaddedGroup(g) == s
  {
    var v0: int, v1: int := Value(s[0]).value, Value(s[1]).value;
    var v2: int, v3: int := Value(s[2]).value, Value(s[3]).value;
    DigitValue(v0, s[0]);
    DigitValue(v1, s[1]);
    DigitValue(v2, s[2]);
    DigitValue(v3, s[3]);
    Regroup(v0, v1, v2, v3);
    WrittenAs(s, v0 * 4 + v1 / 16, v1 % 16 * 16 + v2 / 4, v2 % 4 * 64 + v3, v0, v1, v2, v3);
  }

  lemma GroupUnique(s: string, last: bool)
    requires ReadGroup(s, last).Some?
    ensures var g := ReadGroup(s, last).value;
      1 <= |g| <= 3 && (!last ==> |g| == 3) && PaddedGroup(g) == s
  {
    if last && s[3] == PAD {
      if s[2] == PAD {
        LastOfOne(s);
      } else {
        LastOfTwo(s);
      }
    } else {
      WholeGroup(s, last);
    }
  }

  // The following hold for every way of writing one group; the digits do not matter.

  ghost predicate Inverse(group: seq<Byte> -> string, read: (string, bool) -> Option<seq<Byte>>) {
    && (forall g :: 1 <= |g| <= 3 ==> |group(g)| == 4)
    && (forall g, last :: 1 <= |g| <= 3 && (last || |g| == 3) ==> read(group(g), last) == Some(g))
    && (forall s, last :: read(s, last).Some? ==>
          var g := read(s, last).value;
          1 <= |g| <= 3 && (!last ==> |g| == 3) && group(g) == s)
  }

  lemma {:induction false} DecodeEncodeWith(
    group: seq<Byte> -> string, read: (string, bool) -> Option<seq<Byte>>, bytes: seq<Byte>)
    requires Inverse(group, read)
    ensures DecodeWith(read, EncodeWith(group, bytes)) == Some(bytes)
    ensures bytes != [] ==> |EncodeWith(group, bytes)| >= 4
  {
    if |bytes| > 3 {
      DecodeEncodeWith(group, read, bytes[3..]);
      var g, rest := group(bytes[..3]), EncodeWith(group, bytes[3..]);
      assert (g + rest)[..4] == g && (g + rest)[4..] == rest;
      assert read(g, false) == Some(bytes[..3]);
      assert bytes == bytes[..3] + bytes[3..];
    } else if bytes != [] {
      var s := group(bytes);
      assert read(s, true) == Some(bytes);
      assert s[..4] == s && s[4..] == "" && bytes + [] == bytes;
    }
  }

  lemma {:induction false} EncodeDecodeWith(
    group: seq<Byte> -> string, read: (string, bool) -> Option<seq<Byte>>, s: string)
    requires Inverse(group, read) && DecodeWith(read, s).Some?
    ensures EncodeWith(group, DecodeWith(read, s).value) == s
    ensures s != "" ==> DecodeWith(read, s).value != []
  {
    if s != "" {
      EncodeDecodeWith(group, read, s[4..]);
      var g, rest := read(s[..4], |s| == 4).value, DecodeWith(read, s[4..]).value;
      assert s == s[..4] + s[4..];
      if |s| == 4 {
        assert g + rest == g && s[..4] == s;
      } else {
        assert (g + rest)[..3] == g && (g + rest)[3..] == rest;
      }
    }
  }

  lemma {:induction false} PiecesWith(group: seq<Byte> -> string, done: seq<Byte>, more: seq<Byte>)
    requires |done| % 3 == 0
    ensures EncodeWith(group, done + more) == EncodeWith(group, done) + EncodeWith(group, more)
  {
    if done == [] {
      assert done + more == more;
    } else {
      var head, tail := done[..3], done[3..];
      PiecesWith(group, tail, more);
      assert (done + more)[..3] == head && (done + more)[3..] == tail + more;
      if tail == [] {
        assert done == head && tail + more == more;
        if more == [] { assert done + more == done; }
      }
    }
  }

  lemma {:induction false} WholeGroupsAgree(group: seq<Byte> -> string, bare: seq<Byte> -> string, done: seq<Byte>)
    requires |done| % 3 == 0 && forall g :: |g| == 3 ==> group(g) == bare(g)
    ensures EncodeWith(group, done) == EncodeWith(bare, done)
  {
    if |done| > 3 {
      WholeGroupsAgree(group, bare, done[3..]);
    }
  }

  lemma GroupsInvert()
    ensures Inverse(PaddedGroup, ReadGroup)
  {
    forall g, last | 1 <= |g| <= 3 && (last || |g| == 3)
      ensures ReadGroup(PaddedGroup(g), last) == Some(g)
    {
      GroupRoundTrip(g, last);
    }
    forall s, last | ReadGroup(s, last).Some?
      ensures var g := ReadGroup(s, last).value;
        1 <= |g| <= 3 && (!last ==> |g| == 3) && PaddedGroup(g) == s
    {
      GroupUnique(s, last);
    }
  }

  /** Decoding an encoding returns the bytes. */
  lemma DecodeEncode(bytes: seq<Byte>)
    ensures Decode(Encode(bytes)) == Some(bytes)
  {
    GroupsInvert();
    DecodeEncodeWith(PaddedGroup, ReadGroup, bytes);
  }

  /** And every text that decodes is the encoding of what it decodes to. */
  lemma EncodeDecode(s: string)
    requires Decode(s).Some?
    ensures Encode(Decode(s).value) == s
  {
    GroupsInvert();
    EncodeDecodeWith(PaddedGroup, ReadGroup, s);
  }

  // ---- which text that is ----

  const UPPER: string := "ABCDEFGHIJKLMNOPQRSTUVWXYZ"
  const LOWER: string := "abcdefghijklmnopqrstuvwxyz"
  const ALPHABET: string := UPPER + LOWER + "0123456789+/"

  /** The r-th bit of a byte, the highest first. */
  function ByteBit(b: Byte, r: nat): nat
    requires r < 8
  {
    match r
    case 0 => b / 128
    case 1 => b / 64 % 2
    case 2 => b / 32 % 2
    case 3 => b / 16 % 2
    case 4 => b / 8 % 2
    case 5 => b / 4 % 2
    case 6 => b / 2 % 2
    case 7 => b % 2
  }

  /** The j-th bit of a byte sequence; zeros follow the last byte. */
  function Bit(bytes: seq<Byte>, j: nat): (r: nat)
    ensures r < 2
  {
    if j / 8 < |bytes| then ByteBit(bytes[j / 8], j % 8) else 0
  }

  /** The number that six bits form, from the j-th on. */
  function SixFrom(bytes: seq<Byte>, j: nat): (r: nat)
    ensures r < 64
  {
    32 * Bit(bytes, j) + 16 * Bit(bytes, j + 1) + 8 * Bit(bytes, j + 2)
    + 4 * Bit(bytes, j + 3) + 2 * Bit(bytes, j + 4) + Bit(bytes, j + 5)
  }

  /** The i-th group of six bits. */
  function SixBits(bytes: seq<Byte>, i: nat): (r: nat)
    ensures r < 64
  {
    SixFrom(bytes, 6 * i)
  }

  /** The letter of the alphabet while a group has bits of data, padding after that. */
  function LetterAt(bytes: seq<Byte>, i: nat): char {
    if 6 * i < 8 * |bytes| then ALPHABET[SixBits(bytes, i)] else '='
  }

  lemma CaseLetter(n: Sextet)
    requires n < 26
    ensures UPPER[n] == ('A' as int + n) as char && LOWER[n] == ('a' as int + n) as char
  {
  }

  lemma DigitLetter(n: Sextet)
    ensures Digit(n) == ALPHABET[n]
  {
    if n < 26 {
      CaseLetter(n);
    } else if n < 52 {
      CaseLetter(n - 26);
    }
  }

  lemma Halves(b: Byte)
    ensures b / 64 == 2 * (b / 128) + b / 64 % 2
    ensures b / 32 == 2 * (b / 64) + b / 32 % 2
    ensures b / 16 == 2 * (b / 32) + b / 16 % 2
    ensures b / 8 == 2 * (b / 16) + b / 8 % 2
    ensures b / 4 == 2 * (b / 8) + b / 4 % 2
    ensures b / 2 == 2 * (b / 4) + b / 2 % 2
    ensures b == 2 * (b / 2) + b % 2
  {
  }

  /** The number that bits `i` to `j` of a byte form. */
  function Bits(b: Byte, i: nat, j: nat): nat
    requires i <= j <= 8
    decreases j
  {
    if i == j then 0 else 2 * Bits(b, i, j - 1) + ByteBit(b, j - 1)
  }

  lemma HighBits(b: Byte)
    ensures Bits(b, 0, 6) == b / 4 && Bits(b, 0, 4) == b / 16 && Bits(b, 0, 2) == b / 64 && Bits(b, 0, 8) == b
  {
    Halves(b);
  }

  lemma LowBits(b: Byte)
    ensures Bits(b, 6, 8) == b % 4 && Bits(b, 4, 8) == b % 16 && Bits(b, 2, 8) == b % 64
  {
    Halves(b);
  }

  function ByteAt(g: seq<Byte>, k: nat): Byte { if k < |g| then g[k] else 0 }

  lemma BitOfByte(g: seq<Byte>, k: nat, r: nat)
    requires r < 8
    ensures Bit(g, 8 * k + r) == ByteBit(ByteAt(g, k), r)
  {
    assert (8 * k + r) / 8 == k && (8 * k + r) % 8 == r;
  }

  /** Six bits from one byte or from two neighbours. */
  lemma SixBitsSplit(g: seq<Byte>)
    ensures SixBits(g, 0) == Bits(ByteAt(g, 0), 0, 6)
    ensures SixBits(g, 1) == Bits(ByteAt(g, 0), 6, 8) * 16 + Bits(ByteAt(g, 1), 0, 4)
    ensures SixBits(g, 2) == Bits(ByteAt(g, 1), 4, 8) * 4 + Bits(ByteAt(g, 2), 0, 2)
    ensures SixBits(g, 3) == Bits(ByteAt(g, 2), 2, 8)
  {
    forall k, r | 0 <= k < 3 && 0 <= r < 8 ensures Bit(g, 8 * k + r) == ByteBit(ByteAt(g, k), r) {
      BitOfByte(g, k, r);
    }
  }

  lemma SixBitsOf(g: seq<Byte>, i: nat)
    requires i < 4
    ensures var b0, b1, b2 := ByteAt(g, 0), ByteAt(g, 1), ByteAt(g, 2);
      SixBits(g, i) == if i == 0 then b0 / 4 else if i == 1 then b0 % 4 * 16 + b1 / 16
                       else if i == 2 then b1 % 16 * 4 + b2 / 64 else b2 % 64
  {
    SixBitsSplit(g);
    if i == 0 {
      HighBits(ByteAt(g, 0));
    } else if i == 3 {
      LowBits(ByteAt(g, 2));
    } else {
      BitsAcross(ByteAt(g, i - 1), ByteAt(g, i));
    }
  }

  lemma BitsAcross(b: Byte, b': Byte)
    ensures Bits(b, 6, 8) * 16 + Bits(b', 0, 4) == b % 4 * 16 + b' / 16
    ensures Bits(b, 4, 8) * 4 + Bits(b', 0, 2) == b % 16 * 4 + b' / 64
  {
    LowBits(b);
    HighBits(b');
  }

  lemma GroupLetters(g: seq<Byte>, i: nat)
    requires 1 <= |g| <= 3 && i < 4
    ensures |PaddedGroup(g)| == 4 && PaddedGroup(g)[i] == LetterAt(g, i)
  {
    SixBitsOf(g, i);
    DigitLetter(SixBits(g, i));
  }

  lemma BitEarlier(g: seq<Byte>, rest: seq<Byte>, j: nat)
    requires j < 8 * |g|
    ensures Bit(g + rest, j) == Bit(g, j)
  {
  }

  lemma BitLater(g: seq<Byte>, rest: seq<Byte>, j: nat)
    requires |g| == 3
    ensures Bit(g + rest, j + 24) == Bit(rest, j)
  {
    assert (j + 24) / 8 == j / 8 + 3 && (j + 24) % 8 == j % 8;
  }

  /** Bits do not depend on what stands further on, and move with the bytes. */
  lemma LetterEarlier(g: seq<Byte>, rest: seq<Byte>, i: nat)
    requires |g| == 3 && i < 4
    ensures LetterAt(g + rest, i) == LetterAt(g, i)
  {
    for r := 0 to 6
      invariant forall q :: 6 * i <= q < 6 * i + r ==> Bit(g + rest, q) == Bit(g, q)
    {
      BitEarlier(g, rest, 6 * i + r);
    }
  }

  lemma LetterLater(g: seq<Byte>, rest: seq<Byte>, i: nat)
    requires |g| == 3
    ensures LetterAt(g + rest, i + 4) == LetterAt(rest, i)
  {
    SixLater(g, rest, 6 * i);
    assert 6 * (i + 4) == 6 * i + 24;
  }

  lemma SixLater(g: seq<Byte>, rest: seq<Byte>, j: nat)
    requires |g| == 3
    ensures SixFrom(g + rest, j + 24) == SixFrom(rest, j)
  {
    BitLater(g, rest, j);
    BitLater(g, rest, j + 1);
    BitLater(g, rest, j + 2);
    BitLater(g, rest, j + 3);
    BitLater(g, rest, j + 4);
    BitLater(g, rest, j + 5);
  }

  /** The definition of the standard: the i-th character stands for the i-th six bits, in the order
      of the alphabet, and padding completes the last group of four. */
  lemma {:induction false} EncodeMeans(bytes: seq<Byte>)
    ensures |Encode(bytes)| == (|bytes| + 2) / 3 * 4
    ensures forall i :: 0 <= i < |Encode(bytes)| ==> Encode(bytes)[i] == LetterAt(bytes, i)
    decreases |bytes|
  {
    if |bytes| > 3 {
      EncodeMeans(bytes[3..]);
      OneMoreGroup(bytes[..3], bytes[3..], Encode(bytes[3..]));
      assert bytes == bytes[..3] + bytes[3..];
    } else if bytes != [] {
      forall i | 0 <= i < 4 ensures PaddedGroup(bytes)[i] == LetterAt(bytes, i) {
        GroupLetters(bytes, i);
      }
    }
  }

  lemma OneMoreGroup(g: seq<Byte>, rest: seq<Byte>, text: string)
    requires |g| == 3 && forall i :: 0 <= i < |text| ==> text[i] == LetterAt(rest, i)
    ensures var all := PaddedGroup(g) + text;
      |all| == |text| + 4 && forall i :: 0 <= i < |all| ==> all[i] == LetterAt(g + rest, i)
  {
    var all := PaddedGroup(g) + text;
    forall i | 0 <= i < |all| ensures all[i] == LetterAt(g + rest, i) {
      if i < 4 {
        GroupLetters(g, i);
        LetterEarlier(g, rest, i);
      } else {
        LetterLater(g, rest, i - 4);
      }
    }
  }

  /** Whole groups can be encoded ahead of the rest, with or without padding. */
  lemma EncodeInPieces(done: seq<Byte>, more: seq<Byte>)
    requires |done| % 3 == 0
    ensures Encode(done + more) == Encode(done) + Encode(more) && EncodeNoPad(done) == Encode(done)
  {
    PiecesWith(PaddedGroup, done, more);
    forall g: seq<Byte> | |g| == 3 ensures PaddedGroup(g) == BareGroup(g) {
      assert PaddedGroup(g)[..4] == PaddedGroup(g);
    }
    WholeGroupsAgree(PaddedGroup, BareGroup, done);
  }

  datatype BodyError = UpstreamBodyError | ResponseTooLarge

  type Chunk = Result<seq<Byte>, ()>

  function Total(chunks: seq<Chunk>): nat {
    if chunks == [] then 0
    else Total(chunks[..|chunks| - 1]) + match chunks[|chunks| - 1] case Ok(b) => |b| case Err(_) => 0
  }

  function Concat(chunks: seq<Chunk>): seq<Byte> {
    if chunks == [] then []
    else Concat(chunks[..|chunks| - 1]) + match chunks[|chunks| - 1] case Ok(b) => b case Err(_) => []
  }

  predicate Fine(chunks: seq<Chunk>) {
    (forall c :: c in chunks ==> c.Ok?) && Total(chunks) <= MAX_RESPONSE_BYTES
  }

  lemma {:induction false} TotalMonotone(chunks: seq<Chunk>, i: nat)
    requires i <= |chunks|
    ensures Total(chunks[..i]) <= Total(chunks)
  {
    if i < |chunks| {
      TotalMonotone(chunks[..|chunks| - 1], i);
      assert chunks[..|chunks| - 1][..i] == chunks[..i];
    } else {
      assert chunks[..i] == chunks;
    }
  }

  lemma {:induction false} ConcatLength(chunks: seq<Chunk>)
    ensures |Concat(chunks)| == Total(chunks)
  {
    if chunks != [] {
      ConcatLength(chunks[..|chunks| - 1]);
    }
  }

  /** The first chunk that stops the encoder, and why. */
  predicate StopsAt(chunks: seq<Chunk>, i: nat, error: BodyError) {
    && i < |chunks| && Fine(chunks[..i])
    && if chunks[i].Err? then error == UpstreamBodyError
       else error == ResponseTooLarge && Total(chunks[..i + 1]) > MAX_RESPONSE_BYTES
  }

  lemma OneMoreChunk(chunks: seq<Chunk>, i: nat)
    requires i < |chunks| && Fine(chunks[..i])
    ensures chunks[i].Err? ==> StopsAt(chunks, i, UpstreamBodyError) && !Fine(chunks)
    ensures chunks[i].Ok? ==>
      && Total(chunks[..i + 1]) == Total(chunks[..i]) + |chunks[i].value|
      && Concat(chunks[..i + 1]) == Concat(chunks[..i]) + chunks[i].value
      && if Total(chunks[..i + 1]) > MAX_RESPONSE_BYTES then StopsAt(chunks, i, ResponseTooLarge) && !Fine(chunks)
         else Fine(chunks[..i + 1])
  {
    assert chunks[..i + 1][..i] == chunks[..i] && chunks[..i + 1] == chunks[..i] + [chunks[i]];
    TotalMonotone(chunks, i + 1);
  }

  /** What has been encoded (whole groups) and what is carried over, together. */
  ghost predicate Split(consumed: seq<Byte>, b64: string, carry: seq<Byte>) {
    exists done :: consumed == done + carry && |done| % 3 == 0 && b64 == Encode(done)
  }

  lemma SplitAdvances(consumed: seq<Byte>, b64: string, carry: seq<Byte>, chunk: seq<Byte>, n: nat)
    requires Split(consumed, b64, carry) && n <= |carry + chunk| && n % 3 == 0
    ensures var all := carry + chunk;
      if n == 0 then Split(consumed + chunk, b64, all)
      else Split(consumed + chunk, b64 + EncodeNoPad(all[..n]), all[n..])
  {
    var done :| consumed == done + carry && |done| % 3 == 0 && b64 == Encode(done);
    var whole := (carry + chunk)[..n];
    EncodeInPieces(whole, []);
    EncodeInPieces(done, whole);
    Shifted(done, carry, chunk, n);
    if n == 0 {
      assert done + whole == done && (carry + chunk)[n..] == carry + chunk;
    }
  }

  function WholeGroups(len: nat): (n: nat)
    ensures n % 3 == 0 && n <= len <= n + 2
  {
    len / 3 * 3
  }

  lemma Shifted(done: seq<Byte>, carry: seq<Byte>, chunk: seq<Byte>, n: nat)
    requires n <= |carry + chunk| && n % 3 == 0 && |done| % 3 == 0
    ensures var all := carry + chunk;
      (done + carry) + chunk == (done + all[..n]) + all[n..] && |done + all[..n]| % 3 == 0
  {
  }

  lemma SplitEnds(consumed: seq<Byte>, b64: string, carry: seq<Byte>)
    requires Split(consumed, b64, carry)
    ensures b64 + Encode(carry) == Encode(consumed)
  {
    var done :| consumed == done + carry && |done| % 3 == 0 && b64 == Encode(done);
    EncodeInPieces(done, carry);
  }

  /** The encoder of the proxy: whole groups are appended as they complete, and at most two
      bytes are carried over. For every way of cutting the body into chunks the result is the
      padded encoding of the whole body; otherwise the error is that of the first bad chunk. */
  method EncodeStream(chunks: seq<Chunk>) returns (r: Result<string, BodyError>)
    ensures r.Ok? <==> (forall c :: c in chunks ==> c.Ok?) && |Concat(chunks)| <= 52428800
    ensures r.Ok? <==> Fine(chunks)
    ensures r.Ok? ==> r.value == Encode(Concat(chunks)) && Decode(r.value) == Some(Concat(chunks))
    ensures r.Err? ==> exists i :: StopsAt(chunks, i, r.error)
  {
    var b64 := "";
    var carry: seq<Byte> := [];
    var total := 0;
    ConcatLength(chunks);
    assert Split([], "", []) by { var none: seq<Byte> := []; assert [] == none + [] && "" == Encode(none); }
    for i := 0 to |chunks|
      invariant Fine(chunks[..i]) && total == Total(chunks[..i])
      invariant |carry| <= 2 && Split(Concat(chunks[..i]), b64, carry)
    {
      OneMoreChunk(chunks, i);
      if chunks[i].Err? {
        return Err(UpstreamBodyError);
      }
      var chunk := chunks[i].value;
      total := total + |chunk|;
      if total > MAX_RESPONSE_BYTES {
        return Err(ResponseTooLarge);
      }
      ghost var consumed, carry0 := Concat(chunks[..i]), carry;
      carry := carry + chunk;
      var n := WholeGroups(|carry|);
      SplitAdvances(consumed, b64, carry0, chunk, n);
      if n > 0 {
        b64 := b64 + EncodeNoPad(carry[..n]);
        carry := carry[n..];
      }
    }
    assert chunks[..|chunks|] == chunks;
    SplitEnds(Concat(chunks), b64, carry);
    if carry != [] {
      b64 := b64 + Encode(carry);
    } else {
      assert b64 + "" == b64;
    }
    DecodeEncode(Concat(chunks));
    r := Ok(b64);
  }
}
