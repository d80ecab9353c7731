/** Bytes, machine-integer bounds and big-endian integers. */
module Bytes {

  type byte = x: int | 0 <= x < 256
  type u16 = x: int | 0 <= x < 0x1_0000
  type u64 = x: int | 0 <= x < U64_LIMIT

  const U64_LIMIT: int := 0x1_0000_0000_0000_0000

  /** `isize::MAX`: no `Vec<u8>` can be longer. */
  const MAX_VEC: int := 0x7FFF_FFFF_FFFF_FFFF

  function Min(a: nat, b: nat): nat {
    if a <= b then a else b
  }

  function Pow256(n: nat): (p: nat)
    ensures p >= 1
  {
    if n == 0 then 1 else 256 * Pow256(n - 1)
  }

  lemma Pow256Values()
    ensures Pow256(2) == 0x1_0000
    ensures Pow256(8) == U64_LIMIT
  {
    assert Pow256(4) == 0x1_0000_0000;
  }

  function ToBigEndian(n: nat, x: nat): (s: seq<byte>)
    requires x < Pow256(n)
    ensures |s| == n
  {
    if n == 0 then [] else ToBigEndian(n - 1, x / 256) + [x % 256]
  }

  function FromBigEndian(s: seq<byte>): (x: nat)
    ensures x < Pow256(|s|)
  {
    if s == [] then 0 else 256 * FromBigEndian(s[..|s| - 1]) + s[|s| - 1]
  }

  lemma {:induction false} FromToBigEndian(n: nat, x: nat)
    requires x < Pow256(n)
    ensures FromBigEndian(ToBigEndian(n, x)) == x
  {
    if n > 0 {
      FromToBigEndian(n - 1, x / 256);
      var s := ToBigEndian(n, x);
      assert s[..|s| - 1] == ToBigEndian(n - 1, x / 256);
    }
  }

  lemma {:induction false} ToFromBigEndian(s: seq<byte>)
    ensures ToBigEndian(|s|, FromBigEndian(s)) == s
  {
    if s != [] {
      ToFromBigEndian(s[..|s| - 1]);
      assert FromBigEndian(s) / 256 == FromBigEndian(s[..|s| - 1]);
      assert s == s[..|s| - 1] + [s[|s| - 1]];
    }
  }

  /** The number that two bytes stand for, the more significant byte first. */
  function Number2(s: seq<nat>): nat
    requires |s| == 2
  {
    0x100 * s[0] + s[1]
  }

  /** The number that eight bytes stand for, the most significant byte first. */
  function Number8(s: seq<nat>): nat
    requires |s| == 8
  {
    0x100_0000_0000_0000 * s[0] + 0x1_0000_0000_0000 * s[1] + 0x100_0000_0000 * s[2] + 0x1_0000_0000 * s[3]
    + 0x100_0000 * s[4] + 0x1_0000 * s[5] + 0x100 * s[6] + s[7]
  }

  function NumberOfFront(s: seq<byte>, k: nat): nat
    requires k <= |s|
  {
    FromBigEndian(s[..k])
  }

  lemma NextByte(s: seq<byte>, k: nat)
    requires k < |s|
    ensures NumberOfFront(s, k + 1) == 256 * NumberOfFront(s, k) + s[k]
  {
    assert s[..k + 1][..k] == s[..k];
  }

  lemma WholeNumber(s: seq<byte>)
    ensures NumberOfFront(s, 0) == 0 && NumberOfFront(s, |s|) == FromBigEndian(s)
  {
    assert s[..|s|] == s;
  }

  lemma TwoByteNumber(s: seq<byte>)
    requires |s| == 2
    ensures FromBigEndian(s) == Number2(s)
  {
    hide NumberOfFront, FromBigEndian;
    WholeNumber(s);
    NextByte(s, 0);
    NextByte(s, 1);
  }

  lemma EightByteNumber(s: seq<byte>)
    requires |s| == 8
    ensures FromBigEndian(s) == Number8(s)
  {
    hide NumberOfFront, FromBigEndian;
    WholeNumber(s);
    NextByte(s, 0);
    NextByte(s, 1);
    NextByte(s, 2);
    NextByte(s, 3);
    NextByte(s, 4);
    NextByte(s, 5);
    NextByte(s, 6);
    NextByte(s, 7);
  }

  function U16Bytes(x: u16): (s: seq<byte>)
    ensures |s| == 2
    ensures FromBigEndian(s) == x
  {
    Pow256Values();
    FromToBigEndian(2, x);
    ToBigEndian(2, x)
  }

  function U64Bytes(x: u64): (s: seq<byte>)
    ensures |s| == 8
    ensures FromBigEndian(s) == x
  {
    Pow256Values();
    FromToBigEndian(8, x);
    ToBigEndian(8, x)
  }

  function ToU16(s: seq<byte>): (x: u16)
    requires |s| == 2
    ensures U16Bytes(x) == s
  {
    Pow256Values();
    ToFromBigEndian(s);
    FromBigEndian(s)
  }

  function ToU64(s: seq<byte>): (x: u64)
    requires |s| == 8
    ensures U64Bytes(x) == s
  {
    Pow256Values();
    ToFromBigEndian(s);
    FromBigEndian(s)
  }

  lemma SplitInThree(s: seq<byte>, a: nat, b: nat, c: nat)
    requires a <= b <= c <= |s|
    ensures s[..c] == s[..a] + s[a..b] + s[b..c]
  {}

  lemma FourBytes(s: seq<byte>, p: nat)
    requires p + 4 <= |s|
    ensures s[p..p + 4] == [s[p], s[p + 1], s[p + 2], s[p + 3]]
  {}

  lemma Subslice(s: seq<byte>, p: nat, a: nat, b: nat)
    requires p + a <= p + b <= |s|
    ensures s[p..][a..b] == s[p + a..p + b]
  {}

  lemma DropTwice(s: seq<byte>, p: nat, n: nat)
    requires p + n <= |s|
    ensures s[p..][n..] == s[p + n..]
  {}

  function Concat(parts: seq<seq<byte>>): seq<byte> {
    if parts == [] then [] else parts[0] + Concat(parts[1..])
  }
}
