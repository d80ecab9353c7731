/** The exclusive or of two bytes, as arithmetic. */
module ExclusiveOr {
  import opened Bytes

  function Pow2(n: nat): (p: nat)
    ensures p >= 1
  {
    if n == 0 then 1 else 2 * Pow2(n - 1)
  }

  /** The exclusive or of the lowest `n` bits: a bit of the result is the sum of the two bits mod 2. */
  function XorBits(n: nat, a: nat, b: nat): (r: nat)
    ensures r < Pow2(n)
  {
    if n == 0 then 0 else (a + b) % 2 + 2 * XorBits(n - 1, a / 2, b / 2)
  }

  function Xor(a: byte, b: byte): byte {
    assert Pow2(8) == 256;
    XorBits(8, a, b)
  }

  lemma {:induction false} XorBitsUndo(n: nat, a: nat, k: nat)
    requires a < Pow2(n)
    ensures XorBits(n, XorBits(n, a, k), k) == a
  {
    if n > 0 {
      var h := XorBits(n - 1, a / 2, k / 2);
      XorBitsUndo(n - 1, a / 2, k / 2);
      HalfAndParity(XorBits(n, a, k), (a + k) % 2, h);
      ParityUndo(a, k);
    }
  }

  lemma HalfAndParity(r: nat, i: nat, h: nat)
    requires r == i + 2 * h && i < 2
    ensures r / 2 == h && r % 2 == i
  {}

  lemma ParityUndo(a: nat, k: nat)
    ensures forall r: nat :: r % 2 == (a + k) % 2 ==> (r + k) % 2 == a % 2
  {}

  lemma SameParity(a: nat, j: nat, k: nat)
    requires (a + j) % 2 == (a + k) % 2
    ensures j % 2 == k % 2
  {}

  lemma {:induction false} XorBitsInjective(n: nat, a: nat, j: nat, k: nat)
    requires j < Pow2(n) && k < Pow2(n)
    requires XorBits(n, a, j) == XorBits(n, a, k)
    ensures j == k
  {
    if n > 0 {
      var x, y := XorBits(n - 1, a / 2, j / 2), XorBits(n - 1, a / 2, k / 2);
      assert x == y && (a + j) % 2 == (a + k) % 2 by {
        assert (a + j) % 2 + 2 * x == (a + k) % 2 + 2 * y;
      }
      SameParity(a, j, k);
      XorBitsInjective(n - 1, a / 2, j / 2, k / 2);
    }
  }

  lemma XorUndo(a: byte, k: byte)
    ensures Xor(Xor(a, k), k) == a
  {
    assert Pow2(8) == 256;
    XorBitsUndo(8, a, k);
  }

  /** Two key bytes that mask some byte alike are equal. */
  lemma XorSame(a: byte, j: byte, k: byte)
    ensures Xor(a, j) == Xor(a, k) <==> j == k
  {
    assert Pow2(8) == 256;
    if Xor(a, j) == Xor(a, k) {
      XorBitsInjective(8, a, j, k);
    }
  }

  /** A byte masked with one key byte and unmasked with another survives exactly when they are equal. */
  lemma XorTwice(a: byte, j: byte, k: byte)
    ensures Xor(Xor(a, j), k) == a <==> j == k
  {
    XorUndo(a, j);
    XorSame(Xor(a, j), k, j);
  }

  lemma XorCommutes(a: byte, b: byte)
    ensures Xor(a, b) == Xor(b, a)
  {
    XorBitsCommute(8, a, b);
  }

  lemma {:induction false} XorBitsCommute(n: nat, a: nat, b: nat)
    ensures XorBits(n, a, b) == XorBits(n, b, a)
  {
    if n > 0 {
      XorBitsCommute(n - 1, a / 2, b / 2);
    }
  }

  // ----- the same as the machine operation -----

  lemma ParitySum(x: nat, y: nat, i: nat, j: nat)
    requires x % 2 == i && y % 2 == j
    ensures (x + y) % 2 == if i == j then 0 else 1
  {}

  lemma XorBitsOfParts(n: nat, x: nat, y: nat, p: nat, q: nat, i: nat, j: nat)
    requires n > 0 && x == i + 2 * p && y == j + 2 * q && i < 2 && j < 2
    ensures XorBits(n, x, y) == (if i == j then 0 else 1) + 2 * XorBits(n - 1, p, q)
  {
    assert x / 2 == p && x % 2 == i && y / 2 == q && y % 2 == j;
    ParitySum(x, y, i, j);
  }

  function LowBit(a: bv8): nat {
    if a & 1 == 1 then 1 else 0
  }

  lemma ShiftHalves(a: bv8)
    ensures (a >> 1) as int == (a as int) / 2
  {}

  lemma MaskIsParity(a: bv8)
    ensures (a & 1) as int == (a as int) % 2
  {}

  lemma SplitLowBit(a: bv8)
    ensures a as int == LowBit(a) + 2 * ((a >> 1) as int)
  {
    ShiftHalves(a);
    MaskIsParity(a);
  }

  lemma XorShift(a: bv8, b: bv8)
    ensures (a ^ b) >> 1 == (a >> 1) ^ (b >> 1)
  {}

  lemma XorLowBit(a: bv8, b: bv8)
    ensures LowBit(a ^ b) == if LowBit(a) == LowBit(b) then 0 else 1
  {}

  lemma HalfBelow(n: nat, a: bv8)
    requires n > 0 && (a as int) < Pow2(n)
    ensures ((a >> 1) as int) < Pow2(n - 1)
  {
    SplitLowBit(a);
  }

  lemma ZeroBits(a: bv8)
    requires a as int == 0
    ensures a == 0
  {}

  lemma NoBits(a: bv8, b: bv8)
    requires a as int == 0 && b as int == 0
    ensures XorBits(0, a as int, b as int) == (a ^ b) as int
  {
    ZeroBits(a);
    ZeroBits(b);
  }

  lemma SplitXor(a: bv8, b: bv8)
    ensures (a ^ b) as int == (if LowBit(a) == LowBit(b) then 0 else 1) + 2 * (((a >> 1) ^ (b >> 1)) as int)
  {
    SplitLowBit(a ^ b);
    XorShift(a, b);
    XorLowBit(a, b);
  }

  lemma PartsOf(a: bv8) returns (x: nat, p: nat, i: nat)
    ensures x == a as int && p == (a >> 1) as int && i == LowBit(a)
    ensures x == i + 2 * p && i < 2
  {
    x, p, i := a as int, (a >> 1) as int, LowBit(a);
    SplitLowBit(a);
  }

  lemma SplitXorBits(n: nat, a: bv8, b: bv8)
    requires n > 0
    ensures XorBits(n, a as int, b as int)
         == (if LowBit(a) == LowBit(b) then 0 else 1) + 2 * XorBits(n - 1, (a >> 1) as int, (b >> 1) as int)
  {
    hide LowBit, XorBits;
    var x, p, i := PartsOf(a);
    var y, q, j := PartsOf(b);
    XorBitsOfParts(n, x, y, p, q, i, j);
  }

  lemma OneMoreBit(n: nat, a: bv8, b: bv8)
    requires n > 0 && XorBits(n - 1, (a >> 1) as int, (b >> 1) as int) == ((a >> 1) ^ (b >> 1)) as int
    ensures XorBits(n, a as int, b as int) == (a ^ b) as int
  {
    hide XorBits, LowBit;
    SplitXorBits(n, a, b);
    SplitXor(a, b);
  }

  lemma {:induction false} XorBitsIsMachineXor(n: nat, a: bv8, b: bv8)
    requires (a as int) < Pow2(n) && (b as int) < Pow2(n)
    ensures XorBits(n, a as int, b as int) == (a ^ b) as int
    decreases n
  {
    hide XorBits;
    if n == 0 {
      NoBits(a, b);
    } else {
      HalfBelow(n, a);
      HalfBelow(n, b);
      XorBitsIsMachineXor(n - 1, a >> 1, b >> 1);
      OneMoreBit(n, a, b);
    }
  }

  /** `Xor` is the `^` of the machine on eight bits. */
  lemma XorIsMachineXor(a: bv8, b: bv8)
    ensures Xor(a as int, b as int) == (a ^ b) as int
  {
    hide XorBits;
    assert Pow2(8) == 256;
    XorBitsIsMachineXor(8, a, b);
  }
}
