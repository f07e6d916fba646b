/**
 pow2gt (cjson.c): rounding up to a power of two by smearing the highest bit of x - 1 downwards.  Naturals stand for
 the 32-bit words: the largest buffer an int can measure keeps all words below 2^30.
 */
module PowerOfTwo {

  function Pow2(k: nat): (p: nat)
    ensures 0 < p
  {
    if k == 0 then 1 else 2 * Pow2(k - 1)
  }

  /** a | b */
  function Or(a: nat, b: nat): nat {
    if a == 0 && b == 0 then 0
    else 2 * Or(a / 2, b / 2) + (if a % 2 == 1 || b % 2 == 1 then 1 else 0)
  }

  /** a >> k */
  function Shift(a: nat, k: nat): nat {
    if k == 0 then a else Shift(a / 2, k - 1)
  }

  function Smear(x: nat, k: nat): nat {
    Or(x, Shift(x, k))
  }

  /** The number of bits up to the highest one set. */
  function Bits(x: nat): nat {
    if x == 0 then 0 else 1 + Bits(x / 2)
  }

  const LARGEST: int := 0x4000_0000

  function Pow2gt(x: int): int
    requires 1 <= x <= LARGEST
  {
    Smear(Smear(Smear(Smear(Smear(x - 1, 1), 2), 4), 8), 16) + 1
  }

  /** x has no more than length bits, and the top m of those are set. */
  predicate TopSet(x: nat, length: nat, m: nat) {
    if length == 0 then x == 0 else (m >= length ==> x % 2 == 1) && TopSet(x / 2, length - 1, m)
  }

  lemma {:induction false} HighestSet(x: nat)
    ensures TopSet(x, Bits(x), 1)
    ensures x < Pow2(Bits(x)) && (0 < x ==> Pow2(Bits(x) - 1) <= x)
  {
    if x != 0 {
      HighestSet(x / 2);
    }
  }

  lemma {:induction false} BitsBelow(x: nat, k: nat)
    requires x < Pow2(k)
    ensures Bits(x) <= k
  {
    if x != 0 {
      BitsBelow(x / 2, k - 1);
    }
  }

  lemma {:induction false} BitSet(x: nat, length: nat, m: nat, i: nat)
    requires TopSet(x, length, m) && length - m <= i < length
    ensures Shift(x, i) % 2 == 1
  {
    if i > 0 {
      BitSet(x / 2, length - 1, m, i - 1);
    }
  }

  lemma {:induction false} ShiftHalf(x: nat, k: nat)
    ensures Shift(x, k) / 2 == Shift(x / 2, k)
  {
    if k > 0 {
      ShiftHalf(x / 2, k - 1);
    }
  }

  /** Smearing by m doubles a run of m set bits at the top. */
  lemma {:induction false} SmearStep(x: nat, length: nat, m: nat)
    requires 0 < m && TopSet(x, length, m)
    ensures TopSet(Smear(x, m), length, 2 * m)
  {
    if length > 0 {
      SmearStep(x / 2, length - 1, m);
      ShiftHalf(x, m);
      if m < length <= 2 * m {
        BitSet(x, length, m, m);
      }
    } else {
      ShiftZero(m);
    }
  }

  lemma {:induction false} ShiftZero(k: nat)
    ensures Shift(0, k) == 0
  {
    if k > 0 {
      ShiftZero(k - 1);
    }
  }

  lemma {:induction false} AllSet(x: nat, length: nat, m: nat)
    requires TopSet(x, length, m) && length <= m
    ensures x == Pow2(length) - 1
  {
    if length > 0 {
      AllSet(x / 2, length - 1, m);
    }
  }

  /** The result is the least power of two that is at least x. */
  lemma LeastPower(x: int)
    requires 1 <= x <= LARGEST
    ensures Pow2gt(x) == Pow2(Bits(x - 1))
    ensures x <= Pow2gt(x) <= LARGEST
    ensures forall k: nat :: x <= Pow2(k) ==> Pow2gt(x) <= Pow2(k)
  {
    hide Smear;
    var y := x - 1;
    var length := Bits(y);
    assert Pow2(10) == 1024 && Pow2(20) == 0x10_0000 && Pow2(30) == LARGEST;
    BitsBelow(y, 30);
    HighestSet(y);
    SmearStep(y, length, 1);
    var y1 := Smear(y, 1);
    SmearStep(y1, length, 2);
    var y2 := Smear(y1, 2);
    SmearStep(y2, length, 4);
    var y4 := Smear(y2, 4);
    SmearStep(y4, length, 8);
    var y8 := Smear(y4, 8);
    SmearStep(y8, length, 16);
    AllSet(Smear(y8, 16), length, 32);
    forall k: nat | x <= Pow2(k) ensures Pow2(length) <= Pow2(k) {
      BitsBelow(y, k);
      PowMonotone(length, k);
    }
    PowMonotone(length, 30);
  }

  lemma {:induction false} PowMonotone(a: nat, b: nat)
    requires a <= b
    ensures Pow2(a) <= Pow2(b)
    decreases b
  {
    if a < b {
      PowMonotone(a, b - 1);
    }
  }
}
