/** Rust's `u32` and its bitwise AND, on unbounded integers. The AND is
    defined bit by bit from the least significant bit, which is what `&`
    computes on two's-complement words. */
module Uint32 {

  const U32_MAX: int := 0xFFFF_FFFF

  /** The values of Rust's `u32`. */
  type U32 = x: int | 0 <= x <= U32_MAX

  function Pow2(k: nat): (p: nat)
    ensures p >= 1
  {
    if k == 0 then 1 else 2 * Pow2(k - 1)
  }

  /** Bitwise AND. Clearing bits never makes a number larger, so the AND of
      two u32 values is a u32. */
  function And(a: nat, b: nat): (r: nat)
    ensures r <= a && r <= b
    decreases a
  {
    if a == 0 || b == 0 then 0
    else 2 * And(a / 2, b / 2) + (if a % 2 == 1 && b % 2 == 1 then 1 else 0)
  }

  // ---------------------------------------------------------------------
  // The algebra of AND
  // ---------------------------------------------------------------------

  /** A number is fixed by its half and its lowest bit. */
  lemma SameHalvesSame(x: nat, y: nat)
    requires x / 2 == y / 2 && x % 2 == y % 2
    ensures x == y
  {
  }

  /** One step of the bit recursion, which also holds when an operand is zero. */
  lemma AndStep(a: nat, b: nat)
    ensures And(a, b) / 2 == And(a / 2, b / 2)
    ensures And(a, b) % 2 == if a % 2 == 1 && b % 2 == 1 then 1 else 0
  {
  }

  lemma {:induction false} AndIdempotent(a: nat)
    ensures And(a, a) == a
    decreases a
  {
    if a != 0 {
      AndStep(a, a);
      AndIdempotent(a / 2);
      SameHalvesSame(And(a, a), a);
    }
  }

  lemma {:induction false} AndCommutative(a: nat, b: nat)
    ensures And(a, b) == And(b, a)
    decreases a
  {
    if a != 0 && b != 0 {
      AndStep(a, b);
      AndStep(b, a);
      AndCommutative(a / 2, b / 2);
      SameHalvesSame(And(a, b), And(b, a));
    }
  }

  lemma {:induction false} AndAssociative(a: nat, b: nat, c: nat)
    ensures And(And(a, b), c) == And(a, And(b, c))
    decreases a
  {
    if a != 0 {
      var ab, bc := And(a, b), And(b, c);
      AndStep(a, b);
      AndStep(b, c);
      AndStep(ab, c);
      AndStep(a, bc);
      AndAssociative(a / 2, b / 2, c / 2);
      SameHalvesSame(And(ab, c), And(a, bc));
    }
  }

  /** ANDing with `k` low one-bits keeps every number below `2^k` whole. */
  lemma {:induction false} AndLowOnes(x: nat, k: nat)
    requires x < Pow2(k)
    ensures And(x, Pow2(k) - 1) == x
    decreases k
  {
    if k > 0 && x != 0 {
      var m := Pow2(k) - 1;
      assert m / 2 == Pow2(k - 1) - 1 && m % 2 == 1;
      AndStep(x, m);
      AndLowOnes(x / 2, k - 1);
      SameHalvesSame(And(x, m), x);
    }
  }

  lemma {:induction false} Pow2Add(a: nat, b: nat)
    ensures Pow2(a + b) == Pow2(a) * Pow2(b)
    decreases a
  {
    if a > 0 {
      Pow2Add(a - 1, b);
    }
  }

  lemma Pow2Of32()
    ensures Pow2(32) == U32_MAX + 1
  {
    assert Pow2(8) == 256;
    Pow2Add(8, 8);
    assert Pow2(16) == 65536;
    Pow2Add(16, 16);
  }

  /** `u32::MAX` has all 32 bits set, so ANDing with it changes no u32. */
  lemma AndMax(x: U32)
    ensures And(x, U32_MAX) == x
    ensures And(U32_MAX, x) == x
  {
    Pow2Of32();
    AndLowOnes(x, 32);
    AndCommutative(x, U32_MAX);
  }
}
