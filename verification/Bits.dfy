/** Bitwise or and shifts on unbounded naturals, as Python's integers have them. */
module Bits {
  function Pow2(k: nat): (r: nat)
    ensures r > 0
  {
    if k == 0 then 1 else 2 * Pow2(k - 1)
  }

  function Shl(a: nat, k: nat): nat {
    if k == 0 then a else 2 * Shl(a, k - 1)
  }

  function Or(a: nat, b: nat): nat
    decreases a + b
  {
    if a == 0 then b
    else if b == 0 then a
    else 2 * Or(a / 2, b / 2) + (if a % 2 == 1 || b % 2 == 1 then 1 else 0)
  }

  lemma OrDouble(a: nat, b: nat)
    ensures Or(2 * a, b) == 2 * Or(a, b / 2) + b % 2
  {
    if a > 0 && b > 0 {
      assert (2 * a) / 2 == a && (2 * a) % 2 == 0;
    }
  }

  /** Fields that do not overlap are added. */
  lemma {:induction false} OrDisjoint(a: nat, b: nat, k: nat)
    requires b < Pow2(k)
    ensures Or(Shl(a, k), b) == Shl(a, k) + b
  {
    if k > 0 {
      OrDisjoint(a, b / 2, k - 1);
      OrDouble(Shl(a, k - 1), b);
    }
  }

  /** Setting a bit that is already set changes nothing. */
  lemma {:induction false} OrIdempotent(low: nat, k: nat)
    requires low < Pow2(k)
    ensures Or(Pow2(k), Pow2(k) + low) == Pow2(k) + low
  {
    if k > 0 {
      OrIdempotent(low / 2, k - 1);
      OrDouble(Pow2(k - 1), Pow2(k) + low);
      assert (Pow2(k) + low) / 2 == Pow2(k - 1) + low / 2;
    } else {
      assert Or(1, 1) == 2 * Or(0, 0) + 1;
    }
  }

  lemma FourMore(k: nat)
    ensures Pow2(k + 4) == 16 * Pow2(k)
  {
    assert Pow2(k + 4) == 2 * Pow2(k + 3) && Pow2(k + 3) == 2 * Pow2(k + 2);
    assert Pow2(k + 2) == 2 * Pow2(k + 1) && Pow2(k + 1) == 2 * Pow2(k);
  }

  lemma Pow2Values()
    ensures Pow2(8) == 0x100 && Pow2(16) == 0x1_0000 && Pow2(24) == 0x100_0000 && Pow2(28) == 0x1000_0000
  {
    FourMore(0); FourMore(4); FourMore(8); FourMore(12); FourMore(16); FourMore(20); FourMore(24);
  }

  lemma {:induction false} ShlIs(a: nat, k: nat)
    ensures Shl(a, k) == a * Pow2(k)
  {
    if k > 0 {
      ShlIs(a, k - 1);
    }
  }

  /** Two fields side by side. */
  lemma Fields(a: nat, b: nat, k: nat)
    requires b < Pow2(k)
    ensures Or(Shl(a, k), b) == a * Pow2(k) + b
  {
    OrDisjoint(a, b, k);
    ShlIs(a, k);
  }
}
