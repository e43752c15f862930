/** Bit masks as natural numbers: a BigInt mask, or the bit pattern of an unsigned machine word. */
module Bits {

  function Pow2(n: nat): (p: nat)
    ensures p > 0
  {
    if n == 0 then 1 else 2 * Pow2(n - 1)
  }

  predicate Bit(m: nat, i: nat) {
    if i == 0 then m % 2 == 1 else Bit(m / 2, i - 1)
  }

  function Or(a: nat, b: nat): nat
    decreases a + b
  {
    if a == 0 && b == 0 then 0
    else (if a % 2 == 1 || b % 2 == 1 then 1 else 0) + 2 * Or(a / 2, b / 2)
  }

  function And(a: nat, b: nat): nat
    decreases a + b
  {
    if a == 0 && b == 0 then 0
    else (if a % 2 == 1 && b % 2 == 1 then 1 else 0) + 2 * And(a / 2, b / 2)
  }

  /** `a & ~b`. */
  function AndNot(a: nat, b: nat): nat {
    if a == 0 then 0
    else (if a % 2 == 1 && b % 2 == 0 then 1 else 0) + 2 * AndNot(a / 2, b / 2)
  }

  lemma Halves(low: nat, high: nat)
    requires low <= 1
    ensures (low + 2 * high) / 2 == high && ((low + 2 * high) % 2 == 1 <==> low == 1)
  {
  }

  lemma {:induction false} ZeroBits(i: nat)
    ensures !Bit(0, i)
  {
    if i > 0 { ZeroBits(i - 1); }
  }

  lemma {:induction false} BitOr(a: nat, b: nat, i: nat)
    ensures Bit(Or(a, b), i) <==> Bit(a, i) || Bit(b, i)
    decreases i
  {
    if a == 0 && b == 0 {
      ZeroBits(i);
    } else {
      Halves(if a % 2 == 1 || b % 2 == 1 then 1 else 0, Or(a / 2, b / 2));
      if i > 0 { BitOr(a / 2, b / 2, i - 1); }
    }
  }

  lemma {:induction false} BitAnd(a: nat, b: nat, i: nat)
    ensures Bit(And(a, b), i) <==> Bit(a, i) && Bit(b, i)
    decreases i
  {
    if a == 0 && b == 0 {
      ZeroBits(i);
    } else {
      Halves(if a % 2 == 1 && b % 2 == 1 then 1 else 0, And(a / 2, b / 2));
      if i > 0 { BitAnd(a / 2, b / 2, i - 1); }
    }
  }

  lemma {:induction false} BitAndNot(a: nat, b: nat, i: nat)
    ensures Bit(AndNot(a, b), i) <==> Bit(a, i) && !Bit(b, i)
    decreases i
  {
    if a == 0 {
      ZeroBits(i);
    } else {
      Halves(if a % 2 == 1 && b % 2 == 0 then 1 else 0, AndNot(a / 2, b / 2));
      if i > 0 { BitAndNot(a / 2, b / 2, i - 1); }
    }
  }

  lemma {:induction false} BitPow2(n: nat, i: nat)
    ensures Bit(Pow2(n), i) <==> n == i
    decreases i
  {
    if n == 0 {
      if i > 0 { ZeroBits(i - 1); }
    } else {
      Halves(0, Pow2(n - 1));
      if i > 0 { BitPow2(n - 1, i - 1); }
    }
  }

  /** A mask is zero exactly when it has no bit. */
  lemma {:induction false} SomeBit(m: nat) returns (i: nat)
    requires m != 0
    ensures Bit(m, i)
  {
    if m % 2 == 1 {
      i := 0;
    } else {
      var j := SomeBit(m / 2);
      i := j + 1;
    }
  }

  /** Testing one bit: `(m & (1 << i)) !== 0`. */
  lemma TestBit(m: nat, i: nat)
    ensures And(m, Pow2(i)) != 0 <==> Bit(m, i)
  {
    BitAnd(m, Pow2(i), i);
    BitPow2(i, i);
    if And(m, Pow2(i)) != 0 {
      var j := SomeBit(And(m, Pow2(i)));
      BitAnd(m, Pow2(i), j);
      BitPow2(i, j);
    } else {
      ZeroBits(i);
    }
  }

  /** Words stay words: a union of masks below 2^n is below 2^n. */
  lemma {:induction false} OrBounded(a: nat, b: nat, n: nat)
    requires a < Pow2(n) && b < Pow2(n)
    ensures Or(a, b) < Pow2(n)
    decreases n
  {
    if n > 0 { OrBounded(a / 2, b / 2, n - 1); }
  }

  lemma {:induction false} Pow2Grows(i: nat, n: nat)
    requires i < n
    ensures Pow2(i) < Pow2(n)
    decreases n
  {
    if i < n - 1 { Pow2Grows(i, n - 1); }
  }
}
