/** Numbers as rows of bits. */
module Bits {
  /** Exclusive or of the lowest `n` bits of two numbers. */
  function Xor(a: nat, b: nat, n: nat): nat {
    if n == 0 then 0 else (a % 2 + b % 2) % 2 + 2 * Xor(a / 2, b / 2, n - 1)
  }

  function Pow2(n: nat): (p: nat)
    ensures p > 0
  {
    if n == 0 then 1 else 2 * Pow2(n - 1)
  }

  lemma {:induction false} XorUndo(a: nat, b: nat, n: nat)
    requires a < Pow2(n)
    ensures Xor(Xor(a, b, n), b, n) == a && Xor(a, b, n) < Pow2(n)
  {
    if n > 0 {
      var bit, rest := (a % 2 + b % 2) % 2, Xor(a / 2, b / 2, n - 1);
      assert a / 2 < Pow2(n - 1);
      XorUndo(a / 2, b / 2, n - 1);
      Halves(bit, rest);
      BitUndo(a, b);
    }
  }

  lemma Halves(bit: nat, rest: nat)
    requires bit < 2
    ensures (bit + 2 * rest) % 2 == bit && (bit + 2 * rest) / 2 == rest
  {}

  lemma BitUndo(a: nat, b: nat)
    ensures ((a % 2 + b % 2) % 2 + b % 2) % 2 == a % 2
  {}

  lemma {:induction false} XorSwap(a: nat, b: nat, n: nat)
    ensures Xor(a, b, n) == Xor(b, a, n)
  {
    if n > 0 { XorSwap(a / 2, b / 2, n - 1); }
  }

  // ----- Masks -----

  /** Inclusive or of the lowest `n` bits of two masks. */
  function Or(a: nat, b: nat, n: nat): nat {
    if n == 0 then 0 else (if a % 2 == 1 || b % 2 == 1 then 1 else 0) + 2 * Or(a / 2, b / 2, n - 1)
  }

  /** Every one of the lowest `n` bits of `a` is set in `b`: `a & !b == 0`. */
  predicate Within(a: nat, b: nat, n: nat) {
    n == 0 || (a % 2 <= b % 2 && Within(a / 2, b / 2, n - 1))
  }

  lemma {:induction false} WithinSelf(a: nat, n: nat)
    ensures Within(a, a, n)
  {
    if n > 0 { WithinSelf(a / 2, n - 1); }
  }

  lemma {:induction false} WithinTrans(a: nat, b: nat, c: nat, n: nat)
    requires Within(a, b, n) && Within(b, c, n)
    ensures Within(a, c, n)
  {
    if n > 0 { WithinTrans(a / 2, b / 2, c / 2, n - 1); }
  }

  /** Two masks within each other are the same mask. */
  lemma {:induction false} WithinBoth(a: nat, b: nat, n: nat)
    requires a < Pow2(n) && b < Pow2(n) && Within(a, b, n) && Within(b, a, n)
    ensures a == b
  {
    if n > 0 { WithinBoth(a / 2, b / 2, n - 1); }
  }

  /** The union is the least mask that holds both. */
  lemma {:induction false} OrHolds(a: nat, b: nat, n: nat)
    ensures Within(a, Or(a, b, n), n) && Within(b, Or(a, b, n), n) && Or(a, b, n) < Pow2(n)
  {
    if n > 0 {
      OrHolds(a / 2, b / 2, n - 1);
      Halves(if a % 2 == 1 || b % 2 == 1 then 1 else 0, Or(a / 2, b / 2, n - 1));
    }
  }

  lemma {:induction false} OrLeast(a: nat, b: nat, c: nat, n: nat)
    requires Within(a, c, n) && Within(b, c, n)
    ensures Within(Or(a, b, n), c, n)
  {
    if n > 0 {
      OrLeast(a / 2, b / 2, c / 2, n - 1);
      Halves(if a % 2 == 1 || b % 2 == 1 then 1 else 0, Or(a / 2, b / 2, n - 1));
    }
  }

  lemma {:induction false} WithinZero(b: nat, n: nat)
    ensures Within(0, b, n)
  {
    if n > 0 { WithinZero(b / 2, n - 1); }
  }

  lemma {:induction false} OrZero(a: nat, n: nat)
    requires a < Pow2(n)
    ensures Or(0, a, n) == a == Or(a, 0, n)
  {
    if n > 0 { OrZero(a / 2, n - 1); }
  }

  lemma {:induction false} OrSame(a: nat, n: nat)
    requires a < Pow2(n)
    ensures Or(a, a, n) == a
  {
    if n > 0 { OrSame(a / 2, n - 1); }
  }

  lemma {:induction false} OrAssoc(a: nat, b: nat, c: nat, n: nat)
    ensures Or(Or(a, b, n), c, n) == Or(a, Or(b, c, n), n)
  {
    if n > 0 {
      OrAssoc(a / 2, b / 2, c / 2, n - 1);
      Halves(if a % 2 == 1 || b % 2 == 1 then 1 else 0, Or(a / 2, b / 2, n - 1));
      Halves(if b % 2 == 1 || c % 2 == 1 then 1 else 0, Or(b / 2, c / 2, n - 1));
    }
  }

  lemma {:induction false} WithinNothing(r: nat, n: nat)
    requires Within(r, 0, n) && r < Pow2(n)
    ensures r == 0
  {
    if n > 0 { WithinNothing(r / 2, n - 1); }
  }

  /** A mask of ones holds every smaller number. */
  lemma {:induction false} OnesHold(r: nat, k: nat, n: nat)
    requires r < Pow2(k)
    ensures Within(r, Pow2(k) - 1, n)
  {
    if n > 0 {
      if k == 0 {
        WithinZero(0, n);
      } else {
        OnesHold(r / 2, k - 1, n - 1);
        Halves(1, Pow2(k - 1) - 1);
      }
    }
  }

  /** Masks side by side. */
  lemma {:induction false} WithinJoin(lo: nat, b: nat, hi: nat, c: nat, k: nat, n: nat)
    requires lo < Pow2(k) && b < Pow2(k) && Within(lo, b, k) && Within(hi, c, n)
    ensures Within(lo + Pow2(k) * hi, b + Pow2(k) * c, k + n)
  {
    if k > 0 {
      WithinJoin(lo / 2, b / 2, hi, c, k - 1, n);
      Doubled(lo, Pow2(k - 1), hi);
      Doubled(b, Pow2(k - 1), c);
    }
  }

  lemma Doubled(lo: nat, p: nat, hi: nat)
    ensures (lo + 2 * p * hi) / 2 == lo / 2 + p * hi && (lo + 2 * p * hi) % 2 == lo % 2
  {
    assert 2 * p * hi == 2 * (p * hi);
  }
}
