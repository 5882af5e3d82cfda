/** Machine words as natural numbers, with the bitwise operations given by their binary
    digits. */
module Bits {

  /** The values of an unsigned 64-bit integer. */
  type Word = w: nat | w < 0x1_0000_0000_0000_0000

  predicate Bit(w: nat, k: nat) {
    if k == 0 then w % 2 == 1 else Bit(w / 2, k - 1)
  }

  /** One shifted left by `k`. */
  function Single(k: nat): (r: nat)
    ensures r > 0
  {
    if k == 0 then 1 else 2 * Single(k - 1)
  }

  function Digit(b: bool): nat { if b then 1 else 0 }

  function And(a: nat, b: nat): (r: nat)
    ensures r <= a
  {
    if a == 0 then 0 else 2 * And(a / 2, b / 2) + Digit(a % 2 == 1 && b % 2 == 1)
  }

  /** `a & ~b`. */
  function AndNot(a: nat, b: nat): (r: nat)
    ensures r <= a
  {
    if a == 0 then 0 else 2 * AndNot(a / 2, b / 2) + Digit(a % 2 == 1 && b % 2 == 0)
  }

  function Or(a: nat, b: nat): nat {
    if a == 0 && b == 0 then 0 else 2 * Or(a / 2, b / 2) + Digit(a % 2 == 1 || b % 2 == 1)
  }

  lemma {:induction false} WordBound()
    ensures Single(64) == 0x1_0000_0000_0000_0000
  {
    assert Single(4) == 0x10;
    assert Single(8) == 0x100;
    assert Single(12) == 0x1000;
    assert Single(16) == 0x10000;
    assert Single(20) == 0x100000;
    assert Single(24) == 0x1000000;
    assert Single(28) == 0x10000000;
    assert Single(32) == 0x100000000;
    assert Single(36) == 0x1000000000;
    assert Single(40) == 0x10000000000;
    assert Single(44) == 0x100000000000;
    assert Single(48) == 0x1000000000000;
    assert Single(52) == 0x10000000000000;
    assert Single(56) == 0x100000000000000;
    assert Single(60) == 0x1000000000000000;
  }

  lemma {:induction false} ZeroHasNoBit(k: nat)
    ensures !Bit(0, k)
  {
    if k > 0 {
      ZeroHasNoBit(k - 1);
    }
  }

  lemma {:induction false} BitOfAnd(a: nat, b: nat, k: nat)
    ensures Bit(And(a, b), k) <==> Bit(a, k) && Bit(b, k)
  {
    if a == 0 {
      ZeroHasNoBit(k);
    } else if k > 0 {
      BitOfAnd(a / 2, b / 2, k - 1);
    }
  }

  lemma {:induction false} BitOfAndNot(a: nat, b: nat, k: nat)
    ensures Bit(AndNot(a, b), k) <==> Bit(a, k) && !Bit(b, k)
  {
    if a == 0 {
      ZeroHasNoBit(k);
    } else if k > 0 {
      BitOfAndNot(a / 2, b / 2, k - 1);
    }
  }

  lemma {:induction false} BitOfOr(a: nat, b: nat, k: nat)
    ensures Bit(Or(a, b), k) <==> Bit(a, k) || Bit(b, k)
  {
    if a == 0 && b == 0 {
      ZeroHasNoBit(k);
    } else if k > 0 {
      BitOfOr(a / 2, b / 2, k - 1);
    }
  }

  lemma {:induction false} BitOfSingle(j: nat, k: nat)
    ensures Bit(Single(j), k) <==> j == k
  {
    if j == 0 && k > 0 {
      ZeroHasNoBit(k - 1);
    } else if j > 0 && k > 0 {
      BitOfSingle(j - 1, k - 1);
    }
  }

  lemma {:induction false} SingleBound(j: nat, n: nat)
    requires j < n
    ensures Single(j) < Single(n)
  {
    if j > 0 {
      SingleBound(j - 1, n - 1);
    }
  }

  lemma {:induction false} OrBound(a: nat, b: nat, n: nat)
    requires a < Single(n) && b < Single(n)
    ensures Or(a, b) < Single(n)
  {
    if n > 0 && (a > 0 || b > 0) {
      OrBound(a / 2, b / 2, n - 1);
    }
  }

  /** A word that is not zero has a bit. */
  lemma {:induction false} HasBit(w: nat, n: nat) returns (k: nat)
    requires 0 < w < Single(n)
    ensures k < n && Bit(w, k)
  {
    if w % 2 == 1 {
      k := 0;
    } else {
      k := HasBit(w / 2, n - 1);
      k := k + 1;
    }
  }

  /** A word is determined by its bits. */
  lemma {:induction false} SameBits(a: nat, b: nat, n: nat)
    requires a < Single(n) && b < Single(n) && forall k: nat | k < n :: Bit(a, k) == Bit(b, k)
    ensures a == b
  {
    if n > 0 {
      assert Bit(a, 0) == Bit(b, 0);
      forall k: nat | k < n - 1
        ensures Bit(a / 2, k) == Bit(b / 2, k)
      {
        assert Bit(a, k + 1) == Bit(b, k + 1);
      }
      SameBits(a / 2, b / 2, n - 1);
    }
  }

  lemma {:induction false} OrZero(a: nat)
    ensures Or(a, 0) == a && Or(0, a) == a
  {
    if a > 0 {
      OrZero(a / 2);
    }
  }

  function Shifted(w: nat, n: nat): nat { if n == 0 then w else 2 * Shifted(w, n - 1) }

  lemma {:induction false} OrShifted(w: nat, v: nat, n: nat)
    requires v < Single(n)
    ensures Or(Shifted(w, n), v) == Shifted(w, n) + v
  {
    if n == 0 {
      OrZero(w);
    } else {
      OrShifted(w, v / 2, n - 1);
    }
  }

  /** Putting a hexadecimal digit below a word that was shifted out of its way is adding it. */
  lemma {:induction false} OrDigit(w: nat, v: nat)
    requires v < 16
    ensures Or(w * 16, v) == w * 16 + v
  {
    assert Shifted(w, 1) == 2 * w;
    assert Shifted(w, 2) == 4 * w;
    assert Shifted(w, 3) == 8 * w;
    assert Shifted(w, 4) == w * 16;
    assert Single(4) == 16;
    OrShifted(w, v, 4);
  }
}
