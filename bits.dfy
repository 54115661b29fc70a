/**
 * Rust's bitwise operators on `u16` (`&`, `|`, `!`), on natural numbers
 * below 2^16, defined one bit at a time from the least significant bit,
 * together with the bit-level laws the mode arithmetic relies on.
 */
module Bits {

  /** A value of Rust's `u16`. */
  type U16 = n: nat | n < 0x1_0000

  const MaxU16: nat := 0xFFFF

  function Pow2(k: nat): (p: nat)
    ensures p >= 1
  {
    if k == 0 then 1 else 2 * Pow2(k - 1)
  }

  lemma Pow2Values()
    ensures Pow2(12) == 0x1000 && Pow2(16) == 0x1_0000
  {
    assert Pow2(4) == 0x10;
    assert Pow2(8) == 0x100;
  }

  /** Bit `i` of `n`, counting from the least significant bit. */
  predicate Bit(n: nat, i: nat)
    decreases i
  {
    if i == 0 then n % 2 == 1 else Bit(n / 2, i - 1)
  }

  /** `a & b` */
  function And(a: nat, b: nat): (r: nat)
    ensures r <= a
    decreases a
  {
    if a == 0 then 0
    else 2 * And(a / 2, b / 2) + (if a % 2 == 1 && b % 2 == 1 then 1 else 0)
  }

  /** `a | b` */
  function Or(a: nat, b: nat): nat
    decreases a + b
  {
    if a == 0 && b == 0 then 0
    else 2 * Or(a / 2, b / 2) + (if a % 2 == 1 || b % 2 == 1 then 1 else 0)
  }

  /** `!a` on a `u16`. */
  function Not(a: U16): U16 {
    MaxU16 - a
  }

  lemma {:induction false} BitOfZero(i: nat)
    ensures !Bit(0, i)
    decreases i
  {
    if i > 0 {
      BitOfZero(i - 1);
    }
  }

  lemma {:induction false} BitAnd(a: nat, b: nat, i: nat)
    ensures Bit(And(a, b), i) == (Bit(a, i) && Bit(b, i))
    decreases a
  {
    if a == 0 {
      BitOfZero(i);
    } else if i > 0 {
      BitAnd(a / 2, b / 2, i - 1);
    }
  }

  lemma {:induction false} BitOr(a: nat, b: nat, i: nat)
    ensures Bit(Or(a, b), i) == (Bit(a, i) || Bit(b, i))
    decreases a + b
  {
    if a == 0 && b == 0 {
      BitOfZero(i);
    } else if i > 0 {
      BitOr(a / 2, b / 2, i - 1);
    }
  }

  /** A number below 2^k has no bit at position k or above. */
  lemma {:induction false} BitAbove(n: nat, k: nat, i: nat)
    requires n < Pow2(k) && k <= i
    ensures !Bit(n, i)
    decreases k
  {
    if k == 0 {
      BitOfZero(i);
    } else {
      BitAbove(n / 2, k - 1, i - 1);
    }
  }

  /** Subtracting from 2^k - 1 flips exactly the low k bits. */
  lemma {:induction false} BitComplement(k: nat, a: nat, i: nat)
    requires a < Pow2(k)
    ensures Bit(Pow2(k) - 1 - a, i) == (i < k && !Bit(a, i))
    decreases k
  {
    var c := Pow2(k) - 1 - a;
    if k == 0 {
      BitOfZero(i);
    } else if i > 0 {
      assert c / 2 == Pow2(k - 1) - 1 - a / 2;
      BitComplement(k - 1, a / 2, i - 1);
    }
  }

  lemma BitNot(a: U16, i: nat)
    ensures Bit(Not(a), i) == (i < 16 && !Bit(a, i))
  {
    Pow2Values();
    BitComplement(16, a, i);
  }

  /** A natural number is determined by its bits: two with the same bits are equal. */
  lemma {:induction false} BitsDetermine(a: nat, b: nat)
    requires forall i :: Bit(a, i) == Bit(b, i)
    ensures a == b
    decreases a + b
  {
    if a != 0 || b != 0 {
      assert Bit(a, 0) == Bit(b, 0);
      forall i: nat
        ensures Bit(a / 2, i) == Bit(b / 2, i)
      {
        assert Bit(a, i + 1) == Bit(b, i + 1);
      }
      BitsDetermine(a / 2, b / 2);
    }
  }

  lemma {:induction false} OrBelow(a: nat, b: nat, k: nat)
    requires a < Pow2(k) && b < Pow2(k)
    ensures Or(a, b) < Pow2(k)
    decreases k
  {
    if k > 0 && (a != 0 || b != 0) {
      OrBelow(a / 2, b / 2, k - 1);
    }
  }

  /** `a | b` of two `u16` values is a `u16`. */
  lemma OrU16(a: U16, b: U16)
    ensures Or(a, b) < 0x1_0000
  {
    Pow2Values();
    OrBelow(a, b, 16);
  }

  /** The bits of `q * 2^k + a`, for `a < 2^k`: the low k are a's, the rest q's. */
  lemma {:induction false} BitsOfSum(q: nat, a: nat, k: nat, i: nat)
    requires a < Pow2(k)
    ensures Bit(q * Pow2(k) + a, i) == if i < k then Bit(a, i) else Bit(q, i - k)
    decreases k
  {
    if k > 0 {
      var p := Pow2(k - 1);
      var n := q * Pow2(k) + a;
      assert q * Pow2(k) == 2 * (q * p);
      assert n / 2 == q * p + a / 2 && n % 2 == a % 2;
      if i > 0 {
        BitsOfSum(q, a / 2, k - 1, i - 1);
      }
    }
  }

  lemma OrZero(a: nat)
    ensures Or(a, 0) == a
  {
    forall i: nat
      ensures Bit(Or(a, 0), i) == Bit(a, i)
    {
      BitOr(a, 0, i);
      BitOfZero(i);
    }
    BitsDetermine(Or(a, 0), a);
  }
}
