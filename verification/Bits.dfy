/** Bitwise operators on unsigned machine words, as arithmetic on naturals.

    A word is a natural number and its bits are read off by halving.  Every
    operator is characterised by the one lemma that says what each bit of its
    result is; nothing else about it is used elsewhere. */
module Bits {

  function Pow2(k: nat): (r: nat)
    ensures r >= 1
  {
    if k == 0 then 1 else 2 * Pow2(k - 1)
  }

  /** The words of the machine have 32 bits. */
  lemma WordWidth()
    ensures Pow2(32) == 0x1_0000_0000
  {
    assert Pow2(8) == 256;
    assert Pow2(16) == 65536;
    assert Pow2(24) == 16777216;
  }

  predicate Bit(w: nat, k: nat) {
    if k == 0 then w % 2 == 1 else Bit(w / 2, k - 1)
  }

  /** C's `a | b` */
  function Or(a: nat, b: nat): nat
    decreases a + b
  {
    if a == 0 && b == 0 then 0
    else 2 * Or(a / 2, b / 2) + (if a % 2 == 1 || b % 2 == 1 then 1 else 0)
  }

  /** C's `a & b` */
  function And(a: nat, b: nat): nat
    decreases a + b
  {
    if a == 0 && b == 0 then 0
    else 2 * And(a / 2, b / 2) + (if a % 2 == 1 && b % 2 == 1 then 1 else 0)
  }

  /** C's `a ^ b` */
  function Xor(a: nat, b: nat): nat
    decreases a + b
  {
    if a == 0 && b == 0 then 0
    else 2 * Xor(a / 2, b / 2) + (if a % 2 != b % 2 then 1 else 0)
  }

  /** C's `~w` on a word of `width` bits */
  function Not(w: nat, width: nat): nat
    requires w < Pow2(width)
  {
    Pow2(width) - 1 - w
  }

  lemma {:induction false} OrBit(a: nat, b: nat, k: nat)
    ensures Bit(Or(a, b), k) <==> Bit(a, k) || Bit(b, k)
    decreases k
  {
    if a == 0 && b == 0 {
      ZeroBit(k);
    } else if k > 0 {
      OrBit(a / 2, b / 2, k - 1);
    }
  }

  lemma {:induction false} AndBit(a: nat, b: nat, k: nat)
    ensures Bit(And(a, b), k) <==> Bit(a, k) && Bit(b, k)
    decreases k
  {
    if a == 0 && b == 0 {
      ZeroBit(k);
    } else if k > 0 {
      AndBit(a / 2, b / 2, k - 1);
    }
  }

  lemma {:induction false} XorBit(a: nat, b: nat, k: nat)
    ensures Bit(Xor(a, b), k) <==> Bit(a, k) != Bit(b, k)
    decreases k
  {
    if a == 0 && b == 0 {
      ZeroBit(k);
    } else if k > 0 {
      XorBit(a / 2, b / 2, k - 1);
    }
  }

  /** The top bit of a word tells whether it is in the upper half of its range. */
  lemma {:induction false} TopBit(w: nat, k: nat)
    requires w < Pow2(k + 1)
    ensures Bit(w, k) <==> w >= Pow2(k)
  {
    if k > 0 {
      TopBit(w / 2, k - 1);
    }
  }

  lemma {:induction false} NotBit(w: nat, width: nat, k: nat)
    requires w < Pow2(width) && k < width
    ensures Bit(Not(w, width), k) <==> !Bit(w, k)
    decreases k
  {
    if k > 0 {
      assert Not(w, width) / 2 == Not(w / 2, width - 1);
      NotBit(w / 2, width - 1, k - 1);
    }
  }

  lemma {:induction false} ZeroBit(k: nat)
    ensures !Bit(0, k)
  {
    if k > 0 {
      ZeroBit(k - 1);
    }
  }

  /** `1 << k` has exactly bit k set. */
  lemma {:induction false} ShiftedOneBit(k: nat, j: nat)
    ensures Bit(Pow2(k), j) <==> j == k
  {
    if k == 0 {
      if j > 0 {
        ZeroBit(j - 1);
      }
    } else if j > 0 {
      ShiftedOneBit(k - 1, j - 1);
    }
  }

  lemma {:induction false} Pow2Mono(i: nat, j: nat)
    requires i < j
    ensures Pow2(i) < Pow2(j)
  {
    if i + 1 < j {
      Pow2Mono(i, j - 1);
    }
  }

  lemma {:induction false} OrBound(a: nat, b: nat, width: nat)
    requires a < Pow2(width) && b < Pow2(width)
    ensures Or(a, b) < Pow2(width)
    decreases width
  {
    if width > 0 && !(a == 0 && b == 0) {
      OrBound(a / 2, b / 2, width - 1);
    }
  }

  lemma {:induction false} AndBound(a: nat, b: nat)
    ensures And(a, b) <= a
    decreases a + b
  {
    if !(a == 0 && b == 0) {
      AndBound(a / 2, b / 2);
    }
  }

  /** A single-bit mask isolates that bit. */
  lemma {:induction false} OneBitMask(w: nat, k: nat)
    ensures And(w, Pow2(k)) != 0 <==> Bit(w, k)
  {
    AndBit(w, Pow2(k), k);
    ShiftedOneBit(k, k);
    if And(w, Pow2(k)) != 0 && !Bit(w, k) {
      MaskedOut(w, k);
    }
    ZeroBit(k);
  }

  lemma {:induction false} MaskedOut(w: nat, k: nat)
    requires !Bit(w, k)
    ensures And(w, Pow2(k)) == 0
    decreases k
  {
    if k == 0 {
      AndZero(w / 2);
    } else {
      MaskedOut(w / 2, k - 1);
    }
  }

  lemma {:induction false} AndZero(w: nat)
    ensures And(w, 0) == 0
  {
    if w > 0 {
      AndZero(w / 2);
    }
  }
}
