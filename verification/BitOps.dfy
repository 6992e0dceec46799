/** Single bits of unsigned words. */
module BitOps {
  import opened Pow2Arith

  /** Bitwise OR of two unsigned words. */
  function Or(x: nat, y: nat): nat {
    if x == 0 && y == 0 then 0 else 2 * Or(x / 2, y / 2) + (if x % 2 == 1 || y % 2 == 1 then 1 else 0)
  }

  lemma {:induction false} OrZero(x: nat)
    ensures Or(x, 0) == x
  {
    if x > 0 {
      OrZero(x / 2);
    }
  }

  /** Bit k of a word. */
  predicate Bit(x: nat, k: nat) {
    if k == 0 then x % 2 == 1 else Bit(x / 2, k - 1)
  }

  lemma {:induction false} AndBit(x: nat, k: nat)
    ensures And(x, Pow2(k)) == if Bit(x, k) then Pow2(k) else 0
  {
    if k == 0 {
      AndZero(x / 2);
    } else {
      AndBit(x / 2, k - 1);
      if x == 0 {
        NoBit(k);
      }
    }
  }

  lemma {:induction false} NoBit(k: nat)
    ensures !Bit(0, k)
  {
    if k > 0 {
      NoBit(k - 1);
    }
  }

  lemma {:induction false} OrBit(x: nat, k: nat)
    requires !Bit(x, k)
    ensures Or(x, Pow2(k)) == x + Pow2(k)
  {
    if k == 0 {
      OrZero(x / 2);
    } else {
      OrBit(x / 2, k - 1);
    }
  }

  /** Below 2^(k+1), bit k is set exactly from 2^k on. */
  lemma {:induction false} HighBit(x: nat, k: nat)
    requires x < Pow2(k + 1)
    ensures Bit(x, k) <==> x >= Pow2(k)
  {
    if k > 0 {
      HighBit(x / 2, k - 1);
    }
  }

  lemma {:induction false} OrBelow(x: nat, y: nat, k: nat)
    requires x < Pow2(k) && y < Pow2(k)
    ensures Or(x, y) < Pow2(k)
  {
    if k > 0 {
      OrBelow(x / 2, y / 2, k - 1);
    }
  }

  lemma OrDigits(x: nat, y: nat)
    ensures Or(x, y) / 2 == Or(x / 2, y / 2)
    ensures Or(x, y) % 2 == if x % 2 == 1 || y % 2 == 1 then 1 else 0
  {
  }

  /** Setting bit h leaves the other bits alone. */
  lemma {:induction false} OrSets(x: nat, h: nat, b: nat)
    ensures Bit(Or(x, Pow2(h)), b) <==> Bit(x, b) || b == h
  {
    hide Or;
    OrDigits(x, Pow2(h));
    OrZero(x / 2);
    if b > 0 && h > 0 {
      OrSets(x / 2, h - 1, b - 1);
    }
  }

  /** Bitwise XOR of two unsigned words. */
  function Xor(x: nat, y: nat): nat {
    if x == 0 && y == 0 then 0 else 2 * Xor(x / 2, y / 2) + (if x % 2 != y % 2 then 1 else 0)
  }

  lemma XorDigits(x: nat, y: nat)
    ensures Xor(x, y) / 2 == Xor(x / 2, y / 2)
    ensures Xor(x, y) % 2 == if x % 2 != y % 2 then 1 else 0
  {
  }

  /** Words may be XORed in in any order. */
  lemma {:induction false} XorSwap(h: nat, n: nat, x: nat)
    ensures Xor(Xor(h, n), x) == Xor(Xor(h, x), n)
    decreases h + n + x
  {
    if h > 0 || n > 0 || x > 0 {
      XorSwap(h / 2, n / 2, x / 2);
      XorDigits(h, n);
      XorDigits(h, x);
      XorDigits(Xor(h, n), x);
      XorDigits(Xor(h, x), n);
    }
  }

  /** XORing with the same word can be undone. */
  lemma {:induction false} XorCancels(x: nat, y: nat, z: nat)
    ensures Xor(x, z) == Xor(y, z) <==> x == y
    ensures Xor(z, x) == Xor(z, y) <==> x == y
    decreases x + y + z
  {
    if x > 0 || y > 0 || z > 0 {
      XorCancels(x / 2, y / 2, z / 2);
      XorDigits(x, z);
      XorDigits(y, z);
      XorDigits(z, x);
      XorDigits(z, y);
    }
  }

  lemma {:induction false} XorBelow(x: nat, y: nat, k: nat)
    requires x < Pow2(k) && y < Pow2(k)
    ensures Xor(x, y) < Pow2(k)
  {
    if k > 0 {
      XorBelow(x / 2, y / 2, k - 1);
    }
  }
}
