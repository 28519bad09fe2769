/** Machine words as numbers: single bits, exclusive or, and rotation. */
module Bits {
  import opened Arithmetic

  predicate Bit(word: nat, i: nat) {
    if i == 0 then word % 2 == 1 else Bit(word / 2, i - 1)
  }

  function OrBit(word: nat, i: nat): (r: nat)
    ensures r > 0
  {
    if i == 0 then (if word % 2 == 1 then word else word + 1) else 2 * OrBit(word / 2, i - 1) + word % 2
  }

  function ClearBit(word: nat, i: nat): (r: nat)
    ensures r <= word
  {
    if i == 0 then word - word % 2 else 2 * ClearBit(word / 2, i - 1) + word % 2
  }

  lemma {:induction false} OrBitSets(word: nat, i: nat, j: nat)
    ensures Bit(OrBit(word, i), j) <==> j == i || Bit(word, j)
    decreases i
  {
    if i > 0 && j > 0 {
      OrBitSets(word / 2, i - 1, j - 1);
    }
  }

  lemma {:induction false} ClearBitClears(word: nat, i: nat, j: nat)
    ensures Bit(ClearBit(word, i), j) <==> j != i && Bit(word, j)
    decreases i
  {
    if i > 0 && j > 0 {
      ClearBitClears(word / 2, i - 1, j - 1);
    }
  }

  lemma {:induction false} OrBitNext(word: nat, i: nat)
    ensures OrBit(word, i) ==
            if i == 0 then (if word % 2 == 1 then word else word + 1) else 2 * OrBit(word / 2, i - 1) + word % 2
  {
  }

  lemma {:induction false} OrBitBound(word: nat, i: nat, n: nat)
    requires i < n && word < Power(2, n)
    ensures OrBit(word, i) < Power(2, n)
    decreases n
  {
    hide Power, OrBit;
    PowerDoubles(n);
    OrBitNext(word, i);
    if i > 0 {
      OrBitBound(word / 2, i - 1, n - 1);
    }
  }

  lemma {:induction false} ZeroHasNoBits(j: nat)
    ensures !Bit(0, j)
  {
    if j > 0 {
      ZeroHasNoBits(j - 1);
    }
  }

  /** The position of the highest set bit. */
  function TopBit(word: nat): nat
    requires word > 0
  {
    if word == 1 then 0 else 1 + TopBit(word / 2)
  }

  lemma {:induction false} TopBitIs(word: nat, j: nat)
    requires word > 0
    ensures Bit(word, TopBit(word)) && (Bit(word, j) ==> j <= TopBit(word))
    decreases word
  {
    if word > 1 {
      TopBitIs(word / 2, if j == 0 then 0 else j - 1);
    } else if j > 0 {
      ZeroHasNoBits(j - 1);
    }
  }

  /** Exclusive or of two words of `n` bits. */
  function Xor(a: nat, b: nat, n: nat): nat
    decreases a, b, n
  {
    if n == 0 then 0 else 2 * Xor(a / 2, b / 2, n - 1) + (a + b) % 2
  }

  lemma {:induction false} XorBound(a: nat, b: nat, n: nat)
    ensures Xor(a, b, n) < Power(2, n)
    decreases n
  {
    hide Power;
    if n == 0 {
      PowerZero();
    } else {
      PowerDoubles(n);
      XorBound(a / 2, b / 2, n - 1);
    }
  }

  lemma DoubledInjective(x: nat, p: nat, y: nat, q: nat)
    requires p < 2 && q < 2 && 2 * x + p == 2 * y + q
    ensures x == y && p == q
  {
  }

  lemma SameParity(a: nat, c: nat, b: nat)
    requires (a + b) % 2 == (c + b) % 2
    ensures a % 2 == c % 2
  {
  }

  lemma {:induction false} XorInjective(a: nat, c: nat, b: nat, n: nat)
    requires a < Power(2, n) && c < Power(2, n) && Xor(a, b, n) == Xor(c, b, n)
    ensures a == c
    decreases n
  {
    if n > 0 {
      DoubledInjective(Xor(a / 2, b / 2, n - 1), (a + b) % 2, Xor(c / 2, b / 2, n - 1), (c + b) % 2);
      SameParity(a, c, b);
      XorInjective(a / 2, c / 2, b / 2, n - 1);
    }
  }

  lemma {:induction false} XorSymmetric(a: nat, b: nat, n: nat)
    ensures Xor(a, b, n) == Xor(b, a, n)
    decreases n
  {
    if n > 0 {
      XorSymmetric(a / 2, b / 2, n - 1);
    }
  }

  lemma PowersOfTwo()
    ensures Power(2, 8) == 256 && Power(2, 32) == 0x1_0000_0000 && Power(2, 64) == 0x1_0000_0000_0000_0000
  {
    assert Power(2, 8) == 256 by { PowerSum(2, 4, 4); }
    PowerSum(2, 8, 8);
    PowerSum(2, 16, 16);
    PowerSum(2, 32, 32);
  }
}
