/**
 64-bit words as numbers, bit by bit: the operations with which the slab allocator tests, sets and
 clears the bit `1 << i` (src/blalloc.c).
 */
module Words {
  const WORD_BITS := 64

  function Pow2(n: nat): nat
    ensures Pow2(n) > 0
  {
    if n == 0 then 1 else 2 * Pow2(n - 1)
  }

  predicate IsWord(w: nat) { w < Pow2(WORD_BITS) }

  /** `w & (1 << i)` */
  predicate Bit(w: nat, i: nat) { if i == 0 then w % 2 == 1 else Bit(w / 2, i - 1) }

  /** `w | (1 << i)` */
  function SetBit(w: nat, i: nat): nat {
    if i == 0 then w - w % 2 + 1 else 2 * SetBit(w / 2, i - 1) + w % 2
  }

  /** `w & ~(1 << i)` */
  function ClearBit(w: nat, i: nat): nat {
    if i == 0 then w - w % 2 else 2 * ClearBit(w / 2, i - 1) + w % 2
  }

  lemma {:induction false} SetBitIs(w: nat, i: nat, j: nat)
    ensures Bit(SetBit(w, i), j) == (j == i || Bit(w, j))
  {
    if i > 0 && j > 0 {
      SetBitIs(w / 2, i - 1, j - 1);
    }
  }

  lemma {:induction false} ClearBitIs(w: nat, i: nat, j: nat)
    ensures Bit(ClearBit(w, i), j) == (j != i && Bit(w, j))
  {
    if i > 0 && j > 0 {
      ClearBitIs(w / 2, i - 1, j - 1);
    }
  }

  lemma {:induction false} SetBitFits(w: nat, i: nat, n: nat)
    requires i < n && w < Pow2(n)
    ensures SetBit(w, i) < Pow2(n) && ClearBit(w, i) < Pow2(n)
  {
    if i > 0 {
      SetBitFits(w / 2, i - 1, n - 1);
    }
  }

  /** `~0`, the word with every bit set. */
  lemma {:induction false} FullWord(n: nat, j: nat)
    requires j < n
    ensures Bit(Pow2(n) - 1, j)
  {
    if j > 0 {
      assert (Pow2(n) - 1) / 2 == Pow2(n - 1) - 1;
      FullWord(n - 1, j - 1);
    }
  }

  /** A nonzero word has a bit set. */
  lemma {:induction false} SomeBit(w: nat, n: nat) returns (j: nat)
    requires 0 < w < Pow2(n)
    ensures j < n && Bit(w, j)
  {
    if w % 2 == 1 {
      j := 0;
    } else {
      var i := SomeBit(w / 2, n - 1);
      j := i + 1;
    }
  }

  lemma {:induction false} NoBits(j: nat)
    ensures !Bit(0, j)
  {
    if j > 0 {
      NoBits(j - 1);
    }
  }

  /** Setting a bit that is clear adds its power of two, and clearing one that is set takes it away. */
  lemma {:induction false} BitCounts(w: nat, i: nat)
    ensures !Bit(w, i) ==> SetBit(w, i) == w + Pow2(i)
    ensures Bit(w, i) ==> w >= Pow2(i) && ClearBit(w, i) == w - Pow2(i)
  {
    if i > 0 {
      BitCounts(w / 2, i - 1);
    }
  }
}
