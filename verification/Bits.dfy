/** Bitwise operators on unsigned words, written out on numbers. */
module Bits {

  function Pow2(k: nat): (r: nat)
    ensures r >= 1
  {
    if k == 0 then 1 else 2 * Pow2(k - 1)
  }

  /** x & y on words of the given width. */
  function And(x: nat, y: nat, width: nat): nat {
    if width == 0 then 0
    else (if x % 2 == 1 && y % 2 == 1 then 1 else 0) + 2 * And(x / 2, y / 2, width - 1)
  }

  /** x | y on words of the given width. */
  function Or(x: nat, y: nat, width: nat): nat {
    if width == 0 then 0
    else (if x % 2 == 1 || y % 2 == 1 then 1 else 0) + 2 * Or(x / 2, y / 2, width - 1)
  }

  /** x << k on words of the given width: the bits shifted out are lost. */
  function ShiftLeft(x: nat, k: nat, width: nat): nat
    decreases width
  {
    if width == 0 then 0
    else if k == 0 then x % 2 + 2 * ShiftLeft(x / 2, 0, width - 1)
    else 2 * ShiftLeft(x, k - 1, width - 1)
  }

  /** ~x */
  function Complement(x: nat, width: nat): nat
    requires x < Pow2(width)
  {
    Pow2(width) - 1 - x
  }

  /** x with its j lowest bits cleared. */
  function ClearLow(x: nat, j: nat): nat {
    if j == 0 then x else 2 * ClearLow(x / 2, j - 1)
  }

  lemma {:induction false} Pow2Add(j: nat, k: nat)
    ensures Pow2(j + k) == Pow2(j) * Pow2(k)
  {
    if j == 0 {
    } else {
      Pow2Add(j - 1, k);
      assert Pow2(j + k) == 2 * (Pow2(j - 1) * Pow2(k));
    }
  }

  lemma {:induction false} Pow2Monotone(j: nat, k: nat)
    requires j <= k
    ensures Pow2(j) <= Pow2(k)
  {
    if j < k {
      Pow2Monotone(j, k - 1);
    }
  }

  /** The numbers with the same high bits are exactly that interval. */
  lemma {:induction false} ClearLowInterval(x: nat, a: nat, j: nat)
    ensures ClearLow(a, j) == ClearLow(x, j) <==> ClearLow(x, j) <= a < ClearLow(x, j) + Pow2(j)
  {
    if j > 0 {
      ClearLowInterval(x / 2, a / 2, j - 1);
    }
  }

  lemma {:induction false} ClearMore(x: nat, y: nat, j: nat, k: nat)
    requires j <= k && ClearLow(x, j) == ClearLow(y, j)
    ensures ClearLow(x, k) == ClearLow(y, k)
  {
    if j > 0 {
      ClearMore(x / 2, y / 2, j - 1, k - 1);
    }
  }

  lemma {:induction false} ClearLowWithin(x: nat, j: nat, width: nat)
    requires j <= width && x < Pow2(width)
    ensures ClearLow(x, j) + Pow2(j) <= Pow2(width)
  {
    if j > 0 {
      ClearLowWithin(x / 2, j - 1, width - 1);
    }
  }

  /** Multiples of 2^j are the numbers whose low bits are clear already. */
  lemma {:induction false} ClearLowMultiple(m: nat, r: nat, j: nat)
    requires r < Pow2(j)
    ensures ClearLow(m * Pow2(j) + r, j) == m * Pow2(j)
  {
    if j > 0 {
      assert m * Pow2(j) == 2 * (m * Pow2(j - 1));
      ClearLowMultiple(m, r / 2, j - 1);
    }
  }

  lemma {:induction false} ClearLowIdempotent(x: nat, j: nat)
    ensures ClearLow(ClearLow(x, j), j) == ClearLow(x, j)
  {
    if j > 0 {
      ClearLowIdempotent(x / 2, j - 1);
    }
  }

  /** What remains after clearing is a multiple of 2^j. */
  lemma {:induction false} ClearLowQuotient(x: nat, j: nat) returns (q: nat)
    ensures ClearLow(x, j) == q * Pow2(j)
  {
    if j == 0 {
      q := x;
    } else {
      q := ClearLowQuotient(x / 2, j - 1);
      assert q * Pow2(j) == 2 * (q * Pow2(j - 1));
    }
  }

  /** A bit above the word does not survive a shift. */
  lemma {:induction false} ShiftDropsHigh(x: nat, k: nat, width: nat)
    ensures ShiftLeft(x + Pow2(width), k, width) == ShiftLeft(x, k, width)
    decreases width
  {
    if width == 0 {
    } else if k == 0 {
      ShiftDropsHigh(x / 2, 0, width - 1);
      assert (x + Pow2(width)) / 2 == x / 2 + Pow2(width - 1);
    } else {
      ShiftDropsHigh(x + Pow2(width - 1), k - 1, width - 1);
      ShiftDropsHigh(x, k - 1, width - 1);
      assert x + Pow2(width) == x + Pow2(width - 1) + Pow2(width - 1);
    }
  }

  /** Shifting all ones left leaves ones in the high bits only. */
  lemma {:induction false} ShiftedOnes(k: nat, width: nat)
    requires k <= width
    ensures ShiftLeft(Pow2(width) - 1, k, width) == Pow2(width) - Pow2(k)
  {
    if width == 0 {
    } else if k == 0 {
      ShiftedOnes(0, width - 1);
      assert (Pow2(width) - 1) / 2 == Pow2(width - 1) - 1;
    } else {
      ShiftedOnes(k - 1, width - 1);
      ShiftDropsHigh(Pow2(width - 1) - 1, k - 1, width - 1);
      assert Pow2(width) - 1 == Pow2(width - 1) - 1 + Pow2(width - 1);
    }
  }

  /** Anding with high ones clears the low bits. */
  lemma {:induction false} AndHighOnes(x: nat, j: nat, width: nat)
    requires j <= width && x < Pow2(width)
    ensures Pow2(j) <= Pow2(width)
    ensures And(x, Pow2(width) - Pow2(j), width) == ClearLow(x, j)
  {
    Pow2Monotone(j, width);
    if width == 0 {
    } else if j == 0 {
      AndHighOnes(x / 2, 0, width - 1);
    } else {
      AndHighOnes(x / 2, j - 1, width - 1);
      assert (Pow2(width) - Pow2(j)) / 2 == Pow2(width - 1) - Pow2(j - 1);
    }
  }

  /** Oring low ones into cleared low bits adds them. */
  lemma {:induction false} OrLowOnes(x: nat, j: nat, width: nat)
    requires j <= width && x < Pow2(width) && ClearLow(x, j) == x
    ensures Or(x, Pow2(j) - 1, width) == x + Pow2(j) - 1
  {
    if width == 0 {
    } else if j == 0 {
      OrLowOnes(x / 2, 0, width - 1);
    } else {
      OrLowOnes(x / 2, j - 1, width - 1);
      assert (Pow2(j) - 1) / 2 == Pow2(j - 1) - 1;
    }
  }

  /** What a network mask selects, and the bits below it, for any word. */
  lemma MaskedWord(x: nat, j: nat, width: nat)
    requires j <= width && x < Pow2(width)
    ensures Pow2(j) <= Pow2(width)
    ensures And(x, Pow2(width) - Pow2(j), width) == ClearLow(x, j)
    ensures Or(ClearLow(x, j), Complement(Pow2(width) - Pow2(j), width), width) == ClearLow(x, j) + Pow2(j) - 1
    ensures ClearLow(x, j) + Pow2(j) <= Pow2(width)
  {
    AndHighOnes(x, j, width);
    ClearLowIdempotent(x, j);
    ClearLowWithin(x, j, width);
    OrLowOnes(ClearLow(x, j), j, width);
  }
}
