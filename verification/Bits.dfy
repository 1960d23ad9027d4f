/** Unsigned machine words as natural numbers, the bitwise operators the headers apply to
    them, and the two facts everything else rests on: an operator acts bit by bit, and
    `x & (size - 1)` reduces modulo a power of two.
 */
module Bits {

  /** Bit `k` of `w`, counted from the least significant. */
  predicate Bit(w: nat, k: nat)
    decreases k
  {
    if k == 0 then w % 2 == 1 else Bit(w / 2, k - 1)
  }

  function And(a: nat, b: nat): nat
  {
    if a == 0 || b == 0 then 0
    else 2 * And(a / 2, b / 2) + (if a % 2 == 1 && b % 2 == 1 then 1 else 0)
  }

  function Or(a: nat, b: nat): nat
  {
    if a == 0 then b
    else 2 * Or(a / 2, b / 2) + (if a % 2 == 1 || b % 2 == 1 then 1 else 0)
  }

  /** `a & ~b`. */
  function AndNot(a: nat, b: nat): nat
  {
    if a == 0 then 0
    else 2 * AndNot(a / 2, b / 2) + (if a % 2 == 1 && b % 2 == 0 then 1 else 0)
  }

  /** `1 << k`. */
  function Pow2(k: nat): (r: nat)
    ensures r > 0
  {
    if k == 0 then 1 else 2 * Pow2(k - 1)
  }

  lemma {:induction false} ZeroHasNoBits(k: nat)
    ensures !Bit(0, k)
  {
    if k > 0 { ZeroHasNoBits(k - 1); }
  }

  lemma {:induction false} AndBit(a: nat, b: nat, k: nat)
    ensures Bit(And(a, b), k) <==> Bit(a, k) && Bit(b, k)
    decreases k
  {
    if a == 0 || b == 0 {
      ZeroHasNoBits(k);
    } else if k > 0 {
      AndBit(a / 2, b / 2, k - 1);
    }
  }

  lemma {:induction false} OrBit(a: nat, b: nat, k: nat)
    ensures Bit(Or(a, b), k) <==> Bit(a, k) || Bit(b, k)
    decreases k
  {
    if a == 0 {
      ZeroHasNoBits(k);
    } else if k > 0 {
      OrBit(a / 2, b / 2, k - 1);
    }
  }

  lemma {:induction false} AndNotBit(a: nat, b: nat, k: nat)
    ensures Bit(AndNot(a, b), k) <==> Bit(a, k) && !Bit(b, k)
    decreases k
  {
    if a == 0 {
      ZeroHasNoBits(k);
    } else if k > 0 {
      AndNotBit(a / 2, b / 2, k - 1);
    }
  }

  lemma {:induction false} Pow2Bit(j: nat, k: nat)
    ensures Bit(Pow2(j), k) <==> j == k
    decreases j
  {
    if j == 0 {
      if k > 0 { ZeroHasNoBits(k - 1); }
    } else if k > 0 {
      Pow2Bit(j - 1, k - 1);
    }
  }

  /** The all-ones word of `width` bits. */
  lemma {:induction false} OnesBit(width: nat, k: nat)
    ensures Bit(Pow2(width) - 1, k) <==> k < width
    decreases width
  {
    if width == 0 {
      ZeroHasNoBits(k);
    } else if k > 0 {
      OnesBit(width - 1, k - 1);
    }
  }

  /** None of the operators leaves the word size. */
  lemma {:induction false} OpsStayInWord(a: nat, b: nat, width: nat)
    requires a < Pow2(width) && b < Pow2(width)
    ensures And(a, b) < Pow2(width) && Or(a, b) < Pow2(width) && AndNot(a, b) < Pow2(width)
    decreases width
  {
    if width > 0 { OpsStayInWord(a / 2, b / 2, width - 1); }
  }

  /** Words of one size that agree on every bit are equal. */
  lemma {:induction false} SameBits(a: nat, b: nat, width: nat)
    requires a < Pow2(width) && b < Pow2(width)
    requires forall k | 0 <= k < width :: Bit(a, k) == Bit(b, k)
    ensures a == b
    decreases width
  {
    if width == 0 {
    } else {
      assert Bit(a, 0) == Bit(b, 0);
      forall k | 0 <= k < width - 1 ensures Bit(a / 2, k) == Bit(b / 2, k) {
        assert Bit(a, k + 1) == Bit(b, k + 1);
      }
      SameBits(a / 2, b / 2, width - 1);
    }
  }

  predicate IsPow2(n: nat)
  {
    n == 1 || (n > 1 && n % 2 == 0 && IsPow2(n / 2))
  }

  /** The remainder of `k` by `size`, defined by repeated subtraction. */
  function Wrap(k: nat, size: nat): (r: nat)
    requires size > 0
    ensures r < size
  {
    if k < size then k else Wrap(k - size, size)
  }

  lemma {:induction false} WrapIsMod(k: nat, size: nat)
    requires size > 0
    ensures Wrap(k, size) == k % size
  {
    if k >= size {
      WrapIsMod(k - size, size);
      ModDropsDivisor(k, size);
    }
  }

  lemma ModDropsDivisor(k: nat, size: nat)
    requires 0 < size <= k
    ensures k % size == (k - size) % size
  {
    RemainderUnique((k - size) / size + 1, (k - size) % size, k / size, k % size, size);
  }

  lemma RemainderUnique(q: int, r: nat, q': int, r': nat, size: nat)
    requires r < size && r' < size && q * size + r == q' * size + r'
    ensures r == r'
  {
    var d := q - q';
    assert d * size == r' - r;
  }

  lemma {:induction false} WrapNext(k: nat, size: nat)
    requires size > 0
    ensures Wrap(k + 1, size) == (if Wrap(k, size) + 1 == size then 0 else Wrap(k, size) + 1)
  {
    if k >= size { WrapNext(k - size, size); }
  }

  /** Two numbers less than `size` apart wrap to the same place only if they are equal. */
  lemma {:induction false} WrapInjective(j: nat, k: nat, size: nat)
    requires size > 0 && j <= k < j + size && Wrap(j, size) == Wrap(k, size)
    ensures j == k
  {
    if j >= size { WrapInjective(j - size, k - size, size); }
  }

  lemma {:induction false} WrapDoubles(k: nat, half: nat)
    requires half > 0
    ensures Wrap(k, 2 * half) == 2 * Wrap(k / 2, half) + k % 2
  {
    if k >= 2 * half { WrapDoubles(k - 2 * half, half); }
  }

  /** Masking with `size - 1` is reduction modulo a power of two `size`. */
  lemma {:induction false} MaskWraps(a: nat, size: nat)
    requires IsPow2(size)
    ensures And(a, size - 1) == Wrap(a, size)
    decreases size
  {
    if size == 1 {
      assert Wrap(a, 1) == 0;
    } else {
      MaskWraps(a / 2, size / 2);
      WrapDoubles(a, size / 2);
      if a == 0 {
      } else {
        assert (size - 1) / 2 == size / 2 - 1;
      }
    }
  }
}
