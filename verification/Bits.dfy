/** Non-negative machine words as natural numbers, with bit tests, exclusive or and powers of two.

    The address code shifts, masks and XORs unsigned words:
    - `Shr`, `Low`, `Xor` and `Or` are defined bit by bit;
    - `Shl` multiplies by a power of two;
    - `Slices` says that `Shr` and `Low` are division and remainder by a power of two.
    Words are equal when they have the same bits, and everything the inverter and the mappers need
    follows from how these operations act on single bits. The width of a machine word is never assumed;
    lemmas say below which power of two a result stays. */
module Bits {

  function Pow2(k: nat): (p: nat)
    ensures p >= 1
  {
    if k == 0 then 1 else 2 * Pow2(k - 1)
  }

  /** `(n >> i) & 1`. */
  predicate Bit(n: nat, i: nat) {
    if i == 0 then n % 2 == 1 else Bit(n / 2, i - 1)
  }

  /** `a ^ b`. */
  function Xor(a: nat, b: nat): nat {
    if a == 0 && b == 0 then 0
    else (if a % 2 == b % 2 then 0 else 1) + 2 * Xor(a / 2, b / 2)
  }

  /** `n >> k`. */
  function Shr(n: nat, k: nat): nat {
    if k == 0 then n else Shr(n / 2, k - 1)
  }

  /** `n << k`. */
  function Shl(n: nat, k: nat): nat {
    Pow2(k) * n
  }

  /** `n & ((1 << k) - 1)`. */
  function Low(n: nat, k: nat): nat {
    if k == 0 then 0 else n % 2 + 2 * Low(n / 2, k - 1)
  }

  lemma {:induction false} Pow2Add(i: nat, j: nat)
    ensures Pow2(i + j) == Pow2(i) * Pow2(j)
  {
    if i > 0 {
      Pow2Add(i - 1, j);
      assert Pow2(i + j) == 2 * Pow2(i - 1 + j);
    }
  }

  lemma {:induction false} Pow2Monotone(i: nat, j: nat)
    requires i <= j
    ensures Pow2(i) <= Pow2(j)
  {
    if i < j { Pow2Monotone(i, j - 1); }
  }

  lemma {:induction false} Pow2Exceeds(k: nat)
    ensures k < Pow2(k)
  {
    if k > 0 { Pow2Exceeds(k - 1); }
  }

  lemma {:induction false} XorZero(a: nat)
    ensures Xor(a, 0) == a && Xor(0, a) == a
  {
    if a > 0 { XorZero(a / 2); }
  }

  lemma {:induction false} XorSelf(a: nat)
    ensures Xor(a, a) == 0
  {
    if a > 0 { XorSelf(a / 2); }
  }

  lemma {:induction false} XorCommutes(a: nat, b: nat)
    ensures Xor(a, b) == Xor(b, a)
    decreases a + b
  {
    if a > 0 || b > 0 { XorCommutes(a / 2, b / 2); }
  }

  lemma {:induction false} XorAssociates(a: nat, b: nat, c: nat)
    ensures Xor(Xor(a, b), c) == Xor(a, Xor(b, c))
    decreases a + b + c
  {
    if a == 0 && b == 0 {
      XorZero(c);
      XorZero(Xor(0, c));
    } else if b == 0 && c == 0 {
      XorZero(a);
      XorZero(Xor(a, 0));
    } else {
      XorAssociates(a / 2, b / 2, c / 2);
      XorStep(a, b);
      XorStep(b, c);
      XorStep(Xor(a, b), c);
      XorStep(a, Xor(b, c));
    }
  }

  /** The low bit and the rest of an exclusive or, with no case distinction. */
  lemma {:induction false} XorStep(a: nat, b: nat)
    ensures Xor(a, b) % 2 == (if a % 2 == b % 2 then 0 else 1)
    ensures Xor(a, b) / 2 == Xor(a / 2, b / 2)
  {
  }

  /** XOR-ing the same word twice cancels. */
  lemma {:induction false} XorCancels(a: nat, b: nat)
    ensures Xor(Xor(a, b), b) == a
    ensures Xor(b, Xor(b, a)) == a
  {
    XorAssociates(a, b, b);
    XorSelf(b);
    XorZero(a);
    XorAssociates(b, b, a);
  }

  /** The four-term exchange law used wherever a map is shown linear. */
  lemma {:induction false} XorExchange(a: nat, b: nat, c: nat, d: nat)
    ensures Xor(Xor(a, b), Xor(c, d)) == Xor(Xor(a, c), Xor(b, d))
  {
    XorAssociates(a, b, Xor(c, d));
    XorAssociates(b, c, d);
    XorCommutes(b, c);
    XorAssociates(c, b, d);
    XorAssociates(a, c, Xor(b, d));
  }

  lemma {:induction false} BitOfXor(a: nat, b: nat, i: nat)
    ensures Bit(Xor(a, b), i) == (Bit(a, i) != Bit(b, i))
    decreases i
  {
    XorStep(a, b);
    if i > 0 { BitOfXor(a / 2, b / 2, i - 1); }
  }

  lemma {:induction false} XorBelow(a: nat, b: nat, k: nat)
    requires a < Pow2(k) && b < Pow2(k)
    ensures Xor(a, b) < Pow2(k)
    decreases k
  {
    XorStep(a, b);
    if k > 0 { XorBelow(a / 2, b / 2, k - 1); }
  }

  lemma {:induction false} BitAbove(n: nat, k: nat, i: nat)
    requires n < Pow2(k) && k <= i
    ensures !Bit(n, i)
    decreases i
  {
    if i > 0 {
      if k > 0 { BitAbove(n / 2, k - 1, i - 1); } else { BitAbove(0, 0, i - 1); }
    }
  }

  /** With bit `k` clear, a word below `2^(k+1)` is already below `2^k`. */
  lemma {:induction false} DropTopBit(n: nat, k: nat)
    requires n < Pow2(k + 1) && !Bit(n, k)
    ensures n < Pow2(k)
    decreases k
  {
    if k > 0 { DropTopBit(n / 2, k - 1); }
  }

  /** Setting a bit above every bit of `a` is an addition. */
  lemma {:induction false} XorHighBit(a: nat, k: nat)
    requires a < Pow2(k)
    ensures Xor(a, Pow2(k)) == a + Pow2(k)
    decreases k
  {
    XorStep(a, Pow2(k));
    if k == 0 {
      assert Xor(0, 1) == 1;
    } else {
      assert Pow2(k) / 2 == Pow2(k - 1) && Pow2(k) % 2 == 0;
      XorHighBit(a / 2, k - 1);
    }
  }

  /** Shifting and masking split a word into two parts that add up to it. */
  lemma {:induction false} Slices(n: nat, k: nat)
    ensures n == Pow2(k) * Shr(n, k) + Low(n, k)
    ensures Low(n, k) < Pow2(k)
    decreases k
  {
    if k > 0 {
      Slices(n / 2, k - 1);
      Doubling(Pow2(k - 1), Shr(n, k));
    }
  }

  lemma {:induction false} Doubling(p: nat, x: nat)
    ensures (2 * p) * x == 2 * (p * x)
  {
  }

  /** The two parts are determined by the word: a base-`2^k` representation is unique. */
  lemma {:induction false} SlicesUnique(hi: nat, lo: nat, k: nat)
    requires lo < Pow2(k)
    ensures Shr(Pow2(k) * hi + lo, k) == hi
    ensures Low(Pow2(k) * hi + lo, k) == lo
    decreases k
  {
    if k > 0 {
      var n := Pow2(k) * hi + lo;
      Doubling(Pow2(k - 1), hi);
      assert n / 2 == Pow2(k - 1) * hi + lo / 2 && n % 2 == lo % 2;
      SlicesUnique(hi, lo / 2, k - 1);
    }
  }

  /** XOR commutes with dropping low bits and with keeping only low bits. */
  lemma {:induction false} XorSlices(a: nat, b: nat, k: nat)
    ensures Shr(Xor(a, b), k) == Xor(Shr(a, k), Shr(b, k))
    ensures Low(Xor(a, b), k) == Xor(Low(a, k), Low(b, k))
    decreases k
  {
    if k > 0 {
      XorStep(a, b);
      XorStep(Low(a, k), Low(b, k));
      XorSlices(a / 2, b / 2, k - 1);
    }
  }

  /** XOR of two words, each a low field below `2^k` and a rest, works field by field. */
  lemma {:induction false} XorJoin(lo1: nat, hi1: nat, lo2: nat, hi2: nat, k: nat)
    requires lo1 < Pow2(k) && lo2 < Pow2(k)
    ensures Xor(Pow2(k) * hi1 + lo1, Pow2(k) * hi2 + lo2) == Pow2(k) * Xor(hi1, hi2) + Xor(lo1, lo2)
  {
    var a, b := Pow2(k) * hi1 + lo1, Pow2(k) * hi2 + lo2;
    SlicesUnique(hi1, lo1, k);
    SlicesUnique(hi2, lo2, k);
    XorSlices(a, b, k);
    Slices(Xor(a, b), k);
  }

  /** `a | b`. */
  function Or(a: nat, b: nat): nat {
    if a == 0 && b == 0 then 0
    else (if a % 2 == 1 || b % 2 == 1 then 1 else 0) + 2 * Or(a / 2, b / 2)
  }

  /** Or-ing a shifted field above every set bit of a word is an addition. */
  lemma {:induction false} OrAbove(lo: nat, hi: nat, k: nat)
    requires lo < Pow2(k)
    ensures Or(lo, Pow2(k) * hi) == Pow2(k) * hi + lo
    decreases k
  {
    if k == 0 {
      OrZero(hi);
    } else {
      Doubling(Pow2(k - 1), hi);
      OrAbove(lo / 2, hi, k - 1);
    }
  }

  lemma {:induction false} OrZero(a: nat)
    ensures Or(0, a) == a
  {
    if a > 0 { OrZero(a / 2); }
  }

  lemma {:induction false} MulMonotone(p: nat, x: nat, y: nat)
    requires x <= y
    ensures p * x <= p * y
  {
  }

  /** Quotient and remainder are unique. */
  lemma {:induction false} RemainderIs(x: nat, p: nat, q: nat, r: nat)
    requires x == p * q + r && r < p
    ensures x / p == q && x % p == r
  {
    var q', r' := x / p, x % p;
    assert x == p * q' + r';
    assert p * (q' + 1) == p * q' + p && p * (q + 1) == p * q + p;
    if q' < q {
      MulMonotone(p, q' + 1, q);
    } else if q < q' {
      MulMonotone(p, q + 1, q');
    }
  }
}
