/** The secret mapper read off the address, one bit at a time.

    With no shift, mask or exclusive or: every bit of a decoded coordinate is one bit of the address, except that a
    bank bit is compared with one bit of the row and a bank-group bit with another, which the secret offset chooses.
    From that follows at which addresses two devices that differ only in it decode differently. */
module DecodedBits {
  import opened Bits
  import opened BitFields
  import opened RowXorMapping

  /** Binary digit `i` of a number. */
  predicate Digit(n: nat, i: nat) {
    n / Pow2(i) % 2 == 1
  }

  /** The lowest address bit of a level: Column lies just above the transaction, the other levels above it in order. */
  function Position(l: Layout, i: nat): nat
    requires l.Admitted() && i < |l.addrBits|
  {
    l.txOffset + if i == l.ColIdx() then 0 else l.addrBits[l.ColIdx()] + Total(l.addrBits[..i])
  }

  /** Address bit `j` of a level; a level has no bits beyond its width. */
  predicate RawBit(l: Layout, linear: nat, i: nat, j: nat)
    requires l.Admitted() && i < |l.addrBits|
  {
    j < l.addrBits[i] && Digit(linear, Position(l, i) + j)
  }

  /** Row bit `base + j`, where the row has such a bit. */
  predicate RowBit(l: Layout, linear: nat, base: nat, j: nat)
    requires l.Admitted()
  {
    RawBit(l, linear, l.RowIdx(), base + j)
  }

  /** The row bit that is folded into bit `j` of a level. */
  predicate KeyBit(l: Layout, linear: nat, i: nat, j: nat)
    requires l.Admitted() && i < |l.addrBits|
  {
    || (i == l.bankIdx && RowBit(l, linear, 0, j))
    || (i == l.bankgroupIdx && RowBit(l, linear, l.xorOffset, j))
  }

  // ---- digits of shifted and masked words ------------------------------------------------------

  lemma {:induction false} DigitIsBit(n: nat, i: nat)
    ensures Digit(n, i) == Bit(n, i)
    decreases i
  {
    if i == 0 {
      assert Pow2(0) == 1;
    } else {
      DigitIsBit(n / 2, i - 1);
      DivideTwice(n, Pow2(i - 1));
    }
  }

  lemma {:induction false} DivideTwice(n: nat, p: nat)
    requires p > 0
    ensures n / 2 / p == n / (2 * p)
  {
    var q, r := n / 2 / p, n / 2 % p;
    assert n / 2 == p * q + r;
    Doubling(p, q);
    RemainderIs(n, 2 * p, q, 2 * r + n % 2);
  }

  lemma {:induction false} BitOfShr(n: nat, k: nat, j: nat)
    ensures Bit(Shr(n, k), j) == Bit(n, k + j)
    decreases k
  {
    if k > 0 { BitOfShr(n / 2, k - 1, j); }
  }

  lemma {:induction false} BitOfLow(n: nat, k: nat, j: nat)
    ensures Bit(Low(n, k), j) == (j < k && Bit(n, j))
    decreases j
  {
    if k == 0 {
      assert Pow2(0) == 1;
      BitAbove(0, 0, j);
    } else if j > 0 {
      BitOfLow(n / 2, k - 1, j - 1);
    }
  }

  /** A number of known width is determined by its digits. */
  lemma {:induction false} DigitsDetermine(a: nat, b: nat, k: nat)
    requires a < Pow2(k) && b < Pow2(k)
    requires forall j: nat :: j < k ==> Digit(a, j) == Digit(b, j)
    ensures a == b
  {
    forall j: nat | j < k ensures Bit(a, j) == Bit(b, j) {
      DigitIsBit(a, j);
      DigitIsBit(b, j);
    }
    hide Digit;
    BitsDetermine(a, b, k);
  }

  lemma {:induction false} BitsDetermine(a: nat, b: nat, k: nat)
    requires a < Pow2(k) && b < Pow2(k)
    requires forall j: nat :: j < k ==> Bit(a, j) == Bit(b, j)
    ensures a == b
    decreases k
  {
    if k > 0 {
      assert Bit(a, 0) == Bit(b, 0);
      forall j: nat | j < k - 1 ensures Bit(a / 2, j) == Bit(b / 2, j) {
        assert Bit(a, j + 1) == Bit(b, j + 1);
      }
      BitsDetermine(a / 2, b / 2, k - 1);
    }
  }

  // ---- the decode, bit by bit ------------------------------------------------------------------

  /** The base fields before any scrambling, in level order. */
  function Raw(l: Layout, linear: nat): seq<int>
    requires l.Admitted()
  {
    Rotate(Split(l.Placement(), Shr(linear, l.txOffset)))
  }

  lemma {:induction false} RawField(l: Layout, linear: nat, i: nat)
    requires l.Admitted() && i < |l.addrBits|
    ensures |Raw(l, linear)| == |l.addrBits|
    ensures Raw(l, linear)[i] == Low(Shr(linear, Position(l, i)), l.addrBits[i])
  {
    hide Low, Shr, Split;
    var bits, c := Shr(linear, l.txOffset), l.ColIdx();
    var p := if i == c then 0 else i + 1;
    assert l.Placement()[p] == l.addrBits[i];
    SplitAt(l.Placement(), bits, p);
    if i != c { assert l.Placement()[..p][1..] == l.addrBits[..i]; }
    ShrShr(linear, l.txOffset, Offset(l.Placement(), p));
  }

  lemma {:induction false} RawFieldBit(l: Layout, linear: nat, i: nat, j: nat)
    requires l.Admitted() && i < |l.addrBits|
    ensures |Raw(l, linear)| == |l.addrBits| && 0 <= Raw(l, linear)[i]
    ensures Bit(Raw(l, linear)[i], j) == RawBit(l, linear, i, j)
  {
    hide Raw, Position, Digit, Bit, Low, Shr;
    RawField(l, linear, i);
    BitOfLow(Shr(linear, Position(l, i)), l.addrBits[i], j);
    BitOfShr(linear, Position(l, i), j);
    DigitIsBit(linear, Position(l, i) + j);
  }

  /** What the scramble does to one level. */
  lemma {:induction false} ScrambledField(l: Layout, linear: nat, i: nat)
    requires l.Admitted() && i < |l.addrBits|
    ensures |DecodeVec(l, linear)| == |l.addrBits| + 1 && |Raw(l, linear)| == |l.addrBits|
    ensures 0 <= DecodeVec(l, linear)[i + 1] < Pow2(l.addrBits[i])
    ensures 0 <= Raw(l, linear)[i] && 0 <= Raw(l, linear)[l.RowIdx()]
    ensures var v, raw, row := DecodeVec(l, linear)[i + 1], Raw(l, linear)[i], Raw(l, linear)[l.RowIdx()];
      v == if i == l.bankIdx then Xor(raw, Low(row, l.addrBits[i]))
           else if i == l.bankgroupIdx && l.addrBits[i] > 0
           then Xor(raw, Low(Shr(row, l.xorOffset), l.addrBits[i]))
           else raw
  {
    hide Low, Shr, Split, Xor, Pow2;
    RotatedInRange(l, Shr(linear, l.txOffset));
    LevelsInRange(l, Shr(linear, l.txOffset));
    assert DecodeVec(l, linear)[i + 1] == Levels(l, Shr(linear, l.txOffset))[i];
  }

  /** The decode: every bit of a level is its own address bit, compared with the row bit folded into it. */
  lemma {:induction false} DecodedBit(l: Layout, linear: nat, i: nat, j: nat)
    requires l.Admitted() && i < |l.addrBits| && j < l.addrBits[i]
    ensures |DecodeVec(l, linear)| == |l.addrBits| + 1 && DecodeVec(l, linear)[0] == 0
    ensures 0 <= DecodeVec(l, linear)[i + 1] < Pow2(l.addrBits[i])
    ensures Digit(DecodeVec(l, linear)[i + 1], j) == (RawBit(l, linear, i, j) != KeyBit(l, linear, i, j))
  {
    hide Raw, RawBit, Digit, Bit, Low, Shr, Xor, Pow2, Levels;
    var row := l.RowIdx();
    ScrambledField(l, linear, i);
    RawFieldBit(l, linear, i, j);
    RawFieldBit(l, linear, row, j);
    RawFieldBit(l, linear, row, l.xorOffset + j);
    var v, raw, key := DecodeVec(l, linear)[i + 1], Raw(l, linear)[i], Raw(l, linear)[row];
    DigitIsBit(v, j);
    BitOfXor(raw, Low(key, l.addrBits[i]), j);
    BitOfXor(raw, Low(Shr(key, l.xorOffset), l.addrBits[i]), j);
    BitOfLow(key, l.addrBits[i], j);
    BitOfLow(Shr(key, l.xorOffset), l.addrBits[i], j);
    BitOfShr(key, l.xorOffset, j);
  }

  // ---- what the secret offset decides ----------------------------------------------------------

  /** Some bank-group bit is compared with different row bits under the two offsets. */
  predicate GroupTells(l: Layout, linear: nat, other: nat)
    requires l.Admitted()
  {
    && l.bankgroupIdx >= 0
    && exists j: nat :: j < l.addrBits[l.bankgroupIdx]
                     && RowBit(l, linear, l.xorOffset, j) != RowBit(l, linear, other, j)
  }

  lemma {:induction false} SameLevel(l: Layout, m: Layout, linear: nat, i: nat)
    requires l.Admitted() && m.Admitted() && m == l.(xorOffset := m.xorOffset)
    requires i < |l.addrBits| && !(i == l.bankgroupIdx && GroupTells(l, linear, m.xorOffset))
    ensures |DecodeVec(l, linear)| == |DecodeVec(m, linear)| == |l.addrBits| + 1
    ensures DecodeVec(l, linear)[i + 1] == DecodeVec(m, linear)[i + 1]
  {
    hide DecodeVec, Digit, Pow2;
    ScrambledField(l, linear, i);
    ScrambledField(m, linear, i);
    var a, b := DecodeVec(l, linear)[i + 1], DecodeVec(m, linear)[i + 1];
    forall j: nat | j < l.addrBits[i] ensures Digit(a, j) == Digit(b, j) {
      DecodedBit(l, linear, i, j);
      DecodedBit(m, linear, i, j);
    }
    DigitsDetermine(a, b, l.addrBits[i]);
  }

  /** Two devices that differ only in the secret offset decode an address differently exactly when some bank-group
      bit is folded with different row bits. */
  lemma {:induction false} OffsetsTellApart(l: Layout, m: Layout, linear: nat)
    requires l.Admitted() && m.Admitted() && m == l.(xorOffset := m.xorOffset)
    ensures DecodeVec(l, linear) != DecodeVec(m, linear) <==> GroupTells(l, linear, m.xorOffset)
  {
    hide DecodeVec, Digit;
    var g := l.bankgroupIdx;
    if GroupTells(l, linear, m.xorOffset) {
      var j: nat :| j < l.addrBits[g]
        && RowBit(l, linear, l.xorOffset, j) != RowBit(l, linear, m.xorOffset, j);
      DecodedBit(l, linear, g, j);
      DecodedBit(m, linear, g, j);
    } else {
      DecodedBit(l, linear, l.RowIdx(), 0);
      DecodedBit(m, linear, l.RowIdx(), 0);
      forall k | 0 < k < |DecodeVec(l, linear)| ensures DecodeVec(l, linear)[k] == DecodeVec(m, linear)[k] {
        SameLevel(l, m, linear, k - 1);
      }
    }
  }

  lemma {:induction false} PowerDigit(p: nat, i: nat)
    ensures Digit(Pow2(p), i) == (i == p)
  {
    DigitIsBit(Pow2(p), i);
    PowerBit(p, i);
  }

  lemma {:induction false} PowerBit(p: nat, i: nat)
    ensures Bit(Pow2(p), i) == (i == p)
    decreases p
  {
    if p == 0 {
      if i > 0 { BitAbove(0, 0, i - 1); }
    } else if i > 0 {
      PowerBit(p - 1, i - 1);
    }
  }

  /** No two secret offsets give the same decoder once the bank group is mapped: the address whose only set bit is
      the row bit at one of them is decoded differently. */
  lemma {:induction false} SecretMatters(l: Layout, m: Layout)
    requires l.Admitted() && m.Admitted() && m == l.(xorOffset := m.xorOffset) && l.xorOffset != m.xorOffset
    ensures (exists linear: nat :: DecodeVec(l, linear) != DecodeVec(m, linear)) <==> l.ScramblesGroup()
    ensures l.ScramblesGroup() ==>
      var linear := Pow2(Position(l, l.RowIdx()) + l.xorOffset); DecodeVec(l, linear) != DecodeVec(m, linear)
  {
    hide DecodeVec, Digit, Position;
    var p := Position(l, l.RowIdx());
    if l.ScramblesGroup() {
      PowerDigit(p + l.xorOffset, p + l.xorOffset);
      PowerDigit(p + l.xorOffset, p + m.xorOffset);
      assert RowBit(l, Pow2(p + l.xorOffset), l.xorOffset, 0);
      assert !RowBit(l, Pow2(p + l.xorOffset), m.xorOffset, 0);
      OffsetsTellApart(l, m, Pow2(p + l.xorOffset));
    } else {
      forall linear: nat ensures DecodeVec(l, linear) == DecodeVec(m, linear) {
        OffsetsTellApart(l, m, linear);
      }
    }
  }
}
