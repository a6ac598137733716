/** What each transition does to the exposure of an arbitrary row.

    A row's exposure is its two side counters and its dwell bonus. Three things change them:
    - an activation adds the ring weights of its distance, on the side the activated row is on;
    - settling a dwell adds to the bonus of the rows that the activation exposed;
    - a refresh window or the oracle sets all three to zero.
    Flipping cells and restoring bytes change the victims' cells and the overlay only (`FlipsOnly`).
    The open rows, the refresh counts, the oracle's counters and the stored patterns (`SameBooks`) stay
    as they are while a row is credited, flipped or cleared. */
module Exposures {
  import opened DisturbanceModel

  function LeftOf(s: State, k: Key): real { if k in s.victims then s.victims[k].left else 0.0 }
  function RightOf(s: State, k: Key): real { if k in s.victims then s.victims[k].right else 0.0 }
  function BonusOf(s: State, k: Key): real { if k in s.victims then s.victims[k].bonus else 0.0 }

  /** Row `k` is exposed alike in both states and has the same latent thresholds. */
  ghost predicate SameAt(s: State, t: State, k: Key) {
    && (k in t.victims <==> k in s.victims)
    && (k in s.victims ==> t.victims[k] == s.victims[k].(cells := t.victims[k].cells))
  }

  ghost predicate SameBooks(s: State, t: State) {
    && t.open == s.open && t.oracleActs == s.oracleActs && t.refreshes == s.refreshes && t.patterns == s.patterns
    && t.oracleRefreshes == s.oracleRefreshes
  }

  /** Flipping changes cells and indices only. */
  ghost predicate FlipsOnly(s: State, t: State) {
    SameBooks(s, t) && forall k :: SameAt(s, t, k)
  }

  lemma {:induction false} EmitAllFlipsOnly(s: State, k: Key, cells: seq<Cell>)
    requires k in s.victims
    ensures FlipsOnly(s, EmitAll(s, k, cells))
    decreases |cells|
  {
    if cells != [] {
      var t := Emit(s, k, cells[0]);
      assert FlipsOnly(s, t);
      EmitAllFlipsOnly(t, k, cells[1..]);
      var u := EmitAll(s, k, cells);
      forall j ensures SameAt(s, u, j) { assert SameAt(s, t, j) && SameAt(t, u, j); }
    }
  }

  lemma {:induction false} MaybeFlipFlipsOnly(c: Config, s: State, k: Key)
    requires k in s.victims
    ensures FlipsOnly(s, MaybeFlip(c, s, k))
  {
    hide EmitAll, FlipPositions;
    var v := s.victims[k];
    if Crosses(v) {
      var cells := FlipPositions(c, k, v, MultiplicityBits(c, v, Exposure(v) / ActiveThreshold(v) as real));
      EmitAllFlipsOnly(s, k, cells);
      var t, u := EmitAll(s, k, cells), MaybeFlip(c, s, k);
      forall j ensures SameAt(s, u, j) { assert SameAt(s, t, j); }
    }
  }

  // ---- crediting an activation -------------------------------------------------------------------------

  /** The weight a list of hits adds to one side of a row. */
  function SideWeight(hits: seq<Hit>, k: Key, left: bool): real {
    if hits == [] then 0.0
    else (if hits[0].key == k && hits[0].left == left then hits[0].weight else 0.0) + SideWeight(hits[1..], k, left)
  }

  predicate IsHit(hits: seq<Hit>, k: Key) {
    hits != [] && (hits[0].key == k || IsHit(hits[1..], k))
  }

  function Touched(c: Config, s: State, h: Hit): (t: State)
    ensures h.key in t.victims
  {
    var t := WithVictim(c, s, h.key);
    t.(victims := t.victims[h.key := AddExposure(t.victims[h.key], h.left, h.weight)])
  }

  lemma {:induction false} FreshUnexposed(c: Config, s: State, k: Key)
    ensures var v := FreshVictim(c, s, k); v.left == 0.0 && v.right == 0.0 && v.bonus == 0.0
  {
  }

  lemma {:induction false} TouchEffect(c: Config, s: State, h: Hit, k: Key)
    ensures var t := Touched(c, s, h);
      && SameBooks(s, t)
      && LeftOf(t, k) == LeftOf(s, k) + (if h.key == k && h.left then h.weight else 0.0)
      && RightOf(t, k) == RightOf(s, k) + (if h.key == k && !h.left then h.weight else 0.0)
      && BonusOf(t, k) == BonusOf(s, k)
      && (k in t.victims <==> k in s.victims || h.key == k)
  {
    FreshUnexposed(c, s, h.key);
    hide FreshVictim;
  }

  lemma {:induction false} CreditEffect(c: Config, s: State, h: Hit, k: Key)
    ensures var t := Credit(c, s, h);
      && SameBooks(s, t)
      && LeftOf(t, k) == LeftOf(s, k) + (if h.key == k && h.left then h.weight else 0.0)
      && RightOf(t, k) == RightOf(s, k) + (if h.key == k && !h.left then h.weight else 0.0)
      && BonusOf(t, k) == BonusOf(s, k)
      && (k in t.victims <==> k in s.victims || h.key == k)
  {
    hide MaybeFlip;
    var u := Touched(c, s, h);
    assert Credit(c, s, h) == MaybeFlip(c, u, h.key);
    hide Touched, Credit;
    TouchEffect(c, s, h, k);
    MaybeFlipFlipsOnly(c, u, h.key);
    assert SameAt(u, Credit(c, s, h), k);
  }

  lemma {:induction false} CreditAllEffect(c: Config, s: State, hits: seq<Hit>, k: Key)
    ensures var t := CreditAll(c, s, hits);
      && SameBooks(s, t)
      && LeftOf(t, k) == LeftOf(s, k) + SideWeight(hits, k, true)
      && RightOf(t, k) == RightOf(s, k) + SideWeight(hits, k, false)
      && BonusOf(t, k) == BonusOf(s, k)
      && (k in t.victims <==> k in s.victims || IsHit(hits, k))
    decreases |hits|
  {
    hide Credit;
    if hits != [] {
      CreditEffect(c, s, hits[0], k);
      CreditAllEffect(c, Credit(c, s, hits[0]), hits[1..], k);
    }
  }

  /** Total weight of the blast rings at distance `d`. */
  function RingWeight(rings: seq<Ring>, d: int): real {
    if rings == [] then 0.0
    else (if rings[0].distance == d then rings[0].weight else 0.0) + RingWeight(rings[1..], d)
  }

  predicate HasRing(rings: seq<Ring>, d: int) {
    rings != [] && (rings[0].distance == d || HasRing(rings[1..], d))
  }

  lemma {:induction false} SideWeightAppend(xs: seq<Hit>, ys: seq<Hit>, k: Key, left: bool)
    ensures SideWeight(xs + ys, k, left) == SideWeight(xs, k, left) + SideWeight(ys, k, left)
    ensures IsHit(xs + ys, k) == (IsHit(xs, k) || IsHit(ys, k))
  {
    if xs == [] {
      assert xs + ys == ys;
    } else {
      assert (xs + ys)[1..] == xs[1..] + ys;
      SideWeightAppend(xs[1..], ys, k, left);
    }
  }

  /** An activation of `row` exposes row `k` of the same bank from the left by the rings at distance
      `k.row - row`, from the right by the rings at distance `row - k.row`, and no other row. */
  lemma {:induction false} HitWeights(c: Config, bank: BankKey, row: int, rings: seq<Ring>, k: Key)
    ensures var hits := Hits(c, bank, row, rings);
      var near := k.bank == bank && c.RowExists(k.row);
      && SideWeight(hits, k, true) == (if near then RingWeight(rings, k.row - row) else 0.0)
      && SideWeight(hits, k, false) == (if near then RingWeight(rings, row - k.row) else 0.0)
      && IsHit(hits, k) == (near && (HasRing(rings, k.row - row) || HasRing(rings, row - k.row)))
  {
    if rings != [] {
      var ring, rest := RingHits(c, bank, row, rings[0]), Hits(c, bank, row, rings[1..]);
      SideWeightAppend(ring, rest, k, true);
      SideWeightAppend(ring, rest, k, false);
      RingWeights(c, bank, row, rings[0], k);
      HitWeights(c, bank, row, rings[1..], k);
    }
  }

  lemma {:induction false} RingWeights(c: Config, bank: BankKey, row: int, ring: Ring, k: Key)
    ensures var hits := RingHits(c, bank, row, ring);
      var above, below := Key(bank, row + ring.distance), Key(bank, row - ring.distance);
      && SideWeight(hits, k, true) == (if k == above && c.RowExists(k.row) then ring.weight else 0.0)
      && SideWeight(hits, k, false) == (if k == below && c.RowExists(k.row) then ring.weight else 0.0)
      && IsHit(hits, k) == (c.RowExists(k.row) && (k == above || k == below))
  {
    var d := ring.distance;
    var lows := if c.RowExists(row - d) then [Hit(Key(bank, row - d), false, ring.weight)] else [];
    var highs := if c.RowExists(row + d) then [Hit(Key(bank, row + d), true, ring.weight)] else [];
    SideWeightAppend(lows, highs, k, true);
    SideWeightAppend(lows, highs, k, false);
    OneHit(lows, k);
    OneHit(highs, k);
  }

  lemma {:induction false} OneHit(hs: seq<Hit>, k: Key)
    requires |hs| <= 1
    ensures IsHit(hs, k) == (hs != [] && hs[0].key == k)
    ensures forall left ::
      SideWeight(hs, k, left) == (if hs != [] && hs[0].key == k && hs[0].left == left then hs[0].weight else 0.0)
  {
    if hs != [] { assert hs[1..] == []; }
  }

  // ---- settling and clearing -----------------------------------------------------------------------------

  ghost predicate SameSides(s: State, t: State, k: Key) {
    LeftOf(t, k) == LeftOf(s, k) && RightOf(t, k) == RightOf(s, k) && (k in t.victims <==> k in s.victims)
  }

  lemma {:induction false} AddBonusEffect(c: Config, s: State, k: Key, extra: real, j: Key)
    ensures var t := AddBonus(c, s, k, extra);
      && SameBooks(s, t) && SameSides(s, t, j)
      && (BonusOf(t, j) == BonusOf(s, j) || (j == k && BonusOf(t, j) == BonusOf(s, j) + extra))
  {
    hide MaybeFlip;
    if k in s.victims && |s.victims[k].cells| < MAX_BITS {
      var u := s.(victims := s.victims[k := s.victims[k].(bonus := s.victims[k].bonus + extra)]);
      MaybeFlipFlipsOnly(c, u, k);
      assert SameAt(u, AddBonus(c, s, k, extra), j);
    }
  }

  lemma {:induction false} AddBonusAllEffect(c: Config, s: State, ks: seq<Key>, extra: real, j: Key)
    ensures var t := AddBonusAll(c, s, ks, extra);
      && SameBooks(s, t) && SameSides(s, t, j) && (j !in ks ==> BonusOf(t, j) == BonusOf(s, j))
    decreases |ks|
  {
    hide AddBonus;
    if ks != [] {
      AddBonusEffect(c, s, ks[0], extra, j);
      AddBonusAllEffect(c, AddBonus(c, s, ks[0], extra), ks[1..], extra, j);
    }
  }

  lemma {:induction false} SettleEffect(c: Config, s: State, bank: BankKey, clk: int, j: Key)
    requires IsOpen(s.open, bank)
    ensures var t := Settle(c, s, bank, clk);
      && t.open == Remove(s.open, bank) && t.oracleActs == s.oracleActs && t.refreshes == s.refreshes
      && t.patterns == s.patterns && t.oracleRefreshes == s.oracleRefreshes && SameSides(s, t, j)
  {
    hide AddBonusAll;
    var e := Entry(s.open, bank);
    AddBonusAllEffect(c, s.(open := Remove(s.open, bank)), e.credited, c.Factor(clk - e.clk) - 1.0, j);
  }

  lemma {:induction false} SettleAllEffect(c: Config, s: State, banks: seq<BankKey>, clk: int, j: Key)
    ensures var t := SettleAll(c, s, banks, clk);
      && t.oracleActs == s.oracleActs && t.refreshes == s.refreshes && t.patterns == s.patterns && SameSides(s, t, j)
      && t.oracleRefreshes == s.oracleRefreshes
    decreases |banks|
  {
    hide Settle;
    if banks != [] {
      if IsOpen(s.open, banks[0]) { SettleEffect(c, s, banks[0], clk, j); }
      SettleAllEffect(c, if IsOpen(s.open, banks[0]) then Settle(c, s, banks[0], clk) else s, banks[1..], clk, j);
    }
  }

  lemma {:induction false} ClearVictimsEffect(s: State, hits: seq<Hit>, k: Key)
    ensures var t := ClearVictims(s, hits);
      && SameBooks(s, t) && (k in t.victims <==> k in s.victims)
      && (IsHit(hits, k) ==> LeftOf(t, k) == 0.0 && RightOf(t, k) == 0.0 && BonusOf(t, k) == 0.0)
      && (!IsHit(hits, k) ==> SameSides(s, t, k) && BonusOf(t, k) == BonusOf(s, k))
      && (LeftOf(s, k) == 0.0 && RightOf(s, k) == 0.0 && BonusOf(s, k) == 0.0 ==>
            LeftOf(t, k) == 0.0 && RightOf(t, k) == 0.0 && BonusOf(t, k) == 0.0)
    decreases |hits|
  {
    if hits != [] { ClearVictimsEffect(ClearVictim(s, hits[0].key), hits[1..], k); }
  }

  lemma {:induction false} RestoreByteEffect(s: State, a: int, k: Key)
    ensures var t := RestoreByte(s, a); SameBooks(s, t) && SameAt(s, t, k)
  {
  }

  lemma {:induction false} RestoreEffect(s: State, addr: int, size: nat, k: Key)
    ensures var t := Restore(s, addr, size); SameBooks(s, t) && SameAt(s, t, k)
  {
    hide RestoreByte;
    if size > 0 {
      RestoreEffect(s, addr, size - 1, k);
      RestoreByteEffect(Restore(s, addr, size - 1), addr + size - 1, k);
    }
  }
}
