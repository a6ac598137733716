/** The oracle mitigation protects in every run.

    With a blast radius of one row, a row whose thresholds are large enough for the oracle's period
    never flips a cell, whatever commands are issued and however they interleave with refreshes,
    precharges and writes.

    The invariant, `Guarded`, bounds each side's exposure by the neighbour's activation counter, which
    stays below the period, and the dwell bonus by the activations since the row was last cleared plus
    the one activation that may still be open. An activation is credited before the oracle looks at its
    counter, so the bounds are shown first for the state in between, with one activation more on the
    side of the activated row. */
module OracleProtection {
  import opened DisturbanceModel
  import opened Exposures
  import opened History
  import opened OpenRows

  // ---- a row that is not being flipped keeps its cells ----------------------------------------------------

  function CellsOf(s: State, k: Key): set<Cell> { if k in s.victims then s.victims[k].cells else {} }

  /** Nothing about row `k` changed, except that it may have lost cells. */
  ghost predicate Bystander(s: State, t: State, k: Key) {
    SameBooks(s, t) && SameAt(s, t, k) && CellsOf(t, k) <= CellsOf(s, k)
  }

  lemma {:induction false} EmitAllBystander(s: State, j: Key, cells: seq<Cell>, k: Key)
    requires j in s.victims && j != k
    ensures Bystander(s, EmitAll(s, j, cells), k)
    decreases |cells|
  {
    if cells != [] {
      assert Bystander(s, Emit(s, j, cells[0]), k);
      EmitAllBystander(Emit(s, j, cells[0]), j, cells[1..], k);
    }
  }

  lemma {:induction false} MaybeFlipBystander(c: Config, s: State, j: Key, k: Key)
    requires j in s.victims && j != k
    ensures Bystander(s, MaybeFlip(c, s, j), k)
  {
    hide EmitAll, FlipPositions;
    var v := s.victims[j];
    if Crosses(v) {
      var n := MultiplicityBits(c, v, Exposure(v) / ActiveThreshold(v) as real);
      EmitAllBystander(s, j, FlipPositions(c, j, v, n), k);
    }
  }

  lemma {:induction false} CreditBystander(c: Config, s: State, h: Hit, k: Key)
    requires h.key != k
    ensures Bystander(s, Credit(c, s, h), k)
  {
    var u := Touched(c, s, h);
    assert Credit(c, s, h) == MaybeFlip(c, u, h.key) by { hide MaybeFlip; }
    hide MaybeFlip, FreshVictim;
    MaybeFlipBystander(c, u, h.key, k);
  }

  lemma {:induction false} AddBonusBystander(c: Config, s: State, j: Key, extra: real, k: Key)
    requires j != k
    ensures Bystander(s, AddBonus(c, s, j, extra), k)
  {
    hide MaybeFlip;
    if j in s.victims && |s.victims[j].cells| < MAX_BITS {
      var u := s.(victims := s.victims[j := s.victims[j].(bonus := s.victims[j].bonus + extra)]);
      MaybeFlipBystander(c, u, j, k);
    }
  }

  // ---- a row below threshold ------------------------------------------------------------------------------

  /** Exposure `l`, `r`, `b` is below the active threshold of row `k`, for every stored pattern. */
  ghost predicate BelowThreshold(c: Config, k: Key, l: real, r: real, b: real) {
    forall ones :: if l > 0.0 && r > 0.0 then Min(l, r) * 2.0 + b < c.Threshold(k, true, ones) as real
                   else Max(l, r) + b < c.Threshold(k, false, ones) as real
  }

  /** Row `k` has no flipped cell and still has its own thresholds. */
  ghost predicate Intact(c: Config, s: State, k: Key) {
    k in s.victims ==>
      var v := s.victims[k];
      && v.cells == {} && v.threshold == c.Threshold(k, true, v.ones) && v.single == c.Threshold(k, false, v.ones)
  }

  lemma {:induction false} BelowHolds(c: Config, s: State, k: Key)
    requires k in s.victims && Intact(c, s, k)
    requires BelowThreshold(c, k, s.victims[k].left, s.victims[k].right, s.victims[k].bonus)
    ensures MaybeFlip(c, s, k) == s
  {
    hide Flip;
  }

  lemma {:induction false} BystanderIntact(c: Config, s: State, t: State, k: Key)
    requires Intact(c, s, k) && Bystander(s, t, k)
    ensures Intact(c, t, k) && SameSides(s, t, k) && BonusOf(t, k) == BonusOf(s, k)
  {
  }

  lemma {:induction false} CreditBelow(c: Config, s: State, h: Hit)
    requires Intact(c, s, h.key)
    requires BelowThreshold(c, h.key, LeftOf(s, h.key) + (if h.left then h.weight else 0.0),
                            RightOf(s, h.key) + (if h.left then 0.0 else h.weight), BonusOf(s, h.key))
    ensures Intact(c, Credit(c, s, h), h.key)
  {
    var u := Touched(c, s, h);
    assert Credit(c, s, h) == MaybeFlip(c, u, h.key) by { hide MaybeFlip; }
    IntactTouched(c, s, h);
    hide MaybeFlip, Touched, BelowThreshold, Intact;
    BelowHolds(c, u, h.key);
  }

  lemma {:induction false} IntactTouched(c: Config, s: State, h: Hit)
    requires Intact(c, s, h.key)
    ensures var u, v := Touched(c, s, h), Touched(c, s, h).victims[h.key];
      && Intact(c, u, h.key) && v.bonus == BonusOf(s, h.key)
      && v.left == LeftOf(s, h.key) + (if h.left then h.weight else 0.0)
      && v.right == RightOf(s, h.key) + (if h.left then 0.0 else h.weight)
  {
  }

  function Occurs(ks: seq<Key>, k: Key): nat {
    if ks == [] then 0 else (if ks[0] == k then 1 else 0) + Occurs(ks[1..], k)
  }

  lemma {:induction false} OccursIn(ks: seq<Key>, k: Key)
    ensures Occurs(ks, k) == 0 <==> k !in ks
  {
    if ks != [] { OccursIn(ks[1..], k); }
  }

  lemma {:induction false} CreditAllBelow(c: Config, s: State, hits: seq<Hit>, k: Key)
    requires Intact(c, s, k) && Occurs(Keys(hits), k) <= 1
    requires BelowThreshold(c, k, LeftOf(s, k) + SideWeight(hits, k, true),
                            RightOf(s, k) + SideWeight(hits, k, false), BonusOf(s, k))
    ensures Intact(c, CreditAll(c, s, hits), k)
    decreases |hits|
  {
    hide Credit, BelowThreshold;
    if hits != [] {
      var h, t := hits[0], Credit(c, s, hits[0]);
      assert Keys(hits)[1..] == Keys(hits[1..]);
      CreditEffect(c, s, h, k);
      if h.key == k {
        NoWeight(hits[1..], k);
        CreditBelow(c, s, h);
      } else {
        CreditBystander(c, s, h, k);
        BystanderIntact(c, s, t, k);
      }
      CreditAllBelow(c, t, hits[1..], k);
    }
  }

  lemma {:induction false} NoWeight(hits: seq<Hit>, k: Key)
    requires Occurs(Keys(hits), k) == 0
    ensures SideWeight(hits, k, true) == 0.0 && SideWeight(hits, k, false) == 0.0
  {
    if hits != [] {
      assert Keys(hits)[1..] == Keys(hits[1..]);
      NoWeight(hits[1..], k);
    }
  }

  lemma {:induction false} AddBonusAllBelow(c: Config, s: State, ks: seq<Key>, extra: real, k: Key)
    requires Intact(c, s, k) && Occurs(ks, k) <= 1
    requires k in ks ==> BelowThreshold(c, k, LeftOf(s, k), RightOf(s, k), BonusOf(s, k) + extra)
    ensures var t := AddBonusAll(c, s, ks, extra);
      && Intact(c, t, k) && SameSides(s, t, k)
      && BonusOf(t, k) == BonusOf(s, k) + (if k in ks && k in s.victims then extra else 0.0)
    decreases |ks|
  {
    hide BelowThreshold, MaybeFlip;
    if ks != [] {
      var t := AddBonus(c, s, ks[0], extra);
      OccursIn(ks[1..], k);
      if ks[0] == k {
        if k in s.victims {
          var u := s.(victims := s.victims[k := s.victims[k].(bonus := s.victims[k].bonus + extra)]);
          BelowHolds(c, u, k);
        }
      } else {
        AddBonusBystander(c, s, ks[0], extra, k);
        BystanderIntact(c, s, t, k);
      }
      AddBonusAllBelow(c, t, ks[1..], extra, k);
    }
  }

  // ---- the protected row ----------------------------------------------------------------------------------

  /** The most that the dwells of `x` activations can add, each worth at most `rho` in all. */
  function Slack(rho: real, x: real): real { (rho - 1.0) * x }

  lemma {:induction false} SlackGrows(rho: real, x: real, y: real)
    requires rho >= 1.0 && x <= y
    ensures Slack(rho, x) <= Slack(rho, y)
  {
    Scale(rho - 1.0, x, y);
  }

  lemma {:induction false} SlackMore(rho: real, x: real)
    ensures Slack(rho, x) + (rho - 1.0) == Slack(rho, x + 1.0) && Slack(rho, 0.0) == 0.0
  {
  }

  /** What a run may do to a row: the most activations that one of its dwells is worth, and the neighbours it
      activates. */
  datatype Threat = Threat(worth: real, left: bool, right: bool)

  /** Row `k` is protected from a threat: the oracle runs on a blast radius of one row, and the row's thresholds
      exceed what the oracle's period lets through. With a period of 1, or when only one neighbour is activated,
      the row is never exposed from both sides. */
  ghost predicate Protected(c: Config, k: Key, threat: Threat) {
    && c.oracle && c.blast == [Ring(1, 1.0)] && c.RowExists(k.row) && threat.worth >= 1.0
    && (Period(c) >= 2 && threat.left && threat.right ==>
          forall ones :: DoubleExposure(c, threat.worth) < c.Threshold(k, true, ones) as real)
    && (forall ones :: SingleExposure(c, threat.worth) < c.Threshold(k, false, ones) as real)
  }

  /** The most that the oracle lets through from both sides: one activation less than the period on either side,
      and one dwell more. */
  function DoubleExposure(c: Config, worth: real): real {
    (2 * Period(c) - 2) as real + Slack(worth, (2 * Period(c) - 1) as real)
  }

  /** The most that the oracle lets through from one side: a period of activations. */
  function SingleExposure(c: Config, worth: real): real {
    Period(c) as real + Slack(worth, Period(c) as real)
  }

  /** The first `n` actions stay within the threat to row `k`. */
  ghost predicate Threatens(c: Config, run: seq<Action>, n: nat, k: Key, threat: Threat)
    requires n <= |run|
  {
    && DwellsWithin(c, run, n, threat.worth)
    && forall i :: 0 <= i < n && IsActivation(run[i]) ==> Permits(threat, Aggressor(run[i]), k)
  }

  predicate Permits(threat: Threat, g: Key, k: Key) {
    (g == LeftNeighbour(k) ==> threat.left) && (g == RightNeighbour(k) ==> threat.right)
  }

  /** The dwells that an action settles are worth at most `worth` activations each. */
  ghost predicate StepWithin(c: Config, s: State, a: Action, worth: real) {
    a.Issue? ==>
      forall b ::
        (IsOpen(s.open, b) && (Covers(a, b) || (Opens(a, b) && a.event.row != Entry(s.open, b).row)) ==>
           c.Factor(a.event.clk - Entry(s.open, b).clk) <= worth)
  }

  function LeftNeighbour(k: Key): Key { Key(k.bank, k.row - 1) }
  function RightNeighbour(k: Key): Key { Key(k.bank, k.row + 1) }

  /** 1 when the row open in the bank of `k` exposed `k`, so that its dwell is still to be settled. */
  function Pending(s: State, k: Key): real {
    if IsOpen(s.open, k.bank) && k in Entry(s.open, k.bank).credited then 1.0 else 0.0
  }

  ghost predicate OpenExact(c: Config, open: seq<OpenRow>) {
    && Unique(open)
    && forall b :: IsOpen(open, b) ==> Entry(open, b).credited == Keys(Hits(c, b, Entry(open, b).row, c.blast))
  }

  ghost predicate CountersBounded(c: Config, s: State) {
    forall g :: 0 <= Acts(s, g) < Period(c)
  }

  /** The invariant, with `dl` and `dr` activations credited but not yet counted by the oracle. */
  ghost predicate Bounded(c: Config, s: State, k: Key, threat: Threat, dl: int, dr: int) {
    && Intact(c, s, k)
    && 0.0 <= LeftOf(s, k) <= (Acts(s, LeftNeighbour(k)) + dl) as real
    && 0.0 <= RightOf(s, k) <= (Acts(s, RightNeighbour(k)) + dr) as real
    && BonusOf(s, k) <= Slack(threat.worth, LeftOf(s, k) + RightOf(s, k) + 1.0 - Pending(s, k))
    && (!threat.left ==> LeftOf(s, k) == 0.0) && (!threat.right ==> RightOf(s, k) == 0.0)
  }

  ghost predicate Guarded(c: Config, s: State, k: Key, threat: Threat) {
    OpenExact(c, s.open) && CountersBounded(c, s) && Bounded(c, s, k, threat, 0, 0)
  }

  // ---- arithmetic -----------------------------------------------------------------------------------------

  lemma {:induction false} FactorBound(c: Config, rho: real, dwell: int)
    requires rho >= 1.0 && (c.rowPress.Some? ==> c.rowPress.value <= rho)
    ensures c.Factor(dwell) <= rho
  {
    if dwell > DWELL_NOMINAL && c.rowPress.Some? {
      var f := (dwell - DWELL_NOMINAL) as real / (DWELL_SATURATION - DWELL_NOMINAL) as real;
      ScaledBelow(c.rowPress.value - 1.0, if f < 1.0 then f else 1.0, rho - 1.0);
    }
  }

  lemma {:induction false} ScaledBelow(x: real, f: real, y: real)
    requires x <= y && 0.0 <= y && 0.0 <= f <= 1.0
    ensures x * f <= y
  {
    if x >= 0.0 { assert x * f <= x * 1.0; }
  }

  lemma {:induction false} Scale(a: real, x: real, y: real)
    requires 0.0 <= a && x <= y
    ensures a * x <= a * y
  {
  }

  /** A protected row is below threshold when its sides stay within the oracle's period and its bonus
      within that of `x` dwells. */
  lemma {:induction false} ProtectedBelow(c: Config, k: Key, threat: Threat, l: real, r: real, b: real, x: real)
    requires Protected(c, k, threat)
    requires 0.0 <= l && 0.0 <= r && l + r <= x && b <= Slack(threat.worth, x)
    requires l <= (Period(c) - 1) as real || r <= (Period(c) - 1) as real
    requires x <= (2 * Period(c) - 1) as real && (l == 0.0 || r == 0.0 ==> x <= Period(c) as real)
    requires (threat.left || l == 0.0) && (threat.right || r == 0.0)
    ensures BelowThreshold(c, k, l, r, b)
  {
    hide Slack;
    SlackGrows(threat.worth, x, (2 * Period(c) - 1) as real);
    if l == 0.0 || r == 0.0 { SlackGrows(threat.worth, x, Period(c) as real); }
    assert Min(l, r) * 2.0 <= (2 * Period(c) - 2) as real;
    assert Max(l, r) <= l + r;
  }

  // ---- settling a dwell -----------------------------------------------------------------------------------

  lemma {:induction false} HitKeys(hits: seq<Hit>, k: Key)
    ensures IsHit(hits, k) <==> k in Keys(hits)
  {
    if hits != [] {
      assert Keys(hits)[1..] == Keys(hits[1..]);
      HitKeys(hits[1..], k);
    }
  }

  lemma {:induction false} NearHits(c: Config, bank: BankKey, row: int, k: Key)
    requires c.blast == [Ring(1, 1.0)] && c.RowExists(k.row)
    ensures var hits := Hits(c, bank, row, c.blast);
      && Occurs(Keys(hits), k) <= 1
      && (k in Keys(hits) <==> k.bank == bank && (k.row == row + 1 || k.row == row - 1))
      && SideWeight(hits, k, true) == (if k.bank == bank && k.row == row + 1 then 1.0 else 0.0)
      && SideWeight(hits, k, false) == (if k.bank == bank && k.row == row - 1 then 1.0 else 0.0)
  {
    HitWeights(c, bank, row, c.blast, k);
    assert c.blast[1..] == [];
    HitKeys(Hits(c, bank, row, c.blast), k);
    var hits := Hits(c, bank, row, c.blast);
    assert hits == RingHits(c, bank, row, Ring(1, 1.0));
    OccursShort(Keys(hits), k);
  }

  lemma {:induction false} OccursShort(ks: seq<Key>, k: Key)
    requires |ks| <= 2 && (|ks| == 2 ==> ks[0] != ks[1])
    ensures Occurs(ks, k) <= 1
  {
    if |ks| == 2 {
      assert ks[1..][1..] == [];
    } else if |ks| == 1 {
      assert ks[1..] == [];
    }
  }

  lemma {:induction false} SettleGuarded(c: Config, s: State, bank: BankKey, clk: int, k: Key, threat: Threat)
    requires Protected(c, k, threat) && Guarded(c, s, k, threat) && IsOpen(s.open, bank)
    requires c.Factor(clk - Entry(s.open, bank).clk) <= threat.worth
    ensures Guarded(c, Settle(c, s, bank, clk), k, threat)
  {
    hide Slack;
    hide AddBonusAll, Protected, Hits, Intact;
    var e, t := Entry(s.open, bank), Settle(c, s, bank, clk);
    var removed := s.(open := Remove(s.open, bank));
    EntryBank(s.open, bank);
    SettleEffect(c, s, bank, clk, k);
    RemoveUnique(s.open, bank);
    forall b
      ensures IsOpen(t.open, b) ==> Entry(t.open, b).credited == Keys(Hits(c, b, Entry(t.open, b).row, c.blast))
    {
      RemoveFacts(s.open, bank, b);
    }
    RemoveFacts(s.open, bank, k.bank);
    assert Pending(t, k) == if bank == k.bank then 0.0 else Pending(s, k);
    SettledBonus(c, s, bank, clk, k, threat);
    forall g ensures Acts(t, g) == Acts(s, g) {}
  }

  /** What the invariant says about the row whose dwell is being settled. */
  lemma {:induction false} BeforeSettling(c: Config, s: State, bank: BankKey, k: Key, threat: Threat)
    requires Protected(c, k, threat) && Guarded(c, s, k, threat) && IsOpen(s.open, bank)
    ensures var ks, x := Entry(s.open, bank).credited, LeftOf(s, k) + RightOf(s, k);
      && Occurs(ks, k) <= 1
      && BonusOf(s, k) <= Slack(threat.worth, x + 1.0)
      && (k in ks ==> bank == k.bank && BonusOf(s, k) <= Slack(threat.worth, x))
  {
    hide Slack;
    hide Hits, BelowThreshold, Intact;
    EntryBank(s.open, bank);
    NearHits(c, bank, Entry(s.open, bank).row, k);
    var x := LeftOf(s, k) + RightOf(s, k);
    SlackGrows(threat.worth, x + 1.0 - Pending(s, k), x + 1.0);
    if k in Entry(s.open, bank).credited { assert x + 1.0 - Pending(s, k) == x; }
  }

  /** The bonus a settled dwell adds stays within the one hammer that was pending. */
  lemma {:induction false} SettledBonus(c: Config, s: State, bank: BankKey, clk: int, k: Key, threat: Threat)
    requires Protected(c, k, threat) && Guarded(c, s, k, threat) && IsOpen(s.open, bank)
    requires c.Factor(clk - Entry(s.open, bank).clk) <= threat.worth
    ensures var t := Settle(c, s, bank, clk);
      && Intact(c, t, k)
      && (bank == k.bank ==> BonusOf(t, k) <= Slack(threat.worth, LeftOf(s, k) + RightOf(s, k) + 1.0))
      && (bank != k.bank ==> BonusOf(t, k) == BonusOf(s, k))
  {
    hide Slack;
    hide AddBonusAll, BelowThreshold, Intact, Occurs;
    BeforeSettling(c, s, bank, k, threat);
    SidesFit(c, s, k, threat);
    var e := Entry(s.open, bank);
    var removed := s.(open := Remove(s.open, bank));
    var extra := c.Factor(clk - e.clk) - 1.0;
    var l, r, b := LeftOf(s, k), RightOf(s, k), BonusOf(s, k);
    IntactAnyOpen(c, s, removed, k);
    hide OpenExact, CountersBounded, Pending, Remove, Entry, IsOpen;
    if extra > 0.0 {
      if k in e.credited {
        var x := l + r + 1.0;
        SlackMore(threat.worth, l + r);
        ProtectedBelow(c, k, threat, l, r, b + extra, x);
      }
      AddBonusAllBelow(c, removed, e.credited, extra, k);
    }
  }

  lemma {:induction false} SidesFit(c: Config, s: State, k: Key, threat: Threat)
    requires Guarded(c, s, k, threat)
    ensures var l, r, p := LeftOf(s, k), RightOf(s, k), Period(c);
      && 0.0 <= l <= (p - 1) as real && 0.0 <= r <= (p - 1) as real
      && l + r + 1.0 <= (2 * p - 1) as real
      && (l == 0.0 || r == 0.0 ==> l + r + 1.0 <= p as real)
  {
    hide Intact, OpenExact;
    assert 0 <= Acts(s, LeftNeighbour(k)) < Period(c) && 0 <= Acts(s, RightNeighbour(k)) < Period(c);
  }

  lemma {:induction false} IntactAnyOpen(c: Config, s: State, t: State, k: Key)
    requires Intact(c, s, k) && t.victims == s.victims
    ensures Intact(c, t, k)
  {
  }

  lemma {:induction false} SettleAllGuarded(c: Config, s: State, banks: seq<BankKey>, clk: int, k: Key, threat: Threat)
    requires Protected(c, k, threat) && Guarded(c, s, k, threat) && Unique(s.open)
    requires forall b :: b in banks && IsOpen(s.open, b) ==> c.Factor(clk - Entry(s.open, b).clk) <= threat.worth
    ensures Guarded(c, SettleAll(c, s, banks, clk), k, threat)
    decreases |banks|
  {
    hide Settle, Guarded, Protected, Config.Factor;
    if banks != [] {
      var x := banks[0];
      var t := if IsOpen(s.open, x) then Settle(c, s, x, clk) else s;
      if IsOpen(s.open, x) {
        SettleGuarded(c, s, x, clk, k, threat);
        SettleEffect(c, s, x, clk, k);
        RemoveUnique(s.open, x);
        forall b | b in banks[1..] && IsOpen(t.open, b)
          ensures c.Factor(clk - Entry(t.open, b).clk) <= threat.worth
        {
          RemoveFacts(s.open, x, b);
        }
      }
      SettleAllGuarded(c, t, banks[1..], clk, k, threat);
    }
  }

  // ---- one activation -------------------------------------------------------------------------------------

  /** 1 when activating `row` of `bank` exposes `k` from the given side. */
  function Side(bank: BankKey, row: int, k: Key, left: bool): int {
    if k.bank == bank && k.row == (if left then row + 1 else row - 1) then 1 else 0
  }

  /** Crediting a guarded row leaves it below threshold. */
  lemma {:induction false} CreditGuarded(c: Config, s: State, e: Event, k: Key, threat: Threat)
    requires Protected(c, k, threat) && Guarded(c, s, k, threat)
    requires Permits(threat, Key(e.bank, e.row), k)
    ensures var t := CreditAll(c, s, Hits(c, e.bank, e.row, c.blast));
      && Intact(c, t, k)
      && LeftOf(t, k) == LeftOf(s, k) + Side(e.bank, e.row, k, true) as real
      && RightOf(t, k) == RightOf(s, k) + Side(e.bank, e.row, k, false) as real
      && BonusOf(t, k) <= Slack(threat.worth, LeftOf(s, k) + RightOf(s, k) + 1.0)
      && SameBooks(s, t)
  {
    hide Slack;
    hide Hits, CreditAll, BelowThreshold, Intact;
    var hits := Hits(c, e.bank, e.row, c.blast);
    var l, r, x := LeftOf(s, k), RightOf(s, k), LeftOf(s, k) + RightOf(s, k) + 1.0;
    NearHits(c, e.bank, e.row, k);
    SidesFit(c, s, k, threat);
    CreditAllEffect(c, s, hits, k);
    assert 0.0 <= Pending(s, k);
    SlackGrows(threat.worth, x - Pending(s, k), x);
    if k in Keys(hits) {
      ProtectedBelow(c, k, threat, l + Side(e.bank, e.row, k, true) as real, r + Side(e.bank, e.row, k, false) as real,
                     BonusOf(s, k), x);
      CreditAllBelow(c, s, hits, k);
    } else {
      CreditAllElsewhere(c, s, hits, k);
    }
  }

  lemma {:induction false} CreditAllElsewhere(c: Config, s: State, hits: seq<Hit>, k: Key)
    requires Intact(c, s, k) && k !in Keys(hits)
    ensures Intact(c, CreditAll(c, s, hits), k)
    decreases |hits|
  {
    hide Credit, Intact;
    if hits != [] {
      assert Keys(hits)[0] == hits[0].key && Keys(hits)[1..] == Keys(hits[1..]);
      CreditBystander(c, s, hits[0], k);
      BystanderIntact(c, s, Credit(c, s, hits[0]), k);
      CreditAllElsewhere(c, Credit(c, s, hits[0]), hits[1..], k);
    }
  }

  /** After crediting, the invariant holds with the activation not yet counted by the oracle. */
  lemma {:induction false} CreditedBounded(c: Config, s: State, e: Event, k: Key, threat: Threat)
    requires Protected(c, k, threat) && Guarded(c, s, k, threat)
    requires Permits(threat, Key(e.bank, e.row), k)
    requires StepWithin(c, s, Issue(e), threat.worth) && Opens(Issue(e), e.bank)
    ensures var t := Credited(c, s, e);
      Bounded(c, t, k, threat, Side(e.bank, e.row, k, true), Side(e.bank, e.row, k, false))
  {
    hide Settle, CreditAll, Hits, Intact, Protected, Guarded, Bounded;
    var reopen := IsOpen(s.open, e.bank) && Entry(s.open, e.bank).row != e.row;
    if reopen { SettleGuarded(c, s, e.bank, e.clk, k, threat); }
    PutBounded(c, if reopen then Settle(c, s, e.bank, e.clk) else s, e, k, threat);
  }

  lemma {:induction false} PutBounded(c: Config, s: State, e: Event, k: Key, threat: Threat)
    requires Protected(c, k, threat) && Guarded(c, s, k, threat)
    requires Permits(threat, Key(e.bank, e.row), k)
    ensures var hits := Hits(c, e.bank, e.row, c.blast);
      var u := CreditAll(c, s, hits);
      var t := u.(open := Put(u.open, OpenRow(e.bank, e.row, e.clk, Keys(hits))));
      Bounded(c, t, k, threat, Side(e.bank, e.row, k, true), Side(e.bank, e.row, k, false))
  {
    hide Slack;
    hide CreditAll, Hits, Intact, OpenExact, CountersBounded;
    var hits := Hits(c, e.bank, e.row, c.blast);
    var u := CreditAll(c, s, hits);
    var t := u.(open := Put(u.open, OpenRow(e.bank, e.row, e.clk, Keys(hits))));
    var x := LeftOf(s, k) + RightOf(s, k) + 1.0;
    CreditGuarded(c, s, e, k, threat);
    CreditAllEffect(c, s, hits, k);
    IntactAnyOpen(c, u, t, k);
    PendingAfter(c, s, u, e, k);
    if e.bank == k.bank {
      assert LeftOf(t, k) + RightOf(t, k) + 1.0 - Pending(t, k) == x;
    } else {
      NearHits(c, e.bank, e.row, k);
      assert LeftOf(t, k) + RightOf(t, k) + 1.0 - Pending(t, k) == x - Pending(s, k);
    }
  }

  lemma {:induction false} PendingAfter(c: Config, s: State, u: State, e: Event, k: Key)
    requires c.blast == [Ring(1, 1.0)] && c.RowExists(k.row) && u.open == s.open
    ensures var ks := Keys(Hits(c, e.bank, e.row, c.blast));
      var t := u.(open := Put(u.open, OpenRow(e.bank, e.row, e.clk, ks)));
      Pending(t, k) == if e.bank != k.bank then Pending(s, k)
                       else (Side(e.bank, e.row, k, true) + Side(e.bank, e.row, k, false)) as real
  {
    hide Hits;
    NearHits(c, e.bank, e.row, k);
    PutFacts(u.open, OpenRow(e.bank, e.row, e.clk, Keys(Hits(c, e.bank, e.row, c.blast))), k.bank);
  }

  lemma {:induction false} CreditedOpenExact(c: Config, s: State, e: Event)
    requires OpenExact(c, s.open)
    ensures OpenExact(c, Credited(c, s, e).open)
  {
    hide Credited, Hits;
    var t := Credited(c, s, e);
    CreditedOpen(c, s, e, e.bank);
    forall b
      ensures IsOpen(t.open, b) ==> Entry(t.open, b).credited == Keys(Hits(c, b, Entry(t.open, b).row, c.blast))
    {
      CreditedOpen(c, s, e, b);
    }
  }

  lemma {:induction false} CreditedCounters(c: Config, s: State, e: Event)
    requires CountersBounded(c, s)
    ensures CountersBounded(c, Credited(c, s, e))
  {
    hide Credited;
    CreditedEffect(c, s, e, Key(e.bank, 0));
    forall g ensures Acts(Credited(c, s, e), g) == Acts(s, g) {}
  }

  /** The oracle counts the activation and refreshes both neighbours when its period is reached. */
  lemma {:induction false} OracleBounded(c: Config, s: State, bank: BankKey, row: int, k: Key, threat: Threat)
    requires Protected(c, k, threat) && OpenExact(c, s.open) && CountersBounded(c, s)
    requires Bounded(c, s, k, threat, Side(bank, row, k, true), Side(bank, row, k, false))
    ensures Guarded(c, OracleOnAct(c, s, bank, row), k, threat)
  {
    hide Slack;
    hide OracleOnAct, Intact, OpenExact, ClearVictims;
    var g, t := Key(bank, row), OracleOnAct(c, s, bank, row);
    OracleBooks(c, s, g, k);
    OracleSides(c, s, g, k);
    forall h ensures 0 <= Acts(t, h) < Period(c) { OracleBooks(c, s, g, h); }
    OracleBooks(c, s, g, LeftNeighbour(k));
    OracleBooks(c, s, g, RightNeighbour(k));
    OracleIntact(c, s, bank, row, k);
    NearRings(c, g, k);
    hide Neighbours;
    if Acts(s, g) + 1 >= c.tRH && Neighbours(c, g, k) {
      assert Pending(t, k) <= 1.0;
      SlackGrows(threat.worth, 0.0, LeftOf(t, k) + RightOf(t, k) + 1.0 - Pending(t, k));
      SlackMore(threat.worth, 0.0);
    }
  }

  lemma {:induction false} NearRings(c: Config, g: Key, k: Key)
    requires c.blast == [Ring(1, 1.0)]
    ensures Neighbours(c, g, k) <==> g.bank == k.bank && (k.row == g.row + 1 || k.row == g.row - 1)
  {
    assert c.blast[1..] == [];
    assert forall d: int :: HasRing(c.blast, d) == (c.blast[0].distance == d || HasRing([], d));
  }

  lemma {:induction false} ClearIntact(c: Config, s: State, hits: seq<Hit>, k: Key)
    requires Intact(c, s, k)
    ensures Intact(c, ClearVictims(s, hits), k)
    decreases |hits|
  {
    if hits != [] { ClearIntact(c, ClearVictim(s, hits[0].key), hits[1..], k); }
  }

  lemma {:induction false} OracleIntact(c: Config, s: State, bank: BankKey, row: int, k: Key)
    requires Intact(c, s, k)
    ensures Intact(c, OracleOnAct(c, s, bank, row), k)
  {
    hide ClearVictims, Hits;
    ClearIntact(c, s.(oracleActs := s.oracleActs[Key(bank, row) := 0]), Hits(c, bank, row, c.blast), k);
  }

  // ---- every action ---------------------------------------------------------------------------------------

  lemma {:induction false} GuardedParts(c: Config, s: State, k: Key, threat: Threat)
    requires Guarded(c, s, k, threat)
    ensures OpenExact(c, s.open) && CountersBounded(c, s)
  {
  }

  lemma {:induction false} HammerGuarded(c: Config, s: State, e: Event, k: Key, threat: Threat)
    requires Protected(c, k, threat) && Guarded(c, s, k, threat)
    requires Classify(e.op) == Hammer && StepWithin(c, s, Issue(e), threat.worth)
    requires e.row >= 0 ==> Permits(threat, Key(e.bank, e.row), k)
    ensures Guarded(c, HammerStep(c, s, e), k, threat)
  {
    if e.row < 0 {
      IdleHammer(c, s, e);
    } else {
      HammerSplit(c, s, e);
      hide HammerStep, Credited, OracleOnAct, Guarded, Bounded, OpenExact, CountersBounded;
      CreditedBounded(c, s, e, k, threat);
      GuardedParts(c, s, k, threat);
      CreditedOpenExact(c, s, e);
      CreditedCounters(c, s, e);
      OracleBounded(c, Credited(c, s, e), e.bank, e.row, k, threat);
    }
  }

  lemma {:induction false} RefreshIntact(c: Config, s: State, bank: BankKey, k: Key)
    requires Intact(c, s, k)
    ensures Intact(c, RefreshStep(c, s, bank), k)
  {
    hide WindowDone;
  }

  lemma {:induction false} RefreshGuarded(c: Config, s: State, bank: BankKey, k: Key, threat: Threat)
    requires Protected(c, k, threat) && Guarded(c, s, k, threat)
    ensures Guarded(c, RefreshStep(c, s, bank), k, threat)
  {
    hide Slack;
    hide RefreshStep, Intact, OpenExact, WindowDone;
    var t := RefreshStep(c, s, bank);
    RefreshIntact(c, s, bank, k);
    RefreshCounts(c, s, bank, k.bank);
    forall g ensures 0 <= Acts(t, g) < Period(c) { RefreshClears(c, s, bank, g); }
    RefreshClears(c, s, bank, k);
    RefreshClears(c, s, bank, LeftNeighbour(k));
    RefreshClears(c, s, bank, RightNeighbour(k));
    var p := Pending(s, k);
    assert 0.0 <= p <= 1.0 && Pending(t, k) == p;
    hide Pending;
    SlackGrows(threat.worth, 0.0, 1.0 - p);
    SlackMore(threat.worth, 0.0);
    assert LeftOf(t, k) == 0.0 && RightOf(t, k) == 0.0 ==> LeftOf(t, k) + RightOf(t, k) + 1.0 - p == 1.0 - p;
  }

  lemma {:induction false} RestoreCells(s: State, addr: int, size: nat, k: Key)
    ensures CellsOf(Restore(s, addr, size), k) <= CellsOf(s, k)
  {
    if size > 0 {
      RestoreCells(s, addr, size - 1, k);
      RestoreByteCells(Restore(s, addr, size - 1), addr + size - 1, k);
      hide RestoreByte;
    }
  }

  lemma {:induction false} RestoreByteCells(s: State, a: int, k: Key)
    ensures CellsOf(RestoreByte(s, a), k) <= CellsOf(s, k)
  {
  }

  lemma {:induction false} BystanderGuarded(c: Config, s: State, t: State, k: Key, threat: Threat)
    requires Guarded(c, s, k, threat) && t.open == s.open && t.oracleActs == s.oracleActs
    requires SameAt(s, t, k) && CellsOf(t, k) <= CellsOf(s, k)
    ensures Guarded(c, t, k, threat)
  {
    hide Slack;
    forall g ensures Acts(t, g) == Acts(s, g) {}
    assert Pending(t, k) == Pending(s, k);
  }

  lemma {:induction false} ActionGuarded(c: Config, s: State, a: Action, k: Key, threat: Threat)
    requires Protected(c, k, threat) && Guarded(c, s, k, threat)
    requires StepWithin(c, s, a, threat.worth) && (IsActivation(a) ==> Permits(threat, Aggressor(a), k))
    ensures Guarded(c, ActionStep(c, s, a), k, threat)
  {
    hide HammerStep, SettleAll, RefreshStep, Restore, Classify, Guarded, Protected, StepWithin, Permits;
    match a
    case Issue(e) =>
      if Classify(e.op) == Hammer { HammerGuarded(c, s, e, k, threat); }
      if Classify(e.op) == Close { CloseGuarded(c, s, e, k, threat); }
      RefreshGuarded(c, s, e.bank, k, threat);
    case Overwrite(addr, size) =>
      RestoreEffect(s, addr, size, k);
      RestoreCells(s, addr, size, k);
      BystanderGuarded(c, s, Restore(s, addr, size), k, threat);
    case Written(j, data) => BystanderGuarded(c, s, NoteWrite(s, j, data), k, threat);
  }

  lemma {:induction false} CloseGuarded(c: Config, s: State, e: Event, k: Key, threat: Threat)
    requires Protected(c, k, threat) && Guarded(c, s, k, threat)
    requires Classify(e.op) == Close && StepWithin(c, s, Issue(e), threat.worth)
    ensures Guarded(c, SettleAll(c, s, ClosedBanks(s.open, e.bank), e.clk), k, threat)
  {
    hide SettleAll, Protected, Config.Factor;
    GuardedParts(c, s, k, threat);
    hide Guarded, OpenExact;
    var banks := ClosedBanks(s.open, e.bank);
    forall b | b in banks && IsOpen(s.open, b) ensures c.Factor(e.clk - Entry(s.open, b).clk) <= threat.worth {
      ClosedBanksExact(s.open, e.bank, b);
      assert Covers(Issue(e), b);
    }
    SettleAllGuarded(c, s, banks, e.clk, k, threat);
  }

  lemma {:induction false} RunStepWithin(c: Config, run: seq<Action>, m: nat, n: nat, worth: real)
    requires m < n <= |run| && DwellsWithin(c, run, n, worth)
    ensures StepWithin(c, RunTo(c, run, m), run[m], worth)
  {
    hide RunTo, DwellsWithin, Covers, Opens, Config.Factor;
    var s, a := RunTo(c, run, m), run[m];
    if a.Issue? {
      forall b | IsOpen(s.open, b) && (Covers(a, b) || (Opens(a, b) && a.event.row != Entry(s.open, b).row))
        ensures c.Factor(a.event.clk - Entry(s.open, b).clk) <= worth
      {
        SettledWithin(c, run, m, n, b, worth);
      }
    }
  }

  lemma {:induction false} RunGuarded(c: Config, run: seq<Action>, n: nat, k: Key, threat: Threat)
    requires n <= |run| && Protected(c, k, threat) && Threatens(c, run, n, k, threat)
    ensures Guarded(c, RunTo(c, run, n), k, threat)
  {
    hide ActionStep, Permits, Settles;
    if n > 0 {
      hide Guarded, Protected;
      RunGuarded(c, run, n - 1, k, threat);
      RunStepWithin(c, run, n - 1, n, threat.worth);
      ActionGuarded(c, RunTo(c, run, n - 1), run[n - 1], k, threat);
    }
  }

  /** A protected row never holds a flipped cell, in any run that stays within the threat. */
  lemma {:induction false} ProtectedNeverFlips(c: Config, run: seq<Action>, n: nat, k: Key, threat: Threat)
    requires n <= |run| && Protected(c, k, threat) && Threatens(c, run, n, k, threat)
    ensures CellsOf(RunTo(c, run, n), k) == {}
  {
    hide RunTo, Threatens;
    RunGuarded(c, run, n, k, threat);
  }

  /** Every run stays within what the profile says a dwell is worth at most. */
  lemma {:induction false} ProfileDwells(c: Config, run: seq<Action>, n: nat, worth: real)
    requires n <= |run| && worth >= 1.0 && (c.rowPress.Some? ==> c.rowPress.value <= worth)
    ensures DwellsWithin(c, run, n, worth)
  {
    hide Config.Factor, Settles;
    forall dwell ensures c.Factor(dwell) <= worth { FactorBound(c, worth, dwell); }
  }

  /** The simple sufficient condition: the period's worth of dwell-lengthened activations on both sides
      stays within the double-sided threshold, and on one side below the single-sided one. */
  lemma {:induction false} ScaledPeriodProtects(c: Config, k: Key, rho: real)
    requires c.oracle && c.blast == [Ring(1, 1.0)] && c.RowExists(k.row)
    requires rho >= 1.0
    requires forall ones :: rho * (2 * Period(c)) as real <= c.Threshold(k, true, ones) as real
    requires forall ones :: rho * Period(c) as real < c.Threshold(k, false, ones) as real
    ensures Protected(c, k, Threat(rho, true, true))
  {
    hide Slack;
    SlackIs(rho, (2 * Period(c) - 1) as real);
    SlackIs(rho, Period(c) as real);
    var p := Period(c) as real;
    assert (2 * Period(c) - 1) as real == (2 * Period(c)) as real - 1.0;
    Distribute(rho, (2 * Period(c)) as real);
  }

  lemma {:induction false} SlackIs(rho: real, x: real)
    ensures Slack(rho, x) == rho * x - x
  {
  }

  lemma {:induction false} Distribute(rho: real, x: real)
    ensures rho * (x - 1.0) == rho * x - rho
  {
  }

  /** The oracle threshold when none is configured. */
  function DefaultTRH(knownThreshold: int): int {
    if knownThreshold * 2 / 5 > 1 then knownThreshold * 2 / 5 else 1
  }

  lemma {:induction false} DefaultIsProtected(c: Config, rho: real)
    requires c.oracle && c.blast == [Ring(1, 1.0)] && c.RowExists(c.knownKey.row) && 1.0 <= rho <= 1.25
    requires c.tRH == DefaultTRH(c.knownThreshold)
    requires c.knownSingle >= c.knownThreshold && c.knownSingle >= 2
    ensures Protected(c, c.knownKey, Threat(rho, true, true))
  {
    hide Slack;
    var t: int, p: int := c.knownThreshold, Period(c);
    assert p == 1 || 5 * p <= 2 * t;
    AtMostQuarterMore(rho, (2 * p - 1) as real);
    AtMostQuarterMore(rho, p as real);
    assert p >= 2 ==> (2 * p - 2) as real + 0.25 * (2 * p - 1) as real < t as real;
    assert 1.25 * p as real < c.knownSingle as real;
  }

  lemma {:induction false} AtMostQuarterMore(rho: real, x: real)
    requires 0.0 <= x && rho <= 1.25
    ensures Slack(rho, x) <= 0.25 * x
  {
  }

  /** The default threshold, two fifths of the calibrated one, protects the known target in every run whose
      dwells are worth at most a quarter more than an ordinary activation, whatever the profile says of longer
      ones. */
  lemma {:induction false} DefaultProtectsKnownTarget(c: Config, run: seq<Action>, n: nat, rho: real)
    requires n <= |run| && c.oracle && c.blast == [Ring(1, 1.0)] && c.RowExists(c.knownKey.row)
    requires 1.0 <= rho <= 1.25 && DwellsWithin(c, run, n, rho)
    requires c.tRH == DefaultTRH(c.knownThreshold)
    requires c.knownSingle >= c.knownThreshold && c.knownSingle >= 2
    ensures CellsOf(RunTo(c, run, n), c.knownKey) == {}
  {
    hide ActionStep, Protected, DwellsWithin;
    DefaultIsProtected(c, rho);
    ProtectedNeverFlips(c, run, n, c.knownKey, Threat(rho, true, true));
  }
}
