/** The dwell bonus as a function of the command history.

    A row's bonus is the sum, over the dwells settled since the row was last cleared, of what the dwell
    was worth beyond an ordinary activation. A dwell is settled by the first covering close or the first
    activation of another row in its bank, so each activation contributes at most once.

    The engine stops counting for a row that holds 64 flipped cells; where such a row occurs, the blocks of
    the rows must not overlap, so that it stays full until its turn comes. The blast radius exposes a row
    at most once per activation, as one whose distances are all different does. */
module BonusHistory {
  import opened DisturbanceModel
  import opened Exposures
  import opened History
  import opened OpenRows
  import opened Overlay
  import opened HammerOutcome
  import opened OracleProtection

  /** What a dwell is worth beyond an ordinary activation. */
  function Extra(c: Config, dwell: int): real {
    if c.Factor(dwell) > 1.0 then c.Factor(dwell) - 1.0 else 0.0
  }

  /** Action `j` settles the open row of bank `b`. */
  ghost predicate SettlesBank(run: seq<Action>, j: nat, b: BankKey)
    requires j < |run|
  {
    StillOpen(run, j, b) && Settles(run, j, LatestOpen(run, j, b) - 1, b)
  }

  /** Row `k` holds as many flipped cells as a row can. */
  predicate Full(s: State, k: Key) { |CellsOf(s, k)| >= MAX_BITS }

  /** If the row is full, then its cells are not taken by another row. */
  ghost predicate Countable(c: Config, s: State, rowOf: int -> Key, k: Key) {
    Full(s, k) ==> Sound(c, s) && RowBlocks(c, s, rowOf)
  }

  /** What action `j` adds to the bonus of row `k`: the extra worth of the dwell it settles in the row's
      bank, if the activation exposed the row and the row is not full. */
  ghost function Earned(c: Config, run: seq<Action>, j: nat, k: Key): real
    requires j < |run|
  {
    if !SettlesBank(run, j, k.bank) || Full(RunTo(c, run, j), k) then 0.0
    else
      var i := LatestOpen(run, j, k.bank) - 1;
      if k in Keys(Hits(c, k.bank, run[i].event.row, c.blast))
      then Extra(c, run[j].event.clk - run[i].event.clk)
      else 0.0
  }

  ghost function EarnedSince(c: Config, run: seq<Action>, lo: nat, n: nat, k: Key): real
    requires n <= |run|
  {
    if n <= lo then 0.0 else EarnedSince(c, run, lo, n - 1, k) + Earned(c, run, n - 1, k)
  }

  /** No activation exposes row `k` twice. */
  ghost predicate SingleHits(c: Config, k: Key) {
    forall row :: Occurs(Keys(Hits(c, k.bank, row, c.blast)), k) <= 1
  }

  // ---- settling ------------------------------------------------------------------------------------------

  lemma {:induction false} SubsetCount(a: set<Cell>, b: set<Cell>)
    requires a <= b
    ensures |a| <= |b|
  {
    if a != {} {
      var x :| x in a;
      SubsetCount(a - {x}, b - {x});
    }
  }

  /** What is added to the bonus of row `k` when `extra` is credited to it. */
  function Gain(s: State, k: Key, extra: real): real {
    if k in s.victims && !Full(s, k) then extra else 0.0
  }

  lemma {:induction false} AddBonusAllExact(c: Config, s: State, ks: seq<Key>, extra: real, rowOf: int -> Key, k: Key)
    requires Occurs(ks, k) <= 1 && Countable(c, s, rowOf, k)
    ensures var t := AddBonusAll(c, s, ks, extra);
      BonusOf(t, k) == BonusOf(s, k) + (if k in ks then Gain(s, k, extra) else 0.0)
    decreases |ks|
  {
    hide AddBonus, Countable, Full;
    if ks != [] {
      var t := AddBonus(c, s, ks[0], extra);
      OccursIn(ks[1..], k);
      if ks[0] == k {
        AddBonusOwn(c, s, k, extra);
        AddBonusAllEffect(c, t, ks[1..], extra, k);
      } else {
        AddBonusOther(c, s, ks[0], extra, rowOf, k);
        AddBonusAllExact(c, t, ks[1..], extra, rowOf, k);
      }
    }
  }

  lemma {:induction false} AddBonusOwn(c: Config, s: State, k: Key, extra: real)
    ensures BonusOf(AddBonus(c, s, k, extra), k) == BonusOf(s, k) + Gain(s, k, extra)
  {
    hide MaybeFlip;
    if k in s.victims && !Full(s, k) {
      var u := s.(victims := s.victims[k := s.victims[k].(bonus := s.victims[k].bonus + extra)]);
      MaybeFlipFlipsOnly(c, u, k);
      assert SameAt(u, MaybeFlip(c, u, k), k);
    }
  }

  /** Adding to the bonus of another row. */
  lemma {:induction false} AddBonusOther(c: Config, s: State, j: Key, extra: real, rowOf: int -> Key, k: Key)
    requires Countable(c, s, rowOf, k) && j != k
    ensures var t := AddBonus(c, s, j, extra);
      && Countable(c, t, rowOf, k) && (Full(t, k) <==> Full(s, k))
      && BonusOf(t, k) == BonusOf(s, k) && (k in t.victims <==> k in s.victims)
  {
    hide MaybeFlip, Sound, RowBlocks;
    var t := AddBonus(c, s, j, extra);
    AddBonusBystander(c, s, j, extra, k);
    SubsetCount(CellsOf(t, k), CellsOf(s, k));
    if Full(s, k) {
      AddBonusKeeps(c, s, j, extra);
      SameKeysSameBlocks(c, s, t, rowOf);
      AddBonusElsewhere(c, s, j, extra, rowOf, k);
    }
  }

  lemma {:induction false} AddBonusElsewhere(c: Config, s: State, j: Key, extra: real, rowOf: int -> Key, k: Key)
    requires Sound(c, s) && RowBlocks(c, s, rowOf) && j != k
    ensures CellsOf(AddBonus(c, s, j, extra), k) == CellsOf(s, k)
  {
    hide MaybeFlip, Sound, RowBlocks;
    if j in s.victims && |s.victims[j].cells| < MAX_BITS {
      var u := s.(victims := s.victims[j := s.victims[j].(bonus := s.victims[j].bonus + extra)]);
      RetouchKeeps(c, s, u);
      SameKeysSameBlocks(c, s, u, rowOf);
      MaybeFlipElsewhere(c, u, j, rowOf, k);
    }
  }

  /** Adding to the bonus of other rows only. */
  lemma {:induction false} AddBonusAllOther(c: Config, s: State, ks: seq<Key>, extra: real, rowOf: int -> Key, k: Key)
    requires Countable(c, s, rowOf, k) && k !in ks
    ensures var t := AddBonusAll(c, s, ks, extra); Countable(c, t, rowOf, k) && (Full(t, k) <==> Full(s, k))
    decreases |ks|
  {
    hide AddBonus, Countable, Full;
    if ks != [] {
      AddBonusOther(c, s, ks[0], extra, rowOf, k);
      AddBonusAllOther(c, AddBonus(c, s, ks[0], extra), ks[1..], extra, rowOf, k);
    }
  }

  /** Settling a bank adds the dwell's extra worth to the rows it exposed, and nothing to others. */
  lemma {:induction false} SettleBonus(c: Config, s: State, bank: BankKey, clk: int, rowOf: int -> Key, k: Key)
    requires OpenExact(c, s.open) && IsOpen(s.open, bank) && SingleHits(c, k) && Countable(c, s, rowOf, k)
    ensures var e, t := Entry(s.open, bank), Settle(c, s, bank, clk);
      && BonusOf(t, k) == BonusOf(s, k) + (if k in e.credited then Gain(s, k, Extra(c, clk - e.clk)) else 0.0)
      && (k in e.credited ==> k.bank == bank)
      && (k.bank != bank ==> Countable(c, t, rowOf, k) && (Full(t, k) <==> Full(s, k)))
  {
    hide AddBonusAll, Hits, Config.Factor, Countable, Full;
    var e := Entry(s.open, bank);
    var t := s.(open := Remove(s.open, bank));
    CreditedInBank(c, bank, e.row, k);
    CountableAnyOpen(c, s, t, rowOf, k);
    if c.Factor(clk - e.clk) > 1.0 {
      AddBonusAllExact(c, t, e.credited, c.Factor(clk - e.clk) - 1.0, rowOf, k);
      if k.bank != bank { AddBonusAllOther(c, t, e.credited, c.Factor(clk - e.clk) - 1.0, rowOf, k); }
    }
  }

  lemma {:induction false} CountableAnyOpen(c: Config, s: State, t: State, rowOf: int -> Key, k: Key)
    requires Countable(c, s, rowOf, k) && t == s.(open := t.open)
    ensures Countable(c, t, rowOf, k) && (Full(t, k) <==> Full(s, k))
  {
    hide Sound;
    if Full(s, k) {
      RetouchKeeps(c, s, t);
      SameKeysSameBlocks(c, s, t, rowOf);
    }
  }

  lemma {:induction false} CreditedInBank(c: Config, bank: BankKey, row: int, k: Key)
    requires SingleHits(c, k)
    ensures var ks := Keys(Hits(c, bank, row, c.blast));
      Occurs(ks, k) <= 1 && (k in ks ==> k.bank == bank && c.RowExists(k.row) && Neighbours(c, Key(bank, row), k))
  {
    hide Hits, HasRing, RingWeight, SideWeight;
    HitWeights(c, bank, row, c.blast, k);
    HitKeys(Hits(c, bank, row, c.blast), k);
    OccursIn(Keys(Hits(c, bank, row, c.blast)), k);
  }

  lemma {:induction false} SettleOpenExact(c: Config, s: State, bank: BankKey, clk: int)
    requires OpenExact(c, s.open) && IsOpen(s.open, bank)
    ensures OpenExact(c, Settle(c, s, bank, clk).open)
    ensures !IsOpen(Settle(c, s, bank, clk).open, bank)
  {
    hide Settle, Hits;
    var t := Settle(c, s, bank, clk);
    SettleEffect(c, s, bank, clk, Key(bank, 0));
    RemoveUnique(s.open, bank);
    RemoveFacts(s.open, bank, bank);
    forall b
      ensures IsOpen(t.open, b) ==> Entry(t.open, b).credited == Keys(Hits(c, b, Entry(t.open, b).row, c.blast))
    {
      RemoveFacts(s.open, bank, b);
    }
  }

  lemma {:induction false} SettleAllBonus(c: Config, s: State, banks: seq<BankKey>, clk: int, rowOf: int -> Key, k: Key)
    requires OpenExact(c, s.open) && SingleHits(c, k) && Countable(c, s, rowOf, k)
    ensures BonusOf(SettleAll(c, s, banks, clk), k) == BonusOf(s, k) +
      (if k.bank in banks && IsOpen(s.open, k.bank) && k in Entry(s.open, k.bank).credited
       then Gain(s, k, Extra(c, clk - Entry(s.open, k.bank).clk)) else 0.0)
    decreases |banks|
  {
    hide Settle, OpenExact, SingleHits, Extra, Countable, Full;
    if banks != [] {
      var b := banks[0];
      if IsOpen(s.open, b) {
        var t := Settle(c, s, b, clk);
        SettleBonus(c, s, b, clk, rowOf, k);
        SettleOpenExact(c, s, b, clk);
        if b == k.bank {
          ClosedBankEarnsNothing(c, t, banks[1..], clk, k);
        } else {
          OtherStaysOpen(c, s, b, clk, k);
          SettleAllBonus(c, t, banks[1..], clk, rowOf, k);
        }
      } else {
        SettleAllBonus(c, s, banks[1..], clk, rowOf, k);
      }
    }
  }

  lemma {:induction false} OtherStaysOpen(c: Config, s: State, b: BankKey, clk: int, k: Key)
    requires OpenExact(c, s.open) && IsOpen(s.open, b) && b != k.bank
    ensures var t := Settle(c, s, b, clk);
      && (IsOpen(t.open, k.bank) <==> IsOpen(s.open, k.bank))
      && (IsOpen(s.open, k.bank) ==> Entry(t.open, k.bank) == Entry(s.open, k.bank))
      && (k in t.victims <==> k in s.victims)
  {
    hide Settle, Hits;
    SettleEffect(c, s, b, clk, k);
    RemoveFacts(s.open, b, k.bank);
  }

  /** Settling banks other than the row's own, or a closed one, adds nothing to the row. */
  lemma {:induction false} ClosedBankEarnsNothing(c: Config, s: State, banks: seq<BankKey>, clk: int, k: Key)
    requires OpenExact(c, s.open) && SingleHits(c, k) && !IsOpen(s.open, k.bank)
    ensures BonusOf(SettleAll(c, s, banks, clk), k) == BonusOf(s, k)
    decreases |banks|
  {
    hide Settle, OpenExact, SingleHits;
    if banks != [] {
      var b := banks[0];
      if IsOpen(s.open, b) {
        OtherBankBonus(c, s, b, clk, k);
        SettleOpenExact(c, s, b, clk);
        OtherStaysOpen(c, s, b, clk, k);
      }
      ClosedBankEarnsNothing(c, if IsOpen(s.open, b) then Settle(c, s, b, clk) else s, banks[1..], clk, k);
    }
  }

  lemma {:induction false} OtherBankBonus(c: Config, s: State, b: BankKey, clk: int, k: Key)
    requires OpenExact(c, s.open) && SingleHits(c, k) && IsOpen(s.open, b) && b != k.bank
    ensures BonusOf(Settle(c, s, b, clk), k) == BonusOf(s, k)
  {
    hide AddBonusAll, Hits;
    var e := Entry(s.open, b);
    CreditedInBank(c, b, e.row, k);
    AddBonusAllEffect(c, s.(open := Remove(s.open, b)), e.credited, c.Factor(clk - e.clk) - 1.0, k);
  }

  // ---- one action -----------------------------------------------------------------------------------------

  /** What action `a` settles for row `k`, read off the open-row table. */
  function SettledBy(c: Config, s: State, a: Action, k: Key): real {
    if a.Issue? && !Full(s, k) && IsOpen(s.open, k.bank) && k in Entry(s.open, k.bank).credited
       && (Covers(a, k.bank) || (Opens(a, k.bank) && a.event.row != Entry(s.open, k.bank).row))
    then Extra(c, a.event.clk - Entry(s.open, k.bank).clk) else 0.0
  }

  lemma {:induction false} CreditedBonus(c: Config, s: State, e: Event, rowOf: int -> Key, k: Key)
    requires OpenExact(c, s.open) && SingleHits(c, k) && Countable(c, s, rowOf, k)
    requires IsOpen(s.open, k.bank) && k in Entry(s.open, k.bank).credited ==> k in s.victims
    requires e.row >= 0 && Classify(e.op) == Hammer
    ensures BonusOf(Credited(c, s, e), k) == BonusOf(s, k) + SettledBy(c, s, Issue(e), k)
  {
    hide Settle, CreditAll, Hits, OpenExact, SingleHits, Extra, Countable, Full;
    var reopen := IsOpen(s.open, e.bank) && Entry(s.open, e.bank).row != e.row;
    if reopen { SettleBonus(c, s, e.bank, e.clk, rowOf, k); }
    CreditAllEffect(c, if reopen then Settle(c, s, e.bank, e.clk) else s, Hits(c, e.bank, e.row, c.blast), k);
  }

  /** What one action does to the bonus of row `k`. */
  lemma {:induction false} ActionBonus(c: Config, run: seq<Action>, m: nat, rowOf: int -> Key, k: Key)
    requires m < |run| && SingleHits(c, k) && c.RowExists(k.row) && Countable(c, RunTo(c, run, m), rowOf, k)
    requires OpenExact(c, RunTo(c, run, m).open)
    requires var s := RunTo(c, run, m);
      IsOpen(s.open, k.bank) && k in Entry(s.open, k.bank).credited ==> k in s.victims
    ensures var s, t := RunTo(c, run, m), RunTo(c, run, m + 1);
      BonusOf(t, k) == if Clears(c, run, m, k) then 0.0 else BonusOf(s, k) + SettledBy(c, s, run[m], k)
  {
    hide HammerStep, SettleAll, RefreshStep, Restore, Classify, Fires, Neighbours, OpenExact, SingleHits, SettledBy,
         Countable;
    var s, a := RunTo(c, run, m), run[m];
    RefreshCountIsHistory(c, run, m, k.bank);
    hide RunTo;
    assert RunTo(c, run, m + 1) == ActionStep(c, s, a) by { RunStep(c, run, m); }
    match a
    case Issue(e) =>
      if IsActivation(a) {
        FiringIsHistory(c, run, m);
        HammerBonus(c, s, e, rowOf, k);
      } else {
        NoFiring(c, run, m);
        QuietBonus(c, s, e, rowOf, k);
        SameRankCount(s, e.bank, k.bank);
      }
    case Overwrite(addr, size) =>
      NoFiring(c, run, m);
      RestoreEffect(s, addr, size, k);
      NothingSettled(c, s, a, k);
    case Written(j, data) =>
      NoFiring(c, run, m);
      NothingSettled(c, s, a, k);
  }

  lemma {:induction false} RunStep(c: Config, run: seq<Action>, m: nat)
    requires m < |run|
    ensures RunTo(c, run, m + 1) == ActionStep(c, RunTo(c, run, m), run[m])
  {
    hide ActionStep;
  }

  lemma {:induction false} NothingSettled(c: Config, s: State, a: Action, k: Key)
    requires !a.Issue?
    ensures SettledBy(c, s, a, k) == 0.0
  {
  }

  lemma {:induction false} HammerBonus(c: Config, s: State, e: Event, rowOf: int -> Key, k: Key)
    requires OpenExact(c, s.open) && SingleHits(c, k) && c.RowExists(k.row) && Countable(c, s, rowOf, k)
    requires IsOpen(s.open, k.bank) && k in Entry(s.open, k.bank).credited ==> k in s.victims
    requires e.row >= 0 && Classify(e.op) == Hammer
    ensures var t, g := EventStep(c, s, e), Key(e.bank, e.row);
      BonusOf(t, k) == if Reaches(c, s, g) && Neighbours(c, g, k) then 0.0
                       else BonusOf(s, k) + SettledBy(c, s, Issue(e), k)
  {
    var u, g := Credited(c, s, e), Key(e.bank, e.row);
    assert EventStep(c, s, e) == HammerStep(c, s, e);
    HammerSplit(c, s, e);
    CreditedBonus(c, s, e, rowOf, k);
    hide Credited, OracleOnAct, HammerStep, EventStep, Classify, Neighbours, SettledBy, OpenExact, SingleHits,
         Countable;
    CreditedEffect(c, s, e, k);
    if c.oracle { OracleSides(c, u, g, k); }
  }

  lemma {:induction false} QuietBonus(c: Config, s: State, e: Event, rowOf: int -> Key, k: Key)
    requires OpenExact(c, s.open) && SingleHits(c, k) && Countable(c, s, rowOf, k)
    requires IsOpen(s.open, k.bank) && k in Entry(s.open, k.bank).credited ==> k in s.victims
    requires !IsActivation(Issue(e))
    ensures var t := EventStep(c, s, e);
      BonusOf(t, k) == if Classify(e.op) == Refresh && WindowDone(c, RefreshCount(s, e.bank) + 1) && InRank(k, e.bank)
                       then 0.0 else BonusOf(s, k) + SettledBy(c, s, Issue(e), k)
  {
    hide HammerStep, SettleAll, RefreshStep, Classify, OpenExact, SingleHits, Extra, Countable, Full, WindowDone,
         RefreshCount;
    if e.row < 0 { IdleHammer(c, s, e); }
    SettleAllBonus(c, s, ClosedBanks(s.open, e.bank), e.clk, rowOf, k);
    ClosedBanksExact(s.open, e.bank, k.bank);
    RefreshClears(c, s, e.bank, k);
  }

  // ---- every run ------------------------------------------------------------------------------------------

  lemma {:induction false} RunOpenExact(c: Config, run: seq<Action>, n: nat)
    requires n <= |run|
    ensures OpenExact(c, RunTo(c, run, n).open)
  {
    hide RunTo, Hits, StillOpen;
    OpenIsHistory(c, run, n, BankKey(0, 0, 0, 0));
    var open := RunTo(c, run, n).open;
    forall b ensures IsOpen(open, b) ==> Entry(open, b).credited == Keys(Hits(c, b, Entry(open, b).row, c.blast)) {
      OpenIsHistory(c, run, n, b);
    }
  }

  lemma {:induction false} ExposedByOpen(c: Config, run: seq<Action>, n: nat, k: Key)
    requires n <= |run| && SingleHits(c, k) && c.RowExists(k.row)
    ensures var s := RunTo(c, run, n);
      IsOpen(s.open, k.bank) && k in Entry(s.open, k.bank).credited ==> k in s.victims
  {
    hide RunTo, Hits, Neighbours, SingleHits;
    OpenIsHistory(c, run, n, k.bank);
    VictimsAreNeighbours(c, run, n, k);
    if IsOpen(RunTo(c, run, n).open, k.bank) {
      var i := LatestOpen(run, n, k.bank) - 1;
      CreditedInBank(c, k.bank, run[i].event.row, k);
      if k in Entry(RunTo(c, run, n).open, k.bank).credited { assert Exposes(c, run[i], k); }
    }
  }

  /** What the table says is settled is what the history says is earned. */
  lemma {:induction false} SettledIsEarned(c: Config, run: seq<Action>, m: nat, k: Key)
    requires m < |run|
    ensures SettledBy(c, RunTo(c, run, m), run[m], k) == Earned(c, run, m, k)
  {
    hide RunTo, Hits, Extra, Full;
    OpenIsHistory(c, run, m, k.bank);
  }

  lemma {:induction false} BonusStep(c: Config, run: seq<Action>, m: nat, rowOf: int -> Key, k: Key)
    requires m < |run| && SingleHits(c, k) && c.RowExists(k.row)
    requires Full(RunTo(c, run, m), k) ==> RowBlocks(c, RunTo(c, run, m), rowOf)
    ensures BonusOf(RunTo(c, run, m + 1), k) ==
      if Clears(c, run, m, k) then 0.0 else BonusOf(RunTo(c, run, m), k) + Earned(c, run, m, k)
  {
    hide SingleHits, Full, RowBlocks, Clears, OpenExact, Earned, SettledBy, Sound, RunTo, BonusOf;
    RunOpenExact(c, run, m);
    RunSound(c, run, m);
    ExposedByOpen(c, run, m, k);
    ActionBonus(c, run, m, rowOf, k);
    SettledIsEarned(c, run, m, k);
  }

  /** In every run a row's bonus is what the dwells settled since it was last cleared have earned it, those settled
      while it was full not counted. Where the row is full, the blocks of the victims must not overlap. */
  lemma {:induction false} BonusIsHistory(c: Config, run: seq<Action>, n: nat, rowOf: int -> Key, k: Key)
    requires n <= |run| && SingleHits(c, k) && c.RowExists(k.row)
    requires forall m :: 0 <= m < n && Full(RunTo(c, run, m), k) ==> RowBlocks(c, RunTo(c, run, m), rowOf)
    ensures BonusOf(RunTo(c, run, n), k) == EarnedSince(c, run, LastClear(c, run, n, k), n, k)
  {
    hide SingleHits, Full, RowBlocks, Clears, Earned;
    if n > 0 {
      hide RunTo, BonusOf;
      BonusIsHistory(c, run, n - 1, rowOf, k);
      BonusStep(c, run, n - 1, rowOf, k);
    }
  }

  /** Distances of a blast radius that are all different never expose a row twice. */
  predicate DistinctRings(rings: seq<Ring>) {
    rings == [] || (!HasRing(rings[1..], rings[0].distance) && DistinctRings(rings[1..]))
  }

  lemma {:induction false} RingOnce(c: Config, bank: BankKey, row: int, ring: Ring, k: Key)
    ensures var ks := Keys(RingHits(c, bank, row, ring));
      Occurs(ks, k) <= 1 && (k in ks ==> k.row - row == ring.distance || row - k.row == ring.distance)
  {
    var ks := Keys(RingHits(c, bank, row, ring));
    OccursShort(ks, k);
  }

  lemma {:induction false} RestHits(c: Config, bank: BankKey, row: int, rings: seq<Ring>, k: Key)
    ensures k in Keys(Hits(c, bank, row, rings)) ==> HasRing(rings, k.row - row) || HasRing(rings, row - k.row)
  {
    hide Hits, RingWeight, SideWeight, HasRing;
    HitWeights(c, bank, row, rings, k);
    HitKeys(Hits(c, bank, row, rings), k);
  }

  lemma {:induction false} RingApart(c: Config, bank: BankKey, row: int, rings: seq<Ring>, k: Key)
    requires rings != [] && DistinctRings(rings)
    ensures k in Keys(RingHits(c, bank, row, rings[0])) ==> k !in Keys(Hits(c, bank, row, rings[1..]))
  {
    hide RingHits, Hits, Keys;
    RingOnce(c, bank, row, rings[0], k);
    RestHits(c, bank, row, rings[1..], k);
    BackwardRing(rings[1..], row - k.row);
    BackwardRing(rings[1..], k.row - row);
  }

  lemma {:induction false} OccursRings(c: Config, bank: BankKey, row: int, rings: seq<Ring>, k: Key)
    requires DistinctRings(rings)
    ensures Occurs(Keys(Hits(c, bank, row, rings)), k) <= 1
  {
    if rings != [] {
      OccursRings(c, bank, row, rings[1..], k);
      RingOnce(c, bank, row, rings[0], k);
      RingApart(c, bank, row, rings, k);
      var ring, rest := RingHits(c, bank, row, rings[0]), Hits(c, bank, row, rings[1..]);
      assert Hits(c, bank, row, rings) == ring + rest;
      hide RingHits, Hits, Occurs, Keys, DistinctRings;
      KeysAppend(ring, rest);
      OccursAppend(Keys(ring), Keys(rest), k);
      OccursIn(Keys(ring), k);
      OccursIn(Keys(rest), k);
    }
  }

  lemma {:induction false} KeysAppend(xs: seq<Hit>, ys: seq<Hit>)
    ensures Keys(xs + ys) == Keys(xs) + Keys(ys)
  {
  }

  lemma {:induction false} BackwardRing(rings: seq<Ring>, d: int)
    ensures HasRing(rings, d) ==> d >= 1
  {
    if rings != [] { BackwardRing(rings[1..], d); }
  }

  lemma {:induction false} OccursAppend(xs: seq<Key>, ys: seq<Key>, k: Key)
    ensures Occurs(xs + ys, k) == Occurs(xs, k) + Occurs(ys, k)
  {
    if xs == [] {
      assert xs + ys == ys;
    } else {
      assert (xs + ys)[1..] == xs[1..] + ys;
      OccursAppend(xs[1..], ys, k);
    }
  }

  lemma {:induction false} DistinctIsSingle(c: Config, k: Key)
    requires DistinctRings(c.blast)
    ensures SingleHits(c, k)
  {
    hide Hits;
    forall row ensures Occurs(Keys(Hits(c, k.bank, row, c.blast)), k) <= 1 { OccursRings(c, k.bank, row, c.blast, k); }
  }
}
