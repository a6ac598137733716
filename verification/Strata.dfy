/** What a row's stratum is, and the shape of the profile's curves.

    A row's stored pattern is that of the last non-empty write to it. The pattern that counts for its
    thresholds is latched when the row is first exposed: whatever is written later, a victim keeps the
    stratum it was created with.

    The dwell factor is 1 up to the nominal dwell, rises from there and stays at the profile's reduction
    from the saturation dwell on. The number of bits a crossing flips rises with the ratio between the
    exposure and the threshold; a row that just reaches its threshold flips a single bit. */
module Strata {
  import opened DisturbanceModel
  import opened Exposures
  import opened History
  import opened HammerOutcome
  import Overlay

  // ---- the stored pattern --------------------------------------------------------------------------------

  /** Action `a` stores something in row `k`. */
  predicate Stores(a: Action, k: Key) { a.Written? && a.key == k && a.data != [] }

  predicate IsAllOnes(data: seq<int>) { forall i :: 0 <= i < |data| ==> data[i] == 0xFF }

  /** Row `k` holds only ones after the first `n` actions: its last stored data is all 0xFF. */
  predicate HoldsOnes(run: seq<Action>, n: nat, k: Key)
    requires n <= |run|
  {
    n > 0 && if Stores(run[n - 1], k) then IsAllOnes(run[n - 1].data) else HoldsOnes(run, n - 1, k)
  }

  // ---- transitions latch the stratum ----------------------------------------------------------------------

  /** Victims keep their stratum, and a new one takes the pattern stored in its row. */
  ghost predicate Latches(s: State, t: State) {
    && t.patterns == s.patterns && s.victims.Keys <= t.victims.Keys
    && forall k :: k in t.victims ==>
         t.victims[k].ones == if k in s.victims then s.victims[k].ones else PatternOnes(s, k)
  }

  lemma {:induction false} LatchesChain(s: State, t: State, u: State)
    requires Latches(s, t) && Latches(t, u)
    ensures Latches(s, u)
  {
  }

  lemma {:induction false} EmitAllLatches(s: State, k: Key, cells: seq<Cell>)
    requires k in s.victims
    ensures Latches(s, EmitAll(s, k, cells))
    decreases |cells|
  {
    if cells != [] {
      assert Latches(s, Emit(s, k, cells[0]));
      hide Emit, Latches;
      EmitAllLatches(Emit(s, k, cells[0]), k, cells[1..]);
      LatchesChain(s, Emit(s, k, cells[0]), EmitAll(s, k, cells));
    }
  }

  lemma {:induction false} MaybeFlipLatches(c: Config, s: State, k: Key)
    requires k in s.victims
    ensures Latches(s, MaybeFlip(c, s, k))
  {
    hide EmitAll, FlipPositions;
    var v := s.victims[k];
    if Crosses(v) {
      EmitAllLatches(s, k, FlipPositions(c, k, v, MultiplicityBits(c, v, Exposure(v) / ActiveThreshold(v) as real)));
    }
  }

  lemma {:induction false} FreshStratum(c: Config, s: State, k: Key)
    ensures FreshVictim(c, s, k).ones == PatternOnes(s, k)
  {
  }

  lemma {:induction false} TouchLatches(c: Config, s: State, h: Hit)
    ensures Latches(s, Touched(c, s, h))
  {
    FreshStratum(c, s, h.key);
    hide FreshVictim, PatternOnes;
  }

  lemma {:induction false} CreditLatches(c: Config, s: State, h: Hit)
    ensures Latches(s, Credit(c, s, h))
  {
    var u := Touched(c, s, h);
    assert Credit(c, s, h) == MaybeFlip(c, u, h.key) by { hide MaybeFlip; }
    hide MaybeFlip, Credit, Touched, Latches;
    TouchLatches(c, s, h);
    MaybeFlipLatches(c, u, h.key);
    LatchesChain(s, u, MaybeFlip(c, u, h.key));
  }

  lemma {:induction false} CreditAllLatches(c: Config, s: State, hits: seq<Hit>)
    ensures Latches(s, CreditAll(c, s, hits))
    decreases |hits|
  {
    hide Credit;
    if hits != [] {
      CreditLatches(c, s, hits[0]);
      CreditAllLatches(c, Credit(c, s, hits[0]), hits[1..]);
      LatchesChain(s, Credit(c, s, hits[0]), CreditAll(c, s, hits));
    }
  }

  lemma {:induction false} AddBonusAllLatches(c: Config, s: State, ks: seq<Key>, extra: real)
    ensures Latches(s, AddBonusAll(c, s, ks, extra))
    decreases |ks|
  {
    hide MaybeFlip;
    if ks != [] {
      var k, t := ks[0], AddBonus(c, s, ks[0], extra);
      if k in s.victims && |s.victims[k].cells| < MAX_BITS {
        var u := s.(victims := s.victims[k := s.victims[k].(bonus := s.victims[k].bonus + extra)]);
        MaybeFlipLatches(c, u, k);
        LatchesChain(s, u, t);
      }
      AddBonusAllLatches(c, t, ks[1..], extra);
      LatchesChain(s, t, AddBonusAll(c, s, ks, extra));
    }
  }

  lemma {:induction false} SettleLatches(c: Config, s: State, bank: BankKey, clk: int)
    requires IsOpen(s.open, bank)
    ensures Latches(s, Settle(c, s, bank, clk))
  {
    hide AddBonusAll;
    var e, t := Entry(s.open, bank), s.(open := Remove(s.open, bank));
    AddBonusAllLatches(c, t, e.credited, c.Factor(clk - e.clk) - 1.0);
    LatchesChain(s, t, AddBonusAll(c, t, e.credited, c.Factor(clk - e.clk) - 1.0));
  }

  lemma {:induction false} SettleAllLatches(c: Config, s: State, banks: seq<BankKey>, clk: int)
    ensures Latches(s, SettleAll(c, s, banks, clk))
    decreases |banks|
  {
    hide Settle;
    if banks != [] {
      var t := if IsOpen(s.open, banks[0]) then Settle(c, s, banks[0], clk) else s;
      if IsOpen(s.open, banks[0]) { SettleLatches(c, s, banks[0], clk); }
      SettleAllLatches(c, t, banks[1..], clk);
      LatchesChain(s, t, SettleAll(c, s, banks, clk));
    }
  }

  lemma {:induction false} ClearVictimsLatches(s: State, hits: seq<Hit>)
    ensures Latches(s, ClearVictims(s, hits))
    decreases |hits|
  {
    if hits != [] {
      ClearVictimsLatches(ClearVictim(s, hits[0].key), hits[1..]);
      LatchesChain(s, ClearVictim(s, hits[0].key), ClearVictims(s, hits));
    }
  }

  lemma {:induction false} OracleLatches(c: Config, s: State, bank: BankKey, row: int)
    ensures Latches(s, OracleOnAct(c, s, bank, row))
  {
    hide ClearVictims, Hits;
    ClearVictimsLatches(s.(oracleActs := s.oracleActs[Key(bank, row) := 0]), Hits(c, bank, row, c.blast));
  }

  lemma {:induction false} HammerLatches(c: Config, s: State, e: Event)
    ensures Latches(s, HammerStep(c, s, e))
  {
    hide Settle, CreditAll, OracleOnAct, Hits;
    if e.row >= 0 {
      var reopen := IsOpen(s.open, e.bank) && Entry(s.open, e.bank).row != e.row;
      if reopen { SettleLatches(c, s, e.bank, e.clk); }
      var t := if reopen then Settle(c, s, e.bank, e.clk) else s;
      var hits := Hits(c, e.bank, e.row, c.blast);
      CreditAllLatches(c, t, hits);
      var u := CreditAll(c, t, hits);
      var w := u.(open := Put(u.open, OpenRow(e.bank, e.row, e.clk, Keys(hits))));
      LatchesChain(s, t, w);
      OracleLatches(c, w, e.bank, e.row);
      LatchesChain(s, w, OracleOnAct(c, w, e.bank, e.row));
    }
  }

  lemma {:induction false} RefreshLatches(c: Config, s: State, bank: BankKey)
    ensures Latches(s, RefreshStep(c, s, bank))
  {
    hide WindowDone, ClearCounters;
  }

  lemma {:induction false} RestoreLatches(s: State, addr: int, size: nat)
    ensures Latches(s, Restore(s, addr, size))
  {
    if size > 0 {
      var t := Restore(s, addr, size - 1);
      RestoreLatches(s, addr, size - 1);
      assert Latches(t, RestoreByte(t, addr + size - 1));
      LatchesChain(s, t, RestoreByte(t, addr + size - 1));
    }
  }

  lemma {:induction false} EventLatches(c: Config, s: State, e: Event)
    ensures Latches(s, EventStep(c, s, e))
  {
    hide HammerStep, SettleAll, RefreshStep, Classify;
    HammerLatches(c, s, e);
    SettleAllLatches(c, s, ClosedBanks(s.open, e.bank), e.clk);
    RefreshLatches(c, s, e.bank);
  }

  // ---- every run ------------------------------------------------------------------------------------------

  /** The stored pattern of a row says all ones exactly when the last non-empty write to it was all ones. */
  lemma {:induction false} PatternIsLastWrite(c: Config, run: seq<Action>, n: nat, k: Key)
    requires n <= |run|
    ensures PatternOnes(RunTo(c, run, n), k) <==> HoldsOnes(run, n, k)
  {
    hide EventStep, Restore;
    if n > 0 {
      var s := RunTo(c, run, n - 1);
      PatternIsLastWrite(c, run, n - 1, k);
      match run[n - 1]
      case Issue(e) => EventLatches(c, s, e);
      case Overwrite(addr, size) => RestoreLatches(s, addr, size);
      case Written(j, data) =>
        if data != [] { assert data[0] == 0x00 ==> data[0] != 0xFF; }
    }
  }

  /** The position of the first action that exposes row `k`. */
  ghost function FirstExposure(c: Config, run: seq<Action>, n: nat, k: Key): (i: nat)
    requires n <= |run| && Exposed(c, run, n, k)
    ensures i < n && Exposes(c, run[i], k) && !Exposed(c, run, i, k)
  {
    if Exposed(c, run, n - 1, k) then FirstExposure(c, run, n - 1, k) else n - 1
  }

  /** A victim's stratum is latched: it is that of the data stored when its row was first exposed, for its
      thresholds at every later point of the run. */
  lemma {:induction false} StratumIsLatched(c: Config, run: seq<Action>, n: nat, k: Key)
    requires n <= |run| && k in RunTo(c, run, n).victims
    ensures Exposed(c, run, n, k)
    ensures RunTo(c, run, n).victims[k].ones <==> HoldsOnes(run, FirstExposure(c, run, n, k), k)
  {
    hide ActionStep, Exposes, HoldsOnes, Latches;
    VictimsAreNeighbours(c, run, n, k);
    var m := n - 1;
    VictimsAreNeighbours(c, run, m, k);
    ActionLatches(c, RunTo(c, run, m), run[m], k);
    if Exposed(c, run, m, k) {
      StratumIsLatched(c, run, m, k);
    } else {
      PatternIsLastWrite(c, run, m, k);
    }
  }

  /** A victim's thresholds and first bit are the calibrated ones for the known target, and otherwise those drawn
      for its row under the data stored there when it was first exposed. */
  lemma {:induction false} DrawnFromData(c: Config, run: seq<Action>, n: nat, k: Key)
    requires n <= |run| && k in RunTo(c, run, n).victims
    ensures Exposed(c, run, n, k)
    ensures var v, ones := RunTo(c, run, n).victims[k], HoldsOnes(run, FirstExposure(c, run, n, k), k);
      if k == c.knownKey
      then v.threshold == c.knownThreshold && v.single == c.knownSingle && v.firstBit == c.knownFirstBit
      else v.threshold == c.sample(k, true, ones) && v.single == c.sample(k, false, ones)
           && v.firstBit == c.sampleFirstBit(k)
  {
    hide RunTo, HoldsOnes, FirstExposure, Overlay.OwnersHold, Overlay.CellsOwned, Overlay.Window, Exposed;
    StratumIsLatched(c, run, n, k);
    Overlay.RunSound(c, run, n);
    assert Overlay.Latent(c, k, RunTo(c, run, n).victims[k]);
  }

  lemma {:induction false} ActionLatches(c: Config, s: State, a: Action, k: Key)
    requires k in ActionStep(c, s, a).victims
    ensures k in s.victims ==> ActionStep(c, s, a).victims[k].ones == s.victims[k].ones
    ensures k !in s.victims ==> ActionStep(c, s, a).victims[k].ones == PatternOnes(s, k)
  {
    hide EventStep, Restore;
    match a
    case Issue(e) => EventLatches(c, s, e);
    case Overwrite(addr, size) => RestoreLatches(s, addr, size);
    case Written(j, data) =>
  }

  // ---- the profile's curves -------------------------------------------------------------------------------

  /** How far a dwell is from the nominal to the saturation dwell, between 0 and 1. */
  function Fraction(d: int): (f: real)
    ensures 0.0 <= f <= 1.0 && (d >= DWELL_SATURATION ==> f == 1.0)
  {
    if d <= DWELL_NOMINAL then 0.0
    else if d >= DWELL_SATURATION then 1.0
    else (d - DWELL_NOMINAL) as real / (DWELL_SATURATION - DWELL_NOMINAL) as real
  }

  function Scaled(r: real, f: real): real { r * f }

  lemma {:induction false} ScaledRises(r: real, x: real, y: real)
    requires r >= 0.0 && x <= y
    ensures Scaled(r, x) <= Scaled(r, y) && Scaled(r, 0.0) == 0.0 && Scaled(r, 1.0) == r
  {
  }

  lemma {:induction false} FactorIs(c: Config, d: int)
    ensures c.Factor(d) == if c.rowPress.None? then 1.0 else 1.0 + Scaled(c.rowPress.value - 1.0, Fraction(d))
  {
    if c.rowPress.Some? && d > DWELL_NOMINAL {
      var f := (d - DWELL_NOMINAL) as real / (DWELL_SATURATION - DWELL_NOMINAL) as real;
      assert f < 1.0 <==> d < DWELL_SATURATION;
      assert c.Factor(d) == 1.0 + (c.rowPress.value - 1.0) * (if f < 1.0 then f else 1.0);
    }
  }

  lemma {:induction false} FactorLinear(c: Config, e: int)
    requires c.rowPress.Some? && DWELL_NOMINAL <= e <= DWELL_SATURATION
    ensures (c.Factor(e) - 1.0) * 99_488.0 == (c.rowPress.value - 1.0) * (e - DWELL_NOMINAL) as real
  {
    FactorIs(c, e);
    var r, f := c.rowPress.value - 1.0, Fraction(e);
    hide Config.Factor;
    assert f * 99_488.0 == (e - DWELL_NOMINAL) as real;
    Regroup(r, f, 99_488.0);
  }

  lemma {:induction false} Regroup(r: real, f: real, x: real)
    ensures Scaled(r, f) * x == r * (f * x)
  {
  }

  /** The dwell factor is 1 up to the nominal dwell, then rises in proportion to the excess, and is the profile's
      reduction from the saturation dwell on; without RowPress support it is always 1. */
  lemma {:induction false} FactorShape(c: Config, d: int, e: int)
    requires d <= e && (c.rowPress.Some? ==> c.rowPress.value >= 1.0)
    ensures 1.0 <= c.Factor(d) <= c.Factor(e)
    ensures d <= DWELL_NOMINAL || c.rowPress.None? ==> c.Factor(d) == 1.0
    ensures c.rowPress.Some? ==> c.Factor(e) <= c.rowPress.value
    ensures c.rowPress.Some? && e >= DWELL_SATURATION ==> c.Factor(e) == c.rowPress.value
    ensures c.rowPress.Some? && 512 <= e <= 100_000 ==>
      (c.Factor(e) - 1.0) * 99_488.0 == (c.rowPress.value - 1.0) * (e - 512) as real
  {
    hide Config.Factor, Scaled;
    if c.rowPress.Some? && DWELL_NOMINAL <= e <= DWELL_SATURATION { FactorLinear(c, e); }
    FactorIs(c, d);
    FactorIs(c, e);
    var x, y := Fraction(d), Fraction(e);
    assert x <= y && (d <= DWELL_NOMINAL ==> x == 0.0);
    if c.rowPress.Some? {
      var r := c.rowPress.value - 1.0;
      ScaledRises(r, 0.0, x);
      ScaledRises(r, x, y);
      ScaledRises(r, y, 1.0);
    }
  }

  lemma {:induction false} BitsAre(c: Config, v: Victim, ratio: real)
    ensures var gain := c.gain(DoubleSided(v), v.ones);
      gain.Some? ==> var n := 1 + Scaled(gain.value, Max(0.0, ratio - 1.0)).Floor;
        MultiplicityBits(c, v, ratio) == if n < MAX_BITS then n else MAX_BITS
  {
  }

  /** A row that just reaches its threshold flips one bit; more exposure never recruits fewer. */
  lemma {:induction false} MultiplicityShape(c: Config, v: Victim, x: real, y: real)
    requires x <= y
    ensures x <= 1.0 ==> MultiplicityBits(c, v, x) == 1
    ensures MultiplicityBits(c, v, x) <= MultiplicityBits(c, v, y) <= MAX_BITS
  {
    var gain := c.gain(DoubleSided(v), v.ones);
    if gain.Some? {
      hide MultiplicityBits, Scaled;
      BitsAre(c, v, x);
      BitsAre(c, v, y);
      ScaledRises(gain.value, Max(0.0, x - 1.0), Max(0.0, y - 1.0));
    }
  }
}
