/** Idle time with every row closed is invisible to the disturbance model.

    Two runs that differ only in how long the device sat idle at a moment when no row was open end in
    the same victims, overlay and counters. The clock enters the model only through the difference
    between an activation and the command that closes its row.

    The proof follows the two runs step by step: the states agree up to the clocks of the open rows,
    which in the later run are all later by the same time (`LaterOpen`), and every transition keeps
    that, because it looks at differences of clocks only. */
module IdleTime {
  import opened DisturbanceModel

  function LaterRow(e: OpenRow, d: int): OpenRow { e.(clk := e.clk + d) }

  function LaterOpen(open: seq<OpenRow>, d: int): seq<OpenRow> {
    if open == [] then [] else [LaterRow(open[0], d)] + LaterOpen(open[1..], d)
  }

  /** The same state with every open row activated `d` cycles later. */
  function Later(s: State, d: int): State { s.(open := LaterOpen(s.open, d)) }

  function LaterAction(a: Action, d: int): Action {
    match a
    case Issue(e) => Issue(e.(clk := e.clk + d))
    case Overwrite(addr, size) => a
    case Written(k, data) => a
  }

  // ---- flipping does not look at the open rows -----------------------------------------------------------

  lemma {:induction false} ReleaseAnyOpen(s: State, owner: Owner, o: seq<OpenRow>)
    ensures Release(s.(open := o), owner) == Release(s, owner).(open := o)
  {
    if owner.key in s.victims {
      if s.victims[owner.key].cells - {owner.cell} == {} {
        assert Release(s, owner).open == s.open;
      }
    }
  }

  lemma {:induction false} EmitAnyOpen(s: State, k: Key, cell: Cell, o: seq<OpenRow>)
    requires k in s.victims
    ensures Emit(s.(open := o), k, cell) == Emit(s, k, cell).(open := o)
  {
    hide Release;
    var a := s.victims[k].addr + cell.off;
    if a in s.owners && s.owners[a] != Owner(k, cell) { ReleaseAnyOpen(s, s.owners[a], o); }
  }

  lemma {:induction false} EmitAllAnyOpen(s: State, k: Key, cells: seq<Cell>, o: seq<OpenRow>)
    requires k in s.victims
    ensures EmitAll(s.(open := o), k, cells) == EmitAll(s, k, cells).(open := o)
    decreases |cells|
  {
    hide Emit;
    if cells != [] {
      EmitAnyOpen(s, k, cells[0], o);
      EmitAllAnyOpen(Emit(s, k, cells[0]), k, cells[1..], o);
    }
  }

  lemma {:induction false} MaybeFlipAnyOpen(c: Config, s: State, k: Key, o: seq<OpenRow>)
    requires k in s.victims
    ensures MaybeFlip(c, s.(open := o), k) == MaybeFlip(c, s, k).(open := o)
  {
    hide EmitAll, FlipPositions;
    var v := s.victims[k];
    if Crosses(v) {
      EmitAllAnyOpen(s, k, FlipPositions(c, k, v, MultiplicityBits(c, v, Exposure(v) / ActiveThreshold(v) as real)), o);
    }
  }

  lemma {:induction false} CreditAllAnyOpen(c: Config, s: State, hits: seq<Hit>, o: seq<OpenRow>)
    ensures CreditAll(c, s.(open := o), hits) == CreditAll(c, s, hits).(open := o)
    decreases |hits|
  {
    hide MaybeFlip, FreshVictim;
    if hits != [] {
      var h := hits[0];
      var t := WithVictim(c, s, h.key);
      var u := t.(victims := t.victims[h.key := AddExposure(t.victims[h.key], h.left, h.weight)]);
      FreshAnyOpen(c, s, h.key, o);
      MaybeFlipAnyOpen(c, u, h.key, o);
      assert Credit(c, s.(open := o), h) == Credit(c, s, h).(open := o);
      CreditAllAnyOpen(c, Credit(c, s, h), hits[1..], o);
    }
  }

  lemma {:induction false} FreshAnyOpen(c: Config, s: State, k: Key, o: seq<OpenRow>)
    ensures FreshVictim(c, s.(open := o), k) == FreshVictim(c, s, k)
  {
  }

  lemma {:induction false} AddBonusAllAnyOpen(c: Config, s: State, ks: seq<Key>, extra: real, o: seq<OpenRow>)
    ensures AddBonusAll(c, s.(open := o), ks, extra) == AddBonusAll(c, s, ks, extra).(open := o)
    decreases |ks|
  {
    hide MaybeFlip;
    if ks != [] {
      var k := ks[0];
      if k in s.victims && |s.victims[k].cells| < MAX_BITS {
        MaybeFlipAnyOpen(c, s.(victims := s.victims[k := s.victims[k].(bonus := s.victims[k].bonus + extra)]), k, o);
      }
      assert AddBonus(c, s.(open := o), k, extra) == AddBonus(c, s, k, extra).(open := o);
      AddBonusAllAnyOpen(c, AddBonus(c, s, k, extra), ks[1..], extra, o);
    }
  }

  lemma {:induction false} ClearVictimsAnyOpen(s: State, hits: seq<Hit>, o: seq<OpenRow>)
    ensures ClearVictims(s.(open := o), hits) == ClearVictims(s, hits).(open := o)
    decreases |hits|
  {
    if hits != [] {
      assert ClearVictim(s.(open := o), hits[0].key) == ClearVictim(s, hits[0].key).(open := o);
      ClearVictimsAnyOpen(ClearVictim(s, hits[0].key), hits[1..], o);
    }
  }

  lemma {:induction false} RestoreAnyOpen(s: State, addr: int, size: nat, o: seq<OpenRow>)
    ensures Restore(s.(open := o), addr, size) == Restore(s, addr, size).(open := o)
  {
    if size > 0 { RestoreAnyOpen(s, addr, size - 1, o); }
  }

  lemma {:induction false} OpenUntouched(c: Config, s: State, hits: seq<Hit>, ks: seq<Key>, extra: real)
    ensures CreditAll(c, s, hits).open == s.open && AddBonusAll(c, s, ks, extra).open == s.open
    ensures ClearVictims(s, hits).open == s.open
  {
    hide CreditAll, AddBonusAll, ClearVictims;
    CreditAllAnyOpen(c, s, hits, s.open);
    AddBonusAllAnyOpen(c, s, ks, extra, s.open);
    ClearVictimsAnyOpen(s, hits, s.open);
    assert s.(open := s.open) == s;
  }

  // ---- the table shifts as a whole ------------------------------------------------------------------------

  lemma {:induction false} LaterTable(open: seq<OpenRow>, b: BankKey, d: int)
    ensures IsOpen(LaterOpen(open, d), b) == IsOpen(open, b)
    ensures IsOpen(open, b) ==> Entry(LaterOpen(open, d), b) == LaterRow(Entry(open, b), d)
    ensures LaterOpen(Remove(open, b), d) == Remove(LaterOpen(open, d), b)
  {
    if open != [] { LaterTable(open[1..], b, d); }
  }

  lemma {:induction false} LaterPut(open: seq<OpenRow>, e: OpenRow, d: int)
    ensures LaterOpen(Put(open, e), d) == Put(LaterOpen(open, d), LaterRow(e, d))
  {
    if open != [] { LaterPut(open[1..], e, d); }
  }

  lemma {:induction false} LaterClosed(open: seq<OpenRow>, scope: BankKey, d: int)
    ensures ClosedBanks(LaterOpen(open, d), scope) == ClosedBanks(open, scope)
  {
    if open != [] { LaterClosed(open[1..], scope, d); }
  }

  lemma {:induction false} LaterSettle(c: Config, s: State, b: BankKey, clk: int, d: int)
    requires IsOpen(s.open, b)
    ensures IsOpen(Later(s, d).open, b) && Settle(c, Later(s, d), b, clk + d) == Later(Settle(c, s, b, clk), d)
  {
    hide AddBonusAll;
    LaterTable(s.open, b, d);
    var e, t := Entry(s.open, b), s.(open := Remove(s.open, b));
    var extra := c.Factor(clk - e.clk) - 1.0;
    AddBonusAllAnyOpen(c, t, e.credited, extra, LaterOpen(t.open, d));
    OpenUntouched(c, t, [], e.credited, extra);
  }

  lemma {:induction false} LaterSettleAll(c: Config, s: State, banks: seq<BankKey>, clk: int, d: int)
    ensures SettleAll(c, Later(s, d), banks, clk + d) == Later(SettleAll(c, s, banks, clk), d)
    decreases |banks|
  {
    hide Settle, Later;
    if banks != [] {
      var b := banks[0];
      SameOpenness(s, b, d);
      if IsOpen(s.open, b) { LaterSettle(c, s, b, clk, d); }
      LaterSettleAll(c, if IsOpen(s.open, b) then Settle(c, s, b, clk) else s, banks[1..], clk, d);
    }
  }

  lemma {:induction false} SameOpenness(s: State, b: BankKey, d: int)
    ensures IsOpen(Later(s, d).open, b) == IsOpen(s.open, b)
    ensures IsOpen(s.open, b) ==> Entry(Later(s, d).open, b).row == Entry(s.open, b).row
  {
    LaterTable(s.open, b, d);
  }

  lemma {:induction false} OracleAnyOpen(c: Config, s: State, bank: BankKey, row: int, o: seq<OpenRow>)
    ensures OracleOnAct(c, s.(open := o), bank, row) == OracleOnAct(c, s, bank, row).(open := o)
  {
    hide ClearVictims, Hits;
    assert Acts(s.(open := o), Key(bank, row)) == Acts(s, Key(bank, row));
    ClearVictimsAnyOpen(s.(oracleActs := s.oracleActs[Key(bank, row) := 0]), Hits(c, bank, row, c.blast), o);
  }

  lemma {:induction false} RefreshAnyOpen(c: Config, s: State, bank: BankKey, o: seq<OpenRow>)
    ensures RefreshStep(c, s.(open := o), bank) == RefreshStep(c, s, bank).(open := o)
    ensures RefreshStep(c, s, bank).open == s.open
  {
    hide ClearRank, ClearCounters, WindowDone;
    var count := RefreshCount(s, bank) + 1;
    assert RefreshCount(s.(open := o), bank) + 1 == count;
    if WindowDone(c, count) {
      if c.oracle { assert RefreshStep(c, s, bank).open == s.open; }
    }
  }

  lemma {:induction false} LaterOracle(c: Config, s: State, bank: BankKey, row: int, d: int)
    ensures OracleOnAct(c, Later(s, d), bank, row) == Later(OracleOnAct(c, s, bank, row), d)
  {
    hide OracleOnAct;
    OracleAnyOpen(c, s, bank, row, LaterOpen(s.open, d));
    OracleAnyOpen(c, s, bank, row, s.open);
    assert s.(open := s.open) == s;
  }

  lemma {:induction false} LaterHammer(c: Config, s: State, e: Event, d: int)
    ensures HammerStep(c, Later(s, d), e.(clk := e.clk + d)) == Later(HammerStep(c, s, e), d)
  {
    hide Settle, CreditAll, Hits, OracleOnAct;
    if e.row >= 0 {
      SameOpenness(s, e.bank, d);
      var reopen := IsOpen(s.open, e.bank) && Entry(s.open, e.bank).row != e.row;
      if reopen { LaterSettle(c, s, e.bank, e.clk, d); }
      var settled := if reopen then Settle(c, s, e.bank, e.clk) else s;
      var hits := Hits(c, e.bank, e.row, c.blast);
      CreditAllAnyOpen(c, settled, hits, LaterOpen(settled.open, d));
      OpenUntouched(c, settled, hits, [], 0.0);
      var t := CreditAll(c, settled, hits);
      LaterPut(t.open, OpenRow(e.bank, e.row, e.clk, Keys(hits)), d);
      LaterOracle(c, t.(open := Put(t.open, OpenRow(e.bank, e.row, e.clk, Keys(hits)))), e.bank, e.row, d);
    }
  }

  lemma {:induction false} LaterStep(c: Config, s: State, a: Action, d: int)
    ensures ActionStep(c, Later(s, d), LaterAction(a, d)) == Later(ActionStep(c, s, a), d)
  {
    hide HammerStep, SettleAll, Restore, Classify, RefreshStep;
    match a
    case Issue(e) =>
      RefreshAnyOpen(c, s, e.bank, LaterOpen(s.open, d));
      LaterHammer(c, s, e, d);
      LaterClosed(s.open, e.bank, d);
      LaterSettleAll(c, s, ClosedBanks(s.open, e.bank), e.clk, d);
    case Overwrite(addr, size) =>
      RestoreAnyOpen(s, addr, size, LaterOpen(s.open, d));
      RestoreAnyOpen(s, addr, size, s.open);
      assert s.(open := s.open) == s;
    case Written(k, data) =>
  }

  /** The run with `d` idle cycles inserted before position `m`. */
  function Delayed(run: seq<Action>, m: nat, d: int): (r: seq<Action>)
    ensures |r| == |run|
  {
    seq(|run|, i requires 0 <= i < |run| => if i < m then run[i] else LaterAction(run[i], d))
  }

  lemma {:induction false} SamePrefix(c: Config, run: seq<Action>, m: nat, d: int, n: nat)
    requires n <= m && n <= |run|
    ensures RunTo(c, Delayed(run, m, d), n) == RunTo(c, run, n)
  {
    hide ActionStep;
    if n > 0 { SamePrefix(c, run, m, d, n - 1); }
  }

  /** Idle cycles inserted while no row is open leave victims, overlay, owners, reward index, counters
      and report exactly as they were, at every later point of the run. */
  lemma {:induction false} IdleTimeIsInvisible(c: Config, run: seq<Action>, m: nat, d: int, n: nat)
    requires m <= n <= |run| && RunTo(c, run, m).open == []
    ensures var s, t := RunTo(c, run, n), RunTo(c, Delayed(run, m, d), n); t == s.(open := LaterOpen(s.open, d))
    decreases n
  {
    hide ActionStep;
    if n == m {
      SamePrefix(c, run, m, d, n);
    } else {
      IdleTimeIsInvisible(c, run, m, d, n - 1);
      LaterStep(c, RunTo(c, run, n - 1), run[n - 1], d);
    }
  }
}
