/** The reported flips as a log of the overlay.

    Every command appends its flips to the report. Replaying the report, with each overwrite removing
    its byte range, yields exactly the overlay: nothing else adds or removes an address.

    Counting the replay gives the conservation law of `new_flips`: every reported flip is still in the
    overlay, or an overwrite removed its address, or a later flip of the same address took its place.
    Two steps are told apart: those that only log flips (`Logged`) and those that report nothing and
    leave the overlay alone (`Quiet`). */
module FlipLog {
  import opened DisturbanceModel

  /** Assign reported flips into an overlay, in order. */
  function Replayed(m: map<int, nat>, log: seq<PublicFlip>): map<int, nat>
    decreases |log|
  {
    if log == [] then m else Replayed(m[log[0].addr := log[0].bit], log[1..])
  }

  /** How many of them land on an address that is already flipped. */
  function Repeats(m: map<int, nat>, log: seq<PublicFlip>): nat
    decreases |log|
  {
    if log == [] then 0
    else (if log[0].addr in m then 1 else 0) + Repeats(m[log[0].addr := log[0].bit], log[1..])
  }

  lemma {:induction false} ReplayCounts(m: map<int, nat>, log: seq<PublicFlip>)
    ensures |m| + |log| == |Replayed(m, log)| + Repeats(m, log)
    decreases |log|
  {
    if log != [] {
      var a := log[0].addr;
      var m' := m[a := log[0].bit];
      if a in m { assert m'.Keys == m.Keys; } else { assert m'.Keys == m.Keys + {a}; }
      assert |m'| == |m'.Keys| && |m| == |m.Keys|;
      ReplayCounts(m', log[1..]);
    }
  }

  lemma {:induction false} ReplayAppend(m: map<int, nat>, xs: seq<PublicFlip>, ys: seq<PublicFlip>)
    ensures Replayed(m, xs + ys) == Replayed(Replayed(m, xs), ys)
    decreases |xs|
  {
    if xs == [] {
      assert xs + ys == ys;
    } else {
      assert (xs + ys)[1..] == xs[1..] + ys;
      ReplayAppend(m[xs[0].addr := xs[0].bit], xs[1..], ys);
    }
  }

  /** What `t` reported beyond `s`. */
  function Reported(s: State, t: State): seq<PublicFlip> {
    if |s.publicFlips| <= |t.publicFlips| then t.publicFlips[|s.publicFlips|..] else []
  }

  /** `t` follows `s` by flips alone: its overlay is that of `s` with the new report replayed. */
  ghost predicate Logged(s: State, t: State) {
    && s.publicFlips <= t.publicFlips
    && t.newFlips == s.newFlips + |Reported(s, t)|
    && t.flips == Replayed(s.flips, Reported(s, t))
  }

  lemma {:induction false} LoggedChain(s: State, t: State, u: State)
    requires Logged(s, t) && Logged(t, u)
    ensures Logged(s, u)
  {
    assert Reported(s, u) == Reported(s, t) + Reported(t, u);
    ReplayAppend(s.flips, Reported(s, t), Reported(t, u));
  }

  ghost predicate Quiet(s: State, t: State) {
    t.publicFlips == s.publicFlips && t.newFlips == s.newFlips && t.flips == s.flips
  }

  lemma {:induction false} QuietLogged(s: State, t: State)
    requires Quiet(s, t)
    ensures Logged(s, t)
  {
  }

  lemma {:induction false} EmitLogged(s: State, k: Key, cell: Cell)
    requires k in s.victims
    ensures Logged(s, Emit(s, k, cell))
  {
    var t := Emit(s, k, cell);
    var a := s.victims[k].addr + cell.off;
    var f := t.publicFlips[|s.publicFlips|];
    assert Reported(s, t) == [f] && f.addr == a && f.bit == cell.bit;
    assert [f][1..] == [];
  }

  lemma {:induction false} EmitAllLogged(s: State, k: Key, cells: seq<Cell>)
    requires k in s.victims
    ensures Logged(s, EmitAll(s, k, cells))
    decreases |cells|
  {
    hide Emit, Logged;
    if cells == [] {
      QuietLogged(s, s);
    } else {
      EmitLogged(s, k, cells[0]);
      EmitAllLogged(Emit(s, k, cells[0]), k, cells[1..]);
      LoggedChain(s, Emit(s, k, cells[0]), EmitAll(s, k, cells));
    }
  }

  lemma {:induction false} MaybeFlipLogged(c: Config, s: State, k: Key)
    requires k in s.victims
    ensures Logged(s, MaybeFlip(c, s, k))
  {
    hide EmitAll, Logged, FlipPositions;
    var v := s.victims[k];
    QuietLogged(s, s);
    if Crosses(v) {
      var cells := FlipPositions(c, k, v, MultiplicityBits(c, v, Exposure(v) / ActiveThreshold(v) as real));
      EmitAllLogged(s, k, cells);
      QuietLogged(EmitAll(s, k, cells), MaybeFlip(c, s, k));
      LoggedChain(s, EmitAll(s, k, cells), MaybeFlip(c, s, k));
    }
  }

  lemma {:induction false} CreditAllLogged(c: Config, s: State, hits: seq<Hit>)
    ensures Logged(s, CreditAll(c, s, hits))
    decreases |hits|
  {
    hide MaybeFlip, Logged;
    QuietLogged(s, s);
    if hits != [] {
      var h := hits[0];
      var t := WithVictim(c, s, h.key);
      var u := t.(victims := t.victims[h.key := AddExposure(t.victims[h.key], h.left, h.weight)]);
      QuietLogged(s, u);
      MaybeFlipLogged(c, u, h.key);
      LoggedChain(s, u, Credit(c, s, h));
      CreditAllLogged(c, Credit(c, s, h), hits[1..]);
      LoggedChain(s, Credit(c, s, h), CreditAll(c, s, hits));
    }
  }

  lemma {:induction false} AddBonusAllLogged(c: Config, s: State, ks: seq<Key>, extra: real)
    ensures Logged(s, AddBonusAll(c, s, ks, extra))
    decreases |ks|
  {
    hide MaybeFlip, Logged;
    QuietLogged(s, s);
    if ks != [] {
      var k := ks[0];
      if k in s.victims && |s.victims[k].cells| < MAX_BITS {
        var u := s.(victims := s.victims[k := s.victims[k].(bonus := s.victims[k].bonus + extra)]);
        QuietLogged(s, u);
        MaybeFlipLogged(c, u, k);
        LoggedChain(s, u, AddBonus(c, s, k, extra));
      }
      AddBonusAllLogged(c, AddBonus(c, s, k, extra), ks[1..], extra);
      LoggedChain(s, AddBonus(c, s, k, extra), AddBonusAll(c, s, ks, extra));
    }
  }

  lemma {:induction false} SettleAllLogged(c: Config, s: State, banks: seq<BankKey>, clk: int)
    ensures Logged(s, SettleAll(c, s, banks, clk))
    decreases |banks|
  {
    hide AddBonusAll, Logged;
    QuietLogged(s, s);
    if banks != [] {
      var u := if IsOpen(s.open, banks[0]) then Settle(c, s, banks[0], clk) else s;
      if IsOpen(s.open, banks[0]) { SettleLogged(c, s, banks[0], clk); }
      SettleAllLogged(c, u, banks[1..], clk);
      LoggedChain(s, u, SettleAll(c, s, banks, clk));
    }
  }

  lemma {:induction false} SettleLogged(c: Config, s: State, bank: BankKey, clk: int)
    requires IsOpen(s.open, bank)
    ensures Logged(s, Settle(c, s, bank, clk))
  {
    hide AddBonusAll, Logged;
    var e := Entry(s.open, bank);
    var t := s.(open := Remove(s.open, bank));
    QuietLogged(s, t);
    AddBonusAllLogged(c, t, e.credited, c.Factor(clk - e.clk) - 1.0);
    LoggedChain(s, t, AddBonusAll(c, t, e.credited, c.Factor(clk - e.clk) - 1.0));
  }

  lemma {:induction false} ClearVictimsQuiet(s: State, hits: seq<Hit>)
    ensures Quiet(s, ClearVictims(s, hits))
    decreases |hits|
  {
    if hits != [] { ClearVictimsQuiet(ClearVictim(s, hits[0].key), hits[1..]); }
  }

  lemma {:induction false} HammerLogged(c: Config, s: State, e: Event)
    ensures Logged(s, HammerStep(c, s, e))
  {
    hide Settle, CreditAll, ClearVictims, Logged, Hits;
    QuietLogged(s, s);
    if e.row >= 0 {
      var reopen := IsOpen(s.open, e.bank) && Entry(s.open, e.bank).row != e.row;
      if reopen { SettleLogged(c, s, e.bank, e.clk); }
      var settled := if reopen then Settle(c, s, e.bank, e.clk) else s;
      var hits := Hits(c, e.bank, e.row, c.blast);
      var t := CreditAll(c, settled, hits);
      CreditAllLogged(c, settled, hits);
      LoggedChain(s, settled, t);
      var u := t.(open := Put(t.open, OpenRow(e.bank, e.row, e.clk, Keys(hits))));
      ClearVictimsQuiet(u.(oracleActs := u.oracleActs[Key(e.bank, e.row) := 0]), hits);
      QuietLogged(t, HammerStep(c, s, e));
      LoggedChain(s, t, HammerStep(c, s, e));
    }
  }

  lemma {:induction false} EventLogged(c: Config, s: State, e: Event)
    ensures Logged(s, EventStep(c, s, e))
  {
    hide HammerStep, SettleAll, Logged, Classify;
    HammerLogged(c, s, e);
    SettleAllLogged(c, s, ClosedBanks(s.open, e.bank), e.clk);
    QuietLogged(s, RefreshStep(c, s, e.bank));
    QuietLogged(s, s);
  }

  /** The bytes an overwrite covers. */
  function Range(addr: int, size: nat): (r: set<int>)
    ensures forall a :: a in r <==> addr <= a < addr + size
  {
    if size == 0 then {} else Range(addr, size - 1) + {addr + size - 1}
  }

  lemma {:induction false} RestoreRemoves(s: State, addr: int, size: nat)
    ensures Restore(s, addr, size).flips == s.flips - Range(addr, size)
    ensures Restore(s, addr, size).publicFlips == s.publicFlips && Restore(s, addr, size).newFlips == s.newFlips
  {
    if size > 0 {
      RestoreRemoves(s, addr, size - 1);
    }
  }

  // ---- whole runs ---------------------------------------------------------------------------------

  /** The overlay as the report and the overwrites alone determine it. */
  ghost function Reconstructed(c: Config, run: seq<Action>, n: nat): map<int, nat>
    requires n <= |run|
  {
    if n == 0 then map[]
    else
      var before := Reconstructed(c, run, n - 1);
      match run[n - 1]
      case Issue(e) => Replayed(before, Reported(RunTo(c, run, n - 1), RunTo(c, run, n)))
      case Overwrite(addr, size) => before - Range(addr, size)
      case Written(k, data) => before
  }

  /** The report is complete: it and the overwrites reconstruct the overlay after every action. */
  lemma {:induction false} ReportReconstructsOverlay(c: Config, run: seq<Action>, n: nat)
    requires n <= |run|
    ensures RunTo(c, run, n).flips == Reconstructed(c, run, n)
  {
    hide EventStep, Restore;
    if n > 0 {
      ReportReconstructsOverlay(c, run, n - 1);
      var s := RunTo(c, run, n - 1);
      match run[n - 1]
      case Issue(e) => EventLogged(c, s, e);
      case Overwrite(addr, size) => RestoreRemoves(s, addr, size);
      case Written(k, data) =>
    }
  }

  /** Overlay addresses an action clears. */
  function ClearedBy(s: State, a: Action): nat {
    if a.Overwrite? then |s.flips.Keys * Range(a.addr, a.size)| else 0
  }

  /** Flips of an action that land on an already flipped address. */
  function RepeatedBy(c: Config, s: State, a: Action): nat {
    if a.Issue? then Repeats(s.flips, Reported(s, EventStep(c, s, a.event))) else 0
  }

  function ClearedCount(c: Config, run: seq<Action>, n: nat): nat
    requires n <= |run|
  {
    if n == 0 then 0 else ClearedCount(c, run, n - 1) + ClearedBy(RunTo(c, run, n - 1), run[n - 1])
  }

  function RepeatCount(c: Config, run: seq<Action>, n: nat): nat
    requires n <= |run|
  {
    if n == 0 then 0 else RepeatCount(c, run, n - 1) + RepeatedBy(c, RunTo(c, run, n - 1), run[n - 1])
  }

  lemma {:induction false} RemovalCounts(m: map<int, nat>, r: set<int>)
    ensures |m - r| + |m.Keys * r| == |m|
  {
    assert (m - r).Keys == m.Keys - r;
    assert m.Keys == (m.Keys - r) + (m.Keys * r);
    assert |m - r| == |(m - r).Keys| && |m| == |m.Keys|;
  }

  lemma {:induction false} IssueConserves(c: Config, s: State, e: Event, gone: nat)
    requires s.newFlips == |s.flips| + gone
    ensures var t := EventStep(c, s, e); t.newFlips == |t.flips| + gone + Repeats(s.flips, Reported(s, t))
  {
    hide EventStep, Repeats, Replayed;
    EventLogged(c, s, e);
    ReplayCounts(s.flips, Reported(s, EventStep(c, s, e)));
  }

  lemma {:induction false} OverwriteConserves(s: State, addr: int, size: nat, gone: nat)
    requires s.newFlips == |s.flips| + gone
    ensures var t := Restore(s, addr, size); t.newFlips == |t.flips| + gone + |s.flips.Keys * Range(addr, size)|
  {
    hide Restore, Range;
    RestoreRemoves(s, addr, size);
    RemovalCounts(s.flips, Range(addr, size));
  }

  lemma {:induction false} StepConserves(c: Config, s: State, a: Action, gone: nat)
    requires s.newFlips == |s.flips| + gone
    ensures var t := ActionStep(c, s, a); t.newFlips == |t.flips| + gone + ClearedBy(s, a) + RepeatedBy(c, s, a)
  {
    hide EventStep, Restore, Replayed, Repeats, Reported, Range;
    match a
    case Issue(e) => IssueConserves(c, s, e, gone);
    case Overwrite(addr, size) => OverwriteConserves(s, addr, size, gone);
    case Written(k, data) =>
  }

  /** Conservation: every flip ever reported is still in the overlay, was cleared by an overwrite, or
      was replaced in place by a later flip of the same byte. */
  lemma {:induction false} FlipsConserved(c: Config, run: seq<Action>, n: nat)
    requires n <= |run|
    ensures RunTo(c, run, n).newFlips ==
            |RunTo(c, run, n).flips| + ClearedCount(c, run, n) + RepeatCount(c, run, n)
  {
    hide ActionStep, ClearedBy, RepeatedBy;
    if n > 0 {
      FlipsConserved(c, run, n - 1);
      StepConserves(c, RunTo(c, run, n - 1), run[n - 1], ClearedCount(c, run, n - 1) + RepeatCount(c, run, n - 1));
    }
  }
}
