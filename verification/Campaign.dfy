/** Campaigns against one row, and their exact outcome.

    A campaign writes first, then activates only the two neighbours of a row, interleaved with
    precharges whose dwells earn no bonus and with refreshes that complete no window of the row's rank.
    The row's counters are then plain activation counts, its stratum is that of the data written to it,
    and the first activation at which the counts cross the row's threshold is the first to flip it. */
module Campaigns {
  import opened DisturbanceModel
  import opened Exposures
  import opened History
  import opened OpenRows
  import opened Overlay
  import opened OracleProtection
  import opened HammerOutcome
  import IdleTime
  import Strata

  /** A command that activates no row: a precharge, a refresh, a read, a write or an unknown one. */
  predicate IsPassive(a: Action) {
    a.Issue? && !IsActivation(a)
  }

  predicate HitsNeighbour(a: Action, k: Key) {
    Activates(a, LeftNeighbour(k)) || Activates(a, RightNeighbour(k))
  }

  /** No settled dwell of the run is long enough to count as more than one activation. */
  ghost predicate NominalDwells(c: Config, run: seq<Action>) {
    DwellsWithin(c, run, |run|, 1.0)
  }

  /** No refresh of the run completes a window of the rank of bank `b`. */
  predicate WithinWindow(c: Config, run: seq<Action>, b: BankKey) {
    forall i :: 0 <= i < |run| ==> !Boundary(c, run, i, b)
  }

  /** Nothing is activated by the first `n` actions. */
  predicate NoneActivated(run: seq<Action>, n: nat)
    requires n <= |run|
  {
    forall j :: 0 <= j < n ==> !IsActivation(run[j])
  }

  /** What a campaign may do at position `i`: writes come before every activation. */
  predicate InCampaign(k: Key, run: seq<Action>, i: nat)
    requires i < |run|
  {
    HitsNeighbour(run[i], k) || IsPassive(run[i]) || (!run[i].Issue? && NoneActivated(run, i))
  }

  ghost predicate Campaign(c: Config, k: Key, run: seq<Action>) {
    && c.blast == [Ring(1, 1.0)] && c.RowExists(k.row)
    && (forall i :: 0 <= i < |run| ==> InCampaign(k, run, i))
    && NominalDwells(c, run) && WithinWindow(c, run, k.bank)
  }

  /** Activations of the left and right neighbour among the first `n` actions. */
  function Lefts(run: seq<Action>, n: nat, k: Key): nat
    requires n <= |run|
  {
    Activations(run, 0, n, LeftNeighbour(k))
  }

  function Rights(run: seq<Action>, n: nat, k: Key): nat
    requires n <= |run|
  {
    Activations(run, 0, n, RightNeighbour(k))
  }

  /** The oracle, if any, has not reached its period on either neighbour. */
  predicate OracleIdle(c: Config, run: seq<Action>, n: nat, k: Key)
    requires n <= |run|
  {
    c.oracle ==> Lefts(run, n, k) < Period(c) && Rights(run, n, k) < Period(c)
  }

  // ---- settled dwells change nothing ----------------------------------------------------------------------

  lemma {:induction false} NominalSettle(c: Config, s: State, b: BankKey, clk: int)
    requires IsOpen(s.open, b) && c.Factor(clk - Entry(s.open, b).clk) <= 1.0
    ensures Settle(c, s, b, clk) == s.(open := Remove(s.open, b))
  {
    hide AddBonusAll;
  }

  lemma {:induction false} NominalSettleAll(c: Config, s: State, banks: seq<BankKey>, clk: int)
    requires Unique(s.open)
    requires forall b :: b in banks && IsOpen(s.open, b) ==> c.Factor(clk - Entry(s.open, b).clk) <= 1.0
    ensures SettleAll(c, s, banks, clk) == s.(open := SettleAll(c, s, banks, clk).open)
    decreases |banks|
  {
    hide Settle;
    if banks != [] {
      var x := banks[0];
      var t := if IsOpen(s.open, x) then Settle(c, s, x, clk) else s;
      if IsOpen(s.open, x) {
        NominalSettle(c, s, x, clk);
        RemoveUnique(s.open, x);
        forall b | b in banks[1..] && IsOpen(t.open, b) ensures c.Factor(clk - Entry(t.open, b).clk) <= 1.0 {
          RemoveFacts(s.open, x, b);
        }
      }
      NominalSettleAll(c, t, banks[1..], clk);
    }
  }

  // ---- the state of a campaign ----------------------------------------------------------------------------

  lemma {:induction false} CampaignNeverClears(c: Config, k: Key, run: seq<Action>, n: nat, i: nat)
    requires Campaign(c, k, run) && i < n <= |run| && OracleIdle(c, run, n, k)
    ensures !Clears(c, run, i, k) && WindowStart(c, run, i, k.bank) == 0
  {
    hide NominalDwells;
    assert InCampaign(k, run, i);
    NoWindow(c, run, i, k.bank);
    if Fires(c, run, i) {
      var g := Aggressor(run[i]);
      SmallRemainder(Activations(run, 0, i + 1, g), Period(c));
      ActivationsGrow(run, i + 1, n, g);
    }
  }

  lemma {:induction false} SmallRemainder(x: nat, p: Positive)
    ensures 0 < x < p ==> x % p != 0
  {
  }

  lemma {:induction false} NoWindow(c: Config, run: seq<Action>, i: nat, b: BankKey)
    requires WithinWindow(c, run, b) && i <= |run|
    ensures WindowStart(c, run, i, b) == 0
  {
    hide Boundary;
    if i > 0 { NoWindow(c, run, i - 1, b); }
  }

  lemma {:induction false} ActivationsGrow(run: seq<Action>, n: nat, m: nat, g: Key)
    requires n <= m <= |run|
    ensures Activations(run, 0, n, g) <= Activations(run, 0, m, g)
  {
    if n < m { ActivationsGrow(run, n, m - 1, g); }
  }

  /** The row's counters are the activation counts of its neighbours. */
  lemma {:induction false} CampaignCounts(c: Config, k: Key, run: seq<Action>, n: nat)
    requires Campaign(c, k, run) && n <= |run| && OracleIdle(c, run, n, k)
    ensures LeftOf(RunTo(c, run, n), k) == Lefts(run, n, k) as real
    ensures RightOf(RunTo(c, run, n), k) == Rights(run, n, k) as real
  {
    hide RunTo, Clears;
    ExposureIsHistory(c, run, n, k);
    NeverCleared(c, k, run, n, n);
    AccumulatedIsCount(c, k, run, n);
  }

  lemma {:induction false} NeverCleared(c: Config, k: Key, run: seq<Action>, m: nat, n: nat)
    requires Campaign(c, k, run) && m <= n <= |run| && OracleIdle(c, run, n, k)
    ensures LastClear(c, run, m, k) == 0
  {
    hide Clears, Campaign;
    if m > 0 {
      CampaignNeverClears(c, k, run, n, m - 1);
      NeverCleared(c, k, run, m - 1, n);
    }
  }

  lemma {:induction false} AccumulatedIsCount(c: Config, k: Key, run: seq<Action>, n: nat)
    requires c.blast == [Ring(1, 1.0)] && n <= |run|
    ensures Accumulated(c, run, 0, n, k, true) == Activations(run, 0, n, LeftNeighbour(k)) as real
    ensures Accumulated(c, run, 0, n, k, false) == Activations(run, 0, n, RightNeighbour(k)) as real
  {
    if n > 0 {
      AccumulatedIsCount(c, k, run, n - 1);
      OneRing(c, k.row - (if run[n - 1].Issue? then run[n - 1].event.row else 0));
      OneRing(c, (if run[n - 1].Issue? then run[n - 1].event.row else 0) - k.row);
    }
  }

  lemma {:induction false} OneRing(c: Config, d: int)
    requires c.blast == [Ring(1, 1.0)]
    ensures RingWeight(c.blast, d) == if d == 1 then 1.0 else 0.0
  {
    assert c.blast[1..] == [];
    assert RingWeight(c.blast, d) == (if c.blast[0].distance == d then c.blast[0].weight else 0.0) + RingWeight([], d);
  }

  // ---- one action of a campaign ---------------------------------------------------------------------------

  /** States that agree on the overlay, the stored patterns and the cells of row `k`. */
  ghost predicate SameOverlay(s: State, t: State, k: Key) {
    && t.flips == s.flips && t.flippedKeys == s.flippedKeys && CellsOf(t, k) == CellsOf(s, k)
    && t.patterns == s.patterns
  }

  /** Row `k` keeps no bonus and its stratum, and stays clean if it was. */
  ghost predicate Preserves(c: Config, s: State, t: State, k: Key) {
    forall ones :: (Steady(s, k, ones) ==> Steady(t, k, ones)) && (Clean(c, s, k, ones) ==> Clean(c, t, k, ones))
  }

  /** What a command of a campaign does to row `k`: a passive one nothing, an activation one crediting. */
  lemma {:induction false} CampaignStep(c: Config, k: Key, run: seq<Action>, n: nat)
    requires Campaign(c, k, run) && 0 < n <= |run| && run[n - 1].Issue?
    ensures var s, t, a := RunTo(c, run, n - 1), RunTo(c, run, n), run[n - 1];
      if IsActivation(a) then
        var u := CreditAll(c, s, Hits(c, a.event.bank, a.event.row, c.blast));
        SameOverlay(u, t, k) && Preserves(c, u, t, k)
      else SameOverlay(s, t, k) && SameAt(s, t, k) && Preserves(c, s, t, k)
  {
    hide CreditAll, HammerStep, Hits, NominalDwells, Boundary, Preserves, SameOverlay, EventStep, SameAt;
    var m := n - 1;
    assert InCampaign(k, run, m);
    if IsActivation(run[m]) {
      ActivationStep(c, run, m, k);
      HammerEvent(c, RunTo(c, run, m), run[m].event);
    } else {
      PassiveStep(c, run, m, k);
    }
  }

  lemma {:induction false} HammerEvent(c: Config, s: State, e: Event)
    requires Classify(e.op) == Hammer
    ensures EventStep(c, s, e) == HammerStep(c, s, e)
  {
  }

  lemma {:induction false} PassiveStep(c: Config, run: seq<Action>, m: nat, k: Key)
    requires m < |run| && NominalDwells(c, run) && IsPassive(run[m]) && !Boundary(c, run, m, k.bank)
    ensures var s := RunTo(c, run, m);
      var t := EventStep(c, s, run[m].event);
      SameOverlay(s, t, k) && SameAt(s, t, k) && Preserves(c, s, t, k)
  {
    hide SettleAll, RefreshStep, RunTo, NominalDwells, SameOverlay, SameAt, Preserves, HammerStep;
    var s, e := RunTo(c, run, m), run[m].event;
    CleanAnyOpen(c, s, s.open, k);
    if Classify(e.op) == Close {
      NominalClose(c, run, m);
      CleanAnyOpen(c, s, SettleAll(c, s, ClosedBanks(s.open, e.bank), e.clk).open, k);
    } else if Classify(e.op) == Refresh {
      RefreshCountIsHistory(c, run, m, k.bank);
      SameRankCount(s, e.bank, k.bank);
      RefreshKeepsRow(c, s, e.bank, k);
    } else if Classify(e.op) == Hammer {
      IdleHammer(c, s, e);
    }
  }

  lemma {:induction false} NominalClose(c: Config, run: seq<Action>, m: nat)
    requires m < |run| && NominalDwells(c, run) && run[m].Issue? && Classify(run[m].event.op) == Close
    ensures var s, e := RunTo(c, run, m), run[m].event;
      var t := SettleAll(c, s, ClosedBanks(s.open, e.bank), e.clk);
      t == s.(open := t.open)
  {
    hide SettleAll, RunTo, DwellsWithin;
    var s, e := RunTo(c, run, m), run[m].event;
    OpenIsHistory(c, run, m, e.bank);
    forall b | b in ClosedBanks(s.open, e.bank) && IsOpen(s.open, b)
      ensures c.Factor(e.clk - Entry(s.open, b).clk) <= 1.0
    {
      ClosedBanksExact(s.open, e.bank, b);
      SettledWithin(c, run, m, |run|, b, 1.0);
    }
    NominalSettleAll(c, s, ClosedBanks(s.open, e.bank), e.clk);
  }

  /** A refresh that completes no window of the row's rank leaves the row alone. */
  lemma {:induction false} RefreshKeepsRow(c: Config, s: State, bank: BankKey, k: Key)
    requires !(InRank(k, bank) && WindowDone(c, RefreshCount(s, bank) + 1))
    ensures var t := RefreshStep(c, s, bank);
      SameOverlay(s, t, k) && SameAt(s, t, k) && Preserves(c, s, t, k)
  {
    hide RefreshStep, Preserves;
    RefreshBooks(c, s, bank, k);
    SameRowPreserves(c, s, RefreshStep(c, s, bank), k);
  }

  lemma {:induction false} RefreshBooks(c: Config, s: State, bank: BankKey, k: Key)
    ensures var t := RefreshStep(c, s, bank);
      && t.flips == s.flips && t.flippedKeys == s.flippedKeys && t.patterns == s.patterns
      && (k in t.victims <==> k in s.victims)
      && (!(InRank(k, bank) && WindowDone(c, RefreshCount(s, bank) + 1)) && k in s.victims ==>
            t.victims[k] == s.victims[k])
  {
    hide WindowDone, RefreshCount, ClearCounters, Cleared;
  }

  lemma {:induction false} SameRowPreserves(c: Config, s: State, t: State, k: Key)
    requires t.patterns == s.patterns && (k in t.victims <==> k in s.victims)
    requires k in s.victims ==> t.victims[k] == s.victims[k]
    ensures Preserves(c, s, t, k)
  {
  }

  lemma {:induction false} ActivationStep(c: Config, run: seq<Action>, m: nat, k: Key)
    requires m < |run| && NominalDwells(c, run) && IsActivation(run[m])
    ensures var s, e := RunTo(c, run, m), run[m].event;
      var u, t := CreditAll(c, s, Hits(c, e.bank, e.row, c.blast)), HammerStep(c, s, e);
      SameOverlay(u, t, k) && Preserves(c, u, t, k)
  {
    hide CreditAll, Settle, Hits, RunTo, DwellsWithin;
    var s, e := RunTo(c, run, m), run[m].event;
    var hits := Hits(c, e.bank, e.row, c.blast);
    var reopen := IsOpen(s.open, e.bank) && Entry(s.open, e.bank).row != e.row;
    if reopen {
      SettledWithin(c, run, m, |run|, e.bank, 1.0);
      NominalSettle(c, s, e.bank, e.clk);
      IdleTime.CreditAllAnyOpen(c, s, hits, Remove(s.open, e.bank));
    }
    var u := CreditAll(c, s, hits);
    var reopened := Put((if reopen then Remove(s.open, e.bank) else u.open), OpenRow(e.bank, e.row, e.clk, Keys(hits)));
    assert HammerStep(c, s, e) ==
      if c.oracle then OracleOnAct(c, u.(open := reopened), e.bank, e.row) else u.(open := reopened);
    hide HammerStep;
    OracleOverlay(c, u.(open := reopened), e.bank, e.row, k);
    CleanAnyOpen(c, u, reopened, k);
  }

  lemma {:induction false} CleanAnyOpen(c: Config, s: State, o: seq<OpenRow>, k: Key)
    ensures Preserves(c, s, s.(open := o), k)
    ensures SameOverlay(s, s.(open := o), k) && SameAt(s, s.(open := o), k)
  {
  }

  lemma {:induction false} OracleOverlay(c: Config, s: State, bank: BankKey, row: int, k: Key)
    ensures var t := OracleOnAct(c, s, bank, row); SameOverlay(s, t, k) && Preserves(c, s, t, k)
  {
    hide ClearVictims, Hits, Clean, Steady;
    var u := s.(oracleActs := s.oracleActs[Key(bank, row) := 0]);
    var w, t := ClearVictims(u, Hits(c, bank, row, c.blast)), OracleOnAct(c, s, bank, row);
    ClearOverlay(c, u, Hits(c, bank, row, c.blast), k);
    SameRowPreserves(c, s, u, k);
    if Acts(s, Key(bank, row)) + 1 < c.tRH { SameRowPreserves(c, s, t, k); } else { SameRowPreserves(c, w, t, k); }
  }

  lemma {:induction false} ClearOverlay(c: Config, s: State, hits: seq<Hit>, k: Key)
    ensures var t := ClearVictims(s, hits); SameOverlay(s, t, k) && Preserves(c, s, t, k)
    decreases |hits|
  {
    if hits != [] { ClearOverlay(c, ClearVictim(s, hits[0].key), hits[1..], k); }
  }

  // ---- the writes before the first activation ------------------------------------------------------------------

  /** The data of row `k` after the first `n` actions is all ones. */
  predicate Data(run: seq<Action>, n: nat, k: Key)
    requires n <= |run|
  {
    Strata.HoldsOnes(run, n, k)
  }

  lemma {:induction false} NothingYet(c: Config, run: seq<Action>, n: nat)
    requires n <= |run| && NoneActivated(run, n)
    ensures var s := RunTo(c, run, n); s.victims == map[] && s.flips == map[] && s.flippedKeys == {}
  {
    hide RunTo, Linked;
    var s := RunTo(c, run, n);
    forall j ensures j !in s.victims { VictimsAreNeighbours(c, run, n, j); }
    RunSound(c, run, n);
    assert s.flippedKeys == {} by {
      forall j ensures j !in s.flippedKeys { assert !HasFlipped(s, j); }
    }
    NoVictimsNoFlips(c, s);
  }

  lemma {:induction false} OwnerIsVictim(c: Config, s: State, a: int)
    requires Linked(c, s) && a in s.flips
    ensures a in s.owners && s.owners[a].key in s.victims
  {
    assert a in s.owners.Keys;
    assert OwnerHolds(c, s, a);
  }

  lemma {:induction false} NoVictimsNoFlips(c: Config, s: State)
    requires Linked(c, s) && s.victims == map[]
    ensures s.flips == map[]
  {
    hide Linked;
    if forall a :: a !in s.flips {
      assert s.flips == map[];
    } else {
      var a :| a in s.flips;
      OwnerIsVictim(c, s, a);
      assert false;
    }
  }

  lemma {:induction false} RestoreNothing(s: State, addr: int, size: nat)
    requires s.flips == map[]
    ensures Restore(s, addr, size) == s
  {
    if size > 0 { RestoreNothing(s, addr, size - 1); }
  }

  /** A write before the first activation changes the stored patterns only. */
  lemma {:induction false} WriteStep(c: Config, k: Key, run: seq<Action>, n: nat)
    requires 0 < n <= |run| && !run[n - 1].Issue? && NoneActivated(run, n - 1)
    ensures var s, t := RunTo(c, run, n - 1), RunTo(c, run, n);
      && t == s.(patterns := t.patterns) && s.victims == map[] && s.flips == map[] && s.flippedKeys == {}
  {
    NothingYet(c, run, n - 1);
    match run[n - 1]
    case Overwrite(addr, size) => RestoreNothing(RunTo(c, run, n - 1), addr, size);
    case Written(j, data) =>
  }

  /** In a campaign the row has no bonus, and its stratum is that of its data. */
  lemma {:induction false} DataIsStratum(c: Config, k: Key, run: seq<Action>, n: nat)
    requires n <= |run| && NoneActivated(run, n)
    ensures Steady(RunTo(c, run, n), k, Data(run, n, k)) && Clean(c, RunTo(c, run, n), k, Data(run, n, k))
  {
    hide RunTo, Strata.HoldsOnes;
    NothingYet(c, run, n);
    Strata.PatternIsLastWrite(c, run, n, k);
  }

  lemma {:induction false} DataKept(c: Config, k: Key, run: seq<Action>, n: nat)
    requires 0 < n <= |run| && run[n - 1].Issue?
    ensures Data(run, n, k) == Data(run, n - 1, k)
  {
  }
}
