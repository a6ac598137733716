/** Exposure counters as functions of the command history.

    The engine keeps a running counter on each side of every row it has seen, clears counters at
    refresh-window boundaries and when the oracle refreshes a neighbour, and keeps one activation
    counter per aggressor. Here each of these is defined from the command history alone, by positions
    in the run, and the running values are proved equal to it in every reachable state. */
module History {
  import opened DisturbanceModel
  import opened Exposures
  import Bits

  // ---- the history ---------------------------------------------------------------------------------------

  /** Action `a` activates row `g`. */
  predicate Activates(a: Action, g: Key) {
    a.Issue? && Classify(a.event.op) == Hammer && a.event.row >= 0 && Key(a.event.bank, a.event.row) == g
  }

  predicate IsActivation(a: Action) {
    a.Issue? && Classify(a.event.op) == Hammer && a.event.row >= 0
  }

  function Aggressor(a: Action): Key
    requires IsActivation(a)
  {
    Key(a.event.bank, a.event.row)
  }

  /** Action `a` is a refresh of the rank of `bank`. */
  predicate Refreshes(a: Action, bank: BankKey) {
    && a.Issue? && Classify(a.event.op) == Refresh
    && a.event.bank.channel == bank.channel && a.event.bank.rank == bank.rank
  }

  /** Refreshes of a rank among the first `n` actions. */
  function RefreshesSoFar(run: seq<Action>, n: nat, bank: BankKey): nat
    requires n <= |run|
  {
    if n == 0 then 0 else RefreshesSoFar(run, n - 1, bank) + (if Refreshes(run[n - 1], bank) then 1 else 0)
  }

  /** Action `i` completes a refresh window of the rank of `bank`. */
  predicate Boundary(c: Config, run: seq<Action>, i: nat, bank: BankKey)
    requires i < |run|
  {
    Refreshes(run[i], bank) && RefreshesSoFar(run, i + 1, bank) % c.refreshWindow == 0
  }

  /** The position just after the last window boundary among the first `n` actions. */
  function WindowStart(c: Config, run: seq<Action>, n: nat, bank: BankKey): (i: nat)
    requires n <= |run|
    ensures i <= n
  {
    if n == 0 then 0 else if Boundary(c, run, n - 1, bank) then n else WindowStart(c, run, n - 1, bank)
  }

  /** Activations of row `g` at positions from `lo` up to `n`. */
  function Activations(run: seq<Action>, lo: nat, n: nat, g: Key): nat
    requires n <= |run|
  {
    if n <= lo then 0 else Activations(run, lo, n - 1, g) + (if Activates(run[n - 1], g) then 1 else 0)
  }

  /** The oracle's period: its threshold, or 1 when that is not positive. */
  function Period(c: Config): Positive {
    if c.tRH >= 1 then c.tRH else 1
  }

  /** Action `i` makes the oracle refresh the neighbours of the row it activates: it is a multiple of
      the period among that row's activations in the current refresh window. */
  predicate Fires(c: Config, run: seq<Action>, i: nat)
    requires i < |run|
  {
    && c.oracle && IsActivation(run[i])
    && var g := Aggressor(run[i]); Activations(run, WindowStart(c, run, i, g.bank), i + 1, g) % Period(c) == 0
  }

  predicate Neighbours(c: Config, g: Key, k: Key) {
    g.bank == k.bank && (HasRing(c.blast, k.row - g.row) || HasRing(c.blast, g.row - k.row))
  }

  /** Action `i` clears the exposure of row `k`. */
  predicate Clears(c: Config, run: seq<Action>, i: nat, k: Key)
    requires i < |run|
  {
    || Boundary(c, run, i, k.bank)
    || (Fires(c, run, i) && Neighbours(c, Aggressor(run[i]), k))
  }

  /** The position just after the last clearing of row `k` among the first `n` actions. */
  function LastClear(c: Config, run: seq<Action>, n: nat, k: Key): (i: nat)
    requires n <= |run|
    ensures i <= n
  {
    if n == 0 then 0 else if Clears(c, run, n - 1, k) then n else LastClear(c, run, n - 1, k)
  }

  /** What action `a` adds to one side of row `k`. */
  function Contribution(c: Config, a: Action, k: Key, left: bool): real {
    if IsActivation(a) && a.event.bank == k.bank
    then RingWeight(c.blast, if left then k.row - a.event.row else a.event.row - k.row)
    else 0.0
  }

  function Accumulated(c: Config, run: seq<Action>, lo: nat, n: nat, k: Key, left: bool): real
    requires n <= |run|
  {
    if n <= lo then 0.0 else Accumulated(c, run, lo, n - 1, k, left) + Contribution(c, run[n - 1], k, left)
  }

  // ---- one action -----------------------------------------------------------------------------------------

  /** The next activation of `g` reaches the oracle's threshold. */
  predicate Reaches(c: Config, s: State, g: Key) {
    c.oracle && Acts(s, g) + 1 >= c.tRH
  }

  lemma {:induction false} OracleBooks(c: Config, s: State, g: Key, k: Key)
    ensures var t := OracleOnAct(c, s, g.bank, g.row);
      && t.refreshes == s.refreshes && t.open == s.open && (k in t.victims <==> k in s.victims)
      && Acts(t, k) == (if k != g then Acts(s, k) else if Acts(s, g) + 1 >= c.tRH then 0 else Acts(s, g) + 1)
  {
    hide ClearVictims, Hits, IsHit, LeftOf, RightOf, BonusOf, SameSides;
    ClearVictimsEffect(s.(oracleActs := s.oracleActs[g := 0]), Hits(c, g.bank, g.row, c.blast), k);
  }

  lemma {:induction false} OracleReports(c: Config, s: State, g: Key)
    ensures OracleOnAct(c, s, g.bank, g.row).oracleRefreshes ==
      s.oracleRefreshes + (if Acts(s, g) + 1 >= c.tRH then 1 else 0)
  {
    hide ClearVictims, Hits, LeftOf, RightOf, BonusOf;
    ClearVictimsEffect(s.(oracleActs := s.oracleActs[g := 0]), Hits(c, g.bank, g.row, c.blast), g);
  }

  lemma {:induction false} OracleSides(c: Config, s: State, g: Key, k: Key)
    ensures var t := OracleOnAct(c, s, g.bank, g.row);
      if Acts(s, g) + 1 >= c.tRH && Neighbours(c, g, k) && c.RowExists(k.row)
      then LeftOf(t, k) == 0.0 && RightOf(t, k) == 0.0 && BonusOf(t, k) == 0.0
      else SameSides(s, t, k) && BonusOf(t, k) == BonusOf(s, k)
  {
    hide ClearVictims, Hits, HasRing, RingWeight, SideWeight, IsHit;
    var hits := Hits(c, g.bank, g.row, c.blast);
    ClearVictimsEffect(s.(oracleActs := s.oracleActs[g := 0]), hits, k);
    HitWeights(c, g.bank, g.row, c.blast, k);
  }

  /** The state between crediting an activation and consulting the oracle. */
  function Credited(c: Config, s: State, e: Event): State {
    var settled :=
      if IsOpen(s.open, e.bank) && Entry(s.open, e.bank).row != e.row then Settle(c, s, e.bank, e.clk) else s;
    var hits := Hits(c, e.bank, e.row, c.blast);
    var t := CreditAll(c, settled, hits);
    t.(open := Put(t.open, OpenRow(e.bank, e.row, e.clk, Keys(hits))))
  }

  lemma {:induction false} CreditedEffect(c: Config, s: State, e: Event, k: Key)
    ensures var t := Credited(c, s, e);
      && t.refreshes == s.refreshes && t.oracleActs == s.oracleActs && t.oracleRefreshes == s.oracleRefreshes
      && (k.bank == e.bank && c.RowExists(k.row) ==>
            && LeftOf(t, k) == LeftOf(s, k) + RingWeight(c.blast, k.row - e.row)
            && RightOf(t, k) == RightOf(s, k) + RingWeight(c.blast, e.row - k.row))
      && (!(k.bank == e.bank && c.RowExists(k.row)) ==> SameSides(s, t, k))
  {
    hide Settle, CreditAll, Hits, HasRing, RingWeight, SideWeight, IsHit;
    var reopen := IsOpen(s.open, e.bank) && Entry(s.open, e.bank).row != e.row;
    if reopen { SettleEffect(c, s, e.bank, e.clk, k); }
    var settled := if reopen then Settle(c, s, e.bank, e.clk) else s;
    CreditAllEffect(c, settled, Hits(c, e.bank, e.row, c.blast), k);
    HitWeights(c, e.bank, e.row, c.blast, k);
  }

  lemma {:induction false} HammerSplit(c: Config, s: State, e: Event)
    requires e.row >= 0
    ensures var u := Credited(c, s, e);
      HammerStep(c, s, e) == if c.oracle then OracleOnAct(c, u, e.bank, e.row) else u
  {
    hide Settle, CreditAll, Hits, OracleOnAct;
  }

  /** What one activation does to the activation counters and to the refresh counts. */
  lemma {:induction false} HammerActs(c: Config, s: State, e: Event, k: Key)
    requires e.row >= 0
    ensures var t, g := HammerStep(c, s, e), Key(e.bank, e.row);
      && t.refreshes == s.refreshes
      && t.oracleRefreshes == s.oracleRefreshes + (if Reaches(c, s, g) then 1 else 0)
      && (c.oracle ==> Acts(t, k) == (if k != g then Acts(s, k) else if Reaches(c, s, g) then 0 else Acts(s, g) + 1))
      && (!c.oracle ==> t.oracleActs == s.oracleActs)
  {
    var u, g := Credited(c, s, e), Key(e.bank, e.row);
    HammerSplit(c, s, e);
    hide Credited, OracleOnAct, HammerStep, Neighbours, RingWeight;
    CreditedEffect(c, s, e, k);
    if c.oracle {
      OracleBooks(c, u, g, k);
      OracleReports(c, u, g);
    }
  }

  /** What one activation does to the exposure of row `k`. */
  lemma {:induction false} HammerSides(c: Config, s: State, e: Event, k: Key)
    requires e.row >= 0 && Classify(e.op) == Hammer && c.RowExists(k.row)
    ensures var t, g := HammerStep(c, s, e), Key(e.bank, e.row);
      if Reaches(c, s, g) && Neighbours(c, g, k) then LeftOf(t, k) == 0.0 && RightOf(t, k) == 0.0
      else && LeftOf(t, k) == LeftOf(s, k) + Contribution(c, Issue(e), k, true)
           && RightOf(t, k) == RightOf(s, k) + Contribution(c, Issue(e), k, false)
  {
    var u, g := Credited(c, s, e), Key(e.bank, e.row);
    HammerSplit(c, s, e);
    hide Credited, OracleOnAct, HammerStep, Classify, Neighbours, RingWeight;
    CreditedEffect(c, s, e, k);
    if c.oracle { OracleSides(c, u, g, k); }
  }

  lemma {:induction false} RefreshCounts(c: Config, s: State, bank: BankKey, b: BankKey)
    ensures var t := RefreshStep(c, s, bank);
      && t.open == s.open
      && RefreshCount(t, b) == RefreshCount(s, b) + (if b.channel == bank.channel && b.rank == bank.rank then 1 else 0)
  {
    hide WindowDone, ClearRank, ClearCounters;
  }

  lemma {:induction false} RefreshClears(c: Config, s: State, bank: BankKey, k: Key)
    ensures var t := RefreshStep(c, s, bank);
      var full := WindowDone(c, RefreshCount(s, bank) + 1);
      && (if full && InRank(k, bank) then LeftOf(t, k) == 0.0 && RightOf(t, k) == 0.0 && BonusOf(t, k) == 0.0
          else SameSides(s, t, k) && BonusOf(t, k) == BonusOf(s, k))
      && Acts(t, k) == (if c.oracle && full && InRank(k, bank) then 0 else Acts(s, k))
  {
    hide WindowDone, RefreshCount;
  }

  // ---- the three refinements ------------------------------------------------------------------------------

  /** The refresh counter of a rank is the number of refreshes issued to it. */
  lemma {:induction false} RefreshCountIsHistory(c: Config, run: seq<Action>, n: nat, bank: BankKey)
    requires n <= |run|
    ensures RefreshCount(RunTo(c, run, n), bank) == RefreshesSoFar(run, n, bank)
  {
    hide HammerStep, SettleAll, RefreshStep, Restore, Classify;
    if n > 0 {
      RefreshCountIsHistory(c, run, n - 1, bank);
      var s := RunTo(c, run, n - 1);
      var k := Key(bank, 0);
      match run[n - 1]
      case Issue(e) =>
        if e.row < 0 { IdleHammer(c, s, e); } else { HammerActs(c, s, e, k); }
        SettleAllEffect(c, s, ClosedBanks(s.open, e.bank), e.clk, k);
        RefreshCounts(c, s, e.bank, bank);
      case Overwrite(addr, size) => RestoreEffect(s, addr, size, k);
      case Written(j, data) =>
    }
  }

  lemma {:induction false} IdleHammer(c: Config, s: State, e: Event)
    requires e.row < 0
    ensures HammerStep(c, s, e) == s
  {
  }

  lemma {:induction false} NextModulo(x: nat, p: Positive)
    ensures (x + 1) % p == if x % p + 1 >= p then 0 else x % p + 1
  {
    var q, r := x / p, x % p;
    assert x == p * q + r;
    if r + 1 == p {
      assert p * (q + 1) == p * q + p;
      Bits.RemainderIs(x + 1, p, q + 1, 0);
    } else {
      Bits.RemainderIs(x + 1, p, q, r + 1);
    }
  }

  /** What one action does to the oracle's counter of row `g`. */
  lemma {:induction false} ActionActs(c: Config, s: State, a: Action, g: Key)
    requires c.oracle
    ensures Acts(ActionStep(c, s, a), g) ==
      if Refreshes(a, g.bank) && WindowDone(c, RefreshCount(s, g.bank) + 1) then 0
      else if Activates(a, g) then (if Acts(s, g) + 1 >= c.tRH then 0 else Acts(s, g) + 1)
      else Acts(s, g)
  {
    hide HammerStep, SettleAll, RefreshStep, Restore, Classify;
    match a
    case Issue(e) =>
      if e.row < 0 { IdleHammer(c, s, e); } else { HammerActs(c, s, e, g); }
      SettleAllEffect(c, s, ClosedBanks(s.open, e.bank), e.clk, g);
      RefreshClears(c, s, e.bank, g);
      SameRankCount(s, e.bank, g.bank);
    case Overwrite(addr, size) => RestoreEffect(s, addr, size, g);
    case Written(j, data) =>
  }

  /** The oracle's counter of a row is the number of that row's activations since the last window
      boundary of its rank, modulo the period. */
  lemma {:induction false} OracleCountIsHistory(c: Config, run: seq<Action>, n: nat, g: Key)
    requires n <= |run| && c.oracle
    ensures Acts(RunTo(c, run, n), g) == Activations(run, WindowStart(c, run, n, g.bank), n, g) % Period(c)
  {
    hide ActionStep, Refreshes, Activates;
    if n > 0 {
      var m := n - 1;
      OracleCountIsHistory(c, run, m, g);
      RefreshCountIsHistory(c, run, m, g.bank);
      NextModulo(Activations(run, WindowStart(c, run, m, g.bank), m, g), Period(c));
      ActionActs(c, RunTo(c, run, m), run[m], g);
    }
  }

  lemma {:induction false} SameRankCount(s: State, a: BankKey, b: BankKey)
    ensures a.channel == b.channel && a.rank == b.rank ==> RefreshCount(s, a) == RefreshCount(s, b)
  {
  }

  /** The oracle acts at exactly the activations the history singles out. */
  lemma {:induction false} FiringIsHistory(c: Config, run: seq<Action>, i: nat)
    requires i < |run| && IsActivation(run[i])
    ensures Fires(c, run, i) <==> Reaches(c, RunTo(c, run, i), Aggressor(run[i]))
  {
    var g := Aggressor(run[i]);
    if c.oracle {
      OracleCountIsHistory(c, run, i, g);
      NextModulo(Activations(run, WindowStart(c, run, i, g.bank), i, g), Period(c));
    }
  }

  /** How often the oracle fired among the first `n` actions. */
  function Firings(c: Config, run: seq<Action>, n: nat): nat
    requires n <= |run|
  {
    if n == 0 then 0 else Firings(c, run, n - 1) + (if Fires(c, run, n - 1) then 1 else 0)
  }

  /** The reported oracle refreshes are its firings, each counted once. */
  lemma {:induction false} OracleRefreshesAreFirings(c: Config, run: seq<Action>, n: nat)
    requires n <= |run|
    ensures RunTo(c, run, n).oracleRefreshes == Firings(c, run, n)
  {
    hide HammerStep, SettleAll, RefreshStep, Restore, Classify, Fires;
    if n > 0 {
      var m := n - 1;
      var s, k := RunTo(c, run, m), Key(BankKey(0, 0, 0, 0), 0);
      OracleRefreshesAreFirings(c, run, m);
      if IsActivation(run[m]) { FiringIsHistory(c, run, m); } else { NoFiring(c, run, m); }
      match run[m]
      case Issue(e) =>
        if e.row < 0 { IdleHammer(c, s, e); } else { HammerActs(c, s, e, k); }
        SettleAllEffect(c, s, ClosedBanks(s.open, e.bank), e.clk, k);
        RefreshQuiet(c, s, e.bank);
      case Overwrite(addr, size) => RestoreEffect(s, addr, size, k);
      case Written(j, data) =>
    }
  }

  lemma {:induction false} RefreshQuiet(c: Config, s: State, bank: BankKey)
    ensures RefreshStep(c, s, bank).oracleRefreshes == s.oracleRefreshes
  {
  }

  /** In every reachable state the two counters of a row are the weighted activations of its left and
      right neighbours in the same bank since the last event that clears the row. */
  lemma {:induction false} ExposureIsHistory(c: Config, run: seq<Action>, n: nat, k: Key)
    requires n <= |run| && c.RowExists(k.row)
    ensures LeftOf(RunTo(c, run, n), k) == Accumulated(c, run, LastClear(c, run, n, k), n, k, true)
    ensures RightOf(RunTo(c, run, n), k) == Accumulated(c, run, LastClear(c, run, n, k), n, k, false)
  {
    hide HammerStep, SettleAll, RefreshStep, Restore, Classify, Fires, Neighbours;
    if n > 0 {
      var m := n - 1;
      var s, a := RunTo(c, run, m), run[m];
      ExposureIsHistory(c, run, m, k);
      RefreshCountIsHistory(c, run, m, k.bank);
      match a
      case Issue(e) =>
        if IsActivation(a) { FiringIsHistory(c, run, m); } else { NoFiring(c, run, m); }
        if e.row < 0 { IdleHammer(c, s, e); } else if Classify(e.op) == Hammer { HammerSides(c, s, e, k); }
        SettleAllEffect(c, s, ClosedBanks(s.open, e.bank), e.clk, k);
        RefreshClears(c, s, e.bank, k);
        SameRankCount(s, e.bank, k.bank);
      case Overwrite(addr, size) =>
        NoFiring(c, run, m);
        RestoreEffect(s, addr, size, k);
      case Written(j, data) => NoFiring(c, run, m);
    }
  }

  lemma {:induction false} NoFiring(c: Config, run: seq<Action>, i: nat)
    requires i < |run| && !IsActivation(run[i])
    ensures !Fires(c, run, i)
  {
  }
}
