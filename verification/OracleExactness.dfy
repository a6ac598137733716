/** The oracle's protection condition is exact, over all runs that may activate given rows.

    Against every row that does not meet the condition there is a run that flips it, for every stored pattern. It
    lets the oracle fire once and leaves that row open long, then activates one neighbour, or both, one time less
    than the period, each time with a long dwell, and ends with one activation more: it is checked before the
    oracle refreshes the row. */
module OracleExactness {
  import opened DisturbanceModel
  import opened Exposures
  import opened History
  import opened OpenRows
  import opened Overlay
  import opened OracleProtection
  import opened HammerOutcome
  import opened BonusHistory
  import Strata
  import Calls = CallHistories
  import CA = Campaigns
  import CO = CampaignOutcomes

  /** The most a dwell is worth: the profile's reduction, or 1 without RowPress. */
  function Reduction(c: Config): real { if c.rowPress.None? then 1.0 else c.rowPress.value }

  /** The run activates only rows that it may activate. */
  ghost predicate OnlyRows(run: seq<Action>, may: Key -> bool) {
    forall i :: 0 <= i < |run| && IsActivation(run[i]) ==> may(Aggressor(run[i]))
  }

  /** Row `k` never holds a flipped cell, in any run over the rows that may be activated. */
  ghost predicate NeverFlips(c: Config, k: Key, may: Key -> bool) {
    forall run: seq<Action> :: OnlyRows(run, may) ==> CellsOf(Run(c, run), k) == {}
  }

  /** Row `k` holds no flipped cell at any point of the run. */
  ghost predicate StaysClean(c: Config, k: Key, run: seq<Action>) {
    forall n :: 0 <= n <= |run| ==> CellsOf(RunTo(c, run, n), k) == {}
  }

  /** The rows that exist. */
  function ExistingRows(c: Config): Key -> bool { (g: Key) => c.RowExists(g.row) }

  /** The threat of all runs over the rows that may be activated. */
  function ThreatOf(c: Config, k: Key, may: Key -> bool): Threat {
    Threat(Reduction(c), may(LeftNeighbour(k)), may(RightNeighbour(k)))
  }

  /** An oracle on a blast radius of one row. */
  ghost predicate Setting(c: Config, k: Key) {
    && c.oracle && c.blast == [Ring(1, 1.0)] && c.RowExists(k.row)
    && (c.rowPress.Some? ==> c.rowPress.value >= 1.0)
  }

  // ---- the attack -----------------------------------------------------------------------------------------

  function ActAt(g: Key, clk: int): Action { Issue(Event("ACT", clk, g.bank, g.row)) }
  function PreAt(b: BankKey, clk: int): Action { Issue(Event("PRE", clk, b, 0)) }

  lemma {:induction false} Commands(g: Key, b: BankKey, clk: int)
    requires g.row >= 0
    ensures Classify("ACT") == Hammer && Classify("PRE") == Close
    ensures IsActivation(ActAt(g, clk)) && Opens(ActAt(g, clk), g.bank) && !Covers(ActAt(g, clk), b)
    ensures !IsActivation(PreAt(b, clk)) && Covers(PreAt(b, clk), b)
  {
    assert StartsWith("PRE", "PRE");
  }

  function Neighbour(k: Key, left: bool): Key { if left then LeftNeighbour(k) else RightNeighbour(k) }

  /** Write the pattern, then activate the neighbour on side `near` `n` times in a row. */
  function Priming(k: Key, ones: bool, near: bool, n: nat): seq<Action> {
    if n > 0 then Priming(k, ones, near, n - 1) + [ActAt(Neighbour(k, near), 0)]
    else if ones then [Written(k, [0xFF])] else []
  }

  /** After priming: `n` long-open activations of the near neighbour, then `f` of the far one. */
  function Attack(k: Key, ones: bool, period: nat, near: bool, n: nat, f: nat): seq<Action>
    decreases f, n
  {
    var next := DWELL_SATURATION * (n + f);
    if f > 0 then Attack(k, ones, period, near, n, f - 1)
      + [ActAt(Neighbour(k, !near), next)] + [PreAt(k.bank, next + DWELL_SATURATION)]
    else if n > 0 then Attack(k, ones, period, near, n - 1, 0)
      + [ActAt(Neighbour(k, near), next)] + [PreAt(k.bank, next + DWELL_SATURATION)]
    else Priming(k, ones, near, period) + [PreAt(k.bank, DWELL_SATURATION)]
  }

  /** The attack, and one more activation of the near neighbour. */
  function Strike(k: Key, ones: bool, period: nat, near: bool, n: nat, f: nat): seq<Action> {
    Attack(k, ones, period, near, n, f) + [ActAt(Neighbour(k, near), DWELL_SATURATION * (n + f + 1))]
  }

  // ---- one action -----------------------------------------------------------------------------------------

  lemma {:induction false} OneRingIsSingle(c: Config, k: Key)
    requires c.blast == [Ring(1, 1.0)]
    ensures SingleHits(c, k)
  {
    assert c.blast[1..] == [];
    DistinctIsSingle(c, k);
  }

  /** The row open in the bank of `k`, if any, is `row`, opened at `clk`, and exposed `k`. */
  ghost predicate OpenAt(c: Config, s: State, k: Key, row: int, clk: int) {
    && OpenExact(c, s.open) && IsOpen(s.open, k.bank)
    && Entry(s.open, k.bank).row == row && Entry(s.open, k.bank).clk == clk && k in Entry(s.open, k.bank).credited
  }

  ghost predicate ClosedAt(c: Config, s: State, k: Key) {
    OpenExact(c, s.open) && !IsOpen(s.open, k.bank)
  }

  function SideOf(s: State, k: Key, left: bool): real { if left then LeftOf(s, k) else RightOf(s, k) }

  /** What row `k` has accumulated, `x` on side `side` and `y` on the other, and what the oracle has counted for
      its neighbours. */
  ghost predicate Holds(s: State, k: Key, side: bool, x: nat, y: nat, bonus: real, ones: bool) {
    && SideOf(s, k, side) == x as real && SideOf(s, k, !side) == y as real && BonusOf(s, k) == bonus
    && Acts(s, Neighbour(k, side)) == x && Acts(s, Neighbour(k, !side)) == y
    && CellsOf(s, k) == {} && (k in s.victims ==> s.victims[k].ones == ones)
  }

  lemma {:induction false} NeighbourExposes(c: Config, k: Key, left: bool)
    requires Setting(c, k) && Neighbour(k, left).row >= 0
    ensures Neighbours(c, Neighbour(k, left), k)
    ensures k in Keys(Hits(c, k.bank, Neighbour(k, left).row, c.blast))
    ensures forall clk :: Contribution(c, ActAt(Neighbour(k, left), clk), k, true) == (if left then 1.0 else 0.0)
    ensures forall clk :: Contribution(c, ActAt(Neighbour(k, left), clk), k, false) == (if left then 0.0 else 1.0)
  {
    NearHits(c, k.bank, Neighbour(k, left).row, k);
    NearRings(c, Neighbour(k, left), k);
    assert c.blast[1..] == [];
    Commands(Neighbour(k, left), k.bank, 0);
    assert forall d: int :: RingWeight(c.blast, d) == (if d == 1 then 1.0 else 0.0) + RingWeight([], d);
  }

  /** Activating a neighbour while its bank is closed, or open at the same row. */
  lemma {:induction false} ActEffect(c: Config, s: State, k: Key, side: bool, was: int, clk: int, x: nat, y: nat,
      bonus: real, ones: bool)
    requires Setting(c, k) && Neighbour(k, side).row >= 0 && Holds(s, k, side, x, y, bonus, ones)
    requires ClosedAt(c, s, k) || (OpenAt(c, s, k, Neighbour(k, side).row, was) && k in s.victims)
    requires k in s.victims || PatternOnes(s, k) == ones
    ensures var t := ActionStep(c, s, ActAt(Neighbour(k, side), clk));
      var fires := x + 1 >= c.tRH;
      && OpenAt(c, t, k, Neighbour(k, side).row, clk) && k in t.victims && t.victims[k].ones == ones
      && Acts(t, Neighbour(k, side)) == (if fires then 0 else x + 1) && Acts(t, Neighbour(k, !side)) == y
      && SideOf(t, k, side) == (if fires then 0.0 else SideOf(s, k, side) + 1.0)
      && SideOf(t, k, !side) == (if fires then 0.0 else SideOf(s, k, !side))
      && BonusOf(t, k) == (if fires then 0.0 else bonus)
  {
    hide HammerStep, Classify, Hits, OpenExact, Contribution, Neighbours, PatternOnes, SingleHits, SettledBy;
    var g, a := Neighbour(k, side), ActAt(Neighbour(k, side), clk);
    Commands(g, k.bank, clk);
    NeighbourExposes(c, k, side);
    OneRingIsSingle(c, k);
    HammerSides(c, s, a.event, k);
    HammerActs(c, s, a.event, g);
    HammerActs(c, s, a.event, Neighbour(k, !side));
    NothingSettledBySameRow(c, s, k, side, clk);
    HammerBonus(c, s, a.event, x => k, k);
    HammerVictims(c, s, a.event, k);
    OpenAfter(c, s, a, k);
    assert ActionStep(c, s, a) == EventStep(c, s, a.event) == HammerStep(c, s, a.event);
    Strata.ActionLatches(c, s, a, k);
  }

  lemma {:induction false} NothingSettledBySameRow(c: Config, s: State, k: Key, left: bool, clk: int)
    requires Setting(c, k) && Neighbour(k, left).row >= 0
    requires !IsOpen(s.open, k.bank) || Entry(s.open, k.bank).row == Neighbour(k, left).row
    ensures SettledBy(c, s, ActAt(Neighbour(k, left), clk), k) == 0.0
  {
    Commands(Neighbour(k, left), k.bank, clk);
  }

  lemma {:induction false} OpenAfter(c: Config, s: State, a: Action, k: Key)
    requires OpenExact(c, s.open)
    ensures var t := ActionStep(c, s, a);
      && OpenExact(c, t.open)
      && (IsOpen(t.open, k.bank) <==> Opens(a, k.bank) || (IsOpen(s.open, k.bank) && !Covers(a, k.bank)))
      && (Opens(a, k.bank) ==>
            var credited := Keys(Hits(c, k.bank, a.event.row, c.blast));
            Entry(t.open, k.bank) == OpenRow(k.bank, a.event.row, a.event.clk, credited))
  {
    hide ActionStep, Hits, Opens, Covers;
    var t := ActionStep(c, s, a);
    ActionOpen(c, s, a, k.bank);
    forall b
      ensures IsOpen(t.open, b) ==> Entry(t.open, b).credited == Keys(Hits(c, b, Entry(t.open, b).row, c.blast))
    {
      ActionOpen(c, s, a, b);
    }
  }

  /** Closing the bank after a long dwell. */
  lemma {:induction false} PreEffect(c: Config, s: State, k: Key, row: int, clk: int, side: bool, x: nat, y: nat,
      bonus: real, ones: bool)
    requires Setting(c, k) && Holds(s, k, side, x, y, bonus, ones) && OpenAt(c, s, k, row, clk) && k in s.victims
    ensures var t := ActionStep(c, s, PreAt(k.bank, clk + DWELL_SATURATION));
      && ClosedAt(c, t, k) && k in t.victims && t.victims[k].ones == ones
      && LeftOf(t, k) == LeftOf(s, k) && RightOf(t, k) == RightOf(s, k)
      && Acts(t, LeftNeighbour(k)) == Acts(s, LeftNeighbour(k))
      && Acts(t, RightNeighbour(k)) == Acts(s, RightNeighbour(k))
      && BonusOf(t, k) == bonus + (Reduction(c) - 1.0)
  {
    hide SettleAll, Classify, Hits, OpenExact, SingleHits, Config.Factor;
    var a := PreAt(k.bank, clk + DWELL_SATURATION);
    Commands(Key(k.bank, 0), k.bank, clk);
    assert Covers(a, k.bank) && !IsActivation(a) by { Commands(Key(k.bank, 0), k.bank, clk + DWELL_SATURATION); }
    OneRingIsSingle(c, k);
    OpenAfter(c, s, a, k);
    SettleAllEffect(c, s, ClosedBanks(s.open, k.bank), a.event.clk, k);
    SettleAllBonus(c, s, ClosedBanks(s.open, k.bank), a.event.clk, x => k, k);
    ClosedBanksExact(s.open, k.bank, k.bank);
    Strata.FactorShape(c, DWELL_SATURATION, DWELL_SATURATION);
    assert ActionStep(c, s, a) == SettleAll(c, s, ClosedBanks(s.open, k.bank), a.event.clk);
    Strata.ActionLatches(c, s, a, k);
  }

  // ---- the attack's state ---------------------------------------------------------------------------------

  lemma {:induction false} CleanPrefix(c: Config, k: Key, run: seq<Action>, more: seq<Action>)
    requires StaysClean(c, k, run + more)
    ensures StaysClean(c, k, run) && CellsOf(Run(c, run), k) == {}
  {
    hide RunTo, CellsOf;
    forall n | 0 <= n <= |run| ensures CellsOf(RunTo(c, run, n), k) == {} {
      Calls.RunToPrefix(c, run, more, n);
      assert CellsOf(RunTo(c, run + more, n), k) == {};
    }
  }

  lemma {:induction false} CleanRound(c: Config, k: Key, run: seq<Action>, a: Action, p: Action)
    requires StaysClean(c, k, run + [a] + [p])
    ensures StaysClean(c, k, run)
    ensures CellsOf(Run(c, run + [a]), k) == {} && CellsOf(Run(c, run + [a] + [p]), k) == {}
  {
    hide StaysClean, RunTo, CellsOf;
    CleanPrefix(c, k, run + [a], [p]);
    CleanPrefix(c, k, run, [a]);
    assert run + [a] + [p] + [] == run + [a] + [p];
    CleanPrefix(c, k, run + [a] + [p], []);
  }

  lemma {:induction false} PrimingState(c: Config, k: Key, ones: bool, near: bool, n: nat)
    requires Setting(c, k) && Neighbour(k, near).row >= 0 && n < Period(c)
    requires StaysClean(c, k, Priming(k, ones, near, n))
    ensures var s := Run(c, Priming(k, ones, near, n));
      && Holds(s, k, near, n, 0, 0.0, ones)
      && (if n == 0 then ClosedAt(c, s, k) && k !in s.victims && PatternOnes(s, k) == ones
          else OpenAt(c, s, k, Neighbour(k, near).row, 0) && k in s.victims)
  {
    hide Run, RunTo, ActionStep, StaysClean, Holds, OpenAt, ClosedAt, Setting, CellsOf;
    if n == 0 {
      PatternState(c, k, ones, near);
    } else {
      var run := Priming(k, ones, near, n - 1);
      var s, a := Run(c, run), ActAt(Neighbour(k, near), 0);
      LastClean(c, k, run + [a]);
      CleanPrefix(c, k, run, [a]);
      PrimingState(c, k, ones, near, n - 1);
      Calls.RunOne(c, run, a);
      PrimingStep(c, s, k, ones, near, n - 1);
    }
  }

  lemma {:induction false} LastClean(c: Config, k: Key, run: seq<Action>)
    requires StaysClean(c, k, run)
    ensures CellsOf(Run(c, run), k) == {}
  {
    hide RunTo, CellsOf;
  }

  lemma {:induction false} PatternState(c: Config, k: Key, ones: bool, near: bool)
    requires Setting(c, k)
    ensures var s := Run(c, Priming(k, ones, near, 0));
      && Holds(s, k, near, 0, 0, 0.0, ones) && ClosedAt(c, s, k)
      && k !in s.victims && PatternOnes(s, k) == ones
  {
    Calls.EmptyRun(c);
    if ones {
      var data := [0xFF];
      assert data[0] == 0xFF && data[0] != 0x00;
      Calls.RunOne(c, [], Written(k, data));
      assert [] + [Written(k, data)] == Priming(k, ones, near, 0);
    }
  }

  /** One more activation of the priming row, below the period or reaching it. */
  lemma {:induction false} PrimingStep(c: Config, s: State, k: Key, ones: bool, near: bool, n: nat)
    requires Setting(c, k) && Neighbour(k, near).row >= 0 && n < Period(c) && Holds(s, k, near, n, 0, 0.0, ones)
    requires if n == 0 then ClosedAt(c, s, k) && k !in s.victims && PatternOnes(s, k) == ones
             else OpenAt(c, s, k, Neighbour(k, near).row, 0) && k in s.victims
    ensures var t := ActionStep(c, s, ActAt(Neighbour(k, near), 0));
      var m := if n + 1 < Period(c) then n + 1 else 0;
      && OpenAt(c, t, k, Neighbour(k, near).row, 0) && k in t.victims
      && (CellsOf(t, k) == {} ==> Holds(t, k, near, m, 0, 0.0, ones))
  {
    hide ActionStep, OpenExact, PatternOnes;
    ActEffect(c, s, k, near, 0, 0, n, 0, 0.0, ones);
  }

  lemma {:induction false} PrimedState(c: Config, k: Key, ones: bool, near: bool)
    requires Setting(c, k) && Neighbour(k, near).row >= 0 && StaysClean(c, k, Priming(k, ones, near, Period(c)))
    ensures var s := Run(c, Priming(k, ones, near, Period(c)));
      Holds(s, k, near, 0, 0, 0.0, ones) && OpenAt(c, s, k, Neighbour(k, near).row, 0) && k in s.victims
  {
    hide Run, RunTo, ActionStep, StaysClean, Holds, OpenAt, ClosedAt, Setting, CellsOf;
    var n := Period(c) - 1;
    var run, a := Priming(k, ones, near, n), ActAt(Neighbour(k, near), 0);
    assert Priming(k, ones, near, Period(c)) == run + [a];
    LastClean(c, k, run + [a]);
    CleanPrefix(c, k, run, [a]);
    PrimingState(c, k, ones, near, n);
    Calls.RunOne(c, run, a);
    PrimingStep(c, Run(c, run), k, ones, near, n);
  }

  /** The state between rounds. */
  ghost predicate Ready(c: Config, s: State, k: Key, ones: bool, side: bool, x: nat, y: nat) {
    && Holds(s, k, side, x, y, Slack(Reduction(c), (x + y + 1) as real), ones)
    && ClosedAt(c, s, k) && k in s.victims
  }

  lemma {:induction false} OtherSide(c: Config, s: State, k: Key, ones: bool, side: bool, x: nat, y: nat)
    ensures Ready(c, s, k, ones, side, x, y) <==> Ready(c, s, k, ones, !side, y, x)
  {
    hide Slack;
    assert x + y + 1 == y + x + 1;
  }

  /** A long-open activation of one neighbour, and the precharge that settles it. */
  lemma {:induction false} Round(c: Config, run: seq<Action>, k: Key, ones: bool, side: bool, clk: int, x: nat, y: nat)
    requires Setting(c, k) && Neighbour(k, side).row >= 0 && x + 1 < Period(c)
    requires Ready(c, Run(c, run), k, ones, side, x, y)
    requires StaysClean(c, k, run + [ActAt(Neighbour(k, side), clk)] + [PreAt(k.bank, clk + DWELL_SATURATION)])
    ensures var more := run + [ActAt(Neighbour(k, side), clk)] + [PreAt(k.bank, clk + DWELL_SATURATION)];
      Ready(c, Run(c, more), k, ones, side, x + 1, y)
  {
    hide Run, RunTo, ActionStep, StaysClean, OpenAt, ClosedAt, Setting, Slack, CellsOf;
    var a, p := ActAt(Neighbour(k, side), clk), PreAt(k.bank, clk + DWELL_SATURATION);
    var s, bonus := Run(c, run), Slack(Reduction(c), (x + y + 1) as real);
    CleanRound(c, k, run, a, p);
    Calls.RunOne(c, run, a);
    ActEffect(c, s, k, side, 0, clk, x, y, bonus, ones);
    Calls.RunOne(c, run + [a], p);
    PreEffect(c, Run(c, run + [a]), k, Neighbour(k, side).row, clk, side, x + 1, y, bonus, ones);
    SlackMore(Reduction(c), (x + y + 1) as real);
  }

  lemma {:induction false} AttackState(c: Config, k: Key, ones: bool, near: bool, n: nat, f: nat)
    requires Setting(c, k) && Neighbour(k, near).row >= 0 && (f > 0 ==> Neighbour(k, !near).row >= 0)
    requires n < Period(c) && f < Period(c) && StaysClean(c, k, Attack(k, ones, Period(c), near, n, f))
    ensures Ready(c, Run(c, Attack(k, ones, Period(c), near, n, f)), k, ones, near, n, f)
    decreases f, n
  {
    hide Run, RunTo, ActionStep, StaysClean, Setting, Slack, Ready, CellsOf;
    var next := DWELL_SATURATION * (n + f);
    if f > 0 {
      var run := Attack(k, ones, Period(c), near, n, f - 1);
      CleanRound(c, k, run, ActAt(Neighbour(k, !near), next), PreAt(k.bank, next + DWELL_SATURATION));
      AttackState(c, k, ones, near, n, f - 1);
      OtherSide(c, Run(c, run), k, ones, near, n, f - 1);
      Round(c, run, k, ones, !near, next, f - 1, n);
      OtherSide(c, Run(c, Attack(k, ones, Period(c), near, n, f)), k, ones, near, n, f);
    } else if n > 0 {
      var run := Attack(k, ones, Period(c), near, n - 1, 0);
      CleanRound(c, k, run, ActAt(Neighbour(k, near), next), PreAt(k.bank, next + DWELL_SATURATION));
      AttackState(c, k, ones, near, n - 1, 0);
      Round(c, run, k, ones, near, next, n - 1, 0);
    } else {
      FirstClose(c, k, ones, near);
    }
  }

  lemma {:induction false} FirstClose(c: Config, k: Key, ones: bool, near: bool)
    requires Setting(c, k) && Neighbour(k, near).row >= 0
    requires StaysClean(c, k, Attack(k, ones, Period(c), near, 0, 0))
    ensures Ready(c, Run(c, Attack(k, ones, Period(c), near, 0, 0)), k, ones, near, 0, 0)
  {
    hide Run, RunTo, ActionStep, StaysClean, OpenAt, ClosedAt, Setting, Slack, Priming, CellsOf;
    var run, p := Priming(k, ones, near, Period(c)), PreAt(k.bank, DWELL_SATURATION);
    LastClean(c, k, run + [p]);
    CleanPrefix(c, k, run, [p]);
    PrimedState(c, k, ones, near);
    Calls.RunOne(c, run, p);
    PreEffect(c, Run(c, run), k, Neighbour(k, near).row, 0, near, 0, 0, 0.0, ones);
    SlackMore(Reduction(c), 0.0);
  }

  // ---- the last activation --------------------------------------------------------------------------------

  /** Exposure `l`, `r`, `b` reaches the threshold of row `k` that is active for it. */
  predicate CrossesWith(c: Config, k: Key, ones: bool, l: real, r: real, b: real) {
    if l > 0.0 && r > 0.0 then Min(l, r) * 2.0 + b >= c.Threshold(k, true, ones) as real
    else Max(l, r) + b >= c.Threshold(k, false, ones) as real
  }

  lemma {:induction false} TouchCrosses(c: Config, s: State, h: Hit)
    requires Sound(c, s) && h.key in s.victims && CellsOf(s, h.key) == {}
    requires CrossesWith(c, h.key, s.victims[h.key].ones, LeftOf(s, h.key) + (if h.left then h.weight else 0.0),
                         RightOf(s, h.key) + (if h.left then 0.0 else h.weight), BonusOf(s, h.key))
    ensures var u := Touched(c, s, h); u.victims[h.key].cells == {} && Crosses(u.victims[h.key])
  {
    hide Linked, Window;
    LatentOf(c, s, h.key);
  }

  lemma {:induction false} CreditFlips(c: Config, s: State, h: Hit)
    requires Sound(c, s) && StartsAtByteZero(c, h.key) && h.key in s.victims && CellsOf(s, h.key) == {}
    requires CrossesWith(c, h.key, s.victims[h.key].ones, LeftOf(s, h.key) + (if h.left then h.weight else 0.0),
                         RightOf(s, h.key) + (if h.left then 0.0 else h.weight), BonusOf(s, h.key))
    ensures CellsOf(Credit(c, s, h), h.key) != {}
  {
    var u := Touched(c, s, h);
    TouchRetouches(c, s, h);
    RetouchKeeps(c, s, u);
    TouchCrosses(c, s, h);
    assert Credit(c, s, h) == MaybeFlip(c, u, h.key) by { hide MaybeFlip; }
    hide MaybeFlip, Credit, Touched, Sound, StartsAtByteZero, Crosses, CrossesWith;
    CrossingFlips(c, u, h.key);
  }

  /** An activation whose credit crosses the row's threshold leaves it with a flipped cell. */
  lemma {:induction false} CreditAllFlips(c: Config, s: State, hits: seq<Hit>, rowOf: int -> Key, k: Key)
    requires Sound(c, s) && VictimsIn(c, s, k.bank) && BlocksApart(c, k.bank, rowOf) && StartsAtByteZero(c, k)
    requires k in s.victims && CellsOf(s, k) == {} && Occurs(Keys(hits), k) == 1
    requires forall i :: 0 <= i < |hits| ==> hits[i].key.bank == k.bank && c.RowExists(hits[i].key.row)
    requires CrossesWith(c, k, s.victims[k].ones, LeftOf(s, k) + SideWeight(hits, k, true),
                         RightOf(s, k) + SideWeight(hits, k, false), BonusOf(s, k))
    ensures CellsOf(CreditAll(c, s, hits), k) != {}
    decreases |hits|
  {
    hide Credit, Sound, VictimsIn, BlocksApart, StartsAtByteZero, CrossesWith, Clean;
    var h, t := hits[0], Credit(c, s, hits[0]);
    assert Keys(hits)[1..] == Keys(hits[1..]);
    CreditKeeps(c, s, h);
    CreditVictimsIn(c, s, h, k.bank);
    if h.key == k {
      NoWeight(hits[1..], k);
      CreditFlips(c, s, h);
      CreditAllKeepsCells(c, t, hits[1..], rowOf, k, false);
    } else {
      CreditBystander(c, s, h, k);
      CreditElsewhere(c, s, h, rowOf, k);
      CreditAllFlips(c, t, hits[1..], rowOf, k);
    }
  }

  lemma {:induction false} LastActivation(c: Config, s: State, k: Key, near: bool, clk: int, ones: bool, n: nat, f: nat,
      rowOf: int -> Key)
    requires Setting(c, k) && Neighbour(k, near).row >= 0 && Ready(c, s, k, ones, near, n, f)
    requires Sound(c, s) && VictimsIn(c, s, k.bank) && BlocksApart(c, k.bank, rowOf) && StartsAtByteZero(c, k)
    requires CrossesWith(c, k, ones, (n + 1) as real, f as real, Slack(Reduction(c), (n + f + 1) as real))
    ensures CellsOf(ActionStep(c, s, ActAt(Neighbour(k, near), clk)), k) != {}
  {
    hide CreditAll, OracleOnAct, Hits, Sound, VictimsIn, BlocksApart, StartsAtByteZero, CrossesWith, Slack, OpenExact,
         SideWeight, Classify;
    var e := ActAt(Neighbour(k, near), clk).event;
    var hits := Hits(c, e.bank, e.row, c.blast);
    Commands(Neighbour(k, near), k.bank, clk);
    CO.NeighbourHit(c, k, e);
    CO.HitsInBank(c, e.bank, e.row, c.blast);
    CrossesEitherWay(c, k, ones, (n + 1) as real, f as real, Slack(Reduction(c), (n + f + 1) as real));
    CreditAllFlips(c, s, hits, rowOf, k);
    var u := CreditAll(c, s, hits);
    var w := u.(open := Put(u.open, OpenRow(e.bank, e.row, e.clk, Keys(hits))));
    CA.OracleOverlay(c, w, e.bank, e.row, k);
  }

  lemma {:induction false} CrossesEitherWay(c: Config, k: Key, ones: bool, l: real, r: real, b: real)
    ensures CrossesWith(c, k, ones, l, r, b) == CrossesWith(c, k, ones, r, l, b)
  {
  }

  // ---- necessary and sufficient ---------------------------------------------------------------------------

  /** All activations of the run are in bank `b`. */
  ghost predicate OnlyBank(run: seq<Action>, b: BankKey) {
    forall i :: 0 <= i < |run| && IsActivation(run[i]) ==> run[i].event.bank == b
  }

  /** The attack activates the two neighbours only, the far one only when `f` is positive. */
  lemma {:induction false} AttackRows(k: Key, ones: bool, period: nat, near: bool, n: nat, f: nat, may: Key -> bool)
    requires Neighbour(k, near).row >= 0 && (f > 0 ==> Neighbour(k, !near).row >= 0)
    requires may(Neighbour(k, near)) && (f > 0 ==> may(Neighbour(k, !near)))
    ensures OnlyRows(Attack(k, ones, period, near, n, f), may) && OnlyBank(Attack(k, ones, period, near, n, f), k.bank)
    decreases f, n
  {
    hide IsActivation, Priming;
    forall clk, side: bool | Neighbour(k, side).row >= 0
      ensures !IsActivation(PreAt(k.bank, clk)) && IsActivation(ActAt(Neighbour(k, side), clk))
    {
      Commands(Neighbour(k, side), k.bank, clk);
    }
    forall clk ensures !IsActivation(PreAt(k.bank, clk)) { Commands(Neighbour(k, near), k.bank, clk); }
    if f > 0 {
      AttackRows(k, ones, period, near, n, f - 1, may);
    } else if n > 0 {
      AttackRows(k, ones, period, near, n - 1, 0, may);
    } else {
      PrimingRows(k, ones, near, period, may);
    }
  }

  lemma {:induction false} PrimingRows(k: Key, ones: bool, near: bool, n: nat, may: Key -> bool)
    requires may(Neighbour(k, near))
    ensures OnlyRows(Priming(k, ones, near, n), may) && OnlyBank(Priming(k, ones, near, n), k.bank)
  {
    if n > 0 { PrimingRows(k, ones, near, n - 1, may); }
  }

  lemma {:induction false} BankVictims(c: Config, run: seq<Action>, b: BankKey)
    requires OnlyBank(run, b)
    ensures VictimsIn(c, Run(c, run), b)
  {
    hide RunTo, IsActivation;
    forall j | j in Run(c, run).victims ensures j.bank == b && c.RowExists(j.row) {
      VictimsAreNeighbours(c, run, |run|, j);
      var i :| 0 <= i < |run| && Exposes(c, run[i], j);
    }
  }

  /** An attack that crosses a threshold at its last activation flips the row. */
  lemma {:induction false} AttackFlips(c: Config, k: Key, ones: bool, near: bool, n: nat, f: nat, rowOf: int -> Key)
    requires Setting(c, k) && BlocksApart(c, k.bank, rowOf) && StartsAtByteZero(c, k) && n < Period(c) && f < Period(c)
    requires Neighbour(k, near).row >= 0 && (f > 0 ==> Neighbour(k, !near).row >= 0)
    requires CrossesWith(c, k, ones, (n + 1) as real, f as real, Slack(Reduction(c), (n + f + 1) as real))
    ensures !StaysClean(c, k, Strike(k, ones, Period(c), near, n, f))
  {
    hide RunTo, ActionStep, BlocksApart, StartsAtByteZero, CrossesWith, Slack, Ready, Sound, VictimsIn, OnlyBank,
         CellsOf, StaysClean, Attack, Setting;
    if StaysClean(c, k, Strike(k, ones, Period(c), near, n, f)) {
      var run := Attack(k, ones, Period(c), near, n, f);
      var a := ActAt(Neighbour(k, near), DWELL_SATURATION * (n + f + 1));
      LastClean(c, k, run + [a]);
      CleanPrefix(c, k, run, [a]);
      AttackState(c, k, ones, near, n, f);
      AttackRows(k, ones, Period(c), near, n, f, (g: Key) => true);
      BankVictims(c, run, k.bank);
      RunSound(c, run, |run|);
      LastActivation(c, Run(c, run), k, near, a.event.clk, ones, n, f, rowOf);
      Calls.RunOne(c, run, a);
      assert false;
    }
  }

  lemma {:induction false} StrikeRows(k: Key, ones: bool, period: nat, near: bool, n: nat, f: nat, may: Key -> bool)
    requires Neighbour(k, near).row >= 0 && (f > 0 ==> Neighbour(k, !near).row >= 0)
    requires may(Neighbour(k, near)) && (f > 0 ==> may(Neighbour(k, !near)))
    ensures OnlyRows(Strike(k, ones, period, near, n, f), may)
  {
    hide Attack;
    AttackRows(k, ones, period, near, n, f, may);
  }

  /** A run over the rows that may be activated and during which the row is flipped, shows that it can be. */
  lemma {:induction false} FlippedOnTheWay(c: Config, k: Key, run: seq<Action>, may: Key -> bool)
    requires OnlyRows(run, may) && !StaysClean(c, k, run)
    ensures !NeverFlips(c, k, may)
  {
    hide RunTo, CellsOf;
    var n :| 0 <= n <= |run| && CellsOf(RunTo(c, run, n), k) != {};
    assert run[..n] + run[n..] == run;
    Calls.RunToPrefix(c, run[..n], run[n..], n);
    assert OnlyRows(run[..n], may);
  }

  /** A row whose neighbours are never activated is never a victim. */
  lemma {:induction false} OutOfReach(c: Config, k: Key, may: Key -> bool)
    requires Setting(c, k) && !may(LeftNeighbour(k)) && !may(RightNeighbour(k))
    ensures NeverFlips(c, k, may)
  {
    hide RunTo, Neighbours;
    forall run: seq<Action> | OnlyRows(run, may) ensures CellsOf(Run(c, run), k) == {} {
      VictimsAreNeighbours(c, run, |run|, k);
      if i :| 0 <= i < |run| && Exposes(c, run[i], k) {
        NearRings(c, Aggressor(run[i]), k);
        assert false;
      }
    }
  }

  /** One activation less than the period on both sides, with long dwells, reaches the double-sided threshold. */
  predicate ReachesDouble(c: Config, k: Key, ones: bool) {
    DoubleExposure(c, Reduction(c)) >= c.Threshold(k, true, ones) as real
  }

  /** A period of activations of one side, with long dwells, reaches the single-sided threshold. */
  predicate ReachesSingle(c: Config, k: Key, ones: bool) {
    SingleExposure(c, Reduction(c)) >= c.Threshold(k, false, ones) as real
  }

  lemma {:induction false} NotProtected(c: Config, k: Key, threat: Threat)
    requires Setting(c, k) && threat.worth == Reduction(c) && !Protected(c, k, threat)
    ensures (Period(c) >= 2 && threat.left && threat.right && exists ones :: ReachesDouble(c, k, ones))
      || exists ones :: ReachesSingle(c, k, ones)
  {
    hide DoubleExposure, SingleExposure;
    var both := Period(c) >= 2 && threat.left && threat.right;
    if (!both || forall ones :: !ReachesDouble(c, k, ones)) && forall ones :: !ReachesSingle(c, k, ones) {
      forall ones ensures SingleExposure(c, Reduction(c)) < c.Threshold(k, false, ones) as real {
        assert !ReachesSingle(c, k, ones);
      }
      forall ones | both ensures DoubleExposure(c, Reduction(c)) < c.Threshold(k, true, ones) as real {
        assert !ReachesDouble(c, k, ones);
      }
      assert false;
    }
  }

  /** Reaching the double-sided threshold takes a period of one neighbour and one activation less of the other. */
  lemma {:induction false} DoubleStrike(c: Config, k: Key, ones: bool, near: bool, rowOf: int -> Key)
    requires Setting(c, k) && BlocksApart(c, k.bank, rowOf) && StartsAtByteZero(c, k)
    requires Period(c) >= 2 && Neighbour(k, true).row >= 0 && ReachesDouble(c, k, ones)
    ensures !StaysClean(c, k, Strike(k, ones, Period(c), near, Period(c) - 1, Period(c) - 1))
  {
    hide Slack, BlocksApart, StartsAtByteZero, StaysClean;
    var p := Period(c) - 1;
    assert (2 * Period(c) - 1) as real == (p + p + 1) as real;
    AttackFlips(c, k, ones, near, p, p, rowOf);
  }

  /** Reaching the single-sided threshold takes a period of one neighbour. */
  lemma {:induction false} SingleStrike(c: Config, k: Key, ones: bool, near: bool, rowOf: int -> Key)
    requires Setting(c, k) && BlocksApart(c, k.bank, rowOf) && StartsAtByteZero(c, k)
    requires Neighbour(k, near).row >= 0 && ReachesSingle(c, k, ones)
    ensures !StaysClean(c, k, Strike(k, ones, Period(c), near, Period(c) - 1, 0))
  {
    hide Slack, BlocksApart, StartsAtByteZero, StaysClean;
    var p := Period(c) - 1;
    assert Period(c) as real == (p + 0 + 1) as real == (p + 1) as real;
    AttackFlips(c, k, ones, near, p, 0, rowOf);
  }

  /** The oracle protects a row over all runs on the rows that may be activated, dwell effects and stored patterns
      included, if and only if none of its neighbours may be activated or it meets the protection condition for
      the most that a dwell is worth and for the neighbours that may be activated. */
  lemma {:induction false} OracleExact(c: Config, k: Key, may: Key -> bool, rowOf: int -> Key)
    requires Setting(c, k) && BlocksApart(c, k.bank, rowOf) && StartsAtByteZero(c, k)
    requires forall g :: may(g) ==> g.row >= 0
    ensures NeverFlips(c, k, may) <==>
      (!may(LeftNeighbour(k)) && !may(RightNeighbour(k))) || Protected(c, k, ThreatOf(c, k, may))
  {
    hide RunTo, BlocksApart, StartsAtByteZero, Setting, CellsOf, NeverFlips, StaysClean, Strike, ReachesDouble,
         ReachesSingle, OnlyRows, Protected;
    var threat, p, near := ThreatOf(c, k, may), Period(c) - 1, may(LeftNeighbour(k));
    if !threat.left && !threat.right {
      OutOfReach(c, k, may);
    } else if Protected(c, k, threat) {
      Sufficient(c, k, may);
    } else if ones :| Period(c) >= 2 && threat.left && threat.right && ReachesDouble(c, k, ones) {
      DoubleStrike(c, k, ones, true, rowOf);
      StrikeRows(k, ones, Period(c), true, p, p, may);
      FlippedOnTheWay(c, k, Strike(k, ones, Period(c), true, p, p), may);
    } else {
      NotProtected(c, k, threat);
      var ones :| ReachesSingle(c, k, ones);
      SingleStrike(c, k, ones, near, rowOf);
      StrikeRows(k, ones, Period(c), near, p, 0, may);
      FlippedOnTheWay(c, k, Strike(k, ones, Period(c), near, p, 0), may);
    }
  }

  lemma {:induction false} Sufficient(c: Config, k: Key, may: Key -> bool)
    requires Setting(c, k) && Protected(c, k, ThreatOf(c, k, may))
    ensures NeverFlips(c, k, may)
  {
    hide RunTo, Protected, CellsOf, DwellsWithin;
    forall run: seq<Action> | OnlyRows(run, may) ensures CellsOf(Run(c, run), k) == {} {
      ProfileDwells(c, run, |run|, Reduction(c));
      ProtectedNeverFlips(c, run, |run|, k, ThreatOf(c, k, may));
    }
  }

  // ---- the default period ---------------------------------------------------------------------------------

  /** The default period, two fifths of the calibrated double-sided threshold, protects the known target over all
      runs if and only if a period less one of both neighbours stays below the double-sided threshold, and a
      period of one neighbour below the single-sided one, each dwell counted for the most it is worth. */
  lemma {:induction false} DefaultExact(c: Config, may: Key -> bool, rowOf: int -> Key)
    requires Setting(c, c.knownKey) && c.tRH == DefaultTRH(c.knownThreshold)
    requires BlocksApart(c, c.knownKey.bank, rowOf) && StartsAtByteZero(c, c.knownKey)
    requires may(LeftNeighbour(c.knownKey)) && may(RightNeighbour(c.knownKey)) && forall g :: may(g) ==> g.row >= 0
    ensures var d, rho := DefaultTRH(c.knownThreshold), Reduction(c);
      NeverFlips(c, c.knownKey, may) <==>
        && (d >= 2 ==> (2 * d - 2) as real + (rho - 1.0) * (2 * d - 1) as real < c.knownThreshold as real)
        && d as real + (rho - 1.0) * d as real < c.knownSingle as real
  {
    hide NeverFlips, BlocksApart, StartsAtByteZero, Protected;
    OracleExact(c, c.knownKey, may, rowOf);
    DefaultCondition(c, Threat(Reduction(c), true, true));
  }

  lemma {:induction false} DefaultCondition(c: Config, threat: Threat)
    requires Setting(c, c.knownKey) && c.tRH == DefaultTRH(c.knownThreshold)
    requires threat == Threat(Reduction(c), true, true)
    ensures Protected(c, c.knownKey, threat) <==>
      && (Period(c) >= 2 ==> DoubleExposure(c, Reduction(c)) < c.knownThreshold as real)
      && SingleExposure(c, Reduction(c)) < c.knownSingle as real
    ensures Period(c) == DefaultTRH(c.knownThreshold)
  {
    hide DoubleExposure, SingleExposure;
    assert c.Threshold(c.knownKey, false, false) == c.knownSingle;
    assert c.Threshold(c.knownKey, true, false) == c.knownThreshold;
  }

  /** Without dwell effects the default protects the known target if and only if it is below the single-sided
      threshold: the double-sided half of the condition always holds. */
  lemma {:induction false} DefaultWithoutDwells(c: Config, may: Key -> bool, rowOf: int -> Key)
    requires Setting(c, c.knownKey) && c.tRH == DefaultTRH(c.knownThreshold) && Reduction(c) == 1.0
    requires BlocksApart(c, c.knownKey.bank, rowOf) && StartsAtByteZero(c, c.knownKey)
    requires may(LeftNeighbour(c.knownKey)) && may(RightNeighbour(c.knownKey)) && forall g :: may(g) ==> g.row >= 0
    ensures NeverFlips(c, c.knownKey, may) <==> DefaultTRH(c.knownThreshold) < c.knownSingle
  {
    hide NeverFlips, BlocksApart, StartsAtByteZero, Setting;
    DefaultExact(c, may, rowOf);
  }

  /** With a profile that counts a long dwell for three activations or more, as every family of the shipped one
      does, the default protects no target whose calibrated threshold is 5 or more: a period of one neighbour and
      one activation less of the other, all held open long, flip it. */
  lemma {:induction false} LongDwellsDefeatDefault(c: Config, near: bool, rowOf: int -> Key)
    requires Setting(c, c.knownKey) && c.tRH == DefaultTRH(c.knownThreshold) && c.knownKey.row >= 1
    requires Reduction(c) >= 3.0 && c.knownThreshold >= 5
    requires BlocksApart(c, c.knownKey.bank, rowOf) && StartsAtByteZero(c, c.knownKey)
    ensures var d := DefaultTRH(c.knownThreshold);
      !StaysClean(c, c.knownKey, Strike(c.knownKey, false, d, near, d - 1, d - 1))
  {
    hide BlocksApart, StartsAtByteZero, Setting, StaysClean, Strike;
    var d := DefaultTRH(c.knownThreshold);
    Scale((2 * d - 1) as real, 2.0, Reduction(c) - 1.0);
    assert Slack(Reduction(c), (2 * d - 1) as real) >= 2.0 * (2 * d - 1) as real;
    assert 5 * d >= 2 * c.knownThreshold - 4;
    DoubleStrike(c, c.knownKey, false, near, rowOf);
  }

  /** At the numbers of one shipped family, 5000 and 10000 activations and a reduction of 18.666667, the default is
      2000, and the flip is in the run below. */
  lemma {:induction false} ShippedDefaultFails(c: Config, rowOf: int -> Key)
    requires Setting(c, c.knownKey) && c.knownKey.row >= 1 && c.RowExists(c.knownKey.row + 1)
    requires c.tRH == DefaultTRH(c.knownThreshold)
    requires c.knownThreshold == 5000 && c.knownSingle == 10000 && c.rowPress == Some(18.666667)
    requires BlocksApart(c, c.knownKey.bank, rowOf) && StartsAtByteZero(c, c.knownKey)
    ensures !StaysClean(c, c.knownKey, Strike(c.knownKey, false, 2000, true, 1999, 1999))
    ensures !NeverFlips(c, c.knownKey, ExistingRows(c))
  {
    hide BlocksApart, StartsAtByteZero, Setting, StaysClean, Strike, NeverFlips;
    LongDwellsDefeatDefault(c, true, rowOf);
    StrikeRows(c.knownKey, false, 2000, true, 1999, 1999, ExistingRows(c));
    FlippedOnTheWay(c, c.knownKey, Strike(c.knownKey, false, 2000, true, 1999, 1999), ExistingRows(c));
  }
}
