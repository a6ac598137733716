/** The open-row table over whole runs.

    The table is an insertion-ordered dictionary. In every reachable state it holds exactly the banks
    whose latest activation has not been followed by a precharge that covers them, with that
    activation's row, clock and exposed neighbours; so every activation's dwell is settled at most
    once. Lengthening an idle period in which no row is open changes nothing but the clocks. */
module OpenRows {
  import opened DisturbanceModel
  import opened Exposures
  import opened History

  // ---- the table ------------------------------------------------------------------------------------------

  lemma {:induction false} EntryBank(open: seq<OpenRow>, b: BankKey)
    requires IsOpen(open, b)
    ensures Entry(open, b).bank == b && Entry(open, b) in open
  {
    if open[0].bank != b { EntryBank(open[1..], b); }
  }

  ghost predicate Unique(open: seq<OpenRow>) {
    open == [] || (!IsOpen(open[1..], open[0].bank) && Unique(open[1..]))
  }

  lemma {:induction false} RemoveFacts(open: seq<OpenRow>, x: BankKey, b: BankKey)
    requires Unique(open)
    ensures IsOpen(Remove(open, x), b) <==> b != x && IsOpen(open, b)
    ensures b != x && IsOpen(open, b) ==> Entry(Remove(open, x), b) == Entry(open, b)
  {
    if open != [] && open[0].bank != x { RemoveFacts(open[1..], x, b); }
  }

  lemma {:induction false} RemoveUnique(open: seq<OpenRow>, x: BankKey)
    requires Unique(open)
    ensures Unique(Remove(open, x))
  {
    if open != [] && open[0].bank != x {
      RemoveUnique(open[1..], x);
      RemoveFacts(open[1..], x, open[0].bank);
    }
  }

  lemma {:induction false} PutFacts(open: seq<OpenRow>, e: OpenRow, b: BankKey)
    ensures IsOpen(Put(open, e), b) <==> b == e.bank || IsOpen(open, b)
    ensures IsOpen(Put(open, e), b) ==> Entry(Put(open, e), b) == if b == e.bank then e else Entry(open, b)
  {
    if open != [] && open[0].bank != e.bank { PutFacts(open[1..], e, b); }
  }

  lemma {:induction false} PutUnique(open: seq<OpenRow>, e: OpenRow)
    requires Unique(open)
    ensures Unique(Put(open, e))
  {
    if open != [] && open[0].bank != e.bank {
      PutUnique(open[1..], e);
      PutFacts(open[1..], e, open[0].bank);
    }
  }

  lemma {:induction false} ClosedBanksExact(open: seq<OpenRow>, scope: BankKey, b: BankKey)
    ensures b in ClosedBanks(open, scope) <==> IsOpen(open, b) && InScope(scope, b)
  {
    if open != [] { ClosedBanksExact(open[1..], scope, b); }
  }

  /** A close scope with every coordinate given covers that one bank, -1 in a coordinate covers all its
      values. */
  lemma {:induction false} ScopeMeaning(scope: BankKey, b: BankKey)
    requires b.channel >= 0 && b.rank >= 0 && b.bankgroup >= 0 && b.bank >= 0
    ensures scope.channel >= 0 && scope.rank >= 0 && scope.bankgroup >= 0 && scope.bank >= 0 ==>
      (InScope(scope, b) <==> scope == b)
    ensures scope.bankgroup == -1 && scope.bank == -1 && scope.channel >= 0 && scope.rank >= 0 ==>
      (InScope(scope, b) <==> InRank(Key(b, 0), scope))
    ensures InScope(BankKey(-1, -1, -1, -1), b)
  {
  }

  lemma {:induction false} PrefixIs(op: string, prefix: string)
    ensures StartsWith(op, prefix) <==> prefix <= op
    ensures |prefix| == 3 && StartsWith(op, prefix) ==> op[0] == prefix[0] && op[1] == prefix[1]
  {
    if StartsWith(op, prefix) && |prefix| == 3 {
      assert op[..3][0] == op[0] && op[..3][1] == op[1];
    }
  }

  /** The class of every command: an activation; a close, which is a precharge of any kind or an access with
      auto-precharge; a refresh of any kind; a plain access or a victim-row refresh; and nothing else. */
  lemma {:induction false} CommandClasses(op: string)
    ensures Classify(op) == Hammer <==> op == "ACT"
    ensures Classify(op) == Close <==> "PRE" <= op || op == "RDA" || op == "WRA"
    ensures Classify(op) == Refresh <==> "REF" <= op || "RFM" <= op
    ensures Classify(op) == Inert <==> op == "RD" || op == "WR" || op == "VRR"
  {
    PrefixIs(op, "PRE");
    PrefixIs(op, "REF");
    PrefixIs(op, "RFM");
    hide StartsWith;
  }

  // ---- one action -----------------------------------------------------------------------------------------

  lemma {:induction false} SettleAllOpen(c: Config, s: State, banks: seq<BankKey>, clk: int, b: BankKey)
    requires Unique(s.open)
    ensures var t := SettleAll(c, s, banks, clk);
      && Unique(t.open)
      && (IsOpen(t.open, b) <==> IsOpen(s.open, b) && b !in banks)
      && (IsOpen(t.open, b) ==> Entry(t.open, b) == Entry(s.open, b))
    decreases |banks|
  {
    hide Settle;
    if banks != [] {
      var x := banks[0];
      var t := if IsOpen(s.open, x) then Settle(c, s, x, clk) else s;
      if IsOpen(s.open, x) {
        SettleEffect(c, s, x, clk, Key(x, 0));
        RemoveFacts(s.open, x, b);
        RemoveUnique(s.open, x);
      }
      SettleAllOpen(c, t, banks[1..], clk, b);
    }
  }

  lemma {:induction false} HammerOpen(c: Config, s: State, e: Event, b: BankKey)
    requires Unique(s.open) && e.row >= 0
    ensures var t := HammerStep(c, s, e);
      && Unique(t.open)
      && (IsOpen(t.open, b) <==> b == e.bank || IsOpen(s.open, b))
      && (IsOpen(t.open, b) && b == e.bank ==>
            Entry(t.open, b) == OpenRow(b, e.row, e.clk, Keys(Hits(c, b, e.row, c.blast))))
      && (IsOpen(t.open, b) && b != e.bank ==> Entry(t.open, b) == Entry(s.open, b))
  {
    HammerSplit(c, s, e);
    var u := Credited(c, s, e);
    CreditedOpen(c, s, e, b);
    hide HammerStep, Credited, OracleOnAct;
    if c.oracle { OracleBooks(c, u, Key(e.bank, e.row), Key(e.bank, 0)); }
  }

  lemma {:induction false} CreditedOpen(c: Config, s: State, e: Event, b: BankKey)
    requires Unique(s.open)
    ensures var t := Credited(c, s, e);
      && Unique(t.open)
      && (IsOpen(t.open, b) <==> b == e.bank || IsOpen(s.open, b))
      && (IsOpen(t.open, b) && b == e.bank ==>
            Entry(t.open, b) == OpenRow(b, e.row, e.clk, Keys(Hits(c, b, e.row, c.blast))))
      && (IsOpen(t.open, b) && b != e.bank ==> Entry(t.open, b) == Entry(s.open, b))
  {
    hide Settle, CreditAll, Hits;
    var k := Key(e.bank, 0);
    var reopen := IsOpen(s.open, e.bank) && Entry(s.open, e.bank).row != e.row;
    if reopen {
      SettleEffect(c, s, e.bank, e.clk, k);
      RemoveFacts(s.open, e.bank, b);
      RemoveUnique(s.open, e.bank);
    }
    var settled := if reopen then Settle(c, s, e.bank, e.clk) else s;
    var hits := Hits(c, e.bank, e.row, c.blast);
    CreditAllEffect(c, settled, hits, k);
    PutFacts(settled.open, OpenRow(e.bank, e.row, e.clk, Keys(hits)), b);
    PutUnique(settled.open, OpenRow(e.bank, e.row, e.clk, Keys(hits)));
  }

  // ---- the table is its history ---------------------------------------------------------------------------

  /** Action `a` activates some row of bank `b`. */
  predicate Opens(a: Action, b: BankKey) {
    IsActivation(a) && a.event.bank == b
  }

  /** Action `a` is a precharge whose scope covers bank `b`. */
  predicate Covers(a: Action, b: BankKey) {
    a.Issue? && Classify(a.event.op) == Close && InScope(a.event.bank, b)
  }

  /** The position after the latest activation in bank `b` among the first `n` actions; 0 if none. */
  function LatestOpen(run: seq<Action>, n: nat, b: BankKey): (i: nat)
    requires n <= |run|
    ensures i <= n && (i > 0 ==> Opens(run[i - 1], b))
    ensures forall j :: i <= j < n ==> !Opens(run[j], b)
  {
    if n == 0 then 0 else if Opens(run[n - 1], b) then n else LatestOpen(run, n - 1, b)
  }

  /** Bank `b` has an activation that no covering precharge has followed. */
  ghost predicate StillOpen(run: seq<Action>, n: nat, b: BankKey)
    requires n <= |run|
  {
    LatestOpen(run, n, b) > 0 && forall j :: LatestOpen(run, n, b) <= j < n ==> !Covers(run[j], b)
  }

  lemma {:induction false} ActionOpen(c: Config, s: State, a: Action, b: BankKey)
    requires Unique(s.open)
    ensures var t := ActionStep(c, s, a);
      && Unique(t.open)
      && (IsOpen(t.open, b) <==> Opens(a, b) || (IsOpen(s.open, b) && !Covers(a, b)))
      && (Opens(a, b) && IsOpen(t.open, b) ==>
            Entry(t.open, b) == OpenRow(b, a.event.row, a.event.clk, Keys(Hits(c, b, a.event.row, c.blast))))
      && (!Opens(a, b) && IsOpen(t.open, b) ==> Entry(t.open, b) == Entry(s.open, b))
  {
    hide HammerStep, SettleAll, RefreshStep, Restore, Classify, Hits;
    match a
    case Issue(e) =>
      if e.row < 0 { IdleHammer(c, s, e); } else { HammerOpen(c, s, e, b); }
      SettleAllOpen(c, s, ClosedBanks(s.open, e.bank), e.clk, b);
      ClosedBanksExact(s.open, e.bank, b);
      RefreshCounts(c, s, e.bank, b);
    case Overwrite(addr, size) => RestoreEffect(s, addr, size, Key(b, 0));
    case Written(k, data) =>
  }

  lemma {:induction false} OpenIsHistory(c: Config, run: seq<Action>, n: nat, b: BankKey)
    requires n <= |run|
    ensures var open := RunTo(c, run, n).open;
      && Unique(open)
      && (IsOpen(open, b) <==> StillOpen(run, n, b))
      && (IsOpen(open, b) ==>
            var e := run[LatestOpen(run, n, b) - 1].event;
            Entry(open, b) == OpenRow(b, e.row, e.clk, Keys(Hits(c, b, e.row, c.blast))))
  {
    hide ActionStep, Hits, Covers, Unique;
    if n > 0 {
      OpenIsHistory(c, run, n - 1, b);
      ActionOpen(c, RunTo(c, run, n - 1), run[n - 1], b);
    } else {
      assert Unique([]) by { NothingOpen(); }
    }
  }

  lemma {:induction false} NothingOpen()
    ensures Unique([])
  {
  }

  /** Action `j` settles the dwell of the activation at position `i` of bank `b`. */
  ghost predicate Settles(run: seq<Action>, j: nat, i: nat, b: BankKey)
    requires j < |run|
  {
    && StillOpen(run, j, b) && LatestOpen(run, j, b) == i + 1
    && (Covers(run[j], b) || (Opens(run[j], b) && run[j].event.row != run[i].event.row))
  }

  /** No dwell that the first `n` actions settle is worth more than `worth` activations. */
  ghost predicate DwellsWithin(c: Config, run: seq<Action>, n: nat, worth: real)
    requires n <= |run|
  {
    forall j: nat, i: nat, b :: i < j < n && Settles(run, j, i, b) ==>
      c.Factor(run[j].event.clk - run[i].event.clk) <= worth
  }

  /** What that says about the open-row table: the dwell of an open row that action `m` closes. */
  lemma {:induction false} SettledWithin(c: Config, run: seq<Action>, m: nat, n: nat, b: BankKey, worth: real)
    requires m < n <= |run| && DwellsWithin(c, run, n, worth) && run[m].Issue?
    requires IsOpen(RunTo(c, run, m).open, b)
    requires Covers(run[m], b) || (Opens(run[m], b) && run[m].event.row != Entry(RunTo(c, run, m).open, b).row)
    ensures c.Factor(run[m].event.clk - Entry(RunTo(c, run, m).open, b).clk) <= worth
  {
    hide RunTo;
    OpenIsHistory(c, run, m, b);
    var i := LatestOpen(run, m, b) - 1;
    assert Settles(run, m, i, b);
  }

  /** No activation's dwell is settled twice. */
  lemma {:induction false} SettledOnce(run: seq<Action>, i: nat, j: nat, j': nat, b: BankKey)
    requires j < j' < |run| && Settles(run, j, i, b)
    ensures !Settles(run, j', i, b)
  {
    LatestGrows(run, j + 1, j', b);
  }

  lemma {:induction false} LatestGrows(run: seq<Action>, n: nat, m: nat, b: BankKey)
    requires n <= m <= |run|
    ensures LatestOpen(run, n, b) <= LatestOpen(run, m, b)
  {
    if n < m { LatestGrows(run, n, m - 1, b); }
  }
}
