/** The exact cells of a campaign's target.

    Every activation of a campaign asks for cells in proportion to the counts so far, and layers them
    over those the row has. When the requests never shrink, as with alternating activations, the row
    holds exactly the cells kept from the first `N` of its sequence, `N` being what the counts ask for. */
module CampaignCells {
  import opened DisturbanceModel
  import opened Exposures
  import opened History
  import opened Overlay
  import opened OracleProtection
  import opened HammerOutcome
  import opened FlippedCells
  import Strata
  import opened Campaigns
  import opened CampaignOutcomes

  /** The cells that the counts of the first `n` actions ask for. */
  function AskedAt(c: Config, k: Key, run: seq<Action>, n: nat): nat
    requires n <= |run|
  {
    Asked(c, k, Data(run, n, k), Lefts(run, n, k) as real, Rights(run, n, k) as real, 0.0)
  }

  /** What the requests of the first `n` actions leave, each layered over the earlier ones. */
  ghost function Recruited(c: Config, k: Key, run: seq<Action>, n: nat): set<Cell>
    requires n <= |run|
  {
    if n == 0 then {}
    else
      var cs := FirstCells(c, k, AskedAt(c, k, run, n));
      (set x | x in Recruited(c, k, run, n - 1) && !AtByte(cs, x.off)) + (set x | x in cs && LastAt(cs, x))
  }

  lemma {:induction false} LayersAre(before: set<Cell>, after: set<Cell>, cs: seq<Cell>)
    requires Layered(before, after, cs)
    ensures after == (set x | x in before && !AtByte(cs, x.off)) + (set x | x in cs && LastAt(cs, x))
  {
    forall x ensures LastAt(cs, x) ==> x in cs {}
  }

  lemma {:induction false} SameLayer(before: set<Cell>, after: set<Cell>, cs: seq<Cell>)
    requires after == (set x | x in before && !AtByte(cs, x.off)) + (set x | x in cs && LastAt(cs, x))
    ensures Layered(after, after, cs)
  {
    forall x | LastAt(cs, x) ensures AtByte(cs, x.off) && x in cs { LastInByte(cs, x); }
  }

  /** A command that activates nothing leaves the request as it was. */
  lemma {:induction false} PassiveAsks(c: Config, k: Key, run: seq<Action>, n: nat)
    requires 0 < n <= |run| && Campaign(c, k, run) && !IsActivation(run[n - 1])
    ensures AskedAt(c, k, run, n) == AskedAt(c, k, run, n - 1)
    ensures n == 1 ==> AskedAt(c, k, run, n) == 0
  {
    assert InCampaign(k, run, n - 1);
    hide Campaign, Asked, Data;
    if run[n - 1].Issue? {
      DataKept(c, k, run, n);
    }
    if n == 1 || !run[n - 1].Issue? {
      CountsFromNothing(c, k, run, n);
      CountsFromNothing(c, k, run, n - 1);
      NoCountsNothingAsked(c, k, Data(run, n, k));
      NoCountsNothingAsked(c, k, Data(run, n - 1, k));
    }
  }

  lemma {:induction false} NoCountsNothingAsked(c: Config, k: Key, ones: bool)
    ensures Asked(c, k, ones, 0.0, 0.0, 0.0) == 0
  {
  }

  lemma {:induction false} PassiveRecruits(c: Config, k: Key, run: seq<Action>, n: nat)
    requires 0 < n <= |run| && Campaign(c, k, run) && !IsActivation(run[n - 1])
    ensures Recruited(c, k, run, n) == Recruited(c, k, run, n - 1)
  {
    hide Campaign, AskedAt;
    PassiveAsks(c, k, run, n);
    var cs := FirstCells(c, k, AskedAt(c, k, run, n));
    if n > 1 {
      SameLayer(Recruited(c, k, run, n - 2), Recruited(c, k, run, n - 1), cs);
      LayersAre(Recruited(c, k, run, n - 1), Recruited(c, k, run, n - 1), cs);
    } else {
      assert cs == [];
    }
  }

  /** The row has no bonus and the stratum of its data, at every point of a campaign. */
  lemma {:induction false} CampaignSteady(c: Config, k: Key, run: seq<Action>, n: nat)
    requires n <= |run| && Campaign(c, k, run)
    ensures Steady(RunTo(c, run, n), k, Data(run, n, k))
  {
    if n == 0 {
      DataIsStratum(c, k, run, n);
    } else {
      assert InCampaign(k, run, n - 1);
      hide RunTo, Campaign, Steady, Data;
      if run[n - 1].Issue? {
        CampaignSteady(c, k, run, n - 1);
        CommandSteady(c, k, run, n);
      } else {
        DataIsStratum(c, k, run, n);
      }
    }
  }

  lemma {:induction false} CommandSteady(c: Config, k: Key, run: seq<Action>, n: nat)
    requires 0 < n <= |run| && Campaign(c, k, run) && run[n - 1].Issue?
    requires Steady(RunTo(c, run, n - 1), k, Data(run, n - 1, k))
    ensures Steady(RunTo(c, run, n), k, Data(run, n, k))
  {
    hide RunTo, Campaign, Steady, Data, SameOverlay, SameAt, CreditAll, Hits, Preserves;
    var s, t, e, ones := RunTo(c, run, n - 1), RunTo(c, run, n), run[n - 1].event, Data(run, n - 1, k);
    DataKept(c, k, run, n);
    CampaignStep(c, k, run, n);
    if IsActivation(run[n - 1]) {
      CreditsSteady(c, k, run, n - 1);
      StaysSteady(c, CreditAll(c, s, Hits(c, e.bank, e.row, c.blast)), t, k, ones);
    } else {
      StaysSteady(c, s, t, k, ones);
    }
  }

  lemma {:induction false} StaysSteady(c: Config, s: State, t: State, k: Key, ones: bool)
    requires Preserves(c, s, t, k) && Steady(s, k, ones)
    ensures Steady(t, k, ones)
  {
    hide Steady, Clean;
  }

  lemma {:induction false} CreditsSteady(c: Config, k: Key, run: seq<Action>, m: nat)
    requires m < |run| && Campaign(c, k, run) && IsActivation(run[m])
    requires Steady(RunTo(c, run, m), k, Data(run, m, k))
    ensures var e := run[m].event;
      Steady(CreditAll(c, RunTo(c, run, m), Hits(c, e.bank, e.row, c.blast)), k, Data(run, m, k))
  {
    hide RunTo, CreditAll, Hits, Campaign, Data, IsHit, SideWeight;
    var s, e := RunTo(c, run, m), run[m].event;
    var hits := Hits(c, e.bank, e.row, c.blast);
    CreditAllEffect(c, s, hits, k);
    Strata.CreditAllLatches(c, s, hits);
  }

  /** The cells of a campaign's target are those its requests leave. */
  lemma {:induction false} CampaignRecruits(c: Config, k: Key, run: seq<Action>, n: nat, rowOf: int -> Key)
    requires n <= |run| && Campaign(c, k, run) && (n > 0 ==> OracleIdle(c, run, n - 1, k))
    requires BlocksApart(c, k.bank, rowOf)
    ensures CellsOf(RunTo(c, run, n), k) == Recruited(c, k, run, n)
  {
    if n > 0 {
      hide Campaign, BlocksApart, RunTo, OracleIdle, CellsOf, Recruited;
      var m := n - 1;
      if m > 0 { IdleBefore(c, run, m, k); }
      CampaignRecruits(c, k, run, m, rowOf);
      if IsActivation(run[m]) {
        ActivationRecruits(c, k, run, m, rowOf);
        NextLayer(c, k, run, n, CellsOf(RunTo(c, run, n), k));
      } else {
        PassiveCells(c, k, run, n);
        PassiveRecruits(c, k, run, n);
      }
    }
  }

  lemma {:induction false} NextLayer(c: Config, k: Key, run: seq<Action>, n: nat, after: set<Cell>)
    requires 0 < n <= |run|
    requires Layered(Recruited(c, k, run, n - 1), after, FirstCells(c, k, AskedAt(c, k, run, n)))
    ensures after == Recruited(c, k, run, n)
  {
    hide AskedAt, Layered, FirstCells;
    LayersAre(Recruited(c, k, run, n - 1), after, FirstCells(c, k, AskedAt(c, k, run, n)));
  }

  lemma {:induction false} PassiveCells(c: Config, k: Key, run: seq<Action>, n: nat)
    requires 0 < n <= |run| && Campaign(c, k, run) && !IsActivation(run[n - 1])
    ensures CellsOf(RunTo(c, run, n), k) == CellsOf(RunTo(c, run, n - 1), k)
  {
    assert InCampaign(k, run, n - 1);
    hide RunTo, Campaign, Preserves;
    if run[n - 1].Issue? { CampaignStep(c, k, run, n); } else { WriteStep(c, k, run, n); }
  }

  lemma {:induction false} ActivationRecruits(c: Config, k: Key, run: seq<Action>, m: nat, rowOf: int -> Key)
    requires m < |run| && Campaign(c, k, run) && IsActivation(run[m]) && OracleIdle(c, run, m, k)
    requires BlocksApart(c, k.bank, rowOf)
    ensures Layered(CellsOf(RunTo(c, run, m), k), CellsOf(RunTo(c, run, m + 1), k),
                    FirstCells(c, k, AskedAt(c, k, run, m + 1)))
  {
    hide RunTo, CreditAll, Hits, Preserves, Sound, Campaign, BlocksApart, VictimsIn, Asked, OracleIdle, SideWeight,
         Activates, Keys, RingHits, Activations, Data, Layered, FirstCells, CellsOf;
    var s, e := RunTo(c, run, m), run[m].event;
    CampaignActivates(c, k, run, m);
    CampaignStep(c, k, run, m + 1);
    CampaignCounts(c, k, run, m);
    CampaignVictims(c, k, run, m);
    CampaignSteady(c, k, run, m);
    DataKept(c, k, run, m + 1);
    RunSound(c, run, m);
    NeighbourHit(c, k, e);
    CountsAfter(run, m, k);
    HitsInBank(c, e.bank, e.row, c.blast);
    CreditAllLayer(c, s, Hits(c, e.bank, e.row, c.blast), rowOf, k);
  }

  // ---- requests that never shrink ---------------------------------------------------------------------------------

  /** Every cell the target holds is at a byte of the largest request so far. */
  lemma {:induction false} RecruitedWithin(c: Config, k: Key, run: seq<Action>, n: nat, most: nat, x: Cell)
    requires n <= |run| && (forall m :: 0 <= m <= n ==> AskedAt(c, k, run, m) <= most)
    requires x in Recruited(c, k, run, n)
    ensures AtByte(FirstCells(c, k, most), x.off)
  {
    hide AskedAt;
    var cs := FirstCells(c, k, AskedAt(c, k, run, n));
    if x in cs {
      var i :| 0 <= i < |cs| && cs[i] == x;
      assert FirstCells(c, k, most)[i] == x;
    } else if n > 0 {
      RecruitedWithin(c, k, run, n - 1, most, x);
    }
  }

  lemma {:induction false} InList(cs: seq<Cell>, x: Cell)
    ensures (LastAt(cs, x) ==> x in cs) && (x in cs ==> AtByte(cs, x.off))
  {
  }

  /** When no request was larger than the last one, the target holds exactly the cells kept from it. */
  lemma {:induction false} GrowingRecruits(c: Config, k: Key, run: seq<Action>, n: nat, x: Cell)
    requires n <= |run| && forall m :: 0 <= m <= n ==> AskedAt(c, k, run, m) <= AskedAt(c, k, run, n)
    requires n == 0 ==> AskedAt(c, k, run, 0) == 0
    ensures x in Recruited(c, k, run, n) <==> LastAt(FirstCells(c, k, AskedAt(c, k, run, n)), x)
  {
    hide AskedAt;
    if n > 0 {
      hide FirstCells, LastAt, AtByte;
      InList(FirstCells(c, k, AskedAt(c, k, run, n)), x);
      var cs := FirstCells(c, k, AskedAt(c, k, run, n));
      if x in Recruited(c, k, run, n - 1) { RecruitedWithin(c, k, run, n - 1, AskedAt(c, k, run, n), x); }
    }
  }

  // ---- alternating activations --------------------------------------------------------------------------------------

  /** The cells asked for after `pairs` pairs of activations: the exposure is twice as many activations. */
  function PairsAsk(c: Config, k: Key, ones: bool, pairs: nat): nat {
    Recruits((2 * pairs) as real, c.Threshold(k, true, ones), c.gain(true, ones))
  }

  lemma {:induction false} RecruitsGrow(d: real, e: real, t: Positive, gain: Option<Gain>)
    requires d <= e
    ensures Recruits(d, t, gain) <= Recruits(e, t, gain)
  {
    if d >= t as real && gain.Some? {
      Quotients(d, e, t);
      Strata.ScaledRises(gain.value, d / t as real - 1.0, e / t as real - 1.0);
      assert Strata.Scaled(gain.value, d / t as real - 1.0) == (d / t as real - 1.0) * gain.value;
      assert Strata.Scaled(gain.value, e / t as real - 1.0) == (e / t as real - 1.0) * gain.value;
      assert Excess(d, t, gain.value) <= Excess(e, t, gain.value);
    }
  }

  lemma {:induction false} Quotients(d: real, e: real, t: Positive)
    requires d <= e
    ensures d / t as real <= e / t as real
  {
  }

  lemma {:induction false} AlternatingAsks(c: Config, k: Key, run: seq<Action>, n: nat)
    requires n <= |run| && Alternates(run, k) && c.Threshold(k, false, Data(run, n, k)) > 1
    ensures AskedAt(c, k, run, n) == PairsAsk(c, k, Data(run, n, k), Pairs(run, n, k))
  {
    hide Data, Config.Threshold;
    var l: int, r: int := Lefts(run, n, k), Rights(run, n, k);
    assert -1 <= l - r <= 1;
    hide Lefts, Rights, Alternates;
  }

  lemma {:induction false} DataSettled(c: Config, k: Key, run: seq<Action>, m: nat, n: nat)
    requires m <= n <= |run| && Campaign(c, k, run)
    ensures Data(run, m, k) == Data(run, n, k) || NoneActivated(run, m)
    decreases n - m
  {
    hide Data;
    if m < n {
      assert InCampaign(k, run, m);
      DataSettled(c, k, run, m + 1, n);
      if run[m].Issue? { DataKept(c, k, run, m + 1); }
    }
  }

  lemma {:induction false} EarlierAsksLess(c: Config, k: Key, run: seq<Action>, m: nat, n: nat)
    requires m <= n <= |run| && Campaign(c, k, run) && Alternates(run, k)
    requires c.Threshold(k, false, Data(run, n, k)) > 1
    ensures AskedAt(c, k, run, m) <= AskedAt(c, k, run, n)
  {
    hide Campaign, Data, Config.Threshold;
    DataSettled(c, k, run, m, n);
    if NoneActivated(run, m) {
      CountsFromNothing(c, k, run, m);
      NoCountsNothingAsked(c, k, Data(run, m, k));
    } else {
      AlternatingAsks(c, k, run, m);
      AlternatingAsks(c, k, run, n);
      ActivationsGrow(run, m, n, LeftNeighbour(k));
      ActivationsGrow(run, m, n, RightNeighbour(k));
      hide Recruits;
      RecruitsGrow((2 * Pairs(run, m, k)) as real, (2 * Pairs(run, n, k)) as real,
                   c.Threshold(k, true, Data(run, n, k)), c.gain(true, Data(run, n, k)));
    }
  }

  /** Without a mitigation, alternating activations leave the target with exactly the cells kept from the first
      `N` of its sequence, where `N` is what twice the number of complete pairs asks for. */
  lemma {:induction false} AlternatingCells(c: Config, k: Key, run: seq<Action>, n: nat, rowOf: int -> Key, x: Cell)
    requires n <= |run| && Campaign(c, k, run) && !c.oracle && Alternates(run, k)
    requires BlocksApart(c, k.bank, rowOf) && c.Threshold(k, false, Data(run, n, k)) > 1
    ensures x in CellsOf(RunTo(c, run, n), k) <==>
      LastAt(FirstCells(c, k, PairsAsk(c, k, Data(run, n, k), Pairs(run, n, k))), x)
  {
    hide RunTo, Campaign, BlocksApart, Alternates, Pairs, Data, AskedAt, FirstCells, Recruited, CellsOf, PairsAsk,
         Config.Threshold;
    CampaignRecruits(c, k, run, n, rowOf);
    forall m | 0 <= m <= n ensures AskedAt(c, k, run, m) <= AskedAt(c, k, run, n) { EarlierAsksLess(c, k, run, m, n); }
    AlternatingAsks(c, k, run, n);
    NothingAskedFirst(c, k, run);
    GrowingRecruits(c, k, run, n, x);
  }

  lemma {:induction false} NothingAskedFirst(c: Config, k: Key, run: seq<Action>)
    ensures AskedAt(c, k, run, 0) == 0
  {
    CountsFromNothing(c, k, run, 0);
    NoCountsNothingAsked(c, k, Data(run, 0, k));
  }

  // ---- the overlay in the target's row ------------------------------------------------------------------------------

  /** What a row holds is what the overlay shows at its addresses. */
  lemma {:induction false} OverlayOfRow(c: Config, s: State, rowOf: int -> Key, k: Key, x: Cell)
    requires Sound(c, s) && RowBlocks(c, s, rowOf) && rowOf(c.encoder(k) + x.off) == k
    ensures x in CellsOf(s, k) <==> c.encoder(k) + x.off in s.flips && s.flips[c.encoder(k) + x.off] == x.bit
  {
    var a := c.encoder(k) + x.off;
    if x in CellsOf(s, k) { assert OwnedBy(s, a, Owner(k, x)); }
    if a in s.flips && s.flips[a] == x.bit {
      assert OwnerHolds(c, s, a);
      var o := s.owners[a];
      assert Latent(c, o.key, s.victims[o.key]);
      assert o.key == k && o.cell == x;
    }
  }
}
