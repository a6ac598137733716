/** The exact outcome of a campaign.

    A campaign's target is flipped after `n` actions just when its activation counts crossed the
    threshold at some point up to `n`. For alternating activations of the two neighbours this is the
    pair numbered half the double-sided threshold, rounded up. */
module CampaignOutcomes {
  import opened DisturbanceModel
  import opened Exposures
  import opened History
  import opened OpenRows
  import opened Overlay
  import opened OracleProtection
  import opened HammerOutcome
  import opened Campaigns

  predicate CrossesNow(c: Config, k: Key, run: seq<Action>, n: nat)
    requires n <= |run|
  {
    CrossAt(c, k, Data(run, n, k), Lefts(run, n, k) as real, Rights(run, n, k) as real)
  }

  /** The counts crossed the threshold at some point among the first `n` actions. */
  predicate Crossed(c: Config, k: Key, run: seq<Action>, n: nat)
    requires n <= |run|
  {
    CrossesNow(c, k, run, n) || (n > 0 && Crossed(c, k, run, n - 1))
  }

  // ---- a campaign stays in one bank ---------------------------------------------------------------------

  lemma {:induction false} CampaignVictims(c: Config, k: Key, run: seq<Action>, n: nat)
    requires Campaign(c, k, run) && n <= |run|
    ensures VictimsIn(c, RunTo(c, run, n), k.bank)
  {
    hide RunTo, NominalDwells, WithinWindow;
    forall j | j in RunTo(c, run, n).victims ensures j.bank == k.bank && c.RowExists(j.row) {
      VictimsAreNeighbours(c, run, n, j);
      var i :| 0 <= i < n && Exposes(c, run[i], j);
      assert InCampaign(k, run, i);
    }
  }

  lemma {:induction false} HitsInBank(c: Config, bank: BankKey, row: int, rings: seq<Ring>)
    ensures forall i :: 0 <= i < |Hits(c, bank, row, rings)| ==>
      Hits(c, bank, row, rings)[i].key.bank == bank && c.RowExists(Hits(c, bank, row, rings)[i].key.row)
  {
    if rings != [] { HitsInBank(c, bank, row, rings[1..]); }
  }

  /** The part of the state that the target's outcome is read from. */
  ghost predicate Flipped(c: Config, s: State, k: Key) {
    c.encoder(k) in s.flips && k in s.flippedKeys
  }

  lemma {:induction false} OwnBlock(c: Config, k: Key, rowOf: int -> Key)
    requires BlocksApart(c, k.bank, rowOf) && c.RowExists(k.row) && StartsAtByteZero(c, k)
    ensures rowOf(c.encoder(k)) == k
  {
    assert Window(c, k)[0] in Window(c, k);
  }

  lemma {:induction false} FlippedByAddress(c: Config, s: State, rowOf: int -> Key, k: Key)
    requires Sound(c, s) && VictimsIn(c, s, k.bank) && BlocksApart(c, k.bank, rowOf)
    requires c.RowExists(k.row) && StartsAtByteZero(c, k)
    ensures c.encoder(k) in s.flips ==> Flipped(c, s, k)
    ensures Intact(c, s, k) ==> c.encoder(k) !in s.flips && k !in s.flippedKeys
  {
    hide Window, Linked, CrossAt, Latent;
    OwnBlock(c, k, rowOf);
    assert RowBlocks(c, s, rowOf);
    IndexIsExact(c, s, rowOf, k);
    if c.encoder(k) in s.flips {
      var a := c.encoder(k);
      assert a in s.flips && rowOf(a) == k;
    }
  }

  /** One activation decides whether a still clean target flips. */
  lemma {:induction false} ActivationDecides(c: Config, k: Key, run: seq<Action>, m: nat, rowOf: int -> Key)
    requires m < |run| && Campaign(c, k, run) && IsActivation(run[m]) && OracleIdle(c, run, m, k)
    requires BlocksApart(c, k.bank, rowOf) && StartsAtByteZero(c, k)
    requires Clean(c, RunTo(c, run, m), k, Data(run, m, k))
    ensures CrossesNow(c, k, run, m + 1) ==> c.encoder(k) in RunTo(c, run, m + 1).flips
    ensures !CrossesNow(c, k, run, m + 1) ==> Clean(c, RunTo(c, run, m + 1), k, Data(run, m + 1, k))
  {
    hide RunTo, CreditAll, Hits, Clean, Sound, Campaign, BlocksApart, StartsAtByteZero, VictimsIn, CrossAt,
         OracleIdle, SideWeight, Activates, Keys, RingHits, Activations, Steady, Data;
    DataKept(c, k, run, m + 1);
    var s, e := RunTo(c, run, m), run[m].event;
    CampaignActivates(c, k, run, m);
    CampaignStep(c, k, run, m + 1);
    CampaignCounts(c, k, run, m);
    CampaignVictims(c, k, run, m);
    RunSound(c, run, m);
    NeighbourHit(c, k, e);
    CountsAfter(run, m, k);
    HitsInBank(c, e.bank, e.row, c.blast);
    CreditAllDecides(c, s, Hits(c, e.bank, e.row, c.blast), rowOf, k, Data(run, m, k));
  }

  lemma {:induction false} CampaignActivates(c: Config, k: Key, run: seq<Action>, m: nat)
    requires m < |run| && Campaign(c, k, run) && IsActivation(run[m])
    ensures c.blast == [Ring(1, 1.0)] && c.RowExists(k.row)
    ensures var e := run[m].event; e.bank == k.bank && (e.row == k.row - 1 || e.row == k.row + 1)
  {
    hide NominalDwells, WithinWindow;
    assert InCampaign(k, run, m);
  }

  /** Activating a neighbour exposes the target once, on that neighbour's side. */
  lemma {:induction false} NeighbourHit(c: Config, k: Key, e: Event)
    requires c.blast == [Ring(1, 1.0)] && c.RowExists(k.row)
    requires e.bank == k.bank && (e.row == k.row - 1 || e.row == k.row + 1)
    ensures var hits := Hits(c, e.bank, e.row, c.blast);
      && Occurs(Keys(hits), k) == 1
      && SideWeight(hits, k, true) == (if e.row == k.row - 1 then 1.0 else 0.0)
      && SideWeight(hits, k, false) == (if e.row == k.row + 1 then 1.0 else 0.0)
  {
    hide Hits, SideWeight;
    NearHits(c, e.bank, e.row, k);
    OccursIn(Keys(Hits(c, e.bank, e.row, c.blast)), k);
  }

  lemma {:induction false} CountsAfter(run: seq<Action>, m: nat, k: Key)
    requires m < |run| && IsActivation(run[m]) && run[m].event.bank == k.bank
    ensures Lefts(run, m + 1, k) == Lefts(run, m, k) + (if run[m].event.row == k.row - 1 then 1 else 0)
    ensures Rights(run, m + 1, k) == Rights(run, m, k) + (if run[m].event.row == k.row + 1 then 1 else 0)
  {
    hide Classify;
  }

  lemma {:induction false} AddressStays(c: Config, k: Key, run: seq<Action>, n: nat, a: int)
    requires Campaign(c, k, run) && 0 < n <= |run| && a in RunTo(c, run, n - 1).flips
    ensures a in RunTo(c, run, n).flips
  {
    assert InCampaign(k, run, n - 1);
    if run[n - 1].Issue? {
      CampaignStep(c, k, run, n);
      var s, e := RunTo(c, run, n - 1), run[n - 1].event;
      hide RunTo, CreditAll, Hits, Preserves, NominalDwells, WithinWindow;
      CreditGrows(c, s, Hits(c, e.bank, e.row, c.blast));
    } else {
      hide Restore, NoteWrite;
      WriteStep(c, k, run, n);
    }
  }

  lemma {:induction false} IdleBefore(c: Config, run: seq<Action>, n: nat, k: Key)
    requires 0 < n <= |run| && OracleIdle(c, run, n, k)
    ensures OracleIdle(c, run, n - 1, k)
  {
    ActivationsGrow(run, n - 1, n, LeftNeighbour(k));
    ActivationsGrow(run, n - 1, n, RightNeighbour(k));
  }

  lemma {:induction false} Outcome(c: Config, k: Key, run: seq<Action>, n: nat, rowOf: int -> Key)
    requires n <= |run| && Campaign(c, k, run) && (n > 0 ==> OracleIdle(c, run, n - 1, k))
    requires BlocksApart(c, k.bank, rowOf) && StartsAtByteZero(c, k)
    ensures if Crossed(c, k, run, n) then c.encoder(k) in RunTo(c, run, n).flips
            else Clean(c, RunTo(c, run, n), k, Data(run, n, k))
  {
    if n == 0 {
      CountsFromNothing(c, k, run, n);
      DataIsStratum(c, k, run, n);
    } else {
      hide Clean, Data, Campaign, BlocksApart, StartsAtByteZero, CrossesNow, RunTo, OracleIdle;
      var m := n - 1;
      if m > 0 { IdleBefore(c, run, m, k); }
      Outcome(c, k, run, m, rowOf);
      if Crossed(c, k, run, m) {
        AddressStays(c, k, run, n, c.encoder(k));
      } else if IsActivation(run[m]) {
        ActivationDecides(c, k, run, m, rowOf);
      } else {
        PassiveKeeps(c, k, run, n);
      }
    }
  }

  lemma {:induction false} PassiveKeeps(c: Config, k: Key, run: seq<Action>, n: nat)
    requires 0 < n <= |run| && Campaign(c, k, run) && !IsActivation(run[n - 1])
    ensures Clean(c, RunTo(c, run, n - 1), k, Data(run, n - 1, k)) ==> Clean(c, RunTo(c, run, n), k, Data(run, n, k))
    ensures CrossesNow(c, k, run, n) == CrossesNow(c, k, run, n - 1)
  {
    assert InCampaign(k, run, n - 1);
    hide RunTo, CreditAll, Hits, Campaign, CrossAt, Clean, Data;
    if run[n - 1].Issue? {
      CampaignStep(c, k, run, n);
      DataKept(c, k, run, n);
    } else {
      CountsFromNothing(c, k, run, n - 1);
      CountsFromNothing(c, k, run, n);
      DataIsStratum(c, k, run, n);
    }
  }

  /** Without an activation there are no counts, and nothing crosses. */
  lemma {:induction false} CountsFromNothing(c: Config, k: Key, run: seq<Action>, n: nat)
    requires n <= |run| && NoneActivated(run, n)
    ensures Lefts(run, n, k) == 0 && Rights(run, n, k) == 0 && !CrossesNow(c, k, run, n)
  {
    hide Data;
    if n > 0 { CountsFromNothing(c, k, run, n - 1); }
  }

  /** The target of a campaign is flipped, and its first byte in the overlay, just when its counts
      have crossed the threshold. */
  lemma {:induction false} CampaignOutcome(c: Config, k: Key, run: seq<Action>, n: nat, rowOf: int -> Key)
    requires n <= |run| && Campaign(c, k, run) && (n > 0 ==> OracleIdle(c, run, n - 1, k))
    requires BlocksApart(c, k.bank, rowOf) && StartsAtByteZero(c, k)
    ensures c.encoder(k) in RunTo(c, run, n).flips <==> Crossed(c, k, run, n)
    ensures k in RunTo(c, run, n).flippedKeys <==> Crossed(c, k, run, n)
  {
    assert c.RowExists(k.row);
    Outcome(c, k, run, n, rowOf);
    CampaignVictims(c, k, run, n);
    RunSound(c, run, n);
    hide RunTo, Clean, Campaign, BlocksApart, StartsAtByteZero, Crossed, OracleIdle, Sound, VictimsIn;
    FlippedByAddress(c, RunTo(c, run, n), rowOf, k);
  }

  // ---- alternating activations ---------------------------------------------------------------------------

  /** Left and right neighbour are activated in turn. */
  ghost predicate Alternates(run: seq<Action>, k: Key) {
    forall n :: 0 <= n <= |run| ==> -1 <= Lefts(run, n, k) - Rights(run, n, k) <= 1
  }

  /** Complete pairs of a left and a right activation among the first `n` actions. */
  function Pairs(run: seq<Action>, n: nat, k: Key): nat
    requires n <= |run|
  {
    if Lefts(run, n, k) <= Rights(run, n, k) then Lefts(run, n, k) else Rights(run, n, k)
  }

  /** Half the double-sided threshold of the row's stratum, rounded up. */
  function PairsNeeded(c: Config, k: Key, ones: bool): nat { (c.Threshold(k, true, ones) + 1) / 2 }

  lemma {:induction false} AlternatingCross(c: Config, k: Key, ones: bool, l: nat, r: nat)
    requires -1 <= l - r <= 1 && c.Threshold(k, false, ones) > 1
    ensures CrossAt(c, k, ones, l as real, r as real) <==> (if l <= r then l else r) >= PairsNeeded(c, k, ones)
  {
  }

  lemma {:induction false} NeverCrossed(c: Config, k: Key, run: seq<Action>, n: nat)
    requires n <= |run| && NoneActivated(run, n)
    ensures !Crossed(c, k, run, n) && Pairs(run, n, k) == 0
  {
    CountsFromNothing(c, k, run, n);
    hide CrossesNow;
    if n > 0 { NeverCrossed(c, k, run, n - 1); }
  }

  lemma {:induction false} AlternatingCrossed(c: Config, k: Key, run: seq<Action>, n: nat)
    requires n <= |run| && Campaign(c, k, run) && Alternates(run, k) && c.Threshold(k, false, Data(run, n, k)) > 1
    ensures Crossed(c, k, run, n) <==> Pairs(run, n, k) >= PairsNeeded(c, k, Data(run, n, k))
  {
    hide CrossAt, PairsNeeded, Data, NominalDwells, WithinWindow;
    AlternatingCross(c, k, Data(run, n, k), Lefts(run, n, k), Rights(run, n, k));
    if n > 0 {
      assert InCampaign(k, run, n - 1);
      if run[n - 1].Issue? {
        DataKept(c, k, run, n);
        AlternatingCrossed(c, k, run, n - 1);
        ActivationsGrow(run, n - 1, n, LeftNeighbour(k));
        ActivationsGrow(run, n - 1, n, RightNeighbour(k));
      } else {
        NeverCrossed(c, k, run, n);
        SomePairs(c, k, Data(run, n, k));
      }
    } else {
      SomePairs(c, k, Data(run, n, k));
      CountsFromNothing(c, k, run, n);
    }
  }

  lemma {:induction false} SomePairs(c: Config, k: Key, ones: bool)
    ensures PairsNeeded(c, k, ones) >= 1
  {
  }

  /** Without a mitigation, alternating activations flip the target in pair `ceil(T / 2)`, for the threshold
      `T` of the data written to it: it is flipped just when that many pairs are complete. */
  lemma {:induction false} AlternatingFlips(c: Config, k: Key, run: seq<Action>, n: nat, rowOf: int -> Key)
    requires n <= |run| && Campaign(c, k, run) && !c.oracle && Alternates(run, k)
    requires BlocksApart(c, k.bank, rowOf) && StartsAtByteZero(c, k)
    requires c.Threshold(k, false, Data(run, n, k)) > 1
    ensures c.encoder(k) in RunTo(c, run, n).flips <==> Pairs(run, n, k) >= PairsNeeded(c, k, Data(run, n, k))
    ensures k in RunTo(c, run, n).flippedKeys <==> Pairs(run, n, k) >= PairsNeeded(c, k, Data(run, n, k))
  {
    hide RunTo, Campaign, BlocksApart, StartsAtByteZero, Crossed, Alternates, Pairs, PairsNeeded, Data;
    CampaignOutcome(c, k, run, n, rowOf);
    AlternatingCrossed(c, k, run, n);
  }
}
