/** Compiler, mapper and engine together.

    A compiled window is played against the engine of the same device. Activating only its decoys, or
    only the rows one stride above and below the target, never exposes the target at all; alternating
    its two aggressors flips the target in exactly the pair that its threshold asks for, at the very
    address the compiler reports, and that is when the reward turns true. */
module TaskOutcomes {
  import opened DM = DisturbanceModel
  import opened DeviceRows
  import opened CandidateWindows
  import opened WindowBuilders
  import HI = History
  import EX = Exposures
  import OV = Overlay
  import OP = OracleProtection
  import HO = HammerOutcome
  import CA = Campaigns
  import CO = CampaignOutcomes
  import FC = FlippedCells
  import CC = CampaignCells
  import OE = OracleExactness
  import BH = BonusHistory
  import RX = RowXorMapping

  /** The row that a candidate's address decodes to. */
  function RowOf(l: Device, t: Key, x: Candidate): Key
    requires IsTarget(l, t)
  {
    KeyAt(l, Base(l, t) + x.offset)
  }

  // ---- runs that cannot hurt the target -------------------------------------------------------------------

  /** The activations among the first `n` actions are all of rows from `rows`. */
  ghost predicate OnlyActivates(run: seq<Action>, n: nat, rows: set<Key>)
    requires n <= |run|
  {
    forall i :: 0 <= i < n && HI.IsActivation(run[i]) ==> HI.Aggressor(run[i]) in rows
  }

  /** The target was never a victim: nothing exposed it and no cell of its row flipped. */
  ghost predicate Untouched(l: Device, s: State, t: Key) {
    && t !in s.victims && EX.LeftOf(s, t) == 0.0 && EX.RightOf(s, t) == 0.0
    && t !in s.flippedKeys && forall a :: a in s.flips ==> KeyAt(l, a) != t
  }

  lemma {:induction false} NeverANeighbour(l: Device, c: Config, run: seq<Action>, n: nat, rows: set<Key>, t: Key)
    requires OnDevice(l, c) && n <= |run| && (forall i :: 0 <= i < n ==> Decoded(l, run[i]))
    requires OnlyActivates(run, n, rows) && forall g :: g in rows ==> !HI.Neighbours(c, g, t)
    ensures Untouched(l, RunTo(c, run, n), t)
  {
    hide RunTo, KeyAt, OnDevice, Decoded, HI.Neighbours, OV.Linked, HI.IsActivation;
    var s := RunTo(c, run, n);
    HO.VictimsAreNeighbours(c, run, n, t);
    forall i | 0 <= i < n ensures !HO.Exposes(c, run[i], t) {}
    OV.RunSound(c, run, n);
    assert t in s.flippedKeys ==> OV.HasFlipped(s, t);
    RewardIsExact(l, c, run, n, t);
  }

  /** The rows that the decoys of a window decode to. */
  ghost function DecoyRows(l: Device, t: Key, cands: seq<Candidate>): set<Key>
    requires IsTarget(l, t)
  {
    set x | x in cands && x.role != Aggressor :: RowOf(l, t, x)
  }

  predicate WithinMargin(rings: seq<Ring>) {
    rings == [] || (rings[0].distance <= FAR_ROW_MARGIN && WithinMargin(rings[1..]))
  }

  lemma {:induction false} NoFarRing(rings: seq<Ring>, d: int)
    requires WithinMargin(rings) && d > FAR_ROW_MARGIN
    ensures !EX.HasRing(rings, d)
  {
    if rings != [] { NoFarRing(rings[1..], d); }
  }

  lemma {:induction false} NoNegativeRing(rings: seq<Ring>, d: int)
    requires d <= 0
    ensures !EX.HasRing(rings, d)
  {
    if rings != [] { NoNegativeRing(rings[1..], d); }
  }

  /** No run that activates only decoys of the window ever adds exposure to the target. */
  lemma {:induction false} DecoysNeverExpose(l: Device, c: Config, t: Key, cands: seq<Candidate>, run: seq<Action>,
      n: nat)
    requires OnDevice(l, c) && n <= |run| && (forall i :: 0 <= i < n ==> Decoded(l, run[i]))
    requires IsTarget(l, t) && IsWindow(l, t, cands) && WithinMargin(c.blast)
    requires OnlyActivates(run, n, DecoyRows(l, t, cands))
    ensures Untouched(l, RunTo(c, run, n), t)
  {
    hide RunTo, KeyAt, OnDevice, Decoded, OnlyActivates, Base, Untouched, Anchor, InDevice, RX.Capacity;
    forall g | g in DecoyRows(l, t, cands) ensures !HI.Neighbours(c, g, t) {
      var x :| x in cands && x.role != Aggressor && RowOf(l, t, x) == g;
      assert Faithful(l, t, x);
      if g.bank == t.bank {
        var d := t.row - g.row;
        NoFarRing(c.blast, if d > 0 then d else -d);
        NoNegativeRing(c.blast, if d > 0 then -d else d);
      }
    }
    NeverANeighbour(l, c, run, n, DecoyRows(l, t, cands), t);
  }

  /** The row decoded one stride above or below the target's address. */
  predicate OneStrideAway(l: Device, t: Key, k: Key)
    requires IsTarget(l, t)
  {
    || (Stride(l) <= Base(l, t) && k == KeyAt(l, Base(l, t) - Stride(l)))
    || (Base(l, t) + Stride(l) < RX.Capacity(l) && k == KeyAt(l, Base(l, t) + Stride(l)))
  }

  /** The activations are all of rows found by address arithmetic from the target. */
  ghost predicate HitsByStride(l: Device, t: Key, run: seq<Action>, n: nat)
    requires IsTarget(l, t) && n <= |run|
  {
    forall i :: 0 <= i < n && HI.IsActivation(run[i]) ==> OneStrideAway(l, t, HI.Aggressor(run[i]))
  }

  /** Address arithmetic fails: the rows one stride above and below the target lie in other banks, so
      hammering them never exposes it. */
  lemma {:induction false} StrideNeverExposes(l: Device, c: Config, t: Key, run: seq<Action>, n: nat)
    requires OnDevice(l, c) && n <= |run| && (forall i :: 0 <= i < n ==> Decoded(l, run[i]))
    requires IsTarget(l, t) && HitsByStride(l, t, run, n)
    ensures Untouched(l, RunTo(c, run, n), t)
  {
    hide RunTo, OnDevice, Decoded, Untouched, Stride, RX.Capacity;
    var rows := set i | 0 <= i < n && HI.IsActivation(run[i]) :: HI.Aggressor(run[i]);
    forall g | g in rows ensures !HI.Neighbours(c, g, t) {
      var i :| 0 <= i < n && HI.IsActivation(run[i]) && HI.Aggressor(run[i]) == g;
      StrideApart(l, t, g);
    }
    NeverANeighbour(l, c, run, n, rows, t);
  }

  lemma {:induction false} StrideApart(l: Device, t: Key, k: Key)
    requires IsTarget(l, t)
    ensures OneStrideAway(l, t, k) ==> k.bank != t.bank
  {
    hide Stride, RX.Capacity, KeyAt, Place;
    var a := Base(l, t);
    PlaceDecodes(l, t.bank, t.row);
    if a + Stride(l) < RX.Capacity(l) { StrideBank(l, a); }
    if Stride(l) <= a { StrideBank(l, a - Stride(l)); }
  }

  lemma {:induction false} StrideBank(l: Device, a: nat)
    requires a + Stride(l) < RX.Capacity(l)
    ensures KeyAt(l, a + Stride(l)).bank != KeyAt(l, a).bank
  {
    hide Stride, RX.Capacity, RX.Levels;
    StrideLeavesBank(l, a);
  }

  // ---- the compiled pair ----------------------------------------------------------------------------------

  /** A run of the compiled pair: after any writes it activates only the two candidates `x` and `y`, in turn,
      with precharges whose dwells are nominal and refreshes that complete no window of the target's rank, on
      a device without mitigation. */
  ghost predicate PlaysPair(l: Device, c: Config, t: Key, x: Candidate, y: Candidate, run: seq<Action>)
    requires IsTarget(l, t)
  {
    && c.blast == [Ring(1, 1.0)] && !c.oracle
    && CA.NominalDwells(c, run) && CA.WithinWindow(c, run, t.bank)
    && (forall i :: 0 <= i < |run| ==>
          (CA.IsPassive(run[i]) || HI.Activates(run[i], RowOf(l, t, x)) || HI.Activates(run[i], RowOf(l, t, y))
           || (!run[i].Issue? && CA.NoneActivated(run, i))))
    && (forall n :: 0 <= n <= |run| ==>
          -1 <= HI.Activations(run, 0, n, RowOf(l, t, x)) - HI.Activations(run, 0, n, RowOf(l, t, y)) <= 1)
  }

  lemma {:induction false} PairIsNeighbours(l: Device, t: Key, cands: seq<Candidate>, x: Candidate, y: Candidate)
    requires IsTarget(l, t) && IsWindow(l, t, cands)
    requires x in cands && y in cands && x != y && x.role == Aggressor && y.role == Aggressor
    ensures {RowOf(l, t, x), RowOf(l, t, y)} == {OP.LeftNeighbour(t), OP.RightNeighbour(t)}
  {
    hide KeyAt, Place, IsWindow, AtKey, Base, InBank;
    ExactlyTwoAggressors(l, t, cands, x);
    ExactlyTwoAggressors(l, t, cands, y);
    NeighbourRows(l, t);
  }

  lemma {:induction false} NeighbourRows(l: Device, t: Key)
    requires IsTarget(l, t)
    ensures forall k :: IsNeighbour(t, k) ==> RowOf(l, t, AtKey(l, t, k, Aggressor)) == k
  {
    hide KeyAt, Place, InBank;
    AtKeyDecodes(l, t, OP.LeftNeighbour(t), Aggressor);
    AtKeyDecodes(l, t, OP.RightNeighbour(t), Aggressor);
  }

  /** Alternating the two compiled aggressors flips the target in pair `ceil(T / 2)`, never earlier;
      the flipped byte is the compiled target address, and the reward turns true with it. */
  lemma {:induction false} CompiledPairFlips(l: Device, c: Config, t: Key, cands: seq<Candidate>, x: Candidate,
      y: Candidate, run: seq<Action>, n: nat)
    requires OnDevice(l, c) && IsTarget(l, t) && IsWindow(l, t, cands) && n <= |run|
    requires x in cands && y in cands && x != y && x.role == Aggressor && y.role == Aggressor
    requires PlaysPair(l, c, t, x, y, run) && c.Threshold(t, false, CA.Data(run, n, t)) > 1
    ensures var pairs, needed := CO.Pairs(run, n, t), CO.PairsNeeded(c, t, CA.Data(run, n, t));
      && (Base(l, t) in RunTo(c, run, n).flips <==> pairs >= needed)
      && (t in RunTo(c, run, n).flippedKeys <==> pairs >= needed)
  {
    hide RunTo, KeyAt, OnDevice, IsWindow, CO.Pairs, CO.PairsNeeded, Place, CA.Data, PlaysPair, CA.Campaign,
         CO.Alternates;
    PairIsCampaign(l, c, t, cands, x, y, run);
    TargetOnDevice(l, c, t);
    BlocksAreApart(l, c, t.bank);
    CO.AlternatingFlips(c, t, run, n, a => KeyAt(l, a));
  }

  lemma {:induction false} PairIsCampaign(l: Device, c: Config, t: Key, cands: seq<Candidate>, x: Candidate,
      y: Candidate, run: seq<Action>)
    requires OnDevice(l, c) && IsTarget(l, t) && IsWindow(l, t, cands)
    requires x in cands && y in cands && x != y && x.role == Aggressor && y.role == Aggressor
    requires PlaysPair(l, c, t, x, y, run)
    ensures CA.Campaign(c, t, run) && CO.Alternates(run, t) && !c.oracle
  {
    hide RunTo, KeyAt, OnDevice, IsWindow, Place, CA.NominalDwells, CA.WithinWindow, CA.NoneActivated;
    PairIsNeighbours(l, t, cands, x, y);
    TargetOnDevice(l, c, t);
  }

  /** The overlay in the target's row is exact too: it shows bit `bit` at offset `off` just when that cell is kept
      from the first `N` cells of the target's sequence, `N` being what twice the pairs ask for; and as long as
      that is one cell, it is the target's first bit at the compiled address. */
  lemma {:induction false} CompiledPairCells(l: Device, c: Config, t: Key, cands: seq<Candidate>, x: Candidate,
      y: Candidate, run: seq<Action>, n: nat, cell: Cell)
    requires OnDevice(l, c) && IsTarget(l, t) && IsWindow(l, t, cands) && n <= |run| && cell.off < Span(l)
    requires x in cands && y in cands && x != y && x.role == Aggressor && y.role == Aggressor
    requires PlaysPair(l, c, t, x, y, run) && c.Threshold(t, false, CA.Data(run, n, t)) > 1
    ensures var flips, a := RunTo(c, run, n).flips, Base(l, t) + cell.off;
      var asked := CC.PairsAsk(c, t, CA.Data(run, n, t), CO.Pairs(run, n, t));
      && (a in flips && flips[a] == cell.bit <==> OV.LastAt(FC.FirstCells(c, t, asked), cell))
      && (asked == 1 && cell.off == 0 ==>
            (a in flips && flips[a] == cell.bit <==>
               cell.bit == if t == c.knownKey then c.knownFirstBit else c.sampleFirstBit(t)))
  {
    hide RunTo, KeyAt, OnDevice, IsWindow, CO.Pairs, CC.PairsAsk, Place, CA.Data, PlaysPair, CA.Campaign, CO.Alternates,
         OV.LastAt, FC.FirstCells, OV.Sound, OV.RowBlocks, OP.CellsOf, HO.BlocksApart, HO.VictimsIn, Base, Span;
    var rowOf := (a: int) => KeyAt(l, a);
    PairIsCampaign(l, c, t, cands, x, y, run);
    TargetOnDevice(l, c, t);
    BlocksAreApart(l, c, t.bank);
    CC.AlternatingCells(c, t, run, n, rowOf, cell);
    CO.CampaignVictims(c, t, run, n);
    HO.InBankBlocks(c, RunTo(c, run, n), rowOf, t);
    OV.RunSound(c, run, n);
    InTargetRow(l, c, t, cell.off);
    CC.OverlayOfRow(c, RunTo(c, run, n), rowOf, t, cell);
    if CC.PairsAsk(c, t, CA.Data(run, n, t), CO.Pairs(run, n, t)) == 1 && cell.off == 0 {
      OneCell(c, t, cell);
    }
  }

  lemma {:induction false} InTargetRow(l: Device, c: Config, t: Key, off: nat)
    requires OnDevice(l, c) && IsTarget(l, t) && off < Span(l)
    ensures KeyAt(l, c.encoder(t) + off) == t
  {
    TargetOnDevice(l, c, t);
    hide KeyAt, Place;
    InRow(l, t, off);
  }

  lemma {:induction false} OneCell(c: Config, k: Key, cell: Cell)
    requires HO.StartsAtByteZero(c, k) && cell.off == 0
    ensures OV.LastAt(FC.FirstCells(c, k, 1), cell) <==>
      cell.bit == if k == c.knownKey then c.knownFirstBit else c.sampleFirstBit(k)
  {
    var cs := FC.FirstCells(c, k, 1);
    assert |cs| == 1 && cs[0] == Cell(0, c.FirstBit(k));
    if cell == cs[0] { assert cs[0] == cell; }
  }

  /** The rows of the device, which are those that its commands can activate. */
  function DeviceRow(l: Device): Key -> bool { (g: Key) => InDevice(l, g) }

  /** On a device the oracle protects a compiled target in every run over the device's rows, whatever the dwells
      and the stored patterns, if and only if the target meets the protection condition for the most a dwell is
      worth. */
  lemma {:induction false} OracleOnDevice(l: Device, c: Config, t: Key)
    requires OnDevice(l, c) && IsTarget(l, t) && c.oracle && c.blast == [Ring(1, 1.0)]
    requires c.rowPress.Some? ==> c.rowPress.value >= 1.0
    ensures OE.NeverFlips(c, t, DeviceRow(l)) <==> OP.Protected(c, t, OP.Threat(OE.Reduction(c), true, true))
  {
    hide OE.NeverFlips, OP.Protected, KeyAt, OnDevice, Base;
    TargetOnDevice(l, c, t);
    BlocksAreApart(l, c, t.bank);
    NeighboursOnDevice(l, t);
    OE.OracleExact(c, t, DeviceRow(l), a => KeyAt(l, a));
  }

  lemma {:induction false} NeighboursOnDevice(l: Device, t: Key)
    requires IsTarget(l, t)
    ensures InDevice(l, OP.LeftNeighbour(t)) && InDevice(l, OP.RightNeighbour(t))
    ensures forall g :: InDevice(l, g) ==> g.row >= 0
  {
    PlaceDecodes(l, t.bank, t.row - 1);
    PlaceDecodes(l, t.bank, t.row + 1);
  }

  /** On a device, with different blast distances, the bonus of every row is what the settled dwells have earned
      it, in every run. */
  lemma {:induction false} BonusOnDevice(l: Device, c: Config, run: seq<Action>, n: nat, k: Key)
    requires OnDevice(l, c) && n <= |run| && (forall i :: 0 <= i < n ==> Decoded(l, run[i]))
    requires BH.DistinctRings(c.blast) && c.RowExists(k.row)
    ensures EX.BonusOf(RunTo(c, run, n), k) == BH.EarnedSince(c, run, HI.LastClear(c, run, n, k), n, k)
  {
    hide RunTo, KeyAt, OnDevice, Decoded, BH.Full, OV.RowBlocks, BH.SingleHits, BH.DistinctRings, BH.EarnedSince;
    BH.DistinctIsSingle(c, k);
    forall m | 0 <= m < n && BH.Full(RunTo(c, run, m), k)
      ensures OV.RowBlocks(c, RunTo(c, run, m), a => KeyAt(l, a))
    {
      RunBlocks(l, c, run, m);
    }
    BH.BonusIsHistory(c, run, n, a => KeyAt(l, a), k);
  }

  lemma {:induction false} TargetOnDevice(l: Device, c: Config, t: Key)
    requires OnDevice(l, c) && IsTarget(l, t)
    ensures InDevice(l, t) && InDevice(l, Key(t.bank, 0)) && c.RowExists(t.row)
    ensures HO.StartsAtByteZero(c, t) && c.encoder(t) == Base(l, t)
  {
    PlaceDecodes(l, t.bank, t.row);
    PlaceDecodes(l, t.bank, 0);
    hide KeyAt, Place, Anchor;
    assert CellsInRow(l, c, t);
  }
}
