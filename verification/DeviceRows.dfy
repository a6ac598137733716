/** Rows of the device: where the secret mapper meets the disturbance engine.

    The engine names a row by its decoded key and anchors it at the address that encodes the key with
    column 0. Here a DDR device (rank, bank group, bank, row, column) is put behind the row-XOR mapper:
    a row's addresses are exactly one aligned block starting at its anchor, whatever the secret offset.
    So the engine's row index agrees with the addresses it exposes, flips never move between rows, and
    arithmetic on addresses (adding a row stride) always leaves the bank. */
module DeviceRows {
  import opened Bits
  import opened BitFields
  import opened RowXorMapping
  import DM = DisturbanceModel
  import HI = History
  import OV = Overlay
  import HO = HammerOutcome
  import Inv = AddrInversion
  import Geo = DeviceGeometry
  import Ad = Addressing

  const RANK := 0
  const GROUP := 1
  const BANK := 2
  const ROW := 3
  const COLUMN := 4

  /** A single-channel DDR device that fits a 64-bit word. */
  predicate IsDdr(l: Layout) {
    l.Admitted() && Fits(l) && |l.addrBits| == 5 && l.bankIdx == BANK && l.bankgroupIdx == GROUP
  }

  type Device = l: Layout | IsDdr(l) witness Layout([0, 0, 1, 1, 0], 0, 2, 1, 0)

  function Vec(k: DM.Key, column: int): seq<int> {
    [k.bank.rank, k.bank.bankgroup, k.bank.bank, k.row, column]
  }

  predicate InDevice(l: Device, k: DM.Key) {
    k.bank.channel == 0 && InRange(l.addrBits, Vec(k, 0))
  }

  function KeyOfVec(vs: seq<int>): DM.Key
    requires |vs| == 5
  {
    DM.Key(DM.BankKey(0, vs[RANK], vs[GROUP], vs[BANK]), vs[ROW])
  }

  /** The decoded row of an address; addresses below the device have none of its rows. */
  function KeyAt(l: Device, a: int): DM.Key {
    if a < 0 then DM.Key(DM.BankKey(-1, -1, -1, -1), -1)
    else
      LevelsInRange(l, Shr(a, l.txOffset));
      KeyOfVec(Levels(l, Shr(a, l.txOffset)))
  }

  /** The address at which the engine anchors a row: its column 0. */
  function Anchor(l: Device, k: DM.Key): nat
    requires InDevice(l, k)
  {
    Preimage(l, Vec(k, 0))
  }

  function SpanBits(l: Device): nat { l.txOffset + l.addrBits[COLUMN] }

  /** Bytes of one row. */
  function Span(l: Device): nat { Pow2(SpanBits(l)) }

  // ---- a row is one aligned block ------------------------------------------------------------------------

  lemma {:induction false} LevelsByBlock(l: Device, bits: nat)
    ensures InRange(l.addrBits, Levels(l, bits))
    ensures var w := l.addrBits[COLUMN]; Levels(l, bits) == Levels(l, Pow2(w) * Shr(bits, w))[COLUMN := Low(bits, w)]
  {
    var w := l.addrBits[COLUMN];
    var base := Pow2(w) * Shr(bits, w);
    LevelsInRange(l, bits);
    LevelsInRange(l, base);
    Slices(bits, w);
    SlicesUnique(Shr(bits, w), 0, w);
    RotatedInRange(l, bits);
    RotatedInRange(l, base);
    var p := l.Placement();
    assert Split(p, bits) == [Low(bits, w)] + Split(p[1..], Shr(bits, w));
    assert Split(p, base) == [0] + Split(p[1..], Shr(bits, w));
  }

  /** The key of an address does not depend on its offset inside a row-sized block. */
  lemma {:induction false} KeyByBlock(l: Device, a: nat, off: nat)
    requires off < Span(l)
    ensures KeyAt(l, Pow2(SpanBits(l)) * a + off) == KeyAt(l, Pow2(SpanBits(l)) * a)
  {
    var t, w := l.txOffset, l.addrBits[COLUMN];
    hide Levels;
    BlockShift(t, w, a, off);
    BlockShift(t, w, a, 0);
    LevelsByBlock(l, Shr(Pow2(t + w) * a + off, t));
    LevelsByBlock(l, Shr(Pow2(t + w) * a, t));
  }

  lemma {:induction false} BlockShift(t: nat, w: nat, a: nat, off: nat)
    requires off < Pow2(t + w)
    ensures Shr(Shr(Pow2(t + w) * a + off, t), w) == a
  {
    ShrShr(Pow2(t + w) * a + off, t, w);
    SlicesUnique(a, off, t + w);
  }

  lemma {:induction false} AnchorAligned(l: Device, k: DM.Key)
    requires InDevice(l, k)
    ensures Anchor(l, k) == Pow2(SpanBits(l)) * Shr(Anchor(l, k), SpanBits(l))
    ensures KeyAt(l, Anchor(l, k)) == k && Anchor(l, k) < Capacity(l)
  {
    hide Levels, Unlevels;
    var t, w, vs := l.txOffset, l.addrBits[COLUMN], Vec(k, 0);
    LevelsOnto(l, vs);
    var bits := Unlevels(l, vs);
    LinearExact(l, bits);
    ColumnZero(l, bits);
    Pow2Add(t, w);
    MulSplit(Pow2(t), Pow2(w), Shr(bits, w), 0);
    SlicesUnique(Shr(bits, w), 0, t + w);
  }

  lemma {:induction false} ColumnZero(l: Device, bits: nat)
    requires Levels(l, bits)[COLUMN] == 0
    ensures bits == Pow2(l.addrBits[COLUMN]) * Shr(bits, l.addrBits[COLUMN])
  {
    LevelsByBlock(l, bits);
    Slices(bits, l.addrBits[COLUMN]);
  }

  lemma {:induction false} KeyInDevice(l: Device, a: nat)
    ensures InDevice(l, KeyAt(l, a))
  {
    hide Levels;
    LevelsInRange(l, Shr(a, l.txOffset));
  }

  /** The start of block `b`, counted in transactions, has column 0 and the key of the block. */
  lemma {:induction false} BlockBase(l: Device, b: nat)
    ensures var w, s := l.addrBits[COLUMN], SpanBits(l);
      && Pow2(s) * b == Pow2(l.txOffset) * (Pow2(w) * b)
      && InDevice(l, KeyAt(l, Pow2(s) * b))
      && Levels(l, Pow2(w) * b) == Vec(KeyAt(l, Pow2(s) * b), 0)
  {
    hide Levels, Unlevels, Total, Join, Split, Xor;
    var t, w := l.txOffset, l.addrBits[COLUMN];
    KeyInDevice(l, Pow2(t + w) * b);
    Pow2Add(t, w);
    MulSplit(Pow2(t), Pow2(w), b, 0);
    SlicesUnique(Pow2(w) * b, 0, t);
    SlicesUnique(b, 0, w);
    LevelsByBlock(l, Pow2(w) * b);
  }

  /** The start of the block of `a` is the anchor of its row. */
  lemma {:induction false} BlockStart(l: Device, a: nat)
    requires a < Capacity(l)
    ensures InDevice(l, KeyAt(l, a))
    ensures Anchor(l, KeyAt(l, a)) == Pow2(SpanBits(l)) * Shr(a, SpanBits(l))
  {
    var s := SpanBits(l);
    var b := Shr(a, s);
    var bits := Pow2(l.addrBits[COLUMN]) * b;
    Slices(a, s);
    KeyByBlock(l, b, Low(a, s));
    BlockBase(l, b);
    hide Levels, Unlevels, Shr, Low, Total, Join, Split, Xor, Pow2, KeyAt, InDevice;
    InCapacity(l, bits, a);
    LevelsOneToOne(l, bits);
  }

  lemma {:induction false} InCapacity(l: Device, bits: nat, a: nat)
    requires Pow2(l.txOffset) * bits <= a < Capacity(l)
    ensures bits < Pow2(Total(l.addrBits))
  {
    Pow2Add(l.txOffset, Total(l.addrBits));
    if bits >= Pow2(Total(l.addrBits)) { MulMonotone(Pow2(l.txOffset), Pow2(Total(l.addrBits)), bits); }
  }

  /** The addresses of a row are exactly the block of `Span` bytes at its anchor. */
  lemma {:induction false} RowIsBlock(l: Device, k: DM.Key, a: nat)
    requires InDevice(l, k) && a < Capacity(l)
    ensures KeyAt(l, a) == k <==> Anchor(l, k) <= a < Anchor(l, k) + Span(l)
  {
    hide KeyAt, Anchor, InDevice;
    var s := SpanBits(l);
    Slices(a, s);
    AnchorAligned(l, k);
    if KeyAt(l, a) == k {
      BlockStart(l, a);
    } else if Anchor(l, k) <= a < Anchor(l, k) + Span(l) {
      KeyByBlock(l, Shr(Anchor(l, k), s), a - Anchor(l, k));
    }
  }

  /** Different rows have disjoint blocks, and a block lies inside the device. */
  lemma {:induction false} InRow(l: Device, k: DM.Key, off: nat)
    requires InDevice(l, k) && off < Span(l)
    ensures KeyAt(l, Anchor(l, k) + off) == k
  {
    hide KeyAt, Anchor, InDevice;
    AnchorAligned(l, k);
    KeyByBlock(l, Shr(Anchor(l, k), SpanBits(l)), off);
  }

  // ---- adding a row stride --------------------------------------------------------------------------------

  /** Fields below Row. */
  function Below(l: Layout): seq<nat>
    requires |l.addrBits| >= 2
  {
    [l.addrBits[l.ColIdx()]] + l.addrBits[..l.RowIdx()]
  }

  function Stride(l: Layout): nat
    requires |l.addrBits| >= 2
  {
    Pow2(l.txOffset + Total(Below(l)))
  }

  lemma {:induction false} LowOfNext(n: nat, w: nat)
    requires w > 0
    ensures Low(n + 1, w) != Low(n, w)
  {
  }

  /** Moving up by one row stride moves to the next row index and always to another bank. */
  lemma {:induction false} StrideLeavesBank(l: AdmittedLayout, a: nat)
    requires a + Stride(l) < Capacity(l)
    ensures DecodeVec(l, a + Stride(l))[l.RowIdx() + 1] == DecodeVec(l, a)[l.RowIdx() + 1] + 1
    ensures DecodeVec(l, a + Stride(l))[l.bankIdx + 1] != DecodeVec(l, a)[l.bankIdx + 1]
  {
    hide Levels, Stride, Capacity;
    StrideMovesRow(l, a);
    NextRow(l, Shr(a, l.txOffset), Shr(a + Stride(l), l.txOffset));
  }

  lemma {:induction false} StrideMovesRow(l: AdmittedLayout, a: nat)
    requires a + Stride(l) < Capacity(l)
    ensures var x, y := Split(l.Placement(), Shr(a, l.txOffset)), Split(l.Placement(), Shr(a + Stride(l), l.txOffset));
      y == x[|l.addrBits| - 1 := x[|l.addrBits| - 1] + 1]
  {
    var ws, u := Below(l), l.addrBits[l.RowIdx()];
    RowOnTop(l);
    hide Split, Shr, Total, Pow2, InRange;
    Geo.StrideMovesTop(ws, u, l.txOffset, a);
  }

  lemma {:induction false} RowOnTop(l: AdmittedLayout)
    ensures var u := l.addrBits[l.RowIdx()];
      l.Placement() == Below(l) + [u] && Total(l.addrBits) == Total(Below(l)) + u
  {
    var u := l.addrBits[l.RowIdx()];
    assert l.Placement() == Below(l) + [u];
    PlacementTotal(l);
    TotalAppend(Below(l), [u]);
    assert [u][1..] == [];
  }

  lemma {:induction false} NextRow(l: AdmittedLayout, x: nat, y: nat)
    requires Split(l.Placement(), y) ==
             Split(l.Placement(), x)[|l.addrBits| - 1 := Split(l.Placement(), x)[|l.addrBits| - 1] + 1]
    ensures Levels(l, y)[l.RowIdx()] == Levels(l, x)[l.RowIdx()] + 1
    ensures Levels(l, y)[l.bankIdx] != Levels(l, x)[l.bankIdx]
  {
    hide Split, Shr, Total, Join, Xor, Low, Pow2;
    RotatedInRange(l, x);
    RotatedInRange(l, y);
    var p, q := Rotate(Split(l.Placement(), x)), Rotate(Split(l.Placement(), y));
    var r, w := p[l.RowIdx()], l.addrBits[l.bankIdx];
    assert q == p[l.RowIdx() := r + 1];
    LowOfNext(r, w);
    XorCancels(Low(r, w), p[l.bankIdx]);
    XorCancels(Low(r + 1, w), p[l.bankIdx]);
    XorCommutes(p[l.bankIdx], Low(r, w));
    XorCommutes(p[l.bankIdx], Low(r + 1, w));
  }

  // ---- the reported geometry ------------------------------------------------------------------------------

  /** The worker's geometry report describes device `l`: same widths, Row just before Column. */
  ghost predicate Describes(g: Ad.Geometry, l: Device) {
    && Ad.Projectable(g) && Ad.RowPos(g) == |g.sizes| - 2
    && l.txOffset == Ad.TxOffset(g) && l.addrBits == Ad.Widths(g, 1, |g.sizes|)
  }

  /** The stride, span and capacity that the environment derives from the report are those of the device
      behind the secret mapper: the scrambling moves no field. */
  lemma {:induction false} ReportMatchesDevice(g: Ad.Geometry, l: Device)
    requires Describes(g, l)
    ensures Ad.Fields(g) == l.Placement()
    ensures Stride(l) == Pow2(Ad.Shift(Ad.TxOffset(g), Ad.Fields(g), Ad.RowPos(g)))
    ensures Span(l) == Geo.RowSpan(g)
    ensures Capacity(l) == Pow2(Ad.TxOffset(g) + Total(Ad.Fields(g)))
  {
    hide Pow2, Total, Ad.Widths, Ad.Fields, Ad.Shift, Geo.RowSpan, Ad.Log2, Ad.IsPow2;
    FieldsArePlacement(g, l);
    StrideMatches(g, l);
    PlacementTotal(l);
    Geo.SpanIsColumnBlock(g);
  }

  lemma {:induction false} StrideMatches(g: Ad.Geometry, l: Device)
    requires Describes(g, l)
    ensures Ad.RowPos(g) <= |Ad.Fields(g)|
    ensures Stride(l) == Pow2(Ad.Shift(Ad.TxOffset(g), Ad.Fields(g), Ad.RowPos(g)))
  {
    FieldsArePlacement(g, l);
    hide Pow2, Total, Ad.Log2, Ad.Fields, Ad.Widths, Ad.IsPow2;
    Ad.ShiftIsOffset(Ad.TxOffset(g), Ad.Fields(g), Ad.RowPos(g));
  }

  lemma {:induction false} FieldsArePlacement(g: Ad.Geometry, l: Device)
    requires Describes(g, l)
    ensures Ad.Fields(g) == l.Placement() && Ad.RowPos(g) <= |Ad.Fields(g)|
    ensures Ad.Fields(g)[..Ad.RowPos(g)] == Below(l)
  {
    hide Pow2, Total, Ad.Log2, Ad.IsPow2;
    Ad.NamesDistinct(g);
  }

  // ---- the engine on the device ---------------------------------------------------------------------------

  /** The engine's configuration is that of device `l`: keys anchored by the mapper's own inverse, as
      many rows, and every row's cell sequence inside the row, one bit of a byte each, starting with its
      first bit in byte 0. */
  ghost predicate OnDevice(l: Device, c: DM.Config) {
    && c.rowCount == Pow2(l.addrBits[ROW])
    && (forall k {:trigger c.encoder(k)} :: InDevice(l, k) ==> c.encoder(k) == Anchor(l, k))
    && (forall k {:trigger CellsInRow(l, c, k)} :: InDevice(l, k) ==> CellsInRow(l, c, k))
  }

  ghost predicate CellsInRow(l: Device, c: DM.Config, k: DM.Key) {
    && (forall x :: x in c.cells(k, c.FirstBit(k)) ==> x.off < Span(l) && x.bit < 8)
    && HO.StartsAtByteZero(c, k)
  }

  /** A configuration with one cell per row and fixed thresholds, anchored by the mapper's inverse. */
  function FixedConfig(l: Device, oracle: bool, tRH: int, double: DM.Positive, single: DM.Positive): DM.Config {
    DM.Config(
      Pow2(l.addrBits[ROW]), [DM.Ring(1, 1.0)], 8192, oracle, tRH,
      (k: DM.Key) => if InDevice(l, k) then Anchor(l, k) else 0,
      DM.Key(DM.BankKey(0, 0, 0, 0), 0), double, single, 0,
      (k: DM.Key, d: bool, ones: bool) => if d then double else single, (k: DM.Key) => 0,
      (d: bool, ones: bool) => DM.None, (k: DM.Key, bit: nat) => [DM.Cell(0, bit)], DM.None)
  }

  /** Every device has engine configurations, for any thresholds. */
  lemma {:induction false} FixedIsOnDevice(l: Device, oracle: bool, tRH: int, double: DM.Positive, single: DM.Positive)
    ensures OnDevice(l, FixedConfig(l, oracle, tRH, double, single))
  {
    hide Anchor, InDevice;
    var c := FixedConfig(l, oracle, tRH, double, single);
    forall k ensures CellsInRow(l, c, k) {
      assert c.cells(k, c.FirstBit(k)) == [DM.Cell(0, c.FirstBit(k))];
    }
  }

  /** What the worker's inverter answers for column 0 of a row is its anchor. */
  lemma {:induction false} EncoderIsInverter(l: Device, k: DM.Key)
    requires InDevice(l, k)
    ensures Inv.Encode(AsMapper(l), [0] + Vec(k, 0)) == Inv.Encoded(Anchor(l, k))
  {
    RowXorEncodes(l, Vec(k, 0));
  }

  /** An activation carries the coordinates of a bank of the device, as decoded ones do. Other commands may carry
      -1 where they address all nodes of a level. */
  predicate Decoded(l: Device, a: DM.Action) {
    HI.IsActivation(a) ==> InDevice(l, DM.Key(a.event.bank, 0))
  }

  /** The rank-scoped precharge and refresh, whose bank coordinates are -1, are decoded commands of every device. */
  lemma {:induction false} RankCommandsAreDecoded(l: Device, run: seq<DM.Action>, channel: int, rank: int, clk: int)
    requires forall i :: 0 <= i < |run| ==> Decoded(l, run[i])
    ensures var scope := DM.BankKey(channel, rank, -1, -1);
      var more := run + [DM.Issue(DM.Event("PREab", clk, scope, -1)), DM.Issue(DM.Event("REFab", clk, scope, -1))];
      && forall i :: 0 <= i < |more| ==> Decoded(l, more[i])
    ensures DM.Classify("PREab") == DM.Close && DM.Classify("REFab") == DM.Refresh
  {
    assert "PREab"[..3] == "PRE" && "REFab"[..3] == "REF";
  }

  lemma {:induction false} RowOfBank(l: Device, c: DM.Config, k: DM.Key, x: DM.Cell)
    requires OnDevice(l, c) && InDevice(l, DM.Key(k.bank, 0)) && c.RowExists(k.row)
    ensures InDevice(l, k) && HO.StartsAtByteZero(c, k)
    ensures x in OV.Window(c, k) ==> KeyAt(l, c.encoder(k) + x.off) == k
  {
    hide KeyAt, Anchor, HO.StartsAtByteZero;
    assert Vec(k, 0) == Vec(DM.Key(k.bank, 0), 0)[ROW := k.row];
    assert InDevice(l, k);
    assert CellsInRow(l, c, k);
    if x in OV.Window(c, k) {
      assert x in c.cells(k, c.FirstBit(k));
      InRow(l, k, x.off);
    }
  }

  lemma {:induction false} BlocksAreApart(l: Device, c: DM.Config, b: DM.BankKey)
    requires OnDevice(l, c) && InDevice(l, DM.Key(b, 0))
    ensures HO.BlocksApart(c, b, a => KeyAt(l, a))
  {
    hide KeyAt, OnDevice, InDevice, OV.Window;
    forall k: DM.Key, x: DM.Cell | k.bank == b && c.RowExists(k.row) && x in OV.Window(c, k)
      ensures KeyAt(l, c.encoder(k) + x.off) == k
    {
      RowOfBank(l, c, k, x);
    }
  }

  lemma {:induction false} RunBlocks(l: Device, c: DM.Config, run: seq<DM.Action>, n: nat)
    requires OnDevice(l, c) && n <= |run| && forall i :: 0 <= i < n ==> Decoded(l, run[i])
    ensures OV.RowBlocks(c, DM.RunTo(c, run, n), a => KeyAt(l, a))
  {
    hide KeyAt, OnDevice, InDevice, OV.Window, DM.RunTo;
    var s := DM.RunTo(c, run, n);
    forall k, x | k in s.victims && x in OV.Window(c, k) ensures KeyAt(l, c.encoder(k) + x.off) == k {
      HO.VictimsAreNeighbours(c, run, n, k);
      var i :| 0 <= i < n && HO.Exposes(c, run[i], k);
      assert Decoded(l, run[i]);
      RowOfBank(l, c, k, x);
    }
  }

  /** The reward index agrees with observable memory in every run of the device: a row's key is in it
      just when some flipped address decodes to that row. */
  lemma {:induction false} RewardIsExact(l: Device, c: DM.Config, run: seq<DM.Action>, n: nat, k: DM.Key)
    requires OnDevice(l, c) && n <= |run| && forall i :: 0 <= i < n ==> Decoded(l, run[i])
    ensures k in DM.RunTo(c, run, n).flippedKeys <==> exists a :: a in DM.RunTo(c, run, n).flips && KeyAt(l, a) == k
  {
    hide KeyAt, OnDevice, Decoded, DM.RunTo, OV.RowBlocks, OV.Sound;
    OV.RunSound(c, run, n);
    RunBlocks(l, c, run, n);
    OV.IndexIsExact(c, DM.RunTo(c, run, n), a => KeyAt(l, a), k);
  }

  /** No flip ever takes a cell away from another row. */
  lemma {:induction false} FlipsNeverSteal(l: Device, c: DM.Config, run: seq<DM.Action>, n: nat, k: DM.Key,
      cell: DM.Cell)
    requires OnDevice(l, c) && n <= |run| && forall i :: 0 <= i < n ==> Decoded(l, run[i])
    requires k in DM.RunTo(c, run, n).victims && cell in OV.Window(c, k)
    ensures var s := DM.RunTo(c, run, n);
      var a := s.victims[k].addr + cell.off; a in s.owners ==> s.owners[a].key == k
  {
    hide KeyAt, OnDevice, Decoded, DM.RunTo, OV.Window;
    OV.RunSound(c, run, n);
    RunBlocks(l, c, run, n);
    OV.NoTheft(c, DM.RunTo(c, run, n), a => KeyAt(l, a), k, cell);
  }
}
