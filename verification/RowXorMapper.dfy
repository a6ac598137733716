/** The secret row-to-bank mapper, and its inverse through the address inverter.

    An address is cut into fields like the public layout (column lowest, then rank up to row), and
    then a slice of the row is XOR-ed into the bank and the bank group. The main results: the map is
    a bijection, it is affine over GF(2), so the inverter of `AddrInversion` inverts it on the whole
    device, and adding one row stride always changes the bank. */
module RowXorMapping {
  import opened Bits
  import opened BitFields
  import opened Addressing
  import Inv = AddrInversion

  /** Level widths without the channel, in device order, ending with row and column. */
  datatype Layout = Layout(addrBits: seq<nat>, txOffset: nat, bankIdx: int, bankgroupIdx: int, xorOffset: int) {

    function ColIdx(): int { |addrBits| - 1 }
    function RowIdx(): int { |addrBits| - 2 }

    /** What the mapper's `init` checks, on a level list where Row sits just before Column. */
    predicate Admitted() {
      && 0 <= bankIdx < RowIdx() && 0 < addrBits[bankIdx]
      && 0 < addrBits[RowIdx()]
      && 0 <= xorOffset < addrBits[RowIdx()]
      && bankgroupIdx < RowIdx() && bankgroupIdx != bankIdx
    }

    /** Field widths from the least significant bit: Column, then the levels up to Row. */
    function Placement(): seq<nat>
      requires |addrBits| >= 2
    {
      [addrBits[ColIdx()]] + addrBits[..ColIdx()]
    }

    predicate ScramblesGroup()
      requires Admitted()
    {
      bankgroupIdx >= 0 && addrBits[bankgroupIdx] > 0
    }
  }

  /** Fields in placement order to fields in level order. */
  function Rotate(raw: seq<int>): (vs: seq<int>)
    requires raw != []
    ensures |vs| == |raw|
  {
    raw[1..] + [raw[0]]
  }

  function Unrotate(vs: seq<int>): (raw: seq<int>)
    requires vs != []
    ensures |raw| == |vs|
  {
    [vs[|vs| - 1]] + vs[..|vs| - 1]
  }

  /** XOR the row into the bank, and the row above the secret offset into the bank group. */
  function Scramble(l: Layout, vs: seq<int>): (out: seq<int>)
    requires l.Admitted() && InRange(l.addrBits, vs)
    ensures |out| == |vs|
  {
    var row := vs[l.RowIdx()];
    var b := vs[l.bankIdx := Xor(vs[l.bankIdx], Low(row, l.addrBits[l.bankIdx]))];
    if l.ScramblesGroup()
    then b[l.bankgroupIdx := Xor(b[l.bankgroupIdx], Low(Shr(row, l.xorOffset), l.addrBits[l.bankgroupIdx]))]
    else b
  }

  /** Decoded levels of an address counted in transactions. */
  function Levels(l: Layout, bits: nat): seq<int>
    requires l.Admitted()
  {
    RotatedInRange(l, bits);
    Scramble(l, Rotate(Split(l.Placement(), bits)))
  }

  /** The decoded coordinate vector, channel first. */
  function DecodeVec(l: Layout, linear: nat): seq<int>
    requires l.Admitted()
  {
    [0] + Levels(l, Shr(linear, l.txOffset))
  }

  // ---- the worker's in-place decode ------------------------------------------------------------

  class RoBaRaCoChRowXOR {
    const layout: Layout

    constructor (l: Layout)
      requires l.Admitted()
      ensures layout == l
    {
      layout := l;
    }

    /** Slice consecutive fields off the low end of `bits` into `addrVec[1..]`, Rank up to Row. */
    method SliceLevels(bits: nat, addrVec: array<int>)
      requires |layout.addrBits| >= 2 && addrVec.Length == |layout.addrBits| + 1
      modifies addrVec
      ensures addrVec[0] == old(addrVec[0]) && addrVec[layout.ColIdx() + 1] == old(addrVec[layout.ColIdx() + 1])
      ensures addrVec[1..layout.ColIdx() + 1] == Split(layout.addrBits[..layout.ColIdx()], bits)
    {
      hide Split, Low, Shr;
      var ws := layout.addrBits[..layout.ColIdx()];
      var addr := bits;
      var i := 0;
      SliceStart(ws, bits);
      while i <= layout.RowIdx()
        invariant 0 <= i <= |ws|
        invariant addrVec[0] == old(addrVec[0]) && addrVec[|ws| + 1] == old(addrVec[|ws| + 1])
        invariant addrVec[1..i + 1] + Split(ws[i..], addr) == Split(ws, bits)
      {
        SplitHead(ws, i, addr);
        ghost var done := addrVec[1..i + 1];
        addrVec[i + 1] := Low(addr, ws[i]);
        addr := Shr(addr, ws[i]);
        assert addrVec[1..i + 2] == done + [addrVec[i + 1]];
        i := i + 1;
      }
      SliceEnd(ws, addr);
    }

    /** The base decode: Column first, at the low end of the address, then the levels up to Row. */
    method SliceFields(bits: nat, addrVec: array<int>)
      requires |layout.addrBits| >= 2 && addrVec.Length == |layout.addrBits| + 1
      modifies addrVec
      ensures addrVec[0] == old(addrVec[0])
      ensures addrVec[1..] == Rotate(Split(layout.Placement(), bits))
    {
      var ws, col := layout.addrBits, layout.ColIdx();
      addrVec[col + 1] := Low(bits, ws[col]);
      SliceLevels(Shr(bits, ws[col]), addrVec);
      assert layout.Placement()[1..] == ws[..col];
      assert addrVec[1..] == addrVec[1..col + 1] + [addrVec[col + 1]];
    }

    /** Decode in place: the base fields, then the row XOR-ed into bank and bank group. */
    method Apply(intraChannelAddr: nat, addrVec: array<int>)
      requires layout.Admitted() && addrVec.Length == |layout.addrBits| + 1
      modifies addrVec
      ensures addrVec[0] == old(addrVec[0])
      ensures addrVec[1..] == Levels(layout, Shr(intraChannelAddr, layout.txOffset))
    {
      var l, ws := layout, layout.addrBits;
      var bits := Shr(intraChannelAddr, l.txOffset);
      SliceFields(bits, addrVec);
      RotatedInRange(l, bits);
      ghost var base := addrVec[1..];
      var row := addrVec[l.RowIdx() + 1];
      addrVec[l.bankIdx + 1] := Xor(addrVec[l.bankIdx + 1], Low(row, ws[l.bankIdx]));
      assert addrVec[1..] == base[l.bankIdx := Xor(base[l.bankIdx], Low(row, ws[l.bankIdx]))];
      if l.bankgroupIdx >= 0 && ws[l.bankgroupIdx] > 0 {
        addrVec[l.bankgroupIdx + 1] :=
          Xor(addrVec[l.bankgroupIdx + 1], Low(Shr(row, l.xorOffset), ws[l.bankgroupIdx]));
      }
    }

    /** The recorder's published decoder: run the mapper and pin the single channel to 0. */
    method Decode(linear: nat) returns (vec: array<int>)
      requires layout.Admitted()
      ensures fresh(vec) && vec[..] == DecodeVec(layout, linear)
    {
      vec := new int[|layout.addrBits| + 1](_ => -1);
      Apply(linear, vec);
      vec[0] := 0;
      assert vec[..] == [0] + vec[1..];
    }
  }

  const BANK_GROUP := Other("BankGroup")

  /** The levels below the channel, each with its width; Row sits just before Column. */
  predicate Listed(names: seq<Level>, addrBits: seq<nat>) {
    && |names| == |addrBits| >= 2 && names[|names| - 2] == Row && names[|names| - 1] == Column
    && forall i, j :: 0 <= i < j < |names| ==> names[i] != names[j]
  }

  /** The position of a level, or -1. */
  method LevelIndex(names: seq<Level>, name: Level) returns (i: int)
    ensures -1 <= i < |names| && (i >= 0 ==> names[i] == name) && (i == -1 <==> name !in names)
  {
    i := 0;
    while i < |names|
      invariant 0 <= i <= |names| && name !in names[..i]
    {
      if names[i] == name { return; }
      i := i + 1;
    }
    i := -1;
  }

  /** A level of the given name has a positive width. */
  predicate Mapped(names: seq<Level>, addrBits: seq<nat>, name: Level)
    requires |names| == |addrBits|
  {
    exists i :: 0 <= i < |names| && names[i] == name && addrBits[i] > 0
  }

  datatype InitResult = Ready | NegativeOffset | NoBank | NoRow | OffsetBeyondRow

  /** `init`: find the bank and bank group among the levels and refuse a geometry or an offset under which the
      scrambling would silently vanish. What it accepts is a layout that the decode admits. */
  method Init(names: seq<Level>, addrBits: seq<nat>, txOffset: nat, xorOffset: int)
    returns (result: InitResult, mapper: RoBaRaCoChRowXOR?)
    requires Listed(names, addrBits)
    ensures var rowWidth := addrBits[|addrBits| - 2];
      && (result == NegativeOffset <==> xorOffset < 0)
      && (result == NoBank <==> xorOffset >= 0 && !Mapped(names, addrBits, Bank))
      && (result == NoRow <==> xorOffset >= 0 && Mapped(names, addrBits, Bank) && rowWidth == 0)
      && (result == OffsetBeyondRow <==> Mapped(names, addrBits, Bank) && 0 < rowWidth <= xorOffset)
      && (result == Ready <==>
            Mapped(names, addrBits, Bank) && Mapped(names, addrBits, Row) && 0 <= xorOffset < rowWidth)
    ensures (mapper != null <==> result == Ready)
    ensures mapper != null ==>
      var l := mapper.layout;
      && fresh(mapper) && l.Admitted() && l.addrBits == addrBits && l.txOffset == txOffset && l.xorOffset == xorOffset
      && names[l.bankIdx] == Bank
      && (if BANK_GROUP in names then 0 <= l.bankgroupIdx && names[l.bankgroupIdx] == BANK_GROUP
          else l.bankgroupIdx == -1)
  {
    mapper := null;
    if xorOffset < 0 { return NegativeOffset, null; }
    var bankIdx := LevelIndex(names, Bank);
    var bankgroupIdx := LevelIndex(names, BANK_GROUP);
    var rowIdx := LevelIndex(names, Row);
    if bankIdx < 0 || addrBits[bankIdx] <= 0 { return NoBank, null; }
    if rowIdx < 0 || addrBits[rowIdx] <= 0 { return NoRow, null; }
    if xorOffset >= addrBits[rowIdx] { return OffsetBeyondRow, null; }
    result := Ready;
    mapper := new RoBaRaCoChRowXOR(Layout(addrBits, txOffset, bankIdx, bankgroupIdx, xorOffset));
  }

  lemma {:induction false} SliceStart(ws: seq<nat>, bits: nat)
    ensures Split(ws[0..], bits) == Split(ws, bits)
  {
    assert ws[0..] == ws;
  }

  lemma {:induction false} SliceEnd(ws: seq<nat>, addr: nat)
    ensures Split(ws[|ws|..], addr) == []
  {
  }

  lemma {:induction false} SplitHead(ps: seq<nat>, i: nat, addr: nat)
    requires i < |ps|
    ensures Split(ps[i..], addr) == [Low(addr, ps[i])] + Split(ps[i + 1..], Shr(addr, ps[i]))
  {
    assert ps[i..][1..] == ps[i + 1..];
  }

  // ---- algebra of the decode -------------------------------------------------------------------

  lemma {:induction false} RotatedInRange(l: Layout, bits: nat)
    requires l.Admitted()
    ensures InRange(l.Placement(), Split(l.Placement(), bits))
    ensures InRange(l.addrBits, Rotate(Split(l.Placement(), bits)))
  {
    SplitInRange(l.Placement(), bits);
  }

  lemma {:induction false} ScrambleInRange(l: Layout, vs: seq<int>)
    requires l.Admitted() && InRange(l.addrBits, vs)
    ensures InRange(l.addrBits, Scramble(l, vs))
  {
    var row := vs[l.RowIdx()];
    Slices(row, l.addrBits[l.bankIdx]);
    XorBelow(vs[l.bankIdx], Low(row, l.addrBits[l.bankIdx]), l.addrBits[l.bankIdx]);
    if l.ScramblesGroup() {
      var w := l.addrBits[l.bankgroupIdx];
      Slices(Shr(row, l.xorOffset), w);
      XorBelow(vs[l.bankgroupIdx], Low(Shr(row, l.xorOffset), w), w);
    }
  }

  /** Scrambling twice is the identity: the row that keys it is left alone. */
  lemma {:induction false} ScrambleInvolution(l: Layout, vs: seq<int>)
    requires l.Admitted() && InRange(l.addrBits, vs)
    ensures InRange(l.addrBits, Scramble(l, vs)) && Scramble(l, Scramble(l, vs)) == vs
  {
    ScrambleInRange(l, vs);
    var row := vs[l.RowIdx()];
    XorCancels(vs[l.bankIdx], Low(row, l.addrBits[l.bankIdx]));
    if l.ScramblesGroup() {
      XorCancels(vs[l.bankgroupIdx], Low(Shr(row, l.xorOffset), l.addrBits[l.bankgroupIdx]));
    }
  }

  /** Scrambling is linear over GF(2). */
  lemma {:induction false} ScrambleXor(l: Layout, xs: seq<int>, ys: seq<int>)
    requires l.Admitted() && InRange(l.addrBits, xs) && InRange(l.addrBits, ys)
    ensures InRange(l.addrBits, XorEach(xs, ys))
    ensures InRange(l.addrBits, Scramble(l, xs)) && InRange(l.addrBits, Scramble(l, ys))
    ensures Scramble(l, XorEach(xs, ys)) == XorEach(Scramble(l, xs), Scramble(l, ys))
  {
    XorEachInRange(l.addrBits, xs, ys);
    ScrambleInRange(l, xs);
    ScrambleInRange(l, ys);
    var r, s := xs[l.RowIdx()], ys[l.RowIdx()];
    var w := l.addrBits[l.bankIdx];
    XorSlices(r, s, w);
    XorExchange(xs[l.bankIdx], ys[l.bankIdx], Low(r, w), Low(s, w));
    if l.ScramblesGroup() {
      var g := l.addrBits[l.bankgroupIdx];
      XorSlices(r, s, l.xorOffset);
      XorSlices(Shr(r, l.xorOffset), Shr(s, l.xorOffset), g);
      XorExchange(xs[l.bankgroupIdx], ys[l.bankgroupIdx],
                  Low(Shr(r, l.xorOffset), g), Low(Shr(s, l.xorOffset), g));
    }
  }

  lemma {:induction false} LevelsInRange(l: Layout, bits: nat)
    requires l.Admitted()
    ensures InRange(l.addrBits, Levels(l, bits))
  {
    RotatedInRange(l, bits);
    ScrambleInRange(l, Rotate(Split(l.Placement(), bits)));
  }

  lemma {:induction false} RotateXor(xs: seq<int>, ys: seq<int>)
    requires |xs| == |ys| > 0
    requires forall i :: 0 <= i < |xs| ==> 0 <= xs[i] && 0 <= ys[i]
    ensures forall i :: 0 <= i < |xs| ==> 0 <= Rotate(xs)[i] && 0 <= Rotate(ys)[i]
    ensures Rotate(XorEach(xs, ys)) == XorEach(Rotate(xs), Rotate(ys))
  {
  }

  /** The decode is linear over GF(2), coordinate by coordinate. */
  lemma {:induction false} LevelsXor(l: Layout, a: nat, b: nat)
    requires l.Admitted()
    ensures InRange(l.addrBits, Levels(l, a)) && InRange(l.addrBits, Levels(l, b))
    ensures Levels(l, Xor(a, b)) == XorEach(Levels(l, a), Levels(l, b))
  {
    LevelsInRange(l, a);
    LevelsInRange(l, b);
    SplitXor(l.Placement(), a, b);
    RotatedInRange(l, a);
    RotatedInRange(l, b);
    RotatedInRange(l, Xor(a, b));
    var x, y := Split(l.Placement(), a), Split(l.Placement(), b);
    RotateXor(x, y);
    ScrambleXor(l, Rotate(x), Rotate(y));
  }

  /** The explicit preimage of in-range levels: undo the XOR, then join the fields. */
  function Unlevels(l: Layout, vs: seq<int>): nat
    requires l.Admitted() && InRange(l.addrBits, vs)
  {
    ScrambleInRange(l, vs);
    UnrotateInRange(l, Scramble(l, vs));
    Join(l.Placement(), Unrotate(Scramble(l, vs)))
  }

  lemma {:induction false} UnrotateInRange(l: Layout, vs: seq<int>)
    requires l.Admitted() && InRange(l.addrBits, vs)
    ensures InRange(l.Placement(), Unrotate(vs))
  {
  }

  lemma {:induction false} PlacementTotal(l: Layout)
    requires l.Admitted()
    ensures Total(l.Placement()) == Total(l.addrBits)
  {
    var c := l.ColIdx();
    assert l.addrBits == l.addrBits[..c] + [l.addrBits[c]];
    TotalAppend(l.addrBits[..c], [l.addrBits[c]]);
    assert l.Placement()[1..] == l.addrBits[..c];
  }

  /** The decode is onto: every in-range coordinate vector has an explicit device address ... */
  lemma {:induction false} LevelsOnto(l: Layout, vs: seq<int>)
    requires l.Admitted() && InRange(l.addrBits, vs)
    ensures Unlevels(l, vs) < Pow2(Total(l.addrBits)) && Levels(l, Unlevels(l, vs)) == vs
  {
    PlacementTotal(l);
    ScrambleInRange(l, vs);
    ScrambleInvolution(l, vs);
    var raw := Unrotate(Scramble(l, vs));
    UnrotateInRange(l, Scramble(l, vs));
    JoinBelow(l.Placement(), raw);
    SplitJoin(l.Placement(), raw);
    assert Rotate(raw) == Scramble(l, vs);
  }

  /** ... and it is one to one on the device. */
  lemma {:induction false} LevelsOneToOne(l: Layout, bits: nat)
    requires l.Admitted() && bits < Pow2(Total(l.addrBits))
    ensures InRange(l.addrBits, Levels(l, bits)) && Unlevels(l, Levels(l, bits)) == bits
  {
    PlacementTotal(l);
    LevelsInRange(l, bits);
    RotatedInRange(l, bits);
    var rot := Rotate(Split(l.Placement(), bits));
    ScrambleInvolution(l, rot);
    assert Unrotate(rot) == Split(l.Placement(), bits);
    JoinSplitBelow(l.Placement(), bits);
  }

  // ---- the mapper through the inverter ---------------------------------------------------------

  type AdmittedLayout = l: Layout | l.Admitted() witness Layout([1, 1, 0], 0, 0, -1, 0)

  /** The mapper as the recorder hands it to the inverter: the channel has width 0. */
  function AsMapper(l: AdmittedLayout): Inv.Mapper {
    Inv.Mapper([0] + l.addrBits, l.txOffset, (linear: nat) => DecodeVec(l, linear))
  }

  /** A device whose mapped addresses fit a 64-bit word. */
  predicate Fits(l: AdmittedLayout) {
    0 < Total(l.addrBits) < 64 && l.txOffset + Total(l.addrBits) <= 64
  }

  /** Byte capacity of the device. */
  function Capacity(l: AdmittedLayout): nat {
    Pow2(l.txOffset + Total(l.addrBits))
  }

  lemma {:induction false} Pow2Square(k: nat, p: nat)
    requires Pow2(k) == p
    ensures Pow2(k + k) == p * p
  {
    hide Pow2;
    Pow2Add(k, k);
  }

  lemma {:induction false} WordIsPow2()
    ensures Pow2(64) == Inv.WORD
  {
    assert Pow2(4) == 0x10;
    hide Pow2;
    Pow2Square(4, 0x10);
    Pow2Square(8, 0x100);
    Pow2Square(16, 0x1_0000);
    Pow2Square(32, 0x1_0000_0000);
  }

  /** Shifting a device address up by the transaction offset loses nothing. */
  lemma {:induction false} LinearExact(l: AdmittedLayout, bits: nat)
    requires Fits(l) && bits < Pow2(Total(l.addrBits))
    ensures AsMapper(l).Linear(bits) == Pow2(l.txOffset) * bits < Capacity(l)
    ensures Shr(AsMapper(l).Linear(bits), l.txOffset) == bits
    ensures DecodeVec(l, AsMapper(l).Linear(bits)) == [0] + Levels(l, bits)
  {
    var t, n := l.txOffset, Total(l.addrBits);
    Pow2Add(t, n);
    FieldsBelow(Pow2(t), Pow2(n), bits, 0);
    WordIsPow2();
    Pow2Monotone(t + n, 64);
    Inv.SmallMod(Pow2(t) * bits, Inv.WORD);
    SlicesUnique(bits, 0, t);
  }

  lemma {:induction false} WidthsTotal(l: AdmittedLayout)
    ensures AsMapper(l).AddrBits() == Total(l.addrBits)
  {
    assert ([0] + l.addrBits)[1..] == l.addrBits;
  }

  lemma {:induction false} VecInRange(ws: seq<nat>, vs: seq<int>)
    requires InRange(ws, vs)
    ensures InRange([0] + ws, [0] + vs)
    ensures Inv.Pack([0] + ws, [0] + vs) == Join(ws, vs)
  {
    assert Pow2(0) == 1;
    Inv.MaskedInRange([0] + ws, [0] + vs);
    assert ([0] + ws)[1..] == ws && ([0] + vs)[1..] == vs;
  }

  lemma {:induction false} ZeroSlices(k: nat)
    ensures Shr(0, k) == 0 && Low(0, k) == 0
  {
    if k > 0 { ZeroSlices(k - 1); }
  }

  /** What a probe sees: the joined levels, with no constant part. */
  lemma {:induction false} ImageIsLevels(l: AdmittedLayout, bits: nat)
    requires Fits(l) && bits < Pow2(Total(l.addrBits))
    ensures InRange(l.addrBits, Levels(l, bits))
    ensures AsMapper(l).Image(bits) == Join(l.addrBits, Levels(l, bits))
  {
    LinearExact(l, bits);
    LinearExact(l, 0);
    LevelsInRange(l, bits);
    LevelsInRange(l, 0);
    VecInRange(l.addrBits, Levels(l, bits));
    VecInRange(l.addrBits, Levels(l, 0));
    ZeroSlices(l.txOffset);
    XorSelf(0);
    LevelsXor(l, 0, 0);
    forall i | 0 <= i < |l.addrBits| ensures Levels(l, 0)[i] == 0 {
      XorSelf(Levels(l, 0)[i]);
    }
    JoinZero(l.addrBits, Levels(l, 0));
    XorZero(Join(l.addrBits, Levels(l, bits)));
  }

  lemma {:induction false} JoinZero(ws: seq<nat>, vs: seq<int>)
    requires InRange(ws, vs) && forall i :: 0 <= i < |vs| ==> vs[i] == 0
    ensures Join(ws, vs) == 0
  {
    if ws != [] { JoinZero(ws[1..], vs[1..]); }
  }

  /** The packed decode is affine over GF(2), which is what the inverter relies on. */
  lemma {:induction false} RowXorAffine(l: AdmittedLayout)
    requires Fits(l)
    ensures AsMapper(l).Ready() && AsMapper(l).Affine() && AsMapper(l).DecodesInRange()
  {
    var m, n := AsMapper(l), Total(l.addrBits);
    WidthsTotal(l);
    forall a: nat, b: nat | a < Pow2(n) && b < Pow2(n) ensures m.LinearAt(a, b) {
      XorBelow(a, b, n);
      ImageIsLevels(l, a);
      ImageIsLevels(l, b);
      ImageIsLevels(l, Xor(a, b));
      LevelsXor(l, a, b);
      JoinXor(l.addrBits, Levels(l, a), Levels(l, b));
    }
    forall a: nat | a < Pow2(n) ensures InRange(m.levelBits, m.decode(m.Linear(a))) {
      LinearExact(l, a);
      LevelsInRange(l, a);
      VecInRange(l.addrBits, Levels(l, a));
    }
  }

  lemma {:induction false} AcceptsInRange(l: AdmittedLayout, vs: seq<int>)
    requires Fits(l)
    ensures Inv.Accepts([0] + l.addrBits, [0] + vs) <==> InRange(l.addrBits, vs)
  {
    forall i | 0 <= i < |l.addrBits| ensures Inv.Limit(l.addrBits[i]) == Pow2(l.addrBits[i]) {
      WidthBelowTotal(l, i);
    }
    assert Inv.Limit(0) == 1 by { assert Pow2(0) == 1; }
    hide Pow2, Inv.Limit, Layout.Admitted;
    var ws, us := [0] + l.addrBits, [0] + vs;
    if Inv.Accepts(ws, us) {
      forall i | 0 <= i < |l.addrBits| ensures 0 <= vs[i] < Pow2(l.addrBits[i]) {
        assert ws[i + 1] == l.addrBits[i] && us[i + 1] == vs[i];
      }
    }
    if InRange(l.addrBits, vs) {
      forall i | 0 <= i < |ws| ensures 0 <= us[i] < Inv.Limit(ws[i]) {
        if i > 0 { assert ws[i] == l.addrBits[i - 1] && us[i] == vs[i - 1]; }
      }
    }
  }

  /** Bank and row are both mapped, so no single level takes the whole word. */
  lemma {:induction false} WidthBelowTotal(l: AdmittedLayout, i: nat)
    requires i < |l.addrBits|
    ensures l.addrBits[i] < Total(l.addrBits)
  {
    var j := if i == l.bankIdx then l.RowIdx() else l.bankIdx;
    TwoBelowTotal(l.addrBits, if i < j then i else j, if i < j then j else i);
  }

  lemma {:induction false} TwoBelowTotal(ws: seq<nat>, i: nat, j: nat)
    requires i < j < |ws|
    ensures ws[i] + ws[j] <= Total(ws)
  {
    if i == 0 { OneBelowTotal(ws[1..], j - 1); } else { TwoBelowTotal(ws[1..], i - 1, j - 1); }
  }

  lemma {:induction false} OneBelowTotal(ws: seq<nat>, i: nat)
    requires i < |ws|
    ensures ws[i] <= Total(ws)
  {
    if i > 0 { OneBelowTotal(ws[1..], i - 1); }
  }

  /** Encoding the decode of an aligned device address returns that very address. */
  lemma {:induction false} RowXorDecodeEncode(l: AdmittedLayout, bits: nat)
    requires Fits(l) && bits < Pow2(Total(l.addrBits))
    ensures Inv.Encode(AsMapper(l), DecodeVec(l, Pow2(l.txOffset) * bits)) == Inv.Encoded(Pow2(l.txOffset) * bits)
  {
    var m := AsMapper(l);
    WidthsTotal(l);
    RowXorAffine(l);
    LinearExact(l, bits);
    LevelsInRange(l, bits);
    AcceptsInRange(l, Levels(l, bits));
    forall b: nat | b < Pow2(m.AddrBits()) && m.decode(m.Linear(b)) == m.decode(m.Linear(bits)) ensures b == bits {
      LinearExact(l, b);
      LevelsOneToOne(l, b);
      LevelsOneToOne(l, bits);
      assert ([0] + Levels(l, b))[1..] == ([0] + Levels(l, bits))[1..];
    }
    Inv.EncodeInverts(m, bits);
  }

  /** The aligned device address of in-range coordinates. */
  function Preimage(l: AdmittedLayout, vs: seq<int>): (linear: nat)
    requires Fits(l) && InRange(l.addrBits, vs)
    ensures linear < Capacity(l) && DecodeVec(l, linear) == [0] + vs
  {
    LevelsOnto(l, vs);
    LinearExact(l, Unlevels(l, vs));
    Pow2(l.txOffset) * Unlevels(l, vs)
  }

  /** Every in-range coordinate vector is encoded, to an aligned device address that decodes back. */
  lemma {:induction false} RowXorEncodes(l: AdmittedLayout, vs: seq<int>)
    requires Fits(l) && InRange(l.addrBits, vs)
    ensures Inv.Encode(AsMapper(l), [0] + vs) == Inv.Encoded(Preimage(l, vs))
  {
    LevelsOnto(l, vs);
    RowXorDecodeEncode(l, Unlevels(l, vs));
  }
}
