/** Which cells a row flips.

    A crossing asks for one cell and, past the threshold, for more in
    proportion to the excess, 64 at most. It takes the first so many cells
    of the row's sequence; where several lie in one byte the last of them
    counts. Cells that earlier crossings flipped in other bytes stay. The
    statements name exposure, threshold and gain, and the sequence itself;
    how the engine gets there is not repeated. `Layered` is the relation
    between the cells before and after. */
module FlippedCells {
  import opened DisturbanceModel
  import opened Exposures
  import opened History
  import opened Overlay
  import opened OracleProtection
  import opened HammerOutcome

  // ---- what is asked for ---------------------------------------------------------------------------------

  /** The cells that exposure `e` asks for against threshold `t`: none below it, one at it, and one more for every
      full `1 / gain` of the threshold by which it is exceeded. */
  function Recruits(e: real, t: Positive, gain: Option<Gain>): nat {
    if e < t as real then 0
    else if gain.None? then 1
    else Capped(1 + Excess(e, t, gain.value))
  }

  function Excess(e: real, t: Positive, gain: Gain): nat
    requires e >= t as real
  {
    assert (e / t as real - 1.0) * gain >= 0.0 by { Ratio(e, t); }
    ((e / t as real - 1.0) * gain).Floor
  }

  function Capped(n: nat): nat { if n < MAX_BITS then n else MAX_BITS }

  lemma {:induction false} Ratio(e: real, t: Positive)
    ensures e >= t as real <==> e / t as real >= 1.0
  {
    assert e == (e / t as real) * t as real;
  }

  /** The cells that row `k` with stratum `ones` is asked for at exposure `l`, `r` and bonus `b`. */
  function Asked(c: Config, k: Key, ones: bool, l: real, r: real, b: real): nat {
    if l > 0.0 && r > 0.0 then Recruits(Min(l, r) * 2.0 + b, c.Threshold(k, true, ones), c.gain(true, ones))
    else Recruits(Max(l, r) + b, c.Threshold(k, false, ones), c.gain(false, ones))
  }

  /** The first `n` cells of the row's sequence. */
  function FirstCells(c: Config, k: Key, n: nat): seq<Cell> { Take(c.cells(k, c.FirstBit(k)), n) }

  predicate AtByte(cs: seq<Cell>, off: nat) { exists i :: 0 <= i < |cs| && cs[i].off == off }

  /** A row that held `before` holds `after` once the cells of the list are flipped in it. */
  ghost predicate Layered(before: set<Cell>, after: set<Cell>, cs: seq<Cell>) {
    forall x :: x in after <==> LastAt(cs, x) || (x in before && !AtByte(cs, x.off))
  }

  // ---- one crossing ------------------------------------------------------------------------------------------

  ghost predicate OnePerByte(xs: set<Cell>) {
    forall x, y :: x in xs && y in xs && x.off == y.off ==> x == y
  }

  lemma {:induction false} SoundOnePerByte(c: Config, s: State, k: Key)
    requires Linked(c, s)
    ensures OnePerByte(CellsOf(s, k))
  {
    hide AllLatent, OwnersHold;
    forall x, y | x in CellsOf(s, k) && y in CellsOf(s, k) && x.off == y.off ensures x == y {
      assert OwnedBy(s, c.encoder(k) + x.off, Owner(k, x));
      assert OwnedBy(s, c.encoder(k) + y.off, Owner(k, y));
    }
  }

  lemma {:induction false} ReleaseOwn(s: State, a: int, k: Key)
    requires a in s.owners && s.owners[a].key == k && k in s.victims
    ensures CellsOf(WithoutOwner(s, a), k) == CellsOf(s, k) - {s.owners[a].cell}
  {
  }

  lemma {:induction false} OwnOwner(c: Config, s: State, k: Key, a: int, cell: Cell)
    requires a in s.owners && OwnerHolds(c, s, a) && s.owners[a].key == k && a == c.encoder(k) + cell.off
    ensures k in s.victims && s.owners[a].cell in s.victims[k].cells && s.owners[a].cell.off == cell.off
  {
  }

  /** The owner of an address of row `k` is the row's cell at that byte, if it has one there. */
  lemma {:induction false} ByteOwner(c: Config, s: State, k: Key, cell: Cell, rowOf: int -> Key)
    requires Linked(c, s) && RowBlocks(c, s, rowOf) && k in s.victims && cell in Window(c, k)
    ensures var a := c.encoder(k) + cell.off;
      && s.victims[k].addr == c.encoder(k)
      && (a in s.owners ==> s.owners[a].key == k && s.owners[a].cell.off == cell.off)
      && forall y :: y in CellsOf(s, k) && y.off == cell.off ==> a in s.owners && s.owners[a] == Owner(k, y)
  {
    LatentOf(c, s, k);
    NoTheft(c, s, rowOf, k, cell);
    hide AllLatent, RowBlocks, Window;
    var a := c.encoder(k) + cell.off;
    assert s.victims[k].addr == c.encoder(k);
    hide Latent;
    if a in s.owners { OwnOwner(c, s, k, a, cell); }
    hide OwnersHold;
    forall y | y in CellsOf(s, k) && y.off == cell.off ensures a in s.owners && s.owners[a] == Owner(k, y) {
      assert OwnedBy(s, c.encoder(k) + y.off, Owner(k, y));
    }
  }

  /** An emission replaces the cell at its byte. */
  lemma {:induction false} EmitOwn(c: Config, s: State, k: Key, cell: Cell, rowOf: int -> Key)
    requires Linked(c, s) && RowBlocks(c, s, rowOf) && k in s.victims && cell in Window(c, k)
    ensures CellsOf(Emit(s, k, cell), k) == (set y | y in CellsOf(s, k) && y.off != cell.off) + {cell}
  {
    var a, cells := c.encoder(k) + cell.off, CellsOf(s, k);
    ByteOwner(c, s, k, cell, rowOf);
    hide Linked, RowBlocks, Window, Emit, WithoutOwner, Records, CellsOf;
    EmitRecords(c, s, k, cell);
    if a in s.owners && s.owners[a] != Owner(k, cell) {
      ReleaseOwn(s, a, k);
      RecordedCells(c, WithoutOwner(s, a), Emit(s, k, cell), k, cell);
      OffByte(cells, cell, s.owners[a].cell);
    } else {
      RecordedCells(c, s, Emit(s, k, cell), k, cell);
      OffByte(cells, cell, cell);
    }
  }

  lemma {:induction false} RecordedCells(c: Config, s: State, t: State, k: Key, cell: Cell)
    requires k in s.victims && Records(c, s, t, k, cell)
    ensures CellsOf(t, k) == CellsOf(s, k) + {cell}
  {
  }

  lemma {:induction false} OffByte(cells: set<Cell>, cell: Cell, z: Cell)
    requires z.off == cell.off && forall y :: y in cells && y.off == cell.off ==> y == z
    ensures (set y | y in cells && y.off != cell.off) + {cell} == cells - {z} + {cell}
  {
  }

  /** Emitting a list with one cell per byte layers it over the row's cells. */
  lemma {:induction false} EmitAllOwn(c: Config, s: State, k: Key, cells: seq<Cell>, rowOf: int -> Key, x: Cell)
    requires SoundBut(c, s, k) && RowBlocks(c, s, rowOf) && k in s.victims && OneCellPerByte(cells)
    requires forall y :: y in cells ==> y in Window(c, k)
    ensures x in CellsOf(EmitAll(s, k, cells), k) <==> x in cells || (x in CellsOf(s, k) && !AtByte(cells, x.off))
    decreases |cells|
  {
    hide Emit, Window, RowBlocks, Linked, CellsOf;
    if cells != [] {
      var t, rest := Emit(s, k, cells[0]), cells[1..];
      EmitOwn(c, s, k, cells[0], rowOf);
      EmitKeeps(c, s, k, cells[0]);
      EmitBlocks(c, s, k, cells[0], rowOf);
      RestOfBytes(cells);
      EmitAllOwn(c, t, k, rest, rowOf, x);
      SplitByte(cells, x);
    }
  }

  lemma {:induction false} EmitBlocks(c: Config, s: State, k: Key, cell: Cell, rowOf: int -> Key)
    requires RowBlocks(c, s, rowOf) && k in s.victims
    ensures RowBlocks(c, Emit(s, k, cell), rowOf)
  {
    hide RowBlocks, Emit;
    SameKeysSameBlocks(c, s, Emit(s, k, cell), rowOf);
  }

  lemma {:induction false} RestOfBytes(cells: seq<Cell>)
    requires OneCellPerByte(cells) && cells != []
    ensures OneCellPerByte(cells[1..]) && !AtByte(cells[1..], cells[0].off)
  {
  }

  lemma {:induction false} SplitByte(cells: seq<Cell>, x: Cell)
    requires cells != []
    ensures AtByte(cells, x.off) <==> cells[0].off == x.off || AtByte(cells[1..], x.off)
    ensures x in cells <==> cells[0] == x || x in cells[1..]
    ensures x in cells[1..] ==> AtByte(cells[1..], x.off)
  {
    var rest := cells[1..];
    assert forall i :: 0 <= i < |rest| ==> rest[i] == cells[i + 1];
    assert cells == [cells[0]] + rest;
    if AtByte(cells, x.off) {
      var i :| 0 <= i < |cells| && cells[i].off == x.off;
      if i > 0 { assert rest[i - 1].off == x.off; }
    }
    if AtByte(rest, x.off) {
      var i :| 0 <= i < |rest| && rest[i].off == x.off;
      assert cells[i + 1].off == x.off;
    }
  }

  lemma {:induction false} LastIsLast(cs: seq<Cell>)
    requires cs != []
    ensures LastAt(cs, cs[|cs| - 1])
  {
  }

  lemma {:induction false} LastAtByte(cs: seq<Cell>, off: nat)
    requires AtByte(cs, off)
    ensures exists z: Cell :: z.off == off && LastAt(cs, z)
  {
    var n := |cs| - 1;
    if cs[n].off == off {
      LastIsLast(cs);
    } else {
      var i :| 0 <= i < |cs| && cs[i].off == off;
      assert cs[..n][i].off == off;
      LastAtByte(cs[..n], off);
      var z: Cell :| z.off == off && LastAt(cs[..n], z);
      var m :| 0 <= m < n && cs[..n][m] == z && forall j :: m < j < n ==> cs[..n][j].off != z.off;
      assert cs[m] == z && forall j :: m < j < |cs| ==> cs[j].off != z.off by {
        forall j | m < j < |cs| ensures cs[j].off != z.off { if j < n { assert cs[..n][j] == cs[j]; } }
      }
      assert LastAt(cs, z);
    }
  }

  /** Leaving out the cells that are active already makes no difference. */
  lemma {:induction false} FilteredLayer(before: set<Cell>, os: seq<Cell>, cs: seq<Cell>, x: Cell)
    requires OnePerByte(before) && OneCellPerByte(os) && forall y :: y in os <==> LastAt(cs, y)
    ensures var fs := Without(os, before);
      (x in fs || (x in before && !AtByte(fs, x.off))) <==> LastAt(cs, x) || (x in before && !AtByte(cs, x.off))
  {
    var fs := Without(os, before);
    WithoutExact(os, before, x);
    if AtByte(cs, x.off) {
      LastAtByte(cs, x.off);
      var z: Cell :| z.off == x.off && LastAt(cs, z);
      assert z in os;
      WithoutExact(os, before, z);
      if z !in before {
        var i :| 0 <= i < |fs| && fs[i] == z;
        assert AtByte(fs, x.off);
      }
    }
    if AtByte(fs, x.off) {
      var i :| 0 <= i < |fs| && fs[i].off == x.off;
      WithoutFrom(os, before, fs[i]);
      assert LastAt(cs, fs[i]);
      LastInByte(cs, fs[i]);
    }
    if LastAt(cs, x) { LastInByte(cs, x); }
  }

  lemma {:induction false} LastInByte(cs: seq<Cell>, x: Cell)
    requires LastAt(cs, x)
    ensures AtByte(cs, x.off)
  {
  }

  // ---- one credited row ---------------------------------------------------------------------------------------

  lemma {:induction false} FlipLayer(c: Config, s: State, k: Key, n: nat, rowOf: int -> Key)
    requires Sound(c, s) && RowBlocks(c, s, rowOf) && k in s.victims && n <= MAX_BITS
    ensures Layered(CellsOf(s, k), CellsOf(EmitAll(s, k, FlipPositions(c, k, s.victims[k], n)), k), FirstCells(c, k, n))
  {
    var v, cells := s.victims[k], FlipPositions(c, k, s.victims[k], n);
    var os, cs, t := OverlayCells(FirstCells(c, k, n)), FirstCells(c, k, n), EmitAll(s, k, cells);
    LatentOf(c, s, k);
    assert cells == Without(os, v.cells);
    SoundOnePerByte(c, s, k);
    forall y | y in cells ensures y in Window(c, k) { PositionsInWindow(c, k, v, n, y); }
    hide EmitAll, OverlayCells, Without, Window, Linked, RowBlocks, Latent, FlipPositions, FirstCells;
    forall x ensures x in CellsOf(t, k) <==> LastAt(cs, x) || (x in v.cells && !AtByte(cs, x.off)) {
      LayerCell(v.cells, os, cs, x);
      EmitAllOwn(c, s, k, cells, rowOf, x);
    }
  }

  lemma {:induction false} LayerCell(before: set<Cell>, os: seq<Cell>, cs: seq<Cell>, x: Cell)
    requires OnePerByte(before) && os == OverlayCells(cs)
    ensures var fs := Without(os, before);
      && OneCellPerByte(fs)
      && ((x in fs || (x in before && !AtByte(fs, x.off))) <==> LastAt(cs, x) || (x in before && !AtByte(cs, x.off)))
  {
    hide OverlayCells;
    forall y ensures y in os <==> LastAt(cs, y) { OverlayCellsExact(cs, y); }
    OverlayCellsExact(cs, x);
    WithoutPerByte(os, before);
    FilteredLayer(before, os, cs, x);
  }

  lemma {:induction false} WithoutPerByte(os: seq<Cell>, active: set<Cell>)
    requires OneCellPerByte(os)
    ensures OneCellPerByte(Without(os, active))
  {
    if os != [] {
      RestOfBytes(os);
      WithoutPerByte(os[1..], active);
      if os[0] !in active {
        var rest := Without(os[1..], active);
        forall j | 0 <= j < |rest| ensures rest[j].off != os[0].off { WithoutFrom(os[1..], active, rest[j]); }
      }
    }
  }

  lemma {:induction false} SameCount(xs: set<Cell>, cs: seq<Cell>, x: Cell)
    requires (forall y :: y in xs ==> y in cs) && |xs| >= |cs| && x in cs
    ensures x in xs
  {
    if x !in xs {
      assert |xs + {x}| == |xs| + 1;
      SetOfSeq(cs, xs + {x});
    }
  }

  /** A full row holds all of the first 64 cells, so no request changes it. */
  lemma {:induction false} FullLayer(c: Config, s: State, k: Key, n: nat)
    requires Linked(c, s) && |CellsOf(s, k)| >= MAX_BITS && k in s.victims && n <= MAX_BITS
    ensures Layered(CellsOf(s, k), CellsOf(s, k), FirstCells(c, k, n))
  {
    var cells, cs := CellsOf(s, k), FirstCells(c, k, n);
    LatentOf(c, s, k);
    SoundOnePerByte(c, s, k);
    assert forall i :: 0 <= i < |cs| ==> cs[i] == Window(c, k)[i];
    hide Linked;
    forall x ensures x in cells <==> LastAt(cs, x) || (x in cells && !AtByte(cs, x.off)) {
      if LastAt(cs, x) { SameCount(cells, Window(c, k), x); }
      if x in cells && AtByte(cs, x.off) {
        LastAtByte(cs, x.off);
        var z: Cell :| z.off == x.off && LastAt(cs, z);
        SameCount(cells, Window(c, k), z);
      }
    }
  }

  lemma {:induction false} RecruitsIs(c: Config, v: Victim, e: real, t: Positive)
    requires e >= t as real
    ensures Recruits(e, t, c.gain(DoubleSided(v), v.ones)) == MultiplicityBits(c, v, e / t as real)
  {
    Ratio(e, t);
    var ratio := e / t as real;
    assert Max(0.0, ratio - 1.0) == ratio - 1.0;
  }

  lemma {:induction false} AskedIs(c: Config, k: Key, v: Victim)
    requires v.threshold == c.Threshold(k, true, v.ones) && v.single == c.Threshold(k, false, v.ones)
    ensures var n := Asked(c, k, v.ones, v.left, v.right, v.bonus);
      && (Exposure(v) >= ActiveThreshold(v) as real ==>
            n == MultiplicityBits(c, v, Exposure(v) / ActiveThreshold(v) as real))
      && (Exposure(v) < ActiveThreshold(v) as real ==> n == 0)
  {
    hide MultiplicityBits, Config.Threshold;
    var e, t := Exposure(v), ActiveThreshold(v);
    assert Asked(c, k, v.ones, v.left, v.right, v.bonus) == Recruits(e, t, c.gain(DoubleSided(v), v.ones)) by {
      hide Recruits;
    }
    if e >= t as real { RecruitsIs(c, v, e, t); }
  }

  lemma {:induction false} NothingAsked(before: set<Cell>)
    ensures Layered(before, before, [])
  {
  }

  lemma {:induction false} AskedAtMost(c: Config, k: Key, ones: bool, l: real, r: real, b: real)
    ensures Asked(c, k, ones, l, r, b) <= MAX_BITS
  {
  }

  lemma {:induction false} SoundIsLinked(c: Config, s: State)
    requires Sound(c, s)
    ensures Linked(c, s)
  {
    hide Linked;
  }

  /** A row that is checked for a flip gets the cells that its exposure asks for. */
  lemma {:induction false} MaybeFlipLayer(c: Config, s: State, k: Key, rowOf: int -> Key)
    requires Sound(c, s) && RowBlocks(c, s, rowOf) && k in s.victims
    ensures var v := s.victims[k]; var asked := Asked(c, k, v.ones, v.left, v.right, v.bonus);
      Layered(CellsOf(s, k), CellsOf(MaybeFlip(c, s, k), k), FirstCells(c, k, asked))
  {
    var v := s.victims[k];
    LatentOf(c, s, k);
    AskedIs(c, k, v);
    hide Asked, MultiplicityBits, Exposure, Sound, RowBlocks, Latent, EmitAll, FlipPositions, Layered;
    var n := Asked(c, k, v.ones, v.left, v.right, v.bonus);
    if |v.cells| >= MAX_BITS {
      AskedAtMost(c, k, v.ones, v.left, v.right, v.bonus);
      SoundIsLinked(c, s);
      FullLayer(c, s, k, n);
    } else if Crosses(v) {
      FlipLayer(c, s, k, n, rowOf);
    } else {
      NothingAsked(v.cells);
    }
  }

  // ---- one activation --------------------------------------------------------------------------------------------

  lemma {:induction false} TouchedVictim(c: Config, s: State, h: Hit)
    ensures var v := Touched(c, s, h).victims[h.key];
      && v.ones == StratumOf(s, h.key) && v.bonus == BonusOf(s, h.key)
      && v.left == LeftOf(s, h.key) + (if h.left then h.weight else 0.0)
      && v.right == RightOf(s, h.key) + (if h.left then 0.0 else h.weight)
  {
  }

  lemma {:induction false} CreditLayer(c: Config, s: State, h: Hit, rowOf: int -> Key)
    requires Sound(c, s) && VictimsIn(c, s, h.key.bank) && BlocksApart(c, h.key.bank, rowOf) && c.RowExists(h.key.row)
    ensures var k := h.key;
      var n := Asked(c, k, StratumOf(s, k), LeftOf(s, k) + (if h.left then h.weight else 0.0),
                     RightOf(s, k) + (if h.left then 0.0 else h.weight), BonusOf(s, k));
      Layered(CellsOf(s, k), CellsOf(Credit(c, s, h), k), FirstCells(c, k, n))
  {
    var k, u := h.key, Touched(c, s, h);
    TouchRetouches(c, s, h);
    TouchKeepsCells(c, s, h, k);
    TouchedVictim(c, s, h);
    assert VictimsIn(c, u, k.bank) by { hide Touched, BlocksApart, Sound; }
    hide MaybeFlip, Credit, Touched, Sound, Retouched, BlocksApart, VictimsIn, Asked, Layered, FirstCells, CellsOf;
    RetouchKeeps(c, s, u);
    InBankBlocks(c, u, rowOf, k);
    CreditIsCheck(c, s, h);
    MaybeFlipLayer(c, u, k, rowOf);
  }

  lemma {:induction false} CreditOther(c: Config, s: State, h: Hit, k: Key)
    requires h.key != k
    ensures var t := Credit(c, s, h);
      && LeftOf(t, k) == LeftOf(s, k) && RightOf(t, k) == RightOf(s, k) && BonusOf(t, k) == BonusOf(s, k)
      && StratumOf(t, k) == StratumOf(s, k)
  {
    hide Credit;
    CreditBystander(c, s, h, k);
  }

  /** An activation that exposes row `k` once gives it the cells that its new exposure asks for. */
  lemma {:induction false} CreditAllLayer(c: Config, s: State, hits: seq<Hit>, rowOf: int -> Key, k: Key)
    requires Sound(c, s) && VictimsIn(c, s, k.bank) && BlocksApart(c, k.bank, rowOf) && Occurs(Keys(hits), k) == 1
    requires forall i :: 0 <= i < |hits| ==> hits[i].key.bank == k.bank && c.RowExists(hits[i].key.row)
    ensures var n := Asked(c, k, StratumOf(s, k), LeftOf(s, k) + SideWeight(hits, k, true),
                           RightOf(s, k) + SideWeight(hits, k, false), BonusOf(s, k));
      Layered(CellsOf(s, k), CellsOf(CreditAll(c, s, hits), k), FirstCells(c, k, n))
    decreases |hits|
  {
    hide Credit, Sound, VictimsIn, BlocksApart, CellsOf, Asked, Layered, FirstCells, Clean, StratumOf;
    var h, t := hits[0], Credit(c, s, hits[0]);
    assert Keys(hits)[1..] == Keys(hits[1..]);
    CreditKeeps(c, s, h);
    CreditVictimsIn(c, s, h, k.bank);
    if h.key == k {
      NoWeight(hits[1..], k);
      CreditLayer(c, s, h, rowOf);
      CreditAllKeepsCells(c, t, hits[1..], rowOf, k, false);
    } else {
      CreditElsewhere(c, s, h, rowOf, k);
      CreditOther(c, s, h, k);
      CreditAllLayer(c, t, hits[1..], rowOf, k);
    }
  }
}
