/** The flip overlay over whole runs.

    `Sound` ties the three indices together and holds in every reachable state:
    - the overlay and its reverse owner index have the same addresses, and an owner's cell is recorded
      with the victim that owns it;
    - every cell belongs to the first 64 of its row's deterministic sequence;
    - a byte carries at most one flipped bit;
    - a row key is in the index just when its row has a flipped cell.
    From it follow the cap of 64 cells per row, the exactness of the row-key index that the reward reads,
    that an overwritten cell can be flipped again, and that no row ever takes a cell from another row
    when row blocks are disjoint. */
module Overlay {
  import opened DisturbanceModel

  /** The first 64 cells of a row's sequence, as many as a row can ever flip. */
  function Window(c: Config, k: Key): seq<Cell> {
    Take(c.cells(k, c.FirstBit(k)), MAX_BITS)
  }

  /** A victim of row `k` as `FreshVictim` made it, whatever has happened to it since. */
  ghost predicate Latent(c: Config, k: Key, v: Victim) {
    && v.addr == c.encoder(k) && v.firstBit == c.FirstBit(k)
    && v.threshold == c.Threshold(k, true, v.ones) && v.single == c.Threshold(k, false, v.ones)
    && forall x :: x in v.cells ==> x in Window(c, k)
  }

  ghost predicate OwnedBy(s: State, a: int, o: Owner) {
    && a in s.owners && s.owners[a] == o && a in s.flips && s.flips[a] == o.cell.bit
  }

  ghost predicate AllLatent(c: Config, s: State) {
    forall k :: k in s.victims ==> Latent(c, k, s.victims[k])
  }

  ghost predicate OwnerHolds(c: Config, s: State, a: int)
    requires a in s.owners
  {
    var o := s.owners[a];
    && o.key in s.victims && o.cell in s.victims[o.key].cells
    && a == c.encoder(o.key) + o.cell.off && a in s.flips && s.flips[a] == o.cell.bit
  }

  ghost predicate OwnersHold(c: Config, s: State) {
    s.owners.Keys == s.flips.Keys && forall a :: a in s.owners ==> OwnerHolds(c, s, a)
  }

  ghost predicate CellsOwned(c: Config, s: State) {
    forall k, x :: k in s.victims && x in s.victims[k].cells ==> OwnedBy(s, c.encoder(k) + x.off, Owner(k, x))
  }

  /** Overlay and reverse index agree with the victims' own cells, in both directions. */
  ghost predicate Linked(c: Config, s: State) {
    AllLatent(c, s) && OwnersHold(c, s) && CellsOwned(c, s)
  }

  ghost predicate HasFlipped(s: State, k: Key) {
    k in s.victims && s.victims[k].cells != {}
  }

  ghost predicate Sound(c: Config, s: State) {
    Linked(c, s) && forall k :: k in s.flippedKeys <==> HasFlipped(s, k)
  }

  /** While row `k` is being flipped its own key may still be missing from the index. */
  ghost predicate SoundBut(c: Config, s: State, k: Key) {
    && Linked(c, s)
    && (forall j :: j != k ==> (j in s.flippedKeys <==> HasFlipped(s, j)))
    && (k in s.flippedKeys ==> HasFlipped(s, k))
  }

  // ---- one emission --------------------------------------------------------------------------------

  /** The state after the owner of an overlay address has been released and its entry dropped. */
  function WithoutOwner(s: State, a: int): (t: State)
    requires a in s.owners
    ensures t.victims.Keys == s.victims.Keys
  {
    Release(s, s.owners[a]).(owners := s.owners - {a}, flips := s.flips - {a})
  }

  lemma {:induction false} ReleaseKeeps(c: Config, s: State, a: int, k: Key)
    requires SoundBut(c, s, k) && a in s.owners
    ensures SoundBut(c, WithoutOwner(s, a), k)
  {
    var t := WithoutOwner(s, a);
    assert OwnerHolds(c, s, a);
    forall b | b in t.owners ensures OwnerHolds(c, t, b) {
      assert OwnerHolds(c, s, b);
    }
    forall j, x | j in t.victims && x in t.victims[j].cells
      ensures OwnedBy(t, c.encoder(j) + x.off, Owner(j, x))
    {
      assert x in s.victims[j].cells;
      assert OwnedBy(s, c.encoder(j) + x.off, Owner(j, x));
    }
  }

  /** Recording a cell at an address whose previous owner, if any, is the same cell. */
  ghost predicate Records(c: Config, s: State, t: State, k: Key, cell: Cell)
    requires k in s.victims
  {
    var a := c.encoder(k) + cell.off;
    && (a in s.owners ==> s.owners[a] == Owner(k, cell))
    && t.owners == s.owners[a := Owner(k, cell)] && t.flips == s.flips[a := cell.bit]
    && t.victims == s.victims[k := s.victims[k].(cells := s.victims[k].cells + {cell})]
    && t.flippedKeys == s.flippedKeys
  }

  /** An emission records the cell, after releasing another owner of its address. */
  lemma {:induction false} EmitRecords(c: Config, s: State, k: Key, cell: Cell)
    requires k in s.victims && s.victims[k].addr == c.encoder(k)
    ensures var a, t := c.encoder(k) + cell.off, Emit(s, k, cell);
      && t.victims[k].cells != {}
      && (if a in s.owners && s.owners[a] != Owner(k, cell) then Records(c, WithoutOwner(s, a), t, k, cell)
          else Records(c, s, t, k, cell))
  {
    assert cell in Emit(s, k, cell).victims[k].cells;
  }

  lemma {:induction false} SoundAddr(c: Config, s: State, j: Key, k: Key)
    requires SoundBut(c, s, k) && j in s.victims
    ensures s.victims[j].addr == c.encoder(j)
  {
    hide OwnersHold, CellsOwned, HasFlipped, Window;
    assert Latent(c, j, s.victims[j]);
  }

  lemma {:induction false} EmitKeeps(c: Config, s: State, k: Key, cell: Cell)
    requires SoundBut(c, s, k) && k in s.victims && cell in Window(c, k)
    ensures SoundBut(c, Emit(s, k, cell), k)
    ensures Emit(s, k, cell).victims[k].cells != {}
  {
    hide SoundBut, Window, Emit, Release, Records, WithoutOwner;
    SoundAddr(c, s, k, k);
    var a := s.victims[k].addr + cell.off;
    EmitRecords(c, s, k, cell);
    if a in s.owners && s.owners[a] != Owner(k, cell) {
      ReleaseKeeps(c, s, a, k);
      AddCell(c, WithoutOwner(s, a), Emit(s, k, cell), k, cell);
    } else {
      AddCell(c, s, Emit(s, k, cell), k, cell);
    }
  }

  lemma {:induction false} AddCell(c: Config, s: State, t: State, k: Key, cell: Cell)
    requires SoundBut(c, s, k) && k in s.victims && cell in Window(c, k) && Records(c, s, t, k, cell)
    ensures SoundBut(c, t, k)
  {
    AddCellOwners(c, s, t, k, cell);
    AddCellOwned(c, s, t, k, cell);
    assert Latent(c, k, s.victims[k]);
  }

  lemma {:induction false} AddCellOwners(c: Config, s: State, t: State, k: Key, cell: Cell)
    requires OwnersHold(c, s) && k in s.victims && Records(c, s, t, k, cell)
    ensures OwnersHold(c, t)
  {
    hide Window;
    var a := c.encoder(k) + cell.off;
    forall b | b in t.owners ensures OwnerHolds(c, t, b) {
      if b != a { assert OwnerHolds(c, s, b); }
    }
  }

  lemma {:induction false} AddCellOwned(c: Config, s: State, t: State, k: Key, cell: Cell)
    requires CellsOwned(c, s) && k in s.victims && Records(c, s, t, k, cell)
    ensures CellsOwned(c, t)
  {
    hide Window;
    forall j, x | j in t.victims && x in t.victims[j].cells
      ensures OwnedBy(t, c.encoder(j) + x.off, Owner(j, x))
    {
      if j != k || x != cell {
        assert x in s.victims[j].cells;
        assert OwnedBy(s, c.encoder(j) + x.off, Owner(j, x));
      }
    }
  }

  lemma {:induction false} EmitAllKeeps(c: Config, s: State, k: Key, cells: seq<Cell>)
    requires SoundBut(c, s, k) && k in s.victims && forall x :: x in cells ==> x in Window(c, k)
    ensures SoundBut(c, EmitAll(s, k, cells), k)
    decreases |cells|
  {
    hide Emit, Linked, HasFlipped;
    if cells != [] {
      EmitKeeps(c, s, k, cells[0]);
      EmitAllKeeps(c, Emit(s, k, cells[0]), k, cells[1..]);
    }
  }

  // ---- the cells a flip emits ------------------------------------------------------------------------

  lemma {:induction false} PutCellFrom(os: seq<Cell>, cell: Cell, x: Cell)
    requires x in PutCell(os, cell)
    ensures x == cell || x in os
  {
    if os != [] && os[0].off != cell.off && x != os[0] {
      PutCellFrom(os[1..], cell, x);
    }
  }

  lemma {:induction false} OverlayCellsFrom(cs: seq<Cell>, x: Cell)
    requires x in OverlayCells(cs)
    ensures x in cs
  {
    if cs != [] {
      PutCellFrom(OverlayCells(cs[..|cs| - 1]), cs[|cs| - 1], x);
      if x != cs[|cs| - 1] { OverlayCellsFrom(cs[..|cs| - 1], x); }
    }
  }

  ghost predicate OneCellPerByte(os: seq<Cell>) {
    forall i, j :: 0 <= i < j < |os| ==> os[i].off != os[j].off
  }

  lemma {:induction false} PutCellExact(os: seq<Cell>, cell: Cell, x: Cell)
    requires OneCellPerByte(os)
    ensures x in PutCell(os, cell) <==> x == cell || (x in os && x.off != cell.off)
    ensures OneCellPerByte(PutCell(os, cell))
  {
    if os != [] {
      assert os == [os[0]] + os[1..];
      if os[0].off != cell.off {
        PutCellExact(os[1..], cell, x);
        var rest := PutCell(os[1..], cell);
        forall j | 0 <= j < |rest| ensures rest[j].off != os[0].off {
          PutCellFrom(os[1..], cell, rest[j]);
        }
      } else {
        assert forall y :: y in os[1..] ==> y.off != cell.off;
      }
    }
  }

  /** The last cell of the list at its byte offset. */
  ghost predicate LastAt(cs: seq<Cell>, x: Cell) {
    exists i :: 0 <= i < |cs| && cs[i] == x && forall j :: i < j < |cs| ==> cs[j].off != x.off
  }

  /** Of several sampled cells in one byte the last one is active, and no byte has two. */
  lemma {:induction false} OverlayCellsExact(cs: seq<Cell>, x: Cell)
    ensures OneCellPerByte(OverlayCells(cs))
    ensures x in OverlayCells(cs) <==> LastAt(cs, x)
  {
    if cs != [] {
      var n, last := |cs| - 1, cs[|cs| - 1];
      OverlayCellsExact(cs[..n], x);
      PutCellExact(OverlayCells(cs[..n]), last, x);
      if LastAt(cs[..n], x) && x.off != last.off {
        var i :| 0 <= i < n && cs[..n][i] == x && forall j :: i < j < n ==> cs[..n][j].off != x.off;
        assert cs[i] == x && forall j :: i < j < |cs| ==> cs[j].off != x.off;
      }
      if LastAt(cs, x) && x != last {
        var i :| 0 <= i < |cs| && cs[i] == x && forall j :: i < j < |cs| ==> cs[j].off != x.off;
        assert cs[..n][i] == x;
      }
      if x == last { assert cs[n] == x; }
    }
  }

  lemma {:induction false} WithoutFrom(cs: seq<Cell>, active: set<Cell>, x: Cell)
    requires x in Without(cs, active)
    ensures x in cs && x !in active
  {
    if cs[0] in active || x != cs[0] { WithoutFrom(cs[1..], active, x); }
  }

  /** Every emitted cell lies in the row's window and was not active. */
  lemma {:induction false} PositionsInWindow(c: Config, k: Key, v: Victim, n: nat, x: Cell)
    requires n <= MAX_BITS && v.firstBit == c.FirstBit(k) && x in FlipPositions(c, k, v, n)
    ensures x in Window(c, k) && x !in v.cells
  {
    var cs := c.cells(k, v.firstBit);
    WithoutFrom(OverlayCells(Take(cs, n)), v.cells, x);
    OverlayCellsFrom(Take(cs, n), x);
    assert forall i :: 0 <= i < |Take(cs, n)| ==> Take(cs, n)[i] == Take(cs, MAX_BITS)[i];
  }

  lemma {:induction false} WithoutExact(cs: seq<Cell>, active: set<Cell>, x: Cell)
    ensures x in Without(cs, active) <==> x in cs && x !in active
  {
    if cs != [] { WithoutExact(cs[1..], active, x); }
  }

  /** A write that overwrites a flipped cell takes it from its row, and makes it one of the cells that
      the row's next flip of enough bits emits again. */
  lemma {:induction false} RestoredCanFlipAgain(c: Config, s: State, a: int, n: nat)
    requires Sound(c, s) && a in s.flips
    ensures a in s.owners && s.owners[a].key in s.victims && s.owners[a].key in RestoreByte(s, a).victims
    ensures a !in RestoreByte(s, a).flips
    ensures var k, x := s.owners[a].key, s.owners[a].cell;
      var v := RestoreByte(s, a).victims[k];
      x in s.victims[k].cells && x !in v.cells
      && (x in OverlayCells(Take(c.cells(k, v.firstBit), n)) <==> x in FlipPositions(c, k, v, n))
  {
    hide OverlayCells, Without, Window;
    assert OwnerHolds(c, s, a);
    var k, x := s.owners[a].key, s.owners[a].cell;
    var v := RestoreByte(s, a).victims[k];
    WithoutExact(OverlayCells(Take(c.cells(k, v.firstBit), n)), v.cells, x);
  }

  lemma {:induction false} LatentOf(c: Config, s: State, k: Key)
    requires Linked(c, s) && k in s.victims
    ensures Latent(c, k, s.victims[k])
  {
  }

  lemma {:induction false} FlipKeeps(c: Config, s: State, k: Key, ratio: real)
    requires Sound(c, s) && k in s.victims
    ensures Sound(c, Flip(c, s, k, ratio))
  {
    hide EmitAll, Linked, FlipPositions, Window;
    var v := s.victims[k];
    LatentOf(c, s, k);
    var cells := FlipPositions(c, k, v, MultiplicityBits(c, v, ratio));
    forall x | x in cells ensures x in Window(c, k) {
      PositionsInWindow(c, k, v, MultiplicityBits(c, v, ratio), x);
    }
    EmitAllKeeps(c, s, k, cells);
    SameCells(c, EmitAll(s, k, cells), Flip(c, s, k, ratio));
  }

  lemma {:induction false} SameCells(c: Config, s: State, t: State)
    requires Linked(c, s) && t.victims == s.victims && t.flips == s.flips && t.owners == s.owners
    ensures Linked(c, t)
  {
    forall a | a in t.owners ensures OwnerHolds(c, t, a) { assert OwnerHolds(c, s, a); }
    forall k, x | k in t.victims && x in t.victims[k].cells ensures OwnedBy(t, c.encoder(k) + x.off, Owner(k, x)) {
      assert OwnedBy(s, c.encoder(k) + x.off, Owner(k, x));
    }
  }

  // ---- every step keeps the indices in lockstep --------------------------------------------------------

  /** Only exposure changed, or a fresh victim without cells was added. */
  ghost predicate Retouched(c: Config, s: State, t: State) {
    && t.flips == s.flips && t.owners == s.owners && t.flippedKeys == s.flippedKeys
    && (forall k :: k in s.victims ==> k in t.victims && t.victims[k] == s.victims[k].(
          left := t.victims[k].left, right := t.victims[k].right, bonus := t.victims[k].bonus))
    && (forall k :: k in t.victims && k !in s.victims ==> t.victims[k].cells == {} && Latent(c, k, t.victims[k]))
  }

  lemma {:induction false} RetouchKeeps(c: Config, s: State, t: State)
    requires Sound(c, s) && Retouched(c, s, t)
    ensures Sound(c, t)
  {
    hide Window;
    forall k | k in t.victims ensures Latent(c, k, t.victims[k]) {
      if k in s.victims { assert Latent(c, k, s.victims[k]); }
    }
    forall a | a in t.owners ensures OwnerHolds(c, t, a) { assert OwnerHolds(c, s, a); }
    forall k, x | k in t.victims && x in t.victims[k].cells ensures OwnedBy(t, c.encoder(k) + x.off, Owner(k, x)) {
      assert k in s.victims && x in s.victims[k].cells;
      assert OwnedBy(s, c.encoder(k) + x.off, Owner(k, x));
    }
    forall k ensures k in t.flippedKeys <==> HasFlipped(t, k) {
      assert k in s.flippedKeys <==> HasFlipped(s, k);
    }
  }

  lemma {:induction false} MaybeFlipKeeps(c: Config, s: State, k: Key)
    requires Sound(c, s) && k in s.victims
    ensures Sound(c, MaybeFlip(c, s, k))
  {
    hide Flip, Sound;
    if Crosses(s.victims[k]) {
      FlipKeeps(c, s, k, Exposure(s.victims[k]) / ActiveThreshold(s.victims[k]) as real);
    }
  }

  lemma {:induction false} CreditKeeps(c: Config, s: State, h: Hit)
    requires Sound(c, s)
    ensures Sound(c, Credit(c, s, h))
  {
    hide MaybeFlip, Sound;
    var t := WithVictim(c, s, h.key);
    var u := t.(victims := t.victims[h.key := AddExposure(t.victims[h.key], h.left, h.weight)]);
    RetouchKeeps(c, s, u);
    MaybeFlipKeeps(c, u, h.key);
  }

  lemma {:induction false} CreditAllKeeps(c: Config, s: State, hits: seq<Hit>)
    requires Sound(c, s)
    ensures Sound(c, CreditAll(c, s, hits))
    decreases |hits|
  {
    hide Credit, Sound;
    if hits != [] {
      CreditKeeps(c, s, hits[0]);
      CreditAllKeeps(c, Credit(c, s, hits[0]), hits[1..]);
    }
  }

  lemma {:induction false} AddBonusAllKeeps(c: Config, s: State, ks: seq<Key>, extra: real)
    requires Sound(c, s)
    ensures Sound(c, AddBonusAll(c, s, ks, extra))
    decreases |ks|
  {
    hide AddBonus, Sound;
    if ks != [] {
      AddBonusKeeps(c, s, ks[0], extra);
      AddBonusAllKeeps(c, AddBonus(c, s, ks[0], extra), ks[1..], extra);
    }
  }

  lemma {:induction false} AddBonusKeeps(c: Config, s: State, k: Key, extra: real)
    requires Sound(c, s)
    ensures Sound(c, AddBonus(c, s, k, extra)) && AddBonus(c, s, k, extra).victims.Keys == s.victims.Keys
  {
    hide MaybeFlip, Sound;
    if k in s.victims && |s.victims[k].cells| < MAX_BITS {
      var u := s.(victims := s.victims[k := s.victims[k].(bonus := s.victims[k].bonus + extra)]);
      RetouchKeeps(c, s, u);
      MaybeFlipKeeps(c, u, k);
    }
  }

  lemma {:induction false} SettleKeeps(c: Config, s: State, bank: BankKey, clk: int)
    requires Sound(c, s) && IsOpen(s.open, bank)
    ensures Sound(c, Settle(c, s, bank, clk))
  {
    hide AddBonusAll, Sound;
    var e := Entry(s.open, bank);
    RetouchKeeps(c, s, s.(open := Remove(s.open, bank)));
    AddBonusAllKeeps(c, s.(open := Remove(s.open, bank)), e.credited, c.Factor(clk - e.clk) - 1.0);
  }

  lemma {:induction false} SettleAllKeeps(c: Config, s: State, banks: seq<BankKey>, clk: int)
    requires Sound(c, s)
    ensures Sound(c, SettleAll(c, s, banks, clk))
    decreases |banks|
  {
    hide Settle, Sound;
    if banks != [] {
      if IsOpen(s.open, banks[0]) { SettleKeeps(c, s, banks[0], clk); }
      SettleAllKeeps(c, if IsOpen(s.open, banks[0]) then Settle(c, s, banks[0], clk) else s, banks[1..], clk);
    }
  }

  lemma {:induction false} ClearVictimsKeeps(c: Config, s: State, hits: seq<Hit>)
    requires Sound(c, s)
    ensures Sound(c, ClearVictims(s, hits))
    decreases |hits|
  {
    hide Sound;
    if hits != [] {
      RetouchKeeps(c, s, ClearVictim(s, hits[0].key));
      ClearVictimsKeeps(c, ClearVictim(s, hits[0].key), hits[1..]);
    }
  }

  lemma {:induction false} OracleKeeps(c: Config, s: State, bank: BankKey, row: int)
    requires Sound(c, s)
    ensures Sound(c, OracleOnAct(c, s, bank, row))
  {
    hide ClearVictims, Sound, Hits;
    var agg := Key(bank, row);
    var t := s.(oracleActs := s.oracleActs[agg := 0]);
    var u := ClearVictims(t, Hits(c, bank, row, c.blast));
    RetouchKeeps(c, s, t);
    ClearVictimsKeeps(c, t, Hits(c, bank, row, c.blast));
    RetouchKeeps(c, u, u.(oracleRefreshes := u.oracleRefreshes + 1));
    RetouchKeeps(c, s, s.(oracleActs := s.oracleActs[agg := Acts(s, agg) + 1]));
  }

  lemma {:induction false} HammerKeeps(c: Config, s: State, e: Event)
    requires Sound(c, s)
    ensures Sound(c, HammerStep(c, s, e))
  {
    hide Settle, CreditAll, OracleOnAct, Sound, Hits;
    if e.row >= 0 {
      var reopen := IsOpen(s.open, e.bank) && Entry(s.open, e.bank).row != e.row;
      if reopen { SettleKeeps(c, s, e.bank, e.clk); }
      var settled := if reopen then Settle(c, s, e.bank, e.clk) else s;
      var hits := Hits(c, e.bank, e.row, c.blast);
      CreditAllKeeps(c, settled, hits);
      var t := CreditAll(c, settled, hits);
      var u := t.(open := Put(t.open, OpenRow(e.bank, e.row, e.clk, Keys(hits))));
      RetouchKeeps(c, t, u);
      OracleKeeps(c, u, e.bank, e.row);
    }
  }

  lemma {:induction false} RefreshKeeps(c: Config, s: State, bank: BankKey)
    requires Sound(c, s)
    ensures Sound(c, RefreshStep(c, s, bank))
  {
    hide Sound;
    RetouchKeeps(c, s, RefreshStep(c, s, bank));
  }

  lemma {:induction false} RestoreByteKeeps(c: Config, s: State, a: int)
    requires Sound(c, s)
    ensures Sound(c, RestoreByte(s, a))
  {
    hide Linked;
    OwnersCover(c, s);
    if a in s.flips {
      ReleaseKeeps(c, s, a, s.owners[a].key);
      HolderOf(c, s, a);
    }
  }

  lemma {:induction false} OwnersCover(c: Config, s: State)
    requires Linked(c, s)
    ensures s.owners.Keys == s.flips.Keys
  {
  }

  lemma {:induction false} HolderOf(c: Config, s: State, a: int)
    requires Linked(c, s) && a in s.owners
    ensures OwnerHolds(c, s, a)
  {
  }

  lemma {:induction false} RestoreKeeps(c: Config, s: State, addr: int, size: nat)
    requires Sound(c, s)
    ensures Sound(c, Restore(s, addr, size))
  {
    hide Sound, RestoreByte;
    if size > 0 {
      RestoreKeeps(c, s, addr, size - 1);
      RestoreByteKeeps(c, Restore(s, addr, size - 1), addr + size - 1);
    }
  }

  lemma {:induction false} ActionKeeps(c: Config, s: State, a: Action)
    requires Sound(c, s)
    ensures Sound(c, ActionStep(c, s, a))
  {
    hide Sound, HammerStep, SettleAll, RefreshStep, Restore, Classify;
    match a
    case Issue(e) =>
      HammerKeeps(c, s, e);
      SettleAllKeeps(c, s, ClosedBanks(s.open, e.bank), e.clk);
      RefreshKeeps(c, s, e.bank);
    case Overwrite(addr, size) => RestoreKeeps(c, s, addr, size);
    case Written(k, data) => RetouchKeeps(c, s, NoteWrite(s, k, data));
  }

  /** The indices are in lockstep in every reachable state. */
  lemma {:induction false} RunSound(c: Config, run: seq<Action>, n: nat)
    requires n <= |run|
    ensures Sound(c, RunTo(c, run, n))
  {
    hide ActionStep;
    if n > 0 {
      RunSound(c, run, n - 1);
      hide Sound;
      ActionKeeps(c, RunTo(c, run, n - 1), run[n - 1]);
    }
  }

  // ---- consequences ---------------------------------------------------------------------------------

  lemma {:induction false} SetOfSeq(cs: seq<Cell>, xs: set<Cell>)
    requires forall x :: x in xs ==> x in cs
    ensures |xs| <= |cs|
  {
    if cs == [] {
      assert xs == {};
    } else {
      SetOfSeq(cs[1..], xs - {cs[0]});
    }
  }

  /** In every run no row ever has more than 64 flipped cells, nor two flipped bits in one byte. */
  lemma {:induction false} CellCap(c: Config, run: seq<Action>, n: nat, k: Key)
    requires n <= |run| && k in RunTo(c, run, n).victims
    ensures var cells := RunTo(c, run, n).victims[k].cells;
      && |cells| <= MAX_BITS
      && forall x, y :: x in cells && y in cells && x.off == y.off ==> x == y
  {
    RunSound(c, run, n);
    var s := RunTo(c, run, n);
    assert Latent(c, k, s.victims[k]);
    SetOfSeq(Window(c, k), s.victims[k].cells);
    forall x, y | x in s.victims[k].cells && y in s.victims[k].cells && x.off == y.off ensures x == y {
      assert OwnedBy(s, c.encoder(k) + x.off, Owner(k, x));
      assert OwnedBy(s, c.encoder(k) + y.off, Owner(k, y));
    }
  }

  /** `rowOf` maps an address to the key of the row whose block contains it. */
  ghost predicate RowBlocks(c: Config, s: State, rowOf: int -> Key) {
    forall k, x :: k in s.victims && x in Window(c, k) ==> rowOf(c.encoder(k) + x.off) == k
  }

  /** The row-key index is exact: a key is in it just when some overlay address lies in that row. */
  lemma {:induction false} IndexIsExact(c: Config, s: State, rowOf: int -> Key, k: Key)
    requires Sound(c, s) && RowBlocks(c, s, rowOf)
    ensures k in s.flippedKeys <==> exists a :: a in s.flips && rowOf(a) == k
  {
    if k in s.flippedKeys {
      assert HasFlipped(s, k) && Latent(c, k, s.victims[k]);
      var x :| x in s.victims[k].cells;
      assert OwnedBy(s, c.encoder(k) + x.off, Owner(k, x));
    }
    if a :| a in s.flips && rowOf(a) == k {
      assert OwnerHolds(c, s, a);
      var o := s.owners[a];
      assert Latent(c, o.key, s.victims[o.key]);
      assert HasFlipped(s, o.key);
    }
  }

  /** With disjoint row blocks a flip never takes a cell from another row. */
  lemma {:induction false} NoTheft(c: Config, s: State, rowOf: int -> Key, k: Key, cell: Cell)
    requires Linked(c, s) && RowBlocks(c, s, rowOf) && k in s.victims && cell in Window(c, k)
    ensures var a := s.victims[k].addr + cell.off; a in s.owners ==> s.owners[a].key == k
  {
    var a := c.encoder(k) + cell.off;
    assert Latent(c, k, s.victims[k]);
    if a in s.owners {
      assert OwnerHolds(c, s, a);
      assert Latent(c, s.owners[a].key, s.victims[s.owners[a].key]);
    }
  }
}
