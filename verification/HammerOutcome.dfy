/** What one activation decides.

    The victims of a run are exactly the existing rows that some activation had
    within its blast radius. When the rows of a bank have disjoint blocks,
    flipping one row leaves the cells of every other row alone; so an activation
    flips a still clean row exactly when its own counts cross the active
    threshold, and then the row's first byte is among the flipped ones.
    `CrossAt` is that comparison, and `Steady` and `Clean` say that a row keeps
    the stratum of its data and has no flipped cell. */
module HammerOutcome {
  import opened DisturbanceModel
  import opened Exposures
  import opened History
  import opened OpenRows
  import opened Overlay
  import opened OracleProtection
  import FlipLog
  import IdleTime

  // ---- which rows are victims -----------------------------------------------------------------------------

  /** Action `a` activates a row that has row `j` within its blast radius. */
  predicate Exposes(c: Config, a: Action, j: Key) {
    IsActivation(a) && Neighbours(c, Aggressor(a), j)
  }

  ghost predicate Exposed(c: Config, run: seq<Action>, n: nat, j: Key)
    requires n <= |run|
  {
    exists i :: 0 <= i < n && Exposes(c, run[i], j)
  }

  lemma {:induction false} ActionVictims(c: Config, s: State, a: Action, j: Key)
    ensures j in ActionStep(c, s, a).victims <==> j in s.victims || (c.RowExists(j.row) && Exposes(c, a, j))
  {
    hide HammerStep, SettleAll, RefreshStep, Restore, Classify, Neighbours;
    match a
    case Issue(e) =>
      if e.row < 0 { IdleHammer(c, s, e); } else { HammerVictims(c, s, e, j); }
      SettleAllEffect(c, s, ClosedBanks(s.open, e.bank), e.clk, j);
      RefreshVictims(c, s, e.bank, j);
    case Overwrite(addr, size) => RestoreEffect(s, addr, size, j);
    case Written(k, data) =>
  }

  lemma {:induction false} RefreshVictims(c: Config, s: State, bank: BankKey, j: Key)
    ensures j in RefreshStep(c, s, bank).victims <==> j in s.victims
  {
    hide WindowDone;
  }

  lemma {:induction false} HammerVictims(c: Config, s: State, e: Event, j: Key)
    requires e.row >= 0
    ensures j in HammerStep(c, s, e).victims <==>
      j in s.victims || (c.RowExists(j.row) && Neighbours(c, Key(e.bank, e.row), j))
  {
    HammerSplit(c, s, e);
    CreditedVictims(c, s, e, j);
    hide HammerStep, Credited, OracleOnAct, Neighbours;
    if c.oracle { OracleBooks(c, Credited(c, s, e), Key(e.bank, e.row), j); }
  }

  lemma {:induction false} CreditedVictims(c: Config, s: State, e: Event, j: Key)
    ensures j in Credited(c, s, e).victims <==>
      j in s.victims || (c.RowExists(j.row) && Neighbours(c, Key(e.bank, e.row), j))
  {
    hide Settle, CreditAll, Hits, HasRing, RingWeight, SideWeight;
    var reopen := IsOpen(s.open, e.bank) && Entry(s.open, e.bank).row != e.row;
    if reopen { SettleEffect(c, s, e.bank, e.clk, j); }
    CreditAllEffect(c, if reopen then Settle(c, s, e.bank, e.clk) else s, Hits(c, e.bank, e.row, c.blast), j);
    HitWeights(c, e.bank, e.row, c.blast, j);
  }

  /** The victims are exactly the existing rows that some activation had within its blast radius. */
  lemma {:induction false} VictimsAreNeighbours(c: Config, run: seq<Action>, n: nat, j: Key)
    requires n <= |run|
    ensures j in RunTo(c, run, n).victims <==> c.RowExists(j.row) && Exposed(c, run, n, j)
  {
    hide ActionStep, Exposes;
    if n > 0 {
      ActionVictims(c, RunTo(c, run, n - 1), run[n - 1], j);
      VictimsAreNeighbours(c, run, n - 1, j);
    }
  }

  // ---- flips of other rows leave a row alone --------------------------------------------------------------

  /** The blocks of existing rows of bank `b` do not overlap. */
  ghost predicate BlocksApart(c: Config, b: BankKey, rowOf: int -> Key) {
    forall k: Key, x: Cell ::
      (k.bank == b && c.RowExists(k.row) && x in Window(c, k) ==> rowOf(c.encoder(k) + x.off) == k)
  }

  ghost predicate VictimsIn(c: Config, s: State, b: BankKey) {
    forall k :: k in s.victims ==> k.bank == b && c.RowExists(k.row)
  }

  lemma {:induction false} EmitElsewhere(c: Config, s: State, j: Key, cell: Cell, rowOf: int -> Key, k: Key)
    requires Linked(c, s) && RowBlocks(c, s, rowOf) && j in s.victims && j != k && cell in Window(c, j)
    ensures CellsOf(Emit(s, j, cell), k) == CellsOf(s, k) && RowBlocks(c, Emit(s, j, cell), rowOf)
  {
    LatentOf(c, s, j);
    NoTheft(c, s, rowOf, j, cell);
    SameKeysSameBlocks(c, s, Emit(s, j, cell), rowOf);
    hide Window, Linked, Latent, RowBlocks;
  }

  lemma {:induction false} SameKeysSameBlocks(c: Config, s: State, t: State, rowOf: int -> Key)
    requires RowBlocks(c, s, rowOf) && t.victims.Keys == s.victims.Keys
    ensures RowBlocks(c, t, rowOf)
  {
    hide Window;
    forall k, x | k in t.victims && x in Window(c, k) ensures rowOf(c.encoder(k) + x.off) == k {
      assert k in s.victims.Keys;
    }
  }

  lemma {:induction false} InBankBlocks(c: Config, s: State, rowOf: int -> Key, k: Key)
    requires VictimsIn(c, s, k.bank) && BlocksApart(c, k.bank, rowOf)
    ensures RowBlocks(c, s, rowOf)
  {
    hide Window;
  }

  lemma {:induction false} EmitAllElsewhere(c: Config, s: State, j: Key, cells: seq<Cell>, rowOf: int -> Key, k: Key)
    requires SoundBut(c, s, j) && RowBlocks(c, s, rowOf)
    requires j in s.victims && j != k && forall x :: x in cells ==> x in Window(c, j)
    ensures CellsOf(EmitAll(s, j, cells), k) == CellsOf(s, k)
    decreases |cells|
  {
    hide Emit, Linked, Window, CellsOf, RowBlocks;
    if cells != [] {
      EmitElsewhere(c, s, j, cells[0], rowOf, k);
      EmitKeeps(c, s, j, cells[0]);
      EmitAllElsewhere(c, Emit(s, j, cells[0]), j, cells[1..], rowOf, k);
    }
  }

  lemma {:induction false} MaybeFlipElsewhere(c: Config, s: State, j: Key, rowOf: int -> Key, k: Key)
    requires Sound(c, s) && RowBlocks(c, s, rowOf) && j in s.victims && j != k
    ensures CellsOf(MaybeFlip(c, s, j), k) == CellsOf(s, k)
  {
    hide EmitAll, FlipPositions, Window, RowBlocks, Linked;
    var v := s.victims[j];
    LatentOf(c, s, j);
    if Crosses(v) {
      var n := MultiplicityBits(c, v, Exposure(v) / ActiveThreshold(v) as real);
      forall x | x in FlipPositions(c, j, v, n) ensures x in Window(c, j) { PositionsInWindow(c, j, v, n, x); }
      EmitAllElsewhere(c, s, j, FlipPositions(c, j, v, n), rowOf, k);
    }
  }

  lemma {:induction false} CreditElsewhere(c: Config, s: State, h: Hit, rowOf: int -> Key, k: Key)
    requires Sound(c, s) && VictimsIn(c, s, k.bank) && BlocksApart(c, k.bank, rowOf)
    requires h.key != k && h.key.bank == k.bank && c.RowExists(h.key.row)
    ensures CellsOf(Credit(c, s, h), k) == CellsOf(s, k)
  {
    var u := Touched(c, s, h);
    TouchRetouches(c, s, h);
    TouchKeepsCells(c, s, h, k);
    RetouchKeeps(c, s, u);
    assert Credit(c, s, h) == MaybeFlip(c, u, h.key) by { hide MaybeFlip; }
    assert VictimsIn(c, u, k.bank) by { hide Touched, BlocksApart; }
    hide MaybeFlip, Credit, Touched, FreshVictim, Sound, BlocksApart, VictimsIn;
    InBankBlocks(c, u, rowOf, k);
    MaybeFlipElsewhere(c, u, h.key, rowOf, k);
  }

  lemma {:induction false} FreshIsLatent(c: Config, s: State, k: Key)
    ensures Latent(c, k, FreshVictim(c, s, k)) && FreshVictim(c, s, k).cells == {}
  {
    hide Window;
  }

  lemma {:induction false} TouchRetouches(c: Config, s: State, h: Hit)
    ensures Retouched(c, s, Touched(c, s, h)) && Touched(c, s, h).victims.Keys == s.victims.Keys + {h.key}
  {
    FreshIsLatent(c, s, h.key);
    hide FreshVictim, Window;
  }

  lemma {:induction false} TouchKeepsCells(c: Config, s: State, h: Hit, k: Key)
    ensures CellsOf(Touched(c, s, h), k) == CellsOf(s, k)
  {
    FreshIsLatent(c, s, h.key);
    hide FreshVictim, Window;
  }

  // ---- the flip itself ------------------------------------------------------------------------------------

  /** The row's cell sequence starts with its first bit in byte 0. */
  predicate StartsAtByteZero(c: Config, k: Key) {
    var cs := c.cells(k, c.FirstBit(k)); |cs| > 0 && cs[0] == Cell(0, c.FirstBit(k))
  }

  predicate HasByteZero(cs: seq<Cell>) {
    exists i :: 0 <= i < |cs| && cs[i].off == 0
  }

  lemma {:induction false} PutCellKeepsZero(os: seq<Cell>, cell: Cell)
    requires HasByteZero(os) || cell.off == 0
    ensures HasByteZero(PutCell(os, cell))
  {
    var r := PutCell(os, cell);
    if os == [] || os[0].off == cell.off {
      if cell.off == 0 {
        assert r[0].off == 0;
      } else {
        var i :| 0 <= i < |os| && os[i].off == 0;
        assert r[i].off == 0;
      }
    } else if os[0].off == 0 {
      assert r[0].off == 0;
    } else {
      if HasByteZero(os) {
        var i :| 0 <= i < |os| && os[i].off == 0;
        assert os[1..][i - 1].off == 0;
      }
      PutCellKeepsZero(os[1..], cell);
      var i :| 0 <= i < |PutCell(os[1..], cell)| && PutCell(os[1..], cell)[i].off == 0;
      assert r[i + 1].off == 0;
    }
  }

  lemma {:induction false} OverlayKeepsZero(cs: seq<Cell>)
    requires |cs| > 0 && cs[0].off == 0
    ensures HasByteZero(OverlayCells(cs))
  {
    if |cs| > 1 { OverlayKeepsZero(cs[..|cs| - 1]); }
    PutCellKeepsZero(OverlayCells(cs[..|cs| - 1]), cs[|cs| - 1]);
  }

  lemma {:induction false} WithoutNone(cs: seq<Cell>)
    ensures Without(cs, {}) == cs
  {
    if cs != [] { WithoutNone(cs[1..]); }
  }

  lemma {:induction false} EmitHolds(c: Config, s: State, k: Key, x: Cell)
    requires SoundBut(c, s, k) && k in s.victims
    ensures Emit(s, k, x).flips == s.flips[c.encoder(k) + x.off := x.bit] && CellsOf(Emit(s, k, x), k) != {}
  {
    hide Window;
    assert Latent(c, k, s.victims[k]);
  }

  lemma {:induction false} EmitAllReaches(c: Config, s: State, k: Key, cells: seq<Cell>, a: int)
    requires SoundBut(c, s, k) && k in s.victims && forall x :: x in cells ==> x in Window(c, k)
    requires a in s.flips || exists i :: 0 <= i < |cells| && c.encoder(k) + cells[i].off == a
    ensures a in EmitAll(s, k, cells).flips
    ensures cells != [] || CellsOf(s, k) != {} ==> CellsOf(EmitAll(s, k, cells), k) != {}
    decreases |cells|
  {
    hide Window, SoundBut;
    if cells != [] {
      EmitKeeps(c, s, k, cells[0]);
      EmitHolds(c, s, k, cells[0]);
      hide Emit, CellsOf;
      if a !in s.flips {
        var i :| 0 <= i < |cells| && c.encoder(k) + cells[i].off == a;
        if i > 0 { assert cells[1..][i - 1] == cells[i]; }
      }
      EmitAllReaches(c, Emit(s, k, cells[0]), k, cells[1..], a);
    }
  }

  /** Crossing the threshold with no cell flipped yet flips byte 0 of the row. */
  lemma {:induction false} CrossingFlips(c: Config, s: State, k: Key)
    requires Sound(c, s) && k in s.victims && s.victims[k].cells == {} && Crosses(s.victims[k])
    requires StartsAtByteZero(c, k)
    ensures CellsOf(MaybeFlip(c, s, k), k) != {} && c.encoder(k) in MaybeFlip(c, s, k).flips
  {
    hide EmitAll, OverlayCells, Without, Linked;
    LatentOf(c, s, k);
    var v := s.victims[k];
    var n := MultiplicityBits(c, v, Exposure(v) / ActiveThreshold(v) as real);
    var first := Take(c.cells(k, v.firstBit), n);
    var cells := FlipPositions(c, k, v, n);
    OverlayKeepsZero(first);
    WithoutNone(OverlayCells(first));
    forall x | x in cells ensures x in Window(c, k) { PositionsInWindow(c, k, v, n, x); }
    var i :| 0 <= i < |cells| && cells[i].off == 0;
    hide FlipPositions, Window, MultiplicityBits;
    EmitAllReaches(c, s, k, cells, c.encoder(k));
  }

  // ---- one activation of a neighbour ----------------------------------------------------------------------

  /** Counts `l` and `r` reach the threshold of row `k` that is active for them. */
  predicate CrossAt(c: Config, k: Key, ones: bool, l: real, r: real) {
    if l > 0.0 && r > 0.0 then Min(l, r) * 2.0 >= c.Threshold(k, true, ones) as real
    else Max(l, r) >= c.Threshold(k, false, ones) as real
  }

  predicate PatternOnes(s: State, k: Key) { k in s.patterns && s.patterns[k] == AllOnes }

  /** The stratum of row `k`: that of its victim, or the one a new victim would take. */
  predicate StratumOf(s: State, k: Key) { if k in s.victims then s.victims[k].ones else PatternOnes(s, k) }

  /** Row `k` has earned no dwell bonus and has the given stratum. */
  predicate Steady(s: State, k: Key, ones: bool) { BonusOf(s, k) == 0.0 && StratumOf(s, k) == ones }

  /** Row `k` is clean as well. */
  ghost predicate Clean(c: Config, s: State, k: Key, ones: bool) {
    Intact(c, s, k) && Steady(s, k, ones)
  }

  lemma {:induction false} ReplayGrows(m: map<int, nat>, log: seq<PublicFlip>)
    ensures m.Keys <= FlipLog.Replayed(m, log).Keys
    decreases |log|
  {
    if log != [] { ReplayGrows(m[log[0].addr := log[0].bit], log[1..]); }
  }

  lemma {:induction false} CreditGrows(c: Config, s: State, hits: seq<Hit>)
    ensures s.flips.Keys <= CreditAll(c, s, hits).flips.Keys
  {
    hide CreditAll, FlipLog.Replayed;
    FlipLog.CreditAllLogged(c, s, hits);
    ReplayGrows(s.flips, FlipLog.Reported(s, CreditAll(c, s, hits)));
  }

  lemma {:induction false} CleanCrosses(c: Config, s: State, k: Key, ones: bool)
    requires k in s.victims && Clean(c, s, k, ones)
    ensures s.victims[k].cells == {}
    ensures Crosses(s.victims[k]) <==> CrossAt(c, k, ones, LeftOf(s, k), RightOf(s, k))
  {
  }

  lemma {:induction false} FlipDecides(c: Config, s: State, k: Key, ones: bool)
    requires Sound(c, s) && k in s.victims && Clean(c, s, k, ones) && StartsAtByteZero(c, k)
    ensures var cross, t := CrossAt(c, k, ones, LeftOf(s, k), RightOf(s, k)), MaybeFlip(c, s, k);
      && (cross ==> CellsOf(t, k) != {} && c.encoder(k) in t.flips)
      && (!cross ==> t == s)
  {
    CleanCrosses(c, s, k, ones);
    hide Clean, Sound, StartsAtByteZero, Crosses, Flip, CrossAt, CellsOf;
    if Crosses(s.victims[k]) {
      hide MaybeFlip;
      CrossingFlips(c, s, k);
    }
  }

  /** Crediting row `k` itself flips it just when the new counts cross the threshold. */
  lemma {:induction false} CreditDecides(c: Config, s: State, h: Hit, ones: bool)
    requires Sound(c, s) && Clean(c, s, h.key, ones) && StartsAtByteZero(c, h.key)
    ensures var k, t := h.key, Credit(c, s, h);
      var cross := CrossAt(c, k, ones, LeftOf(s, k) + (if h.left then h.weight else 0.0),
                           RightOf(s, k) + (if h.left then 0.0 else h.weight));
      && (cross ==> CellsOf(t, k) != {} && c.encoder(k) in t.flips)
      && (!cross ==> Clean(c, t, k, ones))
  {
    hide MaybeFlip, Credit, Touched, Sound, Retouched, StartsAtByteZero, Clean, CrossAt, CellsOf;
    var k, u := h.key, Touched(c, s, h);
    TouchRetouches(c, s, h);
    RetouchKeeps(c, s, u);
    TouchClean(c, s, h, ones);
    TouchEffect(c, s, h, k);
    CreditIsCheck(c, s, h);
    FlipDecides(c, u, k, ones);
  }

  /** Crediting a row is adding to its counters, then checking it for a flip. */
  lemma {:induction false} CreditIsCheck(c: Config, s: State, h: Hit)
    ensures Credit(c, s, h) == MaybeFlip(c, Touched(c, s, h), h.key)
  {
    hide MaybeFlip;
  }

  lemma {:induction false} TouchClean(c: Config, s: State, h: Hit, ones: bool)
    requires Clean(c, s, h.key, ones)
    ensures Clean(c, Touched(c, s, h), h.key, ones)
  {
    var u := Touched(c, s, h);
    if h.key in s.victims {
      assert u.victims[h.key] == AddExposure(s.victims[h.key], h.left, h.weight);
    } else {
      assert u.victims[h.key] == AddExposure(FreshVictim(c, s, h.key), h.left, h.weight);
    }
  }

  lemma {:induction false} CreditCleanElsewhere(c: Config, s: State, h: Hit, k: Key, ones: bool)
    requires Clean(c, s, k, ones) && h.key != k
    ensures Clean(c, Credit(c, s, h), k, ones)
  {
    hide Credit;
    CreditBystander(c, s, h, k);
  }

  lemma {:induction false} CreditVictimsIn(c: Config, s: State, h: Hit, b: BankKey)
    requires VictimsIn(c, s, b) && h.key.bank == b && c.RowExists(h.key.row)
    ensures VictimsIn(c, Credit(c, s, h), b)
  {
    hide Credit;
    forall j | j in Credit(c, s, h).victims ensures j.bank == b && c.RowExists(j.row) { CreditEffect(c, s, h, j); }
  }

  /** The same for a whole activation: the other rows it exposes do not matter. */
  lemma {:induction false} CreditAllDecides(c: Config, s: State, hits: seq<Hit>, rowOf: int -> Key, k: Key,
      ones: bool)
    requires Sound(c, s) && VictimsIn(c, s, k.bank) && BlocksApart(c, k.bank, rowOf)
    requires Clean(c, s, k, ones) && StartsAtByteZero(c, k) && Occurs(Keys(hits), k) == 1
    requires forall i :: 0 <= i < |hits| ==> hits[i].key.bank == k.bank && c.RowExists(hits[i].key.row)
    ensures var t := CreditAll(c, s, hits);
      var l, r := LeftOf(s, k) + SideWeight(hits, k, true), RightOf(s, k) + SideWeight(hits, k, false);
      var cross := CrossAt(c, k, ones, l, r);
      && (cross ==> CellsOf(t, k) != {} && c.encoder(k) in t.flips)
      && (!cross ==> Clean(c, t, k, ones))
    decreases |hits|
  {
    hide Credit, Sound, VictimsIn, BlocksApart, Clean, StartsAtByteZero, CrossAt, CellsOf;
    var h, t := hits[0], Credit(c, s, hits[0]);
    assert Keys(hits)[1..] == Keys(hits[1..]);
    CreditKeeps(c, s, h);
    CreditVictimsIn(c, s, h, k.bank);
    if h.key == k {
      FirstDecides(c, s, hits, rowOf, k, ones);
    } else {
      CreditEffect(c, s, h, k);
      CreditCleanElsewhere(c, s, h, k, ones);
      CreditAllDecides(c, t, hits[1..], rowOf, k, ones);
    }
  }

  /** The row is credited first, and the remaining hits are of other rows. */
  lemma {:induction false} FirstDecides(c: Config, s: State, hits: seq<Hit>, rowOf: int -> Key, k: Key,
      ones: bool)
    requires Sound(c, s) && VictimsIn(c, s, k.bank) && BlocksApart(c, k.bank, rowOf)
    requires Clean(c, s, k, ones) && StartsAtByteZero(c, k)
    requires hits != [] && hits[0].key == k && Occurs(Keys(hits[1..]), k) == 0
    requires forall i :: 0 <= i < |hits| ==> hits[i].key.bank == k.bank && c.RowExists(hits[i].key.row)
    ensures var t := CreditAll(c, s, hits);
      var l, r := LeftOf(s, k) + SideWeight(hits, k, true), RightOf(s, k) + SideWeight(hits, k, false);
      var cross := CrossAt(c, k, ones, l, r);
      && (cross ==> CellsOf(t, k) != {} && c.encoder(k) in t.flips)
      && (!cross ==> Clean(c, t, k, ones))
  {
    hide Credit, Sound, VictimsIn, BlocksApart, Clean, StartsAtByteZero, CrossAt, CellsOf, Occurs;
    var h, t := hits[0], Credit(c, s, hits[0]);
    CreditKeeps(c, s, h);
    CreditVictimsIn(c, s, h, k.bank);
    CreditDecides(c, s, h, ones);
    NoWeight(hits[1..], k);
    CreditAllKeepsCells(c, t, hits[1..], rowOf, k, ones);
    CreditGrows(c, t, hits[1..]);
  }

  lemma {:induction false} CreditAllKeepsCells(c: Config, s: State, hits: seq<Hit>, rowOf: int -> Key, k: Key,
      ones: bool)
    requires Sound(c, s) && VictimsIn(c, s, k.bank) && BlocksApart(c, k.bank, rowOf) && Occurs(Keys(hits), k) == 0
    requires forall i :: 0 <= i < |hits| ==> hits[i].key.bank == k.bank && c.RowExists(hits[i].key.row)
    ensures CellsOf(CreditAll(c, s, hits), k) == CellsOf(s, k)
    ensures Clean(c, s, k, ones) ==> Clean(c, CreditAll(c, s, hits), k, ones)
    decreases |hits|
  {
    hide Credit, Sound, VictimsIn, BlocksApart, Clean, CellsOf;
    if hits != [] {
      assert Keys(hits)[1..] == Keys(hits[1..]);
      CreditKeeps(c, s, hits[0]);
      CreditVictimsIn(c, s, hits[0], k.bank);
      CreditElsewhere(c, s, hits[0], rowOf, k);
      if Clean(c, s, k, ones) { CreditCleanElsewhere(c, s, hits[0], k, ones); }
      CreditAllKeepsCells(c, Credit(c, s, hits[0]), hits[1..], rowOf, k, ones);
    }
  }
}
