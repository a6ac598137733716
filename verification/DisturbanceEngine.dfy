/** The engine's methods, which update its dictionaries in place, proved against the transition
    functions of `DisturbanceModel`. */
module DisturbanceEngines {
  import opened DisturbanceModel

  /** What one `consume` call reports. */
  class DisturbanceResult {
    var newFlips: nat
    var oracleRefreshes: nat
    var publicFlips: seq<PublicFlip>

    constructor ()
      ensures newFlips == 0 && oracleRefreshes == 0 && publicFlips == []
    {
      newFlips := 0;
      oracleRefreshes := 0;
      publicFlips := [];
    }
  }

  /** A worker request, as far as the engine looks at it. */
  datatype Request = NoRequest | WriteRequest(addr: int, size: nat) | OtherRequest

  function ConsumeEvents(c: Config, s: State, events: seq<Event>): State
    decreases |events|
  {
    if events == [] then s else ConsumeEvents(c, EventStep(c, s, events[0]), events[1..])
  }

  /** One call: fold the events, then restore what a write overwrote. */
  function Consumed(c: Config, s: State, events: seq<Event>, request: Request): State {
    var t := ConsumeEvents(c, s, events);
    match request
    case WriteRequest(addr, size) => Restore(t, addr, size)
    case NoRequest => t
    case OtherRequest => t
  }

  class DisturbanceEngine {
    const c: Config
    var victims: map<Key, Victim>
    var flips: map<int, nat>
    var flipOwners: map<int, Owner>
    var flippedRowKeys: set<Key>
    var rowPattern: map<Key, Pattern>
    var oracleActs: map<Key, int>
    var openRows: seq<OpenRow>
    var refreshCount: map<(int, int), int>

    /** The model state of the engine together with the result a call is filling in. */
    ghost function View(r: DisturbanceResult): State
      reads this, r
    {
      State(victims, flips, flipOwners, flippedRowKeys, rowPattern, oracleActs, openRows, refreshCount,
            r.newFlips, r.oracleRefreshes, r.publicFlips)
    }

    /** The same before a call has reported anything. */
    ghost function Dicts(): State
      reads this
    {
      State(victims, flips, flipOwners, flippedRowKeys, rowPattern, oracleActs, openRows, refreshCount, 0, 0, [])
    }

    constructor (config: Config)
      ensures c == config
      ensures Dicts() == INITIAL
    {
      c := config;
      victims, flips, flipOwners, flippedRowKeys := map[], map[], map[], {};
      rowPattern, oracleActs, openRows, refreshCount := map[], map[], [], map[];
    }

    /** Disturbed bytes: a bit differs from the stored one just when the overlay holds that bit at that address. */
    method Apply(addr: int, data: seq<bv8>) returns (out: seq<bv8>)
      ensures |out| == |data|
      ensures forall i, j: nat :: 0 <= i < |data| && j < 8 ==>
        (HasBit(out[i], j) != HasBit(data[i], j) <==> addr + i in flips && flips[addr + i] == j)
      ensures forall i :: 0 <= i < |data| ==>
        out[i] == if addr + i in flips then ToggleBit(data[i], flips[addr + i]) else data[i]
    {
      hide ToggleBit, HasBit;
      out := data;
      for i := 0 to |data|
        invariant |out| == |data|
        invariant forall k :: 0 <= k < i ==>
          out[k] == if addr + k in flips then ToggleBit(data[k], flips[addr + k]) else data[k]
        invariant forall k :: i <= k < |data| ==> out[k] == data[k]
      {
        if addr + i in flips {
          out := out[i := ToggleBit(out[i], flips[addr + i])];
        }
      }
      forall i, j: nat | 0 <= i < |data| && j < 8
        ensures HasBit(out[i], j) != HasBit(data[i], j) <==> addr + i in flips && flips[addr + i] == j
      {
        if addr + i in flips { TogglesOneBit(data[i], flips[addr + i], j); }
      }
    }

    method RestoreRange(addr: int, size: nat, r: DisturbanceResult)
      modifies this
      ensures View(r) == Restore(old(View(r)), addr, size)
    {
      for i := 0 to size
        invariant View(r) == Restore(old(View(r)), addr, i)
      {
        var cellAddr := addr + i;
        if cellAddr in flips {
          flips := flips - {cellAddr};
          if cellAddr in flipOwners {
            var owner := flipOwners[cellAddr];
            flipOwners := flipOwners - {cellAddr};
            ReleaseCell(owner, r);
          }
        }
      }
    }

    method ReleaseCell(owner: Owner, r: DisturbanceResult)
      modifies this`victims, this`flippedRowKeys
      ensures View(r) == Release(old(View(r)), owner)
    {
      if owner.key in victims {
        var v := victims[owner.key];
        victims := victims[owner.key := v.(cells := v.cells - {owner.cell})];
        if victims[owner.key].cells == {} {
          flippedRowKeys := flippedRowKeys - {owner.key};
        }
      }
    }

    method NoteRowWrite(key: Key, data: seq<int>, r: DisturbanceResult)
      modifies this`rowPattern
      ensures View(r) == NoteWrite(old(View(r)), key, data)
      ensures data == [] ==> rowPattern == old(rowPattern)
      ensures data != [] ==>
        && key in rowPattern
        && (rowPattern[key] == AllZeros <==> forall i :: 0 <= i < |data| ==> data[i] == 0x00)
        && (rowPattern[key] == AllOnes <==> forall i :: 0 <= i < |data| ==> data[i] == 0xFF)
        && (forall k :: k != key ==> (k in rowPattern <==> k in old(rowPattern)))
        && (forall k :: k != key && k in rowPattern ==> rowPattern[k] == old(rowPattern)[k])
    {
      assert data != [] ==> data[0] == 0x00 || data[0] != 0x00;
      if data == [] { return; }
      if forall i :: 0 <= i < |data| ==> data[i] == 0x00 {
        rowPattern := rowPattern[key := AllZeros];
      } else if forall i :: 0 <= i < |data| ==> data[i] == 0xFF {
        rowPattern := rowPattern[key := AllOnes];
      } else {
        rowPattern := rowPattern[key := Mixed];
      }
    }

    method Consume(events: seq<Event>, request: Request) returns (r: DisturbanceResult)
      modifies this
      ensures fresh(r)
      ensures View(r) == Consumed(c, old(Dicts()), events, request)
    {
      r := new DisturbanceResult();
      ghost var start := View(r);
      for i := 0 to |events|
        invariant fresh(r)
        invariant ConsumeEvents(c, View(r), events[i..]) == ConsumeEvents(c, start, events)
      {
        var e := events[i];
        assert events[i..][1..] == events[i + 1..];
        match Classify(e.op) {
          case Hammer => HammerRow(e, r);
          case Close => CloseBank(e, r);
          case Refresh => RefreshRank(e, r);
          case Inert =>
          case Unclassified =>
        }
      }
      if request.WriteRequest? { RestoreRange(request.addr, request.size, r); }
    }

    method HammerRow(e: Event, r: DisturbanceResult)
      modifies this, r
      ensures View(r) == HammerStep(c, old(View(r)), e)
    {
      if e.row < 0 { return; }
      if IsOpen(openRows, e.bank) && Entry(openRows, e.bank).row != e.row {
        SettleDwell(e.bank, e.clk, r);
      }
      var credited := ExposeNeighbours(e.bank, e.row, r);
      openRows := Put(openRows, OpenRow(e.bank, e.row, e.clk, credited));
      if c.oracle { CountActivation(e.bank, e.row, r); }
    }

    /** Expose the rows at every blast distance, below and above. */
    method ExposeNeighbours(bank: BankKey, row: int, r: DisturbanceResult) returns (credited: seq<Key>)
      modifies this, r
      ensures View(r) == CreditAll(c, old(View(r)), Hits(c, bank, row, c.blast))
      ensures credited == Keys(Hits(c, bank, row, c.blast))
    {
      hide Credit, CreditAll, RingHits, Hits;
      ghost var start, all := View(r), Hits(c, bank, row, c.blast);
      credited := [];
      for i := 0 to |c.blast|
        invariant CreditAll(c, View(r), Hits(c, bank, row, c.blast[i..])) == CreditAll(c, start, all)
        invariant credited + Keys(Hits(c, bank, row, c.blast[i..])) == Keys(all)
      {
        RingFirst(c, View(r), bank, row, c.blast[i..]);
        assert c.blast[i..][1..] == c.blast[i + 1..];
        var ks := ExposeRing(bank, row, c.blast[i], r);
        credited := credited + ks;
      }
      assert c.blast[|c.blast|..] == [];
      NoRings(c, View(r), bank, row);
    }

    method ExposeRing(bank: BankKey, row: int, ring: Ring, r: DisturbanceResult) returns (credited: seq<Key>)
      modifies this, r
      ensures View(r) == CreditAll(c, old(View(r)), RingHits(c, bank, row, ring))
      ensures credited == Keys(RingHits(c, bank, row, ring))
    {
      hide Credit, CreditAll, RingHits;
      RingCredits(c, View(r), bank, row, ring);
      var below := ExposeRow(bank, row - ring.distance, false, ring.weight, r);
      var above := ExposeRow(bank, row + ring.distance, true, ring.weight, r);
      credited := below + above;
    }

    /** Expose one neighbour, if the device has that row; the keys credited are returned. */
    method ExposeRow(bank: BankKey, row: int, left: bool, weight: Weight, r: DisturbanceResult)
      returns (credited: seq<Key>)
      modifies this, r
      ensures c.RowExists(row) ==> View(r) == Credit(c, old(View(r)), Hit(Key(bank, row), left, weight))
      ensures !c.RowExists(row) ==> View(r) == old(View(r))
      ensures credited == if c.RowExists(row) then [Key(bank, row)] else []
    {
      if !c.RowExists(row) { return []; }
      var key := Key(bank, row);
      EnsureVictim(key, r);
      victims := victims[key := AddExposure(victims[key], left, weight)];
      MaybeFlipRow(key, r);
      credited := [key];
    }

    method EnsureVictim(key: Key, r: DisturbanceResult)
      modifies this`victims
      ensures View(r) == WithVictim(c, old(View(r)), key)
    {
      if key !in victims {
        var ones := key in rowPattern && rowPattern[key] == AllOnes;
        victims := victims[key := Victim(c.Threshold(key, true, ones), c.Threshold(key, false, ones), ones,
                                         c.encoder(key), c.FirstBit(key), 0.0, 0.0, 0.0, {})];
      }
    }

    method MaybeFlipRow(key: Key, r: DisturbanceResult)
      requires key in victims
      modifies this, r
      ensures View(r) == MaybeFlip(c, old(View(r)), key)
    {
      var v := victims[key];
      if |v.cells| >= MAX_BITS { return; }
      var exposure := Exposure(v);
      var threshold := ActiveThreshold(v);
      if exposure < threshold as real { return; }
      FlipRow(key, exposure / threshold as real, r);
    }

    method FlipRow(key: Key, ratio: real, r: DisturbanceResult)
      requires key in victims
      modifies this, r
      ensures View(r) == Flip(c, old(View(r)), key, ratio)
      ensures old(r.publicFlips) <= r.publicFlips
      ensures r.newFlips - old(r.newFlips) == |r.publicFlips| - |old(r.publicFlips)|
      ensures forall i :: |old(r.publicFlips)| <= i < |r.publicFlips| ==>
        ShowsCell(r.publicFlips[i], key, old(victims[key]))
    {
      hide ShowsCell;
      ReportsCells(View(r), key, FlipPositions(c, key, victims[key], MultiplicityBits(c, victims[key], ratio)));
      var positions := FlipPositions(c, key, victims[key], MultiplicityBits(c, victims[key], ratio));
      ghost var start := View(r);
      for i := 0 to |positions|
        invariant key in victims
        invariant EmitAll(View(r), key, positions[i..]) == EmitAll(start, key, positions)
      {
        assert positions[i..][1..] == positions[i + 1..];
        EmitCell(key, positions[i], r);
      }
      if victims[key].cells != {} { flippedRowKeys := flippedRowKeys + {key}; }
    }

    method EmitCell(key: Key, cell: Cell, r: DisturbanceResult)
      requires key in victims
      modifies this, r
      ensures View(r) == Emit(old(View(r)), key, cell)
      ensures key in victims
    {
      var cellAddr := victims[key].addr + cell.off;
      if cellAddr in flipOwners && flipOwners[cellAddr] != Owner(key, cell) {
        ReleaseCell(flipOwners[cellAddr], r);
      }
      assert key in victims;
      flips := flips[cellAddr := cell.bit];
      flipOwners := flipOwners[cellAddr := Owner(key, cell)];
      var v := victims[key];
      victims := victims[key := v.(cells := v.cells + {cell})];
      r.newFlips := r.newFlips + 1;
      r.publicFlips := r.publicFlips + [PublicFlip(key.row, cellAddr, cell.bit, v.ones)];
    }

    method CloseBank(e: Event, r: DisturbanceResult)
      modifies this, r
      ensures View(r) == SettleAll(c, old(View(r)), ClosedBanks(old(openRows), e.bank), e.clk)
    {
      var closed := ClosedBanks(openRows, e.bank);
      ghost var start := View(r);
      for i := 0 to |closed|
        invariant SettleAll(c, View(r), closed[i..], e.clk) == SettleAll(c, start, closed, e.clk)
      {
        assert closed[i..][1..] == closed[i + 1..];
        if IsOpen(openRows, closed[i]) { SettleDwell(closed[i], e.clk, r); }
      }
    }

    method SettleDwell(bank: BankKey, closeClk: int, r: DisturbanceResult)
      requires IsOpen(openRows, bank)
      modifies this, r
      ensures View(r) == Settle(c, old(View(r)), bank, closeClk)
    {
      hide MaybeFlip;
      var entry := Entry(openRows, bank);
      openRows := Remove(openRows, bank);
      var factor := c.Factor(closeClk - entry.clk);
      if factor <= 1.0 { return; }
      var ks := entry.credited;
      ghost var start := View(r);
      for i := 0 to |ks|
        invariant AddBonusAll(c, View(r), ks[i..], factor - 1.0) == AddBonusAll(c, start, ks, factor - 1.0)
      {
        assert ks[i..][1..] == ks[i + 1..];
        if ks[i] in victims && |victims[ks[i]].cells| < MAX_BITS {
          var v := victims[ks[i]];
          victims := victims[ks[i] := v.(bonus := v.bonus + (factor - 1.0))];
          MaybeFlipRow(ks[i], r);
        }
      }
    }

    method RefreshRank(e: Event, r: DisturbanceResult)
      modifies this
      ensures View(r) == RefreshStep(c, old(View(r)), e.bank)
    {
      var rank := (e.bank.channel, e.bank.rank);
      var count := (if rank in refreshCount then refreshCount[rank] else 0) + 1;
      refreshCount := refreshCount[rank := count];
      if !WindowDone(c, count) { return; }
      var pending := victims.Keys;
      ghost var was := victims;
      while pending != {}
        invariant pending <= was.Keys == victims.Keys
        invariant forall k :: k in pending ==> victims[k] == was[k]
        invariant forall k :: k in was && k !in pending ==> victims[k] == ClearRank(was, e.bank)[k]
        invariant flips == old(flips) && flipOwners == old(flipOwners) && flippedRowKeys == old(flippedRowKeys)
        invariant rowPattern == old(rowPattern) && oracleActs == old(oracleActs) && openRows == old(openRows)
        invariant refreshCount == old(refreshCount)[rank := count]
        decreases pending
      {
        var k :| k in pending;
        if InRank(k, e.bank) { victims := victims[k := Cleared(victims[k])]; }
        pending := pending - {k};
      }
      assert victims == ClearRank(was, e.bank);
      if c.oracle { oracleActs := ClearCounters(oracleActs, e.bank); }
    }

    method CountActivation(bank: BankKey, row: int, r: DisturbanceResult)
      modifies this, r
      ensures View(r) == OracleOnAct(c, old(View(r)), bank, row)
    {
      var agg := Key(bank, row);
      var count := (if agg in oracleActs then oracleActs[agg] else 0) + 1;
      if count < c.tRH {
        oracleActs := oracleActs[agg := count];
        return;
      }
      oracleActs := oracleActs[agg := 0];
      ClearRows(Hits(c, bank, row, c.blast), r);
      r.oracleRefreshes := r.oracleRefreshes + 1;
    }

    /** The victim-row refresh: clear every listed neighbour that has been seen. */
    method ClearRows(hits: seq<Hit>, r: DisturbanceResult)
      modifies this`victims
      ensures View(r) == ClearVictims(old(View(r)), hits)
    {
      ghost var start := View(r);
      for i := 0 to |hits|
        invariant ClearVictims(View(r), hits[i..]) == ClearVictims(start, hits)
      {
        assert hits[i..][1..] == hits[i + 1..];
        var k := hits[i].key;
        if k in victims { victims := victims[k := Cleared(victims[k])]; }
      }
    }
  }

  /** The report shows a cell of the row: its row number and stratum, the cell's address and its bit. */
  ghost predicate ShowsCell(f: PublicFlip, key: Key, v: Victim) {
    f.row == key.row && f.ones == v.ones && exists x: Cell :: f.addr == v.addr + x.off && f.bit == x.bit
  }

  /** Every emitted cell is reported once, in order, as a cell of its row. */
  lemma {:induction false} ReportsCells(s: State, key: Key, cells: seq<Cell>)
    requires key in s.victims
    ensures var t, n := EmitAll(s, key, cells), |s.publicFlips|;
      && s.publicFlips <= t.publicFlips && |t.publicFlips| == n + |cells| && t.newFlips == s.newFlips + |cells|
      && forall i :: n <= i < |t.publicFlips| ==> ShowsCell(t.publicFlips[i], key, s.victims[key])
    decreases |cells|
  {
    hide Release, ShowsCell;
    if cells != [] {
      var x, n, u := cells[0], |s.publicFlips|, Emit(s, key, cells[0]);
      EmitShows(s, key, x);
      hide Emit;
      ReportsCells(u, key, cells[1..]);
      var t := EmitAll(s, key, cells);
      assert t.publicFlips[n] == u.publicFlips[n];
      forall i | n <= i < |t.publicFlips| ensures ShowsCell(t.publicFlips[i], key, s.victims[key]) {
        if i > n { SameCell(t.publicFlips[i], key, u.victims[key], s.victims[key]); }
      }
    }
  }

  lemma {:induction false} SameCell(f: PublicFlip, key: Key, v: Victim, w: Victim)
    requires ShowsCell(f, key, v) && v.addr == w.addr && v.ones == w.ones
    ensures ShowsCell(f, key, w)
  {
  }

  lemma {:induction false} EmitShows(s: State, key: Key, x: Cell)
    requires key in s.victims
    ensures var t, n := Emit(s, key, x), |s.publicFlips|;
      && key in t.victims && t.victims[key].addr == s.victims[key].addr && t.victims[key].ones == s.victims[key].ones
      && s.publicFlips <= t.publicFlips && |t.publicFlips| == n + 1 && t.newFlips == s.newFlips + 1
      && ShowsCell(t.publicFlips[n], key, s.victims[key])
  {
    var f := Emit(s, key, x).publicFlips[|s.publicFlips|];
    assert f.addr == s.victims[key].addr + x.off && f.bit == x.bit;
  }

  /** `byte ^ (1 << bit)` on one byte. */
  function ToggleBit(b: bv8, bit: nat): bv8 {
    if bit < 8 then b ^ ((1 as bv8) << bit) else b
  }

  /** Bit `j` of a byte, by its mask. */
  predicate HasBit(b: bv8, j: nat)
    requires j < 8
  {
    b & (if j == 0 then 0x01 else if j == 1 then 0x02 else if j == 2 then 0x04 else if j == 3 then 0x08
         else if j == 4 then 0x10 else if j == 5 then 0x20 else if j == 6 then 0x40 else 0x80) != 0
  }

  /** The word with one bit set, as a shift and as a mask. */
  lemma {:induction false} ShiftedOne(bit: nat)
    requires bit < 8
    ensures ((1 as bv8) << bit) == (if bit == 0 then 0x01 else if bit == 1 then 0x02 else if bit == 2 then 0x04
      else if bit == 3 then 0x08 else if bit == 4 then 0x10 else if bit == 5 then 0x20 else if bit == 6 then 0x40
      else 0x80)
  {
    var one: bv8 := 1;
    if bit == 0 { assert one << 0 == 0x01; }
    else if bit == 1 { assert one << 1 == 0x02; }
    else if bit == 2 { assert one << 2 == 0x04; }
    else if bit == 3 { assert one << 3 == 0x08; }
    else if bit == 4 { assert one << 4 == 0x10; }
    else if bit == 5 { assert one << 5 == 0x20; }
    else if bit == 6 { assert one << 6 == 0x40; }
    else { assert one << 7 == 0x80; }
  }

  /** Toggling changes the given bit and no other. */
  lemma {:induction false} TogglesOneBit(b: bv8, bit: nat, j: nat)
    requires j < 8
    ensures HasBit(ToggleBit(b, bit), j) != HasBit(b, j) <==> j == bit
  {
    if bit < 8 { ShiftedOne(bit); }
  }

  /** Crediting both rows at one distance is crediting the one below, then the one above. */
  lemma {:induction false} RingCredits(c: Config, s: State, bank: BankKey, row: int, ring: Ring)
    ensures var d, w := ring.distance, ring.weight;
      var t := if c.RowExists(row - d) then Credit(c, s, Hit(Key(bank, row - d), false, w)) else s;
      CreditAll(c, s, RingHits(c, bank, row, ring)) ==
        if c.RowExists(row + d) then Credit(c, t, Hit(Key(bank, row + d), true, w)) else t
    ensures Keys(RingHits(c, bank, row, ring)) ==
      (if c.RowExists(row - ring.distance) then [Key(bank, row - ring.distance)] else [])
      + (if c.RowExists(row + ring.distance) then [Key(bank, row + ring.distance)] else [])
  {
    hide Credit, CreditAll;
    var d := ring.distance;
    var lows := if c.RowExists(row - d) then [Hit(Key(bank, row - d), false, ring.weight)] else [];
    var highs := if c.RowExists(row + d) then [Hit(Key(bank, row + d), true, ring.weight)] else [];
    CreditAllAppend(c, s, lows, highs);
    CreditOne(c, s, lows);
    CreditOne(c, CreditAll(c, s, lows), highs);
  }

  lemma {:induction false} CreditOne(c: Config, s: State, hs: seq<Hit>)
    requires |hs| <= 1
    ensures CreditAll(c, s, hs) == if hs == [] then s else Credit(c, s, hs[0])
  {
    hide Credit;
    if hs != [] { assert hs[1..] == []; }
  }

  lemma {:induction false} RingFirst(c: Config, s: State, bank: BankKey, row: int, rings: seq<Ring>)
    requires rings != []
    ensures CreditAll(c, s, Hits(c, bank, row, rings)) ==
            CreditAll(c, CreditAll(c, s, RingHits(c, bank, row, rings[0])), Hits(c, bank, row, rings[1..]))
    ensures Keys(Hits(c, bank, row, rings)) ==
            Keys(RingHits(c, bank, row, rings[0])) + Keys(Hits(c, bank, row, rings[1..]))
  {
    hide Credit, CreditAll, RingHits;
    CreditAllAppend(c, s, RingHits(c, bank, row, rings[0]), Hits(c, bank, row, rings[1..]));
  }

  lemma {:induction false} NoRings(c: Config, s: State, bank: BankKey, row: int)
    ensures CreditAll(c, s, Hits(c, bank, row, [])) == s && Keys(Hits(c, bank, row, [])) == []
  {
  }
}
