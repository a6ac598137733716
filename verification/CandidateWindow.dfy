/** Candidate windows, compiled under a secret mapper.

    The compiler knows the public field positions but not the secret row-to-bank XOR, so it reads bank
    membership from the decoder: it enumerates the raw bank slots of a row and decodes each. At a fixed row
    the decoded slots are a bijection onto the banks, and both builders yield a window with both neighbours
    of the target, no other row of the target's bank nearer than the margin, and, with enough rows, exactly
    the requested number of distinct offsets. The draws of the random generator are parameters. */
module CandidateWindows {
  import opened Bits
  import opened BitFields
  import opened RowXorMapping
  import opened DeviceRows
  import DM = DisturbanceModel
  import OP = OracleProtection

  const FAR_ROW_MARGIN := 64

  datatype Role = Aggressor | SameBankFar | DifferentBank
  datatype Candidate = Candidate(offset: int, role: Role)
  datatype Slot = Slot(bank: DM.BankKey, addr: int)

  function Rows(l: Device): nat { Pow2(l.addrBits[ROW]) }

  /** A bank of rank 0. */
  predicate InBank(l: Device, b: DM.BankKey) {
    b.channel == 0 && b.rank == 0 && 0 <= b.bankgroup < Pow2(l.addrBits[GROUP]) && 0 <= b.bank < Pow2(l.addrBits[BANK])
  }

  /** Banks of a rank. */
  function Banks(l: Device): nat { SlotCount(l, Pow2(l.addrBits[GROUP])) }

  /** Raw bank slots in the first `g` groups. */
  function SlotCount(l: Device, g: nat): nat { g * Pow2(l.addrBits[BANK]) }

  // ---- raw bank slots -------------------------------------------------------------------------------------

  function GroupShift(l: Device): nat { l.txOffset + l.addrBits[COLUMN] + l.addrBits[RANK] }
  function BankShift(l: Device): nat { GroupShift(l) + l.addrBits[GROUP] }

  /** Column 0 of the raw bank slot (`g`, `b`) at row `r`. */
  function SlotAddr(l: Device, r: nat, g: nat, b: nat): nat {
    r * Stride(l) + g * Pow2(GroupShift(l)) + b * Pow2(BankShift(l))
  }

  function RowLevels(b: DM.BankKey, r: int): seq<int> { [0, b.bankgroup, b.bank, r, 0] }

  lemma {:induction false} RowLevelsInRange(l: Device, b: DM.BankKey, r: int)
    requires InBank(l, b) && 0 <= r < Rows(l)
    ensures InRange(l.addrBits, RowLevels(b, r))
    ensures InDevice(l, DM.Key(b, r)) && Vec(DM.Key(b, r), 0) == RowLevels(b, r)
  {
  }

  /** The bank that the raw slot `b` decodes to at row `r`. */
  function Mixed(l: Device, b: DM.BankKey, r: int): DM.BankKey
    requires InBank(l, b) && 0 <= r < Rows(l)
  {
    RowLevelsInRange(l, b, r);
    var s := Scramble(l, RowLevels(b, r));
    DM.BankKey(0, 0, s[GROUP], s[BANK])
  }

  lemma {:induction false} MixedLevels(l: Device, b: DM.BankKey, r: int)
    requires InBank(l, b) && 0 <= r < Rows(l)
    ensures InRange(l.addrBits, RowLevels(b, r)) && InBank(l, Mixed(l, b, r))
    ensures Scramble(l, RowLevels(b, r)) == RowLevels(Mixed(l, b, r), r)
  {
    hide Xor, Low, Shr;
    RowLevelsInRange(l, b, r);
    ScrambleInRange(l, RowLevels(b, r));
  }

  /** At a fixed row the secret XOR is an involution of the banks, so the decoded slots are a bijection. */
  lemma {:induction false} MixedInvolution(l: Device, b: DM.BankKey, r: int)
    requires InBank(l, b) && 0 <= r < Rows(l)
    ensures InBank(l, Mixed(l, b, r)) && Mixed(l, Mixed(l, b, r), r) == b
  {
    hide Scramble;
    MixedLevels(l, b, r);
    MixedLevels(l, Mixed(l, b, r), r);
    ScrambleInvolution(l, RowLevels(b, r));
  }

  lemma {:induction false} SlotJoin(l: Device, r: nat, g: nat, b: nat)
    requires g < Pow2(l.addrBits[GROUP]) && b < Pow2(l.addrBits[BANK]) && r < Rows(l)
    ensures InRange(l.Placement(), [0, 0, g, b, r])
    ensures SlotAddr(l, r, g, b) == Pow2(l.txOffset) * Join(l.Placement(), [0, 0, g, b, r])
  {
    var w, t := l.addrBits, l.txOffset;
    assert l.Placement() == [w[COLUMN], w[RANK], w[GROUP], w[BANK], w[ROW]];
    JoinFive(w[COLUMN], w[RANK], w[GROUP], w[BANK], w[ROW], g, b, r);
    BelowTotal(l);
    hide Join, Total, Pow2, InRange, Stride, Field;
    SlotSum(t, w[COLUMN], w[RANK], w[GROUP], w[BANK], g, b, r);
  }

  lemma {:induction false} SlotSum(t: nat, c: nat, k: nat, wg: nat, wb: nat, g: nat, b: nat, r: nat)
    ensures Pow2(t) * Field(c, Field(k, Field(wg, Field(wb, r, b), g), 0), 0)
         == r * Pow2(t + c + k + wg + wb) + g * Pow2(t + c + k) + b * Pow2(t + c + k + wg)
  {
    hide Pow2, Field;
    var j := Field(wb, r, b);
    var i := Field(wg, j, g);
    ShiftField(t, c, Field(k, i, 0), 0);
    ShiftField(t + c, k, i, 0);
    ShiftField(t + c + k, wg, j, g);
    ShiftField(t + c + k + wg, wb, r, b);
  }

  /** A field of width `w` below the bits `hi`. */
  function Field(w: nat, hi: nat, lo: nat): nat { Pow2(w) * hi + lo }

  lemma {:induction false} JoinFive(c: nat, k: nat, wg: nat, wb: nat, wr: nat, g: int, b: int, r: int)
    requires 0 <= g < Pow2(wg) && 0 <= b < Pow2(wb) && 0 <= r < Pow2(wr)
    ensures InRange([c, k, wg, wb, wr], [0, 0, g, b, r])
    ensures Join([c, k, wg, wb, wr], [0, 0, g, b, r]) == Field(c, Field(k, Field(wg, Field(wb, r, b), g), 0), 0)
  {
    assert Join([wr], [r]) == r by { assert [wr][1..] == []; }
    hide Join, Pow2, InRange, Field;
    OneField(wr, r);
    JoinCons(wb, [wr], b, [r]);
    assert [wb] + [wr] == [wb, wr] && [b] + [r] == [b, r];
    JoinCons(wg, [wb, wr], g, [b, r]);
    assert [wg] + [wb, wr] == [wg, wb, wr] && [g] + [b, r] == [g, b, r];
    JoinCons(k, [wg, wb, wr], 0, [g, b, r]);
    assert [k] + [wg, wb, wr] == [k, wg, wb, wr] && [0] + [g, b, r] == [0, g, b, r];
    JoinCons(c, [k, wg, wb, wr], 0, [0, g, b, r]);
    assert [c] + [k, wg, wb, wr] == [c, k, wg, wb, wr] && [0] + [0, g, b, r] == [0, 0, g, b, r];
  }

  lemma {:induction false} OneField(w: nat, v: int)
    requires 0 <= v < Pow2(w)
    ensures InRange([w], [v])
  {
  }

  lemma {:induction false} JoinCons(w: nat, ws: seq<nat>, v: int, vs: seq<int>)
    requires 0 <= v < Pow2(w) && InRange(ws, vs)
    ensures InRange([w] + ws, [v] + vs) && Join([w] + ws, [v] + vs) == Field(w, Join(ws, vs), v)
  {
    assert ([w] + ws)[1..] == ws && ([v] + vs)[1..] == vs;
  }

  lemma {:induction false} BelowTotal(l: Device)
    ensures Stride(l) == Pow2(BankShift(l) + l.addrBits[BANK])
  {
    var w := l.addrBits;
    assert Below(l) == [w[COLUMN], w[RANK], w[GROUP], w[BANK]];
    TotalOfFour(w[COLUMN], w[RANK], w[GROUP], w[BANK]);
  }

  lemma {:induction false} TotalOfFour(a: nat, b: nat, c: nat, d: nat)
    ensures Total([a, b, c, d]) == a + b + c + d
  {
    TotalAppend([a, b], [c, d]);
    assert [a, b] + [c, d] == [a, b, c, d];
    assert [a, b][1..] == [b] && [c, d][1..] == [d] && [b][1..] == [] && [d][1..] == [];
  }

  lemma {:induction false} ShiftField(s: nat, w: nat, hi: nat, lo: nat)
    ensures Pow2(s) * Field(w, hi, lo) == Pow2(s + w) * hi + lo * Pow2(s)
  {
    Pow2Add(s, w);
    MulSplit(Pow2(s), Pow2(w), hi, lo);
  }

  /** Every raw slot lies at the anchor of the row it decodes to. */
  lemma {:induction false} SlotDecodes(l: Device, r: nat, g: nat, b: nat)
    requires r < Rows(l) && InBank(l, DM.BankKey(0, 0, g, b))
    ensures var k := DM.Key(Mixed(l, DM.BankKey(0, 0, g, b), r), r);
      && InDevice(l, k) && KeyAt(l, SlotAddr(l, r, g, b)) == k && SlotAddr(l, r, g, b) == Anchor(l, k)
  {
    var bank, raw := DM.BankKey(0, 0, g, b), [0, 0, g, b, r];
    RowLevelsInRange(l, bank, r);
    assert Rotate(raw) == RowLevels(bank, r) && raw == Unrotate(RowLevels(bank, r));
    UnrotateInRange(l, RowLevels(bank, r));
    SlotJoin(l, r, g, b);
    MixedLevels(l, bank, r);
    RowLevelsInRange(l, Mixed(l, bank, r), r);
    SlotBits(l, raw, RowLevels(Mixed(l, bank, r), r));
  }

  lemma {:induction false} SlotBits(l: Device, raw: seq<int>, vs: seq<int>)
    requires |raw| == 5 && InRange(l.Placement(), raw)
    requires InRange(l.addrBits, Rotate(raw)) && Scramble(l, Rotate(raw)) == vs && InRange(l.addrBits, vs)
    ensures var a := Pow2(l.txOffset) * Join(l.Placement(), raw);
      a == Preimage(l, vs) && Shr(a, l.txOffset) == Join(l.Placement(), raw) && Levels(l, Shr(a, l.txOffset)) == vs
  {
    hide Scramble, Rotate, Xor, Low;
    var bits := Join(l.Placement(), raw);
    SplitJoin(l.Placement(), raw);
    JoinBelow(l.Placement(), raw);
    PlacementTotal(l);
    SlicesUnique(bits, 0, l.txOffset);
    LevelsOneToOne(l, bits);
  }

  // ---- the bank slots of a row ----------------------------------------------------------------------------

  function Place(l: Device, b: DM.BankKey, r: int): int
    requires InBank(l, b) && 0 <= r < Rows(l)
  {
    RowLevelsInRange(l, b, r);
    Anchor(l, DM.Key(b, r))
  }

  /** `slots` is a bijection from the banks to the addresses of row `r`. */
  ghost predicate IsBankMap(l: Device, r: int, slots: seq<Slot>)
    requires 0 <= r < Rows(l)
  {
    && (forall i :: 0 <= i < |slots| ==> InBank(l, slots[i].bank) && slots[i].addr == Place(l, slots[i].bank, r))
    && (forall b :: InBank(l, b) ==> Slot(b, Place(l, b, r)) in slots)
    && DistinctBanks(slots) && |slots| == Banks(l)
  }

  ghost predicate DistinctBanks(slots: seq<Slot>) {
    forall i, j :: 0 <= i < j < |slots| ==> slots[i].bank != slots[j].bank
  }

  /** The raw slot of bank `b` comes before (`g`, `n`) in the enumeration. */
  predicate Before(l: Device, r: int, b: DM.BankKey, g: int, n: int)
    requires InBank(l, b) && 0 <= r < Rows(l)
  {
    var raw := Mixed(l, b, r);
    raw.bankgroup < g || (raw.bankgroup == g && raw.bank < n)
  }

  /** The part of the bank map that the raw slots before (`g`, `n`) yield. */
  ghost predicate IsPartialMap(l: Device, r: int, slots: seq<Slot>, g: nat, n: nat)
    requires 0 <= r < Rows(l)
  {
    && (forall i :: 0 <= i < |slots| ==>
          && InBank(l, slots[i].bank) && slots[i].addr == Place(l, slots[i].bank, r)
          && Before(l, r, slots[i].bank, g, n))
    && (forall b :: InBank(l, b) && Before(l, r, b, g, n) ==> Slot(b, Place(l, b, r)) in slots)
    && DistinctBanks(slots) && |slots| == SlotCount(l, g) + n
  }

  lemma {:induction false} NextSlot(l: Device, r: nat, slots: seq<Slot>, g: nat, n: nat)
    requires r < Rows(l) && InBank(l, DM.BankKey(0, 0, g, n)) && IsPartialMap(l, r, slots, g, n)
    ensures var a := SlotAddr(l, r, g, n);
      IsPartialMap(l, r, slots + [Slot(KeyAt(l, a).bank, a)], g, n + 1)
  {
    var raw := DM.BankKey(0, 0, g, n);
    var d := Mixed(l, raw, r);
    SlotDecodes(l, r, g, n);
    MixedInvolution(l, raw, r);
    assert Place(l, d, r) == SlotAddr(l, r, g, n);
    hide KeyAt, Mixed, SlotAddr, Place, InBank, Anchor;
    var more := slots + [Slot(d, SlotAddr(l, r, g, n))];
    forall b | InBank(l, b) && Before(l, r, b, g, n + 1) ensures Slot(b, Place(l, b, r)) in more {
      MixedInvolution(l, b, r);
      BankIsPair(l, Mixed(l, b, r));
      if Before(l, r, b, g, n) {
        assert Slot(b, Place(l, b, r)) in slots;
      } else {
        assert b == d;
        assert more[|slots|] == Slot(b, Place(l, b, r));
      }
    }
  }

  lemma {:induction false} BankIsPair(l: Device, b: DM.BankKey)
    requires InBank(l, b)
    ensures b == DM.BankKey(0, 0, b.bankgroup, b.bank)
  {
  }

  lemma {:induction false} NextGroup(l: Device, r: nat, slots: seq<Slot>, g: nat)
    requires r < Rows(l) && IsPartialMap(l, r, slots, g, Pow2(l.addrBits[BANK]))
    ensures IsPartialMap(l, r, slots, g + 1, 0)
  {
    hide Mixed, Place;
    forall b | InBank(l, b) ensures Before(l, r, b, g + 1, 0) == Before(l, r, b, g, Pow2(l.addrBits[BANK])) {
      MixedInvolution(l, b, r);
    }
  }

  lemma {:induction false} AllSlots(l: Device, r: nat, slots: seq<Slot>)
    requires r < Rows(l) && IsPartialMap(l, r, slots, Pow2(l.addrBits[GROUP]), 0)
    ensures IsBankMap(l, r, slots)
  {
    hide Mixed, Place;
    forall b | InBank(l, b) ensures Before(l, r, b, Pow2(l.addrBits[GROUP]), 0) { MixedInvolution(l, b, r); }
  }

  /** Decode every raw bank slot of row `r`: the dictionary from decoded bank to address. */
  method BankSlotAddrs(l: Device, r: nat) returns (slots: seq<Slot>)
    requires r < Rows(l)
    ensures IsBankMap(l, r, slots)
  {
    hide IsPartialMap, IsBankMap, KeyAt;
    slots := [];
    var g := 0;
    assert IsPartialMap(l, r, slots, 0, 0) by { NoSlots(l, r); }
    while g < Pow2(l.addrBits[GROUP])
      invariant g <= Pow2(l.addrBits[GROUP]) && IsPartialMap(l, r, slots, g, 0)
    {
      var b := 0;
      while b < Pow2(l.addrBits[BANK])
        invariant b <= Pow2(l.addrBits[BANK]) && IsPartialMap(l, r, slots, g, b)
      {
        var addr := SlotAddr(l, r, g, b);
        var d := KeyAt(l, addr);
        NextSlot(l, r, slots, g, b);
        slots := slots + [Slot(d.bank, addr)];
        b := b + 1;
      }
      NextGroup(l, r, slots, g);
      g := g + 1;
    }
    AllSlots(l, r, slots);
  }

  lemma {:induction false} NoSlots(l: Device, r: nat)
    requires r < Rows(l)
    ensures IsPartialMap(l, r, [], 0, 0)
  {
    hide Mixed, Place;
    forall b | InBank(l, b) ensures !Before(l, r, b, 0, 0) { MixedInvolution(l, b, r); }
  }
}
