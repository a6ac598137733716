/** Success predicates on trusted state, one per kind of objective.

    The row predicate reads the engine's index of flipped row keys, the cell and pattern predicates
    read the disturbed byte at the target address. They are ordered: a cell or pattern success is a
    row success, and a row success is an any-flip success; and the cell predicate can only be met by
    a disturbance, never by storing the requested value. */
module Rewards {
  import opened DisturbanceModel
  import opened DisturbanceEngines
  import opened DisturbedMemories
  import DR = DeviceRows
  import OV = Overlay

  datatype Task = Task(key: Key, addr: int, bit: nat, value: bv8, mask: bv8)

  function BitMask(bit: nat): bv8 { if bit < 8 then (1 as bv8) << bit else 0 }

  predicate TargetBankrowFlip(task: Task, s: State) { task.key in s.flippedKeys }

  predicate AnyFlip(s: State) { s.flips != map[] }

  predicate SameUnder(mask: bv8, a: bv8, b: bv8) { a & mask == b & mask }

  /** The flipped bit of the target byte is the requested one and reads the requested value. */
  predicate TargetCellFlip(task: Task, s: State, byte: bv8) {
    && task.addr in s.flips && s.flips[task.addr] == task.bit
    && SameUnder(BitMask(task.bit), byte, task.value)
  }

  predicate PatternTarget(task: Task, s: State, byte: bv8) {
    task.addr in s.flips && SameUnder(task.mask, byte, task.value)
  }

  lemma {:induction false} NotEmpty(m: map<int, nat>)
    ensures m != map[] <==> exists a :: a in m
  {
    if forall a :: a !in m { assert m == map[]; }
  }

  /** Any flip anywhere is a flip of some indexed row, in every run. */
  lemma {:induction false} AnyFlipIsSomeRow(c: Config, run: seq<Action>, n: nat)
    requires n <= |run|
    ensures AnyFlip(RunTo(c, run, n)) <==> RunTo(c, run, n).flippedKeys != {}
  {
    hide RunTo, OV.Window;
    OV.RunSound(c, run, n);
    var s := RunTo(c, run, n);
    if AnyFlip(s) {
      NotEmpty(s.flips);
      var a :| a in s.flips;
      assert OV.OwnerHolds(c, s, a);
      assert OV.HasFlipped(s, s.owners[a].key);
    }
    if k :| k in s.flippedKeys {
      assert OV.HasFlipped(s, k);
      var x :| x in s.victims[k].cells;
      assert OV.OwnedBy(s, c.encoder(k) + x.off, Owner(k, x));
    }
  }

  /** A success at the target's byte is a success at the target's row. */
  lemma {:induction false} CellSuccessIsRowSuccess(l: DR.Device, c: Config, run: seq<Action>, n: nat, task: Task,
      byte: bv8)
    requires DR.OnDevice(l, c) && n <= |run| && (forall i :: 0 <= i < n ==> DR.Decoded(l, run[i]))
    requires DR.KeyAt(l, task.addr) == task.key
    ensures var s := RunTo(c, run, n);
      && (TargetCellFlip(task, s, byte) || PatternTarget(task, s, byte) ==> TargetBankrowFlip(task, s))
      && (TargetBankrowFlip(task, s) ==> AnyFlip(s))
  {
    hide RunTo, DR.KeyAt, DR.OnDevice, DR.Decoded;
    DR.RewardIsExact(l, c, run, n, task.key);
    AnyFlipIsSomeRow(c, run, n);
    var a := task.addr;
    assert a in RunTo(c, run, n).flips ==> DR.KeyAt(l, a) == task.key;
  }

  /** The cell predicate holds just when the requested bit is flipped and the stored bit, without the
      disturbance, has the opposite value: storing the requested value can never meet it. */
  lemma {:induction false} CellSuccessNeedsDisturbance(task: Task, s: State, bytes: Bytes)
    requires task.bit < 8
    ensures TargetCellFlip(task, s, Visible(bytes, s.flips, task.addr)) <==>
      && task.addr in s.flips && s.flips[task.addr] == task.bit
      && HasBit(ByteAt(bytes, task.addr), task.bit) != HasBit(task.value, task.bit)
  {
    hide ToggleBit, BitMask, ByteAt, HasBit, SameUnder;
    BitToggles(ByteAt(bytes, task.addr), task.value, task.bit);
  }

  lemma {:induction false} BitToggles(b: bv8, v: bv8, bit: nat)
    requires bit < 8
    ensures SameUnder(BitMask(bit), ToggleBit(b, bit), v) <==> HasBit(b, bit) != HasBit(v, bit)
  {
    ShiftedOne(bit);
    TogglesOneBit(b, bit, bit);
    SameUnderBit(bit, ToggleBit(b, bit), v);
    hide SameUnder, HasBit, ToggleBit, BitMask;
  }

  lemma {:induction false} SameUnderBit(bit: nat, a: bv8, b: bv8)
    requires bit < 8
    ensures SameUnder(BitMask(bit), a, b) <==> HasBit(a, bit) == HasBit(b, bit)
  {
    ShiftedOne(bit);
  }

  /** The pattern predicate holds just when the target byte has a flipped bit and every bit of the mask then reads
      as requested: the flipped bit was stored as the opposite value, the other masked bits as the value itself. */
  lemma {:induction false} PatternSuccessExactly(task: Task, s: State, bytes: Bytes)
    ensures PatternTarget(task, s, Visible(bytes, s.flips, task.addr)) <==>
      task.addr in s.flips && StoredForPattern(task, ByteAt(bytes, task.addr), s.flips[task.addr])
  {
    hide ByteAt, Visible, StoredForPattern, AgreeUnder, SameUnder;
    if task.addr in s.flips {
      var byte := Visible(bytes, s.flips, task.addr);
      MaskedEqual(byte, task.value, task.mask);
      PatternBits(task, s, bytes);
    }
  }

  /** Every bit of the mask is stored as requested, except that the flipped one is stored as the opposite. */
  ghost predicate StoredForPattern(task: Task, stored: bv8, flipped: nat) {
    forall j: nat :: j < 8 && HasBit(task.mask, j) ==> (HasBit(stored, j) != HasBit(task.value, j) <==> flipped == j)
  }

  ghost predicate AgreeUnder(mask: bv8, a: bv8, b: bv8) {
    forall j: nat :: j < 8 && HasBit(mask, j) ==> HasBit(a, j) == HasBit(b, j)
  }

  lemma {:induction false} PatternBits(task: Task, s: State, bytes: Bytes)
    requires task.addr in s.flips
    ensures AgreeUnder(task.mask, Visible(bytes, s.flips, task.addr), task.value) <==>
      StoredForPattern(task, ByteAt(bytes, task.addr), s.flips[task.addr])
  {
    hide ByteAt, HasBit, Visible;
    var byte, stored := Visible(bytes, s.flips, task.addr), ByteAt(bytes, task.addr);
    forall j: nat | j < 8 ensures HasBit(byte, j) != HasBit(stored, j) <==> s.flips[task.addr] == j {
      VisibleBits(bytes, s.flips, task.addr, j);
    }
    forall j: nat | j < 8
      ensures HasBit(byte, j) == HasBit(task.value, j) <==>
        (HasBit(stored, j) != HasBit(task.value, j) <==> s.flips[task.addr] == j)
    {
    }
  }

  /** Bytes agree under a mask just when they agree at every bit of it. */
  lemma {:induction false} MaskedEqual(a: bv8, b: bv8, mask: bv8)
    ensures SameUnder(mask, a, b) <==> AgreeUnder(mask, a, b)
  {
    MaskedByBits(a, b, mask);
    EachBit(a);
    EachBit(b);
    EachBit(mask);
    AgreeEach(mask, a, b);
    hide HasBit, AgreeUnder, SameUnder;
  }

  lemma {:induction false} AgreeEach(mask: bv8, a: bv8, b: bv8)
    ensures AgreeUnder(mask, a, b) <==>
      && (HasBit(mask, 0) ==> HasBit(a, 0) == HasBit(b, 0)) && (HasBit(mask, 1) ==> HasBit(a, 1) == HasBit(b, 1))
      && (HasBit(mask, 2) ==> HasBit(a, 2) == HasBit(b, 2)) && (HasBit(mask, 3) ==> HasBit(a, 3) == HasBit(b, 3))
      && (HasBit(mask, 4) ==> HasBit(a, 4) == HasBit(b, 4)) && (HasBit(mask, 5) ==> HasBit(a, 5) == HasBit(b, 5))
      && (HasBit(mask, 6) ==> HasBit(a, 6) == HasBit(b, 6)) && (HasBit(mask, 7) ==> HasBit(a, 7) == HasBit(b, 7))
  {
    hide HasBit;
  }

  lemma {:induction false} EachBit(b: bv8)
    ensures HasBit(b, 0) == (b & 0x01 != 0) && HasBit(b, 1) == (b & 0x02 != 0)
    ensures HasBit(b, 2) == (b & 0x04 != 0) && HasBit(b, 3) == (b & 0x08 != 0)
    ensures HasBit(b, 4) == (b & 0x10 != 0) && HasBit(b, 5) == (b & 0x20 != 0)
    ensures HasBit(b, 6) == (b & 0x40 != 0) && HasBit(b, 7) == (b & 0x80 != 0)
  {
  }

  lemma {:induction false} MaskedByBits(a: bv8, b: bv8, m: bv8)
    ensures SameUnder(m, a, b) <==>
      && (m & 0x01 != 0 ==> (a & 0x01 != 0) == (b & 0x01 != 0))
      && (m & 0x02 != 0 ==> (a & 0x02 != 0) == (b & 0x02 != 0))
      && (m & 0x04 != 0 ==> (a & 0x04 != 0) == (b & 0x04 != 0))
      && (m & 0x08 != 0 ==> (a & 0x08 != 0) == (b & 0x08 != 0))
      && (m & 0x10 != 0 ==> (a & 0x10 != 0) == (b & 0x10 != 0))
      && (m & 0x20 != 0 ==> (a & 0x20 != 0) == (b & 0x20 != 0))
      && (m & 0x40 != 0 ==> (a & 0x40 != 0) == (b & 0x40 != 0))
      && (m & 0x80 != 0 ==> (a & 0x80 != 0) == (b & 0x80 != 0))
  {
  }
}
