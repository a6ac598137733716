/** Memory as the policy sees it: the worker's byte store under the flip overlay.

    The worker keeps the bytes that were written and advances its counters; the environment folds the
    commands each request issued into the engine, restores what a write overwrote, and toggles the
    overlay's bits in what a read returns. At any point a readable byte is the last byte written there,
    with one bit toggled exactly when its address is in the overlay; the reward's own reader sees the
    same byte without issuing a command. */
module DisturbedMemories {
  import opened DisturbanceModel
  import opened DisturbanceEngines
  import opened CallHistories
  import opened ErrorCodes
  import FlipLog
  import OV = Overlay
  import DR = DeviceRows
  import HO = HammerOutcome

  type Bytes = map<int, bv8>

  /** How the simulator completes a request: the commands drained from the recorder, or a failure. */
  datatype Sim = Completed(ticks: nat, events: seq<Event>) | Rejected | TimedOut(ticks: nat)

  /** The code of a request that was not completed: a full queue, or a request that never finished. */
  function Failure(sim: Sim): (code: ErrorCode)
    requires !sim.Completed?
  {
    if sim.Rejected? then QueueFull else InternalSimulatorError
  }

  function ByteAt(bytes: Bytes, a: int): bv8 { if a in bytes then bytes[a] else 0 }

  /** The store after `data` has been written at `addr`. */
  function Overwritten(bytes: Bytes, addr: int, data: seq<bv8>): Bytes {
    if data == [] then bytes
    else Overwritten(bytes, addr, data[..|data| - 1])[addr + |data| - 1 := data[|data| - 1]]
  }

  lemma {:induction false} OverwrittenAt(bytes: Bytes, addr: int, data: seq<bv8>, a: int)
    ensures ByteAt(Overwritten(bytes, addr, data), a) ==
      if addr <= a < addr + |data| then data[a - addr] else ByteAt(bytes, a)
  {
    if data != [] { OverwrittenAt(bytes, addr, data[..|data| - 1], a); }
  }

  function CountActs(events: seq<Event>): nat {
    if events == [] then 0 else CountActs(events[..|events| - 1]) + (if events[|events| - 1].op == "ACT" then 1 else 0)
  }

  /** The positions of the activations among drained commands. */
  ghost function ActPositions(events: seq<Event>): set<int> {
    set i | 0 <= i < |events| && events[i].op == "ACT"
  }

  lemma {:induction false} CountActsIsCount(events: seq<Event>)
    ensures CountActs(events) == |ActPositions(events)|
  {
    if events == [] {
      assert ActPositions(events) == {};
    } else {
      var init, last := events[..|events| - 1], |events| - 1;
      CountActsIsCount(init);
      assert forall i :: 0 <= i < last ==> init[i] == events[i];
      if events[last].op == "ACT" {
        assert ActPositions(events) == ActPositions(init) + {last};
      } else {
        assert ActPositions(events) == ActPositions(init);
      }
    }
  }

  // ---- the worker -----------------------------------------------------------------------------------------

  class Worker {
    const capacity: nat
    const txBytes: nat
    var bytes: Bytes
    var cycle: nat
    var readCount: nat
    var writeCount: nat
    var acts: nat

    constructor (cap: nat, tx: nat)
      ensures capacity == cap && txBytes == tx && bytes == map[]
      ensures cycle == 0 && readCount == 0 && writeCount == 0 && acts == 0
    {
      capacity, txBytes := cap, tx;
      bytes, cycle, readCount, writeCount, acts := map[], 0, 0, 0, 0;
    }

    /** The whole range lies inside the device; an unpublished geometry disables the check. */
    predicate InDomain(addr: nat, len: nat) { capacity == 0 || addr + len <= capacity }

    predicate Admits(addr: nat, len: nat) { 0 < len <= txBytes && InDomain(addr, len) }

    /** Count the drained activations, one by one. */
    method Drain(events: seq<Event>)
      modifies this`acts
      ensures acts == old(acts) + CountActs(events)
    {
      for i := 0 to |events|
        invariant acts == old(acts) + CountActs(events[..i])
      {
        assert events[..i + 1][..i] == events[..i];
        if events[i].op == "ACT" { acts := acts + 1; }
      }
      assert events[..|events|] == events;
    }

    method Complete(sim: Sim) returns (r: Result<seq<Event>>)
      modifies this`cycle
      ensures r == if sim.Completed? then Ok(sim.events) else Err(Failure(sim))
      ensures cycle == old(cycle) + (if sim.Rejected? then 0 else sim.ticks)
    {
      match sim {
        case Completed(ticks, events) => cycle := cycle + ticks; r := Ok(events);
        case Rejected => r := Err(QueueFull);
        case TimedOut(ticks) => cycle := cycle + ticks; r := Err(InternalSimulatorError);
      }
    }

    method Load(addr: nat, len: nat) returns (data: seq<bv8>)
      ensures |data| == len && forall i :: 0 <= i < len ==> data[i] == ByteAt(bytes, addr + i)
    {
      data := [];
      for i := 0 to len
        invariant |data| == i && forall k :: 0 <= k < i ==> data[k] == ByteAt(bytes, addr + k)
      {
        data := data + [ByteAt(bytes, addr + i)];
      }
    }

    method Read(addr: nat, len: nat, sim: Sim) returns (r: Result<seq<bv8>>)
      modifies this`cycle, this`readCount, this`acts
      ensures r.Ok? <==> 0 < len <= txBytes && (capacity == 0 || addr + len <= capacity) && sim.Completed?
      ensures r.Err? ==> r.code == (if !Admits(addr, len) then BadSchema else Failure(sim))
      ensures cycle == old(cycle) + (if Admits(addr, len) && !sim.Rejected? then sim.ticks else 0)
      ensures r.Ok? ==> |r.value| == len && forall i :: 0 <= i < len ==> r.value[i] == ByteAt(bytes, addr + i)
      ensures readCount == old(readCount) + (if r.Ok? then 1 else 0)
      ensures acts == old(acts) + (if r.Ok? then CountActs(sim.events) else 0)
    {
      if !Admits(addr, len) { return Err(BadSchema); }
      var done := Complete(sim);
      if done.Err? { return Err(done.code); }
      readCount := readCount + 1;
      Drain(done.value);
      var data := Load(addr, len);
      r := Ok(data);
    }

    /** The trusted form: one stored byte, no request, no tick, no counter. */
    method ReadStored(addr: nat, len: nat) returns (r: Result<seq<bv8>>)
      ensures r == if len == 1 <= txBytes && (capacity == 0 || addr < capacity) then Ok([ByteAt(bytes, addr)])
                   else Err(BadSchema)
    {
      if !Admits(addr, len) || len != 1 { return Err(BadSchema); }
      var data := Load(addr, len);
      assert data == [ByteAt(bytes, addr)];
      r := Ok(data);
    }

    method Write(addr: nat, data: seq<bv8>, sim: Sim) returns (r: Result<seq<Event>>)
      modifies this`cycle, this`writeCount, this`acts, this`bytes
      ensures r.Ok? <==> 0 < |data| <= txBytes && (capacity == 0 || addr + |data| <= capacity) && sim.Completed?
      ensures r.Ok? ==> r.value == sim.events
      ensures r.Err? ==> r.code == (if !Admits(addr, |data|) then BadSchema else Failure(sim))
      ensures cycle == old(cycle) + (if Admits(addr, |data|) && !sim.Rejected? then sim.ticks else 0)
      ensures bytes == if r.Ok? then Overwritten(old(bytes), addr, data) else old(bytes)
      ensures writeCount == old(writeCount) + (if r.Ok? then 1 else 0)
      ensures acts == old(acts) + (if r.Ok? then CountActs(sim.events) else 0)
    {
      if !Admits(addr, |data|) { return Err(BadSchema); }
      var done := Complete(sim);
      if done.Err? { return Err(done.code); }
      for i := 0 to |data|
        invariant bytes == Overwritten(old(bytes), addr, data[..i])
        invariant writeCount == old(writeCount) && acts == old(acts) && cycle == old(cycle) + sim.ticks
      {
        assert data[..i + 1][..i] == data[..i];
        bytes := bytes[addr + i := data[i]];
      }
      assert data[..|data|] == data;
      writeCount := writeCount + 1;
      Drain(done.value);
      r := Ok(done.value);
    }

    /** Let cycles pass; what is drained is counted like any other command. */
    method Wait(cycles: nat, events: seq<Event>)
      modifies this`cycle, this`acts
      ensures cycle == old(cycle) + cycles && acts == old(acts) + CountActs(events)
    {
      for i := 0 to cycles
        invariant cycle == old(cycle) + i && acts == old(acts)
      {
        cycle := cycle + 1;
      }
      Drain(events);
    }
  }

  // ---- the environment's view -----------------------------------------------------------------------------

  /** What the policy sees at one address. */
  function Visible(bytes: Bytes, flips: map<int, nat>, a: int): bv8 {
    if a in flips then ToggleBit(ByteAt(bytes, a), flips[a]) else ByteAt(bytes, a)
  }

  function AsInts(data: seq<bv8>): (r: seq<int>)
    ensures |r| == |data| && forall i :: 0 <= i < |r| ==> r[i] == data[i] as int
  {
    seq(|data|, i requires 0 <= i < |data| => data[i] as int)
  }

  predicate IsWrite(e: Event) { e.op == "WR" }

  /** The rows of the write commands among the drained ones. */
  function WriteRows(events: seq<Event>): seq<Key> {
    if events == [] then []
    else
      var e := events[|events| - 1];
      WriteRows(events[..|events| - 1]) + (if IsWrite(e) then [Key(e.bank, e.row)] else [])
  }

  predicate OneWrite(events: seq<Event>) { |WriteRows(events)| == 1 && WriteRows(events)[0].row >= 0 }

  /** Command `i` is the only write, and its row was decoded. */
  ghost predicate SoleWrite(events: seq<Event>, i: int) {
    && 0 <= i < |events| && events[i].op == "WR" && events[i].row >= 0
    && forall j :: 0 <= j < |events| && j != i ==> events[j].op != "WR"
  }

  lemma {:induction false} SoleUnfolds(events: seq<Event>, i: int)
    ensures SoleWrite(events, i) <==>
      && 0 <= i < |events| && IsWrite(events[i]) && events[i].row >= 0
      && forall j :: 0 <= j < |events| && j != i ==> !IsWrite(events[j])
  {
  }

  lemma {:induction false} NoWriteRows(events: seq<Event>)
    ensures WriteRows(events) == [] <==> forall j :: 0 <= j < |events| ==> !IsWrite(events[j])
  {
    hide IsWrite;
    if events != [] {
      var init := events[..|events| - 1];
      NoWriteRows(init);
      assert forall j :: 0 <= j < |init| ==> init[j] == events[j];
    }
  }

  /** A write after the commands before it is the only one when they hold none. */
  lemma {:induction false} SoleLast(events: seq<Event>, i: int)
    requires events != [] && IsWrite(events[|events| - 1])
    ensures SoleWrite(events, i) <==> i == |events| - 1 && OneWrite(events)
    ensures OneWrite(events) ==> WriteRows(events) == [Key(events[|events| - 1].bank, events[|events| - 1].row)]
  {
    hide IsWrite, SoleWrite;
    var init := events[..|events| - 1];
    NoWriteRows(init);
    SoleUnfolds(events, i);
    assert forall j :: 0 <= j < |init| ==> init[j] == events[j];
  }

  lemma {:induction false} SoleBefore(events: seq<Event>, i: int)
    requires events != [] && !IsWrite(events[|events| - 1])
    ensures SoleWrite(events, i) <==> SoleWrite(events[..|events| - 1], i)
    ensures SoleWrite(events, i) ==> 0 <= i < |events| - 1
    ensures WriteRows(events) == WriteRows(events[..|events| - 1])
  {
    hide IsWrite, SoleWrite;
    var init := events[..|events| - 1];
    SoleUnfolds(events, i);
    SoleUnfolds(init, i);
    assert forall j :: 0 <= j < |init| ==> init[j] == events[j];
  }

  /** A reply counts as one write exactly when a single command is a write and its row is known; the row noted is
      the one that this command decoded to. */
  lemma {:induction false} OneWriteIsSole(events: seq<Event>)
    ensures OneWrite(events) <==> exists i :: SoleWrite(events, i)
    ensures forall i :: SoleWrite(events, i) ==>
      0 <= i < |events| && WriteRows(events) == [Key(events[i].bank, events[i].row)]
  {
    hide IsWrite, SoleWrite;
    if events == [] {
      forall i ensures !SoleWrite(events, i) { SoleUnfolds(events, i); }
    } else {
      var last := |events| - 1;
      if IsWrite(events[last]) {
        forall i ensures SoleWrite(events, i) <==> i == last && OneWrite(events) { SoleLast(events, i); }
        SoleLast(events, last);
      } else {
        var init := events[..last];
        OneWriteIsSole(init);
        forall i ensures (SoleWrite(events, i) <==> SoleWrite(init, i)) && (SoleWrite(events, i) ==> 0 <= i < last) {
          SoleBefore(events, i);
        }
        SoleBefore(events, 0);
        assert forall i :: 0 <= i < last ==> init[i] == events[i];
      }
    }
  }

  /** The engine call of a write: the row's pattern is noted, the commands folded, the range restored. */
  function WriteCall(events: seq<Event>, row: Key, addr: nat, data: seq<bv8>): Call {
    Call(Note(row, AsInts(data)), events, WriteRequest(addr, |data|))
  }

  class DisturbedMemory {
    const worker: Worker
    const engine: DisturbanceEngine

    constructor (w: Worker, e: DisturbanceEngine)
      ensures worker == w && engine == e
    {
      worker, engine := w, e;
    }

    /** A policy read: the worker's bytes after the commands it issued, disturbed. */
    method Read(addr: nat, len: nat, sim: Sim) returns (r: Result<seq<bv8>>, newFlips: nat)
      modifies worker, engine
      ensures worker.bytes == old(worker.bytes)
      ensures r.Ok? <==> worker.Admits(addr, len) && sim.Completed?
      ensures r.Err? ==> r.code == (if !worker.Admits(addr, len) then BadSchema else Failure(sim))
      ensures worker.acts == old(worker.acts) + (if r.Ok? then CountActs(sim.events) else 0)
      ensures r.Ok? ==>
        && engine.Dicts() == CallStep(engine.c, old(engine.Dicts()), Call(NoNote, sim.events, OtherRequest))
        && newFlips == Folded(engine.c, old(engine.Dicts()), Call(NoNote, sim.events, OtherRequest)).newFlips
      ensures r.Ok? ==> |r.value| == len && forall i :: 0 <= i < len ==>
        r.value[i] == Visible(worker.bytes, engine.flips, addr + i)
      ensures r.Err? ==> engine.Dicts() == old(engine.Dicts())
    {
      newFlips := 0;
      var raw := worker.Read(addr, len, sim);
      if raw.Err? { return raw, 0; }
      newFlips := Fold(sim.events);
      var data := engine.Apply(addr, raw.value);
      r := Ok(data);
    }

    /** Fold drained commands that came with no write. */
    method Fold(events: seq<Event>) returns (newFlips: nat)
      modifies engine
      ensures engine.Dicts() == CallStep(engine.c, old(engine.Dicts()), Call(NoNote, events, OtherRequest))
      ensures newFlips == Folded(engine.c, old(engine.Dicts()), Call(NoNote, events, OtherRequest)).newFlips
    {
      var result := engine.Consume(events, OtherRequest);
      ghost var seen := engine.View(result);
      assert engine.Dicts() == Forget(seen);
      newFlips := result.newFlips;
    }

    /** Time passes; its commands are folded. */
    method Wait(cycles: nat, events: seq<Event>) returns (newFlips: nat)
      modifies worker, engine
      ensures worker.bytes == old(worker.bytes) && worker.cycle == old(worker.cycle) + cycles
      ensures worker.acts == old(worker.acts) + CountActs(events)
      ensures engine.Dicts() == CallStep(engine.c, old(engine.Dicts()), Call(NoNote, events, OtherRequest))
      ensures newFlips == Folded(engine.c, old(engine.Dicts()), Call(NoNote, events, OtherRequest)).newFlips
    {
      worker.Wait(cycles, events);
      newFlips := Fold(events);
    }

    /** A policy write: the pattern is noted for the row the write command decoded to, the commands are
        folded, and then the overwritten cells are restored. A completed write whose row is not known has changed
        the store and nothing else. */
    method Write(addr: nat, data: seq<bv8>, sim: Sim) returns (r: Result<()>, newFlips: nat)
      modifies worker, engine
      ensures var stored := worker.Admits(addr, |data|) && sim.Completed?;
        && (r.Ok? <==> stored && exists i :: SoleWrite(sim.events, i))
        && (r.Err? ==> r.code == if !worker.Admits(addr, |data|) then BadSchema
                                 else if sim.Completed? then InternalSimulatorError else Failure(sim))
        && worker.bytes == (if stored then Overwritten(old(worker.bytes), addr, data) else old(worker.bytes))
        && worker.acts == old(worker.acts) + (if stored then CountActs(sim.events) else 0)
      ensures r.Err? ==> engine.Dicts() == old(engine.Dicts())
      ensures r.Ok? ==> forall i :: SoleWrite(sim.events, i) ==>
        var call := WriteCall(sim.events, Key(sim.events[i].bank, sim.events[i].row), addr, data);
        && engine.Dicts() == CallStep(engine.c, old(engine.Dicts()), call)
        && newFlips == Folded(engine.c, old(engine.Dicts()), call).newFlips
      ensures r.Ok? ==> forall i :: 0 <= i < |data| ==> Visible(worker.bytes, engine.flips, addr + i) == data[i]
    {
      newFlips := 0;
      var issued := worker.Write(addr, data, sim);
      if issued.Err? { return Err(issued.code), 0; }
      var rows := WriteRows(issued.value);
      OneWriteIsSole(issued.value);
      if !(|rows| == 1 && rows[0].row >= 0) { return Err(InternalSimulatorError), 0; }
      newFlips := NoteAndFold(rows[0], issued.value, addr, data);
      r := Ok(());
      forall i | 0 <= i < |data| ensures Visible(worker.bytes, engine.flips, addr + i) == data[i] {
        OverwrittenAt(old(worker.bytes), addr, data, addr + i);
        assert addr + i !in engine.flips;
      }
    }

    /** The engine's part of a write. */
    method NoteAndFold(row: Key, events: seq<Event>, addr: nat, data: seq<bv8>) returns (newFlips: nat)
      modifies engine
      ensures engine.Dicts() == CallStep(engine.c, old(engine.Dicts()), WriteCall(events, row, addr, data))
      ensures newFlips == Folded(engine.c, old(engine.Dicts()), WriteCall(events, row, addr, data)).newFlips
      ensures forall a :: addr <= a < addr + |data| ==> a !in engine.flips
    {
      var scratch := new DisturbanceResult();
      engine.NoteRowWrite(row, AsInts(data), scratch);
      ghost var noted := engine.Dicts();
      assert noted == engine.View(scratch);
      var result := engine.Consume(events, WriteRequest(addr, |data|));
      assert engine.Dicts() == Forget(engine.View(result));
      newFlips := result.newFlips;
      WrittenReadsBack(engine.c, noted, events, addr, |data|);
    }

    /** The reward's reader: the very byte a policy read would return now, and nothing changes. */
    method TrustedReadByte(addr: nat) returns (r: Result<bv8>)
      ensures r == if worker.txBytes >= 1 && (worker.capacity == 0 || addr < worker.capacity)
                   then Ok(Visible(worker.bytes, engine.flips, addr)) else Err(BadSchema)
    {
      var stored := worker.ReadStored(addr, 1);
      if stored.Err? { return Err(stored.code); }
      var seen := engine.Apply(addr, stored.value);
      r := Ok(seen[0]);
    }
  }

  /** A consumed write leaves none of its bytes in the overlay. */
  lemma {:induction false} WrittenReadsBack(c: Config, s: State, events: seq<Event>, addr: int, size: nat)
    ensures forall a :: addr <= a < addr + size ==> a !in Consumed(c, s, events, WriteRequest(addr, size)).flips
  {
    hide ConsumeEvents, Restore;
    FlipLog.RestoreRemoves(ConsumeEvents(c, s, events), addr, size);
  }

  // ---- histories ------------------------------------------------------------------------------------------

  /** A successful request: a read, or a write of `data`; each with the engine call it makes. */
  datatype Access = Access(call: Call, addr: int, data: seq<bv8>)

  function Calls(hist: seq<Access>): (r: seq<Call>)
    ensures |r| == |hist| && forall i :: 0 <= i < |r| ==> r[i] == hist[i].call
  {
    seq(|hist|, i requires 0 <= i < |hist| => hist[i].call)
  }

  function StoreTo(hist: seq<Access>, n: nat): Bytes
    requires n <= |hist|
  {
    if n == 0 then map[] else Overwritten(StoreTo(hist, n - 1), hist[n - 1].addr, hist[n - 1].data)
  }

  /** The byte written last at `a` among the first `n` accesses; 0 if there is none. */
  function LastWritten(hist: seq<Access>, n: nat, a: int): bv8
    requires n <= |hist|
  {
    if n == 0 then 0
    else if hist[n - 1].addr <= a < hist[n - 1].addr + |hist[n - 1].data| then hist[n - 1].data[a - hist[n - 1].addr]
    else LastWritten(hist, n - 1, a)
  }

  lemma {:induction false} StoreIsLastWritten(hist: seq<Access>, n: nat, a: int)
    requires n <= |hist|
    ensures ByteAt(StoreTo(hist, n), a) == LastWritten(hist, n, a)
  {
    if n > 0 {
      StoreIsLastWritten(hist, n - 1, a);
      OverwrittenAt(StoreTo(hist, n - 1), hist[n - 1].addr, hist[n - 1].data, a);
    }
  }

  /** All activations of the history carry coordinates of the device. */
  ghost predicate OnlyDecoded(l: DR.Device, hist: seq<Access>, n: nat)
    requires n <= |hist|
  {
    forall i :: 0 <= i < |Spelled(Calls(hist), n)| ==> DR.Decoded(l, Spelled(Calls(hist), n)[i])
  }

  lemma {:induction false} ToggleChanges(b: bv8, bit: nat)
    requires bit < 8
    ensures ToggleBit(b, bit) != b && ToggleBit(ToggleBit(b, bit), bit) == b
  {
    ShiftedOne(bit);
  }

  /** Every overlay bit is a bit of a byte. */
  lemma {:induction false} FlippedBits(l: DR.Device, c: Config, run: seq<Action>, n: nat, a: int)
    requires DR.OnDevice(l, c) && n <= |run| && forall i :: 0 <= i < n ==> DR.Decoded(l, run[i])
    requires a in RunTo(c, run, n).flips
    ensures RunTo(c, run, n).flips[a] < 8
  {
    hide RunTo, DR.OnDevice, DR.InDevice, OV.Window, DR.Decoded;
    var s := RunTo(c, run, n);
    OV.RunSound(c, run, n);
    assert OV.OwnerHolds(c, s, a);
    var o := s.owners[a];
    assert OV.Latent(c, o.key, s.victims[o.key]);
    HO.VictimsAreNeighbours(c, run, n, o.key);
    var i :| 0 <= i < n && HO.Exposes(c, run[i], o.key);
    assert DR.Decoded(l, run[i]);
    WindowBits(l, c, run[i], o.key, o.cell);
  }

  lemma {:induction false} WindowBits(l: DR.Device, c: Config, a: Action, k: Key, x: Cell)
    requires DR.OnDevice(l, c) && DR.Decoded(l, a) && HO.Exposes(c, a, k) && c.RowExists(k.row) && x in OV.Window(c, k)
    ensures x.bit < 8
  {
    hide DR.KeyAt, DR.Anchor;
    DR.RowOfBank(l, c, k, x);
    assert DR.CellsInRow(l, c, k);
    assert x in c.cells(k, c.FirstBit(k));
  }

  lemma {:induction false} VisibleBits(bytes: Bytes, flips: map<int, nat>, a: int, j: nat)
    requires j < 8
    ensures HasBit(Visible(bytes, flips, a), j) != HasBit(ByteAt(bytes, a), j) <==> a in flips && flips[a] == j
  {
    hide ToggleBit, HasBit, ByteAt;
    if a in flips { TogglesOneBit(ByteAt(bytes, a), flips[a], j); }
  }

  /** At any point of any history, what is readable at `a` is the byte written there last, except that the bit which
      the overlay holds at `a` is the opposite one; and what the overlay holds is a bit of the byte. */
  lemma {:induction false} ReadableByte(l: DR.Device, c: Config, hist: seq<Access>, n: nat, a: int)
    requires DR.OnDevice(l, c) && n <= |hist| && OnlyDecoded(l, hist, n)
    ensures var seen := Visible(StoreTo(hist, n), CallsTo(c, Calls(hist), n).flips, a);
      var flips := Run(c, Spelled(Calls(hist), n)).flips;
      && (seen != LastWritten(hist, n, a) <==> a in flips) && (a in flips ==> flips[a] < 8)
      && forall j: nat :: j < 8 ==>
           (HasBit(seen, j) != HasBit(LastWritten(hist, n, a), j) <==> a in flips && flips[a] == j)
  {
    hide RunTo, DR.OnDevice, DR.Decoded, CallsTo, ToggleBit, HasBit;
    StoreIsLastWritten(hist, n, a);
    CallsAreRun(c, Calls(hist), n);
    var run := Spelled(Calls(hist), n);
    forall j: nat | j < 8
      ensures var seen := Visible(StoreTo(hist, n), CallsTo(c, Calls(hist), n).flips, a);
        HasBit(seen, j) != HasBit(LastWritten(hist, n, a), j) <==>
          (a in Run(c, run).flips && Run(c, run).flips[a] == j)
    {
      VisibleBits(StoreTo(hist, n), CallsTo(c, Calls(hist), n).flips, a, j);
    }
    if a in Run(c, run).flips {
      FlippedBits(l, c, run, |run|, a);
      ToggleChanges(LastWritten(hist, n, a), Run(c, run).flips[a]);
    }
  }
}
