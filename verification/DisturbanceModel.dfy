/** The read-disturbance engine as a transition function over issued DRAM commands.

    A state holds, per decoded row, the activations it has been exposed to, and an overlay of flipped
    cells with its reverse index; plus the open row of every bank, the refresh count of every rank and
    the activation counters of the oracle mitigation.

    Each function here is what one method of `DisturbanceEngine` does to the state; the engine's methods
    are proved against these functions in `DisturbanceEngine.dfy`, and the theorems about runs are
    stated about them. Thresholds, first bits, cell sequences and row addresses come from functions of
    the configuration. */
module DisturbanceModel {

  type Positive = n: int | n >= 1 witness 1
  type Weight = w: real | w > 0.0 witness 1.0
  type Gain = g: real | g >= 1.0 witness 1.0

  datatype Option<+T> = None | Some(value: T)

  datatype BankKey = BankKey(channel: int, rank: int, bankgroup: int, bank: int)
  datatype Key = Key(bank: BankKey, row: int)
  datatype Cell = Cell(off: nat, bit: nat)
  datatype Pattern = AllZeros | AllOnes | Mixed
  datatype Ring = Ring(distance: Positive, weight: Weight)

  /** An issued command with its decoded coordinates; -1 stands for "every node" in a close scope. */
  datatype Event = Event(op: string, clk: int, bank: BankKey, row: int)

  datatype Class = Hammer | Close | Refresh | Inert | Unclassified

  predicate StartsWith(s: string, prefix: string) {
    |s| >= |prefix| && s[..|prefix|] == prefix
  }

  function Classify(op: string): Class {
    if op == "ACT" then Hammer
    else if StartsWith(op, "PRE") || op == "RDA" || op == "WRA" then Close
    else if StartsWith(op, "REF") || StartsWith(op, "RFM") then Refresh
    else if op == "RD" || op == "WR" || op == "VRR" then Inert
    else Unclassified
  }

  const DWELL_NOMINAL := 512
  const DWELL_SATURATION := 100_000
  const MAX_BITS := 64

  /** What the engine is constructed with. `cells` is the deterministic cell sequence of a row, given
      its first bit; `sample` draws a threshold (double-sided?, all-ones pattern?). */
  datatype Config = Config(
    rowCount: int,
    blast: seq<Ring>,
    refreshWindow: Positive,
    oracle: bool,
    tRH: int,
    encoder: Key -> int,
    knownKey: Key,
    knownThreshold: Positive,
    knownSingle: Positive,
    knownFirstBit: nat,
    sample: (Key, bool, bool) -> Positive,
    sampleFirstBit: Key -> nat,
    gain: (bool, bool) -> Option<Gain>,
    cells: (Key, nat) -> seq<Cell>,
    rowPress: Option<real>)
  {
    predicate RowExists(row: int) { 0 <= row < rowCount }

    function Threshold(k: Key, double: bool, ones: bool): Positive {
      if k == knownKey then (if double then knownThreshold else knownSingle) else sample(k, double, ones)
    }

    function FirstBit(k: Key): nat {
      if k == knownKey then knownFirstBit else sampleFirstBit(k)
    }

    /** Effective hammers of an activation held open `dwell` cycles. */
    function Factor(dwell: int): real {
      if dwell <= DWELL_NOMINAL then 1.0
      else match rowPress
        case None => 1.0
        case Some(reduction) =>
          var frac := (dwell - DWELL_NOMINAL) as real / (DWELL_SATURATION - DWELL_NOMINAL) as real;
          1.0 + (reduction - 1.0) * (if frac < 1.0 then frac else 1.0)
    }
  }

  datatype Victim = Victim(
    threshold: Positive, single: Positive, ones: bool, addr: int, firstBit: nat,
    left: real, right: real, bonus: real, cells: set<Cell>)

  datatype Owner = Owner(key: Key, cell: Cell)
  datatype OpenRow = OpenRow(bank: BankKey, row: int, clk: int, credited: seq<Key>)
  datatype PublicFlip = PublicFlip(row: int, addr: int, bit: nat, ones: bool)

  /** The engine's dictionaries (`open` in insertion order) and the result being accumulated. */
  datatype State = State(
    victims: map<Key, Victim>,
    flips: map<int, nat>,
    owners: map<int, Owner>,
    flippedKeys: set<Key>,
    patterns: map<Key, Pattern>,
    oracleActs: map<Key, int>,
    open: seq<OpenRow>,
    refreshes: map<(int, int), int>,
    newFlips: nat,
    oracleRefreshes: nat,
    publicFlips: seq<PublicFlip>)

  const INITIAL := State(map[], map[], map[], {}, map[], map[], [], map[], 0, 0, [])

  // ---- flips -------------------------------------------------------------------------------------

  function FreshVictim(c: Config, s: State, k: Key): Victim {
    var ones := k in s.patterns && s.patterns[k] == AllOnes;
    Victim(c.Threshold(k, true, ones), c.Threshold(k, false, ones), ones, c.encoder(k), c.FirstBit(k),
           0.0, 0.0, 0.0, {})
  }

  function WithVictim(c: Config, s: State, k: Key): (s': State)
    ensures k in s'.victims
  {
    if k in s.victims then s else s.(victims := s.victims[k := FreshVictim(c, s, k)])
  }

  /** Insert a cell into an overlay list: a dictionary keyed by byte offset, in insertion order. */
  function PutCell(os: seq<Cell>, cell: Cell): seq<Cell> {
    if os == [] then [cell]
    else if os[0].off == cell.off then [cell] + os[1..]
    else [os[0]] + PutCell(os[1..], cell)
  }

  function OverlayCells(cs: seq<Cell>): seq<Cell> {
    if cs == [] then [] else PutCell(OverlayCells(cs[..|cs| - 1]), cs[|cs| - 1])
  }

  function Without(cs: seq<Cell>, active: set<Cell>): seq<Cell> {
    if cs == [] then []
    else if cs[0] in active then Without(cs[1..], active)
    else [cs[0]] + Without(cs[1..], active)
  }

  function Take<T>(s: seq<T>, n: nat): seq<T> {
    if n <= |s| then s[..n] else s
  }

  /** The cells a flip of `n` bits emits: those of the first `n` that are not active yet. */
  function FlipPositions(c: Config, k: Key, v: Victim, n: nat): seq<Cell> {
    Without(OverlayCells(Take(c.cells(k, v.firstBit), n)), v.cells)
  }

  predicate DoubleSided(v: Victim) { v.left > 0.0 && v.right > 0.0 }

  function Min(a: real, b: real): (m: real)
    ensures m <= a && m <= b && (m == a || m == b)
  {
    if a <= b then a else b
  }

  function Max(a: real, b: real): (m: real)
    ensures m >= a && m >= b && (m == a || m == b)
  {
    if a >= b then a else b
  }

  function Exposure(v: Victim): real {
    if DoubleSided(v) then Min(v.left, v.right) * 2.0 + v.bonus else Max(v.left, v.right) + v.bonus
  }

  function ActiveThreshold(v: Victim): Positive {
    if DoubleSided(v) then v.threshold else v.single
  }

  function MultiplicityBits(c: Config, v: Victim, ratio: real): (n: nat)
    ensures 1 <= n <= MAX_BITS
  {
    match c.gain(DoubleSided(v), v.ones)
    case None => 1
    case Some(g) =>
      var extra := (Max(0.0, ratio - 1.0) * g).Floor;
      if 1 + extra < MAX_BITS then 1 + extra else MAX_BITS
  }

  /** Take a cell away from a victim, dropping its key from the index when no cell is left. */
  function Release(s: State, owner: Owner): (s': State)
    ensures s'.victims.Keys == s.victims.Keys
  {
    if owner.key !in s.victims then s
    else
      var v := s.victims[owner.key];
      var rest := v.cells - {owner.cell};
      s.(victims := s.victims[owner.key := v.(cells := rest)],
         flippedKeys := if rest == {} then s.flippedKeys - {owner.key} else s.flippedKeys)
  }

  function Emit(s: State, k: Key, cell: Cell): (s': State)
    requires k in s.victims
    ensures s'.victims.Keys == s.victims.Keys
  {
    var a := s.victims[k].addr + cell.off;
    var t := if a in s.owners && s.owners[a] != Owner(k, cell) then Release(s, s.owners[a]) else s;
    var v := t.victims[k];
    t.(victims := t.victims[k := v.(cells := v.cells + {cell})],
       flips := t.flips[a := cell.bit],
       owners := t.owners[a := Owner(k, cell)],
       newFlips := t.newFlips + 1,
       publicFlips := t.publicFlips + [PublicFlip(k.row, a, cell.bit, v.ones)])
  }

  function EmitAll(s: State, k: Key, cells: seq<Cell>): (s': State)
    requires k in s.victims
    ensures s'.victims.Keys == s.victims.Keys
    decreases |cells|
  {
    if cells == [] then s else EmitAll(Emit(s, k, cells[0]), k, cells[1..])
  }

  function Flip(c: Config, s: State, k: Key, ratio: real): (s': State)
    requires k in s.victims
    ensures s'.victims.Keys == s.victims.Keys
  {
    var v := s.victims[k];
    var t := EmitAll(s, k, FlipPositions(c, k, v, MultiplicityBits(c, v, ratio)));
    if t.victims[k].cells != {} then t.(flippedKeys := t.flippedKeys + {k}) else t
  }

  predicate Crosses(v: Victim) {
    |v.cells| < MAX_BITS && Exposure(v) >= ActiveThreshold(v) as real
  }

  function MaybeFlip(c: Config, s: State, k: Key): (s': State)
    requires k in s.victims
    ensures s'.victims.Keys == s.victims.Keys
  {
    var v := s.victims[k];
    if Crosses(v) then Flip(c, s, k, Exposure(v) / ActiveThreshold(v) as real) else s
  }

  // ---- exposure ----------------------------------------------------------------------------------

  /** One neighbour exposed by an activation; `left` says the aggressor lies on its left. */
  datatype Hit = Hit(key: Key, left: bool, weight: Weight)

  /** The neighbours at one blast distance: the row below first, then the row above. */
  function RingHits(c: Config, bank: BankKey, row: int, ring: Ring): seq<Hit> {
    var d, w := ring.distance, ring.weight;
    (if c.RowExists(row - d) then [Hit(Key(bank, row - d), false, w)] else [])
    + (if c.RowExists(row + d) then [Hit(Key(bank, row + d), true, w)] else [])
  }

  function Hits(c: Config, bank: BankKey, row: int, rings: seq<Ring>): seq<Hit> {
    if rings == [] then [] else RingHits(c, bank, row, rings[0]) + Hits(c, bank, row, rings[1..])
  }

  function Keys(hits: seq<Hit>): (ks: seq<Key>)
    ensures |ks| == |hits| && forall i :: 0 <= i < |ks| ==> ks[i] == hits[i].key
  {
    seq(|hits|, i requires 0 <= i < |hits| => hits[i].key)
  }

  function AddExposure(v: Victim, left: bool, w: real): Victim {
    if left then v.(left := v.left + w) else v.(right := v.right + w)
  }

  function Credit(c: Config, s: State, h: Hit): (s': State)
    ensures s'.victims.Keys == s.victims.Keys + {h.key}
  {
    var t := WithVictim(c, s, h.key);
    MaybeFlip(c, t.(victims := t.victims[h.key := AddExposure(t.victims[h.key], h.left, h.weight)]), h.key)
  }

  function CreditAll(c: Config, s: State, hits: seq<Hit>): State
    decreases |hits|
  {
    if hits == [] then s else CreditAll(c, Credit(c, s, hits[0]), hits[1..])
  }

  lemma {:induction false} CreditAllAppend(c: Config, s: State, hs: seq<Hit>, more: seq<Hit>)
    ensures CreditAll(c, s, hs + more) == CreditAll(c, CreditAll(c, s, hs), more)
    decreases |hs|
  {
    hide Credit;
    if hs == [] {
      assert hs + more == more;
    } else {
      assert (hs + more)[1..] == hs[1..] + more;
      CreditAllAppend(c, Credit(c, s, hs[0]), hs[1..], more);
    }
  }

  // ---- open rows -----------------------------------------------------------------------------------

  predicate IsOpen(open: seq<OpenRow>, bank: BankKey) {
    open != [] && (open[0].bank == bank || IsOpen(open[1..], bank))
  }

  function Entry(open: seq<OpenRow>, bank: BankKey): OpenRow
    requires IsOpen(open, bank)
  {
    if open[0].bank == bank then open[0] else Entry(open[1..], bank)
  }

  function Remove(open: seq<OpenRow>, bank: BankKey): seq<OpenRow> {
    if open == [] then []
    else if open[0].bank == bank then open[1..]
    else [open[0]] + Remove(open[1..], bank)
  }

  function Put(open: seq<OpenRow>, entry: OpenRow): seq<OpenRow> {
    if open == [] then [entry]
    else if open[0].bank == entry.bank then [entry] + open[1..]
    else [open[0]] + Put(open[1..], entry)
  }

  function AddBonus(c: Config, s: State, k: Key, extra: real): State {
    if k !in s.victims || |s.victims[k].cells| >= MAX_BITS then s
    else
      var v := s.victims[k];
      MaybeFlip(c, s.(victims := s.victims[k := v.(bonus := v.bonus + extra)]), k)
  }

  function AddBonusAll(c: Config, s: State, ks: seq<Key>, extra: real): State
    decreases |ks|
  {
    if ks == [] then s else AddBonusAll(c, AddBonus(c, s, ks[0], extra), ks[1..], extra)
  }

  function Settle(c: Config, s: State, bank: BankKey, clk: int): State
    requires IsOpen(s.open, bank)
  {
    var e := Entry(s.open, bank);
    var t := s.(open := Remove(s.open, bank));
    var factor := c.Factor(clk - e.clk);
    if factor <= 1.0 then t else AddBonusAll(c, t, e.credited, factor - 1.0)
  }

  predicate InScope(scope: BankKey, bank: BankKey) {
    && (scope.channel < 0 || scope.channel == bank.channel)
    && (scope.rank < 0 || scope.rank == bank.rank)
    && (scope.bankgroup < 0 || scope.bankgroup == bank.bankgroup)
    && (scope.bank < 0 || scope.bank == bank.bank)
  }

  function ClosedBanks(open: seq<OpenRow>, scope: BankKey): seq<BankKey> {
    if open == [] then []
    else if InScope(scope, open[0].bank) then [open[0].bank] + ClosedBanks(open[1..], scope)
    else ClosedBanks(open[1..], scope)
  }

  /** A listed bank that is no longer open is passed over; `ClosedBanks` never lists one twice. */
  function SettleAll(c: Config, s: State, banks: seq<BankKey>, clk: int): State
    decreases |banks|
  {
    if banks == [] then s
    else SettleAll(c, if IsOpen(s.open, banks[0]) then Settle(c, s, banks[0], clk) else s, banks[1..], clk)
  }

  // ---- refresh and the oracle ---------------------------------------------------------------------

  function Cleared(v: Victim): Victim {
    v.(left := 0.0, right := 0.0, bonus := 0.0)
  }

  predicate InRank(k: Key, bank: BankKey) {
    k.bank.channel == bank.channel && k.bank.rank == bank.rank
  }

  function RefreshCount(s: State, bank: BankKey): int {
    if (bank.channel, bank.rank) in s.refreshes then s.refreshes[(bank.channel, bank.rank)] else 0
  }

  function ClearRank(victims: map<Key, Victim>, bank: BankKey): map<Key, Victim> {
    map k | k in victims :: if InRank(k, bank) then Cleared(victims[k]) else victims[k]
  }

  function ClearCounters(acts: map<Key, int>, bank: BankKey): map<Key, int> {
    map k | k in acts :: if InRank(k, bank) then 0 else acts[k]
  }

  predicate WindowDone(c: Config, count: int) { count % c.refreshWindow == 0 }

  function RefreshStep(c: Config, s: State, bank: BankKey): State {
    var count := RefreshCount(s, bank) + 1;
    var t := s.(refreshes := s.refreshes[(bank.channel, bank.rank) := count]);
    if !WindowDone(c, count) then t
    else
      t.(victims := ClearRank(t.victims, bank),
         oracleActs := if c.oracle then ClearCounters(t.oracleActs, bank) else t.oracleActs)
  }

  function ClearVictim(s: State, k: Key): State {
    if k in s.victims then s.(victims := s.victims[k := Cleared(s.victims[k])]) else s
  }

  function ClearVictims(s: State, hits: seq<Hit>): State
    decreases |hits|
  {
    if hits == [] then s else ClearVictims(ClearVictim(s, hits[0].key), hits[1..])
  }

  function Acts(s: State, k: Key): int {
    if k in s.oracleActs then s.oracleActs[k] else 0
  }

  function OracleOnAct(c: Config, s: State, bank: BankKey, row: int): State {
    var agg := Key(bank, row);
    var count := Acts(s, agg) + 1;
    if count < c.tRH then s.(oracleActs := s.oracleActs[agg := count])
    else
      var t := ClearVictims(s.(oracleActs := s.oracleActs[agg := 0]), Hits(c, bank, row, c.blast));
      t.(oracleRefreshes := t.oracleRefreshes + 1)
  }

  // ---- one command, one call, one run --------------------------------------------------------------

  function HammerStep(c: Config, s: State, e: Event): State {
    if e.row < 0 then s
    else
      var settled :=
        if IsOpen(s.open, e.bank) && Entry(s.open, e.bank).row != e.row then Settle(c, s, e.bank, e.clk) else s;
      var hits := Hits(c, e.bank, e.row, c.blast);
      var t := CreditAll(c, settled, hits);
      var after := t.(open := Put(t.open, OpenRow(e.bank, e.row, e.clk, Keys(hits))));
      if c.oracle then OracleOnAct(c, after, e.bank, e.row) else after
  }

  function EventStep(c: Config, s: State, e: Event): State {
    match Classify(e.op)
    case Hammer => HammerStep(c, s, e)
    case Close => SettleAll(c, s, ClosedBanks(s.open, e.bank), e.clk)
    case Refresh => RefreshStep(c, s, e.bank)
    case Inert => s
    case Unclassified => s
  }

  /** Remove an overwritten byte's flip from every index. */
  function RestoreByte(s: State, a: int): State {
    if a !in s.flips then s
    else
      var t := s.(flips := s.flips - {a});
      if a !in t.owners then t else Release(t.(owners := t.owners - {a}), t.owners[a])
  }

  function Restore(s: State, addr: int, size: nat): State {
    if size == 0 then s else RestoreByte(Restore(s, addr, size - 1), addr + size - 1)
  }

  function NoteWrite(s: State, k: Key, data: seq<int>): State {
    if data == [] then s
    else s.(patterns := s.patterns[k :=
      if forall i :: 0 <= i < |data| ==> data[i] == 0x00 then AllZeros
      else if forall i :: 0 <= i < |data| ==> data[i] == 0xFF then AllOnes
      else Mixed])
  }

  /** Everything that ever happens to an engine. */
  datatype Action =
    | Issue(event: Event)
    | Overwrite(addr: int, size: nat)
    | Written(key: Key, data: seq<int>)

  function ActionStep(c: Config, s: State, a: Action): State {
    match a
    case Issue(e) => EventStep(c, s, e)
    case Overwrite(addr, size) => Restore(s, addr, size)
    case Written(k, data) => NoteWrite(s, k, data)
  }

  /** The state after the first `n` actions of a run. */
  function RunTo(c: Config, run: seq<Action>, n: nat): State
    requires n <= |run|
  {
    if n == 0 then INITIAL else ActionStep(c, RunTo(c, run, n - 1), run[n - 1])
  }

  function Run(c: Config, run: seq<Action>): State {
    RunTo(c, run, |run|)
  }
}
