/** The two window builders, against one specification of a window.

    The opaque-handle builder fills the window with rows of the target's bank outside the margin and
    rows of other banks; the numeric builder first surrounds the two aggressors with the other banks
    of the same two rows. Shuffling and sampling are index draws of the random generator. */
module WindowBuilders {
  import opened DeviceRows
  import opened CandidateWindows
  import opened DM = DisturbanceModel
  import OP = OracleProtection
  import RX = RowXorMapping
  import Bits

  // ---- what a window is -----------------------------------------------------------------------------------

  predicate Far(t: Key, row: int) { row > t.row + FAR_ROW_MARGIN || row < t.row - FAR_ROW_MARGIN }

  /** A target with a neighbouring row on both sides, in rank 0. */
  predicate IsTarget(l: Device, t: Key) { InBank(l, t.bank) && 1 <= t.row && t.row + 1 < Rows(l) }

  function Base(l: Device, t: Key): int
    requires IsTarget(l, t)
  {
    Place(l, t.bank, t.row)
  }

  /** The candidate is column 0 of a row of the device, and its role is what that row is to the target. */
  ghost predicate Faithful(l: Device, t: Key, x: Candidate)
    requires IsTarget(l, t)
  {
    var a := Base(l, t) + x.offset;
    var k := KeyAt(l, a);
    && 0 <= a < RX.Capacity(l) && InDevice(l, k) && a == Anchor(l, k)
    && match x.role
       case Aggressor => k == OP.LeftNeighbour(t) || k == OP.RightNeighbour(t)
       case SameBankFar => k.bank == t.bank && Far(t, k.row)
       case DifferentBank => k.bank != t.bank
  }

  function AtKey(l: Device, t: Key, k: Key, role: Role): Candidate
    requires IsTarget(l, t) && InBank(l, k.bank) && 0 <= k.row < Rows(l)
  {
    Candidate(Place(l, k.bank, k.row) - Base(l, t), role)
  }

  ghost predicate DistinctOffsets(cands: seq<Candidate>) {
    forall i, j :: 0 <= i < j < |cands| ==> cands[i].offset != cands[j].offset
  }

  predicate IsNeighbour(t: Key, k: Key) { k == OP.LeftNeighbour(t) || k == OP.RightNeighbour(t) }

  /** Every role is faithful, and both neighbours of the target are among the aggressors. */
  ghost predicate IsWindow(l: Device, t: Key, cands: seq<Candidate>)
    requires IsTarget(l, t)
  {
    && (forall x {:trigger Faithful(l, t, x)} :: x in cands ==> Faithful(l, t, x))
    && (forall k {:trigger IsNeighbour(t, k)} :: IsNeighbour(t, k) ==> AtKey(l, t, k, Aggressor) in cands)
  }

  /** Enough rows for a window of `n` candidates never to run out of them. */
  predicate Roomy(l: Device, n: int) { 65 * n + 130 <= Rows(l) }

  // ---- candidates by key ----------------------------------------------------------------------------------

  function RoleOf(t: Key, k: Key): Role {
    if k.bank != t.bank then DifferentBank
    else if k.row == t.row - 1 || k.row == t.row + 1 then Aggressor
    else SameBankFar
  }

  predicate Listed(l: Device, t: Key, k: Key) {
    && InBank(l, k.bank) && 0 <= k.row < Rows(l)
    && (k.bank == t.bank ==> k.row == t.row - 1 || k.row == t.row + 1 || Far(t, k.row))
  }

  /** The candidates placed so far are the rows `keys`. */
  ghost predicate Drawn(l: Device, t: Key, keys: seq<Key>, cands: seq<Candidate>)
    requires IsTarget(l, t)
  {
    |keys| == |cands| && forall i {:trigger keys[i], cands[i]} :: 0 <= i < |keys| ==>
      Listed(l, t, keys[i]) && cands[i] == AtKey(l, t, keys[i], RoleOf(t, keys[i]))
  }

  ghost predicate NoRepeats(keys: seq<Key>) {
    forall i, j :: 0 <= i < j < |keys| ==> keys[i] != keys[j]
  }

  lemma {:induction false} PlaceDecodes(l: Device, b: BankKey, r: int)
    requires InBank(l, b) && 0 <= r < Rows(l)
    ensures InDevice(l, Key(b, r)) && Place(l, b, r) == Anchor(l, Key(b, r)) && 0 <= Place(l, b, r) < RX.Capacity(l)
    ensures KeyAt(l, Place(l, b, r)) == Key(b, r)
  {
    RowLevelsInRange(l, b, r);
    AnchorAligned(l, Key(b, r));
  }

  lemma {:induction false} AtKeyDecodes(l: Device, t: Key, k: Key, role: Role)
    requires IsTarget(l, t) && InBank(l, k.bank) && 0 <= k.row < Rows(l)
    ensures KeyAt(l, Base(l, t) + AtKey(l, t, k, role).offset) == k
  {
    PlaceDecodes(l, k.bank, k.row);
    hide KeyAt, Place;
  }

  /** A faithful aggressor is column 0 of one of the two neighbours. */
  lemma {:induction false} AggressorsAreNeighbours(l: Device, t: Key)
    requires IsTarget(l, t)
    ensures forall x {:trigger Faithful(l, t, x)} :: Faithful(l, t, x) && x.role == Aggressor ==>
      x == AtKey(l, t, OP.LeftNeighbour(t), Aggressor) || x == AtKey(l, t, OP.RightNeighbour(t), Aggressor)
  {
    PlaceDecodes(l, t.bank, t.row - 1);
    PlaceDecodes(l, t.bank, t.row + 1);
    hide KeyAt, Place, Anchor, InBank, InDevice, RX.Capacity, Rows;
  }

  /** The two neighbours are the only aggressors of a window, and they are different candidates. */
  lemma {:induction false} ExactlyTwoAggressors(l: Device, t: Key, cands: seq<Candidate>, x: Candidate)
    requires IsTarget(l, t) && IsWindow(l, t, cands)
    ensures var left := AtKey(l, t, OP.LeftNeighbour(t), Aggressor);
      var right := AtKey(l, t, OP.RightNeighbour(t), Aggressor);
      left.offset != right.offset && (x in cands && x.role == Aggressor <==> x == left || x == right)
  {
    var left, right := OP.LeftNeighbour(t), OP.RightNeighbour(t);
    AtKeyDecodes(l, t, left, Aggressor);
    AtKeyDecodes(l, t, right, Aggressor);
    assert IsNeighbour(t, left) && IsNeighbour(t, right);
    AggressorsAreNeighbours(l, t);
    hide KeyAt, Place, Faithful, InBank, Base;
    if x in cands && x.role == Aggressor { assert Faithful(l, t, x); }
  }

  lemma {:induction false} ListedIsFaithful(l: Device, t: Key, k: Key)
    requires IsTarget(l, t) && Listed(l, t, k)
    ensures Faithful(l, t, AtKey(l, t, k, RoleOf(t, k)))
    ensures KeyAt(l, Base(l, t) + AtKey(l, t, k, RoleOf(t, k)).offset) == k
  {
    PlaceDecodes(l, k.bank, k.row);
    hide Place, KeyAt, Anchor, InBank;
  }

  /** Rows without repetition that include both neighbours make a window. */
  lemma {:induction false} DrawnIsWindow(l: Device, t: Key, keys: seq<Key>, cands: seq<Candidate>)
    requires IsTarget(l, t) && Drawn(l, t, keys, cands)
    requires OP.LeftNeighbour(t) in keys && OP.RightNeighbour(t) in keys
    ensures IsWindow(l, t, cands)
    ensures NoRepeats(keys) ==> DistinctOffsets(cands)
  {
    hide KeyAt, Place, Faithful, Base;
    forall i | 0 <= i < |keys| ensures Faithful(l, t, cands[i]) && KeyAt(l, Base(l, t) + cands[i].offset) == keys[i] {
      var x := cands[i];
      ListedIsFaithful(l, t, keys[i]);
    }
    var i :| 0 <= i < |keys| && keys[i] == OP.LeftNeighbour(t);
    var j :| 0 <= j < |keys| && keys[j] == OP.RightNeighbour(t);
    assert cands[i] in cands && cands[j] in cands;
    forall x | x in cands ensures Faithful(l, t, x) {
      var n :| 0 <= n < |cands| && cands[n] == x;
      assert Faithful(l, t, cands[n]);
    }
  }

  // ---- draws ----------------------------------------------------------------------------------------------

  /** `k` different indices below `n`. */
  ghost predicate IsDraw(p: seq<nat>, n: nat, k: nat) {
    |p| == k && (forall i :: 0 <= i < k ==> p[i] < n) && forall i, j :: 0 <= i < j < k ==> p[i] != p[j]
  }

  /** The generator: its `call`-th use draws `k` of `n` positions; shuffling draws all of them. */
  datatype Rng = Rng(draw: (nat, nat, nat) -> seq<nat>) {
    ghost predicate Fair() {
      forall call, n, k :: k <= n ==> IsDraw(draw(call, n, k), n, k)
    }
  }

  function Pick<T>(xs: seq<T>, p: seq<nat>): (ys: seq<T>)
    requires forall i :: 0 <= i < |p| ==> p[i] < |xs|
    ensures |ys| == |p| && forall i :: 0 <= i < |p| ==> ys[i] == xs[p[i]]
  {
    seq(|p|, i requires 0 <= i < |p| => xs[p[i]])
  }

  /** The list rearranged by the generator's `call`-th use: position `i` shows the element that was drawn for it. */
  ghost predicate Shuffled<T>(rng: Rng, call: nat, placed: seq<T>, shown: seq<T>) {
    var p := rng.draw(call, |placed|, |placed|);
    && |shown| == |placed| == |p|
    && forall i :: 0 <= i < |shown| ==> p[i] < |placed| && shown[i] == placed[p[i]]
  }

  /** The generator that answers like `rng` except that one shuffle of `m` elements is `p`. */
  function Redrawn(rng: Rng, call: nat, m: nat, p: seq<nat>): Rng {
    Rng((c: nat, n: nat, k: nat) => if c == call && n == m && k == m then p else rng.draw(c, n, k))
  }

  /** The identity with `i` and `j` mapped to 0 and 1. */
  function ToFront(m: nat, i: nat, j: nat): (p: seq<nat>)
    requires i < m && j < m && i != j
    ensures |p| == m && p[i] == 0 && p[j] == 1
  {
    var q := seq(m, x requires 0 <= x < m => if x == i then 0 else if x == 0 then i else x);
    var second := if j == 0 then i else j;
    seq(m, x requires 0 <= x < m => if x == j then 1 else if q[x] == 1 then second else q[x])
  }

  /** A shuffle can put the first two elements of the list anywhere: whatever the other draws are, some fair generator
      shows them at the two given positions. */
  lemma {:induction false} ShownAnywhere<T>(rng: Rng, call: nat, placed: seq<T>, i: nat, j: nat)
    requires rng.Fair() && i < |placed| && j < |placed| && i != j
    ensures var m := |placed|; var other := Redrawn(rng, call, m, ToFront(m, i, j));
      && other.Fair()
      && (forall c, n, k :: c != call ==> other.draw(c, n, k) == rng.draw(c, n, k))
      && forall shown :: Shuffled(other, call, placed, shown) ==> shown[i] == placed[0] && shown[j] == placed[1]
  {
    var m := |placed|;
    var other := Redrawn(rng, call, m, ToFront(m, i, j));
    forall c, n, k | k <= n ensures IsDraw(other.draw(c, n, k), n, k) {
      if c == call && n == m && k == m { FrontIsDraw(m, i, j); } else { assert IsDraw(rng.draw(c, n, k), n, k); }
    }
    assert other.draw(call, m, m) == ToFront(m, i, j);
  }

  lemma {:induction false} FrontIsDraw(m: nat, i: nat, j: nat)
    requires i < m && j < m && i != j
    ensures IsDraw(ToFront(m, i, j), m, m)
  {
  }

  function Indices(p: seq<nat>): set<nat> {
    if p == [] then {} else Indices(p[..|p| - 1]) + {p[|p| - 1]}
  }

  lemma {:induction false} InIndices(p: seq<nat>, x: nat)
    ensures x in Indices(p) <==> x in p
  {
    if p != [] {
      InIndices(p[..|p| - 1], x);
      assert p == p[..|p| - 1] + [p[|p| - 1]];
    }
  }

  lemma {:induction false} DistinctCount(p: seq<nat>, n: nat)
    requires IsDraw(p, n, |p|)
    ensures |Indices(p)| == |p|
  {
    if p != [] {
      var q, x := p[..|p| - 1], p[|p| - 1];
      DistinctCount(q, n);
      InIndices(q, x);
    }
  }

  lemma {:induction false} SmallSet(s: set<nat>, n: nat)
    requires forall x :: x in s ==> x < n
    ensures |s| <= n
  {
    if n == 0 {
      assert s == {};
    } else {
      SmallSet(s - {n - 1}, n - 1);
      assert s <= (s - {n - 1}) + {n - 1};
      if n - 1 in s { assert |s| == |s - {n - 1}| + 1; } else { assert s == s - {n - 1}; }
    }
  }

  lemma {:induction false} FullSet(s: set<nat>, n: nat, x: nat)
    requires (forall y :: y in s ==> y < n) && |s| == n && x < n
    ensures x in s
  {
    if x !in s {
      var t := s + {x};
      assert |t| == n + 1;
      SmallSet(t, n);
    }
  }

  /** A draw of all positions reaches every position. */
  lemma {:induction false} DrawsAll(p: seq<nat>, n: nat, x: nat)
    requires IsDraw(p, n, n) && x < n
    ensures exists i :: 0 <= i < |p| && p[i] == x
  {
    DistinctCount(p, n);
    forall y | y in Indices(p) ensures y < n { InIndices(p, y); }
    FullSet(Indices(p), n, x);
    InIndices(p, x);
  }

  lemma {:induction false} ShuffledWindow(l: Device, t: Key, keys: seq<Key>, cands: seq<Candidate>, p: seq<nat>)
    requires IsTarget(l, t) && Drawn(l, t, keys, cands) && IsDraw(p, |cands|, |cands|)
    requires OP.LeftNeighbour(t) in keys && OP.RightNeighbour(t) in keys
    ensures IsWindow(l, t, Pick(cands, p))
    ensures NoRepeats(keys) ==> DistinctOffsets(Pick(cands, p))
  {
    hide Listed, AtKey, IsWindow, RoleOf;
    var ks := Pick(keys, p);
    var i :| 0 <= i < |keys| && keys[i] == OP.LeftNeighbour(t);
    var j :| 0 <= j < |keys| && keys[j] == OP.RightNeighbour(t);
    DrawsAll(p, |keys|, i);
    DrawsAll(p, |keys|, j);
    var i' :| 0 <= i' < |p| && p[i'] == i;
    var j' :| 0 <= j' < |p| && p[j'] == j;
    assert ks[i'] == keys[i] && ks[j'] == keys[j];
    if NoRepeats(keys) {
      forall a, b | 0 <= a < b < |ks| ensures ks[a] != ks[b] {
        assert p[a] != p[b];
      }
    }
    DrawnIsWindow(l, t, ks, Pick(cands, p));
  }

  // ---- the other banks of a row ---------------------------------------------------------------------------

  function OtherSlots(slots: seq<Slot>, bank: BankKey): seq<Slot> {
    if slots == [] then []
    else (if slots[0].bank != bank then [slots[0]] else []) + OtherSlots(slots[1..], bank)
  }

  lemma {:induction false} OtherSlotsFacts(slots: seq<Slot>, bank: BankKey)
    ensures forall s :: s in OtherSlots(slots, bank) <==> s in slots && s.bank != bank
    ensures DistinctBanks(slots) ==> DistinctBanks(OtherSlots(slots, bank))
    ensures DistinctBanks(slots) && (exists s :: s in slots && s.bank == bank) ==>
      |OtherSlots(slots, bank)| == |slots| - 1
    ensures (forall s :: s in slots ==> s.bank != bank) ==> |OtherSlots(slots, bank)| == |slots|
  {
    if slots != [] {
      assert forall s :: s in slots <==> s == slots[0] || s in slots[1..];
      OtherSlotsFacts(slots[1..], bank);
      var rest := OtherSlots(slots[1..], bank);
      if DistinctBanks(slots) {
        forall j | 0 <= j < |rest| ensures rest[j].bank != slots[0].bank {
          assert rest[j] in slots[1..];
        }
      }
    }
  }

  /** Addresses of row `r` in different banks, none of them the target's. */
  ghost predicate AreOthers(l: Device, t: Key, r: int, others: seq<Slot>)
    requires 0 <= r < Rows(l)
  {
    && (forall i :: 0 <= i < |others| ==>
          InBank(l, others[i].bank) && others[i].bank != t.bank && others[i].addr == Place(l, others[i].bank, r))
    && DistinctBanks(others)
  }

  lemma {:induction false} AnotherBank(l: Device, b: BankKey)
    requires InBank(l, b)
    ensures InBank(l, b.(bank := if b.bank == 0 then 1 else 0))
  {
    var w := l.addrBits[BANK];
    assert w > 0;
  }

  lemma {:induction false} PickAll<T>(xs: seq<T>, p: seq<nat>, x: T)
    requires IsDraw(p, |xs|, |xs|) && x in xs
    ensures x in Pick(xs, p)
  {
    var i :| 0 <= i < |xs| && xs[i] == x;
    DrawsAll(p, |xs|, i);
    var j :| 0 <= j < |p| && p[j] == i;
    assert Pick(xs, p)[j] == x;
  }

  /** The slots of the other banks of a row, shuffled. */
  method ShuffledOthers(l: Device, t: Key, r: nat, rng: Rng, call: nat)
    returns (others: seq<Slot>, ghost listed: seq<Slot>)
    requires r < Rows(l) && InBank(l, t.bank) && rng.Fair()
    ensures AreOthers(l, t, r, listed) && Shuffled(rng, call, listed, others)
    ensures AreOthers(l, t, r, others) && others != [] && |others| == Banks(l) - 1
    ensures forall b :: InBank(l, b) && b != t.bank ==> Slot(b, Place(l, b, r)) in others
  {
    hide Place, InBank;
    var slots := BankSlotAddrs(l, r);
    var kept := OtherSlots(slots, t.bank);
    OtherSlotsFacts(slots, t.bank);
    AnotherBank(l, t.bank);
    ghost var other := t.bank.(bank := if t.bank.bank == 0 then 1 else 0);
    assert Slot(other, Place(l, other, r)) in slots;
    forall i | 0 <= i < |kept| ensures InBank(l, kept[i].bank) && kept[i].addr == Place(l, kept[i].bank, r) {
      assert kept[i] in slots;
    }
    forall i | 0 <= i < |kept| ensures kept[i].bank != t.bank { assert kept[i] in kept; }
    var p := rng.draw(call, |kept|, |kept|);
    assert IsDraw(p, |kept|, |kept|);
    others, listed := Pick(kept, p), kept;
    OthersPicked(l, t, r, kept, p);
  }

  lemma {:induction false} OthersPicked(l: Device, t: Key, r: int, kept: seq<Slot>, p: seq<nat>)
    requires 0 <= r < Rows(l) && AreOthers(l, t, r, kept) && IsDraw(p, |kept|, |kept|)
    ensures AreOthers(l, t, r, Pick(kept, p))
    ensures forall s :: s in kept ==> s in Pick(kept, p)
  {
    hide Place, InBank;
    var others := Pick(kept, p);
    forall i, j | 0 <= i < j < |others| ensures others[i].bank != others[j].bank { assert p[i] != p[j]; }
    forall s | s in kept ensures s in others { PickAll(kept, p, s); }
  }

  function Lookup(slots: seq<Slot>, bank: BankKey): int {
    if slots == [] then -1 else if slots[0].bank == bank then slots[0].addr else Lookup(slots[1..], bank)
  }

  lemma {:induction false} LookupFinds(l: Device, slots: seq<Slot>, s: Slot)
    requires DistinctBanks(slots) && s in slots
    ensures Lookup(slots, s.bank) == s.addr
  {
    if slots[0] != s {
      assert s in slots[1..];
      LookupFinds(l, slots[1..], s);
    }
  }

  /** The address of the target's bank at row `r`. */
  method InTargetBank(l: Device, t: Key, r: nat) returns (addr: int)
    requires r < Rows(l) && InBank(l, t.bank)
    ensures addr == Place(l, t.bank, r)
  {
    hide Place;
    var slots := BankSlotAddrs(l, r);
    LookupFinds(l, slots, Slot(t.bank, Place(l, t.bank, r)));
    addr := Lookup(slots, t.bank);
  }

  // ---- decoys in the target's bank ------------------------------------------------------------------------

  /** How many of the rows below `r` are too near the target. */
  function Skipped(t: int, r: int): int {
    if r <= t - FAR_ROW_MARGIN then 0
    else if r <= t + FAR_ROW_MARGIN + 1 then r - (t - FAR_ROW_MARGIN)
    else 2 * FAR_ROW_MARGIN + 1
  }

  /** The rows outside the margin. */
  ghost function FarRows(t: Key, rows: nat): set<nat> {
    set r: nat | r < rows && Far(t, r)
  }

  lemma {:induction false} FarRowsNext(t: Key, r: nat)
    ensures |FarRows(t, r + 1)| == |FarRows(t, r)| + (if Far(t, r) then 1 else 0)
  {
    if Far(t, r) {
      assert FarRows(t, r + 1) == FarRows(t, r) + {r};
    } else {
      assert FarRows(t, r + 1) == FarRows(t, r);
    }
  }

  /** The rows outside the margin, in order. */
  method FarPool(t: Key, rows: nat) returns (pool: seq<nat>)
    ensures forall i :: 0 <= i < |pool| ==> pool[i] < rows && Far(t, pool[i])
    ensures |pool| == |FarRows(t, rows)| && forall r: nat :: r < rows && Far(t, r) ==> r in pool
    ensures forall i, j :: 0 <= i < j < |pool| ==> pool[i] < pool[j]
    ensures |pool| >= rows - (2 * FAR_ROW_MARGIN + 1)
  {
    pool := [];
    for r := 0 to rows
      invariant forall i :: 0 <= i < |pool| ==> pool[i] < r && Far(t, pool[i])
      invariant forall i, j :: 0 <= i < j < |pool| ==> pool[i] < pool[j]
      invariant |pool| + Skipped(t.row, r) >= r
      invariant |pool| == |FarRows(t, r)| && forall q: nat :: q < r && Far(t, q) ==> q in pool
    {
      FarRowsNext(t, r);
      if Far(t, r) { pool := pool + [r]; }
    }
  }

  function Smaller(a: nat, b: nat): (m: nat)
    ensures m <= a && m <= b && (m == a || m == b)
  {
    if a <= b then a else b
  }

  lemma {:induction false} Another(l: Device, t: Key, keys: seq<Key>, cands: seq<Candidate>, k: Key)
    requires IsTarget(l, t) && Drawn(l, t, keys, cands) && Listed(l, t, k)
    ensures Drawn(l, t, keys + [k], cands + [AtKey(l, t, k, RoleOf(t, k))])
    ensures NoRepeats(keys) && k !in keys ==> NoRepeats(keys + [k])
  {
    hide Place, Base, InBank, Rows, RoleOf;
    var x := AtKey(l, t, k, RoleOf(t, k));
    forall i | 0 <= i < |keys| + 1
      ensures Listed(l, t, (keys + [k])[i])
      ensures (cands + [x])[i] == AtKey(l, t, (keys + [k])[i], RoleOf(t, (keys + [k])[i]))
    {
      if i < |keys| { assert (keys + [k])[i] == keys[i] && (cands + [x])[i] == cands[i]; }
    }
  }

  /** Up to `count` rows of the target's bank outside the margin. */
  method AddFar(l: Device, t: Key, count: nat, rng: Rng, call: nat, cands0: seq<Candidate>, ghost keys0: seq<Key>)
    returns (cands: seq<Candidate>, ghost keys: seq<Key>, ghost rows: seq<nat>)
    requires IsTarget(l, t) && rng.Fair() && Drawn(l, t, keys0, cands0)
    ensures Drawn(l, t, keys, cands) && keys0 <= keys
    ensures |cands| == |cands0| + Smaller(count, |FarRows(t, Rows(l))|) && |keys| - |keys0| == |cands| - |cands0|
    ensures forall r: nat :: r in rows <==> r < Rows(l) && Far(t, r)
    ensures var n := Smaller(count, |rows|); var p := rng.draw(call, |rows|, n);
      && IsDraw(p, |rows|, n) && |keys| == |keys0| + n
      && forall i :: |keys0| <= i < |keys| ==> keys[i] == Key(t.bank, rows[p[i - |keys0|]])
    ensures count + 2 * FAR_ROW_MARGIN + 1 <= Rows(l) ==> |cands| == |cands0| + count
    ensures forall i :: |keys0| <= i < |keys| ==> keys[i].bank == t.bank && Far(t, keys[i].row)
    ensures NoRepeats(keys0) && (forall i :: 0 <= i < |keys0| ==> !(keys0[i].bank == t.bank && Far(t, keys0[i].row)))
      ==> NoRepeats(keys)
  {
    hide Place, AtKey, Drawn, NoRepeats, Rows, InBank;
    var pool := FarPool(t, Rows(l));
    rows := pool;
    var n := Smaller(count, |pool|);
    var p := rng.draw(call, |pool|, n);
    assert IsDraw(p, |pool|, n);
    ghost var apart := NoRepeats(keys0)
      && forall i :: 0 <= i < |keys0| ==> !(keys0[i].bank == t.bank && Far(t, keys0[i].row));
    cands, keys := cands0, keys0;
    for i := 0 to n
      invariant |cands| == |cands0| + i && |keys| == |keys0| + i && keys0 <= keys
      invariant Drawn(l, t, keys, cands)
      invariant forall j :: |keys0| <= j < |keys| ==> keys[j] == Key(t.bank, pool[p[j - |keys0|]])
      invariant apart ==> NoRepeats(keys)
    {
      var r := pool[p[i]];
      var addr := InTargetBank(l, t, r);
      ghost var k := Key(t.bank, r);
      if apart {
        forall j | 0 <= j < |keys| ensures keys[j] != k {
          if j < |keys0| { assert keys[j] == keys0[j]; } else { assert p[j - |keys0|] != p[i]; }
        }
      }
      var x := Candidate(addr - Base(l, t), SameBankFar);
      assert Listed(l, t, k) && x == AtKey(l, t, k, RoleOf(t, k)) by { FarIsListed(l, t, r); }
      Another(l, t, keys, cands, k);
      cands, keys := cands + [x], keys + [k];
    }
  }

  lemma {:induction false} FarIsListed(l: Device, t: Key, r: int)
    requires IsTarget(l, t) && 0 <= r < Rows(l) && Far(t, r)
    ensures Listed(l, t, Key(t.bank, r)) && RoleOf(t, Key(t.bank, r)) == SameBankFar
    ensures AtKey(l, t, Key(t.bank, r), SameBankFar) == Candidate(Place(l, t.bank, r) - Base(l, t), SameBankFar)
  {
  }

  // ---- decoys in other banks ------------------------------------------------------------------------------

  const STEP := FAR_ROW_MARGIN + 1

  /** The row that the `j`-th round of different-bank decoys is placed at, in a roomy device. */
  function Round(t: Key, rows: nat, j: nat): int
    requires rows > 0
  {
    (t.row + STEP + STEP * j) % rows
  }

  lemma {:induction false} WrapOnce(x: int, rows: int)
    requires 0 <= x < 2 * rows
    ensures x % rows == if x < rows then x else x - rows
  {
    if x >= rows { assert x == rows * 1 + (x - rows); }
  }

  /** In a roomy device the rounds are outside the margin, and each is one step after the last. */
  lemma {:induction false} RoundFar(t: Key, rows: nat, j: nat)
    requires 0 <= t.row < rows && STEP * j + 2 * STEP <= rows
    ensures 0 <= Round(t, rows, j) < rows && Far(t, Round(t, rows, j))
    ensures Round(t, rows, j) == if t.row + STEP + STEP * j < rows then t.row + STEP + STEP * j
                                 else t.row + STEP + STEP * j - rows
  {
    WrapOnce(t.row + STEP + STEP * j, rows);
  }

  lemma {:induction false} RoundNext(t: Key, rows: nat, j: nat)
    requires 0 <= t.row < rows && STEP * (j + 1) + 2 * STEP <= rows
    ensures Round(t, rows, j + 1) == (Round(t, rows, j) + STEP) % rows
  {
    RoundFar(t, rows, j);
    RoundFar(t, rows, j + 1);
    WrapOnce(Round(t, rows, j) + STEP, rows);
  }

  lemma {:induction false} RoundsDiffer(t: Key, rows: nat, i: nat, j: nat)
    requires 0 <= t.row < rows && i < j && STEP * j + 2 * STEP <= rows
    ensures Round(t, rows, i) != Round(t, rows, j)
  {
    RoundFar(t, rows, i);
    RoundFar(t, rows, j);
  }

  /** Key `k` was placed in one of the first `n` rounds. */
  ghost predicate InRounds(t: Key, rows: nat, k: Key, n: nat)
    requires rows > 0
  {
    k.bank != t.bank && exists j: nat :: j < n && k.row == Round(t, rows, j)
  }

  /** Keys that cannot collide with a round: the target's bank, or a row next to the target. */
  predicate Inner(t: Key, k: Key) { k.bank == t.bank || !Far(t, k.row) }

  lemma {:induction false} RoundIsNew(l: Device, t: Key, k: Key, n: nat)
    requires IsTarget(l, t) && STEP * n + 2 * STEP <= Rows(l)
    requires Inner(t, k) || InRounds(t, Rows(l), k, n)
    ensures k.bank == t.bank || k.row != Round(t, Rows(l), n)
  {
    RoundFar(t, Rows(l), n);
    if InRounds(t, Rows(l), k, n) {
      var j: nat :| j < n && k.row == Round(t, Rows(l), j);
      RoundsDiffer(t, Rows(l), j, n);
    }
  }

  /** One row's worth of different-bank decoys, in the order drawn, at most up to `want`. */
  method AddRound(l: Device, t: Key, r: nat, want: nat, rng: Rng, call: nat, cands0: seq<Candidate>,
      ghost keys0: seq<Key>)
    returns (cands: seq<Candidate>, ghost keys: seq<Key>)
    requires IsTarget(l, t) && rng.Fair() && r < Rows(l) && Drawn(l, t, keys0, cands0) && want > 0
    ensures Drawn(l, t, keys, cands) && keys0 <= keys
    ensures |cands0| < |cands| <= |cands0| + want && |keys| - |keys0| == |cands| - |cands0|
    ensures forall i :: |keys0| <= i < |keys| ==> keys[i].bank != t.bank && keys[i].row == r
    ensures NoRepeats(keys0) && (forall i :: 0 <= i < |keys0| ==> keys0[i].bank == t.bank || keys0[i].row != r)
      ==> NoRepeats(keys)
  {
    hide Place, AtKey, Drawn, NoRepeats, Rows, InBank, Shuffled;
    var others, _ := ShuffledOthers(l, t, r, rng, call);
    ghost var apart := NoRepeats(keys0)
      && forall i :: 0 <= i < |keys0| ==> keys0[i].bank == t.bank || keys0[i].row != r;
    cands, keys := cands0, keys0;
    var i := 0;
    while i < |others| && i < want
      invariant 0 <= i <= |others| && i <= want
      invariant |cands| == |cands0| + i && |keys| == |keys0| + i && keys0 <= keys
      invariant Drawn(l, t, keys, cands)
      invariant forall j :: |keys0| <= j < |keys| ==> keys[j] == Key(others[j - |keys0|].bank, r)
      invariant apart ==> NoRepeats(keys)
    {
      ghost var k := Key(others[i].bank, r);
      if apart {
        forall j | 0 <= j < |keys| ensures keys[j] != k {
          if j < |keys0| { assert keys[j] == keys0[j]; } else { assert others[j - |keys0|].bank != others[i].bank; }
        }
      }
      var x := Candidate(others[i].addr - Base(l, t), DifferentBank);
      assert Listed(l, t, k) && x == AtKey(l, t, k, RoleOf(t, k)) by { OtherIsListed(l, t, k); }
      Another(l, t, keys, cands, k);
      cands, keys := cands + [x], keys + [k];
      i := i + 1;
    }
  }

  lemma {:induction false} OtherIsListed(l: Device, t: Key, k: Key)
    requires IsTarget(l, t) && InBank(l, k.bank) && 0 <= k.row < Rows(l) && k.bank != t.bank
    ensures Listed(l, t, k) && RoleOf(t, k) == DifferentBank
    ensures AtKey(l, t, k, DifferentBank) == Candidate(Place(l, k.bank, k.row) - Base(l, t), DifferentBank)
  {
  }

  lemma {:induction false} FirstRound(l: Device, t: Key)
    ensures Rows(l) > 0 && Round(t, Rows(l), 0) == (t.row + FAR_ROW_MARGIN + 1) % Rows(l)
  {
  }

  /** Exactly `want` rows of other banks, spread over rows. */
  method AddOtherBanks(l: Device, t: Key, want: nat, rng: Rng, call: nat, cands0: seq<Candidate>, ghost keys0: seq<Key>)
    returns (cands: seq<Candidate>, ghost keys: seq<Key>)
    requires IsTarget(l, t) && rng.Fair() && Drawn(l, t, keys0, cands0)
    ensures Drawn(l, t, keys, cands) && keys0 <= keys
    ensures |cands| == |cands0| + want && |keys| == |keys0| + want
    ensures forall i :: |keys0| <= i < |keys| ==> keys[i].bank != t.bank
    ensures NoRepeats(keys0) && (forall i :: 0 <= i < |keys0| ==> Inner(t, keys0[i])) && Roomy(l, want) ==>
      NoRepeats(keys)
  {
    hide Place, AtKey, Drawn, NoRepeats, Round, InBank, Far, Rows;
    ghost var apart := NoRepeats(keys0) && (forall i :: 0 <= i < |keys0| ==> Inner(t, keys0[i])) && Roomy(l, want);
    cands, keys := cands0, keys0;
    var made := 0;
    var r := (t.row + FAR_ROW_MARGIN + 1) % Rows(l);
    ghost var n := 0;
    assert r == Round(t, Rows(l), 0) by { FirstRound(l, t); }
    while made < want
      invariant made <= want && |cands| == |cands0| + made && keys0 <= keys && |keys| == |keys0| + made
      invariant forall i :: |keys0| <= i < |keys| ==> keys[i].bank != t.bank
      invariant 0 <= r < Rows(l) && n <= made
      invariant Drawn(l, t, keys, cands)
      invariant apart ==> r == Round(t, Rows(l), n) && NoRepeats(keys)
      invariant apart ==> forall i :: 0 <= i < |keys| ==> Inner(t, keys[i]) || InRounds(t, Rows(l), keys[i], n)
      decreases want - made
    {
      ghost var before := keys;
      if apart {
        forall i | 0 <= i < |keys| ensures keys[i].bank == t.bank || keys[i].row != r { RoundIsNew(l, t, keys[i], n); }
      }
      cands, keys := AddRound(l, t, r, want - made, rng, call + made, cands, keys);
      assert forall i :: |keys0| <= i < |before| ==> keys[i] == before[i];
      made := |cands| - |cands0|;
      if apart {
        forall i | 0 <= i < |keys| ensures Inner(t, keys[i]) || InRounds(t, Rows(l), keys[i], n + 1) {
          if i < |before| { assert keys[i] == before[i]; }
        }
        RoundNext(t, Rows(l), n);
        RoundFar(t, Rows(l), n + 1);
      }
      r := (r + FAR_ROW_MARGIN + 1) % Rows(l);
      if !Far(t, r) {
        r := (r + FAR_ROW_MARGIN + 1) % Rows(l);
      }
      n := n + 1;
    }
  }

  // ---- the two builders -----------------------------------------------------------------------------------

  /** The compiled target: the decode of the row-aligned address that the compiler picks. */
  lemma {:induction false} TargetIsAnchor(l: Device, row: nat)
    requires row < Rows(l)
    ensures var k := KeyAt(l, row * Stride(l));
      InBank(l, k.bank) && k.row == row && row * Stride(l) == Place(l, k.bank, row)
  {
    SlotDecodes(l, row, 0, 0);
    MixedInvolution(l, BankKey(0, 0, 0, 0), row);
  }

  /** The two physical neighbours of the target. */
  method AddAggressors(l: Device, t: Key) returns (cands: seq<Candidate>, ghost keys: seq<Key>)
    requires IsTarget(l, t)
    ensures Drawn(l, t, keys, cands) && |cands| == 2 && keys == [OP.LeftNeighbour(t), OP.RightNeighbour(t)]
    ensures NoRepeats(keys) && forall i :: 0 <= i < |keys| ==> keys[i].bank == t.bank && !Far(t, keys[i].row)
  {
    hide Place, AtKey, Drawn, Listed, RoleOf, InBank;
    var low := InTargetBank(l, t, t.row - 1);
    NextIsListed(l, t, OP.LeftNeighbour(t));
    Another(l, t, [], [], OP.LeftNeighbour(t));
    cands, keys := [] + [Candidate(low - Base(l, t), Aggressor)], [] + [OP.LeftNeighbour(t)];
    var high := InTargetBank(l, t, t.row + 1);
    NextIsListed(l, t, OP.RightNeighbour(t));
    Another(l, t, keys, cands, OP.RightNeighbour(t));
    cands, keys := cands + [Candidate(high - Base(l, t), Aggressor)], keys + [OP.RightNeighbour(t)];
  }

  lemma {:induction false} NextIsListed(l: Device, t: Key, k: Key)
    requires IsTarget(l, t) && (k == OP.LeftNeighbour(t) || k == OP.RightNeighbour(t))
    ensures Listed(l, t, k) && RoleOf(t, k) == Aggressor && !Far(t, k.row)
    ensures AtKey(l, t, k, Aggressor) == Candidate(Place(l, t.bank, k.row) - Base(l, t), Aggressor)
    ensures Drawn(l, t, [], [])
  {
  }

  lemma {:induction false} NeighboursStay(t: Key, keys0: seq<Key>, keys: seq<Key>)
    requires keys0 == [OP.LeftNeighbour(t), OP.RightNeighbour(t)] && keys0 <= keys
    ensures OP.LeftNeighbour(t) in keys && OP.RightNeighbour(t) in keys
  {
    assert keys[0] == keys0[0] && keys[1] == keys0[1];
  }

  /** Shuffle a complete window, so that a candidate's position says nothing about its role. */
  method ShuffleWindow(l: Device, t: Key, rng: Rng, call: nat, cands0: seq<Candidate>,
      ghost keys0: seq<Key>, ghost keys: seq<Key>)
    returns (cands: seq<Candidate>)
    requires IsTarget(l, t) && rng.Fair() && Drawn(l, t, keys, cands0)
    requires keys0 == [OP.LeftNeighbour(t), OP.RightNeighbour(t)] && keys0 <= keys
    ensures IsWindow(l, t, cands) && |cands| == |cands0|
    ensures Shuffled(rng, call, cands0, cands)
    ensures NoRepeats(keys) ==> DistinctOffsets(cands)
    ensures forall k :: k in keys && Listed(l, t, k) ==> AtKey(l, t, k, RoleOf(t, k)) in cands
  {
    hide AtKey, Listed, RoleOf, IsWindow, NoRepeats, Base;
    NeighboursStay(t, keys0, keys);
    var p := rng.draw(call, |cands0|, |cands0|);
    assert IsDraw(p, |cands0|, |cands0|);
    ShuffledWindow(l, t, keys, cands0, p);
    AllPicked(l, t, keys, cands0, p);
    cands := Pick(cands0, p);
  }

  lemma {:induction false} AllPicked(l: Device, t: Key, keys: seq<Key>, cands: seq<Candidate>, p: seq<nat>)
    requires IsTarget(l, t) && Drawn(l, t, keys, cands) && IsDraw(p, |cands|, |cands|)
    ensures forall k :: k in keys && Listed(l, t, k) ==> AtKey(l, t, k, RoleOf(t, k)) in Pick(cands, p)
  {
    forall k | k in keys && Listed(l, t, k) ensures AtKey(l, t, k, RoleOf(t, k)) in Pick(cands, p) {
      hide AtKey, RoleOf, Base;
      var i :| 0 <= i < |keys| && keys[i] == k;
      assert cands[i] in cands;
      PickAll(cands, p, cands[i]);
    }
  }

  /** A list in the order of placing: the lower and the upper neighbour, and then stretches of decoys of one role. */
  ghost predicate Placed(l: Device, t: Key, placed: seq<Candidate>, near: nat, far: nat, others: nat)
    requires IsTarget(l, t)
  {
    && |placed| == 2 + near + far + others
    && placed[0] == AtKey(l, t, OP.LeftNeighbour(t), Aggressor)
    && placed[1] == AtKey(l, t, OP.RightNeighbour(t), Aggressor)
    && (forall i :: 2 <= i < 2 + near ==> placed[i].role == DifferentBank)
    && (forall i :: 2 + near <= i < 2 + near + far ==> placed[i].role == SameBankFar)
    && forall i :: 2 + near + far <= i < |placed| ==> placed[i].role == DifferentBank
  }

  lemma {:induction false} KeysPlaced(l: Device, t: Key, keys: seq<Key>, placed: seq<Candidate>, near: nat, far: nat,
      others: nat)
    requires IsTarget(l, t) && Drawn(l, t, keys, placed) && [OP.LeftNeighbour(t), OP.RightNeighbour(t)] <= keys
    requires |keys| == 2 + near + far + others
    requires forall i :: 2 <= i < 2 + near ==> keys[i].bank != t.bank
    requires forall i :: 2 + near <= i < 2 + near + far ==> keys[i].bank == t.bank && Far(t, keys[i].row)
    requires forall i :: 2 + near + far <= i < |keys| ==> keys[i].bank != t.bank
    ensures Placed(l, t, placed, near, far, others)
  {
    hide Place, Base, InBank, Rows, Drawn;
    assert keys[0] == OP.LeftNeighbour(t) && keys[1] == OP.RightNeighbour(t);
    DrawnAt(l, t, keys, placed, 0);
    DrawnAt(l, t, keys, placed, 1);
    forall i | 0 <= i < |placed| ensures placed[i].role == RoleOf(t, keys[i]) { DrawnAt(l, t, keys, placed, i); }
  }

  lemma {:induction false} DrawnAt(l: Device, t: Key, keys: seq<Key>, cands: seq<Candidate>, i: nat)
    requires IsTarget(l, t) && Drawn(l, t, keys, cands) && i < |keys|
    ensures |cands| == |keys| && Listed(l, t, keys[i]) && cands[i] == AtKey(l, t, keys[i], RoleOf(t, keys[i]))
  {
    hide Place, Base, InBank, Rows, RoleOf;
    var k, x := keys[i], cands[i];
  }

  /** The handles before the shuffle. */
  method PlaceOpaque(l: Device, t: Key, n: nat, rng: Rng) returns (cands: seq<Candidate>, ghost keys: seq<Key>)
    requires IsTarget(l, t) && n >= 2 && rng.Fair()
    ensures Drawn(l, t, keys, cands) && [OP.LeftNeighbour(t), OP.RightNeighbour(t)] <= keys
    ensures Placed(l, t, cands, 0, Smaller(n - 2 - (n - 2) / 2, |FarRows(t, Rows(l))|), (n - 2) / 2)
    ensures |cands| <= n && (Roomy(l, n) ==> |cands| == n && NoRepeats(keys))
  {
    SeveralBanks(l, t);
    hide Place, Drawn, NoRepeats, InBank, AtKey, Listed, RoleOf, Banks, Placed, Far;
    ghost var keys0;
    cands, keys0 := AddAggressors(l, t);
    var nDecoy := n - |cands|;
    var nDiff := if Banks(l) > 1 then nDecoy / 2 else 0;
    var nFar := nDecoy - nDiff;
    ghost var keys1;
    ghost var rows;
    cands, keys1, rows := AddFar(l, t, nFar, rng, 0, cands, keys0);
    forall i | 0 <= i < |keys1| ensures Inner(t, keys1[i]) { if i < |keys0| { assert keys1[i] == keys0[i]; } }
    cands, keys := AddOtherBanks(l, t, nDiff, rng, 1, cands, keys1);
    KeysPlaced(l, t, keys, cands, 0, |keys1| - 2, nDiff);
  }

  /** The window of opaque handles, `n` candidates for the target at row `targetRow`: half of the decoys are rows of
      other banks, the others far rows of the target's bank as far as there are any, and all are shuffled. */
  method BuildCandidates(l: Device, targetRow: nat, n: nat, rng: Rng)
    returns (cands: seq<Candidate>, ghost placed: seq<Candidate>)
    requires 1 <= targetRow && targetRow + 1 < Rows(l) && n >= 2 && rng.Fair()
    ensures var t := KeyAt(l, targetRow * Stride(l));
      && IsTarget(l, t) && t.row == targetRow && Base(l, t) == targetRow * Stride(l)
      && IsWindow(l, t, cands) && |cands| <= n
      && (Roomy(l, n) ==> |cands| == n && DistinctOffsets(cands))
      && Placed(l, t, placed, 0, Smaller(n - 2 - (n - 2) / 2, |FarRows(t, Rows(l))|), (n - 2) / 2)
      && Shuffled(rng, n + 1, placed, cands)
  {
    var base := targetRow * Stride(l);
    var t := KeyAt(l, base);
    TargetIsAnchor(l, targetRow);
    hide KeyAt, Place, InBank, IsWindow, Stride, DistinctOffsets, Shuffled, Placed;
    cands, placed := OpaqueWindow(l, t, n, rng);
  }

  /** The same for a decoded target. */
  method OpaqueWindow(l: Device, t: Key, n: nat, rng: Rng) returns (cands: seq<Candidate>, ghost placed: seq<Candidate>)
    requires IsTarget(l, t) && n >= 2 && rng.Fair()
    ensures IsWindow(l, t, cands) && |cands| <= n && (Roomy(l, n) ==> |cands| == n && DistinctOffsets(cands))
    ensures Placed(l, t, placed, 0, Smaller(n - 2 - (n - 2) / 2, |FarRows(t, Rows(l))|), (n - 2) / 2)
    ensures Shuffled(rng, n + 1, placed, cands)
  {
    hide KeyAt, Place, Drawn, NoRepeats, InBank, IsWindow, AtKey, Listed, RoleOf, Shuffled, Placed, DistinctOffsets,
         FarRows;
    var list;
    ghost var keys;
    list, keys := PlaceOpaque(l, t, n, rng);
    placed := list;
    cands := ShuffleWindow(l, t, rng, n + 1, list, [OP.LeftNeighbour(t), OP.RightNeighbour(t)], keys);
  }

  lemma {:induction false} DrawnLengths(l: Device, t: Key, keys: seq<Key>, cands: seq<Candidate>)
    requires IsTarget(l, t) && Drawn(l, t, keys, cands)
    ensures |keys| == |cands|
  {
  }

  // ---- the numeric builder --------------------------------------------------------------------------------

  /** Candidates placed at one row index. */
  function RowCount(keys: seq<Key>, row: int): nat {
    if keys == [] then 0 else RowCount(keys[..|keys| - 1], row) + (if keys[|keys| - 1].row == row then 1 else 0)
  }

  /** Take the last of the remaining slots of row `r` as a decoy. */
  method PopDecoy(l: Device, t: Key, r: nat, others: seq<Slot>, cands0: seq<Candidate>, ghost keys0: seq<Key>)
    returns (rest: seq<Slot>, cands: seq<Candidate>, ghost keys: seq<Key>)
    requires IsTarget(l, t) && r < Rows(l) && AreOthers(l, t, r, others) && others != [] && Drawn(l, t, keys0, cands0)
    ensures rest == others[..|others| - 1] && AreOthers(l, t, r, rest)
    ensures keys == keys0 + [Key(others[|others| - 1].bank, r)] && |cands| == |cands0| + 1 && Drawn(l, t, keys, cands)
    ensures NoRepeats(keys0) && Key(others[|others| - 1].bank, r) !in keys0 ==> NoRepeats(keys)
  {
    hide Place, AtKey, Drawn, NoRepeats, InBank, RoleOf;
    var s := others[|others| - 1];
    ghost var k := Key(s.bank, r);
    var x := Candidate(s.addr - Base(l, t), DifferentBank);
    OtherIsListed(l, t, k);
    Another(l, t, keys0, cands0, k);
    rest, cands, keys := others[..|others| - 1], cands0 + [x], keys0 + [k];
  }

  /** Every other bank at row `r` is either still among `others` or already placed, not both. */
  ghost predicate Shared(l: Device, t: Key, r: int, others: seq<Slot>, keys: seq<Key>) {
    && (forall i :: 0 <= i < |others| ==> Key(others[i].bank, r) !in keys)
    && (forall b :: InBank(l, b) && b != t.bank ==>
          Key(b, r) in keys || exists i :: 0 <= i < |others| && others[i].bank == b)
  }

  lemma {:induction false} SharedAfterPop(l: Device, t: Key, r: int, others: seq<Slot>, keys: seq<Key>)
    requires Shared(l, t, r, others, keys) && DistinctBanks(others) && others != []
    ensures Shared(l, t, r, others[..|others| - 1], keys + [Key(others[|others| - 1].bank, r)])
  {
    hide InBank;
    var n, more := |others| - 1, keys + [Key(others[|others| - 1].bank, r)];
    var rest := others[..n];
    forall b | InBank(l, b) && b != t.bank
      ensures Key(b, r) in more || exists i :: 0 <= i < |rest| && rest[i].bank == b
    {
      if Key(b, r) !in keys {
        var i :| 0 <= i < |others| && others[i].bank == b;
        if i == n { assert more[|keys|] == Key(b, r); } else { assert rest[i].bank == b; }
      }
    }
  }

  lemma {:induction false} SharedElsewhere(l: Device, t: Key, r: int, others: seq<Slot>, keys: seq<Key>, k: Key)
    requires Shared(l, t, r, others, keys) && k.row != r
    ensures Shared(l, t, r, others, keys + [k])
  {
    hide InBank;
    forall b | InBank(l, b) && b != t.bank
      ensures Key(b, r) in keys + [k] || exists i :: 0 <= i < |others| && others[i].bank == b
    {
      if Key(b, r) !in keys { var i :| 0 <= i < |others| && others[i].bank == b; }
    }
  }

  lemma {:induction false} CountAnother(keys: seq<Key>, k: Key, row: int)
    ensures RowCount(keys + [k], row) == RowCount(keys, row) + (if k.row == row then 1 else 0)
  {
    assert (keys + [k])[..|keys|] == keys;
  }

  /** All rows placed so far are next to the target, and they are as many on either side; the upper
      side may be one short when the window is full. */
  ghost predicate Camouflaged(t: Key, keys: seq<Key>, full: bool) {
    && (forall i :: 0 <= i < |keys| ==> keys[i].row == t.row - 1 || keys[i].row == t.row + 1)
    && RowCount(keys, t.row + 1) <= RowCount(keys, t.row - 1) <= RowCount(keys, t.row + 1) + (if full then 1 else 0)
  }

  lemma {:induction false} PopFacts(l: Device, t: Key, r: int, others: seq<Slot>, q: int, opposite: seq<Slot>,
      keys: seq<Key>)
    requires Shared(l, t, r, others, keys) && Shared(l, t, q, opposite, keys)
    requires DistinctBanks(others) && others != [] && r != q
    ensures var k := Key(others[|others| - 1].bank, r);
      && k !in keys && Shared(l, t, r, others[..|others| - 1], keys + [k]) && Shared(l, t, q, opposite, keys + [k])
      && RowCount(keys + [k], r) == RowCount(keys, r) + 1 && RowCount(keys + [k], q) == RowCount(keys, q)
  {
    hide InBank, RowCount;
    var k := Key(others[|others| - 1].bank, r);
    SharedAfterPop(l, t, r, others, keys);
    SharedElsewhere(l, t, q, opposite, keys, k);
    CountAnother(keys, k, r);
    CountAnother(keys, k, q);
  }

  lemma {:induction false} PairCounts(t: Key, left: Key, right: Key)
    requires left.row == t.row - 1 && right.row == t.row + 1
    ensures RowCount([left, right], t.row - 1) == 1 && RowCount([left, right], t.row + 1) == 1
  {
    assert [left, right] == ([] + [left]) + [right];
    assert RowCount([], t.row - 1) == 0 && RowCount([], t.row + 1) == 0;
    hide RowCount;
    CountAnother([], left, t.row - 1);
    CountAnother([], left, t.row + 1);
    CountAnother([] + [left], right, t.row - 1);
    CountAnother([] + [left], right, t.row + 1);
  }

  lemma {:induction false} ShellStart(l: Device, t: Key, r: int, others: seq<Slot>, keys: seq<Key>)
    requires IsTarget(l, t) && keys == [OP.LeftNeighbour(t), OP.RightNeighbour(t)] && 0 <= r < Rows(l)
    requires AreOthers(l, t, r, others)
    requires forall b :: InBank(l, b) && b != t.bank ==> Slot(b, Place(l, b, r)) in others
    ensures Shared(l, t, r, others, keys)
    ensures RowCount(keys, t.row - 1) == 1 && RowCount(keys, t.row + 1) == 1
  {
    hide InBank, Place, RowCount, DistinctBanks;
    PairCounts(t, OP.LeftNeighbour(t), OP.RightNeighbour(t));
    forall b | InBank(l, b) && b != t.bank ensures exists i :: 0 <= i < |others| && others[i].bank == b {
      var i :| 0 <= i < |others| && others[i] == Slot(b, Place(l, b, r));
    }
  }

  lemma {:induction false} ShellDone(l: Device, t: Key, keys: seq<Key>)
    requires Shared(l, t, t.row - 1, [], keys) && Shared(l, t, t.row + 1, [], keys)
    ensures forall b :: InBank(l, b) && b != t.bank ==> Key(b, t.row - 1) in keys && Key(b, t.row + 1) in keys
  {
  }

  /** Lower and upper neighbouring row in turn, the target's bank first and then only others. */
  ghost predicate Alternating(t: Key, keys: seq<Key>) {
    forall i :: 0 <= i < |keys| ==>
      keys[i].row == (if i % 2 == 0 then t.row - 1 else t.row + 1) && (keys[i].bank == t.bank <==> i < 2)
  }

  lemma {:induction false} PairAlternates(t: Key, keys: seq<Key>)
    requires keys == [OP.LeftNeighbour(t), OP.RightNeighbour(t)]
    ensures Alternating(t, keys)
  {
  }

  lemma {:induction false} StillAlternating(t: Key, keys: seq<Key>, k: Key)
    requires Alternating(t, keys) && |keys| >= 2 && k.bank != t.bank
    requires k.row == if |keys| % 2 == 0 then t.row - 1 else t.row + 1
    ensures Alternating(t, keys + [k])
  {
  }

  /** The same two rows in other banks, drawn in turn, until `nDecoy` decoys or both rows are used up. */
  method AddShell(l: Device, t: Key, nDecoy: nat, rng: Rng, cands0: seq<Candidate>, ghost keys0: seq<Key>)
    returns (cands: seq<Candidate>, ghost keys: seq<Key>)
    requires IsTarget(l, t) && rng.Fair() && Drawn(l, t, keys0, cands0) && NoRepeats(keys0)
    requires keys0 == [OP.LeftNeighbour(t), OP.RightNeighbour(t)]
    ensures Drawn(l, t, keys, cands) && NoRepeats(keys) && keys0 <= keys
    ensures 2 <= |cands| && |keys| == |cands| == Smaller(2 + nDecoy, 2 * Banks(l))
    ensures Camouflaged(t, keys, |cands| == 2 + nDecoy) && Alternating(t, keys)
    ensures 2 * Banks(l) <= 2 + nDecoy ==>
      forall b :: InBank(l, b) && b != t.bank ==> Key(b, t.row - 1) in keys && Key(b, t.row + 1) in keys
  {
    hide Place, AtKey, Drawn, NoRepeats, InBank, RowCount, Shared, Banks, Alternating, Shuffled;
    var lows, _ := ShuffledOthers(l, t, t.row - 1, rng, 0);
    var highs, _ := ShuffledOthers(l, t, t.row + 1, rng, 1);
    cands, keys := cands0, keys0;
    DrawnLengths(l, t, keys, cands);
    ShellStart(l, t, t.row - 1, lows, keys);
    ShellStart(l, t, t.row + 1, highs, keys);
    PairAlternates(t, keys);
    while (lows != [] || highs != []) && |cands| - 2 < nDecoy
      invariant AreOthers(l, t, t.row - 1, lows) && AreOthers(l, t, t.row + 1, highs)
      invariant Drawn(l, t, keys, cands) && NoRepeats(keys) && keys0 <= keys && 2 <= |cands| <= 2 + nDecoy
      invariant Shared(l, t, t.row - 1, lows, keys) && Shared(l, t, t.row + 1, highs, keys)
      invariant |lows| == |highs| || |cands| == 2 + nDecoy
      invariant |cands| + |lows| + |highs| == 2 * Banks(l) && |keys| == |cands|
      invariant Alternating(t, keys) && (|keys| % 2 == 0 || |cands| == 2 + nDecoy)
      invariant Camouflaged(t, keys, |cands| == 2 + nDecoy)
      decreases |lows| + |highs|
    {
      ghost var before := keys;
      if lows != [] && |cands| - 2 < nDecoy {
        ghost var k := Key(lows[|lows| - 1].bank, t.row - 1);
        PopFacts(l, t, t.row - 1, lows, t.row + 1, highs, keys);
        StillAlternating(t, keys, k);
        lows, cands, keys := PopDecoy(l, t, t.row - 1, lows, cands, keys);
        assert keys == before + [k];
      }
      ghost var between := keys;
      if highs != [] && |cands| - 2 < nDecoy {
        ghost var k := Key(highs[|highs| - 1].bank, t.row + 1);
        PopFacts(l, t, t.row + 1, highs, t.row - 1, lows, keys);
        StillAlternating(t, keys, k);
        highs, cands, keys := PopDecoy(l, t, t.row + 1, highs, cands, keys);
        assert keys == between + [k];
      }
    }
    if 2 * Banks(l) <= 2 + nDecoy { ShellDone(l, t, keys); }
  }

  /** Decoys beyond the adjacent rows, when these cannot fill the window. */
  method AddOuter(l: Device, t: Key, remaining: nat, rng: Rng, cands0: seq<Candidate>, ghost keys0: seq<Key>)
    returns (cands: seq<Candidate>, ghost keys: seq<Key>)
    requires IsTarget(l, t) && rng.Fair() && Drawn(l, t, keys0, cands0) && NoRepeats(keys0)
    requires forall i :: 0 <= i < |keys0| ==> !Far(t, keys0[i].row)
    ensures Drawn(l, t, keys, cands) && keys0 <= keys && |cands| <= |cands0| + remaining
    ensures var far := Smaller(remaining / 2, |FarRows(t, Rows(l))|);
      && |keys| - |keys0| == |cands| - |cands0| == far + (remaining - remaining / 2)
      && (forall i :: |keys0| <= i < |keys0| + far ==> keys[i].bank == t.bank && Far(t, keys[i].row))
      && forall i :: |keys0| + far <= i < |keys| ==> keys[i].bank != t.bank
    ensures Roomy(l, remaining) ==> NoRepeats(keys) && |cands| == |cands0| + remaining
  {
    hide Place, Drawn, NoRepeats, InBank, AtKey, Far, Banks;
    cands, keys := cands0, keys0;
    if remaining > 0 {
      SeveralBanks(l, t);
      var nFarSame := if Banks(l) > 1 then remaining / 2 else remaining;
      ghost var rows;
      cands, keys, rows := AddFar(l, t, nFarSame, rng, 2, cands, keys);
      ghost var keys1 := keys;
      forall i | 0 <= i < |keys| ensures Inner(t, keys[i]) { if i < |keys0| { assert keys[i] == keys0[i]; } }
      var nFarDiff := remaining - nFarSame;
      if Banks(l) > 1 {
        cands, keys := AddOtherBanks(l, t, nFarDiff, rng, 3, cands, keys);
        assert forall i :: 0 <= i < |keys1| ==> keys[i] == keys1[i];
      }
    }
  }

  lemma {:induction false} SeveralBanks(l: Device, t: Key)
    ensures Banks(l) > 1
  {
    var g, w := Bits.Pow2(l.addrBits[GROUP]), Bits.Pow2(l.addrBits[BANK]);
    assert l.addrBits[BANK] > 0 && w == 2 * Bits.Pow2(l.addrBits[BANK] - 1);
    Bits.MulMonotone(w, 1, g);
  }

  /** The addresses before the shuffle; `shell` are the rows next to the target. */
  method PlaceNumeric(l: Device, t: Key, n: nat, rng: Rng)
    returns (cands: seq<Candidate>, ghost keys: seq<Key>, ghost shell: seq<Key>)
    requires IsTarget(l, t) && n >= 2 && rng.Fair()
    ensures Drawn(l, t, keys, cands) && [OP.LeftNeighbour(t), OP.RightNeighbour(t)] <= keys && shell <= keys
    ensures |shell| == Smaller(n, 2 * Banks(l)) && Alternating(t, shell)
    ensures var rest := n - |shell|;
      Placed(l, t, cands, |shell| - 2, Smaller(rest / 2, |FarRows(t, Rows(l))|), rest - rest / 2)
    ensures |cands| <= n && (Roomy(l, n) ==> |cands| == n && NoRepeats(keys))
    ensures n >= 2 * Banks(l) ==>
      forall b :: InBank(l, b) && b != t.bank ==> Key(b, t.row - 1) in shell && Key(b, t.row + 1) in shell
  {
    hide Place, Drawn, NoRepeats, InBank, AtKey, RowCount, Listed, RoleOf, Banks, Far, Placed, Alternating;
    ghost var keys0;
    cands, keys0 := AddAggressors(l, t);
    var nDecoy := n - |cands|;
    cands, shell := AddShell(l, t, nDecoy, rng, cands, keys0);
    AlternatingFacts(t, shell);
    forall i | 0 <= i < |shell| ensures !Far(t, shell[i].row) { NextIsNear(t, shell[i]); }
    cands, keys := AddOuter(l, t, nDecoy - (|cands| - 2), rng, cands, shell);
    assert forall i :: 0 <= i < |shell| ==> keys[i] == shell[i];
    ghost var rest := n - |shell|;
    ghost var far := Smaller(rest / 2, |FarRows(t, Rows(l))|);
    KeysPlaced(l, t, keys, cands, |shell| - 2, far, rest - rest / 2);
  }

  lemma {:induction false} AlternatingFacts(t: Key, keys: seq<Key>)
    requires Alternating(t, keys)
    ensures forall i :: 2 <= i < |keys| ==> keys[i].bank != t.bank
  {
  }

  /** The window of numeric addresses: the aggressors hide among the other banks of the same rows, which come in turn
      from below and above; only when these are used up do far rows follow. */
  method BuildNumericCandidates(l: Device, targetRow: nat, n: nat, rng: Rng)
    returns (cands: seq<Candidate>, ghost placed: seq<Candidate>)
    requires 1 <= targetRow && targetRow + 1 < Rows(l) && n >= 2 && rng.Fair()
    ensures var t := KeyAt(l, targetRow * Stride(l));
      && IsTarget(l, t) && t.row == targetRow && Base(l, t) == targetRow * Stride(l)
      && IsWindow(l, t, cands) && |cands| <= n
      && (Roomy(l, n) ==> |cands| == n && DistinctOffsets(cands))
      && (n >= 2 * Banks(l) ==> HasShell(l, t, cands))
      && (var near := Smaller(n, 2 * Banks(l)); var rest := n - near;
          && Placed(l, t, placed, near - 2, Smaller(rest / 2, |FarRows(t, Rows(l))|), rest - rest / 2)
          && ShellFirst(l, t, placed, near))
      && Shuffled(rng, n + 3, placed, cands)
  {
    var base := targetRow * Stride(l);
    var t := KeyAt(l, base);
    TargetIsAnchor(l, targetRow);
    hide KeyAt, Place, InBank, IsWindow, Stride, DistinctOffsets, HasShell, Banks, Shuffled, Placed, ShellFirst;
    cands, placed := NumericWindow(l, t, n, rng);
  }

  /** The same for a decoded target. */
  method NumericWindow(l: Device, t: Key, n: nat, rng: Rng)
    returns (cands: seq<Candidate>, ghost placed: seq<Candidate>)
    requires IsTarget(l, t) && n >= 2 && rng.Fair()
    ensures IsWindow(l, t, cands) && |cands| <= n && (Roomy(l, n) ==> |cands| == n && DistinctOffsets(cands))
    ensures n >= 2 * Banks(l) ==> HasShell(l, t, cands)
    ensures var near := Smaller(n, 2 * Banks(l)); var rest := n - near;
      && Placed(l, t, placed, near - 2, Smaller(rest / 2, |FarRows(t, Rows(l))|), rest - rest / 2)
      && ShellFirst(l, t, placed, near)
    ensures Shuffled(rng, n + 3, placed, cands)
  {
    hide KeyAt, Place, Drawn, NoRepeats, InBank, IsWindow, AtKey, Listed, RoleOf, HasShell, Banks, Shuffled, Placed,
         Alternating, ShellFirst, DistinctOffsets, FarRows;
    var list;
    ghost var keys, shell;
    list, keys, shell := PlaceNumeric(l, t, n, rng);
    placed := list;
    ShellIsFirst(l, t, keys, list, shell);
    cands := ShuffleWindow(l, t, rng, n + 3, list, [OP.LeftNeighbour(t), OP.RightNeighbour(t)], keys);
    if n >= 2 * Banks(l) { ShellSurvives(l, t, shell, keys, cands); }
  }

  /** The first `near` placed candidates are rows next to the target, from below and above in turn. */
  ghost predicate ShellFirst(l: Device, t: Key, placed: seq<Candidate>, near: nat)
    requires IsTarget(l, t)
  {
    && near <= |placed|
    && forall i :: 0 <= i < near ==> KeyAt(l, Base(l, t) + placed[i].offset).row == t.row + if i % 2 == 0 then -1 else 1
  }

  lemma {:induction false} ShellIsFirst(l: Device, t: Key, keys: seq<Key>, placed: seq<Candidate>, shell: seq<Key>)
    requires IsTarget(l, t) && Drawn(l, t, keys, placed) && shell <= keys && Alternating(t, shell)
    ensures ShellFirst(l, t, placed, |shell|)
  {
    hide KeyAt, Base, Place, InBank, Rows, Drawn, AtKey, RoleOf;
    assert |keys| == |placed| by { DrawnLengths(l, t, keys, placed); }
    forall i | 0 <= i < |shell|
      ensures KeyAt(l, Base(l, t) + placed[i].offset).row == t.row + if i % 2 == 0 then -1 else 1
    {
      DrawnAt(l, t, keys, placed, i);
      AtKeyDecodes(l, t, keys[i], RoleOf(t, keys[i]));
      assert keys[i] == shell[i];
    }
  }

  lemma {:induction false} NextIsNear(t: Key, k: Key)
    requires k.row == t.row - 1 || k.row == t.row + 1
    ensures !Far(t, k.row)
  {
  }

  /** Every other bank of the two adjacent rows is in the window. */
  ghost predicate HasShell(l: Device, t: Key, cands: seq<Candidate>)
    requires IsTarget(l, t)
  {
    forall b :: InBank(l, b) && b != t.bank ==>
      && AtKey(l, t, Key(b, t.row - 1), DifferentBank) in cands
      && AtKey(l, t, Key(b, t.row + 1), DifferentBank) in cands
  }

  lemma {:induction false} ShellSurvives(l: Device, t: Key, keys1: seq<Key>, keys2: seq<Key>, cands: seq<Candidate>)
    requires IsTarget(l, t) && keys1 <= keys2
    requires forall b :: InBank(l, b) && b != t.bank ==> Key(b, t.row - 1) in keys1 && Key(b, t.row + 1) in keys1
    requires forall k :: k in keys2 && Listed(l, t, k) ==> AtKey(l, t, k, RoleOf(t, k)) in cands
    ensures HasShell(l, t, cands)
  {
    hide AtKey;
    forall b | InBank(l, b) && b != t.bank
      ensures AtKey(l, t, Key(b, t.row - 1), DifferentBank) in cands
      ensures AtKey(l, t, Key(b, t.row + 1), DifferentBank) in cands
    {
      InLonger(keys1, keys2, Key(b, t.row - 1));
      InLonger(keys1, keys2, Key(b, t.row + 1));
    }
  }

  lemma {:induction false} InLonger(xs: seq<Key>, ys: seq<Key>, k: Key)
    requires xs <= ys && k in xs
    ensures k in ys
  {
    var i :| 0 <= i < |xs| && xs[i] == k;
    assert ys[i] == k;
  }
}
