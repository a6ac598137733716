/** The worker's inverse of its active address mapper, which can only be run forwards.

    The inverter probes it on address 0 and on every single address bit, keeps the results as a triangular basis
    over GF(2), and answers a request by eliminating the coordinates against it. Each loop of the class is proved
    equal to a function on values, and the theory of these functions (soundness, completeness for every affine
    mapper) follows. */
module AddrInversion {
  import opened Bits
  import opened BitFields

  /** Addresses and packed coordinates are 64-bit words. */
  const WORD: nat := 0x1_0000_0000_0000_0000

  /** A mapper as the inverter sees it: field widths per level, the transaction offset, and the
      forward decode of a 64-bit linear address. */
  datatype Mapper = Mapper(levelBits: seq<nat>, txOffset: nat, decode: nat -> seq<int>) {

    function AddrBits(): nat { Total(levelBits) }

    /** The construction refuses a mapper with no mapped bit, or with more than one word holds. */
    predicate Ready() { 0 < AddrBits() < 64 }

    /** `address_bits << m_tx_offset` in a 64-bit word. */
    function Linear(bits: nat): nat { (Pow2(txOffset) * bits) % WORD }

    /** What one probe contributes: the packed decode, relative to the decode of address 0. */
    function Image(bits: nat): nat
    {
      Xor(Pack(levelBits, decode(Linear(bits))), Pack(levelBits, decode(0)))
    }

    /** The decode is affine over GF(2): its linear part commutes with exclusive or. */
    ghost predicate Affine() {
      forall a: nat, b: nat :: a < Pow2(AddrBits()) && b < Pow2(AddrBits()) ==> LinearAt(a, b)
    }

    ghost predicate LinearAt(a: nat, b: nat) {
      Image(Xor(a, b)) == Xor(Image(a), Image(b))
    }

    /** Every decoded coordinate fits its field. */
    ghost predicate DecodesInRange() {
      forall a: nat :: a < Pow2(AddrBits()) ==> InRange(levelBits, decode(Linear(a)))
    }
  }

  /** Each coordinate masked to its own field width; a missing coordinate counts as 0. C++ converts
      a negative `int` modulo `2^64` before masking, which is the Euclidean remainder. */
  function Masked(ws: seq<nat>, coords: seq<int>): (vs: seq<int>)
    ensures InRange(ws, vs)
  {
    seq(|ws|, i requires 0 <= i < |ws| =>
      if 0 < ws[i] && i < |coords| then coords[i] % Pow2(ws[i]) else 0)
  }

  function Pack(ws: seq<nat>, coords: seq<int>): nat {
    Join(ws, Masked(ws, coords))
  }

  /** The exclusive bound `1 << w` as a signed 64-bit value: width 63 wraps to the minimum. */
  function Limit(w: nat): int {
    if w == 63 then 0 - (Pow2(63) as int) else Pow2(w)
  }

  predicate Accepts(ws: seq<nat>, coords: seq<int>) {
    |coords| == |ws| && forall i :: 0 <= i < |ws| ==> 0 <= coords[i] < Limit(ws[i])
  }

  datatype BasisRow = BasisRow(vector: nat, addressBits: nat, used: bool)

  const EMPTY_ROW := BasisRow(0, 0, false)

  datatype EncodeResult = Encoded(linear: nat) | OutOfRange | NotInvertible

  // ---- the elimination as functions ----------------------------------------------------------

  /** Insert a vector: eliminate from bit `p - 1` down and store at the first free leading bit. */
  function Inserted(rows: seq<BasisRow>, v: nat, a: nat, p: nat): (out: seq<BasisRow>)
    requires p <= |rows|
    ensures |out| == |rows|
    decreases p
  {
    if p == 0 then rows
    else if !Bit(v, p - 1) then Inserted(rows, v, a, p - 1)
    else if rows[p - 1].used then
      Inserted(rows, Xor(v, rows[p - 1].vector), Xor(a, rows[p - 1].addressBits), p - 1)
    else rows[p - 1 := BasisRow(v, a, true)]
  }

  datatype Solution = Unsolved | Solved(addressBits: nat)

  /** Solve for a target: stop as soon as a leading bit has no basis row. */
  function SolvedFrom(rows: seq<BasisRow>, r: nat, a: nat, p: nat): Solution
    requires p <= |rows|
    decreases p
  {
    if p == 0 then if r == 0 then Solved(a) else Unsolved
    else if !Bit(r, p - 1) then SolvedFrom(rows, r, a, p - 1)
    else if !rows[p - 1].used then Unsolved
    else SolvedFrom(rows, Xor(r, rows[p - 1].vector), Xor(a, rows[p - 1].addressBits), p - 1)
  }

  /** The basis after probing the first `j` address bits. */
  function Probed(m: Mapper, j: nat): (rows: seq<BasisRow>)
    ensures |rows| == 64
  {
    if j == 0 then seq(64, _ => EMPTY_ROW)
    else
      var rows := Probed(m, j - 1);
      Inserted(rows, m.Image(Pow2(j - 1)), Pow2(j - 1), |rows|)
  }

  function Encode(m: Mapper, coords: seq<int>): EncodeResult {
    if !m.Ready() then NotInvertible
    else if !Accepts(m.levelBits, coords) then OutOfRange
    else
      var target := Xor(Pack(m.levelBits, coords), Pack(m.levelBits, m.decode(0)));
      var rows := Probed(m, m.AddrBits());
      match SolvedFrom(rows, target, 0, |rows|)
      case Unsolved => NotInvertible
      case Solved(bits) =>
        var candidate := m.Linear(bits);
        if m.decode(candidate) == coords then Encoded(candidate) else NotInvertible
  }

  // ---- the worker's loops ---------------------------------------------------------------------

  class AddrInverter {
    const mapper: Mapper
    const basis: array<BasisRow>
    var constant: nat
    var ready: bool

    ghost predicate Valid()
      reads this, basis
    {
      && basis.Length == 64
      && ready == mapper.Ready()
      && (ready ==> constant == Pack(mapper.levelBits, mapper.decode(0)))
      && (ready ==> basis[..] == Probed(mapper, mapper.AddrBits()))
    }

    constructor (m: Mapper)
      ensures mapper == m && Valid() && fresh(basis)
    {
      mapper := m;
      basis := new BasisRow[64](_ => EMPTY_ROW);
      constant := 0;
      ready := false;
      new;
      var addrBits := 0;
      for i := 0 to |m.levelBits|
        invariant addrBits == Offset(m.levelBits, i)
        invariant !ready && fresh(basis) && basis[..] == Probed(m, 0)
      {
        TotalTake(m.levelBits, i);
        addrBits := addrBits + m.levelBits[i];
      }
      assert m.levelBits[..|m.levelBits|] == m.levelBits;
      if addrBits <= 0 || addrBits >= 64 { return; }

      constant := PackLoop(m.decode(0));
      for j := 0 to addrBits
        invariant !ready && fresh(basis)
        invariant constant == Pack(m.levelBits, m.decode(0))
        invariant basis[..] == Probed(m, j)
      {
        var packed := PackLoop(m.decode((Pow2(m.txOffset) * Pow2(j)) % WORD));
        Insert(Xor(packed, constant), Pow2(j));
      }
      ready := true;
    }

    method PackLoop(coords: seq<int>) returns (packed: nat)
      ensures packed == Pack(mapper.levelBits, coords)
    {
      var ws := mapper.levelBits;
      ghost var vs := Masked(ws, coords);
      packed := 0;
      var shift := 0;
      for i := 0 to |ws|
        invariant shift == Offset(ws, i)
        invariant InRange(ws[..i], vs[..i]) && packed == Join(ws[..i], vs[..i])
      {
        JoinTake(ws, vs, i);
        TotalTake(ws, i);
        if ws[i] > 0 && i < |coords| {
          packed := Or(packed, Pow2(shift) * (coords[i] % Pow2(ws[i])));
        } else {
          OrNothingAt(packed);
        }
        shift := shift + ws[i];
      }
      assert ws[..|ws|] == ws && vs[..|vs|] == vs;
    }

    method Insert(vector: nat, addressBits: nat)
      requires basis.Length == 64
      modifies basis
      ensures basis[..] == Inserted(old(basis[..]), vector, addressBits, basis.Length)
    {
      var v, a := vector, addressBits;
      var p := 63;
      while p >= 0
        invariant -1 <= p <= 63
        invariant basis[..] == old(basis[..])
        invariant Inserted(basis[..], v, a, p + 1) == Inserted(old(basis[..]), vector, addressBits, basis.Length)
      {
        if Bit(v, p) {
          if basis[p].used {
            v, a := Xor(v, basis[p].vector), Xor(a, basis[p].addressBits);
          } else {
            basis[p] := BasisRow(v, a, true);
            return;
          }
        }
        p := p - 1;
      }
    }

    method Solve(target: nat) returns (found: bool, addressBits: nat)
      requires basis.Length == 64
      ensures SolvedFrom(basis[..], target, 0, basis.Length) == if found then Solved(addressBits) else Unsolved
    {
      var remainder := target;
      addressBits := 0;
      var p := 63;
      while p >= 0
        invariant -1 <= p <= 63
        invariant SolvedFrom(basis[..], remainder, addressBits, p + 1) == SolvedFrom(basis[..], target, 0, basis.Length)
      {
        if Bit(remainder, p) {
          if !basis[p].used { return false, addressBits; }
          remainder, addressBits := Xor(remainder, basis[p].vector), Xor(addressBits, basis[p].addressBits);
        }
        p := p - 1;
      }
      found := remainder == 0;
    }

    method EncodeCoords(coords: seq<int>) returns (result: EncodeResult)
      requires Valid()
      ensures result == Encode(mapper, coords)
    {
      if !ready { return NotInvertible; }
      var ws := mapper.levelBits;
      if |coords| != |ws| { return OutOfRange; }
      for i := 0 to |coords|
        invariant forall k :: 0 <= k < i ==> 0 <= coords[k] < Limit(ws[k])
      {
        if coords[i] < 0 || coords[i] >= Limit(ws[i]) { return OutOfRange; }
      }
      var packed := PackLoop(coords);
      var found, bits := Solve(Xor(packed, constant));
      if !found { return NotInvertible; }
      var candidate := mapper.Linear(bits);
      if mapper.decode(candidate) != coords { return NotInvertible; }
      result := Encoded(candidate);
    }
  }

  lemma {:induction false} OrNothingAt(a: nat)
    ensures Or(a, 0) == a
    ensures forall k: nat :: Or(a, Pow2(k) * 0) == a
  {
    OrNothing(a);
  }

  lemma {:induction false} OrNothing(a: nat)
    ensures Or(a, 0) == a
  {
    if a > 0 { OrNothing(a / 2); }
  }

  // ---- elimination theory ----------------------------------------------------------------------

  /** Row `p` is led by bit `p`. */
  ghost predicate Triangular(rows: seq<BasisRow>) {
    forall p :: 0 <= p < |rows| && rows[p].used ==> Bit(rows[p].vector, p) && rows[p].vector < Pow2(p + 1)
  }

  /** Each row is the image of the address bits recorded with it. */
  ghost predicate Represents(m: Mapper, rows: seq<BasisRow>) {
    forall p :: 0 <= p < |rows| && rows[p].used ==>
      rows[p].addressBits < Pow2(m.AddrBits()) && m.Image(rows[p].addressBits) == rows[p].vector
  }

  /** Full elimination, passing over leading bits that have no row. */
  ghost function Reduce(rows: seq<BasisRow>, v: nat, p: nat): nat
    requires p <= |rows|
    decreases p
  {
    if p == 0 then v
    else if Bit(v, p - 1) && rows[p - 1].used then Reduce(rows, Xor(v, rows[p - 1].vector), p - 1)
    else Reduce(rows, v, p - 1)
  }

  lemma {:induction false} ReduceZero(rows: seq<BasisRow>, p: nat)
    requires p <= |rows|
    ensures Reduce(rows, 0, p) == 0
  {
    if p > 0 {
      BitAbove(0, 0, p - 1);
      ReduceZero(rows, p - 1);
    }
  }

  lemma {:induction false} ReduceLinear(rows: seq<BasisRow>, x: nat, y: nat, p: nat)
    requires p <= |rows|
    ensures Reduce(rows, Xor(x, y), p) == Xor(Reduce(rows, x, p), Reduce(rows, y, p))
    decreases p
  {
    if p > 0 {
      var q := p - 1;
      BitOfXor(x, y, q);
      var b := rows[q].vector;
      var x' := if Bit(x, q) && rows[q].used then Xor(x, b) else x;
      var y' := if Bit(y, q) && rows[q].used then Xor(y, b) else y;
      ReduceLinear(rows, x', y', q);
      XorExchange(x, b, y, b);
      XorSelf(b);
      XorZero(Xor(x, y));
      XorAssociates(x, y, b);
      XorAssociates(x, b, y);
      XorCommutes(b, y);
    }
  }

  /** A leading bit that has been passed is never touched again. */
  lemma {:induction false} ReduceKeepsBit(rows: seq<BasisRow>, v: nat, p: nat, i: nat)
    requires p <= |rows| && Triangular(rows) && p <= i
    ensures Bit(Reduce(rows, v, p), i) == Bit(v, i)
    decreases p
  {
    if p > 0 {
      var q := p - 1;
      if Bit(v, q) && rows[q].used {
        BitOfXor(v, rows[q].vector, i);
        BitAbove(rows[q].vector, p, i);
        ReduceKeepsBit(rows, Xor(v, rows[q].vector), q, i);
      } else {
        ReduceKeepsBit(rows, v, q, i);
      }
    }
  }

  /** A vector that reduces to zero never meets a free leading bit. */
  lemma {:induction false} ReducibleAvoidsFreeBit(rows: seq<BasisRow>, v: nat, p: nat)
    requires 0 < p <= |rows| && Triangular(rows)
    requires Reduce(rows, v, p) == 0 && !rows[p - 1].used
    ensures !Bit(v, p - 1)
  {
    ReduceKeepsBit(rows, v, p - 1, p - 1);
    BitAbove(0, 0, p - 1);
  }

  /** Using a free row does not disturb what already reduced to zero. */
  lemma {:induction false} FillingKeepsReducible(rows: seq<BasisRow>, q: nat, row: BasisRow, x: nat, p: nat)
    requires q < |rows| && p <= |rows| && Triangular(rows)
    requires !rows[q].used && Reduce(rows, x, p) == 0
    ensures Reduce(rows[q := row], x, p) == 0
    decreases p
  {
    if p > 0 {
      if p - 1 == q {
        ReducibleAvoidsFreeBit(rows, x, p);
        FillingKeepsReducible(rows, q, row, x, p - 1);
      } else if Bit(x, p - 1) && rows[p - 1].used {
        FillingKeepsReducible(rows, q, row, Xor(x, rows[p - 1].vector), p - 1);
      } else {
        FillingKeepsReducible(rows, q, row, x, p - 1);
      }
    }
  }

  ghost predicate FillsFree(rows: seq<BasisRow>, out: seq<BasisRow>, q: nat, row: BasisRow) {
    q < |rows| && !rows[q].used && out == rows[q := row]
  }

  /** Insertion writes at most one row, a free one. */
  lemma {:induction false} InsertedShape(rows: seq<BasisRow>, v: nat, a: nat, p: nat)
    requires p <= |rows|
    ensures var out := Inserted(rows, v, a, p);
      out == rows || exists q: nat, row :: FillsFree(rows, out, q, row)
    decreases p
  {
    if p > 0 {
      if !Bit(v, p - 1) {
        InsertedShape(rows, v, a, p - 1);
      } else if rows[p - 1].used {
        InsertedShape(rows, Xor(v, rows[p - 1].vector), Xor(a, rows[p - 1].addressBits), p - 1);
      } else {
        assert FillsFree(rows, Inserted(rows, v, a, p), p - 1, BasisRow(v, a, true));
      }
    }
  }

  lemma {:induction false} InsertedKeepsReducible(rows: seq<BasisRow>, v: nat, a: nat, x: nat)
    requires Triangular(rows) && Reduce(rows, x, |rows|) == 0
    ensures Reduce(Inserted(rows, v, a, |rows|), x, |rows|) == 0
  {
    InsertedShape(rows, v, a, |rows|);
    var out := Inserted(rows, v, a, |rows|);
    if out != rows {
      var q: nat, row :| FillsFree(rows, out, q, row);
      FillingKeepsReducible(rows, q, row, x, |rows|);
    }
  }

  /** Insertion keeps the basis triangular and faithful, and its vector becomes reducible. */
  lemma {:induction false} InsertedCorrect(m: Mapper, rows: seq<BasisRow>, v: nat, a: nat, p: nat)
    requires p <= |rows| && Triangular(rows) && Represents(m, rows) && m.Affine()
    requires v < Pow2(p) && a < Pow2(m.AddrBits()) && m.Image(a) == v
    ensures Triangular(Inserted(rows, v, a, p)) && Represents(m, Inserted(rows, v, a, p))
    ensures forall i :: p <= i < |rows| ==> Inserted(rows, v, a, p)[i] == rows[i]
    ensures Reduce(Inserted(rows, v, a, p), v, p) == 0
    decreases p
  {
    if p > 0 {
      var q := p - 1;
      if !Bit(v, q) {
        DropTopBit(v, q);
        InsertedCorrect(m, rows, v, a, q);
      } else if rows[q].used {
        EliminateBit(v, rows[q].vector, q);
        XorBelow(a, rows[q].addressBits, m.AddrBits());
        assert m.LinearAt(a, rows[q].addressBits);
        InsertedCorrect(m, rows, Xor(v, rows[q].vector), Xor(a, rows[q].addressBits), q);
      } else {
        XorSelf(v);
        ReduceZero(rows[q := BasisRow(v, a, true)], q);
      }
    }
  }

  lemma {:induction false} EliminateBit(v: nat, w: nat, q: nat)
    requires v < Pow2(q + 1) && w < Pow2(q + 1) && Bit(v, q) && Bit(w, q)
    ensures Xor(v, w) < Pow2(q)
  {
    XorBelow(v, w, q + 1);
    BitOfXor(v, w, q);
    DropTopBit(Xor(v, w), q);
  }

  lemma {:induction false} ImageBelow(m: Mapper, a: nat)
    ensures m.Image(a) < Pow2(m.AddrBits())
  {
    JoinBelow(m.levelBits, Masked(m.levelBits, m.decode(m.Linear(a))));
    JoinBelow(m.levelBits, Masked(m.levelBits, m.decode(0)));
    XorBelow(Pack(m.levelBits, m.decode(m.Linear(a))), Pack(m.levelBits, m.decode(0)), m.AddrBits());
  }

  lemma {:induction false} ImageFitsWord(m: Mapper, a: nat, p: nat)
    requires m.AddrBits() <= p
    ensures m.Image(a) < Pow2(p)
  {
    ImageBelow(m, a);
    Pow2Monotone(m.AddrBits(), p);
  }

  ghost predicate Reducible(rows: seq<BasisRow>, v: nat) {
    Reduce(rows, v, |rows|) == 0
  }

  /** Main invariant of the construction: after `j` probes the basis is triangular, every row is the
      image of its recorded address bits, and the image of every `j`-bit address reduces to zero. */
  lemma {:induction false} ProbedInvariant(m: Mapper, j: nat)
    requires m.Ready() && m.Affine() && j <= m.AddrBits()
    ensures Triangular(Probed(m, j)) && Represents(m, Probed(m, j))
    ensures forall a: nat :: a < Pow2(j) ==> Reducible(Probed(m, j), m.Image(a))
    decreases j
  {
    if j == 0 {
      ImageOfZero(m);
      ReduceZero(Probed(m, j), 64);
    } else {
      ProbedInvariant(m, j - 1);
      ProbeStep(m, Probed(m, j - 1), Probed(m, j), j);
    }
  }

  lemma {:induction false} ProbeStep(m: Mapper, rows: seq<BasisRow>, out: seq<BasisRow>, j: nat)
    requires m.Affine() && 0 < j <= m.AddrBits() <= |rows|
    requires out == Inserted(rows, m.Image(Pow2(j - 1)), Pow2(j - 1), |rows|)
    requires Triangular(rows) && Represents(m, rows)
    requires forall a: nat :: a < Pow2(j - 1) ==> Reducible(rows, m.Image(a))
    ensures Triangular(out) && Represents(m, out)
    ensures forall a: nat :: a < Pow2(j) ==> Reducible(out, m.Image(a))
  {
    var k := Pow2(j - 1);
    Pow2Monotone(j, m.AddrBits());
    ImageFitsWord(m, k, |rows|);
    InsertedCorrect(m, rows, m.Image(k), k, |rows|);
    forall a: nat | a < Pow2(j) ensures Reducible(out, m.Image(a)) {
      ProbeCovers(m, rows, out, j, a);
    }
  }

  /** One more probe doubles the addresses whose image reduces to zero. */
  lemma {:induction false} ProbeCovers(m: Mapper, rows: seq<BasisRow>, out: seq<BasisRow>, j: nat, a: nat)
    requires m.Affine() && 0 < j && Pow2(j) <= Pow2(m.AddrBits()) && a < Pow2(j)
    requires out == Inserted(rows, m.Image(Pow2(j - 1)), Pow2(j - 1), |rows|)
    requires Triangular(rows)
    requires forall b: nat :: b < Pow2(j - 1) ==> Reducible(rows, m.Image(b))
    requires Reducible(out, m.Image(Pow2(j - 1)))
    ensures Reducible(out, m.Image(a))
  {
    var k := Pow2(j - 1);
    var low := if a < k then a else a - k;
    assert Reducible(rows, m.Image(low));
    InsertedKeepsReducible(rows, m.Image(k), k, m.Image(low));
    if a >= k {
      XorHighBit(low, j - 1);
      assert m.LinearAt(low, k);
      ReduceLinear(out, m.Image(low), m.Image(k), |out|);
      XorZero(0);
    }
  }

  /** The solver answers exactly on reducible targets, with address bits whose image is the target. */
  lemma {:induction false} SolvedCorrect(m: Mapper, rows: seq<BasisRow>, r: nat, a: nat, p: nat)
    requires p <= |rows| && Triangular(rows) && Represents(m, rows) && m.Affine()
    requires a < Pow2(m.AddrBits()) && r < Pow2(p)
    ensures SolvedFrom(rows, r, a, p).Solved? <==> Reduce(rows, r, p) == 0
    ensures SolvedFrom(rows, r, a, p).Solved? ==>
      var x := SolvedFrom(rows, r, a, p).addressBits;
      x < Pow2(m.AddrBits()) && m.Image(x) == Xor(m.Image(a), r)
    decreases p
  {
    if p == 0 {
      XorZero(m.Image(a));
    } else {
      var q := p - 1;
      if !Bit(r, q) {
        DropTopBit(r, q);
        SolvedCorrect(m, rows, r, a, q);
      } else if rows[q].used {
        var w, b := rows[q].vector, rows[q].addressBits;
        EliminateBit(r, w, q);
        XorBelow(a, b, m.AddrBits());
        assert m.LinearAt(a, b);
        SolvedCorrect(m, rows, Xor(r, w), Xor(a, b), q);
        XorExchange(m.Image(a), w, r, w);
        XorSelf(w);
        XorZero(Xor(m.Image(a), r));
      } else {
        ReduceKeepsBit(rows, r, q, q);
        BitAbove(0, 0, q);
      }
    }
  }

  /** Packing loses nothing on in-range coordinates. */
  lemma {:induction false} PackInjective(ws: seq<nat>, c: seq<int>, d: seq<int>)
    requires InRange(ws, c) && InRange(ws, d) && Pack(ws, c) == Pack(ws, d)
    ensures c == d
  {
    MaskedInRange(ws, c);
    MaskedInRange(ws, d);
    SplitJoin(ws, c);
    SplitJoin(ws, d);
  }

  lemma {:induction false} MaskedInRange(ws: seq<nat>, c: seq<int>)
    requires InRange(ws, c)
    ensures Masked(ws, c) == c
  {
    forall i | 0 <= i < |ws| ensures Masked(ws, c)[i] == c[i] {
      assert Pow2(0) == 1;
      SmallMod(c[i], Pow2(ws[i]));
    }
  }

  lemma {:induction false} SmallMod(x: nat, d: nat)
    requires x < d
    ensures x % d == x
  {
  }

  // ---- what encode promises --------------------------------------------------------------------

  /** Soundness, with no assumption on the mapper at all: an answer always decodes to the request,
      and the status tells the range check and the missing preimage apart. */
  lemma {:induction false} EncodeSound(m: Mapper, coords: seq<int>)
    ensures Encode(m, coords).Encoded? ==>
      m.Ready() && Accepts(m.levelBits, coords) && m.decode(Encode(m, coords).linear) == coords
    ensures Encode(m, coords) == OutOfRange <==> m.Ready() && !Accepts(m.levelBits, coords)
  {
  }

  /** Completeness: for an affine mapper the inverter answers exactly the accepted coordinates that
      some address decodes to. */
  lemma {:induction false} EncodeExact(m: Mapper, coords: seq<int>)
    requires m.Ready() && m.Affine() && m.DecodesInRange()
    ensures Encode(m, coords).Encoded? <==>
      Accepts(m.levelBits, coords) && exists a: nat :: a < Pow2(m.AddrBits()) && m.decode(m.Linear(a)) == coords
    ensures Encode(m, coords).Encoded? ==>
      exists x: nat :: x < Pow2(m.AddrBits()) && Encode(m, coords).linear == m.Linear(x)
  {
    if Accepts(m.levelBits, coords) {
      var n, rows := m.AddrBits(), Probed(m, m.AddrBits());
      var c0 := Pack(m.levelBits, m.decode(0));
      var target := Xor(Pack(m.levelBits, coords), c0);
      ProbedInvariant(m, n);
      JoinBelow(m.levelBits, Masked(m.levelBits, coords));
      JoinBelow(m.levelBits, Masked(m.levelBits, m.decode(0)));
      XorBelow(Pack(m.levelBits, coords), c0, n);
      Pow2Monotone(n, |rows|);
      SolvedCorrect(m, rows, target, 0, |rows|);
      if exists a: nat :: a < Pow2(n) && m.decode(m.Linear(a)) == coords {
        var a: nat :| a < Pow2(n) && m.decode(m.Linear(a)) == coords;
        assert m.Image(a) == target;
        assert Reducible(rows, target);
        var x := SolvedFrom(rows, target, 0, 64).addressBits;
        ImageOfZero(m);
        XorZero(target);
        XorCancels(Pack(m.levelBits, m.decode(m.Linear(x))), c0);
        XorCancels(Pack(m.levelBits, coords), c0);
        PackInjective(m.levelBits, m.decode(m.Linear(x)), coords);
      }
    }
  }

  lemma {:induction false} ImageOfZero(m: Mapper)
    ensures m.Image(0) == 0
  {
    XorSelf(Pack(m.levelBits, m.decode(0)));
  }

  /** For a mapper that is also injective on the device, encode is the two-sided inverse of decode. */
  lemma {:induction false} EncodeInverts(m: Mapper, a: nat)
    requires m.Ready() && m.Affine() && m.DecodesInRange() && a < Pow2(m.AddrBits())
    requires Accepts(m.levelBits, m.decode(m.Linear(a)))
    requires forall b: nat :: b < Pow2(m.AddrBits()) && m.decode(m.Linear(b)) == m.decode(m.Linear(a)) ==> b == a
    ensures Encode(m, m.decode(m.Linear(a))) == Encoded(m.Linear(a))
  {
    EncodeExact(m, m.decode(m.Linear(a)));
    EncodeSound(m, m.decode(m.Linear(a)));
  }
}
