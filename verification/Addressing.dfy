/** The public address projection: geometry checks, field layout, decode and encode.

    A geometry is the worker's report of level names and sizes. From it the projection derives one
    field per mapped level, Column lowest and Row highest, each at its own shift. The results: the
    loops agree with the field list, encode and decode are inverse on the device, and the projected
    capacity equals the worker's product formula exactly when no level lies between Row and
    Column. */
module Addressing {
  import opened Bits
  import opened BitFields
  import opened ErrorCodes

  /** A level name; any name the projection does not treat specially is `Other`. */
  datatype Level = Channel | Row | Bank | Column | Other(name: string)

  /** Level names and sizes in device order. */
  datatype Geometry = Geometry(txBytes: int, prefetch: int, names: seq<Level>, sizes: seq<int>)

  /** A coordinate as it arrives in a JSON request. */
  datatype Json = Number(n: int) | Boolean(b: bool) | NotNumber

  /** What `_validate_levels` accepts. */
  predicate Coherent(g: Geometry) {
    && |g.names| == |g.sizes| > 0
    && (forall i, j :: 0 <= i < j < |g.names| ==> g.names[i] != g.names[j])
    && g.names[0] == Channel && g.names[|g.names| - 1] == Column
    && Row in g.names && Bank in g.names
    && forall i :: 0 <= i < |g.sizes| ==> g.sizes[i] >= 1
  }

  function IndexOf(names: seq<Level>, name: Level): (i: nat)
    requires name in names
    ensures i < |names| && names[i] == name
  {
    if names[0] == name then 0 else 1 + IndexOf(names[1..], name)
  }

  // ---- powers of two ---------------------------------------------------------------------------

  /** `a & b`. */
  function And(a: nat, b: nat): nat {
    if a == 0 || b == 0 then 0
    else (if a % 2 == 1 && b % 2 == 1 then 1 else 0) + 2 * And(a / 2, b / 2)
  }

  function BitLength(n: nat): nat {
    if n == 0 then 0 else 1 + BitLength(n / 2)
  }

  function Log2Exact(value: int): Result<nat> {
    if value <= 0 || And(value, value - 1) != 0 then Err(BadSchema)
    else Ok(BitLength(value) - 1)
  }

  lemma {:induction false} AndSelf(a: nat)
    ensures And(a, a) == a
  {
    if a > 0 { AndSelf(a / 2); }
  }

  lemma {:induction false} AndHalves(m: nat)
    requires m > 0
    ensures And(2 * m, 2 * m - 1) == 2 * And(m, m - 1)
    ensures BitLength(2 * m) == 1 + BitLength(m)
  {
    assert (2 * m - 1) / 2 == m - 1 && (2 * m) / 2 == m && (2 * m) % 2 == 0;
    assert m == 1 ==> And(1, 0) == 0;
  }

  /** The bit trick accepts every power of two and returns its exponent ... */
  lemma {:induction false} Pow2Accepted(k: nat)
    ensures Log2Exact(Pow2(k)) == Ok(k)
  {
    if k == 0 {
      assert BitLength(1) == 1 && And(1, 0) == 0;
    } else {
      Pow2Accepted(k - 1);
      AndHalves(Pow2(k - 1));
    }
  }

  /** ... and accepts nothing else. */
  lemma {:induction false} AcceptedIsPow2(value: int)
    requires Log2Exact(value).Ok?
    ensures value == Pow2(Log2Exact(value).value)
    decreases if value < 0 then 0 else value
  {
    if value > 1 {
      if value % 2 == 1 {
        assert value - 1 == 2 * (value / 2) && (value - 1) / 2 == value / 2;
        AndSelf(value / 2);
      } else {
        assert value == 2 * (value / 2);
        AndHalves(value / 2);
        AcceptedIsPow2(value / 2);
      }
    } else {
      assert BitLength(1) == 1;
    }
  }

  // ---- the field list of a geometry --------------------------------------------------------------

  predicate IsPow2(value: int) { Log2Exact(value).Ok? }

  function Log2(value: int): nat
    requires IsPow2(value)
  {
    Log2Exact(value).value
  }

  /** The geometries the projection accepts; every other one is refused at construction. */
  predicate Projectable(g: Geometry) {
    && Coherent(g) && |g.names| >= 2
    && IsPow2(g.txBytes) && IsPow2(g.prefetch) && g.sizes[0] == 1
    && (forall i :: 1 <= i < |g.sizes| ==> IsPow2(g.sizes[i]))
    && Log2(g.sizes[|g.sizes| - 1]) >= Log2(g.prefetch)
  }

  /** Field width of level `i`; Column loses the prefetch bits. */
  function Width(g: Geometry, i: nat): nat
    requires Projectable(g) && 1 <= i < |g.sizes|
  {
    if i == |g.sizes| - 1 then Log2(g.sizes[i]) - Log2(g.prefetch) else Log2(g.sizes[i])
  }

  function RowPos(g: Geometry): (r: nat)
    requires Coherent(g)
    ensures r < |g.names| && g.names[r] == Row
  {
    IndexOf(g.names, Row)
  }

  function FieldNames(g: Geometry): (fs: seq<Level>)
    requires Projectable(g)
  {
    [Column] + g.names[1..RowPos(g) + 1]
  }

  /** Widths in placement order: Column, then the levels up to Row. */
  function Fields(g: Geometry): (ws: seq<nat>)
    requires Projectable(g)
    ensures |ws| == |FieldNames(g)| == RowPos(g) + 1
  {
    [Width(g, |g.sizes| - 1)] + Widths(g, 1, RowPos(g) + 1)
  }

  function Widths(g: Geometry, lo: nat, hi: nat): (ws: seq<nat>)
    requires Projectable(g) && 1 <= lo <= hi <= |g.sizes|
    ensures |ws| == hi - lo && forall i :: 0 <= i < |ws| ==> ws[i] == Width(g, lo + i)
    decreases hi - lo
  {
    if lo == hi then [] else [Width(g, lo)] + Widths(g, lo + 1, hi)
  }

  function TxOffset(g: Geometry): nat
    requires Projectable(g)
  {
    Log2(g.txBytes)
  }

  // ---- the requests ------------------------------------------------------------------------------

  function Coord(coords: map<Level, Json>, name: Level): Json {
    if name in coords then coords[name] else Number(0)
  }

  predicate CoordFits(coords: map<Level, Json>, name: Level, width: nat) {
    Coord(coords, name).Number? && 0 <= Coord(coords, name).n < Pow2(width)
  }

  /** A field list: names and widths in placement order. */
  predicate Encodable(names: seq<Level>, ws: seq<nat>, coords: map<Level, Json>)
    requires |names| == |ws|
  {
    && (forall i :: 0 <= i < |ws| ==> CoordFits(coords, names[i], ws[i]))
    && Coord(coords, Channel) == Number(0)
  }

  /** The requested field values; a value that does not fit counts as 0 (the request is refused). */
  function Values(names: seq<Level>, ws: seq<nat>, coords: map<Level, Json>): (vs: seq<int>)
    requires |names| == |ws|
    ensures InRange(ws, vs)
  {
    seq(|ws|, i requires 0 <= i < |ws| => if CoordFits(coords, names[i], ws[i]) then Coord(coords, names[i]).n else 0)
  }

  /** The shift of field `i`: above the transaction offset and every earlier field. */
  function Shift(t: nat, ws: seq<nat>, i: nat): nat
    requires i <= |ws|
  {
    if i == 0 then t else Shift(t, ws, i - 1) + ws[i - 1]
  }

  /** The shift dictionary after placing the first `j` fields. */
  function ShiftMap(names: seq<Level>, t: nat, ws: seq<nat>, j: nat): map<Level, nat>
    requires j <= |names| == |ws|
  {
    if j == 0 then map[] else ShiftMap(names, t, ws, j - 1)[names[j - 1] := Shift(t, ws, j - 1)]
  }

  lemma {:induction false} ShiftMapAt(names: seq<Level>, t: nat, ws: seq<nat>, j: nat, i: nat)
    requires i < j <= |names| == |ws| && Distinct(names)
    ensures names[i] in ShiftMap(names, t, ws, j) && ShiftMap(names, t, ws, j)[names[i]] == Shift(t, ws, i)
  {
    if i < j - 1 { ShiftMapAt(names, t, ws, j - 1, i); }
  }

  /** The word after or-ing the first `i` values into place. */
  function OrWord(t: nat, ws: seq<nat>, vs: seq<int>, i: nat): nat
    requires InRange(ws, vs) && i <= |ws|
  {
    if i == 0 then 0 else Or(OrWord(t, ws, vs, i - 1), Shl(vs[i - 1], Shift(t, ws, i - 1)))
  }

  lemma {:induction false} ShiftIsOffset(t: nat, ws: seq<nat>, i: nat)
    requires i <= |ws|
    ensures Shift(t, ws, i) == t + Offset(ws, i)
  {
    if i > 0 {
      ShiftIsOffset(t, ws, i - 1);
      TotalTake(ws, i - 1);
    }
  }

  lemma {:induction false} OrWordIsJoin(t: nat, ws: seq<nat>, vs: seq<int>, i: nat)
    requires InRange(ws, vs) && i <= |ws|
    ensures InRange(ws[..i], vs[..i]) && OrWord(t, ws, vs, i) == Pow2(t) * Join(ws[..i], vs[..i])
    ensures OrWord(t, ws, vs, i) < Pow2(Shift(t, ws, i))
  {
    hide Pow2, Or, Shift, Total;
    ShiftIsOffset(t, ws, i);
    JoinBelow(ws[..i], vs[..i]);
    Pow2Add(t, Offset(ws, i));
    FieldsBelow(Pow2(t), Pow2(Offset(ws, i)), Join(ws[..i], vs[..i]), 0);
    if i > 0 {
      var j := i - 1;
      OrWordIsJoin(t, ws, vs, j);
      OrAbove(OrWord(t, ws, vs, j), vs[j], Shift(t, ws, j));
      assert ws[..i] == ws[..j] + [ws[j]] && vs[..i] == vs[..j] + [vs[j]];
      JoinAppend(ws[..j], vs[..j], [ws[j]], [vs[j]]);
      assert Join([ws[j]], [vs[j]]) == vs[j];
      ShiftIsOffset(t, ws, j);
      Pow2Add(t, Offset(ws, j));
      MulSplit(Pow2(t), Pow2(Offset(ws, j)), vs[j], Join(ws[..j], vs[..j]));
    }
  }

  lemma {:induction false} ShiftDecodes(t: nat, ws: seq<nat>, linear: nat, i: nat)
    requires i < |ws|
    ensures Low(Shr(linear, Shift(t, ws, i)), ws[i]) == Split(ws, Shr(linear, t))[i]
  {
    ShiftIsOffset(t, ws, i);
    SplitAt(ws, Shr(linear, t), i);
    ShrShr(linear, t, Offset(ws, i));
  }

  ghost predicate Distinct(names: seq<Level>) {
    forall i, j :: 0 <= i < j < |names| ==> names[i] != names[j]
  }

  class AddressMapper {
    const geometry: Geometry
    ghost var fields: seq<nat>
    var txOffset: nat
    var widths: map<Level, nat>
    var placement: seq<Level>
    var shifts: map<Level, nat>
    var totalBits: nat

    /** The dictionaries describe the field list `fields`, each field at its own shift. */
    ghost predicate Valid()
      reads this
    {
      && |placement| == |fields| && Channel !in placement
      && (forall i :: 0 <= i < |placement| ==> Placed(i))
      && totalBits == Shift(txOffset, fields, |fields|)
    }

    ghost predicate Placed(i: nat)
      requires i < |placement| == |fields|
      reads this`placement, this`fields, this`txOffset, this`widths, this`shifts
    {
      && placement[i] in widths && widths[placement[i]] == fields[i]
      && placement[i] in shifts && shifts[placement[i]] == Shift(txOffset, fields, i)
    }

    /** Derive the layout of a projectable geometry. */
    constructor (g: Geometry)
      requires Projectable(g)
      ensures geometry == g && Valid()
      ensures txOffset == TxOffset(g) && placement == FieldNames(g) && fields == Fields(g)
    {
      geometry := g;
      fields := Fields(g);
      txOffset := Log2(g.txBytes);
      placement := FieldNames(g);
      shifts := map[];
      totalBits := 0;
      NamesDistinct(g);
      widths := map[];
      new;
      DeriveWidths();
      PlaceFields();
    }

    method DeriveWidths()
      requires Projectable(geometry) && placement == FieldNames(geometry) && fields == Fields(geometry)
      modifies this`widths
      ensures |placement| == |fields|
      ensures forall k :: 0 <= k < |placement| ==> placement[k] in widths && widths[placement[k]] == fields[k]
    {
      var g := geometry;
      var i := 1;
      while i < |g.names|
        invariant 1 <= i <= |g.names|
        invariant forall k :: 1 <= k < i ==> g.names[k] in widths && widths[g.names[k]] == Width(g, k)
      {
        widths := widths[g.names[i] := Width(g, i)];
        i := i + 1;
      }
      PlacementWidths(g, widths);
    }

    method PlaceFields()
      requires |placement| == |fields| && Distinct(placement) && Channel !in placement
      requires forall k :: 0 <= k < |placement| ==> placement[k] in widths && widths[placement[k]] == fields[k]
      modifies this`shifts, this`totalBits
      ensures Valid()
    {
      shifts := map[];
      var shift := txOffset;
      var j := 0;
      while j < |placement|
        invariant 0 <= j <= |placement|
        invariant shift == Shift(txOffset, fields, j)
        invariant shifts == ShiftMap(placement, txOffset, fields, j)
      {
        shifts := shifts[placement[j] := shift];
        shift := shift + widths[placement[j]];
        j := j + 1;
      }
      totalBits := shift;
      forall k | 0 <= k < |placement| ensures Placed(k) {
        ShiftMapAt(placement, txOffset, fields, j, k);
      }
    }

    /** Shift and mask every field out of a linear address. */
    method Decode(linear: nat) returns (coords: map<Level, int>)
      requires Valid()
      ensures coords.Keys == {Channel} + (set f | f in placement)
      ensures coords[Channel] == 0
      ensures forall i :: 0 <= i < |fields| ==> coords[placement[i]] == Decoded(fields, txOffset, linear)[i]
    {
      coords := map[Channel := 0];
      var i := 0;
      while i < |placement|
        invariant 0 <= i <= |placement|
        invariant coords.Keys == {Channel} + (set f | f in placement[..i])
        invariant coords[Channel] == 0
        invariant forall f :: f in placement[..i] ==>
          f in shifts && f in widths && coords[f] == Low(Shr(linear, shifts[f]), widths[f])
      {
        var f := placement[i];
        assert Placed(i) && placement[..i + 1] == placement[..i] + [f];
        coords := coords[f := Low(Shr(linear, shifts[f]), widths[f])];
        i := i + 1;
      }
      assert placement[..|placement|] == placement;
      forall i | 0 <= i < |fields| ensures coords[placement[i]] == Decoded(fields, txOffset, linear)[i] {
        assert Placed(i);
        ShiftDecodes(txOffset, fields, linear, i);
      }
    }

    /** Or every field into place; any field that is not an in-range integer is refused. */
    method Encode(coords: map<Level, Json>) returns (r: Result<nat>)
      requires Valid()
      ensures r == if Encodable(placement, fields, coords)
                   then Ok(Shl(Join(fields, Values(placement, fields, coords)), txOffset))
                   else Err(BadSchema)
    {
      ghost var vs := Values(placement, fields, coords);
      var linear := 0;
      var i := 0;
      while i < |placement|
        invariant 0 <= i <= |placement|
        invariant forall k :: 0 <= k < i ==> CoordFits(coords, placement[k], fields[k])
        invariant linear == OrWord(txOffset, fields, vs, i)
      {
        assert Placed(i);
        var value := Coord(coords, placement[i]);
        if !value.Number? || value.n < 0 || value.n >= Pow2(widths[placement[i]]) { return Err(BadSchema); }
        assert CoordFits(coords, placement[i], fields[i]) && vs[i] == value.n;
        linear := Or(linear, Shl(value.n, shifts[placement[i]]));
        i := i + 1;
      }
      if Coord(coords, Channel) != Number(0) { return Err(BadSchema); }
      OrWordIsJoin(txOffset, fields, vs, i);
      assert fields[..i] == fields && vs[..i] == vs;
      return Ok(linear);
    }
  }

  /** Build the projection, or refuse a geometry it cannot represent. */
  method Project(g: Geometry) returns (mapper: AddressMapper?)
    ensures mapper != null <==> Projectable(g)
    ensures mapper != null ==>
      && fresh(mapper) && mapper.geometry == g && mapper.Valid()
      && mapper.txOffset == TxOffset(g) && mapper.placement == FieldNames(g) && mapper.fields == Fields(g)
  {
    if Projectable(g) {
      mapper := new AddressMapper(g);
    } else {
      mapper := null;
    }
  }

  /** What decoding returns for each field of a list. */
  function Decoded(ws: seq<nat>, t: nat, linear: nat): (vs: seq<int>)
    ensures |vs| == |ws|
  {
    Split(ws, Shr(linear, t))
  }

  lemma {:induction false} NamesDistinct(g: Geometry)
    requires Projectable(g)
    ensures 1 <= RowPos(g) < |g.names| - 1
    ensures Channel !in FieldNames(g) && Distinct(FieldNames(g))
  {
    var fs := FieldNames(g);
    forall i | 1 <= i < |fs| ensures fs[i] == g.names[i] {}
  }

  lemma {:induction false} PlacementWidths(g: Geometry, widths: map<Level, nat>)
    requires Projectable(g)
    requires forall k :: 1 <= k < |g.names| ==> g.names[k] in widths && widths[g.names[k]] == Width(g, k)
    ensures forall k :: 0 <= k < |FieldNames(g)| ==>
      FieldNames(g)[k] in widths && widths[FieldNames(g)[k]] == Fields(g)[k]
  {
    NamesDistinct(g);
    forall k | 0 <= k < |FieldNames(g)|
      ensures FieldNames(g)[k] in widths && widths[FieldNames(g)[k]] == Fields(g)[k]
    {
      var i := if k == 0 then |g.names| - 1 else k;
      assert FieldNames(g)[k] == g.names[i] && Fields(g)[k] == Width(g, i);
    }
  }

  // ---- the two directions ------------------------------------------------------------------------

  function Asked(names: seq<Level>, vs: seq<int>): (coords: map<Level, Json>)
    requires |names| == |vs|
  {
    if names == [] then map[] else Asked(names[1..], vs[1..])[names[0] := Number(vs[0])]
  }

  lemma {:induction false} AskedAt(names: seq<Level>, vs: seq<int>)
    requires |names| == |vs| && Distinct(names) && Channel !in names
    ensures forall i :: 0 <= i < |names| ==> Coord(Asked(names, vs), names[i]) == Number(vs[i])
    ensures Coord(Asked(names, vs), Channel) == Number(0)
  {
    if names != [] {
      AskedAt(names[1..], vs[1..]);
      forall i | 1 <= i < |names| ensures Coord(Asked(names, vs), names[i]) == Number(vs[i]) {
        assert names[1..][i - 1] == names[i];
      }
    }
  }

  /** Encoding accepted coordinates gives an aligned address inside the device, and decoding it gives
      back every requested field. */
  lemma {:induction false} DecodeOfEncode(names: seq<Level>, ws: seq<nat>, t: nat, coords: map<Level, Json>)
    requires |names| == |ws| && Encodable(names, ws, coords)
    ensures var linear := Pow2(t) * Join(ws, Values(names, ws, coords));
      && linear < Pow2(t + Total(ws)) && Low(linear, t) == 0
      && forall i :: 0 <= i < |ws| ==> Decoded(ws, t, linear)[i] == Coord(coords, names[i]).n
  {
    var vs := Values(names, ws, coords);
    SlicesUnique(Join(ws, vs), 0, t);
    SplitJoin(ws, vs);
    JoinBelow(ws, vs);
    Pow2Add(t, Total(ws));
    FieldsBelow(Pow2(t), Pow2(Total(ws)), Join(ws, vs), 0);
  }

  /** Encoding the decode of a device address gives that address with its byte offset cleared. */
  lemma {:induction false} EncodeOfDecode(names: seq<Level>, ws: seq<nat>, t: nat, linear: nat)
    requires |names| == |ws| && Distinct(names) && Channel !in names
    requires linear < Pow2(t + Total(ws))
    ensures var coords := Asked(names, Decoded(ws, t, linear));
      Encodable(names, ws, coords) && Pow2(t) * Join(ws, Values(names, ws, coords)) == linear - Low(linear, t)
  {
    var vs := Decoded(ws, t, linear);
    var coords := Asked(names, vs);
    AskedAt(names, vs);
    Slices(linear, t);
    Pow2Add(t, Total(ws));
    QuotientBelow(Pow2(t), Pow2(Total(ws)), Shr(linear, t), Low(linear, t));
    JoinSplitBelow(ws, Shr(linear, t));
    assert Values(names, ws, coords) == vs;
  }

  lemma {:induction false} QuotientBelow(p: nat, q: nat, hi: nat, lo: nat)
    requires p * hi + lo < p * q
    ensures hi < q
  {
    if hi >= q { MulMonotone(p, q, hi); }
  }

  /** Above the device every field wraps: a device address and the same address plus any multiple of the capacity
      decode alike, which is why callers bound addresses. */
  lemma {:induction false} DecodeAliases(ws: seq<nat>, t: nat, linear: nat, wraps: nat)
    requires linear < Pow2(t + Total(ws))
    ensures Decoded(ws, t, linear + wraps * Pow2(t + Total(ws))) == Decoded(ws, t, linear)
  {
    var n := Total(ws);
    Slices(linear, t);
    Pow2Add(t, n);
    hide Pow2, Total, Split, Shr, Low;
    var hi, lo := Shr(linear, t), Low(linear, t);
    QuotientBelow(Pow2(t), Pow2(n), hi, lo);
    WrapSplits(Pow2(t), Pow2(n), wraps, hi, lo);
    SlicesUnique(Pow2(n) * wraps + hi, lo, t);
    SplitWraps(ws, hi, wraps);
  }

  lemma {:induction false} WrapSplits(p: nat, q: nat, wraps: nat, hi: nat, lo: nat)
    ensures (p * hi + lo) + wraps * (p * q) == p * (q * wraps + hi) + lo
  {
    assert p * (q * wraps + hi) == p * (q * wraps) + p * hi;
    assert p * (q * wraps) == wraps * (p * q);
  }

  lemma {:induction false} SplitWraps(ws: seq<nat>, lo: nat, hi: nat)
    requires lo < Pow2(Total(ws))
    ensures Split(ws, Pow2(Total(ws)) * hi + lo) == Split(ws, lo)
  {
    Pow2Exceeds(hi);
    SplitTop(ws, hi, lo, hi);
    SplitPrefix(ws, [hi], Pow2(Total(ws)) * hi + lo);
  }

  lemma {:induction false} SplitPrefix(ws: seq<nat>, us: seq<nat>, n: nat)
    ensures Split(ws + us, n)[..|ws|] == Split(ws, n)
  {
    if ws == [] {
      assert ws + us == us;
    } else {
      assert (ws + us)[1..] == ws[1..] + us;
      SplitPrefix(ws[1..], us, Shr(n, ws[0]));
    }
  }
}
