/** Quantities derived from the reported geometry: the row stride, the row span and the capacity.

    The engine, the compiler and the worker each derive one of them by its own formula. The lemmas
    say what each is in terms of the field layout, and exactly when the projected capacity and the
    worker's product formula agree. */
module DeviceGeometry {
  import opened Bits
  import opened BitFields
  import opened Addressing

  /** Linear bytes one row occupies in its own bank. */
  function RowSpan(g: Geometry): int
    requires Projectable(g)
  {
    AcceptedIsPow2(g.prefetch);
    g.txBytes * (g.sizes[|g.sizes| - 1] / g.prefetch)
  }

  /** Width of everything below Row, accumulated level by level as the worker reports them. */
  method RowStride(g: Geometry) returns (stride: nat)
    requires Projectable(g)
    ensures stride == Pow2(Shift(TxOffset(g), Fields(g), RowPos(g)))
    ensures stride == RowSpan(g) * Product(g.sizes[..RowPos(g)])
  {
    NamesDistinct(g);
    BytesBelow(g, RowPos(g));
    hide Product, RowSpan;
    var rowIndex := RowPos(g);
    var txOffset := Log2(g.txBytes);
    var belowRow := Log2(g.sizes[|g.sizes| - 1]) - Log2(g.prefetch);
    var i := 1;
    while i < rowIndex
      invariant 1 <= i <= rowIndex
      invariant txOffset + belowRow == Shift(txOffset, Fields(g), i)
    {
      assert Fields(g)[i] == Width(g, i);
      belowRow := belowRow + Log2(g.sizes[i]);
      i := i + 1;
    }
    stride := Pow2(txOffset + belowRow);
  }

  function Product(sizes: seq<int>): int {
    if sizes == [] then 1 else Product(sizes[..|sizes| - 1]) * sizes[|sizes| - 1]
  }

  /** The worker's capacity: transaction bytes times all cells, divided by the prefetch, and 0 for a geometry that
      is not published or has a size that is not positive. */
  method WorkerCapacity(g: Geometry, published: bool) returns (cap: int)
    ensures published && g.txBytes > 0 && g.prefetch > 0 && (forall i :: 0 <= i < |g.sizes| ==> g.sizes[i] > 0) ==>
      cap == g.txBytes * Product(g.sizes) / g.prefetch
    ensures !published || g.txBytes <= 0 || g.prefetch <= 0 || (exists i :: 0 <= i < |g.sizes| && g.sizes[i] <= 0) ==>
      cap == 0
  {
    if !published || g.txBytes <= 0 || g.prefetch <= 0 { return 0; }
    var cells := 1;
    for i := 0 to |g.sizes|
      invariant cells == Product(g.sizes[..i]) && forall j :: 0 <= j < i ==> g.sizes[j] > 0
    {
      if g.sizes[i] <= 0 { return 0; }
      assert g.sizes[..i + 1][..i] == g.sizes[..i];
      cells := cells * g.sizes[i];
    }
    assert g.sizes[..|g.sizes|] == g.sizes;
    cap := g.txBytes * cells / g.prefetch;
  }

  lemma {:induction false} Pow2Injective(i: nat, j: nat)
    requires Pow2(i) == Pow2(j)
    ensures i == j
  {
    if i < j { Pow2Monotone(i + 1, j); }
    if j < i { Pow2Monotone(j + 1, i); }
  }

  lemma {:induction false} Pow2Quotient(i: nat, j: nat)
    ensures Pow2(i + j) / Pow2(j) == Pow2(i)
  {
    Pow2Add(i, j);
    ExactQuotient(Pow2(i), Pow2(j));
  }

  lemma {:induction false} ExactQuotient(a: nat, b: nat)
    requires b > 0
    ensures a * b / b == a
  {
    var q := a * b / b;
    assert b * q <= b * a < b * q + b;
    if q < a { MulMonotone(b, q + 1, a); } else if a < q { MulMonotone(b, a + 1, q); }
  }

  /** A row's own bytes: the column field above the transaction offset. */
  lemma {:induction false} SpanIsColumnBlock(g: Geometry)
    requires Projectable(g)
    ensures RowSpan(g) == Pow2(TxOffset(g) + Fields(g)[0])
  {
    var c := g.sizes[|g.sizes| - 1];
    NamesDistinct(g);
    AcceptedIsPow2(g.prefetch);
    AcceptedIsPow2(c);
    AcceptedIsPow2(g.txBytes);
    Pow2Quotient(Log2(c) - Log2(g.prefetch), Log2(g.prefetch));
    Pow2Add(TxOffset(g), Fields(g)[0]);
  }

  /** The product of the first sizes, as a power of two; Column still carries its prefetch bits. */
  lemma {:induction false} ProductIsPow2(g: Geometry, k: nat)
    requires Projectable(g) && 1 <= k < |g.sizes|
    ensures Product(g.sizes[..k]) == Pow2(Total(Widths(g, 1, k)))
  {
    var s := g.sizes[..k];
    if k == 1 {
      assert s == [1] && s[..0] == [];
      assert Product(s) == Product(s[..0]) * 1;
    } else {
      ProductIsPow2(g, k - 1);
      AcceptedIsPow2(g.sizes[k - 1]);
      LastWidth(g, k - 1);
      hide Pow2, Total, Widths, Log2, IsPow2, Product;
      assert s == g.sizes[..k - 1] + [g.sizes[k - 1]];
      ProductStep(g.sizes[..k - 1], g.sizes[k - 1]);
      Pow2Add(Total(Widths(g, 1, k - 1)), Width(g, k - 1));
    }
  }

  lemma {:induction false} WidthsAppend(g: Geometry, lo: nat, mid: nat, hi: nat)
    requires Projectable(g) && 1 <= lo <= mid <= hi <= |g.sizes|
    ensures Widths(g, lo, hi) == Widths(g, lo, mid) + Widths(g, mid, hi)
    ensures Total(Widths(g, lo, hi)) == Total(Widths(g, lo, mid)) + Total(Widths(g, mid, hi))
  {
    assert Widths(g, lo, hi) == Widths(g, lo, mid) + Widths(g, mid, hi);
    TotalAppend(Widths(g, lo, mid), Widths(g, mid, hi));
  }

  lemma {:induction false} LastWidth(g: Geometry, i: nat)
    requires Projectable(g) && 1 <= i < |g.sizes|
    ensures Total(Widths(g, 1, i + 1)) == Total(Widths(g, 1, i)) + Width(g, i)
  {
    WidthsAppend(g, 1, i, i + 1);
    assert Widths(g, i, i + 1) == [Width(g, i)];
    hide Width, Projectable;
    assert Total([Width(g, i)]) == Width(g, i);
  }

  lemma {:induction false} WorkerCapacityIsPow2(g: Geometry)
    requires Projectable(g)
    ensures g.prefetch != 0
    ensures g.txBytes * Product(g.sizes) / g.prefetch == Pow2(TxOffset(g) + Total(Widths(g, 1, |g.sizes|)))
  {
    var n := |g.sizes|;
    CellsArePow2(g);
    ColumnTotal(g);
    AcceptedIsPow2(g.prefetch);
    AcceptedIsPow2(g.txBytes);
    hide Product, Pow2, Widths, Log2, Total;
    CapacityQuotient(TxOffset(g), Total(Widths(g, 1, n - 1)), Log2(g.sizes[n - 1]), Log2(g.prefetch));
  }

  lemma {:induction false} CapacityQuotient(t: nat, x: nat, c: nat, p: nat)
    requires p <= c
    ensures Pow2(t) * Pow2(x + c) / Pow2(p) == Pow2(t + x + (c - p))
  {
    hide Pow2;
    Pow2Add(t, x + c);
    Pow2Quotient(t + x + (c - p), p);
  }

  lemma {:induction false} ColumnTotal(g: Geometry)
    requires Projectable(g)
    ensures var n, p := |g.sizes|, Log2(g.prefetch);
      var c := Log2(g.sizes[n - 1]);
      p <= c && Total(Widths(g, 1, n)) == Total(Widths(g, 1, n - 1)) + (c - p)
  {
    var n := |g.sizes|;
    WidthsAppend(g, 1, n - 1, n);
    assert Widths(g, n - 1, n) == [Width(g, n - 1)];
  }

  lemma {:induction false} CellsArePow2(g: Geometry)
    requires Projectable(g)
    ensures var n := |g.sizes|; Product(g.sizes) == Pow2(Total(Widths(g, 1, n - 1)) + Log2(g.sizes[n - 1]))
  {
    var n := |g.sizes|;
    ProductIsPow2(g, n - 1);
    AcceptedIsPow2(g.sizes[n - 1]);
    Pow2Add(Total(Widths(g, 1, n - 1)), Log2(g.sizes[n - 1]));
  }

  lemma {:induction false} TotalZero(g: Geometry, lo: nat, hi: nat)
    requires Projectable(g) && 1 <= lo <= hi < |g.sizes|
    ensures Total(Widths(g, lo, hi)) == 0 <==> forall i :: lo <= i < hi ==> g.sizes[i] == 1
    decreases hi - lo
  {
    if lo < hi {
      TotalZero(g, lo + 1, hi);
      AcceptedIsPow2(g.sizes[lo]);
      Pow2Exceeds(Width(g, lo));
      assert Widths(g, lo, hi)[1..] == Widths(g, lo + 1, hi);
      assert Pow2(0) == 1;
    }
  }

  lemma {:induction false} UnmappedTotal(g: Geometry)
    requires Projectable(g)
    ensures RowPos(g) + 1 < |g.sizes|
    ensures Total(Widths(g, 1, |g.sizes|)) == Total(Fields(g)) + Total(Widths(g, RowPos(g) + 1, |g.sizes| - 1))
  {
    var n, r := |g.sizes|, RowPos(g);
    NamesDistinct(g);
    WidthsAppend(g, 1, r + 1, n);
    WidthsAppend(g, r + 1, n - 1, n);
    assert Widths(g, n - 1, n) == [Width(g, n - 1)];
    assert Fields(g)[1..] == Widths(g, 1, r + 1);
  }

  /** The projected capacity equals the worker's product formula exactly when every level between
      Row and Column has size 1; the projection does not map such a level, the worker counts it. */
  lemma {:induction false} CapacitiesAgree(g: Geometry)
    requires Projectable(g)
    ensures g.prefetch != 0
    ensures g.txBytes * Product(g.sizes) / g.prefetch == Pow2(TxOffset(g) + Total(Fields(g)))
      <==> forall i :: RowPos(g) < i < |g.sizes| - 1 ==> g.sizes[i] == 1
  {
    WorkerCapacityIsPow2(g);
    ExponentsAgree(g, Pow2(TxOffset(g) + Total(Widths(g, 1, |g.sizes|))));
  }

  /** A geometry with a level of size 2 between Row and Column, which the worker counts and the projection does not
      map. */
  function Layered(): Geometry {
    Geometry(1, 1, [Channel, Bank, Row, Other("Subarray"), Column], [1, 2, 2, 2, 2])
  }

  lemma {:induction false} LayeredIsProjectable()
    ensures Projectable(Layered()) && RowPos(Layered()) == 2
    ensures Log2(1) == 0 && Log2(2) == 1
  {
    var g := Layered();
    assert g.names[2] == Row && g.names[1] == Bank;
    assert IsPow2(1) && Log2(1) == 0 by { Pow2Accepted(0); }
    assert IsPow2(2) && Log2(2) == 1 by { Pow2Accepted(1); }
    hide IsPow2, Log2;
    assert Projectable(g);
    NamesDistinct(g);
  }

  lemma {:induction false} LayeredProduct()
    ensures Product([1, 2, 2, 2, 2]) == 16
  {
    var s := [1, 2, 2, 2, 2];
    ProductStep([1, 2, 2, 2], 2);
    ProductStep([1, 2, 2], 2);
    ProductStep([1, 2], 2);
    ProductStep([1], 2);
    ProductStep([], 1);
    assert [1, 2, 2, 2] + [2] == s && [1, 2, 2] + [2] == [1, 2, 2, 2] && [1, 2] + [2] == [1, 2, 2];
    assert [1] + [2] == [1, 2] && [] + [1] == [1];
  }

  lemma {:induction false} ProductStep(sizes: seq<int>, x: int)
    ensures Product(sizes + [x]) == Product(sizes) * x && Product([]) == 1
  {
    assert (sizes + [x])[..|sizes|] == sizes;
  }

  lemma {:induction false} LayeredFields()
    ensures Projectable(Layered()) && TxOffset(Layered()) + Total(Fields(Layered())) == 3
  {
    var g := Layered();
    LayeredIsProjectable();
    hide Projectable, Log2, IsPow2, RowPos;
    assert Widths(g, 3, 3) == [] && Widths(g, 2, 3) == [1] && Widths(g, 1, 3) == [1, 1];
    var ws := Fields(g);
    assert ws == [1, 1, 1];
    assert ws[1..] == [1, 1] && ws[1..][1..] == [1] && ws[1..][1..][1..] == [];
  }

  /** On it the worker's capacity is 16 and the projected one 8. */
  lemma {:induction false} CapacitiesCanDiffer()
    ensures var g := Layered();
      && Projectable(g)
      && g.txBytes * Product(g.sizes) / g.prefetch == 16 && Pow2(TxOffset(g) + Total(Fields(g))) == 8
  {
    LayeredFields();
    LayeredProduct();
    hide Product, Total, Fields, TxOffset, Projectable;
    assert Pow2(3) == 8;
  }

  lemma {:induction false} ExponentsAgree(g: Geometry, cap: nat)
    requires Projectable(g) && cap == Pow2(TxOffset(g) + Total(Widths(g, 1, |g.sizes|)))
    ensures cap == Pow2(TxOffset(g) + Total(Fields(g)))
      <==> forall i :: RowPos(g) < i < |g.sizes| - 1 ==> g.sizes[i] == 1
  {
    UnmappedTotal(g);
    var extra := Total(Widths(g, RowPos(g) + 1, |g.sizes| - 1));
    TotalZero(g, RowPos(g) + 1, |g.sizes| - 1);
    var a, b := TxOffset(g) + Total(Fields(g)) + extra, TxOffset(g) + Total(Fields(g));
    if Pow2(a) == Pow2(b) { Pow2Injective(a, b); }
  }

  lemma {:induction false} ShrIsQuotient(n: nat, k: nat)
    ensures Shr(n, k) == n / Pow2(k) && Low(n, k) == n % Pow2(k)
  {
    Slices(n, k);
    RemainderIs(n, Pow2(k), Shr(n, k), Low(n, k));
  }

  lemma {:induction false} OffsetOfLevel(g: Geometry, i: nat)
    requires Projectable(g) && 1 <= i <= RowPos(g)
    ensures i < |g.sizes| - 1
    ensures Offset(Fields(g), i) == Fields(g)[0] + Total(Widths(g, 1, i))
  {
    NamesDistinct(g);
    WidthsAppend(g, 1, i, RowPos(g) + 1);
    hide Total, Projectable, Width;
    assert Fields(g)[..i] == [Fields(g)[0]] + Widths(g, 1, i);
    TotalAppend([Fields(g)[0]], Widths(g, 1, i));
    SingleTotal(Fields(g)[0]);
  }

  lemma {:induction false} SingleTotal(w: nat)
    ensures Total([w]) == w
  {
  }

  /** Bytes below level `i` of the layout: a row's own bytes times the sizes of the levels in between. */
  lemma {:induction false} BytesBelow(g: Geometry, i: nat)
    requires Projectable(g) && 1 <= i <= RowPos(g)
    ensures i < |g.sizes| - 1
    ensures Pow2(Shift(TxOffset(g), Fields(g), i)) == RowSpan(g) * Product(g.sizes[..i])
  {
    OffsetOfLevel(g, i);
    SpanIsColumnBlock(g);
    ProductIsPow2(g, i);
    ShiftIsOffset(TxOffset(g), Fields(g), i);
    hide Pow2, Product, RowSpan, TxOffset, Total, Shift, Projectable, Fields, Widths, Offset;
    Pow2Add(TxOffset(g) + Fields(g)[0], Total(Widths(g, 1, i)));
  }

  /** Sizes and widths of a row's columns and of level `i`. */
  lemma {:induction false} LevelWidths(g: Geometry, i: nat)
    requires Projectable(g) && 1 <= i <= RowPos(g)
    ensures i < |g.sizes| - 1 && Pow2(TxOffset(g)) == g.txBytes
    ensures g.prefetch > 0 && Pow2(Fields(g)[0]) == g.sizes[|g.sizes| - 1] / g.prefetch
    ensures Pow2(Fields(g)[i]) == g.sizes[i]
  {
    var n := |g.sizes|;
    NamesDistinct(g);
    AcceptedIsPow2(g.txBytes);
    AcceptedIsPow2(g.prefetch);
    AcceptedIsPow2(g.sizes[n - 1]);
    AcceptedIsPow2(g.sizes[i]);
    Pow2Quotient(Log2(g.sizes[n - 1]) - Log2(g.prefetch), Log2(g.prefetch));
    hide Pow2, Log2, IsPow2;
    assert Fields(g)[i] == Width(g, i);
  }

  /** The public layout in numbers. Column counts transactions within a row; every other level up to Row counts blocks
      of everything below it, modulo its own size. */
  lemma {:induction false} PublicDecode(g: Geometry, linear: nat, i: nat)
    requires Projectable(g) && 1 <= i <= RowPos(g)
    ensures i < |g.sizes| - 1 && g.prefetch > 0 && g.txBytes > 0 && g.sizes[|g.sizes| - 1] / g.prefetch > 0
    ensures g.names[RowPos(g)] == Row && FieldNames(g)[0] == Column && FieldNames(g)[i] == g.names[i]
    ensures var vs := Decoded(Fields(g), TxOffset(g), linear);
      && vs[0] == linear / g.txBytes % (g.sizes[|g.sizes| - 1] / g.prefetch)
      && RowSpan(g) * Product(g.sizes[..i]) > 0
      && vs[i] == linear / (RowSpan(g) * Product(g.sizes[..i])) % g.sizes[i]
  {
    LevelWidths(g, i);
    BytesBelow(g, i);
    FieldNumber(TxOffset(g), Fields(g), linear, 0);
    FieldNumber(TxOffset(g), Fields(g), linear, i);
    NoShift(TxOffset(g), Fields(g));
    hide Pow2, Product, Shift, Projectable, Fields, TxOffset, Decoded, RowSpan;
  }

  lemma {:induction false} NoShift(t: nat, ws: seq<nat>)
    ensures Shift(t, ws, 0) == t
  {
  }

  lemma {:induction false} FieldNumber(t: nat, ws: seq<nat>, linear: nat, i: nat)
    requires i < |ws|
    ensures Decoded(ws, t, linear)[i] == linear / Pow2(Shift(t, ws, i)) % Pow2(ws[i])
  {
    hide Pow2, Shift, Split, Shr, Low;
    ShiftDecodes(t, ws, linear, i);
    ShrIsQuotient(linear, Shift(t, ws, i));
    ShrIsQuotient(linear / Pow2(Shift(t, ws, i)), ws[i]);
  }

  /** Adding the stride of the top field moves that field by one and leaves every other field alone. */
  lemma {:induction false} StrideMovesTop(ws: seq<nat>, u: nat, t: nat, linear: nat)
    requires linear + Pow2(t + Total(ws)) < Pow2(t + Total(ws) + u)
    ensures var there, here := Decoded(ws + [u], t, linear + Pow2(t + Total(ws))), Decoded(ws + [u], t, linear);
      there == here[|ws| := here[|ws|] + 1]
  {
    var n := Total(ws);
    var x, off := Shr(linear, t), Low(linear, t);
    Slices(linear, t);
    hide Pow2, Split, Total, Shr, Low;
    StrideShifts(t, n, x, off);
    StrideFits(t, n, u, x, off);
    TopPlusOne(ws, u, x);
  }

  lemma {:induction false} TopPlusOne(ws: seq<nat>, u: nat, x: nat)
    requires x + Pow2(Total(ws)) < Pow2(Total(ws)) * Pow2(u)
    ensures Split(ws + [u], x + Pow2(Total(ws))) ==
            Split(ws + [u], x)[|ws| := Split(ws + [u], x)[|ws|] + 1]
  {
    var p := Pow2(Total(ws));
    var lo, hi := Low(x, Total(ws)), Shr(x, Total(ws));
    Slices(x, Total(ws));
    NextDigit(p, Pow2(u), hi, lo);
    SplitTop(ws, u, lo, hi);
    SplitTop(ws, u, lo, hi + 1);
  }

  lemma {:induction false} NextDigit(p: nat, q: nat, hi: nat, lo: nat)
    requires p * hi + lo + p < p * q
    ensures hi + 1 < q && p * (hi + 1) + lo == p * hi + lo + p
  {
    assert p * (hi + 1) == p * hi + p;
    QuotientBelow(p, q, hi + 1, lo);
  }

  lemma {:induction false} StrideShifts(t: nat, n: nat, x: nat, off: nat)
    requires off < Pow2(t)
    ensures Shr(Pow2(t) * x + off + Pow2(t + n), t) == x + Pow2(n)
  {
    Pow2Add(t, n);
    hide Pow2, Shr;
    Distributes(Pow2(t), x, Pow2(n));
    SlicesUnique(x + Pow2(n), off, t);
  }

  lemma {:induction false} Distributes(p: nat, x: nat, y: nat)
    ensures p * (x + y) == p * x + p * y
  {
  }

  lemma {:induction false} StrideFits(t: nat, n: nat, u: nat, x: nat, off: nat)
    requires off < Pow2(t) && Pow2(t) * x + off + Pow2(t + n) < Pow2(t + n + u)
    ensures x + Pow2(n) < Pow2(n) * Pow2(u)
  {
    Pow2Add(t, n);
    Pow2Add(n, u);
    Pow2Add(t, n + u);
    hide Pow2;
    Distributes(Pow2(t), x, Pow2(n));
    QuotientBelow(Pow2(t), Pow2(n + u), x + Pow2(n), off);
  }
}
