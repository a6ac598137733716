/** A list of bit fields packed into one word, least significant field first.

    Every address layout of the system is such a list:
    - the worker slices fields off the low end of an address one after another;
    - the public projection shifts and masks each field at its own offset;
    - the inverter concatenates per-level coordinates.
    `Split` and `Join` are the two directions and `Offset` is the position of a field. They are inverse
    to each other on words that fit and on values in range, for every list of widths, zero widths
    included, and `Split` is linear over GF(2). */
module BitFields {
  import opened Bits

  function Total(ws: seq<nat>): nat {
    if ws == [] then 0 else ws[0] + Total(ws[1..])
  }

  /** The lowest bit of field `i`. */
  function Offset(ws: seq<nat>, i: nat): nat
    requires i <= |ws|
  {
    Total(ws[..i])
  }

  predicate InRange(ws: seq<nat>, vs: seq<int>) {
    |vs| == |ws| && forall i :: 0 <= i < |ws| ==> 0 <= vs[i] < Pow2(ws[i])
  }

  function Split(ws: seq<nat>, n: nat): (vs: seq<int>)
    ensures |vs| == |ws|
  {
    if ws == [] then [] else [Low(n, ws[0])] + Split(ws[1..], Shr(n, ws[0]))
  }

  function Join(ws: seq<nat>, vs: seq<int>): nat
    requires InRange(ws, vs)
  {
    if ws == [] then 0 else Pow2(ws[0]) * Join(ws[1..], vs[1..]) + vs[0]
  }

  lemma {:induction false} SplitInRange(ws: seq<nat>, n: nat)
    ensures InRange(ws, Split(ws, n))
  {
    if ws != [] {
      Slices(n, ws[0]);
      SplitInRange(ws[1..], Shr(n, ws[0]));
    }
  }

  lemma {:induction false} JoinBelow(ws: seq<nat>, vs: seq<int>)
    requires InRange(ws, vs)
    ensures Join(ws, vs) < Pow2(Total(ws))
  {
    if ws != [] {
      JoinBelow(ws[1..], vs[1..]);
      Pow2Add(ws[0], Total(ws[1..]));
      FieldsBelow(Pow2(ws[0]), Pow2(Total(ws[1..])), Join(ws[1..], vs[1..]), vs[0]);
    }
  }

  lemma {:induction false} FieldsBelow(p: nat, q: nat, hi: nat, lo: nat)
    requires lo < p && hi < q
    ensures p * hi + lo < p * q
  {
    assert p * (hi + 1) <= p * q;
    assert p * (hi + 1) == p * hi + p;
  }

  /** Splitting recovers exactly the fields that were joined. */
  lemma {:induction false} SplitJoin(ws: seq<nat>, vs: seq<int>)
    requires InRange(ws, vs)
    ensures Split(ws, Join(ws, vs)) == vs
  {
    if ws != [] {
      SlicesUnique(Join(ws[1..], vs[1..]), vs[0], ws[0]);
      SplitJoin(ws[1..], vs[1..]);
    }
  }

  /** Joining recovers the word that was split, except for bits above the last field. */
  lemma {:induction false} JoinSplit(ws: seq<nat>, n: nat)
    ensures InRange(ws, Split(ws, n))
    ensures n == Pow2(Total(ws)) * Shr(n, Total(ws)) + Join(ws, Split(ws, n))
  {
    SplitInRange(ws, n);
    if ws != [] {
      var w, t := ws[0], Total(ws[1..]);
      JoinSplit(ws[1..], Shr(n, w));
      Slices(n, w);
      ShrShr(n, w, t);
      Pow2Add(w, t);
      var hi, lo := Shr(n, w + t), Join(ws[1..], Split(ws[1..], Shr(n, w)));
      assert Split(ws, n)[1..] == Split(ws[1..], Shr(n, w));
      MulSplit(Pow2(w), Pow2(t), hi, lo);
    }
  }

  lemma {:induction false} MulSplit(p: nat, q: nat, hi: nat, lo: nat)
    ensures p * (q * hi + lo) == (p * q) * hi + p * lo
  {
  }

  lemma {:induction false} ShrShr(n: nat, i: nat, j: nat)
    ensures Shr(Shr(n, i), j) == Shr(n, i + j)
    decreases i
  {
    if i > 0 { ShrShr(n / 2, i - 1, j); }
  }

  lemma {:induction false} ShrBelow(n: nat, k: nat)
    requires n < Pow2(k)
    ensures Shr(n, k) == 0
    decreases k
  {
    if k > 0 { ShrBelow(n / 2, k - 1); }
  }

  lemma {:induction false} JoinSplitBelow(ws: seq<nat>, n: nat)
    requires n < Pow2(Total(ws))
    ensures InRange(ws, Split(ws, n)) && Join(ws, Split(ws, n)) == n
  {
    JoinSplit(ws, n);
    ShrBelow(n, Total(ws));
  }

  /** Field `i` is what shifting to its offset and masking to its width yields. */
  lemma {:induction false} SplitAt(ws: seq<nat>, n: nat, i: nat)
    requires i < |ws|
    ensures Split(ws, n)[i] == Low(Shr(n, Offset(ws, i)), ws[i])
    decreases i
  {
    if i > 0 {
      SplitAt(ws[1..], Shr(n, ws[0]), i - 1);
      assert ws[..i][1..] == ws[1..][..i - 1];
      ShrShr(n, ws[0], Offset(ws[1..], i - 1));
    }
  }

  lemma {:induction false} TotalAppend(ws: seq<nat>, us: seq<nat>)
    ensures Total(ws + us) == Total(ws) + Total(us)
  {
    if ws == [] {
      assert ws + us == us;
    } else {
      assert (ws + us)[1..] == ws[1..] + us;
      TotalAppend(ws[1..], us);
    }
  }

  /** Adding one more field above the ones already joined. */
  lemma {:induction false} JoinAppend(ws: seq<nat>, vs: seq<int>, us: seq<nat>, xs: seq<int>)
    requires InRange(ws, vs) && InRange(us, xs)
    ensures InRange(ws + us, vs + xs)
    ensures Join(ws + us, vs + xs) == Pow2(Total(ws)) * Join(us, xs) + Join(ws, vs)
  {
    if ws == [] {
      assert ws + us == us && vs + xs == xs;
    } else {
      JoinAppend(ws[1..], vs[1..], us, xs);
      assert (ws + us)[1..] == ws[1..] + us && (vs + xs)[1..] == vs[1..] + xs;
      Pow2Add(ws[0], Total(ws[1..]));
      MulSplit(Pow2(ws[0]), Pow2(Total(ws[1..])), Join(us, xs), Join(ws[1..], vs[1..]));
    }
  }

  lemma {:induction false} TotalTake(ws: seq<nat>, i: nat)
    requires i < |ws|
    ensures Offset(ws, i + 1) == Offset(ws, i) + ws[i]
  {
    assert ws[..i + 1] == ws[..i] + [ws[i]];
    TotalAppend(ws[..i], [ws[i]]);
  }

  /** One step of the loops that build a word: or-ing field `i` in at its offset. */
  lemma {:induction false} JoinTake(ws: seq<nat>, vs: seq<int>, i: nat)
    requires InRange(ws, vs) && i < |ws|
    ensures InRange(ws[..i], vs[..i]) && InRange(ws[..i + 1], vs[..i + 1])
    ensures Join(ws[..i + 1], vs[..i + 1]) == Or(Join(ws[..i], vs[..i]), Pow2(Offset(ws, i)) * vs[i])
  {
    assert ws[..i + 1] == ws[..i] + [ws[i]] && vs[..i + 1] == vs[..i] + [vs[i]];
    JoinAppend(ws[..i], vs[..i], [ws[i]], [vs[i]]);
    JoinBelow(ws[..i], vs[..i]);
    OrAbove(Join(ws[..i], vs[..i]), vs[i], Offset(ws, i));
    assert Join([ws[i]], [vs[i]]) == vs[i];
  }

  /** Field-wise exclusive or. */
  function XorEach(xs: seq<int>, ys: seq<int>): (zs: seq<int>)
    requires |xs| == |ys|
    requires forall i :: 0 <= i < |xs| ==> 0 <= xs[i] && 0 <= ys[i]
    ensures |zs| == |xs|
    ensures forall i :: 0 <= i < |xs| ==> zs[i] == Xor(xs[i], ys[i])
  {
    seq(|xs|, i requires 0 <= i < |xs| => Xor(xs[i], ys[i]))
  }

  lemma {:induction false} XorEachInRange(ws: seq<nat>, xs: seq<int>, ys: seq<int>)
    requires InRange(ws, xs) && InRange(ws, ys)
    ensures InRange(ws, XorEach(xs, ys))
  {
    forall i | 0 <= i < |ws| ensures 0 <= XorEach(xs, ys)[i] < Pow2(ws[i]) {
      XorBelow(xs[i], ys[i], ws[i]);
    }
  }

  /** Splitting is linear over GF(2) ... */
  lemma {:induction false} SplitXor(ws: seq<nat>, a: nat, b: nat)
    ensures InRange(ws, Split(ws, a)) && InRange(ws, Split(ws, b))
    ensures Split(ws, Xor(a, b)) == XorEach(Split(ws, a), Split(ws, b))
  {
    SplitInRange(ws, a);
    SplitInRange(ws, b);
    if ws != [] {
      XorSlices(a, b, ws[0]);
      SplitXor(ws[1..], Shr(a, ws[0]), Shr(b, ws[0]));
    }
  }

  /** ... and so is joining. */
  lemma {:induction false} JoinXor(ws: seq<nat>, xs: seq<int>, ys: seq<int>)
    requires InRange(ws, xs) && InRange(ws, ys)
    ensures InRange(ws, XorEach(xs, ys))
    ensures Join(ws, XorEach(xs, ys)) == Xor(Join(ws, xs), Join(ws, ys))
  {
    XorEachInRange(ws, xs, ys);
    if ws != [] {
      JoinXor(ws[1..], xs[1..], ys[1..]);
      XorJoin(xs[0], Join(ws[1..], xs[1..]), ys[0], Join(ws[1..], ys[1..]), ws[0]);
      assert XorEach(xs, ys)[1..] == XorEach(xs[1..], ys[1..]);
    }
  }

  /** A word whose top field is `hi` and whose remaining bits are `lo`. */
  lemma {:induction false} SplitTop(ws: seq<nat>, u: nat, lo: nat, hi: nat)
    requires lo < Pow2(Total(ws)) && hi < Pow2(u)
    ensures Split(ws + [u], Pow2(Total(ws)) * hi + lo) == Split(ws, lo) + [hi]
  {
    JoinSplitBelow(ws, lo);
    JoinAppend(ws, Split(ws, lo), [u], [hi]);
    assert Join([u], [hi]) == hi;
    SplitJoin(ws + [u], Split(ws, lo) + [hi]);
  }
}
