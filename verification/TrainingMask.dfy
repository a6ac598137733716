/** Token masks for training: which tokens of a multi-turn transcript the policy sampled.

    When every turn recorded its own context and tokens, the transcript is assembled from them and
    refused as soon as a context does not extend what was assembled so far. Otherwise the transcript
    is rendered as a whole and each assistant turn is anchored in it. In both paths the ones of the
    mask are exactly the policy's tokens. */
module TrainingMask {

  datatype Outcome<+T> = Built(value: T) | Raised

  /** Token ids with one mask bit each. */
  datatype Marked = Marked(ids: seq<int>, mask: seq<int>)

  // ---- assembling sampled turns ---------------------------------------------------------------------------

  /** One completion as it was sampled; `promptIds` is the context it was generated from. */
  datatype Turn = Turn(promptIds: seq<int>, tokenIds: seq<int>, sampled: bool)

  function Repeat(bit: int, n: nat): (r: seq<int>)
    ensures |r| == n && forall i :: 0 <= i < n ==> r[i] == bit
  {
    seq(n, _ => bit)
  }

  /** Adding one sampled turn: the new context scaffolding is unmarked, the sampled tokens are marked. */
  function Extend(m: Marked, t: Turn): Outcome<Marked>
    requires |m.ids| == |m.mask|
  {
    if !(m.ids <= t.promptIds) then Raised
    else Built(Marked(t.promptIds + t.tokenIds,
                      m.mask + Repeat(0, |t.promptIds| - |m.ids|) + Repeat(1, |t.tokenIds|)))
  }

  function Assembled(turns: seq<Turn>): (r: Outcome<Marked>)
    requires turns != []
    ensures r.Built? ==> |turns[0].promptIds| <= |r.value.ids| == |r.value.mask|
  {
    AssembleFrom(Marked(turns[0].promptIds, Repeat(0, |turns[0].promptIds|)), turns)
  }

  function AssembleFrom(start: Marked, turns: seq<Turn>): (r: Outcome<Marked>)
    requires |start.ids| == |start.mask|
    ensures r.Built? ==> |start.ids| <= |r.value.ids| == |r.value.mask|
    decreases |turns|
  {
    if turns == [] then Built(start)
    else if !turns[0].sampled then AssembleFrom(start, turns[1..])
    else
      match Extend(start, turns[0])
      case Raised => Raised
      case Built(m) => AssembleFrom(m, turns[1..])
  }

  /** Assemble the training example of a transcript whose turns all carry their samples. */
  method AssembleExample(turns: seq<Turn>) returns (prompt: seq<int>, completion: Outcome<Marked>)
    requires turns != []
    ensures prompt == turns[0].promptIds
    ensures completion == match Assembled(turns)
      case Raised => Raised
      case Built(m) => Built(Marked(m.ids[|prompt|..], m.mask[|prompt|..]))
    ensures completion.Built? ==>
      && |completion.value.ids| == |completion.value.mask|
      && Selected(completion.value.ids, completion.value.mask) == SampledTokens(turns)
      && forall t :: 0 <= t < |completion.value.mask| ==>
           completion.value.mask[t] == if InSample(turns, |prompt| + t) then 1 else 0
  {
    hide InSample;
    prompt := turns[0].promptIds;
    var ids, mask := prompt, Repeat(0, |prompt|);
    ghost var all := Assembled(turns);
    for i := 0 to |turns|
      invariant |ids| == |mask|
      invariant AssembleFrom(Marked(ids, mask), turns[i..]) == all
    {
      var turn := turns[i];
      assert turns[i..][1..] == turns[i + 1..];
      if turn.sampled {
        var context := turn.promptIds;
        if !(ids <= context) { return prompt, Raised; }
        mask := mask + Repeat(0, |context| - |ids|) + Repeat(1, |turn.tokenIds|);
        ids := context + turn.tokenIds;
      }
    }
    assert turns[|turns|..] == [];
    CompletionExact(turns);
    completion := Built(Marked(ids[|prompt|..], mask[|prompt|..]));
  }

  lemma {:induction false} GrowsFrom(start: Marked, turns: seq<Turn>)
    requires |start.ids| == |start.mask| && AssembleFrom(start, turns).Built?
    ensures start.ids <= AssembleFrom(start, turns).value.ids
    ensures start.mask <= AssembleFrom(start, turns).value.mask
    decreases |turns|
  {
    if turns != [] {
      if turns[0].sampled {
        GrowsFrom(Extend(start, turns[0]).value, turns[1..]);
      } else {
        GrowsFrom(start, turns[1..]);
      }
    }
  }

  /** The tokens whose mask bit is 1, in order. */
  function Selected(ids: seq<int>, mask: seq<int>): seq<int>
    requires |ids| == |mask|
  {
    if ids == [] then []
    else Selected(ids[..|ids| - 1], mask[..|ids| - 1]) + (if mask[|ids| - 1] == 1 then [ids[|ids| - 1]] else [])
  }

  /** All sampled tokens, in order. */
  function SampledTokens(turns: seq<Turn>): seq<int> {
    if turns == [] then []
    else (if turns[0].sampled then turns[0].tokenIds else []) + SampledTokens(turns[1..])
  }

  lemma {:induction false} SelectedAppend(a: seq<int>, x: seq<int>, b: seq<int>, y: seq<int>)
    requires |a| == |x| && |b| == |y|
    ensures Selected(a + b, x + y) == Selected(a, x) + Selected(b, y)
    decreases |b|
  {
    if b == [] {
      assert a + b == a && x + y == x;
    } else {
      var n := |b| - 1;
      SelectedAppend(a, x, b[..n], y[..n]);
      assert (a + b)[..|a| + n] == a + b[..n] && (x + y)[..|a| + n] == x + y[..n];
    }
  }

  lemma {:induction false} SelectedUniform(ids: seq<int>, bit: int)
    ensures Selected(ids, Repeat(bit, |ids|)) == if bit == 1 then ids else []
  {
    if ids != [] {
      var n := |ids| - 1;
      SelectedUniform(ids[..n], bit);
      assert Repeat(bit, |ids|)[..n] == Repeat(bit, n);
    }
  }

  lemma {:induction false} ExtendSelects(m: Marked, t: Turn)
    requires |m.ids| == |m.mask| && Extend(m, t).Built?
    ensures var e := Extend(m, t).value;
      |e.ids| == |e.mask| && Selected(e.ids, e.mask) == Selected(m.ids, m.mask) + t.tokenIds
  {
    hide Selected;
    var scaffold := t.promptIds[|m.ids|..];
    assert t.promptIds == m.ids + scaffold;
    SelectedUniform(scaffold, 0);
    SelectedUniform(t.tokenIds, 1);
    SelectedAppend(m.ids, m.mask, scaffold, Repeat(0, |scaffold|));
    SelectedAppend(m.ids + scaffold, m.mask + Repeat(0, |scaffold|), t.tokenIds, Repeat(1, |t.tokenIds|));
  }

  lemma {:induction false} AssembleSelects(start: Marked, turns: seq<Turn>)
    requires |start.ids| == |start.mask| && AssembleFrom(start, turns).Built?
    ensures var m := AssembleFrom(start, turns).value;
      Selected(m.ids, m.mask) == Selected(start.ids, start.mask) + SampledTokens(turns)
    decreases |turns|
  {
    if turns != [] {
      if turns[0].sampled {
        ExtendSelects(start, turns[0]);
        AssembleSelects(Extend(start, turns[0]).value, turns[1..]);
      } else {
        AssembleSelects(start, turns[1..]);
      }
    }
  }

  /** Every sampled turn stands in the ids exactly where it was generated: after its own context. */
  lemma {:induction false} ContextsKept(start: Marked, turns: seq<Turn>, i: nat)
    requires |start.ids| == |start.mask| && AssembleFrom(start, turns).Built? && i < |turns| && turns[i].sampled
    ensures var m, t := AssembleFrom(start, turns).value, turns[i];
      && t.promptIds + t.tokenIds <= m.ids
      && forall p :: |t.promptIds| <= p < |t.promptIds| + |t.tokenIds| ==> m.mask[p] == 1
    decreases |turns|
  {
    if i == 0 {
      GrowsFrom(Extend(start, turns[0]).value, turns[1..]);
    } else if turns[0].sampled {
      ContextsKept(Extend(start, turns[0]).value, turns[1..], i - 1);
    } else {
      ContextsKept(start, turns[1..], i - 1);
    }
  }

  /** Position `p` belongs to the completion of some sampled turn. */
  ghost predicate InSample(turns: seq<Turn>, p: int) {
    exists i :: 0 <= i < |turns| && turns[i].sampled
             && |turns[i].promptIds| <= p < |turns[i].promptIds| + |turns[i].tokenIds|
  }

  lemma {:induction false} InFirstSample(turns: seq<Turn>, p: int)
    requires turns != []
    ensures var t := turns[0];
      InSample(turns, p) <==>
        (t.sampled && |t.promptIds| <= p < |t.promptIds| + |t.tokenIds|) || InSample(turns[1..], p)
  {
    if InSample(turns, p) {
      var i :| 0 <= i < |turns| && turns[i].sampled
            && |turns[i].promptIds| <= p < |turns[i].promptIds| + |turns[i].tokenIds|;
      if i > 0 { assert turns[1..][i - 1] == turns[i]; }
    }
    if InSample(turns[1..], p) {
      var i :| 0 <= i < |turns[1..]| && turns[1..][i].sampled
            && |turns[1..][i].promptIds| <= p < |turns[1..][i].promptIds| + |turns[1..][i].tokenIds|;
      assert turns[i + 1] == turns[1..][i];
    }
  }

  /** Beyond what was there at the start, the mask is 1 on the sampled completions and 0 everywhere else. */
  lemma {:induction false} MarksSamples(start: Marked, turns: seq<Turn>, p: int)
    requires |start.ids| == |start.mask| && AssembleFrom(start, turns).Built?
    ensures 0 <= p < |AssembleFrom(start, turns).value.mask| ==>
      AssembleFrom(start, turns).value.mask[p] ==
        if p < |start.mask| then start.mask[p] else if InSample(turns, p) then 1 else 0
    ensures p < |start.ids| ==> !InSample(turns, p)
    decreases |turns|
  {
    if turns != [] {
      hide InSample;
      InFirstSample(turns, p);
      if turns[0].sampled {
        MarksSamples(Extend(start, turns[0]).value, turns[1..], p);
      } else {
        MarksSamples(start, turns[1..], p);
      }
    }
  }

  /** Whenever assembly succeeds, ids and mask have equal length, the mask is 0 on the first context, 1 on the sampled
      completions and 0 on all other tokens, the ones are exactly the sampled
      tokens in order, and the ids before each sampled span are the very context it came from. */
  lemma {:induction false} SampledMaskExact(turns: seq<Turn>)
    requires turns != [] && Assembled(turns).Built?
    ensures var m := Assembled(turns).value;
      && |m.ids| == |m.mask|
      && turns[0].promptIds <= m.ids && Repeat(0, |turns[0].promptIds|) <= m.mask
      && (forall p :: 0 <= p < |m.mask| ==> m.mask[p] == if InSample(turns, p) then 1 else 0)
      && Selected(m.ids, m.mask) == SampledTokens(turns)
      && forall i :: 0 <= i < |turns| && turns[i].sampled ==> turns[i].promptIds + turns[i].tokenIds <= m.ids
  {
    var prompt := turns[0].promptIds;
    var start := Marked(prompt, Repeat(0, |prompt|));
    SelectedUniform(prompt, 0);
    AssembleSelects(start, turns);
    GrowsFrom(start, turns);
    hide InSample;
    forall p | 0 <= p < |Assembled(turns).value.mask|
      ensures Assembled(turns).value.mask[p] == if InSample(turns, p) then 1 else 0
    {
      MarksSamples(start, turns, p);
    }
    forall i | 0 <= i < |turns| && turns[i].sampled
      ensures turns[i].promptIds + turns[i].tokenIds <= Assembled(turns).value.ids
    {
      ContextsKept(start, turns, i);
    }
  }

  /** What follows the first context holds all sampled tokens: cutting it off loses none of them. */
  lemma {:induction false} CompletionExact(turns: seq<Turn>)
    requires turns != [] && Assembled(turns).Built?
    ensures var m, n := Assembled(turns).value, |turns[0].promptIds|;
      && m.ids == turns[0].promptIds + m.ids[n..] && |m.ids[n..]| == |m.mask[n..]|
      && (forall t :: 0 <= t < |m.mask| - n ==> m.mask[n..][t] == if InSample(turns, n + t) then 1 else 0)
      && Selected(m.ids[n..], m.mask[n..]) == SampledTokens(turns)
  {
    hide Assembled, Selected, SampledTokens, InSample;
    var m, prompt := Assembled(turns).value, turns[0].promptIds;
    var n := |prompt|;
    SampledMaskExact(turns);
    assert m.ids == prompt + m.ids[n..] && m.mask == Repeat(0, n) + m.mask[n..];
    SelectedUniform(prompt, 0);
    SelectedAppend(prompt, Repeat(0, n), m.ids[n..], m.mask[n..]);
  }

  /** Each sampled context extends everything assembled before it. */
  predicate Chained(ids: seq<int>, turns: seq<Turn>)
    decreases |turns|
  {
    if turns == [] then true
    else if !turns[0].sampled then Chained(ids, turns[1..])
    else ids <= turns[0].promptIds && Chained(turns[0].promptIds + turns[0].tokenIds, turns[1..])
  }

  /** Assembly is refused exactly when some context rewrote earlier tokens. */
  lemma {:induction false} RefusedExactly(start: Marked, turns: seq<Turn>)
    requires |start.ids| == |start.mask|
    ensures AssembleFrom(start, turns).Built? <==> Chained(start.ids, turns)
    decreases |turns|
  {
    if turns != [] {
      if !turns[0].sampled {
        RefusedExactly(start, turns[1..]);
      } else if start.ids <= turns[0].promptIds {
        RefusedExactly(Extend(start, turns[0]).value, turns[1..]);
      }
    }
  }

  // ---- the rendered path ----------------------------------------------------------------------------------

  /** A transcript under a chat template: rendering the first `upto` messages, with or without the
      generation prompt; and which messages are assistant turns. */
  datatype Transcript = Transcript(size: nat, assistant: nat -> bool, render: (nat, bool) -> seq<int>) {
    function Full(): seq<int> { render(size, false) }
    function Context(i: nat): seq<int> { render(i, true) }
    function WithTurn(i: nat): seq<int> { render(i + 1, false) }
  }

  /** Length of the longest common prefix. */
  function Shared(a: seq<int>, b: seq<int>): (n: nat)
    ensures n <= |a| && n <= |b| && a[..n] == b[..n]
    ensures n == |a| || n == |b| || a[n] != b[n]
  {
    if a != [] && b != [] && a[0] == b[0] then
      var n := 1 + Shared(a[1..], b[1..]);
      assert a[..n] == [a[0]] + a[1..][..n - 1] && b[..n] == [b[0]] + b[1..][..n - 1];
      n
    else 0
  }

  lemma {:induction false} SharedUnique(a: seq<int>, b: seq<int>, n: nat)
    requires n <= |a| && n <= |b| && a[..n] == b[..n] && (n == |a| || n == |b| || a[n] != b[n])
    ensures Shared(a, b) == n
  {
    if n > 0 {
      assert a[0] == a[..n][0] && b[0] == b[..n][0];
      assert a[1..][..n - 1] == a[..n][1..] && b[1..][..n - 1] == b[..n][1..];
      SharedUnique(a[1..], b[1..], n - 1);
    }
  }

  method CommonPrefixLen(a: seq<int>, b: seq<int>) returns (i: nat)
    ensures i == Shared(a, b)
  {
    var n := if |a| <= |b| then |a| else |b|;
    i := 0;
    while i < n && a[i] == b[i]
      invariant 0 <= i <= n && a[..i] == b[..i]
    {
      assert a[..i + 1] == a[..i] + [a[i]] && b[..i + 1] == b[..i] + [b[i]];
      i := i + 1;
    }
    SharedUnique(a, b, i);
  }

  /** The tokens that turn `i` added to its context, and where they are expected in the full render. */
  function Authored(tr: Transcript, i: nat): seq<int> {
    tr.WithTurn(i)[Shared(tr.Context(i), tr.WithTurn(i))..]
  }

  function SpanStart(tr: Transcript, i: nat): nat { Shared(tr.Context(i), tr.Full()) }
  function SpanEnd(tr: Transcript, i: nat): nat { SpanStart(tr, i) + |Authored(tr, i)| }

  predicate Aligned(tr: Transcript, i: nat) {
    SpanEnd(tr, i) <= |tr.Full()| && tr.Full()[SpanStart(tr, i)..SpanEnd(tr, i)] == Authored(tr, i)
  }

  /** Token `t` belongs to an assistant turn from message `lo` on, before message `hi`. */
  ghost predicate InSpan(tr: Transcript, lo: nat, hi: nat, t: int) {
    exists i :: lo <= i < hi && tr.assistant(i) && SpanStart(tr, i) <= t < SpanEnd(tr, i)
  }

  /** The mask has a 1 exactly on the spans of the assistant turns from `lo` up to `hi`. */
  ghost predicate MarksSpans(tr: Transcript, lo: nat, hi: nat, mask: seq<int>) {
    forall t :: 0 <= t < |mask| ==> mask[t] == if InSpan(tr, lo, hi, t) then 1 else 0
  }

  /** Mark one assistant turn, if it stands where its context ends in the full render. */
  method MarkTurn(tr: Transcript, lo: nat, i: nat, mask0: seq<int>) returns (aligned: bool, mask: seq<int>)
    requires lo <= i && tr.assistant(i) && |mask0| == |tr.Full()| && MarksSpans(tr, lo, i, mask0)
    ensures aligned <==> Aligned(tr, i)
    ensures |mask| == |mask0| && (aligned ==> MarksSpans(tr, lo, i + 1, mask))
  {
    hide InSpan, MarksSpans, Shared;
    var full, context, withTurn := tr.Full(), tr.Context(i), tr.WithTurn(i);
    var from := CommonPrefixLen(context, withTurn);
    var authored := withTurn[from..];
    var start := CommonPrefixLen(context, full);
    var end := start + |authored|;
    IsAligned(tr, i);
    if end > |full| || full[start..end] != authored { return false, mask0; }
    MarkSpan(tr, lo, i, mask0);
    aligned, mask := true, mask0[..start] + Repeat(1, |authored|) + mask0[end..];
  }

  /** Render the whole transcript and mark every assistant turn where its own tokens stand. */
  method BuildMasked(tr: Transcript, nPrompt: nat) returns (r: Outcome<Marked>, split: nat)
    requires nPrompt <= tr.size
    ensures r.Built? <==> forall i :: nPrompt <= i < tr.size && tr.assistant(i) ==> Aligned(tr, i)
    ensures split == Shared(tr.Context(nPrompt), tr.Full())
    ensures r.Built? ==>
      && r.value.ids == tr.Full()[split..] && |r.value.mask| == |r.value.ids|
      && forall t :: 0 <= t < |r.value.mask| ==>
           r.value.mask[t] == if InSpan(tr, nPrompt, tr.size, split + t) then 1 else 0
  {
    var full := tr.Full();
    var mask := Repeat(0, |full|);
    split := CommonPrefixLen(tr.Context(nPrompt), full);
    hide Aligned, InSpan, MarksSpans, Shared;
    var i := nPrompt;
    assert MarksSpans(tr, nPrompt, nPrompt, mask) by { NoSpans(tr, nPrompt, |full|); }
    while i < tr.size
      invariant nPrompt <= i <= tr.size && |mask| == |full|
      invariant forall k :: nPrompt <= k < i && tr.assistant(k) ==> Aligned(tr, k)
      invariant MarksSpans(tr, nPrompt, i, mask)
    {
      if tr.assistant(i) {
        var aligned;
        aligned, mask := MarkTurn(tr, nPrompt, i, mask);
        if !aligned { return Raised, split; }
      } else {
        SkipSpan(tr, nPrompt, i, mask);
      }
      i := i + 1;
    }
    DropMarks(tr, nPrompt, mask, split);
    r := Built(Marked(full[split..], mask[split..]));
  }

  lemma {:induction false} NoSpans(tr: Transcript, lo: nat, n: nat)
    ensures MarksSpans(tr, lo, lo, Repeat(0, n))
  {
  }

  lemma {:induction false} IsAligned(tr: Transcript, i: nat)
    ensures var start := Shared(tr.Context(i), tr.Full());
      var authored := tr.WithTurn(i)[Shared(tr.Context(i), tr.WithTurn(i))..];
      var end := start + |authored|;
      Aligned(tr, i) <==> end <= |tr.Full()| && tr.Full()[start..end] == authored
  {
  }

  lemma {:induction false} MarkSpan(tr: Transcript, lo: nat, i: nat, mask: seq<int>)
    requires lo <= i && MarksSpans(tr, lo, i, mask) && tr.assistant(i) && SpanEnd(tr, i) <= |mask|
    ensures SpanStart(tr, i) <= SpanEnd(tr, i)
    ensures MarksSpans(tr, lo, i + 1, mask[..SpanStart(tr, i)] + Repeat(1, |Authored(tr, i)|) + mask[SpanEnd(tr, i)..])
  {
    var a, b := SpanStart(tr, i), SpanEnd(tr, i);
    var after := mask[..a] + Repeat(1, |Authored(tr, i)|) + mask[b..];
    forall t | 0 <= t < |after| ensures after[t] == if InSpan(tr, lo, i + 1, t) then 1 else 0 {
      NextSpan(tr, lo, i, t);
    }
  }

  lemma {:induction false} SkipSpan(tr: Transcript, lo: nat, i: nat, mask: seq<int>)
    requires lo <= i && MarksSpans(tr, lo, i, mask) && !tr.assistant(i)
    ensures MarksSpans(tr, lo, i + 1, mask)
  {
    forall t | 0 <= t < |mask| ensures mask[t] == if InSpan(tr, lo, i + 1, t) then 1 else 0 { NextSpan(tr, lo, i, t); }
  }

  lemma {:induction false} DropMarks(tr: Transcript, lo: nat, mask: seq<int>, split: nat)
    requires MarksSpans(tr, lo, tr.size, mask) && split <= |mask|
    ensures forall t :: 0 <= t < |mask| - split ==>
      mask[split..][t] == if InSpan(tr, lo, tr.size, split + t) then 1 else 0
  {
    hide InSpan;
  }

  lemma {:induction false} NextSpan(tr: Transcript, lo: nat, i: nat, t: int)
    requires lo <= i
    ensures InSpan(tr, lo, i + 1, t) <==>
      InSpan(tr, lo, i, t) || (tr.assistant(i) && SpanStart(tr, i) <= t < SpanEnd(tr, i))
  {
    hide SpanStart, SpanEnd;
    if InSpan(tr, lo, i, t) {
      var k :| lo <= k < i && tr.assistant(k) && SpanStart(tr, k) <= t < SpanEnd(tr, k);
      assert lo <= k < i + 1;
    }
  }

  /** A prefix-consistent template: a later render extends an earlier one, and an assistant turn extends
      the context it was generated from. */
  ghost predicate PrefixConsistent(tr: Transcript) {
    && (forall i :: 0 <= i < tr.size ==> tr.render(i, false) <= tr.render(i + 1, false))
    && (forall i :: 0 <= i < tr.size && tr.assistant(i) ==>
          tr.render(i, false) <= tr.render(i, true) && tr.render(i, true) <= tr.render(i + 1, false))
  }

  lemma {:induction false} RendersGrow(tr: Transcript, i: nat, j: nat)
    requires PrefixConsistent(tr) && i <= j <= tr.size
    ensures tr.render(i, false) <= tr.render(j, false)
  {
    if i < j { RendersGrow(tr, i, j - 1); }
  }

  lemma {:induction false} PrefixIsShared(a: seq<int>, b: seq<int>)
    requires a <= b
    ensures Shared(a, b) == |a|
  {
    SharedUnique(a, b, |a|);
  }

  lemma {:induction false} ConsistentSpan(tr: Transcript, i: nat)
    requires PrefixConsistent(tr) && i < tr.size && tr.assistant(i)
    ensures SpanStart(tr, i) == |tr.Context(i)| && SpanEnd(tr, i) == |tr.WithTurn(i)| && Aligned(tr, i)
    ensures tr.Context(i) <= tr.WithTurn(i) && tr.Context(i) <= tr.Full()
  {
    RendersGrow(tr, i + 1, tr.size);
    PrefixIsShared(tr.Context(i), tr.WithTurn(i));
    PrefixIsShared(tr.Context(i), tr.Full());
    hide PrefixConsistent;
    var a, b := |tr.Context(i)|, |tr.WithTurn(i)|;
    assert tr.Full()[..b] == tr.WithTurn(i);
    assert tr.Full()[a..b] == tr.Full()[..b][a..];
  }

  lemma {:induction false} ContextsGrow(tr: Transcript, i: nat, j: nat)
    requires PrefixConsistent(tr) && i < j < tr.size && tr.assistant(i) && tr.assistant(j)
    ensures |tr.Context(i)| <= |tr.WithTurn(i)| <= |tr.Context(j)|
  {
    RendersGrow(tr, i + 1, j);
  }

  /** With a prefix-consistent template and a completion that starts with an assistant turn, no turn is
      refused, every turn's span is its own text after its own context, spans are disjoint and in order,
      and the prompt split loses none of them. */
  lemma {:induction false} RenderedMaskExact(tr: Transcript, nPrompt: nat, i: nat)
    requires PrefixConsistent(tr) && nPrompt <= i < tr.size && tr.assistant(i) && tr.assistant(nPrompt)
    ensures Aligned(tr, i) && tr.Context(i) + Authored(tr, i) == tr.WithTurn(i)
    ensures forall j :: i < j < tr.size && tr.assistant(j) ==> SpanEnd(tr, i) <= SpanStart(tr, j)
    ensures Shared(tr.Context(nPrompt), tr.Full()) <= SpanStart(tr, i)
  {
    hide Aligned, SpanStart, SpanEnd;
    ConsistentSpan(tr, i);
    ConsistentSpan(tr, nPrompt);
    forall j | i < j < tr.size && tr.assistant(j) ensures SpanEnd(tr, i) <= SpanStart(tr, j) {
      ConsistentSpan(tr, j);
      ContextsGrow(tr, i, j);
    }
    if nPrompt < i { ContextsGrow(tr, nPrompt, i); }
    PrefixIsShared(tr.Context(nPrompt), tr.Full());
    PrefixIsShared(tr.Context(i), tr.WithTurn(i));
  }
}
