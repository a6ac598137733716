/** From single calls to whole runs.

    The engine object keeps its dictionaries between calls and starts a fresh report in each. A call
    folds the commands of one worker reply, notes the written pattern first and restores what a write
    overwrote last.

    A run is the flat list of the same actions, with one report. Two states are `Alike` when they differ
    in the report only; every transition keeps that, so a call leaves the dictionaries that its actions
    leave in a run. After any sequence of calls the object's dictionaries are therefore those of the run
    that the calls spell out, and every theorem about runs is a theorem about the object. */
module CallHistories {
  import opened DisturbanceModel
  import opened DisturbanceEngines

  /** States with the same dictionaries, whatever they have reported. */
  ghost predicate Alike(s: State, t: State) {
    && s.victims == t.victims && s.flips == t.flips && s.owners == t.owners && s.flippedKeys == t.flippedKeys
    && s.patterns == t.patterns && s.oracleActs == t.oracleActs && s.open == t.open && s.refreshes == t.refreshes
  }

  /** The dictionaries alone. */
  function Forget(s: State): State { s.(newFlips := 0, oracleRefreshes := 0, publicFlips := []) }

  // ---- transitions do not look at the report --------------------------------------------------------------

  lemma {:induction false} ReleaseAlike(s: State, t: State, owner: Owner)
    requires Alike(s, t)
    ensures Alike(Release(s, owner), Release(t, owner))
  {
  }

  lemma {:induction false} EmitAlike(s: State, t: State, k: Key, cell: Cell)
    requires Alike(s, t) && k in s.victims
    ensures Alike(Emit(s, k, cell), Emit(t, k, cell))
  {
    hide Release;
    var a := s.victims[k].addr + cell.off;
    if a in s.owners { ReleaseAlike(s, t, s.owners[a]); }
  }

  lemma {:induction false} EmitAllAlike(s: State, t: State, k: Key, cells: seq<Cell>)
    requires Alike(s, t) && k in s.victims
    ensures Alike(EmitAll(s, k, cells), EmitAll(t, k, cells))
    decreases |cells|
  {
    hide Emit;
    if cells != [] {
      EmitAlike(s, t, k, cells[0]);
      EmitAllAlike(Emit(s, k, cells[0]), Emit(t, k, cells[0]), k, cells[1..]);
    }
  }

  lemma {:induction false} MaybeFlipAlike(c: Config, s: State, t: State, k: Key)
    requires Alike(s, t) && k in s.victims
    ensures Alike(MaybeFlip(c, s, k), MaybeFlip(c, t, k))
  {
    hide EmitAll, FlipPositions;
    var v := s.victims[k];
    if Crosses(v) {
      EmitAllAlike(s, t, k, FlipPositions(c, k, v, MultiplicityBits(c, v, Exposure(v) / ActiveThreshold(v) as real)));
    }
  }

  lemma {:induction false} CreditAllAlike(c: Config, s: State, t: State, hits: seq<Hit>)
    requires Alike(s, t)
    ensures Alike(CreditAll(c, s, hits), CreditAll(c, t, hits))
    decreases |hits|
  {
    hide MaybeFlip, FreshVictim;
    if hits != [] {
      var h := hits[0];
      FreshAlike(c, s, t, h.key);
      var s1, t1 := WithVictim(c, s, h.key), WithVictim(c, t, h.key);
      var s2 := s1.(victims := s1.victims[h.key := AddExposure(s1.victims[h.key], h.left, h.weight)]);
      var t2 := t1.(victims := t1.victims[h.key := AddExposure(t1.victims[h.key], h.left, h.weight)]);
      MaybeFlipAlike(c, s2, t2, h.key);
      CreditAllAlike(c, Credit(c, s, h), Credit(c, t, h), hits[1..]);
    }
  }

  lemma {:induction false} FreshAlike(c: Config, s: State, t: State, k: Key)
    requires Alike(s, t)
    ensures FreshVictim(c, s, k) == FreshVictim(c, t, k)
  {
  }

  lemma {:induction false} AddBonusAllAlike(c: Config, s: State, t: State, ks: seq<Key>, extra: real)
    requires Alike(s, t)
    ensures Alike(AddBonusAll(c, s, ks, extra), AddBonusAll(c, t, ks, extra))
    decreases |ks|
  {
    hide MaybeFlip;
    if ks != [] {
      var k := ks[0];
      if k in s.victims && |s.victims[k].cells| < MAX_BITS {
        var v := s.victims[k].(bonus := s.victims[k].bonus + extra);
        MaybeFlipAlike(c, s.(victims := s.victims[k := v]), t.(victims := t.victims[k := v]), k);
      }
      AddBonusAllAlike(c, AddBonus(c, s, k, extra), AddBonus(c, t, k, extra), ks[1..], extra);
    }
  }

  lemma {:induction false} SettleAlike(c: Config, s: State, t: State, bank: BankKey, clk: int)
    requires Alike(s, t) && IsOpen(s.open, bank)
    ensures Alike(Settle(c, s, bank, clk), Settle(c, t, bank, clk))
  {
    hide AddBonusAll;
    var e := Entry(s.open, bank);
    var rest := Remove(s.open, bank);
    AddBonusAllAlike(c, s.(open := rest), t.(open := rest), e.credited, c.Factor(clk - e.clk) - 1.0);
  }

  lemma {:induction false} SettleAllAlike(c: Config, s: State, t: State, banks: seq<BankKey>, clk: int)
    requires Alike(s, t)
    ensures Alike(SettleAll(c, s, banks, clk), SettleAll(c, t, banks, clk))
    decreases |banks|
  {
    hide Settle;
    if banks != [] {
      var b := banks[0];
      if IsOpen(s.open, b) { SettleAlike(c, s, t, b, clk); }
      SettleAllAlike(c, if IsOpen(s.open, b) then Settle(c, s, b, clk) else s,
                     if IsOpen(t.open, b) then Settle(c, t, b, clk) else t, banks[1..], clk);
    }
  }

  lemma {:induction false} ClearVictimsAlike(s: State, t: State, hits: seq<Hit>)
    requires Alike(s, t)
    ensures Alike(ClearVictims(s, hits), ClearVictims(t, hits))
    decreases |hits|
  {
    if hits != [] { ClearVictimsAlike(ClearVictim(s, hits[0].key), ClearVictim(t, hits[0].key), hits[1..]); }
  }

  lemma {:induction false} OracleAlike(c: Config, s: State, t: State, bank: BankKey, row: int)
    requires Alike(s, t)
    ensures Alike(OracleOnAct(c, s, bank, row), OracleOnAct(c, t, bank, row))
  {
    hide ClearVictims, Hits;
    var acts := s.oracleActs[Key(bank, row) := 0];
    ClearVictimsAlike(s.(oracleActs := acts), t.(oracleActs := acts), Hits(c, bank, row, c.blast));
  }

  lemma {:induction false} HammerAlike(c: Config, s: State, t: State, e: Event)
    requires Alike(s, t)
    ensures Alike(HammerStep(c, s, e), HammerStep(c, t, e))
  {
    hide Settle, CreditAll, OracleOnAct, Hits;
    if e.row >= 0 {
      var reopen := IsOpen(s.open, e.bank) && Entry(s.open, e.bank).row != e.row;
      if reopen { SettleAlike(c, s, t, e.bank, e.clk); }
      var s1 := if reopen then Settle(c, s, e.bank, e.clk) else s;
      var t1 := if reopen then Settle(c, t, e.bank, e.clk) else t;
      var hits := Hits(c, e.bank, e.row, c.blast);
      CreditAllAlike(c, s1, t1, hits);
      var s2, t2 := CreditAll(c, s1, hits), CreditAll(c, t1, hits);
      var open := Put(s2.open, OpenRow(e.bank, e.row, e.clk, Keys(hits)));
      OracleAlike(c, s2.(open := open), t2.(open := open), e.bank, e.row);
    }
  }

  lemma {:induction false} RefreshAlike(c: Config, s: State, t: State, bank: BankKey)
    requires Alike(s, t)
    ensures Alike(RefreshStep(c, s, bank), RefreshStep(c, t, bank))
  {
    hide WindowDone, RefreshCount, ClearRank, ClearCounters;
    CountAlike(s, t, bank);
    var count := RefreshCount(s, bank) + 1;
    assert s.refreshes[(bank.channel, bank.rank) := count] == t.refreshes[(bank.channel, bank.rank) := count];
  }

  lemma {:induction false} CountAlike(s: State, t: State, bank: BankKey)
    requires Alike(s, t)
    ensures RefreshCount(s, bank) == RefreshCount(t, bank)
  {
  }

  lemma {:induction false} RestoreAlike(s: State, t: State, addr: int, size: nat)
    requires Alike(s, t)
    ensures Alike(Restore(s, addr, size), Restore(t, addr, size))
  {
    hide Release;
    if size > 0 {
      var a := addr + size - 1;
      RestoreAlike(s, t, addr, size - 1);
      var s1, t1 := Restore(s, addr, size - 1), Restore(t, addr, size - 1);
      if a in s1.flips && a in s1.owners {
        ReleaseAlike(s1.(flips := s1.flips - {a}, owners := s1.owners - {a}),
                     t1.(flips := t1.flips - {a}, owners := t1.owners - {a}), s1.owners[a]);
      }
    }
  }

  lemma {:induction false} ActionAlike(c: Config, s: State, t: State, a: Action)
    requires Alike(s, t)
    ensures Alike(ActionStep(c, s, a), ActionStep(c, t, a))
  {
    hide HammerStep, SettleAll, RefreshStep, Restore, Classify;
    match a
    case Issue(e) =>
      HammerAlike(c, s, t, e);
      SettleAllAlike(c, s, t, ClosedBanks(s.open, e.bank), e.clk);
      RefreshAlike(c, s, t, e.bank);
    case Overwrite(addr, size) => RestoreAlike(s, t, addr, size);
    case Written(k, data) =>
  }

  // ---- calls ----------------------------------------------------------------------------------------------

  datatype Note = NoNote | Note(key: Key, data: seq<int>)

  /** What one worker reply makes the environment do to the engine. */
  datatype Call = Call(note: Note, events: seq<Event>, request: Request)

  function Noted(s: State, note: Note): State {
    match note
    case NoNote => s
    case Note(key, data) => NoteWrite(s, key, data)
  }

  /** Dictionaries and report of one call. */
  function Folded(c: Config, s: State, call: Call): State {
    Consumed(c, Noted(s, call.note), call.events, call.request)
  }

  /** The engine's dictionaries after one call. */
  function CallStep(c: Config, s: State, call: Call): State {
    Forget(Folded(c, s, call))
  }

  function CallsTo(c: Config, calls: seq<Call>, n: nat): State
    requires n <= |calls|
  {
    if n == 0 then INITIAL else CallStep(c, CallsTo(c, calls, n - 1), calls[n - 1])
  }

  // ---- the run that calls spell out -----------------------------------------------------------------------

  function Issues(events: seq<Event>): (r: seq<Action>)
    ensures |r| == |events| && forall i :: 0 <= i < |r| ==> r[i] == Issue(events[i])
  {
    seq(|events|, i requires 0 <= i < |events| => Issue(events[i]))
  }

  function Actions(call: Call): seq<Action> {
    (if call.note.Note? then [Written(call.note.key, call.note.data)] else [])
    + Issues(call.events)
    + (if call.request.WriteRequest? then [Overwrite(call.request.addr, call.request.size)] else [])
  }

  function Spelled(calls: seq<Call>, n: nat): seq<Action>
    requires n <= |calls|
  {
    if n == 0 then [] else Spelled(calls, n - 1) + Actions(calls[n - 1])
  }

  lemma {:induction false} RunToPrefix(c: Config, run: seq<Action>, more: seq<Action>, n: nat)
    requires n <= |run|
    ensures RunTo(c, run + more, n) == RunTo(c, run, n)
  {
    hide ActionStep;
    if n > 0 { RunToPrefix(c, run, more, n - 1); }
  }

  lemma {:induction false} RunOne(c: Config, run: seq<Action>, a: Action)
    ensures Run(c, run + [a]) == ActionStep(c, Run(c, run), a)
  {
    hide ActionStep;
    RunToPrefix(c, run, [a], |run|);
  }

  lemma {:induction false} RunEvents(c: Config, run: seq<Action>, events: seq<Event>, s: State)
    requires Alike(Run(c, run), s)
    ensures Alike(Run(c, run + Issues(events)), ConsumeEvents(c, s, events))
    decreases |events|
  {
    hide Run, ActionStep, EventStep, Alike;
    if events == [] {
      assert run + Issues(events) == run;
    } else {
      var a := Issue(events[0]);
      RunOne(c, run, a);
      ActionAlike(c, Run(c, run), s, a);
      assert ActionStep(c, s, a) == EventStep(c, s, events[0]) by { IssueStep(c, s, events[0]); }
      RunEvents(c, run + [a], events[1..], EventStep(c, s, events[0]));
      assert run + Issues(events) == (run + [a]) + Issues(events[1..]);
    }
  }

  lemma {:induction false} IssueStep(c: Config, s: State, e: Event)
    ensures ActionStep(c, s, Issue(e)) == EventStep(c, s, e)
  {
  }

  lemma {:induction false} RunCall(c: Config, run: seq<Action>, call: Call, s: State)
    requires Alike(Run(c, run), s)
    ensures Alike(Run(c, run + Actions(call)), CallStep(c, s, call))
  {
    hide Run, ConsumeEvents, NoteWrite, Restore;
    var first := if call.note.Note? then [Written(call.note.key, call.note.data)] else [];
    if call.note.Note? {
      RunOne(c, run, first[0]);
      ActionAlike(c, Run(c, run), s, first[0]);
    } else {
      assert run + first == run;
    }
    RunEvents(c, run + first, call.events, Noted(s, call.note));
    var middle := run + first + Issues(call.events);
    var t := ConsumeEvents(c, Noted(s, call.note), call.events);
    if call.request.WriteRequest? {
      var a := Overwrite(call.request.addr, call.request.size);
      RunOne(c, middle, a);
      ActionAlike(c, Run(c, middle), t, a);
      assert run + Actions(call) == middle + [a];
    } else {
      assert run + Actions(call) == middle;
    }
  }

  /** After any sequence of calls the engine's dictionaries are those of the run they spell out. */
  lemma {:induction false} CallsAreRun(c: Config, calls: seq<Call>, n: nat)
    requires n <= |calls|
    ensures CallsTo(c, calls, n) == Forget(Run(c, Spelled(calls, n)))
  {
    hide Run, Actions, CallStep;
    if n == 0 {
      assert Run(c, []) == INITIAL by { EmptyRun(c); }
    } else {
      CallsAreRun(c, calls, n - 1);
      RunCall(c, Spelled(calls, n - 1), calls[n - 1], CallsTo(c, calls, n - 1));
      ForgetAlike(CallStep(c, CallsTo(c, calls, n - 1), calls[n - 1]), Run(c, Spelled(calls, n)));
      CallForgets(c, CallsTo(c, calls, n - 1), calls[n - 1]);
    }
  }

  lemma {:induction false} EmptyRun(c: Config)
    ensures Run(c, []) == INITIAL
  {
  }

  lemma {:induction false} ForgetAlike(s: State, t: State)
    ensures Alike(s, t) <==> Forget(s) == Forget(t)
  {
  }

  lemma {:induction false} CallForgets(c: Config, s: State, call: Call)
    ensures Forget(CallStep(c, s, call)) == CallStep(c, s, call)
  {
    hide Consumed, Noted;
  }
}
