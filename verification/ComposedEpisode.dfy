/** An episode over the engine and the memory that its own calls changed.

    The turns of an episode complete requests, and these spell out the history of the memory and of the engine. The
    success predicate is no outside answer here: it is read from the state that this history left, and reward 1 is
    shown exactly when that state meets the objective. */
module ComposedEpisodes {
  import opened DisturbanceModel
  import opened DisturbanceEngines
  import opened CallHistories
  import opened DisturbedMemories
  import opened ErrorCodes
  import opened CommandIssue
  import opened Episodes
  import opened EpisodeRuns
  import opened Rewards
  import DR = DeviceRows

  // ---- what the turns did to memory and engine ------------------------------------------------------------

  /** The access that one reply completes, if any. A write whose commands cannot be folded has changed the store
      but not the engine. */
  function AccessOf(rs: Resolver, p: Primitive, reply: Reply): seq<Access> {
    if reply.Refused? || PrimitiveFault(rs, p).Some? then []
    else
      match p
      case Wr(token, payload) =>
        var addr, data := rs.resolve(token).value, payload.value;
        if reply.Unfolded? || !OneWrite(reply.events) then [Access(Call(NoNote, [], OtherRequest), addr, data)]
        else
          var note := Note(WriteRows(reply.events)[0], AsInts(data));
          [Access(Call(note, reply.events, WriteRequest(addr, |data|)), addr, data)]
      case Rd(_) => if reply.Served? then [Access(Call(NoNote, reply.events, OtherRequest), 0, [])] else []
      case Wait(_) => if reply.Served? then [Access(Call(NoNote, reply.events, OtherRequest), 0, [])] else []
  }

  /** The accesses of the first `n` primitives of an issue. */
  function IssueAccesses(rs: Resolver, ps: seq<Primitive>, feed: nat -> Reply, n: nat): seq<Access>
    requires n <= |ps|
  {
    if n == 0 then [] else IssueAccesses(rs, ps, feed, n - 1) + AccessOf(rs, ps[n - 1], feed(n - 1))
  }

  /** One primitive on the real memory: what it leaves is what its access says, so a history of accesses is what the
      memory and the engine go through. */
  method Serve(m: DisturbedMemory, rs: Resolver, p: Primitive, sim: Sim) returns (reply: Reply)
    requires PrimitiveFault(rs, p).None?
    modifies m.worker, m.engine
    ensures reply.Refused? <==> !p.Wait? && !(sim.Completed? && m.worker.Admits(rs.resolve(p.addr).value, Length(m, p)))
    ensures m.worker.acts == old(m.worker.acts) + (if reply.Refused? then 0 else CountActs(reply.events))
    ensures !reply.Refused? ==> reply.cycle == m.worker.cycle && (sim.Completed? ==> reply.events == sim.events)
    ensures var made := AccessOf(rs, p, reply);
      && m.worker.bytes == (if made == [] then old(m.worker.bytes)
                            else Overwritten(old(m.worker.bytes), made[0].addr, made[0].data))
      && m.engine.Dicts() == (if made == [] then old(m.engine.Dicts())
                              else CallStep(m.engine.c, old(m.engine.Dicts()), made[0].call))
      && (reply.Served? ==>
            made != [] && reply.newFlips == Folded(m.engine.c, old(m.engine.Dicts()), made[0].call).newFlips)
  {
    match p {
      case Rd(token) =>
        var r, flips := m.Read(rs.resolve(token).value, m.worker.txBytes, sim);
        if r.Err? { return Refused(r.code); }
        reply := Served(m.worker.cycle, sim.events, flips);
      case Wr(token, payload) =>
        OneWriteIsSole(if sim.Completed? then sim.events else []);
        var admitted := m.worker.Admits(rs.resolve(token).value, |payload.value|);
        var r, flips := m.Write(rs.resolve(token).value, payload.value, sim);
        if r.Ok? {
          reply := Served(m.worker.cycle, sim.events, flips);
        } else if admitted && sim.Completed? {
          reply := Unfolded(m.worker.cycle, sim.events);
        } else {
          reply := Refused(r.code);
        }
      case Wait(cycles) =>
        var events := if sim.Completed? then sim.events else [];
        var flips := m.Wait(cycles.value, events);
        reply := Served(m.worker.cycle, events, flips);
    }
  }

  /** How many bytes a primitive touches: a read a whole transaction, a write its payload. */
  function Length(m: DisturbedMemory, p: Primitive): nat {
    match p
    case Wr(_, payload) => if payload.Some? then |payload.value| else 0
    case Rd(_) => m.worker.txBytes
    case Wait(_) => 0
  }

  /** How many primitives an issue sends; none when it is rejected. */
  function Sends(env: Env, ps: seq<Primitive>, world: World): (n: nat)
    ensures n <= |ps|
  {
    SentIsPrefix(world.feed, Ceiling(env), env.live, env.cycle, |ps|);
    if IssueFault(world.resolver, ps).Some? then 0
    else Dispatched(world.feed, Ceiling(env), Start(env.live, env.cycle), |ps|).sent
  }

  predicate Admitted(env: Env) { !env.over && env.toolCalls > 0 }

  /** The accesses that a turn completes. */
  function TurnAccesses(env: Env, turn: Turn): seq<Access> {
    var call, world := turn.call, turn.world;
    if !Admitted(env) || !env.open then []
    else if call.AccessCall? && call.fault.None? then AccessOf(world.resolver, call.request, world.feed(0))
    else if call.IssueCall? && call.commands != [] && Expanded(call.commands).Ok? then
      var ps := Expanded(call.commands).value;
      IssueAccesses(world.resolver, ps, world.feed, Sends(env, ps, world))
    else []
  }

  /** The history of memory and engine after the first `n` turns. */
  function History(start: Env, turns: seq<Turn>, n: nat): seq<Access>
    requires n <= |turns|
  {
    if n == 0 then [] else History(start, turns, n - 1) + TurnAccesses(After(start, turns, n - 1), turns[n - 1])
  }

  /** The byte store and the engine's dictionaries that a history leaves. */
  function StoreAfter(hist: seq<Access>): Bytes { StoreTo(hist, |hist|) }
  function EngineAfter(c: Config, hist: seq<Access>): State { CallsTo(c, Calls(hist), |hist|) }

  // ---- what an issue stores and folds ---------------------------------------------------------------------

  /** The byte at `a` after the first `n` requests: of the writes that were not refused the last to cover it. */
  function SentByte(requests: seq<Sent>, feed: nat -> Reply, n: nat, a: int, before: bv8): bv8
    requires n <= |requests|
  {
    if n == 0 then before
    else
      var q := requests[n - 1];
      if q.SentWrite? && !feed(n - 1).Refused? && q.addr <= a < q.addr + |q.data| then q.data[a - q.addr]
      else SentByte(requests, feed, n - 1, a, before)
  }

  /** The memory after an issue holds exactly what its unrefused write requests carried, over what it held before. */
  lemma {:induction false} IssueStores(rs: Resolver, ps: seq<Primitive>, feed: nat -> Reply, requests: seq<Sent>,
      n: nat, hist: seq<Access>, a: int)
    requires n <= |ps| && n <= |requests| && forall i :: 0 <= i < n ==> Asks(rs, ps[i], requests[i])
    ensures var all := hist + IssueAccesses(rs, ps, feed, n);
      ByteAt(StoreAfter(all), a) == SentByte(requests, feed, n, a, ByteAt(StoreAfter(hist), a))
  {
    hide Asks, AccessOf, ByteAt, StoreTo;
    if n == 0 {
      assert hist + [] == hist;
    } else {
      IssueStores(rs, ps, feed, requests, n - 1, hist, a);
      var before, more := hist + IssueAccesses(rs, ps, feed, n - 1), AccessOf(rs, ps[n - 1], feed(n - 1));
      assert hist + IssueAccesses(rs, ps, feed, n) == before + more;
      StepStores(rs, ps[n - 1], feed(n - 1), requests[n - 1], before, a);
    }
  }

  lemma {:induction false} StepStores(rs: Resolver, p: Primitive, reply: Reply, q: Sent, before: seq<Access>, a: int)
    requires Asks(rs, p, q)
    ensures ByteAt(StoreAfter(before + AccessOf(rs, p, reply)), a) ==
      if q.SentWrite? && !reply.Refused? && q.addr <= a < q.addr + |q.data| then q.data[a - q.addr]
      else ByteAt(StoreAfter(before), a)
  {
    hide ByteAt, StoreTo, OneWrite, WriteRows;
    var more := AccessOf(rs, p, reply);
    if more == [] {
      assert before + more == before;
    } else {
      assert more == [more[0]];
      AppendStores(before, more[0]);
      OverwrittenAt(StoreAfter(before), more[0].addr, more[0].data, a);
    }
  }

  lemma {:induction false} AppendStores(hist: seq<Access>, x: Access)
    ensures StoreAfter(hist + [x]) == Overwritten(StoreAfter(hist), x.addr, x.data)
  {
    PrefixStores(hist, [x], |hist|);
  }

  lemma {:induction false} PrefixStores(hist: seq<Access>, more: seq<Access>, n: nat)
    requires n <= |hist|
    ensures StoreTo(hist + more, n) == StoreTo(hist, n)
  {
    hide Overwritten;
    if n > 0 { PrefixStores(hist, more, n - 1); }
  }

  /** All commands that a history hands to the engine, in order. */
  function HandedOver(hist: seq<Access>): seq<Event> {
    if hist == [] then [] else HandedOver(hist[..|hist| - 1]) + hist[|hist| - 1].call.events
  }

  /** The commands of one reply that reach the engine: those of a served reply, and of a write only when it is known
      which row it wrote. */
  ghost function ReachEngine(p: Primitive, reply: Reply): seq<Event> {
    if reply.Served? && (p.Wr? ==> exists i :: SoleWrite(reply.events, i)) then reply.events else []
  }

  ghost function ServedEvents(ps: seq<Primitive>, feed: nat -> Reply, n: nat): seq<Event>
    requires n <= |ps|
  {
    if n == 0 then [] else ServedEvents(ps, feed, n - 1) + ReachEngine(ps[n - 1], feed(n - 1))
  }

  lemma {:induction false} StepFolds(rs: Resolver, p: Primitive, reply: Reply)
    requires PrimitiveFault(rs, p).None?
    ensures var more := AccessOf(rs, p, reply);
      (more == [] && ReachEngine(p, reply) == []) || (|more| == 1 && more[0].call.events == ReachEngine(p, reply))
  {
    hide SoleWrite, OneWrite, WriteRows, IsWrite;
    if reply.Served? { OneWriteIsSole(reply.events); }
  }

  /** The engine receives every command of the served replies once and in order, and no other. */
  lemma {:induction false} IssueFolds(rs: Resolver, ps: seq<Primitive>, feed: nat -> Reply, n: nat)
    requires n <= |ps| && IssueFault(rs, ps).None?
    ensures HandedOver(IssueAccesses(rs, ps, feed, n)) == ServedEvents(ps, feed, n)
  {
    hide IssueFault, AccessOf, ReachEngine, PrimitiveFault, TokenKeys;
    if n > 0 {
      IssueFolds(rs, ps, feed, n - 1);
      AcceptedExactly(rs, ps);
      StepFolds(rs, ps[n - 1], feed(n - 1));
      var before, more := IssueAccesses(rs, ps, feed, n - 1), AccessOf(rs, ps[n - 1], feed(n - 1));
      if more == [] {
        assert before + more == before;
      } else {
        assert (before + more)[..|before|] == before && more == [more[0]];
      }
    }
  }

  /** An admitted issue stores exactly what its unrefused write requests carried ... */
  lemma {:induction false} IssueTurnStores(env: Env, turn: Turn, hist: seq<Access>, requests: seq<Sent>, a: int)
    requires Admitted(env) && env.open && turn.call.IssueCall? && turn.call.commands != []
    requires Expanded(turn.call.commands).Ok?
    requires var ps := Expanded(turn.call.commands).value; var sent := Sends(env, ps, turn.world);
      sent <= |requests| && forall j :: 0 <= j < sent ==> Asks(turn.world.resolver, ps[j], requests[j])
    ensures var sent := Sends(env, Expanded(turn.call.commands).value, turn.world);
      ByteAt(StoreAfter(hist + TurnAccesses(env, turn)), a) ==
        SentByte(requests, turn.world.feed, sent, a, ByteAt(StoreAfter(hist), a))
  {
    hide Asks, ByteAt, StoreTo, Expanded, Sends, IssueAccesses, SentByte;
    var ps := Expanded(turn.call.commands).value;
    IssueStores(turn.world.resolver, ps, turn.world.feed, requests, Sends(env, ps, turn.world), hist, a);
  }

  /** ... a direct write its payload, and no other turn stores anything. */
  lemma {:induction false} TurnStores(env: Env, turn: Turn, hist: seq<Access>, a: int)
    requires !turn.call.IssueCall?
    ensures ByteAt(StoreAfter(hist + TurnAccesses(env, turn)), a) ==
      if Admitted(env) && env.open && turn.call.AccessCall? && turn.call.fault.None?
      then Rewritten(turn.world.resolver, turn.call.request, turn.world.feed(0), a, ByteAt(StoreAfter(hist), a))
      else ByteAt(StoreAfter(hist), a)
  {
    hide ByteAt, StoreTo, AccessOf, Rewritten;
    if Admitted(env) && env.open && turn.call.AccessCall? && turn.call.fault.None? {
      AccessStores(turn.world.resolver, turn.call.request, turn.world.feed(0), hist, a);
    } else {
      assert hist + [] == hist;
    }
  }

  /** The byte at `a` after a direct access: that of an unrefused write that covers it. */
  function Rewritten(rs: Resolver, p: Primitive, reply: Reply, a: int, before: bv8): bv8 {
    if p.Wr? && rs.resolve(p.addr).Ok? && p.payload.Some? && !reply.Refused?
       && rs.resolve(p.addr).value <= a < rs.resolve(p.addr).value + |p.payload.value|
    then p.payload.value[a - rs.resolve(p.addr).value]
    else before
  }

  lemma {:induction false} AccessStores(rs: Resolver, p: Primitive, reply: Reply, hist: seq<Access>, a: int)
    ensures ByteAt(StoreAfter(hist + AccessOf(rs, p, reply)), a) ==
      Rewritten(rs, p, reply, a, ByteAt(StoreAfter(hist), a))
  {
    hide ByteAt, StoreTo;
    if PrimitiveFault(rs, p).None? {
      RequestAsks(rs, p);
      StepStores(rs, p, reply, RequestOf(rs, p), hist, a);
    } else {
      assert hist + [] == hist;
    }
  }

  // ---- every charged activation is folded -----------------------------------------------------------------

  /** The reply does not fail in the engine. */
  predicate FoldsAt(p: Primitive, reply: Reply) {
    !reply.Unfolded? && (reply.Served? && p.Wr? ==> OneWrite(reply.events))
  }

  /** A turn whose replies can all be folded; the arguments of a direct access have no unreported fault. */
  ghost predicate Folds(turn: Turn) {
    match turn.call
    case AccessCall(p, fault) =>
      FoldsAt(p, turn.world.feed(0)) && (fault.None? ==> PrimitiveFault(turn.world.resolver, p).None?)
    case IssueCall(commands) => Expanded(commands).Ok? ==>
      forall j :: 0 <= j < |Expanded(commands).value| ==> FoldsAt(Expanded(commands).value[j], turn.world.feed(j))
    case NoTool => true
    case InfoCall => true
    case FinishCall => true
    case UnknownCall => true
  }

  lemma {:induction false} CountActsAppend(xs: seq<Event>, ys: seq<Event>)
    ensures CountActs(xs + ys) == CountActs(xs) + CountActs(ys)
  {
    if ys == [] {
      assert xs + ys == xs;
    } else {
      CountActsAppend(xs, ys[..|ys| - 1]);
      assert (xs + ys)[..|xs + ys| - 1] == xs + ys[..|ys| - 1];
    }
  }

  lemma {:induction false} HandedAppend(xs: seq<Access>, ys: seq<Access>)
    ensures HandedOver(xs + ys) == HandedOver(xs) + HandedOver(ys)
  {
    if ys == [] {
      assert xs + ys == xs;
    } else {
      var n := |ys| - 1;
      HandedAppend(xs, ys[..n]);
      HandedMore(xs, ys, n);
    }
  }

  lemma {:induction false} HandedMore(xs: seq<Access>, ys: seq<Access>, n: nat)
    requires |ys| == n + 1 && HandedOver(xs + ys[..n]) == HandedOver(xs) + HandedOver(ys[..n])
    ensures HandedOver(xs + ys) == HandedOver(xs) + HandedOver(ys)
  {
    hide HandedOver;
    HandedLast(ys[..n], ys[n]);
    HandedLast(xs + ys[..n], ys[n]);
    assert ys[..n] + [ys[n]] == ys && xs + ys[..n] + [ys[n]] == xs + ys;
    Associates(HandedOver(xs), HandedOver(ys[..n]), ys[n].call.events);
  }

  lemma {:induction false} Associates(a: seq<Event>, b: seq<Event>, c: seq<Event>)
    ensures (a + b) + c == a + (b + c)
  {
  }

  lemma {:induction false} HandedLast(xs: seq<Access>, y: Access)
    ensures HandedOver(xs + [y]) == HandedOver(xs) + y.call.events
  {
    assert (xs + [y])[..|xs|] == xs;
  }

  /** The counter rises by the activations of the served replies. */
  lemma {:induction false} IssueCounts(ps: seq<Primitive>, feed: nat -> Reply, ceiling: Option<int>, live: int,
      cycle: int, n: nat)
    requires n <= |ps| && forall j :: 0 <= j < |ps| ==> FoldsAt(ps[j], feed(j))
    ensures var p := Dispatched(feed, ceiling, Start(live, cycle), n);
      p.sent <= n && p.live == live + CountActs(ServedEvents(ps, feed, p.sent))
  {
    hide CountActs, ReachEngine, OneWrite;
    if n == 0 {
      NothingHanded();
    } else {
      IssueCounts(ps, feed, ceiling, live, cycle, n - 1);
      var p := Dispatched(feed, ceiling, Start(live, cycle), n - 1);
      if p.stop == Running && !Capped(p, ceiling) {
        CountActsAppend(ServedEvents(ps, feed, p.sent), ReachEngine(ps[p.sent], feed(p.sent)));
        ReachedActs(ps[p.sent], feed(p.sent));
      }
    }
  }

  lemma {:induction false} ReachedActs(p: Primitive, reply: Reply)
    requires FoldsAt(p, reply)
    ensures CountActs(ReachEngine(p, reply)) == (if reply.Served? then CountActs(reply.events) else 0)
  {
    hide OneWrite, SoleWrite;
    if reply.Served? { OneWriteIsSole(reply.events); }
  }

  lemma {:induction false} TurnCounts(env: Env, turn: Turn, budget: Option<int>)
    requires Consistent(env, budget) && Folds(turn)
    ensures Step(env, turn.call, turn.world).0.live == env.live + CountActs(HandedOver(TurnAccesses(env, turn)))
  {
    hide OneWrite, WriteRows, Expanded, IssueFault, ServedEvents, HandedOver, IssueAccesses, FoldsAt, CountActs;
    var call, world := turn.call, turn.world;
    NothingHanded();
    if Admitted(env) {
      if call.AccessCall? && call.fault.None? {
        AccessCounts(world.resolver, call.request, world.feed(0));
      } else if call.IssueCall? && call.commands != [] && Expanded(call.commands).Ok? {
        var ps := Expanded(call.commands).value;
        if IssueFault(world.resolver, ps).None? {
          SentIsPrefix(world.feed, Ceiling(env), env.live, env.cycle, |ps|);
          IssueCounts(ps, world.feed, Ceiling(env), env.live, env.cycle, |ps|);
          IssueFolds(world.resolver, ps, world.feed, Sends(env, ps, world));
        } else {
          NoAccesses(world.resolver, ps, world.feed);
        }
        hide Dispatched;
      }
    }
  }

  lemma {:induction false} NoAccesses(rs: Resolver, ps: seq<Primitive>, feed: nat -> Reply)
    ensures IssueAccesses(rs, ps, feed, 0) == []
  {
  }

  lemma {:induction false} NothingHanded()
    ensures HandedOver([]) == [] && CountActs([]) == 0
  {
  }

  lemma {:induction false} AccessCounts(rs: Resolver, p: Primitive, reply: Reply)
    requires FoldsAt(p, reply) && PrimitiveFault(rs, p).None?
    ensures CountActs(HandedOver(AccessOf(rs, p, reply))) == (if reply.Served? then CountActs(reply.events) else 0)
    ensures !reply.Unfolded?
  {
    hide OneWrite, WriteRows, CountActs;
    NothingHanded();
    StepFolds(rs, p, reply);
    ReachedActs(p, reply);
    var more := AccessOf(rs, p, reply);
    if more != [] { assert more[..|more| - 1] == [] && [] + more[0].call.events == more[0].call.events; }
  }

  /** As long as every reply can be folded, the engine has seen exactly the activations that the environment counted,
      and charged: none is lost between them and none is folded twice. */
  lemma {:induction false} EngineSeesActivations(tools: nat, cycleBudget: nat, actBudget: Option<nat>,
      turns: seq<Turn>, n: nat)
    requires n <= |turns| && forall i :: 0 <= i < n ==> Folds(turns[i])
    ensures var start := Fresh(tools, cycleBudget, actBudget);
      After(start, turns, n).live == CountActs(HandedOver(History(start, turns, n)))
  {
    hide Folds, Step, TurnAccesses, HandedOver, CountActs, Consistent;
    var start := Fresh(tools, cycleBudget, actBudget);
    if n == 0 {
      NothingHanded();
    } else {
      var env, hist := After(start, turns, n - 1), History(start, turns, n - 1);
      EngineSeesActivations(tools, cycleBudget, actBudget, turns, n - 1);
      RunConsistent(tools, cycleBudget, actBudget, turns, n - 1);
      TurnCounts(env, turns[n - 1], actBudget);
      HandedAppend(hist, TurnAccesses(env, turns[n - 1]));
      CountActsAppend(HandedOver(hist), HandedOver(TurnAccesses(env, turns[n - 1])));
    }
  }

  // ---- the trusted predicate ------------------------------------------------------------------------------

  datatype Objective = TargetRow | AnyRow | TargetCell | TargetPattern

  /** The worker's device capacity, 0 if unpublished, and its transaction size. */
  datatype Limits = Limits(capacity: nat, txBytes: nat)

  /** The worker serves a one-byte read at this address. */
  predicate Readable(limits: Limits, addr: int) {
    limits.txBytes >= 1 && addr >= 0 && (limits.capacity == 0 || addr + 1 <= limits.capacity)
  }

  /** The overlay already rules the byte's predicate in or out, before the byte is read. */
  predicate Candidate(objective: Objective, task: Task, s: State) {
    match objective
    case TargetRow => TargetBankrowFlip(task, s)
    case AnyRow => AnyFlip(s)
    case TargetCell => task.addr in s.flips && s.flips[task.addr] == task.bit
    case TargetPattern => task.addr in s.flips
  }

  predicate Meets(objective: Objective, task: Task, s: State, bytes: Bytes) {
    var byte := Visible(bytes, s.flips, task.addr);
    match objective
    case TargetRow => TargetBankrowFlip(task, s)
    case AnyRow => AnyFlip(s)
    case TargetCell => TargetCellFlip(task, s, byte)
    case TargetPattern => PatternTarget(task, s, byte)
  }

  predicate ReadsByte(objective: Objective) { objective.TargetCell? || objective.TargetPattern? }

  /** What the predicate answers on trusted state: the byte is read only when the overlay allows a success. */
  function VerdictOf(objective: Objective, task: Task, s: State, bytes: Bytes, limits: Limits): Verdict {
    if !Candidate(objective, task, s) then NotYet
    else if ReadsByte(objective) && !Readable(limits, task.addr) then Unreadable
    else if Meets(objective, task, s, bytes) then Won
    else NotYet
  }

  /** In every admitted turn the predicate is read from the state that the turns so far have left. */
  ghost predicate Trusted(c: Config, start: Env, turns: seq<Turn>, objective: Objective, task: Task, limits: Limits) {
    forall i :: 0 <= i < |turns| ==> TrustedAt(c, start, turns, objective, task, limits, i)
  }

  ghost predicate TrustedAt(c: Config, start: Env, turns: seq<Turn>, objective: Objective, task: Task, limits: Limits,
      i: nat)
    requires i < |turns|
  {
    Admitted(After(start, turns, i)) ==>
      var hist := History(start, turns, i + 1);
      turns[i].world.verdict == VerdictOf(objective, task, EngineAfter(c, hist), StoreAfter(hist), limits)
  }

  // ---- the reward -----------------------------------------------------------------------------------------

  lemma {:induction false} WonIsMet(objective: Objective, task: Task, s: State, bytes: Bytes, limits: Limits)
    ensures VerdictOf(objective, task, s, bytes, limits) == Won <==>
      Meets(objective, task, s, bytes) && (ReadsByte(objective) ==> Readable(limits, task.addr))
  {
  }

  /** Reward 1 is shown by a turn exactly when it is admitted and the memory and the engine that the turns so far
      have left meet the objective, at a readable byte where one is read. */
  lemma {:induction false} RewardIsTrusted(c: Config, tools: nat, cycleBudget: nat, actBudget: Option<nat>,
      turns: seq<Turn>, objective: Objective, task: Task, limits: Limits, i: nat)
    requires i < |turns|
    requires Trusted(c, Fresh(tools, cycleBudget, actBudget), turns, objective, task, limits)
    ensures var start := Fresh(tools, cycleBudget, actBudget);
      var hist := History(start, turns, i + 1);
      Seen(start, turns, i).reward == 1 <==>
        && Admitted(After(start, turns, i))
        && Meets(objective, task, EngineAfter(c, hist), StoreAfter(hist))
        && (ReadsByte(objective) ==> Readable(limits, task.addr))
  {
    hide Seen, After, History, EngineAfter, StoreAfter, VerdictOf, Meets;
    assert TrustedAt(c, Fresh(tools, cycleBudget, actBudget), turns, objective, task, limits, i);
    var start := Fresh(tools, cycleBudget, actBudget);
    var hist := History(start, turns, i + 1);
    RewardExactly(tools, cycleBudget, actBudget, turns, i);
    WonIsMet(objective, task, EngineAfter(c, hist), StoreAfter(hist), limits);
  }

  /** The engine of an episode is that of a run of its commands and writes. */
  lemma {:induction false} EngineIsRun(c: Config, hist: seq<Access>)
    ensures EngineAfter(c, hist).flips == Run(c, Spelled(Calls(hist), |hist|)).flips
    ensures EngineAfter(c, hist).flippedKeys == Run(c, Spelled(Calls(hist), |hist|)).flippedKeys
  {
    hide Run, Spelled, CallsTo;
    CallsAreRun(c, Calls(hist), |hist|);
  }

  /** On a device, an episode with a row objective shows reward 1 in exactly the admitted turns after which some
      overlay address decodes to the target row. */
  lemma {:induction false} RewardIsFlippedRow(l: DR.Device, c: Config, tools: nat, cycleBudget: nat,
      actBudget: Option<nat>, turns: seq<Turn>, task: Task, limits: Limits, i: nat)
    requires i < |turns| && DR.OnDevice(l, c)
    requires Trusted(c, Fresh(tools, cycleBudget, actBudget), turns, TargetRow, task, limits)
    requires var hist := History(Fresh(tools, cycleBudget, actBudget), turns, i + 1); OnlyDecoded(l, hist, |hist|)
    ensures var start := Fresh(tools, cycleBudget, actBudget);
      var flips := EngineAfter(c, History(start, turns, i + 1)).flips;
      Seen(start, turns, i).reward == 1 <==>
        Admitted(After(start, turns, i)) && exists a :: a in flips && DR.KeyAt(l, a) == task.key
  {
    hide Seen, After, History, EngineAfter, StoreAfter, Run, DR.OnDevice, DR.KeyAt, DR.Decoded, Trusted;
    var hist := History(Fresh(tools, cycleBudget, actBudget), turns, i + 1);
    var run := Spelled(Calls(hist), |hist|);
    RewardIsTrusted(c, tools, cycleBudget, actBudget, turns, TargetRow, task, limits, i);
    EngineIsRun(c, hist);
    hide Spelled;
    FlippedRowOfRun(l, c, run, task.key);
  }

  lemma {:induction false} FlippedRowOfRun(l: DR.Device, c: Config, run: seq<Action>, k: Key)
    requires DR.OnDevice(l, c) && forall j :: 0 <= j < |run| ==> DR.Decoded(l, run[j])
    ensures k in Run(c, run).flippedKeys <==> exists a :: a in Run(c, run).flips && DR.KeyAt(l, a) == k
  {
    hide RunTo, DR.OnDevice, DR.KeyAt, DR.Decoded;
    DR.RewardIsExact(l, c, run, |run|, k);
  }

  /** An episode with a cell objective shows reward 1 in exactly the admitted turns after which the target bit is
      flipped, at a readable address, and the byte written there last holds the opposite of the requested value. */
  lemma {:induction false} RewardIsFlippedCell(c: Config, tools: nat, cycleBudget: nat, actBudget: Option<nat>,
      turns: seq<Turn>, task: Task, limits: Limits, i: nat)
    requires i < |turns| && task.bit < 8
    requires Trusted(c, Fresh(tools, cycleBudget, actBudget), turns, TargetCell, task, limits)
    ensures var start := Fresh(tools, cycleBudget, actBudget);
      var hist := History(start, turns, i + 1);
      var flips, stored := EngineAfter(c, hist).flips, LastWritten(hist, |hist|, task.addr);
      Seen(start, turns, i).reward == 1 <==>
        && Admitted(After(start, turns, i)) && Readable(limits, task.addr)
        && task.addr in flips && flips[task.addr] == task.bit
        && HasBit(stored, task.bit) != HasBit(task.value, task.bit)
  {
    hide Seen, After, History, EngineAfter, HasBit, Readable, LastWritten, StoreTo, Trusted, TargetCellFlip, Visible;
    var hist := History(Fresh(tools, cycleBudget, actBudget), turns, i + 1);
    RewardIsTrusted(c, tools, cycleBudget, actBudget, turns, TargetCell, task, limits, i);
    CellSuccessNeedsDisturbance(task, EngineAfter(c, hist), StoreAfter(hist));
    StoreIsLastWritten(hist, |hist|, task.addr);
  }

  /** An episode with a pattern objective shows reward 1 in exactly the admitted turns after which the target byte is
      readable and has a flipped bit, and every bit of the mask, as written last, is the requested one unless it is
      the flipped one. */
  lemma {:induction false} RewardIsFlippedPattern(c: Config, tools: nat, cycleBudget: nat, actBudget: Option<nat>,
      turns: seq<Turn>, task: Task, limits: Limits, i: nat)
    requires i < |turns|
    requires Trusted(c, Fresh(tools, cycleBudget, actBudget), turns, TargetPattern, task, limits)
    ensures var start := Fresh(tools, cycleBudget, actBudget);
      var hist := History(start, turns, i + 1);
      var flips, stored := EngineAfter(c, hist).flips, LastWritten(hist, |hist|, task.addr);
      Seen(start, turns, i).reward == 1 <==>
        && Admitted(After(start, turns, i)) && Readable(limits, task.addr) && task.addr in flips
        && forall j: nat :: j < 8 && HasBit(task.mask, j) ==>
             (HasBit(stored, j) != HasBit(task.value, j) <==> flips[task.addr] == j)
  {
    hide Seen, After, History, EngineAfter, HasBit, Readable, LastWritten, StoreTo, Trusted, PatternTarget, Visible;
    var hist := History(Fresh(tools, cycleBudget, actBudget), turns, i + 1);
    RewardIsTrusted(c, tools, cycleBudget, actBudget, turns, TargetPattern, task, limits, i);
    PatternSuccessExactly(task, EngineAfter(c, hist), StoreAfter(hist));
    StoreIsLastWritten(hist, |hist|, task.addr);
  }

  /** The overlay shows the flip that the objective asks for, at an address that cannot be read. */
  predicate Unjudged(objective: Objective, task: Task, flips: map<int, nat>, limits: Limits) {
    && task.addr in flips && !Readable(limits, task.addr)
    && (objective == TargetPattern || (objective == TargetCell && flips[task.addr] == task.bit))
  }

  /** An admitted turn closes the worker when it finishes the episode or leaves a flip that cannot be judged, and in
      no other case; in the second it reports a simulator failure and ends the episode without a reward. */
  lemma {:induction false} UnreadableEnds(c: Config, tools: nat, cycleBudget: nat, actBudget: Option<nat>,
      turns: seq<Turn>, objective: Objective, task: Task, limits: Limits, i: nat)
    requires i < |turns| && Admitted(After(Fresh(tools, cycleBudget, actBudget), turns, i))
    requires Trusted(c, Fresh(tools, cycleBudget, actBudget), turns, objective, task, limits)
    ensures var start := Fresh(tools, cycleBudget, actBudget);
      var unjudged := Unjudged(objective, task, EngineAfter(c, History(start, turns, i + 1)).flips, limits);
      && (After(start, turns, i + 1).open <==> !turns[i].call.FinishCall? && !unjudged)
      && (unjudged ==> Seen(start, turns, i).error == Some(InternalSimulatorError) && After(start, turns, i + 1).over
                       && Seen(start, turns, i).reward == 0)
  {
    var start := Fresh(tools, cycleBudget, actBudget);
    var hist := History(start, turns, i + 1);
    RunConsistent(tools, cycleBudget, actBudget, turns, i);
    assert TrustedAt(c, start, turns, objective, task, limits, i);
    assert After(start, turns, i + 1) == Step(After(start, turns, i), turns[i].call, turns[i].world).0;
    hide After, History, EngineAfter, StoreAfter, Consistent, Step;
    StepLeaves(After(start, turns, i), turns[i].call, turns[i].world, actBudget);
    UnjudgedIs(objective, task, EngineAfter(c, hist), StoreAfter(hist), limits);
    hide VerdictOf, Unjudged;
  }

  lemma {:induction false} UnjudgedIs(objective: Objective, task: Task, s: State, bytes: Bytes, limits: Limits)
    ensures VerdictOf(objective, task, s, bytes, limits) == Unreadable <==> Unjudged(objective, task, s.flips, limits)
  {
    hide Meets, Readable;
  }
}
