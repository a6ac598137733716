/** `dram.issue`: expanding compact commands, validating them all, and dispatching a prefix.

    A command list is expanded into primitives, every primitive is validated before any is sent, and
    then they are sent one by one until the activation ceiling or a failure. The main results: the
    expansion is exactly the explicit sequence (a hammer is the alternating one), a rejected issue
    sends nothing, and what is sent is a prefix that stops at the first point where it must. */
module CommandIssue {
  import opened DisturbanceModel
  import opened DisturbedMemories
  import opened ErrorCodes
  import Bits

  const MAX_ISSUE_ACTIVATIONS := 2_000_000
  const MAX_DIGEST_ADDR_TOKENS := 256

  /** An address as the policy supplied it. */
  datatype Token = Token(id: int)

  datatype Primitive =
    | Rd(addr: Token)
    | Wr(addr: Token, payload: Option<seq<bv8>>)
    | Wait(cycles: Option<nat>)

  /** A repeat field: absent, a non-negative integer, or anything else. */
  datatype Count = Absent | Times(n: nat) | Malformed

  datatype Command =
    | NotAnObject
    | HammerRows(rows: Option<seq<Token>>, pairs: Count)
    | Plain(primitive: Primitive, times: Count)
    | UnknownOp

  // ---- expansion ------------------------------------------------------------------------------------------

  function Copies(p: Primitive, n: nat): (r: seq<Primitive>)
    ensures |r| == n && forall i :: 0 <= i < n ==> r[i] == p
  {
    seq(n, _ => p)
  }

  function Reads(rows: seq<Token>): (r: seq<Primitive>)
    ensures |r| == |rows| && forall i :: 0 <= i < |r| ==> r[i] == Rd(rows[i])
  {
    seq(|rows|, i requires 0 <= i < |rows| => Rd(rows[i]))
  }

  /** `n` sweeps, each one read per row. */
  function Sweeps(rows: seq<Token>, n: nat): seq<Primitive> {
    if n == 0 then [] else Sweeps(rows, n - 1) + Reads(rows)
  }

  function SweepLength(rows: seq<Token>, n: nat): nat { n * |rows| }

  /** A compact hammer is the explicit alternating sequence: position `i` reads row `i` modulo the rows. */
  lemma {:induction false} SweepsAlternate(rows: seq<Token>, n: nat, i: nat)
    requires rows != []
    ensures |Sweeps(rows, n)| == SweepLength(rows, n) == n * |rows|
    ensures i < |Sweeps(rows, n)| ==> Sweeps(rows, n)[i] == Rd(rows[i % |rows|])
  {
    if n > 0 {
      SweepsAlternate(rows, n - 1, i);
      SweepNext(rows, n);
      if SweepLength(rows, n - 1) <= i < SweepLength(rows, n) { InSweep(|rows|, n - 1, i - SweepLength(rows, n - 1)); }
    }
  }

  lemma {:induction false} SweepNext(rows: seq<Token>, n: nat)
    requires n > 0
    ensures SweepLength(rows, n) == SweepLength(rows, n - 1) + |rows|
  {
  }

  lemma {:induction false} InSweep(w: nat, n: nat, j: nat)
    requires j < w
    ensures (n * w + j) % w == j
  {
    Bits.RemainderIs(n * w + j, w, n, j);
  }

  /** What a well-formed command stands for, written out; how long that is. */
  predicate WellFormed(cmd: Command) {
    match cmd
    case NotAnObject => false
    case UnknownOp => false
    case HammerRows(rows, pairs) => rows.Some? && rows.value != [] && pairs.Times?
    case Plain(_, times) => !times.Malformed?
  }

  function Unrolled(cmd: Command): seq<Primitive>
    requires WellFormed(cmd)
  {
    match cmd
    case HammerRows(rows, pairs) => Sweeps(rows.value, pairs.n)
    case Plain(p, times) => Copies(p, if times.Absent? then 1 else times.n)
  }

  /** The whole list written out. */
  function Explicit(cmds: seq<Command>): seq<Primitive>
    requires forall i :: 0 <= i < |cmds| ==> WellFormed(cmds[i])
  {
    if cmds == [] then [] else Explicit(cmds[..|cmds| - 1]) + Unrolled(cmds[|cmds| - 1])
  }

  function Fault(cmd: Command): ErrorCode {
    if cmd.UnknownOp? then IllegalCommand else BadSchema
  }

  function ExpandOne(out: seq<Primitive>, cmd: Command): Result<seq<Primitive>> {
    if !WellFormed(cmd) then Err(Fault(cmd))
    else if |out| + |Unrolled(cmd)| > MAX_ISSUE_ACTIVATIONS then Err(IllegalCommand)
    else Ok(out + Unrolled(cmd))
  }

  function Expanded(cmds: seq<Command>): Result<seq<Primitive>> {
    if cmds == [] then Ok([])
    else
      match Expanded(cmds[..|cmds| - 1])
      case Err(code) => Err(code)
      case Ok(out) => ExpandOne(out, cmds[|cmds| - 1])
  }

  /** Expansion succeeds exactly on well-formed lists within the cap, and yields the explicit sequence. */
  lemma {:induction false} ExpansionIsExplicit(cmds: seq<Command>)
    ensures Expanded(cmds).Ok? <==>
      (forall i :: 0 <= i < |cmds| ==> WellFormed(cmds[i])) && |Explicit(cmds)| <= MAX_ISSUE_ACTIVATIONS
    ensures Expanded(cmds).Ok? ==> Expanded(cmds).value == Explicit(cmds)
  {
    hide WellFormed, Unrolled;
    if cmds != [] {
      var init := cmds[..|cmds| - 1];
      ExpansionIsExplicit(init);
      if forall i :: 0 <= i < |cmds| ==> WellFormed(cmds[i]) {
        assert forall i :: 0 <= i < |init| ==> init[i] == cmds[i];
      } else if forall i :: 0 <= i < |init| ==> WellFormed(init[i]) {
        assert !WellFormed(cmds[|cmds| - 1]);
      }
    }
  }

  lemma {:induction false} HammerAlone(rows: seq<Token>, n: nat)
    requires rows != []
    ensures var r := Expanded([HammerRows(Some(rows), Times(n))]);
      if SweepLength(rows, n) > MAX_ISSUE_ACTIVATIONS then r == Err(IllegalCommand)
      else r.Ok? && |r.value| == SweepLength(rows, n)
           && forall i :: 0 <= i < |r.value| ==> r.value[i] == Rd(rows[i % |rows|])
  {
    var cmd := HammerRows(Some(rows), Times(n));
    assert [cmd][..0] == [] && Expanded([cmd]) == ExpandOne([], cmd);
    SweepsAlternate(rows, n, 0);
    hide Sweeps, SweepLength;
    forall i: nat | i < |Sweeps(rows, n)| ensures Sweeps(rows, n)[i] == Rd(rows[i % |rows|]) {
      SweepsAlternate(rows, n, i);
    }
  }

  /** What each command expands to on its own: the schema faults, the unknown operation, one read per row and sweep,
      and one copy of a primitive without a count. */
  lemma {:induction false} CommandAlone(cmd: Command)
    ensures var r := Expanded([cmd]);
      match cmd
      case NotAnObject => r == Err(BadSchema)
      case UnknownOp => r == Err(IllegalCommand)
      case HammerRows(rows, pairs) =>
        if rows.None? || rows.value == [] || pairs.Absent? || pairs.Malformed? then r == Err(BadSchema)
        else if SweepLength(rows.value, pairs.n) > MAX_ISSUE_ACTIVATIONS then r == Err(IllegalCommand)
        else r.Ok? && |r.value| == SweepLength(rows.value, pairs.n)
             && forall i :: 0 <= i < |r.value| ==> r.value[i] == Rd(rows.value[i % |rows.value|])
      case Plain(p, times) =>
        if times.Malformed? then r == Err(BadSchema)
        else if times.Absent? then r == Ok([p])
        else if times.n > MAX_ISSUE_ACTIVATIONS then r == Err(IllegalCommand)
        else r.Ok? && |r.value| == times.n && forall i :: 0 <= i < times.n ==> r.value[i] == p
  {
    hide Sweeps, SweepLength;
    if cmd.HammerRows? && WellFormed(cmd) {
      HammerAlone(cmd.rows.value, cmd.pairs.n);
      hide Expanded;
    } else {
      assert [cmd][..0] == [] && Expanded([cmd]) == ExpandOne([], cmd);
      if cmd.Plain? && !cmd.times.Malformed? {
        assert [] + Unrolled(cmd) == Unrolled(cmd);
        if cmd.times.Absent? { assert Unrolled(cmd) == [cmd.primitive]; }
      }
    }
  }

  /** Command `i` is the first that cannot be expanded, for the given reason. */
  ghost predicate FirstFault(cmds: seq<Command>, i: nat, code: ErrorCode) {
    && i < |cmds| && (forall j :: 0 <= j < i ==> WellFormed(cmds[j])) && |Explicit(cmds[..i])| <= MAX_ISSUE_ACTIVATIONS
    && if WellFormed(cmds[i])
       then |Explicit(cmds[..i]) + Unrolled(cmds[i])| > MAX_ISSUE_ACTIVATIONS && code == IllegalCommand
       else code == if cmds[i].UnknownOp? then IllegalCommand else BadSchema
  }

  /** A refused list is refused for its first fault. */
  lemma {:induction false} ExpansionFault(cmds: seq<Command>) returns (i: nat)
    requires Expanded(cmds).Err?
    ensures FirstFault(cmds, i, Expanded(cmds).code)
  {
    hide WellFormed, Unrolled;
    var init, last := cmds[..|cmds| - 1], |cmds| - 1;
    ExpansionIsExplicit(init);
    assert forall j :: 0 <= j < last ==> init[j] == cmds[j];
    if Expanded(init).Err? {
      i := ExpansionFault(init);
      assert init[..i] == cmds[..i];
    } else {
      i := last;
    }
  }

  method EmitPrimitive(out: seq<Primitive>, p: Primitive, times: nat) returns (r: Result<seq<Primitive>>)
    ensures r == if |out| + times > MAX_ISSUE_ACTIVATIONS then Err(IllegalCommand) else Ok(out + Copies(p, times))
  {
    if |out| + times > MAX_ISSUE_ACTIVATIONS { return Err(IllegalCommand); }
    r := Ok(out + Copies(p, times));
  }

  /** The hammer loops: one emitted read at a time, each checked against the cap. */
  method EmitSweeps(out0: seq<Primitive>, rows: seq<Token>, pairs: nat) returns (r: Result<seq<Primitive>>)
    requires rows != [] && |out0| <= MAX_ISSUE_ACTIVATIONS
    ensures r == if |out0| + |Sweeps(rows, pairs)| > MAX_ISSUE_ACTIVATIONS then Err(IllegalCommand)
                 else Ok(out0 + Sweeps(rows, pairs))
  {
    var out := out0;
    var n := 0;
    while n < pairs
      invariant n <= pairs && out == out0 + Sweeps(rows, n)
      invariant |out| <= MAX_ISSUE_ACTIVATIONS
    {
      ghost var start := out;
      var i := 0;
      while i < |rows|
        invariant 0 <= i <= |rows| && out == start + Reads(rows)[..i]
        invariant |out| <= MAX_ISSUE_ACTIVATIONS
      {
        var more := EmitPrimitive(out, Rd(rows[i]), 1);
        if more.Err? {
          SweepsGrow(rows, n + 1, pairs);
          return more;
        }
        assert Reads(rows)[..i + 1] == Reads(rows)[..i] + Copies(Rd(rows[i]), 1);
        out := more.value;
        i := i + 1;
      }
      assert Reads(rows)[..|rows|] == Reads(rows);
      n := n + 1;
    }
    r := Ok(out);
  }

  lemma {:induction false} SweepsGrow(rows: seq<Token>, n: nat, m: nat)
    requires n <= m
    ensures |Sweeps(rows, n)| <= |Sweeps(rows, m)|
  {
    if n < m { SweepsGrow(rows, n, m - 1); }
  }

  method ExpandCommand(out: seq<Primitive>, cmd: Command) returns (r: Result<seq<Primitive>>)
    requires |out| <= MAX_ISSUE_ACTIVATIONS
    ensures r == ExpandOne(out, cmd)
  {
    match cmd {
      case NotAnObject => r := Err(BadSchema);
      case HammerRows(rows, pairs) =>
        if rows.None? || rows.value == [] || !pairs.Times? {
          r := Err(BadSchema);
        } else {
          r := EmitSweeps(out, rows.value, pairs.n);
        }
      case Plain(p, times) =>
        if times.Malformed? {
          r := Err(BadSchema);
        } else {
          r := EmitPrimitive(out, p, if times.Absent? then 1 else times.n);
        }
      case UnknownOp => r := Err(IllegalCommand);
    }
  }

  method ExpandCommands(cmds: seq<Command>) returns (r: Result<seq<Primitive>>)
    ensures r == Expanded(cmds)
  {
    hide WellFormed, Unrolled;
    var out: seq<Primitive> := [];
    for i := 0 to |cmds|
      invariant Expanded(cmds[..i]) == Ok(out) && |out| <= MAX_ISSUE_ACTIVATIONS
    {
      assert cmds[..i + 1][..i] == cmds[..i];
      var step := ExpandCommand(out, cmds[i]);
      if step.Err? {
        StaysErr(cmds, i + 1);
        return step;
      }
      out := step.value;
    }
    assert cmds[..|cmds|] == cmds;
    r := Ok(out);
  }

  lemma {:induction false} StaysErr(cmds: seq<Command>, i: nat)
    requires i <= |cmds| && Expanded(cmds[..i]).Err?
    ensures Expanded(cmds) == Expanded(cmds[..i])
    decreases |cmds|
  {
    if i == |cmds| {
      assert cmds[..i] == cmds;
    } else {
      var init := cmds[..|cmds| - 1];
      assert init[..i] == cmds[..i];
      StaysErr(init, i);
    }
  }

  // ---- validation -----------------------------------------------------------------------------------------

  /** Address resolution of the episode: linear address, and the key of a token in the digest. */
  datatype Resolver = Resolver(resolve: Token -> Result<nat>, keyOf: Token -> int)

  function PrimitiveFault(rs: Resolver, p: Primitive): Option<ErrorCode> {
    match p
    case Wait(cycles) => if cycles.None? then Some(BadSchema) else None
    case Rd(addr) => if rs.resolve(addr).Err? then Some(rs.resolve(addr).code) else None
    case Wr(addr, payload) =>
      if rs.resolve(addr).Err? then Some(rs.resolve(addr).code) else if payload.None? then Some(BadSchema) else None
  }

  /** The distinct address tokens of an issue. */
  function TokenKeys(rs: Resolver, ps: seq<Primitive>): set<int> {
    if ps == [] then {}
    else
      var rest := TokenKeys(rs, ps[..|ps| - 1]);
      match ps[|ps| - 1]
      case Wait(_) => rest
      case Rd(addr) => rest + {rs.keyOf(addr)}
      case Wr(addr, _) => rest + {rs.keyOf(addr)}
  }

  /** What validation reports: the first fault in order. */
  function IssueFault(rs: Resolver, ps: seq<Primitive>): Option<ErrorCode> {
    if ps == [] then None
    else if IssueFault(rs, ps[..|ps| - 1]).Some? then IssueFault(rs, ps[..|ps| - 1])
    else if PrimitiveFault(rs, ps[|ps| - 1]).Some? then PrimitiveFault(rs, ps[|ps| - 1])
    else if |TokenKeys(rs, ps)| > MAX_DIGEST_ADDR_TOKENS then Some(IllegalCommand)
    else None
  }

  lemma {:induction false} KeysGrow(rs: Resolver, ps: seq<Primitive>)
    requires ps != []
    ensures |TokenKeys(rs, ps[..|ps| - 1])| <= |TokenKeys(rs, ps)|
  {
    var rest := TokenKeys(rs, ps[..|ps| - 1]);
    match ps[|ps| - 1]
    case Wait(_) =>
    case Rd(addr) => if rs.keyOf(addr) in rest { assert rest + {rs.keyOf(addr)} == rest; }
    case Wr(addr, _) => if rs.keyOf(addr) in rest { assert rest + {rs.keyOf(addr)} == rest; }
  }

  /** An issue is accepted exactly when every primitive resolves and its tokens fit the digest. */
  lemma {:induction false} AcceptedExactly(rs: Resolver, ps: seq<Primitive>)
    ensures IssueFault(rs, ps).None? <==>
      (forall i :: 0 <= i < |ps| ==> PrimitiveFault(rs, ps[i]).None?) && |TokenKeys(rs, ps)| <= MAX_DIGEST_ADDR_TOKENS
  {
    hide PrimitiveFault;
    if ps != [] {
      AcceptedExactly(rs, ps[..|ps| - 1]);
      KeysGrow(rs, ps);
      hide TokenKeys;
      assert forall i :: 0 <= i < |ps| - 1 ==> ps[..|ps| - 1][i] == ps[i];
    }
  }

  /** The tokens are those of the reads and writes. */
  lemma {:induction false} TokenKeysAre(rs: Resolver, ps: seq<Primitive>)
    ensures TokenKeys(rs, ps) == set i | 0 <= i < |ps| && !ps[i].Wait? :: rs.keyOf(ps[i].addr)
  {
    if ps != [] {
      var init, last := ps[..|ps| - 1], |ps| - 1;
      TokenKeysAre(rs, init);
      assert forall i :: 0 <= i < last ==> init[i] == ps[i];
      var keys := set i | 0 <= i < last && !init[i].Wait? :: rs.keyOf(init[i].addr);
      var all := set i | 0 <= i < |ps| && !ps[i].Wait? :: rs.keyOf(ps[i].addr);
      if ps[last].Wait? { assert all == keys; } else { assert all == keys + {rs.keyOf(ps[last].addr)}; }
    }
  }

  /** Primitive `i` is the first that is refused: for its own fault, or as the token that overfills the digest. */
  ghost predicate FirstRefused(rs: Resolver, ps: seq<Primitive>, i: nat, code: ErrorCode) {
    && i < |ps| && (forall j :: 0 <= j < i ==> PrimitiveFault(rs, ps[j]).None?)
    && |TokenKeys(rs, ps[..i])| <= MAX_DIGEST_ADDR_TOKENS
    && if PrimitiveFault(rs, ps[i]).Some? then PrimitiveFault(rs, ps[i]) == Some(code)
       else |TokenKeys(rs, ps[..i + 1])| > MAX_DIGEST_ADDR_TOKENS && code == IllegalCommand
  }

  /** A refused issue is refused for its first fault. */
  lemma {:induction false} RefusedForFirst(rs: Resolver, ps: seq<Primitive>) returns (i: nat)
    requires IssueFault(rs, ps).Some?
    ensures FirstRefused(rs, ps, i, IssueFault(rs, ps).value)
  {
    hide PrimitiveFault, TokenKeys;
    var init, last := ps[..|ps| - 1], |ps| - 1;
    AcceptedExactly(rs, init);
    assert forall j :: 0 <= j < last ==> init[j] == ps[j];
    if IssueFault(rs, init).Some? {
      i := RefusedForFirst(rs, init);
      assert init[..i] == ps[..i] && init[..i + 1] == ps[..i + 1];
    } else {
      i := last;
      assert ps[..last + 1] == ps;
    }
  }

  method ValidateIssue(rs: Resolver, ps: seq<Primitive>) returns (fault: Option<ErrorCode>)
    ensures fault == IssueFault(rs, ps)
  {
    hide PrimitiveFault;
    var tokens: set<int> := {};
    for i := 0 to |ps|
      invariant tokens == TokenKeys(rs, ps[..i]) && IssueFault(rs, ps[..i]).None?
    {
      assert ps[..i + 1][..i] == ps[..i];
      if PrimitiveFault(rs, ps[i]).Some? {
        StaysFaulty(rs, ps, i + 1);
        return PrimitiveFault(rs, ps[i]);
      }
      if !ps[i].Wait? {
        tokens := tokens + {rs.keyOf(ps[i].addr)};
        if |tokens| > MAX_DIGEST_ADDR_TOKENS {
          StaysFaulty(rs, ps, i + 1);
          return Some(IllegalCommand);
        }
      } else {
        AcceptedExactly(rs, ps[..i]);
      }
    }
    assert ps[..|ps|] == ps;
    fault := None;
  }

  lemma {:induction false} StaysFaulty(rs: Resolver, ps: seq<Primitive>, i: nat)
    requires i <= |ps| && IssueFault(rs, ps[..i]).Some?
    ensures IssueFault(rs, ps) == IssueFault(rs, ps[..i])
    decreases |ps|
  {
    if i == |ps| {
      assert ps[..i] == ps;
    } else {
      assert ps[..|ps| - 1][..i] == ps[..i];
      StaysFaulty(rs, ps[..|ps| - 1], i);
    }
  }

  // ---- dispatch -------------------------------------------------------------------------------------------

  /** What the worker is asked. */
  datatype Sent = SentRead(addr: nat) | SentWrite(addr: nat, data: seq<bv8>) | SentWait(cycles: nat)

  function RequestOf(rs: Resolver, p: Primitive): Sent
    requires PrimitiveFault(rs, p).None?
  {
    match p
    case Wait(cycles) => SentWait(cycles.value)
    case Rd(addr) => SentRead(rs.resolve(addr).value)
    case Wr(addr, payload) => SentWrite(rs.resolve(addr).value, payload.value)
  }

  /** The request is the primitive's: a read of the resolved address, a write of exactly the payload there, or a wait
      of the given cycles. */
  ghost predicate Asks(rs: Resolver, p: Primitive, request: Sent) {
    match p
    case Rd(token) => rs.resolve(token).Ok? && request == SentRead(rs.resolve(token).value)
    case Wr(token, payload) =>
      rs.resolve(token).Ok? && payload.Some? && request == SentWrite(rs.resolve(token).value, payload.value)
    case Wait(cycles) => cycles.Some? && request == SentWait(cycles.value)
  }

  lemma {:induction false} RequestAsks(rs: Resolver, p: Primitive)
    requires PrimitiveFault(rs, p).None?
    ensures Asks(rs, p, RequestOf(rs, p))
  {
  }

  /** A reply: served, refused by the worker, or served but not folded into the engine. */
  datatype Reply =
    | Served(cycle: int, events: seq<Event>, newFlips: nat)
    | Refused(code: ErrorCode)
    | Unfolded(cycle: int, events: seq<Event>)

  datatype Stop = Running | AtCeiling | Failed(code: ErrorCode)

  /** `live` and `cycle` are the environment's counters; `shown` and `shownCycle` those of the last
      served reply, which the observation carries. */
  datatype Progress = Progress(
    sent: nat, live: int, cycle: int, shown: int, shownCycle: int, actsDelta: nat, newFlips: nat, stop: Stop)

  function Advance(p: Progress, reply: Reply): Progress {
    match reply
    case Served(cycle, events, flips) =>
      var live := p.live + CountActs(events);
      Progress(p.sent + 1, live, cycle, live, cycle, p.actsDelta + CountActs(events), p.newFlips + flips, Running)
    case Refused(code) => p.(sent := p.sent + 1, stop := Failed(code))
    case Unfolded(cycle, events) =>
      p.(sent := p.sent + 1, live := p.live + CountActs(events), cycle := cycle, stop := Failed(InternalSimulatorError))
  }

  predicate Capped(p: Progress, ceiling: Option<int>) { ceiling.Some? && p.live >= ceiling.value }

  /** After at most `n` primitives: send the next one unless stopped, or stop at the ceiling. */
  function Dispatched(feed: nat -> Reply, ceiling: Option<int>, start: Progress, n: nat): Progress {
    if n == 0 then start
    else
      var p := Dispatched(feed, ceiling, start, n - 1);
      if p.stop != Running then p
      else if Capped(p, ceiling) then p.(stop := AtCeiling)
      else Advance(p, feed(p.sent))
  }

  function Start(live: int, cycle: int): Progress { Progress(0, live, cycle, live, cycle, 0, 0, Running) }

  lemma {:induction false} StopsStay(feed: nat -> Reply, ceiling: Option<int>, start: Progress, i: nat, n: nat)
    requires i <= n && Dispatched(feed, ceiling, start, i).stop != Running
    ensures Dispatched(feed, ceiling, start, n) == Dispatched(feed, ceiling, start, i)
  {
    if i < n { StopsStay(feed, ceiling, start, i, n - 1); }
  }

  /** Send validated primitives until one fails or the ceiling is reached. */
  method DispatchAll(rs: Resolver, ps: seq<Primitive>, feed: nat -> Reply, ceiling: Option<int>, live: int, cycle: int)
    returns (p: Progress, requests: seq<Sent>)
    requires IssueFault(rs, ps).None?
    ensures p == Dispatched(feed, ceiling, Start(live, cycle), |ps|)
    ensures |requests| == p.sent <= |ps|
    ensures forall i :: 0 <= i < p.sent ==> Asks(rs, ps[i], requests[i])
  {
    AcceptedExactly(rs, ps);
    hide IssueFault, TokenKeys, PrimitiveFault, RequestOf, Asks;
    p, requests := Start(live, cycle), [];
    var i := 0;
    while i < |ps|
      invariant 0 <= i <= |ps| && p == Dispatched(feed, ceiling, Start(live, cycle), i)
      invariant p.stop == Running && p.sent == i == |requests|
      invariant forall j :: 0 <= j < i ==> Asks(rs, ps[j], requests[j])
    {
      if Capped(p, ceiling) {
        p := p.(stop := AtCeiling);
        StopsStay(feed, ceiling, Start(live, cycle), i + 1, |ps|);
        return;
      }
      RequestAsks(rs, ps[i]);
      requests := requests + [RequestOf(rs, ps[i])];
      p := Advance(p, feed(i));
      i := i + 1;
      if p.stop != Running {
        StopsStay(feed, ceiling, Start(live, cycle), i, |ps|);
        return;
      }
    }
  }

  /** After `i` primitives all were served and the ceiling is not reached, so the next one is sent. */
  ghost predicate GoesOn(feed: nat -> Reply, ceiling: Option<int>, live: int, cycle: int, i: nat) {
    var q := Dispatched(feed, ceiling, Start(live, cycle), i);
    q.sent == i && q.stop == Running && !Capped(q, ceiling) && (i > 0 ==> feed(i - 1).Served?)
  }

  /** What is sent is a prefix that stops at the first point where it must: everything, or up to the
      ceiling, or up to and including the first primitive that fails. */
  lemma {:induction false} SentIsPrefix(feed: nat -> Reply, ceiling: Option<int>, live: int, cycle: int, n: nat)
    ensures var p := Dispatched(feed, ceiling, Start(live, cycle), n);
      && p.sent <= n
      && (p.stop == Running <==> p.sent == n && (n > 0 ==> feed(n - 1).Served?))
      && (p.stop == AtCeiling ==> p.sent < n && Capped(p, ceiling))
      && (p.stop.Failed? ==> p.sent > 0 && !feed(p.sent - 1).Served?)
      && (forall i :: 0 <= i < p.sent ==> GoesOn(feed, ceiling, live, cycle, i))
  {
    hide Advance, GoesOn;
    if n > 0 {
      SentIsPrefix(feed, ceiling, live, cycle, n - 1);
      var p := Dispatched(feed, ceiling, Start(live, cycle), n - 1);
      if p.stop == Running {
        AdvanceFacts(p, feed(n - 1));
        if !Capped(p, ceiling) { NextGoesOn(feed, ceiling, live, cycle, n - 1); }
      }
    }
  }

  lemma {:induction false} NextGoesOn(feed: nat -> Reply, ceiling: Option<int>, live: int, cycle: int, i: nat)
    requires var q := Dispatched(feed, ceiling, Start(live, cycle), i);
      q.sent == i && q.stop == Running && !Capped(q, ceiling) && (i > 0 ==> feed(i - 1).Served?)
    ensures GoesOn(feed, ceiling, live, cycle, i)
  {
  }

  lemma {:induction false} AdvanceFacts(p: Progress, reply: Reply)
    requires p.stop == Running
    ensures Advance(p, reply).sent == p.sent + 1
    ensures Advance(p, reply).stop == Running <==> reply.Served?
    ensures Advance(p, reply).stop == Running || Advance(p, reply).stop.Failed?
  {
  }

  /** The flips that the served ones among the first `n` replies reported. */
  function ServedFlips(feed: nat -> Reply, n: nat): nat {
    if n == 0 then 0 else ServedFlips(feed, n - 1) + (if feed(n - 1).Served? then feed(n - 1).newFlips else 0)
  }

  /** The digest shows the flips of every served reply, and those of no other. */
  lemma {:induction false} FlipsAreSum(feed: nat -> Reply, ceiling: Option<int>, live: int, cycle: int, n: nat)
    ensures var p := Dispatched(feed, ceiling, Start(live, cycle), n); p.newFlips == ServedFlips(feed, p.sent)
  {
    if n > 0 {
      FlipsAreSum(feed, ceiling, live, cycle, n - 1);
    }
  }

  /** Every served reply of the feed issues at most `k` activations. */
  ghost predicate AtMost(feed: nat -> Reply, k: nat) {
    forall i :: match feed(i)
      case Served(_, events, _) => CountActs(events) <= k
      case Unfolded(_, events) => CountActs(events) <= k
      case Refused(_) => true
  }

  /** An issue never drives the counter beyond the ceiling by a whole reply: with at most `k`
      activations a reply it ends at most `k - 1` above it, and where it started if that was higher. */
  lemma {:induction false} CeilingHolds(feed: nat -> Reply, ceiling: int, live: int, cycle: int, n: nat, k: nat)
    requires AtMost(feed, k)
    ensures var p := Dispatched(feed, Some(ceiling), Start(live, cycle), n);
      live <= p.live && (p.live == live || p.live <= ceiling + k - 1)
  {
    if n > 0 {
      CeilingHolds(feed, ceiling, live, cycle, n - 1, k);
      var p := Dispatched(feed, Some(ceiling), Start(live, cycle), n - 1);
      assert match feed(p.sent)
        case Served(_, events, _) => CountActs(events) <= k
        case Unfolded(_, events) => CountActs(events) <= k
        case Refused(_) => true;
    }
  }

  /** The last reply was served and issued activations, but could not be folded into the engine. */
  ghost predicate LostReply(feed: nat -> Reply, p: Progress) {
    && p.stop.Failed? && p.sent > 0 && feed(p.sent - 1).Unfolded? && CountActs(feed(p.sent - 1).events) > 0
  }

  /** The digest's activation count is the increase of the activation counter if and only if the last reply is not
      a lost one; otherwise it falls short. */
  lemma {:induction false} DigestIsCounter(feed: nat -> Reply, ceiling: Option<int>, live: int, cycle: int, n: nat)
    ensures var p := Dispatched(feed, ceiling, Start(live, cycle), n);
      && p.shown - live == p.actsDelta && live <= p.shown <= p.live
      && (p.live - live == p.actsDelta <==> !LostReply(feed, p))
  {
    SentIsPrefix(feed, ceiling, live, cycle, n);
    if n > 0 {
      DigestIsCounter(feed, ceiling, live, cycle, n - 1);
      SentIsPrefix(feed, ceiling, live, cycle, n - 1);
    }
  }

  /** A reply with one activation that is served but not folded: the counter rises to 1 and the digest shows 0. */
  lemma {:induction false} DigestCanFallShort()
    ensures var feed := (i: nat) => Unfolded(0, [Event("ACT", 0, BankKey(0, 0, 0, 0), 0)]);
      var p := Dispatched(feed, None, Start(0, 0), 1);
      p.stop == Failed(InternalSimulatorError) && p.live == 1 && p.actsDelta == 0
  {
    var events := [Event("ACT", 0, BankKey(0, 0, 0, 0), 0)];
    assert CountActs(events) == 1;
    var feed := (i: nat) => Unfolded(0, events);
    assert Dispatched(feed, None, Start(0, 0), 0) == Start(0, 0);
  }
}
