/** Budgeted episodes: admission, charging, success and termination.

    Every step is admitted or refused before it is dispatched, charged after it, and latched over when
    its observation is done. Over all runs of direct tool calls: the activation budget is conserved and
    the counter never passes it by more than one reply, the episode ends within its tool calls, an
    ended episode never changes again, and reward 1 is observed at most once, exactly when trusted
    success is first seen. The worker's replies and the success predicate's answers are parameters. */
module Episodes {
  import opened DisturbanceModel
  import opened DisturbedMemories
  import opened ErrorCodes
  import opened CommandIssue

  /** What the trusted predicate answers; it may find the target byte unreadable. */
  datatype Verdict = Won | NotYet | Unreadable

  /** A direct tool call; an access carries what it asks for and the fault its arguments have, if any. */
  datatype ToolCall =
    | NoTool
    | InfoCall
    | AccessCall(request: Primitive, fault: Option<ErrorCode>)
    | IssueCall(commands: seq<Command>)
    | FinishCall
    | UnknownCall

  /** The outside of one step: worker replies, address resolution, and the predicate's answer after it. */
  datatype World = World(feed: nat -> Reply, resolver: Resolver, verdict: Verdict)

  datatype Obs = Obs(reward: int, done: bool, error: Option<ErrorCode>, acts: Option<int>, cycle: int)

  /** `acts` is absent for families that do not budget activations. */
  datatype Env = Env(
    toolCalls: int, cycles: int, acts: Option<int>,
    actsPrev: int, live: int, cycle: int, over: bool, success: bool, open: bool)

  function Larger(a: int, b: int): (m: int)
    ensures m >= a && m >= b && (m == a || m == b)
  {
    if a >= b then a else b
  }

  // ---- one step -------------------------------------------------------------------------------------------

  function ErrorObs(env: Env, code: ErrorCode): Obs { Obs(0, IsTerminal(code), Some(code), None, env.cycle) }

  /** The cumulative activation count an issue may reach. */
  function Ceiling(env: Env): Option<int> {
    if env.acts.None? then None else Some(env.actsPrev + Larger(0, env.acts.value))
  }

  function AfterIssue(env: Env, p: Progress): (Env, Obs) {
    (env.(live := p.live, cycle := p.cycle),
     match p.stop
     case Running => Obs(0, false, None, Some(p.shown), p.shownCycle)
     case AtCeiling => Obs(0, true, Some(BudgetExceeded), Some(p.shown), p.shownCycle)
     case Failed(code) => Obs(0, IsTerminal(code), Some(code), Some(p.shown), p.shownCycle))
  }

  function IssueStep(env: Env, commands: seq<Command>, world: World): (Env, Obs) {
    if commands == [] then (env, ErrorObs(env, BadSchema))
    else
      match Expanded(commands)
      case Err(code) => (env, ErrorObs(env, code))
      case Ok(ps) =>
        match IssueFault(world.resolver, ps)
        case Some(code) => (env, ErrorObs(env, code))
        case None => AfterIssue(env, Dispatched(world.feed, Ceiling(env), Start(env.live, env.cycle), |ps|))
  }

  function AccessStep(env: Env, reply: Reply): (Env, Obs) {
    match reply
    case Served(cycle, events, _) =>
      var live := env.live + CountActs(events);
      (env.(live := live, cycle := cycle), Obs(0, false, None, Some(live), cycle))
    case Refused(code) => (env, ErrorObs(env, code))
    case Unfolded(cycle, events) =>
      var after := env.(live := env.live + CountActs(events), cycle := cycle);
      (after, ErrorObs(after, InternalSimulatorError))
  }

  /** The base environment's step. */
  function BaseStep(env: Env, call: ToolCall, world: World): (Env, Obs) {
    match call
    case NoTool => (env, ErrorObs(env, BadSchema))
    case InfoCall => (env, Obs(0, false, None, None, env.cycle))
    case FinishCall => (env.(open := false), Obs(0, true, None, None, env.cycle))
    case AccessCall(_, fault) =>
      if !env.open then (env, ErrorObs(env, UnavailableCapability))
      else if fault.Some? then (env, ErrorObs(env, fault.value))
      else AccessStep(env, world.feed(0))
    case IssueCall(commands) =>
      if !env.open then (env, ErrorObs(env, UnavailableCapability)) else IssueStep(env, commands, world)
    case UnknownCall =>
      if !env.open then (env, ErrorObs(env, UnavailableCapability)) else (env, ErrorObs(env, UnsupportedTool))
  }

  function Charged(env: Env, obs: Obs, before: int): Env {
    var paid := env.(toolCalls := env.toolCalls - 1, cycles := env.cycles - Larger(0, obs.cycle - before));
    if env.acts.None? then paid
    else
      var now := if obs.acts.Some? then obs.acts.value else env.actsPrev;
      paid.(acts := Some(env.acts.value - Larger(0, now - env.actsPrev)), actsPrev := now)
  }

  predicate Exceeded(env: Env) {
    env.toolCalls < 0 || env.cycles < 0 || (env.acts.Some? && env.acts.value < 0)
  }

  function ChargedObs(env: Env, obs: Obs): Obs {
    if Exceeded(env) then obs.(error := Some(BudgetExceeded), done := true) else obs
  }

  function Refusal(env: Env, code: ErrorCode): (Env, Obs) {
    (env.(over := true, open := false), Obs(0, true, Some(code), None, env.cycle))
  }

  function FinishStep(env: Env, verdict: Verdict): (Env, Obs) {
    if !env.success && verdict == Unreadable then Refusal(env, InternalSimulatorError)
    else
      var won := env.(success := env.success || verdict == Won);
      var obs := Obs(if won.success then 1 else 0, true, None, Some(won.live), won.cycle);
      var paid := Charged(won, obs, won.cycle);
      (paid.(open := false, over := true), ChargedObs(paid, obs))
  }

  function DispatchStep(env: Env, call: ToolCall, world: World): (Env, Obs) {
    if call.FinishCall? then FinishStep(env, world.verdict)
    else
      var (after, obs) := BaseStep(env, call, world);
      var paid := Charged(after, obs, env.cycle);
      var shown := ChargedObs(paid, obs);
      if !paid.success && world.verdict == Unreadable then Refusal(paid, InternalSimulatorError)
      else if paid.success || world.verdict == Won
      then (paid.(success := true, over := true), shown.(reward := 1, done := true))
      else (paid.(over := paid.over || shown.done), shown)
  }

  function Step(env: Env, call: ToolCall, world: World): (Env, Obs) {
    if env.over then Refusal(env, UnavailableCapability)
    else if env.toolCalls <= 0 then Refusal(env, BudgetExceeded)
    else DispatchStep(env, call, world)
  }

  // ---- the environment object -----------------------------------------------------------------------------

  class TaskEnv {
    var toolCalls: int
    var cycles: int
    var acts: Option<int>
    var actsPrev: int
    var live: int
    var cycle: int
    var episodeDone: bool
    var success: bool
    var workerOpen: bool

    ghost function View(): Env
      reads this
    {
      Env(toolCalls, cycles, acts, actsPrev, live, cycle, episodeDone, success, workerOpen)
    }

    /** A freshly reset episode. */
    constructor (tools: int, cycleBudget: int, actBudget: Option<int>)
      ensures View() == Fresh(tools, cycleBudget, actBudget)
    {
      toolCalls, cycles, acts := tools, cycleBudget, actBudget;
      actsPrev, live, cycle := 0, 0, 0;
      episodeDone, success, workerOpen := false, false, true;
    }

    method Refuse(code: ErrorCode) returns (obs: Obs)
      modifies this`episodeDone, this`workerOpen
      ensures (View(), obs) == Refusal(old(View()), code)
    {
      episodeDone := true;
      workerOpen := false;
      obs := Obs(0, true, Some(code), None, cycle);
    }

    method Charge(obs0: Obs, before: int) returns (obs: Obs)
      modifies this`toolCalls, this`cycles, this`acts, this`actsPrev
      ensures View() == Charged(old(View()), obs0, before) && obs == ChargedObs(View(), obs0)
    {
      toolCalls := toolCalls - 1;
      cycles := cycles - Larger(0, obs0.cycle - before);
      if acts.Some? {
        var now := if obs0.acts.Some? then obs0.acts.value else actsPrev;
        acts := Some(acts.value - Larger(0, now - actsPrev));
        actsPrev := now;
      }
      var exceeded := toolCalls < 0 || cycles < 0;
      if acts.Some? { exceeded := exceeded || acts.value < 0; }
      obs := obs0;
      if exceeded { obs := obs.(error := Some(BudgetExceeded), done := true); }
    }

    method Issue(commands: seq<Command>, world: World) returns (obs: Obs)
      modifies this`live, this`cycle
      ensures (View(), obs) == IssueStep(old(View()), commands, world)
    {
      hide Expanded, IssueFault, Dispatched;
      if commands == [] { return Obs(0, false, Some(BadSchema), None, cycle); }
      var expanded := ExpandCommands(commands);
      if expanded.Err? { return Obs(0, IsTerminal(expanded.code), Some(expanded.code), None, cycle); }
      var fault := ValidateIssue(world.resolver, expanded.value);
      if fault.Some? { return Obs(0, IsTerminal(fault.value), Some(fault.value), None, cycle); }
      var ceiling := if acts.None? then None else Some(actsPrev + Larger(0, acts.value));
      var p, requests := DispatchAll(world.resolver, expanded.value, world.feed, ceiling, live, cycle);
      live, cycle := p.live, p.cycle;
      match p.stop {
        case Running => obs := Obs(0, false, None, Some(p.shown), p.shownCycle);
        case AtCeiling => obs := Obs(0, true, Some(BudgetExceeded), Some(p.shown), p.shownCycle);
        case Failed(code) => obs := Obs(0, IsTerminal(code), Some(code), Some(p.shown), p.shownCycle);
      }
    }

    method Base(call: ToolCall, world: World) returns (obs: Obs)
      requires !call.FinishCall?
      modifies this`live, this`cycle
      ensures (View(), obs) == BaseStep(old(View()), call, world)
    {
      if call.NoTool? { return Obs(0, false, Some(BadSchema), None, cycle); }
      if call.InfoCall? { return Obs(0, false, None, None, cycle); }
      if !workerOpen { return Obs(0, false, Some(UnavailableCapability), None, cycle); }
      if call.AccessCall? {
        if call.fault.Some? { return Obs(0, IsTerminal(call.fault.value), call.fault, None, cycle); }
        match world.feed(0) {
          case Served(now, events, _) =>
            live, cycle := live + CountActs(events), now;
            obs := Obs(0, false, None, Some(live), cycle);
          case Refused(code) => obs := Obs(0, IsTerminal(code), Some(code), None, cycle);
          case Unfolded(now, events) =>
            live, cycle := live + CountActs(events), now;
            obs := Obs(0, true, Some(InternalSimulatorError), None, cycle);
        }
      } else if call.IssueCall? {
        obs := Issue(call.commands, world);
      } else {
        obs := Obs(0, false, Some(UnsupportedTool), None, cycle);
      }
    }

    /** Record trusted success for good; `None` when the target byte cannot be read. */
    method LatchSuccess(verdict: Verdict) returns (won: Option<bool>)
      modifies this`success
      ensures won == if !old(success) && verdict == Unreadable then None else Some(success)
      ensures success == (old(success) || verdict == Won)
    {
      if !success {
        if verdict == Unreadable { return None; }
        success := verdict == Won;
      }
      won := Some(success);
    }

    method Dispatch(call: ToolCall, world: World) returns (obs: Obs)
      requires !episodeDone
      modifies this
      ensures (View(), obs) == DispatchStep(old(View()), call, world)
    {
      var before := cycle;
      if call.FinishCall? {
        var latched := LatchSuccess(world.verdict);
        if latched.None? { obs := Refuse(InternalSimulatorError); return; }
        obs := Obs(if latched.value then 1 else 0, true, None, Some(live), cycle);
        obs := Charge(obs, cycle);
        workerOpen := false;
      } else {
        obs := Base(call, world);
        obs := Charge(obs, before);
        var latched := LatchSuccess(world.verdict);
        if latched.None? { obs := Refuse(InternalSimulatorError); return; }
        if latched.value { obs := obs.(reward := 1, done := true); }
      }
      if obs.done { episodeDone := true; }
    }

    method StepCall(call: ToolCall, world: World) returns (obs: Obs)
      modifies this
      ensures (View(), obs) == Step(old(View()), call, world)
    {
      if episodeDone { obs := Refuse(UnavailableCapability); return; }
      if toolCalls <= 0 { obs := Refuse(BudgetExceeded); return; }
      obs := Dispatch(call, world);
    }
  }

  // ---- runs -----------------------------------------------------------------------------------------------

  function Fresh(tools: int, cycleBudget: int, actBudget: Option<int>): Env {
    Env(tools, cycleBudget, actBudget, 0, 0, 0, false, false, true)
  }

  datatype Turn = Turn(call: ToolCall, world: World)

  /** The environment after the first `n` turns. */
  function After(start: Env, turns: seq<Turn>, n: nat): Env
    requires n <= |turns|
  {
    if n == 0 then start else Step(After(start, turns, n - 1), turns[n - 1].call, turns[n - 1].world).0
  }

  /** The observation of turn `i`. */
  function Seen(start: Env, turns: seq<Turn>, i: nat): Obs
    requires i < |turns|
  {
    Step(After(start, turns, i), turns[i].call, turns[i].world).1
  }
}
