/** Properties of whole episodes, over every sequence of direct tool calls and every outside world. */
module EpisodeRuns {
  import opened DisturbanceModel
  import opened DisturbedMemories
  import opened ErrorCodes
  import opened CommandIssue
  import opened Episodes

  /** The activation budget `budget` is split between what is left and what was charged; while the
      episode runs nothing is overdrawn, the charge is up to date and success is still open. */
  ghost predicate Consistent(env: Env, budget: Option<int>) {
    && (env.acts.Some? <==> budget.Some?)
    && (env.acts.Some? ==> env.acts.value + env.actsPrev == budget.value && env.actsPrev <= env.live)
    && (!env.over ==>
          && env.open && !env.success && env.toolCalls >= 0 && env.cycles >= 0
          && (env.acts.Some? ==> env.live == env.actsPrev && env.acts.value >= 0))
  }

  // ---- one step -------------------------------------------------------------------------------------------

  /** What the base step leaves for the charge: the shown count is between the old and the live one,
      and falls short of the live one only if the episode is about to end. */
  ghost predicate Chargeable(env: Env, after: Env, obs: Obs) {
    && after == env.(live := after.live, cycle := after.cycle) && env.live <= after.live && obs.reward == 0
    && (obs.acts.Some? ==> env.live <= obs.acts.value <= after.live)
    && (!obs.done ==> after.live == (if obs.acts.Some? then obs.acts.value else env.live))
  }

  lemma {:induction false} IssueChargeable(env: Env, commands: seq<Command>, world: World)
    ensures var (after, obs) := IssueStep(env, commands, world); Chargeable(env, after, obs)
  {
    hide Expanded, IssueFault, Dispatched;
    if commands != [] && Expanded(commands).Ok? && IssueFault(world.resolver, Expanded(commands).value).None? {
      var n := |Expanded(commands).value|;
      DigestIsCounter(world.feed, Ceiling(env), env.live, env.cycle, n);
      FailureOfUnfolded(world.feed, Ceiling(env), env.live, env.cycle, n);
    }
  }

  lemma {:induction false} FailureOfUnfolded(feed: nat -> Reply, ceiling: Option<int>, live: int, cycle: int, n: nat)
    ensures var p := Dispatched(feed, ceiling, Start(live, cycle), n);
      p.stop.Failed? && p.sent > 0 && feed(p.sent - 1).Unfolded? ==> p.stop == Failed(InternalSimulatorError)
  {
    SentIsPrefix(feed, ceiling, live, cycle, n);
    if n > 0 {
      FailureOfUnfolded(feed, ceiling, live, cycle, n - 1);
      SentIsPrefix(feed, ceiling, live, cycle, n - 1);
    }
  }

  lemma {:induction false} BaseChargeable(env: Env, call: ToolCall, world: World)
    requires !call.FinishCall?
    ensures var (after, obs) := BaseStep(env, call, world); Chargeable(env, after, obs)
  {
    if call.IssueCall? {
      hide IssueStep;
      IssueChargeable(env, call.commands, world);
    }
  }

  lemma {:induction false} ChargeKeeps(env: Env, after: Env, obs: Obs, budget: Option<int>)
    requires Consistent(env, budget) && !env.over && env.toolCalls > 0 && Chargeable(env, after, obs)
    ensures var paid := Charged(after, obs, env.cycle);
      && (paid.acts.Some? <==> budget.Some?) && paid.open && !paid.success && !paid.over
      && paid.toolCalls == env.toolCalls - 1 && paid.live == after.live
      && (paid.acts.Some? ==> paid.acts.value + paid.actsPrev == budget.value && paid.actsPrev <= paid.live)
      && (!ChargedObs(paid, obs).done ==> Consistent(paid, budget))
  {
  }

  lemma {:induction false} StepKeeps(env: Env, call: ToolCall, world: World, budget: Option<int>)
    requires Consistent(env, budget)
    ensures Consistent(Step(env, call, world).0, budget)
    ensures env.over ==> Step(env, call, world).0.over
    ensures !Step(env, call, world).0.over ==> Step(env, call, world).0.toolCalls == env.toolCalls - 1
  {
    if !env.over && env.toolCalls > 0 && !call.FinishCall? {
      var (after, obs) := BaseStep(env, call, world);
      BaseChargeable(env, call, world);
      hide BaseStep;
      ChargeKeeps(env, after, obs, budget);
    }
  }

  // ---- every run ------------------------------------------------------------------------------------------

  lemma {:induction false} RunConsistent(tools: nat, cycleBudget: nat, actBudget: Option<nat>, turns: seq<Turn>, n: nat)
    requires n <= |turns|
    ensures var start := Fresh(tools, cycleBudget, actBudget);
      Consistent(After(start, turns, n), actBudget)
  {
    hide Step;
    if n > 0 {
      RunConsistent(tools, cycleBudget, actBudget, turns, n - 1);
      var env := After(Fresh(tools, cycleBudget, actBudget), turns, n - 1);
      StepKeeps(env, turns[n - 1].call, turns[n - 1].world, actBudget);
    }
  }

  /** What is left of the activation budget and what was charged always add up to the budget. */
  lemma {:induction false} BudgetConserved(tools: nat, cycleBudget: nat, actBudget: nat, turns: seq<Turn>, n: nat)
    requires n <= |turns|
    ensures var env := After(Fresh(tools, cycleBudget, Some(actBudget)), turns, n);
      env.acts.Some? && env.acts.value + env.actsPrev == actBudget
  {
    hide Step;
    RunConsistent(tools, cycleBudget, Some(actBudget), turns, n);
  }

  /** An episode ends within its tool calls plus one step. */
  lemma {:induction false} EndsInTime(tools: nat, cycleBudget: nat, actBudget: Option<nat>, turns: seq<Turn>, n: nat)
    requires n <= |turns|
    ensures var env := After(Fresh(tools, cycleBudget, actBudget), turns, n);
      && (!env.over ==> env.toolCalls == tools - n && n <= tools)
      && (n == tools + 1 ==> env.over)
  {
    hide Step;
    RunConsistent(tools, cycleBudget, actBudget, turns, n);
    if n > 0 {
      EndsInTime(tools, cycleBudget, actBudget, turns, n - 1);
      RunConsistent(tools, cycleBudget, actBudget, turns, n - 1);
      var env := After(Fresh(tools, cycleBudget, actBudget), turns, n - 1);
      StepKeeps(env, turns[n - 1].call, turns[n - 1].world, actBudget);
    }
  }

  lemma {:induction false} RefusedWhenOver(env: Env, call: ToolCall, world: World)
    requires env.over
    ensures Step(env, call, world).0 == env.(open := false)
    ensures Step(env, call, world).1.reward == 0 && Step(env, call, world).1.done
  {
    hide DispatchStep;
  }

  /** Once over, an episode never changes again, except that its worker is closed, and shows no reward. */
  lemma {:induction false} OverIsFrozen(start: Env, turns: seq<Turn>, m: nat, n: nat)
    requires m < n <= |turns| && After(start, turns, m).over
    ensures After(start, turns, n) == After(start, turns, m).(open := false)
    ensures Seen(start, turns, n - 1).reward == 0 && Seen(start, turns, n - 1).done
  {
    hide Step;
    if m < n - 1 { OverIsFrozen(start, turns, m, n - 1); }
    RefusedWhenOver(After(start, turns, n - 1), turns[n - 1].call, turns[n - 1].world);
  }

  /** Reward 1 is shown exactly by the admitted step at which the trusted predicate holds. */
  lemma {:induction false} RewardExactly(tools: nat, cycleBudget: nat, actBudget: Option<nat>, turns: seq<Turn>, i: nat)
    requires i < |turns|
    ensures var start := Fresh(tools, cycleBudget, actBudget);
      var env := After(start, turns, i);
      && (Seen(start, turns, i).reward == 1 <==> !env.over && env.toolCalls > 0 && turns[i].world.verdict == Won)
      && (Seen(start, turns, i).reward == 1 ==> After(start, turns, i + 1).over)
  {
    var env := After(Fresh(tools, cycleBudget, actBudget), turns, i);
    RunConsistent(tools, cycleBudget, actBudget, turns, i);
    hide After;
    if !turns[i].call.FinishCall? { BaseChargeable(env, turns[i].call, turns[i].world); }
    hide BaseStep;
  }

  /** At most one observation of an episode carries reward 1. */
  lemma {:induction false} RewardOnce(tools: nat, cycleBudget: nat, actBudget: Option<nat>, turns: seq<Turn>,
      i: nat, j: nat)
    requires i < j < |turns| && Seen(Fresh(tools, cycleBudget, actBudget), turns, i).reward == 1
    ensures Seen(Fresh(tools, cycleBudget, actBudget), turns, j).reward == 0
  {
    hide Step;
    RewardExactly(tools, cycleBudget, actBudget, turns, i);
    OverIsFrozen(Fresh(tools, cycleBudget, actBudget), turns, i + 1, j + 1);
  }

  // ---- the activation budget ------------------------------------------------------------------------------

  /** An admitted issue ends at most `k - 1` activations above the budget. */
  lemma {:induction false} IssueWithinBudget(env: Env, commands: seq<Command>, world: World, budget: int, k: nat)
    requires Consistent(env, Some(budget)) && !env.over && AtMost(world.feed, k)
    ensures var after := IssueStep(env, commands, world).0; after.live == env.live || after.live <= budget + k - 1
  {
    hide Expanded, IssueFault, Dispatched;
    if commands != [] && Expanded(commands).Ok? {
      CeilingHolds(world.feed, budget, env.live, env.cycle, |Expanded(commands).value|, k);
    }
  }

  /** An issue sends its next primitive exactly while the counter is below the budget and every reply so far was
      served: it is never cut short with activations left. */
  lemma {:induction false} SendsWithinBudget(env: Env, ps: seq<Primitive>, world: World, budget: int, i: nat)
    requires Consistent(env, Some(budget)) && !env.over && i < |ps|
    requires var p := Dispatched(world.feed, Ceiling(env), Start(env.live, env.cycle), i);
      p.sent == i && (i > 0 ==> world.feed(i - 1).Served?)
    ensures var p := Dispatched(world.feed, Ceiling(env), Start(env.live, env.cycle), i);
      Dispatched(world.feed, Ceiling(env), Start(env.live, env.cycle), |ps|).sent > i <==> p.live < budget
  {
    var ceiling := Ceiling(env);
    var p := Dispatched(world.feed, ceiling, Start(env.live, env.cycle), i);
    SentIsPrefix(world.feed, ceiling, env.live, env.cycle, i);
    SentGrows(world.feed, ceiling, Start(env.live, env.cycle), i + 1, |ps|);
    if p.live >= budget { StopsStay(world.feed, ceiling, Start(env.live, env.cycle), i + 1, |ps|); }
  }

  lemma {:induction false} SentGrows(feed: nat -> Reply, ceiling: Option<int>, start: Progress, i: nat, n: nat)
    requires i <= n
    ensures Dispatched(feed, ceiling, start, i).sent <= Dispatched(feed, ceiling, start, n).sent
  {
    if i < n { SentGrows(feed, ceiling, start, i, n - 1); }
  }

  lemma {:induction false} StepWithinBudget(env: Env, call: ToolCall, world: World, budget: int, k: nat)
    requires Consistent(env, Some(budget)) && env.live <= budget + k && AtMost(world.feed, k)
    ensures Step(env, call, world).0.live <= budget + k
  {
    if !env.over && env.toolCalls > 0 && !call.FinishCall? {
      var (after, obs) := BaseStep(env, call, world);
      assert after.live <= budget + k by {
        if call.IssueCall? {
          hide IssueStep;
          IssueWithinBudget(env, call.commands, world, budget, k);
        } else {
          FirstReply(world.feed, k);
        }
      }
      hide BaseStep;
    }
  }

  lemma {:induction false} FirstReply(feed: nat -> Reply, k: nat)
    requires AtMost(feed, k)
    ensures feed(0).Served? ==> CountActs(feed(0).events) <= k
    ensures feed(0).Unfolded? ==> CountActs(feed(0).events) <= k
  {
    assert match feed(0)
      case Served(_, events, _) => CountActs(events) <= k
      case Unfolded(_, events) => CountActs(events) <= k
      case Refused(_) => true;
  }

  /** No run of direct calls ever drives the activation counter more than one reply above the budget. */
  lemma {:induction false} CounterWithinBudget(tools: nat, cycleBudget: nat, actBudget: nat, turns: seq<Turn>,
      n: nat, k: nat)
    requires n <= |turns| && forall i :: 0 <= i < |turns| ==> AtMost(turns[i].world.feed, k)
    ensures After(Fresh(tools, cycleBudget, Some(actBudget)), turns, n).live <= actBudget + k
  {
    hide Step, AtMost;
    if n > 0 {
      var start := Fresh(tools, cycleBudget, Some(actBudget));
      CounterWithinBudget(tools, cycleBudget, actBudget, turns, n - 1, k);
      RunConsistent(tools, cycleBudget, Some(actBudget), turns, n - 1);
      StepWithinBudget(After(start, turns, n - 1), turns[n - 1].call, turns[n - 1].world, actBudget, k);
    }
  }

  /** A rejected issue is free but for its tool call: nothing is sent, so no counter moves. */
  lemma {:induction false} RejectedIssueIsFree(env: Env, commands: seq<Command>, world: World, budget: Option<int>)
    requires Consistent(env, budget) && !env.over && env.toolCalls > 0 && world.verdict == NotYet
    requires commands == [] || Expanded(commands).Err? || IssueFault(world.resolver, Expanded(commands).value).Some?
    ensures var (after, obs) := Step(env, IssueCall(commands), world);
      && after == env.(toolCalls := env.toolCalls - 1, over := after.over)
      && obs.error.Some? && obs.reward == 0 && (after.over <==> IsTerminal(obs.error.value))
  {
    hide Expanded, IssueFault, Dispatched;
  }

  // ---- what a step answers --------------------------------------------------------------------------------

  /** The error an issue of `n` primitives ends with after sending some of them: that of a failing last reply, or the
      exhausted budget when primitives are left over. */
  function IssueError(feed: nat -> Reply, sent: nat, n: nat): Option<ErrorCode> {
    if sent > 0 && feed(sent - 1).Refused? then Some(feed(sent - 1).code)
    else if sent > 0 && feed(sent - 1).Unfolded? then Some(InternalSimulatorError)
    else if sent < n then Some(BudgetExceeded)
    else None
  }

  lemma {:induction false} StopIs(feed: nat -> Reply, ceiling: Option<int>, live: int, cycle: int, n: nat)
    ensures var p := Dispatched(feed, ceiling, Start(live, cycle), n);
      IssueError(feed, p.sent, n) == (match p.stop
        case Running => None
        case AtCeiling => Some(BudgetExceeded)
        case Failed(code) => Some(code))
  {
    hide CountActs, GoesOn;
    SentIsPrefix(feed, ceiling, live, cycle, n);
    if n > 0 {
      StopIs(feed, ceiling, live, cycle, n - 1);
      SentIsPrefix(feed, ceiling, live, cycle, n - 1);
    }
  }

  /** The error of an admitted call that stays within the budgets. */
  function CallError(env: Env, call: ToolCall, world: World): Option<ErrorCode> {
    match call
    case NoTool => Some(BadSchema)
    case InfoCall => None
    case FinishCall => None
    case UnknownCall => Some(UnsupportedTool)
    case AccessCall(_, fault) => if fault.Some? then fault else IssueError(world.feed, 1, 1)
    case IssueCall(commands) =>
      if commands == [] then Some(BadSchema)
      else
        match Expanded(commands)
        case Err(code) => Some(code)
        case Ok(ps) =>
          if IssueFault(world.resolver, ps).Some? then IssueFault(world.resolver, ps)
          else
            var p := Dispatched(world.feed, Ceiling(env), Start(env.live, env.cycle), |ps|);
            IssueError(world.feed, p.sent, |ps|)
  }

  lemma {:induction false} BaseError(env: Env, call: ToolCall, world: World)
    requires env.open && !call.FinishCall?
    ensures var obs := BaseStep(env, call, world).1;
      obs.error == CallError(env, call, world) && (obs.done <==> obs.error.Some? && IsTerminal(obs.error.value))
  {
    hide Expanded, IssueFault, Dispatched, IsTerminal, CountActs;
    assert IsTerminal(BudgetExceeded) && IsTerminal(InternalSimulatorError) && !IsTerminal(BadSchema)
      && !IsTerminal(UnsupportedTool) by { TerminalCodes(); }
    if call.IssueCall? && call.commands != [] && Expanded(call.commands).Ok? {
      StopIs(world.feed, Ceiling(env), env.live, env.cycle, |Expanded(call.commands).value|);
      hide IssueError;
    }
  }

  /** The codes that end an episode are an exhausted budget and a simulator failure. */
  lemma {:induction false} TerminalCodes()
    ensures forall code: ErrorCode :: IsTerminal(code) <==> code in [BudgetExceeded, InternalSimulatorError]
  {
  }

  predicate Overdrawn(env: Env) { env.cycles < 0 || (env.acts.Some? && env.acts.value < 0) }

  /** What an admitted step answers while the objective is not met. A call that overdraws a budget, and an issue cut
      at the ceiling, report the exhausted budget; every other call reports its own error or none. The step ends
      the episode exactly when it reports an exhausted budget or a simulator failure, or finishes it. */
  lemma {:induction false} StepAnswers(env: Env, call: ToolCall, world: World, budget: Option<int>)
    requires Consistent(env, budget) && !env.over && env.toolCalls > 0 && world.verdict == NotYet
    ensures var (after, obs) := Step(env, call, world);
      && obs.error == (if Overdrawn(after) then Some(BudgetExceeded) else CallError(env, call, world))
      && (obs.done <==> call.FinishCall? || obs.error in [Some(BudgetExceeded), Some(InternalSimulatorError)])
      && after.over == obs.done && obs.reward == 0
  {
    if !call.FinishCall? {
      BaseError(env, call, world);
      BaseChargeable(env, call, world);
      TerminalCodes();
      hide BaseStep, CallError, IsTerminal;
    }
  }

  /** What an admitted step leaves behind: the worker is closed by a finish and by an unreadable target byte, success
      is latched exactly by a met objective, and the call is paid for unless a finish could not be judged. */
  lemma {:induction false} StepLeaves(env: Env, call: ToolCall, world: World, budget: Option<int>)
    requires Consistent(env, budget) && !env.over && env.toolCalls > 0
    ensures var after := Step(env, call, world).0;
      && (after.open <==> !call.FinishCall? && world.verdict != Unreadable)
      && (after.success <==> world.verdict == Won)
      && (call.FinishCall? || world.verdict != NotYet ==> after.over)
      && after.toolCalls == env.toolCalls - (if call.FinishCall? && world.verdict == Unreadable then 0 else 1)
    ensures var obs := Step(env, call, world).1;
      world.verdict == Unreadable ==> obs.error == Some(InternalSimulatorError) && obs.done && obs.reward == 0
  {
    if !call.FinishCall? {
      BaseChargeable(env, call, world);
      hide BaseStep;
    }
  }

  /** An admitted issue that stops at the activation ceiling with primitives left over ends the episode, and says that
      the budget is exhausted unless the target byte can no longer be read. */
  lemma {:induction false} TruncatedIssueEnds(env: Env, commands: seq<Command>, world: World, budget: Option<int>)
    requires Consistent(env, budget) && !env.over && env.toolCalls > 0
    requires commands != [] && Expanded(commands).Ok? && IssueFault(world.resolver, Expanded(commands).value).None?
    requires var n := |Expanded(commands).value|;
      var p := Dispatched(world.feed, Ceiling(env), Start(env.live, env.cycle), n);
      p.sent < n && (p.sent > 0 ==> world.feed(p.sent - 1).Served?)
    ensures var (after, obs) := Step(env, IssueCall(commands), world);
      && after.over && obs.done
      && obs.error == Some(if world.verdict == Unreadable then InternalSimulatorError else BudgetExceeded)
  {
    hide Expanded, IssueFault, Dispatched;
    BaseError(env, IssueCall(commands), world);
    BaseChargeable(env, IssueCall(commands), world);
    TerminalCodes();
    hide BaseStep, IsTerminal;
  }

  /** A step that is not admitted ends the episode: it is already over, or out of tool calls. */
  lemma {:induction false} RefusedStep(env: Env, call: ToolCall, world: World)
    requires env.over || env.toolCalls <= 0
    ensures var (after, obs) := Step(env, call, world);
      && after == env.(over := true, open := false) && obs.done && obs.reward == 0 && obs.cycle == env.cycle
      && obs.error == Some(if env.over then UnavailableCapability else BudgetExceeded)
  {
    hide DispatchStep;
  }

  // ---- the cycle budget -----------------------------------------------------------------------------------

  function CycleOf(reply: Reply, default: int): int { if reply.Refused? then default else reply.cycle }

  /** The worker's cycle count never runs backwards during a step that starts at `from`. */
  ghost predicate Forward(feed: nat -> Reply, from: int) {
    && (forall i :: CycleOf(feed(i), from) >= from)
    && (forall i, j :: i < j && !feed(i).Refused? ==> CycleOf(feed(j), feed(i).cycle) >= feed(i).cycle)
  }

  /** What is known of the cycles while an issue is dispatched. */
  ghost predicate CyclesKept(feed: nat -> Reply, p: Progress, cycle: int) {
    && cycle <= p.shownCycle <= p.cycle
    && (p.sent == 0 ==> p.cycle == cycle)
    && (p.sent > 0 && feed(p.sent - 1).Served? ==> p.cycle == feed(p.sent - 1).cycle)
    && (p.stop != Failed(InternalSimulatorError) ==> p.cycle == p.shownCycle)
  }

  lemma {:induction false} DispatchedCycles(feed: nat -> Reply, ceiling: Option<int>, live: int, cycle: int, n: nat)
    requires Forward(feed, cycle)
    ensures CyclesKept(feed, Dispatched(feed, ceiling, Start(live, cycle), n), cycle)
  {
    hide Forward, Advance, GoesOn, CyclesKept;
    if n == 0 {
      assert CyclesKept(feed, Start(live, cycle), cycle) by { StartCycles(feed, live, cycle); }
    } else {
      var p := Dispatched(feed, ceiling, Start(live, cycle), n - 1);
      DispatchedCycles(feed, ceiling, live, cycle, n - 1);
      SentIsPrefix(feed, ceiling, live, cycle, n - 1);
      if p.stop == Running { AdvanceCycles(feed, p, cycle); }
    }
  }

  lemma {:induction false} StartCycles(feed: nat -> Reply, live: int, cycle: int)
    ensures CyclesKept(feed, Start(live, cycle), cycle)
  {
  }

  lemma {:induction false} AdvanceCycles(feed: nat -> Reply, p: Progress, cycle: int)
    requires Forward(feed, cycle) && CyclesKept(feed, p, cycle) && p.stop == Running
    requires p.sent > 0 ==> feed(p.sent - 1).Served?
    ensures CyclesKept(feed, Advance(p, feed(p.sent)), cycle)
    ensures CyclesKept(feed, p.(stop := AtCeiling), cycle)
  {
    hide CountActs;
    assert CycleOf(feed(p.sent), cycle) >= cycle;
    if p.sent > 0 { assert CycleOf(feed(p.sent), feed(p.sent - 1).cycle) >= feed(p.sent - 1).cycle; }
  }

  /** After a base step that does not end the episode, the observation shows the current cycle. */
  lemma {:induction false} BaseCycles(env: Env, call: ToolCall, world: World)
    requires !call.FinishCall? && Forward(world.feed, env.cycle)
    ensures var (after, obs) := BaseStep(env, call, world);
      env.cycle <= after.cycle && (!obs.done ==> obs.cycle == after.cycle)
  {
    hide Expanded, IssueFault, Dispatched, Forward;
    assert CycleOf(world.feed(0), env.cycle) >= env.cycle by { FirstCycle(world.feed, env.cycle); }
    if call.IssueCall? && call.commands != [] && Expanded(call.commands).Ok? {
      DispatchedCycles(world.feed, Ceiling(env), env.live, env.cycle, |Expanded(call.commands).value|);
    }
  }

  lemma {:induction false} FirstCycle(feed: nat -> Reply, from: int)
    requires Forward(feed, from)
    ensures CycleOf(feed(0), from) >= from
  {
  }

  lemma {:induction false} StepCycles(env: Env, call: ToolCall, world: World, budget: Option<int>, total: int)
    requires Consistent(env, budget) && Forward(world.feed, env.cycle)
    requires !env.over ==> env.cycles + env.cycle == total
    ensures var after := Step(env, call, world).0; !after.over ==> after.cycles + after.cycle == total
  {
    hide Forward;
    StepKeeps(env, call, world, budget);
    if !env.over && !call.FinishCall? {
      BaseCycles(env, call, world);
      BaseChargeable(env, call, world);
    }
    hide BaseStep, Consistent;
  }

  /** While an episode runs, its remaining cycle budget and the cycles that passed add up to the budget. */
  lemma {:induction false} CyclesConserved(tools: nat, cycleBudget: nat, actBudget: Option<nat>, turns: seq<Turn>,
      n: nat)
    requires n <= |turns|
    requires forall i :: 0 <= i < n ==>
      Forward(turns[i].world.feed, After(Fresh(tools, cycleBudget, actBudget), turns, i).cycle)
    ensures var env := After(Fresh(tools, cycleBudget, actBudget), turns, n);
      !env.over ==> env.cycles + env.cycle == cycleBudget
  {
    hide Forward, Step, Consistent;
    if n > 0 {
      var env := After(Fresh(tools, cycleBudget, actBudget), turns, n - 1);
      CyclesConserved(tools, cycleBudget, actBudget, turns, n - 1);
      RunConsistent(tools, cycleBudget, actBudget, turns, n - 1);
      StepCycles(env, turns[n - 1].call, turns[n - 1].world, actBudget, cycleBudget);
    }
  }
}
