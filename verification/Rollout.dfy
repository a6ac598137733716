/** Multi-turn rollouts: the batched driver against the sequential one.

    The sequential driver runs one episode turn by turn. The batched driver advances many episodes in
    ticks: one generator call for all that are still running, then one step of each. With distinct
    episode ids and one policy per id, every episode ends exactly as if it had been run alone, for any
    number of episodes and any turn limit. */
module Rollouts {

  /** Environment states `E`, policies `P`, observations `O`, tool calls `C` and completions `T`. */
  datatype Kit<!E, !P, !O, !C, !T> = Kit(
    step: (E, C) -> (E, O),
    parse: T -> C,
    newPolicy: P,
    next: (P, O, seq<Record<O, C, T>>) -> (P, T),
    isDone: O -> bool,
    rewardOf: O -> real)

  datatype Message<O, T> = PromptMessage(index: nat, obs: O) | AssistantMessage(text: T) | ToolMessage(obs: O)
  datatype Record<O, C, T> = Record(call: C, obs: O, reward: real, done: bool, text: T)

  /** An episode: its environment, what was last observed, and what has been recorded. */
  datatype Episode<E, O, C, T> = Episode(
    env: E, observation: O, messages: seq<Message<O, T>>, trajectory: seq<Record<O, C, T>>, reward: real, done: bool)

  /** One turn with a given completion. */
  function Turned<E, P, O, C, T>(kit: Kit<E, P, O, C, T>, e: Episode<E, O, C, T>, text: T): Episode<E, O, C, T> {
    var call := kit.parse(text);
    var (env, obs) := kit.step(e.env, call);
    var reward, done := kit.rewardOf(obs), kit.isDone(obs);
    Episode(env, obs,
            e.messages + [AssistantMessage(text)] + (if done then [] else [ToolMessage(obs)]),
            e.trajectory + [Record(call, obs, reward, done, text)], reward, done)
  }

  /** One turn of an episode run alone with its own policy; nothing once it is done. */
  function OneTurn<E, P, O, C, T>(kit: Kit<E, P, O, C, T>, p: P, e: Episode<E, O, C, T>): (P, Episode<E, O, C, T>) {
    if e.done then (p, e)
    else
      var (q, text) := kit.next(p, e.observation, e.trajectory);
      (q, Turned(kit, e, text))
  }

  /** An episode run alone for at most `n` turns. */
  function Alone<E, P, O, C, T>(kit: Kit<E, P, O, C, T>, p: P, e: Episode<E, O, C, T>, n: nat)
    : (P, Episode<E, O, C, T>)
  {
    if n == 0 then (p, e)
    else
      var (q, f) := Alone(kit, p, e, n - 1);
      OneTurn(kit, q, f)
  }

  lemma {:induction false} DoneStays<E, P, O, C, T>(kit: Kit<E, P, O, C, T>, p: P, e: Episode<E, O, C, T>,
      i: nat, n: nat)
    requires i <= n && Alone(kit, p, e, i).1.done
    ensures Alone(kit, p, e, n) == Alone(kit, p, e, i)
  {
    if i < n { DoneStays(kit, p, e, i, n - 1); }
  }

  /** What was observed last after some records. */
  function ObsAfter<E, O, C, T>(e: Episode<E, O, C, T>, records: seq<Record<O, C, T>>): O {
    if records == [] then e.observation else records[|records| - 1].obs
  }

  /** Policy and environment after some records: the policy was asked once, and the environment stepped once, for each
      of them. */
  function StateAfter<E, P, O, C, T>(kit: Kit<E, P, O, C, T>, p: P, e: Episode<E, O, C, T>,
      records: seq<Record<O, C, T>>): (P, E)
  {
    if records == [] then (p, e.env)
    else
      var before, x := records[..|records| - 1], records[|records| - 1];
      var (q, env) := StateAfter(kit, p, e, before);
      (kit.next(q, ObsAfter(e, before), e.trajectory + before).0, kit.step(env, x.call).0)
  }

  /** Record `x` after `before` is a true record: its completion is what the policy answered to all that came before,
      its call is the parsed completion, its observation is the environment's answer to it, and reward and done are
      those of this observation. */
  ghost predicate TrueRecord<E, P, O, C, T>(kit: Kit<E, P, O, C, T>, p: P, e: Episode<E, O, C, T>,
      before: seq<Record<O, C, T>>, x: Record<O, C, T>)
  {
    var (q, env) := StateAfter(kit, p, e, before);
    && x.text == kit.next(q, ObsAfter(e, before), e.trajectory + before).1
    && x.call == kit.parse(x.text) && x.obs == kit.step(env, x.call).1
    && x.reward == kit.rewardOf(x.obs) && x.done == kit.isDone(x.obs)
  }

  /** Every record is true, and none but the last is done. */
  ghost predicate AllTrue<E, P, O, C, T>(kit: Kit<E, P, O, C, T>, p: P, e: Episode<E, O, C, T>,
      records: seq<Record<O, C, T>>)
  {
    forall i :: 0 <= i < |records| ==>
      TrueRecord(kit, p, e, records[..i], records[i]) && (records[i].done ==> i == |records| - 1)
  }

  /** Two messages for every turn: what the assistant said and what the tool answered; an answer that ends the episode
      is not shown any more. */
  ghost predicate Dialogue<O, C, T>(messages: seq<Message<O, T>>, records: seq<Record<O, C, T>>) {
    && |messages| == 2 * |records| - (if Ended(records) then 1 else 0)
    && forall i :: 0 <= i < |records| ==>
         && messages[2 * i] == AssistantMessage(records[i].text)
         && (!records[i].done ==> 2 * i + 1 < |messages| && messages[2 * i + 1] == ToolMessage(records[i].obs))
  }

  predicate Ended<O, C, T>(records: seq<Record<O, C, T>>) { records != [] && records[|records| - 1].done }

  /** An episode that recorded true turns since `e`, and shows them all. */
  ghost predicate Recorded<E, P, O, C, T>(kit: Kit<E, P, O, C, T>, p: P, e: Episode<E, O, C, T>, q: P,
      f: Episode<E, O, C, T>, records: seq<Record<O, C, T>>)
  {
    && f.trajectory == e.trajectory + records && AllTrue(kit, p, e, records)
    && (q, f.env) == StateAfter(kit, p, e, records) && f.observation == ObsAfter(e, records)
    && f.done == Ended(records) && f.reward == (if records == [] then e.reward else records[|records| - 1].reward)
    && e.messages <= f.messages && Dialogue(f.messages[|e.messages|..], records)
  }

  /** What an episode run alone has recorded: at most `n` turns, fewer only when it is done, all of them true; policy
      and environment went through exactly these turns, and the dialogue shows them. */
  lemma {:induction false} RecordsTrue<E, P, O, C, T>(kit: Kit<E, P, O, C, T>, p: P, e: Episode<E, O, C, T>, n: nat)
    returns (records: seq<Record<O, C, T>>)
    requires !e.done
    ensures var (q, f) := Alone(kit, p, e, n);
      Recorded(kit, p, e, q, f, records) && |records| <= n && (|records| < n ==> f.done)
  {
    if n == 0 {
      records := [];
      assert e.messages[|e.messages|..] == [] && e.trajectory + [] == e.trajectory;
    } else {
      records := RecordsTrue(kit, p, e, n - 1);
      var (q, g) := Alone(kit, p, e, n - 1);
      hide Recorded;
      if !g.done {
        var x := Turned(kit, g, kit.next(q, g.observation, g.trajectory).1).trajectory[|g.trajectory|];
        TurnRecorded(kit, p, e, q, g, records, x);
        records := records + [x];
      }
    }
  }

  lemma {:induction false} TurnRecorded<E, P, O, C, T>(kit: Kit<E, P, O, C, T>, p: P, e: Episode<E, O, C, T>, q: P,
      g: Episode<E, O, C, T>, before: seq<Record<O, C, T>>, x: Record<O, C, T>)
    requires Recorded(kit, p, e, q, g, before) && !g.done
    requires x == Turned(kit, g, kit.next(q, g.observation, g.trajectory).1).trajectory[|g.trajectory|]
    ensures var (r, f) := OneTurn(kit, q, g); Recorded(kit, p, e, r, f, before + [x])
  {
    var (r, f) := OneTurn(kit, q, g);
    TurnFacts(kit, q, g, x);
    StateNext(kit, p, e, before, x);
    hide Dialogue, AllTrue, OneTurn, Turned, StateAfter, ObsAfter, Ended;
    assert f.trajectory == e.trajectory + (before + [x]);
    OneMoreTrue(kit, p, e, before, x);
    assert f.messages[|e.messages|..] ==
      g.messages[|e.messages|..] + [AssistantMessage(x.text)] + (if x.done then [] else [ToolMessage(x.obs)]);
    OneMoreShown(g.messages[|e.messages|..], before, x);
  }

  lemma {:induction false} TurnFacts<E, P, O, C, T>(kit: Kit<E, P, O, C, T>, q: P, g: Episode<E, O, C, T>,
      x: Record<O, C, T>)
    requires !g.done && x == Turned(kit, g, kit.next(q, g.observation, g.trajectory).1).trajectory[|g.trajectory|]
    ensures var (r, f) := OneTurn(kit, q, g);
      && (r, x.text) == kit.next(q, g.observation, g.trajectory) && x.call == kit.parse(x.text)
      && (f.env, x.obs) == kit.step(g.env, x.call) && x.reward == kit.rewardOf(x.obs) && x.done == kit.isDone(x.obs)
      && f.observation == x.obs && f.reward == x.reward && f.done == x.done && f.trajectory == g.trajectory + [x]
      && f.messages == g.messages + [AssistantMessage(x.text)] + (if x.done then [] else [ToolMessage(x.obs)])
  {
  }

  lemma {:induction false} StateNext<E, P, O, C, T>(kit: Kit<E, P, O, C, T>, p: P, e: Episode<E, O, C, T>,
      before: seq<Record<O, C, T>>, x: Record<O, C, T>)
    ensures var (q, env) := StateAfter(kit, p, e, before);
      StateAfter(kit, p, e, before + [x]) ==
        (kit.next(q, ObsAfter(e, before), e.trajectory + before).0, kit.step(env, x.call).0)
    ensures ObsAfter(e, before + [x]) == x.obs && Ended(before + [x]) == x.done
  {
    assert (before + [x])[..|before|] == before;
  }

  lemma {:induction false} OneMoreTrue<E, P, O, C, T>(kit: Kit<E, P, O, C, T>, p: P, e: Episode<E, O, C, T>,
      before: seq<Record<O, C, T>>, x: Record<O, C, T>)
    requires AllTrue(kit, p, e, before) && !Ended(before) && TrueRecord(kit, p, e, before, x)
    ensures AllTrue(kit, p, e, before + [x])
  {
    hide TrueRecord;
    var records := before + [x];
    assert records[..|before|] == before;
    forall i | 0 <= i < |records|
      ensures TrueRecord(kit, p, e, records[..i], records[i]) && (records[i].done ==> i == |records| - 1)
    {
      if i < |before| { assert records[..i] == before[..i] && records[i] == before[i]; }
    }
  }

  lemma {:induction false} OneMoreShown<O, C, T>(shown: seq<Message<O, T>>, before: seq<Record<O, C, T>>,
      x: Record<O, C, T>)
    requires Dialogue(shown, before) && !Ended(before)
    ensures Dialogue(shown + [AssistantMessage(x.text)] + (if x.done then [] else [ToolMessage(x.obs)]), before + [x])
  {
    var records := before + [x];
    var more := shown + [AssistantMessage(x.text)] + (if x.done then [] else [ToolMessage(x.obs)]);
    forall i | 0 <= i < |records|
      ensures more[2 * i] == AssistantMessage(records[i].text)
      ensures !records[i].done ==> 2 * i + 1 < |more| && more[2 * i + 1] == ToolMessage(records[i].obs)
    {
      if i < |before| { assert records[i] == before[i] && more[2 * i] == shown[2 * i]; }
    }
  }

  /** The sequential driver. */
  method DriveAlone<E, P, O, C, T>(kit: Kit<E, P, O, C, T>, start: Episode<E, O, C, T>, maxTurns: nat)
    returns (e: Episode<E, O, C, T>)
    ensures e == Alone(kit, kit.newPolicy, start, maxTurns).1
  {
    var policy := kit.newPolicy;
    e := start;
    for i := 0 to maxTurns
      invariant (policy, e) == Alone(kit, kit.newPolicy, start, i)
    {
      if e.done {
        DoneStays(kit, kit.newPolicy, start, i, maxTurns);
        return;
      }
      var (nextPolicy, text) := kit.next(policy, e.observation, e.trajectory);
      var call := kit.parse(text);
      var messages := e.messages + [AssistantMessage(text)];
      var (env, obs) := kit.step(e.env, call);
      var reward, done := kit.rewardOf(obs), kit.isDone(obs);
      var trajectory := e.trajectory + [Record(call, obs, reward, done, text)];
      if !done { messages := messages + [ToolMessage(obs)]; }
      assert messages == e.messages + [AssistantMessage(text)] + (if done then [] else [ToolMessage(obs)]);
      policy, e := nextPolicy, Episode(env, obs, messages, trajectory, reward, done);
    }
  }

  // ---- the batched driver ---------------------------------------------------------------------------------

  class EpisodeState<E, O, C, T> {
    const episodeId: int
    var env: E
    var observation: O
    var messages: seq<Message<O, T>>
    var trajectory: seq<Record<O, C, T>>
    var lastReward: real
    var done: bool

    ghost function View(): Episode<E, O, C, T>
      reads this
    {
      Episode(env, observation, messages, trajectory, lastReward, done)
    }

    constructor (id: int, start: Episode<E, O, C, T>)
      ensures episodeId == id && View() == start
    {
      episodeId := id;
      env, observation, messages, trajectory := start.env, start.observation, start.messages, start.trajectory;
      lastReward, done := start.reward, start.done;
    }

    /** Append the assistant turn and parse its tool call. */
    method BeginTurn<P>(kit: Kit<E, P, O, C, T>, text: T) returns (call: C)
      modifies this`messages
      ensures call == kit.parse(text) && messages == old(messages) + [AssistantMessage(text)]
    {
      call := kit.parse(text);
      messages := messages + [AssistantMessage(text)];
    }

    /** Fold one observation back in. */
    method EndTurn<P>(kit: Kit<E, P, O, C, T>, call: C, obs: O, text: T)
      modifies this
      ensures env == old(env) && observation == obs && lastReward == kit.rewardOf(obs) && done == kit.isDone(obs)
      ensures trajectory == old(trajectory) + [Record(call, obs, kit.rewardOf(obs), kit.isDone(obs), text)]
      ensures messages == old(messages) + (if done then [] else [ToolMessage(obs)])
    {
      observation := obs;
      lastReward, done := kit.rewardOf(obs), kit.isDone(obs);
      trajectory := trajectory + [Record(call, obs, lastReward, done, text)];
      if !done { messages := messages + [ToolMessage(obs)]; }
    }

    method Advance<P>(kit: Kit<E, P, O, C, T>, text: T)
      modifies this
      ensures View() == Turned(kit, old(View()), text)
    {
      var call := BeginTurn(kit, text);
      var (after, obs) := kit.step(env, call);
      env := after;
      EndTurn(kit, call, obs, text);
      assert messages == old(messages) + [AssistantMessage(text)] + (if done then [] else [ToolMessage(obs)]);
    }
  }

  /** The context one pending turn is generated from. */
  datatype TurnRequest<O, C, T> = TurnRequest(id: int, observation: O, trajectory: seq<Record<O, C, T>>)

  predicate DistinctIds<O, C, T>(requests: seq<TurnRequest<O, C, T>>) {
    forall i, j :: 0 <= i < j < |requests| ==> requests[i].id != requests[j].id
  }

  /** One policy per episode id, made on first use. */
  class BatchToolPolicyGenerator<P> {
    var policies: map<int, P>

    constructor ()
      ensures policies == map[]
    {
      policies := map[];
    }

    function PolicyOf(default: P, id: int): P
      reads this
    {
      if id in policies then policies[id] else default
    }

    method Generate<E, O, C, T>(kit: Kit<E, P, O, C, T>, requests: seq<TurnRequest<O, C, T>>) returns (texts: seq<T>)
      requires DistinctIds(requests)
      modifies this
      ensures |texts| == |requests|
      ensures forall k :: 0 <= k < |requests| ==>
        (PolicyOf(kit.newPolicy, requests[k].id), texts[k]) ==
          kit.next(old(PolicyOf(kit.newPolicy, requests[k].id)), requests[k].observation, requests[k].trajectory)
      ensures forall id :: (forall k :: 0 <= k < |requests| ==> requests[k].id != id) ==>
        PolicyOf(kit.newPolicy, id) == old(PolicyOf(kit.newPolicy, id))
    {
      texts := [];
      for i := 0 to |requests|
        invariant |texts| == i
        invariant forall k :: 0 <= k < i ==>
          (PolicyOf(kit.newPolicy, requests[k].id), texts[k]) ==
            kit.next(old(PolicyOf(kit.newPolicy, requests[k].id)), requests[k].observation, requests[k].trajectory)
        invariant forall id :: (forall k :: 0 <= k < i ==> requests[k].id != id) ==>
          PolicyOf(kit.newPolicy, id) == old(PolicyOf(kit.newPolicy, id))
      {
        var req := requests[i];
        if req.id !in policies { policies := policies[req.id := kit.newPolicy]; }
        var (policy, text) := kit.next(policies[req.id], req.observation, req.trajectory);
        policies := policies[req.id := policy];
        texts := texts + [text];
      }
    }
  }

  ghost predicate DistinctStates<E, O, C, T>(states: seq<EpisodeState<E, O, C, T>>) {
    forall i, j :: 0 <= i < j < |states| ==> states[i] != states[j] && states[i].episodeId != states[j].episodeId
  }

  /** The episodes that still run, in order, and their requests. */
  method Active<E, O, C, T>(states: seq<EpisodeState<E, O, C, T>>)
    returns (active: seq<EpisodeState<E, O, C, T>>, requests: seq<TurnRequest<O, C, T>>)
    requires DistinctStates(states)
    ensures DistinctStates(active) && |requests| == |active|
    ensures forall st :: st in active <==> st in states && !st.done
    ensures forall k :: 0 <= k < |active| ==>
      requests[k] == TurnRequest(active[k].episodeId, active[k].observation, active[k].trajectory)
  {
    active, requests := [], [];
    for i := 0 to |states|
      invariant |requests| == |active| && DistinctStates(active)
      invariant forall st :: st in active <==> st in states[..i] && !st.done
      invariant forall k :: 0 <= k < |active| ==>
        requests[k] == TurnRequest(active[k].episodeId, active[k].observation, active[k].trajectory)
    {
      var st := states[i];
      assert forall s :: s in states[..i] ==> s != st && s.episodeId != st.episodeId;
      assert states[..i + 1] == states[..i] + [st];
      if !st.done {
        active, requests := active + [st], requests + [TurnRequest(st.episodeId, st.observation, st.trajectory)];
      }
    }
    assert states[..|states|] == states;
  }

  /** Step every active episode with its completion. */
  method AdvanceAll<E, P, O, C, T>(kit: Kit<E, P, O, C, T>, active: seq<EpisodeState<E, O, C, T>>, texts: seq<T>)
    requires DistinctStates(active) && |texts| == |active|
    modifies set st | st in active
    ensures forall k :: 0 <= k < |active| ==> active[k].View() == Turned(kit, old(active[k].View()), texts[k])
  {
    for i := 0 to |active|
      invariant forall k :: 0 <= k < i ==> active[k].View() == Turned(kit, old(active[k].View()), texts[k])
      invariant forall k :: i <= k < |active| ==> active[k].View() == old(active[k].View())
    {
      active[i].Advance(kit, texts[i]);
    }
  }

  /** One tick: a single generation for all running episodes, then a step of each. */
  method Tick<E, P, O, C, T>(kit: Kit<E, P, O, C, T>, states: seq<EpisodeState<E, O, C, T>>,
      gen: BatchToolPolicyGenerator<P>)
    requires DistinctStates(states)
    modifies (set st | st in states), gen
    ensures forall i :: 0 <= i < |states| ==>
      (gen.PolicyOf(kit.newPolicy, states[i].episodeId), states[i].View()) ==
        OneTurn(kit, old(gen.PolicyOf(kit.newPolicy, states[i].episodeId)), old(states[i].View()))
  {
    var active, requests := Active(states);
    assert forall st :: st in active ==> st in states;
    var texts := gen.Generate(kit, requests);
    AdvanceAll(kit, active, texts);
    forall i | 0 <= i < |states|
      ensures (gen.PolicyOf(kit.newPolicy, states[i].episodeId), states[i].View()) ==
        OneTurn(kit, old(gen.PolicyOf(kit.newPolicy, states[i].episodeId)), old(states[i].View()))
    {
      var st := states[i];
      if old(st.done) {
        assert st !in active;
      } else {
        assert st in active;
        var k :| 0 <= k < |active| && active[k] == st;
        assert requests[k].id == st.episodeId;
      }
    }
  }

  /** The batched driver: every episode ends as if it had been run alone. */
  method RunBatched<E, P, O, C, T>(kit: Kit<E, P, O, C, T>, states: seq<EpisodeState<E, O, C, T>>,
      gen: BatchToolPolicyGenerator<P>, maxTurns: nat)
    requires DistinctStates(states) && gen.policies == map[]
    modifies (set st | st in states), gen
    ensures forall i :: 0 <= i < |states| ==>
      states[i].View() == Alone(kit, kit.newPolicy, old(states[i].View()), maxTurns).1
  {
    for t := 0 to maxTurns
      invariant forall i :: 0 <= i < |states| ==>
        (gen.PolicyOf(kit.newPolicy, states[i].episodeId), states[i].View()) ==
          Alone(kit, kit.newPolicy, old(states[i].View()), t)
    {
      if forall st :: st in states ==> st.done {
        forall i | 0 <= i < |states|
          ensures states[i].View() == Alone(kit, kit.newPolicy, old(states[i].View()), maxTurns).1
        {
          assert states[i] in states;
          DoneStays(kit, kit.newPolicy, old(states[i].View()), t, maxTurns);
        }
        return;
      }
      Tick(kit, states, gen);
    }
  }
}
