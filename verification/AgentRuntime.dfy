/** The agent runtime: deployments, their statuses and token budgets, and the limit of live agents per wallet. */
module AgentRuntime {
  import opened Common
  import Admission

  datatype Status = Pending | Starting | Running | Stopped | Failed {
    predicate Live() {
      !Stopped? && !Failed?
    }
  }

  datatype Agent = Agent(owner: string, status: Status, tokensUsed: int, maxTokens: int, invocations: nat)

  type Agents = map<string, Agent>

  /** `passed` holds the owners of Deploy calls between the count and the insertion. */
  datatype State = State(agents: Agents, passed: multiset<string>)

  datatype Event =
    | Check(owner: string)
    | Insert(owner: string, id: string, maxTokens: int)
    | Abort(owner: string)
    | Start(id: string)
    | Stop(id: string)
    | Record(id: string, tokens: int)
    | Delete(id: string)
    | SetError(id: string)

  const EMPTY := State(map[], multiset{})

  const TWO_63: int := 0x8000_0000_0000_0000

  /** Addition of 64-bit signed integers. */
  function Wrap(x: int): int {
    (x + TWO_63) % (2 * TWO_63) - TWO_63
  }

  function LiveAgents(agents: Agents, owner: string): set<string> {
    set id | id in agents && agents[id].owner == owner && agents[id].status.Live()
  }

  function Invoked(agent: Agent, tokens: int): Agent {
    var used := Wrap(agent.tokensUsed + tokens);
    agent.(tokensUsed := used, invocations := agent.invocations + 1,
           status := if agent.maxTokens > 0 && used >= agent.maxTokens then Stopped else agent.status)
  }

  function Updated(agents: Agents, e: Event): Agents
    requires e.Start? || e.Stop? || e.Record? || e.Delete? || e.SetError?
  {
    if e.id !in agents then agents
    else
      var agent := agents[e.id];
      match e
      case Start(id) => if agent.status.Pending? || agent.status.Starting? then agents[id := agent.(status := Running)] else agents
      case Stop(id) => agents[id := agent.(status := Stopped)]
      case Record(id, tokens) => agents[id := Invoked(agent, tokens)]
      case Delete(id) => if agent.status.Running? || agent.status.Starting? then agents else agents - {id}
      case SetError(id) => agents[id := agent.(status := Failed)]
  }

  predicate Enabled(s: State, e: Event, max: int, calls: nat) {
    match e
    case Check(owner) => |LiveAgents(s.agents, owner)| < max && s.passed[owner] < calls
    case Insert(owner, id, _) => owner in s.passed && id !in s.agents
    case Abort(owner) => owner in s.passed
    case _ => true
  }

  function Step(s: State, e: Event, max: int, calls: nat): State
    requires Enabled(s, e, max, calls)
  {
    match e
    case Check(owner) => s.(passed := s.passed + multiset{owner})
    case Insert(owner, id, maxTokens) =>
      State(s.agents[id := Agent(owner, Pending, 0, maxTokens, 0)], s.passed - multiset{owner})
    case Abort(owner) => s.(passed := s.passed - multiset{owner})
    case _ => s.(agents := Updated(s.agents, e))
  }

  function Run(s: State, es: seq<Event>, max: int, calls: nat): Option<State>
    decreases es
  {
    if es == [] then Some(s)
    else if Enabled(s, es[0], max, calls) then Run(Step(s, es[0], max, calls), es[1..], max, calls)
    else None
  }

  // ---------------------------------------------------------------- the gate it goes through

  function Abs(s: State): Admission.Gate {
    Admission.Gate(map id | id in s.agents :: Admission.Entry(s.agents[id].owner, s.agents[id].status.Live()), s.passed)
  }

  function GateEvent(s: State, e: Event): Admission.Event {
    if e.Check? then Admission.Pass(e.owner)
    else if e.Insert? then Admission.Insert(e.owner, e.id)
    else if e.Abort? then Admission.Drop(e.owner)
    else if e.id in s.agents && e.id !in Updated(s.agents, e) then Admission.Remove(e.id)
    else if e.id in s.agents && !Updated(s.agents, e)[e.id].status.Live() then Admission.Retire(e.id)
    else Admission.Idle
  }

  lemma LiveIsLive(s: State, owner: string)
    ensures Admission.Live(Abs(s), owner) == LiveAgents(s.agents, owner)
  {
  }

  /** An update leaves the other agents alone, keeps the owner, and makes no agent live; a deletion spares what runs or starts. */
  lemma UpdateSpares(agents: Agents, e: Event)
    requires e.Start? || e.Stop? || e.Record? || e.Delete? || e.SetError?
    ensures var agents' := Updated(agents, e);
            && agents'.Keys <= agents.Keys && agents.Keys - {e.id} <= agents'.Keys
            && (forall id :: id in agents' && id != e.id ==> agents'[id] == agents[id])
            && (e.id in agents ==> (e.id in agents' <==> !e.Delete? || agents[e.id].status.Running? || agents[e.id].status.Starting?))
            && (e.id in agents' ==> agents'[e.id].owner == agents[e.id].owner)
            && (e.id in agents' && agents'[e.id].status.Live() ==> agents[e.id].status.Live())
  {
    hide Wrap;
  }

  lemma UpdateRefines(s: State, e: Event, max: int, calls: nat)
    requires e.Start? || e.Stop? || e.Record? || e.Delete? || e.SetError?
    ensures Admission.Enabled(Abs(s), GateEvent(s, e), max, calls)
    ensures Abs(s.(agents := Updated(s.agents, e))) == Admission.Step(Abs(s), GateEvent(s, e), max, calls)
  {
    UpdateSpares(s.agents, e);
    hide Updated, LiveAgents;
  }

  /** Every operation of the runtime is a step of the admission gate: none revives a stopped or failed agent. */
  lemma StepRefines(s: State, e: Event, max: int, calls: nat)
    requires Enabled(s, e, max, calls)
    ensures Admission.Enabled(Abs(s), GateEvent(s, e), max, calls)
    ensures Abs(Step(s, e, max, calls)) == Admission.Step(Abs(s), GateEvent(s, e), max, calls)
  {
    if e.Check? {
      LiveIsLive(s, e.owner);
    } else if !e.Insert? && !e.Abort? {
      UpdateRefines(s, e, max, calls);
    }
    hide Updated;
  }

  lemma {:induction false} RunStaysWithin(s: State, es: seq<Event>, max: int, calls: nat)
    requires Admission.Within(Abs(s), max, calls) && Run(s, es, max, calls).Some?
    ensures Admission.Within(Abs(Run(s, es, max, calls).value), max, calls)
    decreases es
  {
    if es != [] {
      StepRefines(s, es[0], max, calls);
      Admission.StepStaysWithin(Abs(s), GateEvent(s, es[0]), max, calls);
      RunStaysWithin(Step(s, es[0], max, calls), es[1..], max, calls);
    }
  }

  /** With at most `calls` Deploy calls of an owner under way at a time, the owner never exceeds the cap. */
  lemma LiveAgentsAreCapped(es: seq<Event>, max: int, calls: nat, owner: string)
    requires Run(EMPTY, es, max, calls).Some?
    ensures |LiveAgents(Run(EMPTY, es, max, calls).value.agents, owner)| <= Admission.Cap(max, calls)
  {
    var s := Run(EMPTY, es, max, calls).value;
    assert Abs(EMPTY) == Admission.OPEN;
    Admission.OpenIsWithin(max, calls);
    RunStaysWithin(EMPTY, es, max, calls);
    LiveIsLive(s, owner);
    assert |Admission.Live(Abs(s), owner)| + Abs(s).passed[owner] <= Admission.Cap(max, calls);
  }

  lemma {:induction false} DeploymentsLift(s: State, es: seq<Admission.Event>, max: int, calls: nat) returns (lifted: seq<Event>)
    requires Admission.Creating(es) && Admission.Run(Abs(s), es, max, calls).Some?
    ensures Run(s, lifted, max, calls).Some?
    ensures Abs(Run(s, lifted, max, calls).value) == Admission.Run(Abs(s), es, max, calls).value
    decreases es
  {
    if es == [] {
      lifted := [];
    } else {
      var e := if es[0].Pass? then Check(es[0].owner) else Insert(es[0].owner, es[0].id, 1);
      LiveIsLive(s, e.owner);
      assert Enabled(s, e, max, calls) && GateEvent(s, e) == es[0];
      StepRefines(s, e, max, calls);
      var rest := DeploymentsLift(Step(s, e, max, calls), es[1..], max, calls);
      lifted := [e] + rest;
      assert lifted[1..] == rest;
    }
  }

  /** The cap cannot be lowered: concurrent calls reach it for every positive maximum. */
  lemma AgentCapIsReached(max: int, calls: nat, owner: string) returns (es: seq<Event>)
    requires max > 0 && calls > 0
    ensures Run(EMPTY, es, max, calls).Some?
    ensures |LiveAgents(Run(EMPTY, es, max, calls).value.agents, owner)| == max + calls - 1
  {
    assert Abs(EMPTY) == Admission.OPEN;
    var creating := Admission.CapIsReached(owner, max, calls);
    es := DeploymentsLift(EMPTY, creating, max, calls);
    LiveIsLive(Run(EMPTY, es, max, calls).value, owner);
  }

  // ---------------------------------------------------------------- finished agents and budgets

  /** The id is not handed out again. */
  predicate NotReused(es: seq<Event>, id: string) {
    forall i :: 0 <= i < |es| && es[i].Insert? ==> es[i].id != id
  }

  /** A stopped or failed agent never becomes live again; it stays or is deleted. */
  lemma {:induction false} FinishedStaysFinished(s: State, es: seq<Event>, max: int, calls: nat, id: string)
    requires Run(s, es, max, calls).Some? && NotReused(es, id)
    requires id in s.agents ==> !s.agents[id].status.Live()
    ensures var agents := Run(s, es, max, calls).value.agents;
            id in agents ==> id in s.agents && !agents[id].status.Live()
    decreases es
  {
    hide Wrap;
    if es != [] {
      assert es[0].Insert? ==> es[0].id != id;
      var s' := Step(s, es[0], max, calls);
      FinishedStaysFinished(s', es[1..], max, calls, id);
    }
  }

  ghost predicate InBudget(agents: Agents) {
    forall id :: id in agents && agents[id].status.Live() && agents[id].maxTokens > 0 ==>
                   agents[id].tokensUsed < agents[id].maxTokens
  }

  lemma StepKeepsBudget(s: State, e: Event, max: int, calls: nat)
    requires Enabled(s, e, max, calls) && InBudget(s.agents)
    ensures InBudget(Step(s, e, max, calls).agents)
  {
    hide Wrap, LiveAgents;
  }

  /** In every run an agent with a budget is live only while its recorded use is below that budget. */
  lemma {:induction false} LiveAgentsAreInBudget(s: State, es: seq<Event>, max: int, calls: nat)
    requires Run(s, es, max, calls).Some? && InBudget(s.agents)
    ensures InBudget(Run(s, es, max, calls).value.agents)
    decreases es
  {
    if es != [] {
      StepKeepsBudget(s, es[0], max, calls);
      hide Updated, InBudget;
      LiveAgentsAreInBudget(Step(s, es[0], max, calls), es[1..], max, calls);
    }
  }

  // ---------------------------------------------------------------- what the calls of a run add up to

  /** The tokens recorded for an agent. */
  function Recorded(es: seq<Event>, id: string): int {
    if es == [] then 0
    else
      var last := es[|es| - 1];
      Recorded(es[..|es| - 1], id) + if last.Record? && last.id == id then last.tokens else 0
  }

  /** How often tokens were recorded for it. */
  function Invocations(es: seq<Event>, id: string): nat {
    if es == [] then 0
    else
      var last := es[|es| - 1];
      Invocations(es[..|es| - 1], id) + Bit(last.Record? && last.id == id)
  }

  lemma {:induction false} RunSnoc(s: State, es: seq<Event>, max: int, calls: nat)
    requires es != [] && Run(s, es, max, calls).Some?
    ensures var n := |es| - 1;
            && Run(s, es[..n], max, calls).Some?
            && Enabled(Run(s, es[..n], max, calls).value, es[n], max, calls)
            && Run(s, es, max, calls).value == Step(Run(s, es[..n], max, calls).value, es[n], max, calls)
    decreases es
  {
    hide Enabled, Step;
    if |es| > 1 {
      RunSnoc(Step(s, es[0], max, calls), es[1..], max, calls);
      assert es[1..][..|es| - 2] == es[..|es| - 1][1..];
    }
  }

  lemma WrapAdds(x: int, y: int)
    ensures Wrap(Wrap(x) + y) == Wrap(x + y)
  {
    var q := (x + TWO_63) / (2 * TWO_63);
    assert Wrap(x) == x - 2 * TWO_63 * q;
  }

  lemma NoWrap(x: int)
    ensures 0 <= x < TWO_63 ==> Wrap(x) == x
  {
  }

  /** The agent as inserted, and as it is after the calls. */
  predicate Tracks(a: Agent, b: Agent, es: seq<Event>, id: string) {
    && b.owner == a.owner && b.maxTokens == a.maxTokens
    && b.tokensUsed == Wrap(a.tokensUsed + Recorded(es, id))
    && b.invocations == a.invocations + Invocations(es, id)
  }

  lemma StepTracks(s: State, e: Event, max: int, calls: nat, id: string, a: Agent, es: seq<Event>)
    requires Enabled(s, e, max, calls) && !(e.Insert? && e.id == id) && id in Step(s, e, max, calls).agents
    ensures id in s.agents
    ensures Tracks(a, s.agents[id], es, id) ==> Tracks(a, Step(s, e, max, calls).agents[id], es + [e], id)
  {
    hide Enabled, Wrap;
    assert (es + [e])[..|es|] == es;
    if e.Record? && e.id == id {
      WrapAdds(a.tokensUsed + Recorded(es, id), e.tokens);
    }
  }

  /** An agent's tokens are, in 64-bit arithmetic, those recorded for it, its invocations their number; owner and budget stay. */
  lemma {:induction false} TokensAreSummed(s: State, es: seq<Event>, max: int, calls: nat, id: string)
    requires Run(s, es, max, calls).Some? && NotReused(es, id) && id in Run(s, es, max, calls).value.agents
    ensures id in s.agents
    ensures Wrap(s.agents[id].tokensUsed) == s.agents[id].tokensUsed ==>
              Tracks(s.agents[id], Run(s, es, max, calls).value.agents[id], es, id)
    decreases es
  {
    hide Wrap, Enabled, Step;
    if es != [] {
      var front, last := es[..|es| - 1], es[|es| - 1];
      RunSnoc(s, es, max, calls);
      StepWasThere(Run(s, front, max, calls).value, last, max, calls, id);
      TokensAreSummed(s, front, max, calls, id);
      StepTracks(Run(s, front, max, calls).value, last, max, calls, id, s.agents[id], front);
      hide Tracks, Run;
      assert es == front + [last];
    }
  }

  lemma StepWasThere(s: State, e: Event, max: int, calls: nat, id: string)
    requires Enabled(s, e, max, calls) && !(e.Insert? && e.id == id) && id in Step(s, e, max, calls).agents
    ensures id in s.agents
  {
  }

  /** The i-th call ends the agent: it stops it, fails it, or records the tokens that reach its budget. */
  predicate Finishes(a: Agent, es: seq<Event>, id: string, i: nat)
    requires i < |es|
  {
    var e := es[i];
    || (e.Stop? && e.id == id)
    || (e.SetError? && e.id == id)
    || (e.Record? && e.id == id && a.maxTokens > 0 && Wrap(a.tokensUsed + Recorded(es[..i + 1], id)) >= a.maxTokens)
  }

  predicate NoneFinishes(a: Agent, es: seq<Event>, id: string, from: nat) {
    forall i :: from <= i < |es| ==> !Finishes(a, es, id, i)
  }

  predicate IsFresh(s: State, id: string) {
    id in s.agents && s.agents[id].status.Pending? && Wrap(s.agents[id].tokensUsed) == s.agents[id].tokensUsed
  }

  lemma FrontFinishes(a: Agent, es: seq<Event>, id: string, i: nat)
    requires i < |es| - 1
    ensures Finishes(a, es[..|es| - 1], id, i) <==> Finishes(a, es, id, i)
  {
    assert es[..|es| - 1][..i + 1] == es[..i + 1];
  }

  lemma FrontNoneFinishes(a: Agent, es: seq<Event>, id: string, from: nat)
    requires es != [] && NoneFinishes(a, es, id, from)
    ensures NoneFinishes(a, es[..|es| - 1], id, from)
  {
    var front := es[..|es| - 1];
    forall i | from <= i < |front|
      ensures !Finishes(a, front, id, i)
    {
      FrontFinishes(a, es, id, i);
    }
  }

  /** The status after one call, in terms of what that call does to the agent. */
  lemma StatusStep(s: State, es: seq<Event>, max: int, calls: nat, id: string) returns (before: State)
    requires es != [] && Run(s, es, max, calls).Some? && NotReused(es, id) && id in Run(s, es, max, calls).value.agents
    requires IsFresh(s, id)
    ensures Run(s, es[..|es| - 1], max, calls) == Some(before) && id in before.agents
    ensures var n, status := |es| - 1, before.agents[id].status;
            Run(s, es, max, calls).value.agents[id].status ==
              if Finishes(s.agents[id], es, id, n) then if es[n].SetError? then Failed else Stopped
              else if es[n] == Start(id) && status.Live() then Running
              else status
  {
    var n := |es| - 1;
    RunSnoc(s, es, max, calls);
    TokensAreSummed(s, es, max, calls, id);
    before := Run(s, es[..n], max, calls).value;
    StepWasThere(before, es[n], max, calls, id);
    CallStatus(before, es[n], max, calls, id);
    hide Run, Wrap, Recorded, Invocations, Enabled, Step;
    assert es[..n + 1] == es;
  }

  lemma CallStatus(s: State, e: Event, max: int, calls: nat, id: string)
    requires Enabled(s, e, max, calls) && !(e.Insert? && e.id == id) && id in s.agents && id in Step(s, e, max, calls).agents
    ensures var status, after := s.agents[id].status, Step(s, e, max, calls).agents[id];
            && after.maxTokens == s.agents[id].maxTokens
            && after.status ==
                 if e == Stop(id) then Stopped
                 else if e == SetError(id) then Failed
                 else if e.Record? && e.id == id && after.maxTokens > 0 && after.tokensUsed >= after.maxTokens then Stopped
                 else if e == Start(id) && status.Live() then Running
                 else status
  {
    hide Wrap, Enabled;
  }

  /** As long as no call finishes it, an agent is running if it was started and pending otherwise. */
  lemma {:induction false} UnfinishedStatus(s: State, es: seq<Event>, max: int, calls: nat, id: string)
    requires Run(s, es, max, calls).Some? && NotReused(es, id) && id in Run(s, es, max, calls).value.agents
    requires IsFresh(s, id) && NoneFinishes(s.agents[id], es, id, 0)
    ensures Run(s, es, max, calls).value.agents[id].status == if Start(id) in es then Running else Pending
    decreases es
  {
    if es != [] {
      var n := |es| - 1;
      var before := StatusStep(s, es, max, calls, id);
      FrontNoneFinishes(s.agents[id], es, id, 0);
      hide Run, Wrap, Finishes, IsFresh;
      UnfinishedStatus(s, es[..n], max, calls, id);
      assert es == es[..n] + [es[n]];
    }
  }

  /** The last call that finishes an agent decides: it is failed after an error and stopped otherwise. */
  lemma {:induction false} FinishedStatus(s: State, es: seq<Event>, max: int, calls: nat, id: string, i: nat)
    requires Run(s, es, max, calls).Some? && NotReused(es, id) && id in Run(s, es, max, calls).value.agents
    requires IsFresh(s, id) && i < |es| && Finishes(s.agents[id], es, id, i) && NoneFinishes(s.agents[id], es, id, i + 1)
    ensures Run(s, es, max, calls).value.agents[id].status == if es[i].SetError? then Failed else Stopped
    decreases es
  {
    var n := |es| - 1;
    var before := StatusStep(s, es, max, calls, id);
    if i < n {
      FrontFinishes(s.agents[id], es, id, i);
      FrontNoneFinishes(s.agents[id], es, id, i + 1);
      assert !Finishes(s.agents[id], es, id, n);
      hide Run, Wrap, Finishes, IsFresh;
      FinishedStatus(s, es[..n], max, calls, id, i);
    }
  }

  predicate NonNegative(es: seq<Event>, id: string) {
    forall i :: 0 <= i < |es| && es[i].Record? && es[i].id == id ==> es[i].tokens >= 0
  }

  predicate NotStopped(es: seq<Event>, id: string) {
    Stop(id) !in es && SetError(id) !in es
  }

  lemma {:induction false} SumsGrow(es: seq<Event>, id: string, n: nat)
    requires NonNegative(es, id) && n <= |es|
    ensures 0 <= Recorded(es[..n], id) <= Recorded(es, id)
    decreases es
  {
    if n < |es| {
      SumsGrow(es[..|es| - 1], id, n);
      assert es[..|es| - 1][..n] == es[..n];
    } else {
      assert es[..n] == es;
      if es != [] {
        SumsGrow(es[..n - 1], id, n - 1);
        assert es[..n - 1][..n - 1] == es[..n - 1];
      }
    }
  }

  /** Below its budget no call but a stop or an error finishes an agent. */
  lemma BelowBudget(a: Agent, es: seq<Event>, id: string)
    requires a.tokensUsed == 0 && NonNegative(es, id) && NotStopped(es, id)
    requires Recorded(es, id) < TWO_63 && (a.maxTokens > 0 ==> Recorded(es, id) < a.maxTokens)
    ensures NoneFinishes(a, es, id, 0)
  {
    forall i | 0 <= i < |es|
      ensures !Finishes(a, es, id, i)
    {
      assert es[i] in es;
      SumsGrow(es, id, i + 1);
      NoWrap(Recorded(es[..i + 1], id));
      hide Wrap, Recorded;
    }
  }

  lemma {:induction false} RunSplits(s: State, es: seq<Event>, max: int, calls: nat, n: nat)
    requires n <= |es| && Run(s, es, max, calls).Some?
    ensures Run(s, es[..n], max, calls).Some?
    ensures Run(Run(s, es[..n], max, calls).value, es[n..], max, calls) == Run(s, es, max, calls)
    decreases es
  {
    hide Enabled, Step;
    if n > 0 {
      RunSplits(Step(s, es[0], max, calls), es[1..], max, calls, n - 1);
      assert es[1..][..n - 1] == es[..n][1..] && es[1..][n - 1..] == es[n..];
    } else {
      assert es[0..] == es;
    }
  }

  /** The state right behind an insertion. */
  lemma AfterInsertion(es: seq<Event>, max: int, calls: nat, i: nat) returns (s: State)
    requires i < |es| && Run(EMPTY, es, max, calls).Some? && es[i].Insert?
    ensures Run(EMPTY, es[..i + 1], max, calls) == Some(s)
    ensures es[i].id in s.agents && s.agents[es[i].id] == Agent(es[i].owner, Pending, 0, es[i].maxTokens, 0)
    ensures Run(s, es[i + 1..], max, calls) == Run(EMPTY, es, max, calls)
  {
    RunSplits(EMPTY, es, max, calls, i + 1);
    s := Run(EMPTY, es[..i + 1], max, calls).value;
    RunSnoc(EMPTY, es[..i + 1], max, calls);
  }

  /**
   In every run: from its insertion on, an agent's use is the wrapped sum of what was
   recorded for it. With non-negative amounts that do not overflow, an agent with a
   budget is live only while that sum is below the budget; and unless it is stopped or
   fails it is live exactly that long.
   */
  lemma LiveIffBelowBudget(es: seq<Event>, max: int, calls: nat, i: nat, id: string)
    requires i < |es| && Run(EMPTY, es, max, calls).Some? && es[i].Insert? && es[i].id == id
    requires NotReused(es[i + 1..], id) && id in Run(EMPTY, es, max, calls).value.agents
    ensures var agent, since, budget := Run(EMPTY, es, max, calls).value.agents[id], es[i + 1..], es[i].maxTokens;
            && agent.owner == es[i].owner && agent.maxTokens == budget
            && agent.tokensUsed == Wrap(Recorded(since, id)) && agent.invocations == Invocations(since, id)
            && (NonNegative(since, id) && Recorded(since, id) < TWO_63 ==>
                  && (agent.status.Live() && budget > 0 ==> Recorded(since, id) < budget)
                  && (NotStopped(since, id) ==> (agent.status.Live() <==> budget <= 0 || Recorded(since, id) < budget)))
  {
    var s := AfterInsertion(es, max, calls, i);
    var since := es[i + 1..];
    TokensAreSummed(s, since, max, calls, id);
    LiveAgentsAreInBudget(EMPTY, es, max, calls);
    hide Run, Finishes;
    NoWrap(Recorded(since, id));
    hide Wrap, Recorded, Invocations;
    if NonNegative(since, id) {
      SumsGrow(since, id, |since|);
      assert since[..|since|] == since;
      if Recorded(since, id) < TWO_63 && NotStopped(since, id) && (es[i].maxTokens <= 0 || Recorded(since, id) < es[i].maxTokens) {
        BelowBudget(s.agents[id], since, id);
        UnfinishedStatus(s, since, max, calls, id);
      }
    }
  }

  // ---------------------------------------------------------------- the runtime object

  class Runtime {
    const maxAgentsPerWallet: int
    const maxTokenBudget: int
    var agents: Agents

    constructor (maxAgentsPerWallet: int, maxTokenBudget: int)
      ensures this.maxAgentsPerWallet == maxAgentsPerWallet && this.maxTokenBudget == maxTokenBudget && agents == map[]
    {
      this.maxAgentsPerWallet := maxAgentsPerWallet;
      this.maxTokenBudget := maxTokenBudget;
      agents := map[];
    }

    /** The first half of Deploy: counts the owner's live agents. */
    method CheckLimit(owner: string) returns (ok: bool)
      ensures ok <==> |LiveAgents(agents, owner)| < maxAgentsPerWallet
    {
      var rest, count := agents.Keys, 0;
      ghost var counted: set<string> := {};
      while rest != {}
        invariant rest <= agents.Keys
        invariant counted == set id | id in LiveAgents(agents, owner) && id !in rest
        invariant count == |counted|
        decreases |rest|
      {
        var id :| id in rest;
        rest := rest - {id};
        if agents[id].owner == owner && agents[id].status != Stopped && agents[id].status != Failed {
          count := count + 1;
          counted := counted + {id};
        }
      }
      assert counted == LiveAgents(agents, owner);
      ok := count < maxAgentsPerWallet;
    }

    /** The second half of Deploy: a budget that is not positive becomes the configured one. */
    method InsertAgent(owner: string, id: string, maxTokens: int)
      modifies this
      ensures agents == old(agents)[id := Agent(owner, Pending, 0, if maxTokens > 0 then maxTokens else maxTokenBudget, 0)]
    {
      var budget := maxTokens;
      if budget <= 0 {
        budget := maxTokenBudget;
      }
      agents := agents[id := Agent(owner, Pending, 0, budget, 0)];
    }

    method StartAgent(id: string) returns (ok: bool)
      modifies this
      ensures ok <==> id in old(agents) && (old(agents)[id].status.Pending? || old(agents)[id].status.Starting?)
      ensures agents == Updated(old(agents), Start(id))
    {
      if id !in agents || (!agents[id].status.Pending? && !agents[id].status.Starting?) {
        return false;
      }
      agents := agents[id := agents[id].(status := Running)];
      ok := true;
    }

    method StopAgent(id: string) returns (ok: bool)
      modifies this
      ensures ok <==> id in old(agents)
      ensures agents == Updated(old(agents), Stop(id))
    {
      if id !in agents {
        return false;
      }
      if agents[id].status.Stopped? {
        assert agents[id := agents[id]] == agents;
        return true;
      }
      agents := agents[id := agents[id].(status := Stopped)];
      ok := true;
    }

    method RecordInvocation(id: string, tokens: int) returns (ok: bool)
      modifies this
      ensures ok <==> id in old(agents)
      ensures agents == Updated(old(agents), Record(id, tokens))
    {
      if id !in agents {
        return false;
      }
      var agent := agents[id];
      agent := agent.(tokensUsed := Wrap(agent.tokensUsed + tokens));
      agent := agent.(invocations := agent.invocations + 1);
      if agent.maxTokens > 0 && agent.tokensUsed >= agent.maxTokens {
        agent := agent.(status := Stopped);
      }
      agents := agents[id := agent];
      ok := true;
    }

    method DeleteAgent(id: string) returns (ok: bool)
      modifies this
      ensures ok <==> id in old(agents) && !old(agents)[id].status.Running? && !old(agents)[id].status.Starting?
      ensures agents == Updated(old(agents), Delete(id))
    {
      if id !in agents || agents[id].status.Running? || agents[id].status.Starting? {
        return false;
      }
      agents := agents - {id};
      ok := true;
    }

    method FailAgent(id: string)
      modifies this
      ensures agents == Updated(old(agents), SetError(id))
    {
      if id in agents {
        agents := agents[id := agents[id].(status := Failed)];
      }
    }
  }
}
