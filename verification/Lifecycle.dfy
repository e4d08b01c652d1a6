/**
 What the single operations of a daemon are for: deploying, starting, noticing
 drift, replicating, saving and restarting. Between the pieces of an operation
 any other events may happen, on any daemon, as long as they leave it alone.
 */
module Lifecycle {
  import opened Common
  import E = Escrow
  import opened Fleet

  /** The deployments a daemon knows. */
  function Memory(node: Node): map<DeploymentId, Deployment> {
    map id | id in node.index && node.index[id] in node.heap :: node.heap[node.index[id]]
  }

  /** One deployment is recorded, and the others stay as they are. */
  predicate Adds(before: Node, after: Node, id: DeploymentId, d: Deployment) {
    && id in Memory(after) && Memory(after)[id] == d
    && forall other :: other != id && other in Memory(before) ==> other in Memory(after) && Memory(after)[other] == Memory(before)[other]
  }

  // ---------------------------------------------------------------- what happens in between

  /** The event neither goes on with the operation, nor gives it up, nor crashes its daemon. */
  predicate Spares(e: Event, n: NodeId, t: TaskId) {
    || e.ChainStep?
    || e.n != n
    || !(e.Crash? || ((e.Advance? || e.Abandon? || e.SavePut? || e.SaveReplace? || e.DeployFail?) && e.t == t))
  }

  predicate AllSpare(es: seq<Event>, n: NodeId, t: TaskId) {
    forall i :: 0 <= i < |es| ==> Spares(es[i], n, t)
  }

  predicate InFlight(f: Fleet, n: NodeId, t: TaskId, task: Task) {
    n in f.nodes && t in f.nodes[n].tasks && f.nodes[n].tasks[t] == task
  }

  predicate IsRunControl(task: Task) {
    task.StopSettle? || task.StopMark? || task.StopStatus? || task.StartUpdate?
  }

  lemma RunControlKeepsTask(node: Node, n: NodeId, t: TaskId, field: ReservationField, other: TaskId)
    requires t in node.tasks && IsRunControl(node.tasks[t]) && RefHeld(node, node.tasks[t]) && other in node.tasks && other != t
    ensures var tasks := LocalStep(node, n, t, field).tasks; other in tasks && tasks[other] == node.tasks[other]
  {
    hide StopBranch, DeleteBranch;
  }

  lemma LocalStepKeepsTask(node: Node, n: NodeId, t: TaskId, field: ReservationField, other: TaskId)
    requires t in node.tasks && CallOf(node.tasks[t]).None? && !node.tasks[t].Save? && RefHeld(node, node.tasks[t])
    requires other in node.tasks && other != t
    ensures var tasks := LocalStep(node, n, t, field).tasks; other in tasks && tasks[other] == node.tasks[other]
  {
    if IsRunControl(node.tasks[t]) {
      RunControlKeepsTask(node, n, t, field, other);
    } else {
      hide StopBranch, DeleteBranch, SetStatus;
    }
  }

  lemma SweepKeepsTask(node: Node, n: NodeId, t: TaskId)
    requires t in node.tasks && forall s :: s in node.tasks ==> !s.Sweep?
    ensures var tasks := SweepNode(node, n).tasks; t in tasks && tasks[t] == node.tasks[t]
  {
  }

  lemma NodeKeepsTask(f: Fleet, n: NodeId, node: Node, e: Event, t: TaskId)
    requires !e.ChainStep? && NodeEnabled(f, n, node, e) && e.n == n && t in node.tasks && Spares(e, n, t)
    ensures t in NodeStep(f, n, node, e).tasks && NodeStep(f, n, node, e).tasks[t] == node.tasks[t]
  {
    if e.SweepBegin? {
      SweepKeepsTask(node, n, t);
    } else if e.Advance? && CallOf(node.tasks[e.t]).None? {
      LocalStepKeepsTask(node, n, e.t, if node.tasks[e.t].DeployRecord? then f.book[node.tasks[e.t].id].reservation else Empty, t);
    }
    hide LocalStep, SweepNode, LoadNode, CallOf, AfterCall, RefHeld;
  }

  lemma StepKeepsTask(f: Fleet, e: Event, n: NodeId, t: TaskId, task: Task)
    requires Enabled(f, e) && InFlight(f, n, t, task) && Spares(e, n, t)
    ensures InFlight(Step(f, e), n, t, task)
  {
    if !e.ChainStep? && e.n == n {
      NodeKeepsTask(f, n, f.nodes[n], e, t);
    }
    hide NodeStep, NodeEnabled, WorldStep;
  }

  lemma StepKeepsBook(f: Fleet, e: Event, id: DeploymentId)
    requires Enabled(f, e) && id in f.book
    ensures id in Step(f, e).book && Step(f, e).book[id] == f.book[id]
  {
    hide NodeStep, WorldStep;
  }

  lemma {:induction false} RunKeeps(f: Fleet, es: seq<Event>, n: NodeId, t: TaskId, task: Task, id: DeploymentId)
    requires IsRun(f, es) && InFlight(f, n, t, task) && AllSpare(es, n, t)
    ensures InFlight(Run(f, es), n, t, task)
    ensures id in f.book ==> id in Run(f, es).book && Run(f, es).book[id] == f.book[id]
    decreases |es|
  {
    if es != [] {
      hide Step, Enabled, InFlight;
      assert Spares(es[0], n, t);
      StepKeepsTask(f, es[0], n, t, task);
      if id in f.book {
        StepKeepsBook(f, es[0], id);
      }
      RunKeeps(Step(f, es[0]), es[1..], n, t, task, id);
    }
  }

  /** An operation begins, other things happen, and the operation goes on. */
  ghost predicate Between(f: Fleet, begin: Event, n: NodeId, t: TaskId, es: seq<Event>, h: Fleet, next: Event) {
    && Enabled(f, begin) && IsRun(Step(f, begin), es) && AllSpare(es, n, t)
    && h == Run(Step(f, begin), es) && Enabled(h, next)
  }

  // ---------------------------------------------------------------- deploying

  predicate IsDeploy(e: Event) {
    e.DeployExternal? || e.DeployOpen?
  }

  /** The reservation a deployment is recorded with: none if a new one's number could not be parsed. */
  function FieldOf(e: Event): ReservationField
    requires IsDeploy(e)
  {
    if e.DeployExternal? || e.parsed then Id(e.r) else Empty
  }

  lemma DeployBegins(f: Fleet, e: Event)
    requires Enabled(f, e) && IsDeploy(e)
    ensures InFlight(Step(f, e), e.n, Job(e.k), DeployRecord(e.id, e.running))
    ensures e.id in Step(f, e).book && Step(f, e).book[e.id] == Entry(e.n, FieldOf(e))
    ensures Step(f, e).calls == f.calls
    ensures e.DeployOpen? ==> E.StatusOf(Step(f, e).world, e.r) == E.Created
    ensures FieldOf(e).Id? ==> e.id in Step(f, e).nodes[e.n].cache && Step(f, e).nodes[e.n].cache[e.id] == e.r
  {
  }

  lemma DeployEnds(h: Fleet, n: NodeId, t: TaskId, answer: E.Answer)
    requires Enabled(h, Advance(n, t, answer)) && n in h.nodes && t in h.nodes[n].tasks && h.nodes[n].tasks[t].DeployRecord?
    ensures var id, running := h.nodes[n].tasks[t].id, h.nodes[n].tasks[t].running;
            var g := Step(h, Advance(n, t, answer));
            && id in h.book
            && n in g.nodes
            && Adds(h.nodes[n], g.nodes[n], id,
                    Deployment(if running then Running else Pending, n, h.book[id].reservation, false, running))
            && g.nodes[n].pending == h.nodes[n].pending + {id} && g.calls == h.calls && t !in g.nodes[n].tasks
  {
  }

  /**
   A deployment that goes through is recorded under the node that was asked, with its
   reservation and unflagged, and waits for its replicas; no escrow call was made for it.
   */
  lemma DeployRecords(f: Fleet, e: Event, es: seq<Event>, h: Fleet, answer: E.Answer)
    requires IsDeploy(e) && Between(f, e, e.n, Job(e.k), es, h, Advance(e.n, Job(e.k), answer))
    ensures var g := Step(h, Advance(e.n, Job(e.k), answer));
            && e.n in h.nodes && e.n in g.nodes && e.id in g.nodes[e.n].pending
            && Adds(h.nodes[e.n], g.nodes[e.n], e.id,
                    Deployment(if e.running then Running else Pending, e.n, FieldOf(e), false, e.running))
            && g.calls == h.calls && Step(f, e).calls == f.calls
            && (e.DeployOpen? ==> E.StatusOf(Step(f, e).world, e.r) == E.Created)
  {
    DeployBegins(f, e);
    hide Step, Enabled;
    RunKeeps(Step(f, e), es, e.n, Job(e.k), DeployRecord(e.id, e.running), e.id);
    DeployEnds(h, e.n, Job(e.k), answer);
  }

  /** One that fails before it is recorded asks for its refund and leaves no record. */
  lemma FailedDeployRefunds(f: Fleet, n: NodeId, t: TaskId, es: seq<Event>, h: Fleet, answer: E.Answer)
    requires Between(f, DeployFail(n, t), n, t, es, h, Advance(n, t, answer))
    ensures var g := Step(h, Advance(n, t, answer));
            && n in f.nodes && t in f.nodes[n].tasks && f.nodes[n].tasks[t].DeployRecord? && n in g.nodes && n in h.nodes
            && g.calls == h.calls + [Call(n, f.nodes[n].tasks[t].id, E.Refund)]
            && Memory(g.nodes[n]) == Memory(h.nodes[n]) && t !in g.nodes[n].tasks
  {
    var id := FailBegins(f, n, t);
    hide Step, Enabled;
    RunKeeps(Step(f, DeployFail(n, t)), es, n, t, DeployRefund(id), id);
    RefundIsLast(h, n, t, answer);
  }

  lemma FailBegins(f: Fleet, n: NodeId, t: TaskId) returns (id: DeploymentId)
    requires Enabled(f, DeployFail(n, t))
    ensures n in f.nodes && t in f.nodes[n].tasks && f.nodes[n].tasks[t].DeployRecord? && id == f.nodes[n].tasks[t].id
    ensures InFlight(Step(f, DeployFail(n, t)), n, t, DeployRefund(id))
  {
    id := f.nodes[n].tasks[t].id;
  }

  lemma RefundIsLast(h: Fleet, n: NodeId, t: TaskId, answer: E.Answer)
    requires Enabled(h, Advance(n, t, answer)) && n in h.nodes && t in h.nodes[n].tasks
    requires h.nodes[n].tasks[t].DeployRefund? || h.nodes[n].tasks[t].DriftRefund?
    ensures var g := Step(h, Advance(n, t, answer));
            && n in g.nodes && g.calls == h.calls + [Call(n, h.nodes[n].tasks[t].id, E.Refund)]
            && g.nodes[n].heap == h.nodes[n].heap && g.nodes[n].index == h.nodes[n].index && t !in g.nodes[n].tasks
  {
  }

  // ---------------------------------------------------------------- starting and drifting

  lemma StartBegins(f: Fleet, n: NodeId, id: DeploymentId, k: nat)
    requires Enabled(f, StartBegin(n, id, k))
    ensures n in f.nodes && id in Memory(f.nodes[n]) && Memory(f.nodes[n])[id].status.Stopped?
    ensures InFlight(Step(f, StartBegin(n, id, k)), n, Job(k), StartUpdate(f.nodes[n].index[id]))
    ensures Step(f, StartBegin(n, id, k)).nodes[n].heap == f.nodes[n].heap
  {
  }

  lemma StartEnds(h: Fleet, n: NodeId, t: TaskId, answer: E.Answer)
    requires Enabled(h, Advance(n, t, answer)) && n in h.nodes && t in h.nodes[n].tasks && h.nodes[n].tasks[t].StartUpdate?
    ensures var ref, g := h.nodes[n].tasks[t].ref, Step(h, Advance(n, t, answer));
            && n in g.nodes && ref in h.nodes[n].heap && t !in g.nodes[n].tasks
            && g.nodes[n].heap == h.nodes[n].heap[ref := h.nodes[n].heap[ref].(status := Running, started := true)]
            && g.nodes[n].index == h.nodes[n].index && g.calls == h.calls && g.world == h.world
  {
  }

  /** A start makes the object it took from the map, and no other, a running and started one; it takes only stopped ones. */
  lemma StartRuns(f: Fleet, n: NodeId, id: DeploymentId, k: nat, es: seq<Event>, h: Fleet, answer: E.Answer)
    requires Between(f, StartBegin(n, id, k), n, Job(k), es, h, Advance(n, Job(k), answer))
    ensures var g := Step(h, Advance(n, Job(k), answer));
            && n in f.nodes && id in Memory(f.nodes[n]) && Memory(f.nodes[n])[id].status.Stopped? && n in h.nodes && n in g.nodes
            && var ref := f.nodes[n].index[id];
            && ref in h.nodes[n].heap
            && g.nodes[n].heap == h.nodes[n].heap[ref := h.nodes[n].heap[ref].(status := Running, started := true)]
            && g.nodes[n].index == h.nodes[n].index && g.calls == h.calls && g.world == h.world
  {
    StartBegins(f, n, id, k);
    hide Step, Enabled;
    RunKeeps(Step(f, StartBegin(n, id, k)), es, n, Job(k), StartUpdate(f.nodes[n].index[id]), id);
    StartEnds(h, n, Job(k), answer);
  }

  /** The monitor records the status it found; only the originator, and only with a wallet, begins a refund. */
  lemma DriftBegins(f: Fleet, n: NodeId, id: DeploymentId, actual: ContainerStatus, hasWallet: bool, k: nat)
    requires Enabled(f, Drift(n, id, actual, hasWallet, k))
    ensures var g := Step(f, Drift(n, id, actual, hasWallet, k));
            && n in f.nodes && n in g.nodes && id in Memory(f.nodes[n]) && Job(k) !in f.nodes[n].tasks
            && var ref, d := f.nodes[n].index[id], Memory(f.nodes[n])[id];
            && d.status.Running? && !actual.Running?
            && g.nodes[n].heap == f.nodes[n].heap[ref := d.(status := actual)]
            && g.nodes[n].index == f.nodes[n].index && g.calls == f.calls && g.world == f.world
            && (if hasWallet && d.originator == n then InFlight(g, n, Job(k), DriftRefund(id))
                else g.nodes[n].tasks == f.nodes[n].tasks)
  {
  }

  /** That refund is asked for once, whatever happens in between, and the record stays. */
  lemma DriftRefunds(f: Fleet, n: NodeId, id: DeploymentId, actual: ContainerStatus, k: nat, es: seq<Event>, h: Fleet, answer: E.Answer)
    requires Between(f, Drift(n, id, actual, true, k), n, Job(k), es, h, Advance(n, Job(k), answer))
    requires n in f.nodes && id in Memory(f.nodes[n]) && Memory(f.nodes[n])[id].originator == n
    ensures var g := Step(h, Advance(n, Job(k), answer));
            && n in h.nodes && n in g.nodes && g.calls == h.calls + [Call(n, id, E.Refund)]
            && Memory(g.nodes[n]) == Memory(h.nodes[n]) && Job(k) !in g.nodes[n].tasks
  {
    DriftBegins(f, n, id, actual, true, k);
    hide Step, Enabled;
    RunKeeps(Step(f, Drift(n, id, actual, true, k)), es, n, Job(k), DriftRefund(id), id);
    RefundIsLast(h, n, Job(k), answer);
  }

  // ---------------------------------------------------------------- replicas

  lemma {:induction false} RunKeepsBook(f: Fleet, es: seq<Event>, id: DeploymentId)
    requires IsRun(f, es) && id in f.book
    ensures id in Run(f, es).book && Run(f, es).book[id] == f.book[id]
    decreases |es|
  {
    if es != [] {
      hide Step, Enabled;
      StepKeepsBook(f, es[0], id);
      RunKeepsBook(Step(f, es[0]), es[1..], id);
    }
  }

  lemma BroadcastSends(f: Fleet, n: NodeId, id: DeploymentId)
    requires Enabled(f, Broadcast(n, id))
    ensures n in f.nodes && id in Memory(f.nodes[n]) && Memory(f.nodes[n])[id].originator == n
    ensures Step(f, Broadcast(n, id)).packets == f.packets + {Packet(id, Memory(f.nodes[n])[id])}
    ensures Step(f, Broadcast(n, id)).book == f.book && Step(f, Broadcast(n, id)).nodes == f.nodes
  {
    assert f.nodes[n := f.nodes[n]] == f.nodes;
  }

  lemma DeliverCopies(h: Fleet, m: NodeId, packet: Packet, g: nat)
    requires Enabled(h, Deliver(m, packet, g))
    ensures var after := Step(h, Deliver(m, packet, g));
            && m in h.nodes && m in after.nodes && packet.id in h.book && h.book[packet.id].origin != m
            && Adds(h.nodes[m], after.nodes[m], packet.id, packet.deployment.(originator := h.book[packet.id].origin))
            && after.calls == h.calls && after.nodes[m].tasks == h.nodes[m].tasks
  {
  }

  /** What a node delivers to another is, there, what the deployment was when it was sent out. */
  lemma ReplicaIsCopy(f: Fleet, n: NodeId, id: DeploymentId, es: seq<Event>, h: Fleet, m: NodeId, g: nat)
    requires Enabled(f, Broadcast(n, id)) && id in f.book && f.book[id].origin == n
    requires IsRun(Step(f, Broadcast(n, id)), es) && h == Run(Step(f, Broadcast(n, id)), es)
    requires n in f.nodes && id in Memory(f.nodes[n]) && Enabled(h, Deliver(m, Packet(id, Memory(f.nodes[n])[id]), g))
    ensures var after := Step(h, Deliver(m, Packet(id, Memory(f.nodes[n])[id]), g));
            && m != n && m in h.nodes && m in after.nodes
            && Adds(h.nodes[m], after.nodes[m], id, Memory(f.nodes[n])[id])
  {
    BroadcastSends(f, n, id);
    hide Step, Enabled;
    RunKeepsBook(Step(f, Broadcast(n, id)), es, id);
    DeliverCopies(h, m, Packet(id, Memory(f.nodes[n])[id]), g);
  }

  // ---------------------------------------------------------------- saving and restarting

  lemma SaveBegins(f: Fleet, n: NodeId, k: nat)
    requires Enabled(f, SaveBegin(n, k))
    ensures n in f.nodes && InFlight(Step(f, SaveBegin(n, k)), n, Job(k), Save(Memory(f.nodes[n])))
  {
  }

  lemma SaveEnds(h: Fleet, n: NodeId, t: TaskId)
    requires Enabled(h, SaveReplace(n, t)) && n in h.nodes && t in h.nodes[n].tasks && h.nodes[n].tasks[t].Save?
    ensures var g := Step(h, SaveReplace(n, t));
            && n in g.nodes && g.nodes[n].disk == h.nodes[n].tasks[t].snapshot
            && Memory(g.nodes[n]) == Memory(h.nodes[n]) && g.calls == h.calls
  {
  }

  lemma LoadedIsDisk(node: Node, g: nat)
    ensures Memory(LoadNode(CrashNode(node), g)) == node.disk
  {
    var refs := map id | id in node.disk :: Ref(id, g);
    assert forall id :: id in node.disk ==> refs[id] in refs.Values;
  }

  lemma CrashStep(f: Fleet, n: NodeId)
    requires n in f.nodes
    ensures Enabled(f, Crash(n)) && n in Step(f, Crash(n)).nodes && Step(f, Crash(n)).nodes[n] == CrashNode(f.nodes[n])
  {
  }

  lemma LoadStep(f: Fleet, n: NodeId, g: nat)
    requires n in f.nodes && f.nodes[n].heap == map[]
    ensures Enabled(f, Load(n, g)) && n in Step(f, Load(n, g)).nodes && Step(f, Load(n, g)).nodes[n] == LoadNode(f.nodes[n], g)
  {
    hide LoadNode;
  }

  /** After a crash and a restart a daemon knows what was on its disk, and has nothing in flight. */
  lemma RestartRestores(f: Fleet, n: NodeId, g: nat)
    requires n in f.nodes
    ensures Enabled(f, Crash(n)) && Enabled(Step(f, Crash(n)), Load(n, g)) && n in Step(Step(f, Crash(n)), Load(n, g)).nodes
    ensures var node := Step(Step(f, Crash(n)), Load(n, g)).nodes[n];
            && Memory(node) == f.nodes[n].disk && node.disk == f.nodes[n].disk
            && node.tasks == map[] && node.cache == map[] && node.pending == {}
  {
    hide Step, Enabled, Memory;
    CrashStep(f, n);
    LoadStep(Step(f, Crash(n)), n, g);
    LoadedIsDisk(f.nodes[n], g);
  }

  /** A save in flight that has still to write this entry. */
  predicate Saving(f: Fleet, n: NodeId, t: TaskId, id: DeploymentId, d: Deployment) {
    && n in f.nodes && t in f.nodes[n].tasks && f.nodes[n].tasks[t].Save?
    && id in f.nodes[n].tasks[t].snapshot && f.nodes[n].tasks[t].snapshot[id] == d
  }

  /** The event leaves the save alone, or is its writing of another entry. */
  predicate SparesEntry(e: Event, n: NodeId, t: TaskId, id: DeploymentId) {
    Spares(e, n, t) || (e.SavePut? && e.n == n && e.t == t && e.id != id)
  }

  lemma PutKeepsSaving(f: Fleet, n: NodeId, t: TaskId, other: DeploymentId, id: DeploymentId, d: Deployment)
    requires Enabled(f, SavePut(n, t, other)) && Saving(f, n, t, id, d) && other != id
    ensures Saving(Step(f, SavePut(n, t, other)), n, t, id, d)
  {
  }

  lemma {:induction false} RunKeepsSaving(f: Fleet, es: seq<Event>, n: NodeId, t: TaskId, id: DeploymentId, d: Deployment)
    requires IsRun(f, es) && Saving(f, n, t, id, d) && forall i :: 0 <= i < |es| ==> SparesEntry(es[i], n, t, id)
    ensures Saving(Run(f, es), n, t, id, d)
    decreases |es|
  {
    if es != [] {
      hide Step, Enabled;
      var e := es[0];
      assert SparesEntry(e, n, t, id);
      if Spares(e, n, t) {
        StepKeepsTask(f, e, n, t, f.nodes[n].tasks[t]);
      } else {
        PutKeepsSaving(f, n, t, e.id, id, d);
        assert e == SavePut(n, t, e.id);
      }
      hide Spares;
      RunKeepsSaving(Step(f, e), es[1..], n, t, id, d);
    }
  }

  lemma PutEnds(h: Fleet, n: NodeId, t: TaskId, id: DeploymentId, d: Deployment)
    requires Saving(h, n, t, id, d)
    ensures Enabled(h, SavePut(n, t, id))
    ensures var g := Step(h, SavePut(n, t, id));
            && n in g.nodes && g.nodes[n].disk == h.nodes[n].disk[id := d] && Memory(g.nodes[n]) == Memory(h.nodes[n])
            && g.calls == h.calls
  {
  }

  /** An entry written by a save is the deployment as it was when the save began, whatever has happened to it since. */
  lemma SavedEntryIsSnapshot(f: Fleet, n: NodeId, k: nat, es: seq<Event>, h: Fleet, id: DeploymentId)
    requires Enabled(f, SaveBegin(n, k)) && n in f.nodes && id in Memory(f.nodes[n])
    requires IsRun(Step(f, SaveBegin(n, k)), es) && h == Run(Step(f, SaveBegin(n, k)), es)
    requires forall i :: 0 <= i < |es| ==> SparesEntry(es[i], n, Job(k), id)
    ensures Enabled(h, SavePut(n, Job(k), id)) && n in h.nodes && n in Step(h, SavePut(n, Job(k), id)).nodes
    ensures Step(h, SavePut(n, Job(k), id)).nodes[n].disk == h.nodes[n].disk[id := Memory(f.nodes[n])[id]]
  {
    SaveBegins(f, n, k);
    hide Step, Enabled;
    RunKeepsSaving(Step(f, SaveBegin(n, k)), es, n, Job(k), id, Memory(f.nodes[n])[id]);
    PutEnds(h, n, Job(k), id, Memory(f.nodes[n])[id]);
  }

  /** A save that is written out whole brings back, after a crash, the deployments known when it began. */
  lemma SavedSurvivesCrash(f: Fleet, n: NodeId, k: nat, es: seq<Event>, h: Fleet, g: nat)
    requires Between(f, SaveBegin(n, k), n, Job(k), es, h, SaveReplace(n, Job(k)))
    ensures var saved := Step(h, SaveReplace(n, Job(k)));
            var back := Step(Step(saved, Crash(n)), Load(n, g));
            && n in f.nodes && n in back.nodes && Memory(back.nodes[n]) == Memory(f.nodes[n])
  {
    SaveBegins(f, n, k);
    hide Step, Enabled;
    RunKeeps(Step(f, SaveBegin(n, k)), es, n, Job(k), Save(Memory(f.nodes[n])), "");
    SaveEnds(h, n, Job(k));
    RestartRestores(Step(h, SaveReplace(n, Job(k))), n, g);
  }
}
