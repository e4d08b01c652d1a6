/**
 The container manager as the object its methods update, one daemon of a fleet.
 Each method is shown to be a run of the fleet's step system: the ghost result
 `es` lists the steps. The payment service is an oracle that may give any answer
 the chain allows at that moment.
 */
module ContainerManager {
  import opened Common
  import E = Escrow
  import EscrowErrors
  import opened Fleet
  import FleetSafety
  import Recovery

  /** The answer to the k-th call, given the chain, the cached reservation and the action. */
  type Oracle = (nat, E.World, Option<E.ReservationId>, E.Action) -> E.Answer

  ghost predicate Honest(env: Oracle) {
    forall k, w, entry, a :: E.CanAnswer(w, entry, a, env(k, w, entry, a))
  }

  predicate Steps(f: Fleet, e: Event, f': Fleet) {
    Enabled(f, e) && Step(f, e) == f'
  }

  predicate Runs(f: Fleet, es: seq<Event>, f': Fleet) {
    IsRun(f, es) && Run(f, es) == f'
  }

  lemma RunsNothing(f: Fleet)
    ensures Runs(f, [], f)
  {
  }

  lemma RunsOn(f: Fleet, es: seq<Event>, g: Fleet, more: seq<Event>, f': Fleet)
    requires Runs(f, es, g) && Runs(g, more, f')
    ensures Runs(f, es + more, f')
  {
    hide Step, Enabled;
    FleetSafety.RunsJoin(f, es, more);
  }

  lemma RunsSnoc(f: Fleet, es: seq<Event>, g: Fleet, e: Event, f': Fleet)
    requires Runs(f, es, g) && Steps(g, e, f')
    ensures Runs(f, es + [e], f')
  {
    hide Step, Enabled;
    assert [e][1..] == [] && IsRun(f', []) && Run(f', []) == f';
    assert Runs(g, [e], f');
    RunsOn(f, es, g, [e], f');
  }

  /** A run of steps keeps the invariant of the fleet. */
  lemma RunsKeepInv(f: Fleet, es: seq<Event>, f': Fleet)
    requires Runs(f, es, f') && FleetSafety.Inv(f)
    ensures FleetSafety.Inv(f')
  {
    FleetSafety.RunKeepsInv(f, es);
  }

  predicate Calling(tasks: map<TaskId, Task>, t: TaskId, id: DeploymentId, a: E.Action) {
    t in tasks && !tasks[t].Save? && CallOf(tasks[t]) == Some(a) && IdOf(tasks[t]) == id
  }

  /** The operations in flight after one of them went on to its next piece, or ended. */
  function Continued(tasks: map<TaskId, Task>, t: TaskId, next: Option<Task>): map<TaskId, Task> {
    if next.Some? then tasks[t := next.value] else tasks - {t}
  }

  /** The step that makes an escrow call. */
  lemma CallPiece(f: Fleet, n: NodeId, t: TaskId, id: DeploymentId, a: E.Action, answer: E.Answer)
    requires n in f.nodes && Calling(f.nodes[n].tasks, t, id, a)
    requires E.CanAnswer(f.world, CacheEntry(f.nodes[n], id), a, answer)
    ensures var w := E.After(f.world, CacheEntry(f.nodes[n], id), a, answer);
            Steps(f, Advance(n, t, answer),
                  f.(nodes := f.nodes[n := CallStep(f.nodes[n], t, answer)], world := w, calls := f.calls + [Call(n, id, a)],
                     misled := MisledStep(f.misled, w, f.nodes[n], Advance(n, t, answer))))
  {
    hide AfterCall, MisledStep;
  }

  /** The same step, field by field. */
  lemma CallFields(f: Fleet, n: NodeId, t: TaskId, id: DeploymentId, a: E.Action, answer: E.Answer)
    requires n in f.nodes && Calling(f.nodes[n].tasks, t, id, a)
    requires E.CanAnswer(f.world, CacheEntry(f.nodes[n], id), a, answer)
    ensures var node := f.nodes[n];
            var w := E.After(f.world, CacheEntry(node, id), a, answer);
            Steps(f, Advance(n, t, answer),
                  f.(nodes := f.nodes[n := node.(cache := if answer.Done? && a.Ends() then node.cache - {id} else node.cache,
                                                 tasks := Continued(node.tasks, t, AfterCall(node.tasks[t], answer)))],
                     world := w, calls := f.calls + [Call(n, id, a)],
                     misled := MisledStep(f.misled, w, node, Advance(n, t, answer))))
  {
    hide Steps, AfterCall, MisledStep;
    CallPiece(f, n, t, id, a, answer);
  }

  /** The step that makes none. */
  lemma LocalPiece(f: Fleet, n: NodeId, t: TaskId)
    requires n in f.nodes && t in f.nodes[n].tasks
    requires !f.nodes[n].tasks[t].Save? && !f.nodes[n].tasks[t].DeployRecord? && CallOf(f.nodes[n].tasks[t]).None?
    requires RefHeld(f.nodes[n], f.nodes[n].tasks[t])
    ensures Steps(f, Advance(n, t, E.NoReservation), f.(nodes := f.nodes[n := LocalStep(f.nodes[n], n, t, Empty)]))
  {
  }

  lemma StopPiece(f: Fleet, n: NodeId, id: DeploymentId, k: nat)
    requires n in f.nodes && id in f.nodes[n].index && Job(k) !in f.nodes[n].tasks
    ensures var node := f.nodes[n];
            Steps(f, StopBegin(n, id, k), f.(nodes := f.nodes[n := WithTask(node, Job(k), Some(StopSettle(node.index[id])))]))
  {
  }

  lemma DeletePiece(f: Fleet, n: NodeId, id: DeploymentId, k: nat)
    requires n in f.nodes && id in f.nodes[n].index && Job(k) !in f.nodes[n].tasks
    ensures var node := f.nodes[n];
            Steps(f, DeleteBegin(n, id, k), f.(nodes := f.nodes[n :=
              WithTask(node, Job(k), Some(DeleteSettle(node.index[id]))).(index := node.index - {id})]))
  {
  }

  lemma ShutdownPiece(f: Fleet, n: NodeId, id: DeploymentId, k: nat)
    requires n in f.nodes && Job(k) !in f.nodes[n].tasks && id in f.nodes[n].index && f.nodes[n].index[id] in f.nodes[n].heap
    requires Paying(f.nodes[n].heap[f.nodes[n].index[id]], n)
    ensures Steps(f, ShutdownBegin(n, id, k), f.(nodes := f.nodes[n := WithTask(f.nodes[n], Job(k), Some(ShutdownRelease(id)))]))
  {
  }

  /** The step that records what the runtime says of one container. */
  lemma StartupPiece(f: Fleet, n: NodeId, id: DeploymentId, found: Option<ContainerStatus>)
    requires n in f.nodes && id in f.nodes[n].index && f.nodes[n].index[id] in f.nodes[n].heap
    ensures var node, ref := f.nodes[n], f.nodes[n].index[id];
            Steps(f, StartupStatus(n, id, found),
                  f.(nodes := f.nodes[n := node.(heap := node.heap[ref := node.heap[ref].(status := Reconciled(node.heap[ref].status, found))])]))
  {
  }

  lemma SweepPiece(f: Fleet, n: NodeId)
    requires n in f.nodes && forall t :: t in f.nodes[n].tasks ==> !t.Sweep?
    ensures Steps(f, SweepBegin(n), f.(nodes := f.nodes[n := SweepNode(f.nodes[n], n)]))
  {
  }

  lemma Replaced(others: map<NodeId, Node>, n: NodeId, before: Node, after: Node)
    ensures others[n := before][n := after] == others[n := after]
  {
  }

  /** The deployments a shutdown releases and finalizes. */
  predicate Paying(d: Deployment, n: NodeId) {
    d.status.Running? && d.started && d.originator == n
  }

  /** The record follows the report and keeps everything else. */
  predicate Tells(before: map<Ref, Deployment>, after: map<Ref, Deployment>, ref: Ref, found: Option<ContainerStatus>) {
    && ref in before && ref in after
    && after[ref] == before[ref].(status := after[ref].status)
    && Recovery.Follows(before[ref].status, Some(found), after[ref].status)
  }

  predicate Differs(before: map<Ref, Deployment>, after: map<Ref, Deployment>, ref: Ref) {
    ref in before && ref in after && before[ref].status != after[ref].status
  }

  /** The ids are known, each once, and point at objects of their own. */
  predicate Listed(heap: map<Ref, Deployment>, deployments: map<DeploymentId, Ref>, ids: seq<DeploymentId>) {
    && (forall k :: 0 <= k < |ids| ==> ids[k] in deployments && deployments[ids[k]] in heap && deployments[ids[k]].id == ids[k])
    && (forall j, k :: 0 <= j < k < |ids| ==> ids[j] != ids[k])
  }

  lemma ListedAt(heap: map<Ref, Deployment>, deployments: map<DeploymentId, Ref>, ids: seq<DeploymentId>, i: nat)
    requires Listed(heap, deployments, ids) && i < |ids|
    ensures ids[i] in deployments
  {
  }

  /** The first `i` of the records follow their reports, the others are as before; `changed` tells whether any differs. */
  ghost predicate Updates(before: map<Ref, Deployment>, after: map<Ref, Deployment>, deployments: map<DeploymentId, Ref>,
                          ids: seq<DeploymentId>, i: nat, lookup: DeploymentId -> Option<ContainerStatus>, changed: bool) {
    && i <= |ids| && Listed(before, deployments, ids)
    && (forall k :: 0 <= k < i ==> Tells(before, after, deployments[ids[k]], lookup(ids[k])))
    && (forall k :: i <= k < |ids| ==> deployments[ids[k]] in after && after[deployments[ids[k]]] == before[deployments[ids[k]]])
    && (changed <==> exists k :: 0 <= k < i && Differs(before, after, deployments[ids[k]]))
  }

  lemma UpdatesNone(heap: map<Ref, Deployment>, deployments: map<DeploymentId, Ref>, ids: seq<DeploymentId>,
                    lookup: DeploymentId -> Option<ContainerStatus>)
    requires Listed(heap, deployments, ids)
    ensures Updates(heap, heap, deployments, ids, 0, lookup, false)
  {
  }

  lemma UpdatesNext(before: map<Ref, Deployment>, was: map<Ref, Deployment>, after: map<Ref, Deployment>,
                    deployments: map<DeploymentId, Ref>, ids: seq<DeploymentId>, i: nat,
                    lookup: DeploymentId -> Option<ContainerStatus>, changed: bool, differs: bool)
    requires Updates(before, was, deployments, ids, i, lookup, changed) && i < |ids|
    requires var ref := deployments[ids[i]];
             && ref in after && after == was[ref := was[ref].(status := after[ref].status)]
             && Recovery.Follows(was[ref].status, Some(lookup(ids[i])), after[ref].status)
             && (differs <==> after[ref].status != was[ref].status)
    ensures Updates(before, after, deployments, ids, i + 1, lookup, changed || differs)
  {
    hide Recovery.Follows;
    var ref := deployments[ids[i]];
    assert forall k :: 0 <= k < |ids| && k != i ==> deployments[ids[k]] != ref && after[deployments[ids[k]]] == was[deployments[ids[k]]];
    if differs {
      assert Differs(before, after, deployments[ids[i]]);
    }
    if k :| 0 <= k < i && Differs(before, was, deployments[ids[k]]) {
      assert Differs(before, after, deployments[ids[k]]);
    }
  }

  function Lookups(n: NodeId, ids: seq<DeploymentId>, lookup: DeploymentId -> Option<ContainerStatus>): seq<Event> {
    if ids == [] then []
    else
      var last := ids[|ids| - 1];
      Lookups(n, ids[..|ids| - 1], lookup) + [StartupStatus(n, last, lookup(last))]
  }

  lemma {:induction false} LookupAt(n: NodeId, ids: seq<DeploymentId>, lookup: DeploymentId -> Option<ContainerStatus>)
    ensures var es := Lookups(n, ids, lookup);
            |es| == |ids| && forall i :: 0 <= i < |ids| ==> es[i] == StartupStatus(n, ids[i], lookup(ids[i]))
  {
    if ids != [] {
      LookupAt(n, ids[..|ids| - 1], lookup);
    }
  }

  lemma LookupsAre(n: NodeId, ids: seq<DeploymentId>, lookup: DeploymentId -> Option<ContainerStatus>)
    requires forall i, j :: 0 <= i < j < |ids| ==> ids[i] != ids[j]
    ensures var es := Lookups(n, ids, lookup);
            && Recovery.IsBoot(n, es) && Recovery.AskedOnce(es)
            && forall id :: id in ids ==> Recovery.Reports(es, n, id, Some(lookup(id)))
  {
    LookupAt(n, ids, lookup);
    hide Lookups;
    var es := Lookups(n, ids, lookup);
    forall id | id in ids
      ensures StartupStatus(n, id, lookup(id)) in es
    {
      var i :| 0 <= i < |ids| && ids[i] == id;
      assert es[i] == StartupStatus(n, id, lookup(id));
    }
  }

  class Manager {
    const self: NodeId
    const env: Oracle
    var asked: nat
    var world: E.World
    var heap: map<Ref, Deployment>
    var deployments: map<DeploymentId, Ref>
    var disk: map<DeploymentId, Deployment>
    var cache: map<DeploymentId, E.ReservationId>
    var pending: set<DeploymentId>
    ghost var tasks: map<TaskId, Task>
    ghost var others: map<NodeId, Node>
    ghost var book: map<DeploymentId, Entry>
    ghost var packets: set<Packet>
    ghost var calls: seq<Call>
    ghost var misled: set<DeploymentId>

    ghost predicate Valid()
      reads this`heap, this`deployments
    {
      Honest(env) && forall id :: id in deployments ==> deployments[id] in heap && deployments[id].id == id
    }

    ghost function Own(): Node
      reads this
    {
      Node(heap, deployments, disk, cache, tasks, pending)
    }

    ghost function View(): Fleet
      reads this
    {
      Fleet(others[self := Own()], world, book, packets, calls, misled)
    }

    method Ask(id: DeploymentId, a: E.Action) returns (entry: Option<E.ReservationId>, answer: E.Answer)
      requires Valid()
      modifies this`asked
      ensures entry == CacheEntry(Own(), id) && E.CanAnswer(world, entry, a, answer)
      ensures answer.Done? ==> id in cache
    {
      entry := if id in cache then Some(cache[id]) else None;
      answer := env(asked, world, entry, a);
      assert E.CanAnswer(world, entry, a, answer);
      asked := asked + 1;
    }

    /** Makes the escrow call of the operation `t`: one step of the fleet. */
    method Pay(ghost t: TaskId, id: DeploymentId, a: E.Action) returns (answer: E.Answer)
      requires Valid() && Calling(tasks, t, id, a)
      modifies this`asked, this`world, this`cache, this`tasks, this`calls, this`misled
      ensures Valid() && Steps(old(View()), Advance(self, t, answer), View())
      ensures E.CanAnswer(old(world), CacheEntry(old(Own()), id), a, answer)
      ensures tasks == Continued(old(tasks), t, AfterCall(old(tasks[t]), answer))
      ensures calls == old(calls) + [Call(self, id, a)]
      ensures cache == if answer.Done? && a.Ends() then old(cache) - {id} else old(cache)
      ensures answer.Done? ==> id in old(cache)
    {
      hide Steps, AfterCall, CallOf, IdOf, MisledStep, CacheEntry, Continued, Manager.Valid, E.After, E.CanAnswer;
      var entry;
      entry, answer := Ask(id, a);
      CallFields(View(), self, t, id, a, answer);
      misled := MisledStep(misled, E.After(world, entry, a, answer), Own(), Advance(self, t, answer));
      tasks := Continued(tasks, t, AfterCall(tasks[t], answer));
      world := E.After(world, entry, a, answer);
      if answer.Done? && a.Ends() {
        cache := cache - {id};
      }
      calls := calls + [Call(self, id, a)];
      Replaced(others, self, old(Own()), Own());
    }

    // -------------------------------------------------------------- pieces that make no call

    /** Sets EscrowFinalized on the object the operation holds. */
    method MarkHeld(ref: Ref, ghost k: nat)
      requires Valid() && ref in heap && Job(k) in tasks && (tasks[Job(k)] == StopMark(ref) || tasks[Job(k)] == DeleteMark(ref))
      modifies this`heap, this`tasks
      ensures Valid() && Steps(old(View()), Advance(self, Job(k), E.NoReservation), View())
      ensures heap == old(heap)[ref := old(heap)[ref].(escrowFinalized := true)]
      ensures tasks == old(tasks)[Job(k) := if old(tasks)[Job(k)].StopMark? then StopStatus(ref) else DeleteForget(ref.id)]
    {
      hide Steps;
      LocalPiece(View(), self, Job(k));
      heap := heap[ref := heap[ref].(escrowFinalized := true)];
      tasks := tasks[Job(k) := if tasks[Job(k)].StopMark? then StopStatus(ref) else DeleteForget(ref.id)];
      assert Own() == LocalStep(old(Own()), self, Job(k), Empty);
      Replaced(others, self, old(Own()), Own());
    }

    method FinishStop(ref: Ref, ghost k: nat)
      requires Valid() && ref in heap && Job(k) in tasks && tasks[Job(k)] == StopStatus(ref)
      modifies this`heap, this`tasks, this`pending
      ensures Valid() && Steps(old(View()), Advance(self, Job(k), E.NoReservation), View())
      ensures heap == old(heap)[ref := old(heap)[ref].(status := Stopped)]
      ensures tasks == old(tasks) - {Job(k)} && pending == old(pending) - {ref.id}
    {
      hide Steps;
      LocalPiece(View(), self, Job(k));
      pending := pending - {ref.id};
      heap := heap[ref := heap[ref].(status := Stopped)];
      tasks := tasks - {Job(k)};
      assert Own() == LocalStep(old(Own()), self, Job(k), Empty);
      Replaced(others, self, old(Own()), Own());
    }

    // -------------------------------------------------------------- Stop

    ghost method BeginStop(id: DeploymentId, k: nat) returns (es: seq<Event>)
      requires Valid() && id in deployments && Job(k) !in tasks
      modifies this`tasks
      ensures Runs(old(View()), es, View())
      ensures tasks == old(tasks)[Job(k) := StopBranch(heap[deployments[id]], self, deployments[id])]
    {
      hide Steps, Runs;
      var ref, was := deployments[id], tasks;
      RunsNothing(View());
      StopPiece(View(), self, id, k);
      tasks := tasks[Job(k) := StopSettle(ref)];
      Replaced(others, self, old(Own()), Own());
      RunsSnoc(old(View()), [], old(View()), StopBegin(self, id, k), View());
      var middle := View();
      LocalPiece(View(), self, Job(k));
      tasks := tasks[Job(k) := StopBranch(heap[ref], self, ref)];
      assert others[self := Own()] == middle.nodes[self := Own()];
      es := [StopBegin(self, id, k), Advance(self, Job(k), E.NoReservation)];
      assert [] + [StopBegin(self, id, k)] + [Advance(self, Job(k), E.NoReservation)] == es;
      RunsSnoc(old(View()), [] + [StopBegin(self, id, k)], middle, Advance(self, Job(k), E.NoReservation), View());
      assert tasks == was[Job(k) := StopBranch(heap[ref], self, ref)];
    }

    /** Release, finalize and mark as Stop does; afterwards only the status is left to set. */
    method SettleStop(ref: Ref, ghost k: nat) returns (finalized: bool, ghost es: seq<Event>)
      requires Valid() && ref in heap && Job(k) in tasks && tasks[Job(k)] == StopBranch(heap[ref], self, ref)
      modifies this`asked, this`world, this`cache, this`tasks, this`calls, this`misled, this`heap
      ensures Valid() && Runs(old(View()), es, View())
      ensures tasks == old(tasks)[Job(k) := StopStatus(ref)]
      ensures heap == if finalized then old(heap)[ref := old(heap)[ref].(escrowFinalized := true)] else old(heap)
      ensures finalized ==> old(heap)[ref].originator == self
      ensures cache == if finalized then old(cache) - {ref.id} else old(cache)
      ensures finalized ==> ref.id in old(cache)
      ensures var was := old(heap)[ref];
              calls == old(calls) +
                if was.originator != self then []
                else if was.started then [Call(self, ref.id, E.Release), Call(self, ref.id, E.Finalize)]
                else [Call(self, ref.id, E.Finalize)]
    {
      hide Steps, Runs, Manager.View, Manager.Own;
      RunsNothing(View());
      es, finalized := [], false;
      if heap[ref].originator == self {
        if heap[ref].started {
          var released := Pay(Job(k), ref.id, E.Release);
          RunsSnoc(old(View()), es, old(View()), Advance(self, Job(k), released), View());
          es := es + [Advance(self, Job(k), released)];
        }
        ghost var before := View();
        var answer := Pay(Job(k), ref.id, E.Finalize);
        RunsSnoc(old(View()), es, before, Advance(self, Job(k), answer), View());
        es := es + [Advance(self, Job(k), answer)];
        if answer.Done? {
          before := View();
          MarkHeld(ref, k);
          RunsSnoc(old(View()), es, before, Advance(self, Job(k), E.NoReservation), View());
          es := es + [Advance(self, Job(k), E.NoReservation)];
          finalized := true;
        }
      }
    }

    /**
     Stop: only the originator settles. It releases if the container had started,
     then finalizes, and sets the flag exactly if that was accepted.
     */
    method Stop(id: DeploymentId, containerStops: bool, ghost k: nat) returns (ok: bool, finalized: bool, ghost es: seq<Event>)
      requires Valid() && Job(k) !in tasks
      modifies this`asked, this`world, this`cache, this`tasks, this`calls, this`misled, this`heap, this`pending
      ensures Valid() && Runs(old(View()), es, View())
      ensures ok <==> id in old(deployments) && containerStops
      ensures !ok ==> es == [] && View() == old(View())
      ensures ok ==>
                var ref := deployments[id];
                var was := old(heap)[ref];
                && heap == old(heap)[ref := was.(status := Stopped, escrowFinalized := was.escrowFinalized || finalized)]
                && pending == old(pending) - {id}
                && (finalized ==> was.originator == self && id in old(cache))
                && cache == (if finalized then old(cache) - {id} else old(cache))
                && calls == old(calls) +
                     if was.originator != self then []
                     else if was.started then [Call(self, id, E.Release), Call(self, id, E.Finalize)]
                     else [Call(self, id, E.Finalize)]
    {
      hide Steps, Runs, Manager.View, Manager.Own, StopBranch;
      RunsNothing(View());
      es := [];
      finalized := false;
      if id !in deployments || !containerStops {
        return false, false, [];
      }
      var ref := deployments[id];
      es := BeginStop(id, k);
      ghost var before := View();
      ghost var more: seq<Event>;
      finalized, more := SettleStop(ref, k);
      RunsOn(old(View()), es, before, more, View());
      es := es + more;
      before := View();
      FinishStop(ref, k);
      RunsSnoc(old(View()), es, before, Advance(self, Job(k), E.NoReservation), View());
      es := es + [Advance(self, Job(k), E.NoReservation)];
      ok := true;
    }

    // -------------------------------------------------------------- Delete

    method BeginDelete(id: DeploymentId, ghost k: nat) returns (ghost es: seq<Event>)
      requires Valid() && id in deployments && Job(k) !in tasks
      modifies this`tasks, this`deployments
      ensures Valid() && Runs(old(View()), es, View())
      ensures deployments == old(deployments) - {id}
      ensures var ref := old(deployments)[id];
              tasks == old(tasks)[Job(k) := DeleteBranch(heap[ref], self, ref)]
    {
      hide Steps, Runs;
      ghost var ref, was := deployments[id], tasks;
      RunsNothing(View());
      DeletePiece(View(), self, id, k);
      deployments := deployments - {id};
      tasks := tasks[Job(k) := DeleteSettle(ref)];
      Replaced(others, self, old(Own()), Own());
      RunsSnoc(old(View()), [], old(View()), DeleteBegin(self, id, k), View());
      ghost var middle := View();
      LocalPiece(View(), self, Job(k));
      tasks := tasks[Job(k) := DeleteBranch(heap[ref], self, ref)];
      assert others[self := Own()] == middle.nodes[self := Own()];
      es := [] + [DeleteBegin(self, id, k)] + [Advance(self, Job(k), E.NoReservation)];
      RunsSnoc(old(View()), [] + [DeleteBegin(self, id, k)], middle, Advance(self, Job(k), E.NoReservation), View());
      assert tasks == was[Job(k) := DeleteBranch(heap[ref], self, ref)];
    }

    /** Finalize a deployment that ran, refund the rest; afterwards only the records are left to drop. */
    method SettleDelete(ref: Ref, ghost k: nat) returns (finalized: bool, ghost es: seq<Event>)
      requires Valid() && ref in heap && Job(k) in tasks && tasks[Job(k)] == DeleteBranch(heap[ref], self, ref)
      modifies this`asked, this`world, this`cache, this`tasks, this`calls, this`misled, this`heap
      ensures Valid() && Runs(old(View()), es, View())
      ensures tasks == old(tasks)[Job(k) := DeleteForget(ref.id)]
      ensures heap == if finalized then old(heap)[ref := old(heap)[ref].(escrowFinalized := true)] else old(heap)
      ensures finalized ==> old(heap)[ref].originator == self
      ensures cache == if finalized then old(cache) - {ref.id} else old(cache)
      ensures finalized ==> ref.id in old(cache)
      ensures var was := old(heap)[ref];
              calls == old(calls) +
                if was.originator != self then []
                else if was.status.Running? && was.started then [Call(self, ref.id, E.Release), Call(self, ref.id, E.Finalize)]
                else if was.status.Running? || was.status.Stopped? then [Call(self, ref.id, E.Finalize)]
                else [Call(self, ref.id, E.Refund)]
    {
      hide Steps, Runs, Manager.View, Manager.Own;
      RunsNothing(View());
      es, finalized := [], false;
      var d := heap[ref];
      if d.originator == self {
        var ending := if d.status.Stopped? || d.status.Running? then E.Finalize else E.Refund;
        if d.status.Running? && d.started {
          var released := Pay(Job(k), ref.id, E.Release);
          RunsSnoc(old(View()), es, old(View()), Advance(self, Job(k), released), View());
          es := es + [Advance(self, Job(k), released)];
        }
        ghost var before := View();
        var answer := Pay(Job(k), ref.id, ending);
        RunsSnoc(old(View()), es, before, Advance(self, Job(k), answer), View());
        es := es + [Advance(self, Job(k), answer)];
        if answer.Done? {
          before := View();
          MarkHeld(ref, k);
          RunsSnoc(old(View()), es, before, Advance(self, Job(k), E.NoReservation), View());
          es := es + [Advance(self, Job(k), E.NoReservation)];
          finalized := true;
        }
      }
    }

    method Forget(id: DeploymentId, ghost k: nat)
      requires Valid() && Job(k) in tasks && tasks[Job(k)] == DeleteForget(id)
      modifies this`disk, this`tasks, this`pending
      ensures Valid() && Steps(old(View()), Advance(self, Job(k), E.NoReservation), View())
      ensures disk == old(disk) - {id} && pending == old(pending) - {id} && tasks == old(tasks) - {Job(k)}
    {
      hide Steps;
      LocalPiece(View(), self, Job(k));
      pending := pending - {id};
      disk := disk - {id};
      tasks := tasks - {Job(k)};
      assert Own() == LocalStep(old(Own()), self, Job(k), Empty);
      Replaced(others, self, old(Own()), Own());
    }

    /** Delete: the record goes from memory, the tracker and the disk; only the originator ends the escrow. */
    method Delete(id: DeploymentId, ghost k: nat) returns (ok: bool, ghost es: seq<Event>)
      requires Valid() && Job(k) !in tasks
      modifies this`asked, this`world, this`cache, this`tasks, this`calls, this`misled, this`heap, this`pending, this`deployments, this`disk
      ensures Valid() && Runs(old(View()), es, View())
      ensures ok <==> id in old(deployments)
      ensures !ok ==> es == [] && View() == old(View())
      ensures ok ==>
                && deployments == old(deployments) - {id} && disk == old(disk) - {id} && pending == old(pending) - {id}
                && var was := old(heap)[old(deployments)[id]];
                   calls == old(calls) +
                     if was.originator != self then []
                     else if was.status.Running? && was.started then [Call(self, id, E.Release), Call(self, id, E.Finalize)]
                     else if was.status.Running? || was.status.Stopped? then [Call(self, id, E.Finalize)]
                     else [Call(self, id, E.Refund)]
    {
      hide Steps, Runs, Manager.View, Manager.Own, DeleteBranch;
      RunsNothing(View());
      es := [];
      if id !in deployments {
        return false, [];
      }
      var ref := deployments[id];
      es := BeginDelete(id, k);
      ghost var before := View();
      ghost var more: seq<Event>;
      var finalized;
      finalized, more := SettleDelete(ref, k);
      RunsOn(old(View()), es, before, more, View());
      es := es + more;
      before := View();
      Forget(id, k);
      RunsSnoc(old(View()), es, before, Advance(self, Job(k), E.NoReservation), View());
      es := es + [Advance(self, Job(k), E.NoReservation)];
      ok := true;
    }

    // -------------------------------------------------------------- the statuses at startup

    /** The ids whose containers are to be looked up, each once. */
    method Entries() returns (ids: seq<DeploymentId>)
      ensures forall id :: id in ids <==> id in deployments
      ensures forall i, j :: 0 <= i < j < |ids| ==> ids[i] != ids[j]
    {
      ids := [];
      var rest := deployments.Keys;
      while rest != {}
        invariant rest <= deployments.Keys
        invariant forall id :: id in ids <==> id in deployments && id !in rest
        invariant forall i, j :: 0 <= i < j < |ids| ==> ids[i] != ids[j]
        decreases |rest|
      {
        var id :| id in rest;
        rest := rest - {id};
        ids := ids + [id];
      }
    }

    /** One container: a missing one has stopped if it was thought running or pending, any other keeps what is reported. */
    method ReconcileOne(id: DeploymentId, found: Option<ContainerStatus>) returns (changed: bool)
      requires Valid() && id in deployments
      modifies this`heap
      ensures Valid() && Steps(old(View()), StartupStatus(self, id, found), View())
      ensures var ref, was := deployments[id], old(heap)[deployments[id]];
              && heap == old(heap)[ref := was.(status := heap[ref].status)]
              && Recovery.Follows(was.status, Some(found), heap[ref].status)
              && (changed <==> heap[ref].status != was.status)
    {
      hide Steps;
      StartupPiece(View(), self, id, found);
      var ref := deployments[id];
      var status := heap[ref].status;
      changed := false;
      assert heap[ref := heap[ref].(status := status)] == heap;
      if found.None? {
        if status.Running? || status.Pending? {
          heap := heap[ref := heap[ref].(status := Stopped)];
          changed := true;
        }
      } else if status != found.value {
        heap := heap[ref := heap[ref].(status := found.value)];
        changed := true;
      }
      assert Own() == old(Own()).(heap := old(heap)[ref := old(heap)[ref].(status := Reconciled(status, found))]);
      Replaced(others, self, old(Own()), Own());
    }

    method ReconcileEach(ids: seq<DeploymentId>, lookup: DeploymentId -> Option<ContainerStatus>) returns (changed: bool, ghost es: seq<Event>)
      requires Valid() && Listed(heap, deployments, ids)
      modifies this`heap
      ensures Valid() && Runs(old(View()), es, View()) && es == Lookups(self, ids, lookup)
      ensures Updates(old(heap), heap, deployments, ids, |ids|, lookup, changed)
    {
      hide Steps, Runs, Manager.View, Manager.Own, Updates, Listed, Recovery.Follows;
      ghost var start := View();
      RunsNothing(start);
      es, changed := [], false;
      UpdatesNone(heap, deployments, ids, lookup);
      for i := 0 to |ids|
        invariant Valid() && Runs(start, es, View())
        invariant es == Lookups(self, ids[..i], lookup)
        invariant Updates(old(heap), heap, deployments, ids, i, lookup, changed)
      {
        ListedAt(old(heap), deployments, ids, i);
        ghost var before, was := View(), heap;
        var differs := ReconcileOne(ids[i], lookup(ids[i]));
        RunsSnoc(start, es, before, StartupStatus(self, ids[i], lookup(ids[i])), View());
        es := es + [StartupStatus(self, ids[i], lookup(ids[i]))];
        assert ids[..i + 1][..i] == ids[..i];
        UpdatesNext(old(heap), was, heap, deployments, ids, i, lookup, changed, differs);
        changed := changed || differs;
      }
      assert ids[..|ids|] == ids;
    }

    /** Every known deployment's record follows the container runtime, and nothing but statuses changes. */
    method ReconcileOnStartup(lookup: DeploymentId -> Option<ContainerStatus>) returns (changed: bool, ghost es: seq<Event>)
      requires Valid()
      modifies this`heap
      ensures Valid() && Runs(old(View()), es, View()) && Recovery.IsBoot(self, es) && Recovery.AskedOnce(es)
      ensures forall id :: id in deployments ==> Recovery.Reports(es, self, id, Some(lookup(id)))
      ensures forall id :: id in deployments ==> Tells(old(heap), heap, deployments[id], lookup(id))
      ensures changed <==> exists id :: id in deployments && heap[deployments[id]].status != old(heap)[deployments[id]].status
    {
      hide Runs, Manager.View, Manager.Own, Lookups;
      var ids := Entries();
      changed, es := ReconcileEach(ids, lookup);
      LookupsAre(self, ids, lookup);
      hide Recovery.IsBoot, Recovery.AskedOnce, Recovery.Reports, Recovery.Follows;
      forall id | id in deployments
        ensures Tells(old(heap), heap, deployments[id], lookup(id))
      {
        var k :| 0 <= k < |ids| && ids[k] == id;
      }
      if id :| id in deployments && heap[deployments[id]].status != old(heap)[deployments[id]].status {
        var k :| 0 <= k < |ids| && ids[k] == id;
        assert Differs(old(heap), heap, deployments[ids[k]]);
      }
    }

    // -------------------------------------------------------------- the startup sweep

    /** The orphans: this daemon's stopped or failed deployments whose escrow is not flagged. */
    method CollectOrphans() returns (orphans: seq<DeploymentId>)
      requires Valid()
      ensures forall id :: id in orphans <==>
                             && id in deployments
                             && var d := heap[deployments[id]];
                             d.originator == self && !d.escrowFinalized && d.status in {Stopped, Failed}
      ensures forall id :: id in orphans <==> id in Orphans(Own(), self)
      ensures forall i, j :: 0 <= i < j < |orphans| ==> orphans[i] != orphans[j]
    {
      orphans := [];
      var rest := deployments.Keys;
      while rest != {}
        invariant rest <= deployments.Keys
        invariant forall id :: id in orphans <==> id in Orphans(Own(), self) && id !in rest
        invariant forall i, j :: 0 <= i < j < |orphans| ==> orphans[i] != orphans[j]
        decreases |rest|
      {
        var id :| id in rest;
        rest := rest - {id};
        var d := heap[deployments[id]];
        if d.originator == self && !d.escrowFinalized && (d.status.Stopped? || d.status.Failed?) {
          orphans := orphans + [id];
        }
      }
    }

    /** Warms the cache from the persisted reservation IDs, skipping those that are empty or do not parse. */
    method Rehydrate(orphans: seq<DeploymentId>)
      requires Valid() && forall id :: id in orphans ==> id in deployments
      modifies this`cache
      ensures cache == old(cache) + Warm(heap, deployments, orphans)
    {
      WarmNone(heap, deployments);
      hide Warm;
      for i := 0 to |orphans|
        invariant cache == old(cache) + Warm(heap, deployments, orphans[..i])
      {
        assert orphans[..i + 1] == orphans[..i] + [orphans[i]];
        WarmSnoc(heap, deployments, orphans[..i], orphans[i]);
        var field := heap[deployments[orphans[i]]].reservation;
        if field.Id? {
          cache := cache[orphans[i] := field.n];
        }
      }
      assert orphans[..|orphans|] == orphans;
    }

    /** Collects, rehydrates, and leaves one goroutine per orphan to run FinalizeOrphan. */
    method ReconcileEscrowsOnStartup() returns (orphans: seq<DeploymentId>)
      requires Valid() && forall t :: t in tasks ==> !t.Sweep?
      modifies this`cache, this`tasks
      ensures Valid() && Steps(old(View()), SweepBegin(self), View())
      ensures forall id :: id in orphans <==> id in Orphans(old(Own()), self)
      ensures forall id :: id in orphans ==> Sweep(id) in tasks && tasks[Sweep(id)] == SweepFinalize(id)
    {
      hide Steps, SweepNode, Orphans, Warm;
      orphans := CollectOrphans();
      SweepFields(View(), self, orphans);
      Rehydrate(orphans);
      tasks := SweepNode(old(Own()), self).tasks;
      Replaced(others, self, old(Own()), Own());
      forall id | id in orphans
        ensures Sweep(id) in tasks && tasks[Sweep(id)] == SweepFinalize(id)
      {
        Recovery.SweepTakesOrphans(old(Own()), self, id);
      }
    }

    /** One goroutine of the sweep. The flag is set on success and on an error that the classifier takes for the end. */
    method FinalizeOrphan(id: DeploymentId) returns (answer: E.Answer, ghost es: seq<Event>)
      requires Valid() && Sweep(id) in tasks && tasks[Sweep(id)] == SweepFinalize(id)
      modifies this`asked, this`world, this`cache, this`tasks, this`calls, this`misled, this`heap
      ensures Valid() && Runs(old(View()), es, View())
      ensures E.CanAnswer(old(world), CacheEntry(old(Own()), id), E.Finalize, answer)
      ensures tasks == old(tasks) - {Sweep(id)} && calls == old(calls) + [Call(self, id, E.Finalize)]
      ensures heap == if EscrowErrors.Concludes(answer) && id in deployments
                      then old(heap)[deployments[id] := old(heap)[deployments[id]].(escrowFinalized := true)]
                      else old(heap)
    {
      hide Steps, Runs, Manager.View, E.CanAnswer, EscrowErrors.IsAlreadyTerminal;
      RunsNothing(View());
      answer := Pay(Sweep(id), id, E.Finalize);
      RunsSnoc(old(View()), [], old(View()), Advance(self, Sweep(id), answer), View());
      es := [] + [Advance(self, Sweep(id), answer)];
      var settled := answer.Done?;
      if answer.Reverted? || answer.Lost? {
        settled := EscrowErrors.IsAlreadyTerminal(answer.err);
      }
      if settled {
        ghost var before := View();
        MarkEscrowFinalized(id);
        RunsSnoc(old(View()), es, before, Advance(self, Sweep(id), E.NoReservation), View());
        es := es + [Advance(self, Sweep(id), E.NoReservation)];
      }
    }

    method MarkEscrowFinalized(id: DeploymentId)
      requires Valid() && Sweep(id) in tasks && tasks[Sweep(id)] == SweepMark(id)
      modifies this`heap, this`tasks
      ensures Valid() && Steps(old(View()), Advance(self, Sweep(id), E.NoReservation), View())
      ensures tasks == old(tasks) - {Sweep(id)}
      ensures heap == if id in deployments
                      then old(heap)[deployments[id] := old(heap)[deployments[id]].(escrowFinalized := true)]
                      else old(heap)
    {
      hide Steps;
      LocalPiece(View(), self, Sweep(id));
      if id in deployments {
        heap := heap[deployments[id] := heap[deployments[id]].(escrowFinalized := true)];
      }
      tasks := tasks - {Sweep(id)};
      assert Own() == LocalStep(old(Own()), self, Sweep(id), Empty);
      Replaced(others, self, old(Own()), Own());
    }

    // -------------------------------------------------------------- shutdown

    method CollectRunning() returns (running: seq<DeploymentId>)
      requires Valid()
      ensures forall id :: id in running <==> id in deployments && heap[deployments[id]].status.Running? && heap[deployments[id]].started
      ensures forall i, j :: 0 <= i < j < |running| ==> running[i] != running[j]
    {
      running := [];
      var rest := deployments.Keys;
      while rest != {}
        invariant rest <= deployments.Keys
        invariant forall id :: id in running <==>
                                 id in deployments && id !in rest && heap[deployments[id]].status.Running? && heap[deployments[id]].started
        invariant forall i, j :: 0 <= i < j < |running| ==> running[i] != running[j]
        decreases |rest|
      {
        var id :| id in rest;
        rest := rest - {id};
        var d := heap[deployments[id]];
        if d.status.Running? && d.started {
          running := running + [id];
        }
      }
    }

    ghost method BeginShutdown(id: DeploymentId, k: nat)
      requires Valid() && Job(k) !in tasks && id in deployments && Paying(heap[deployments[id]], self)
      modifies this`tasks
      ensures Valid() && Steps(old(View()), ShutdownBegin(self, id, k), View())
      ensures tasks == old(tasks)[Job(k) := ShutdownRelease(id)]
    {
      hide Steps;
      ShutdownPiece(View(), self, id, k);
      tasks := tasks[Job(k) := ShutdownRelease(id)];
      Replaced(others, self, old(Own()), Own());
    }

    /** Release and finalize one running deployment; the flag is not set. */
    method ShutdownOne(id: DeploymentId, ghost k: nat) returns (ghost es: seq<Event>)
      requires Valid() && Job(k) !in tasks && id in deployments && Paying(heap[deployments[id]], self)
      modifies this`asked, this`world, this`cache, this`tasks, this`calls, this`misled
      ensures Valid() && Runs(old(View()), es, View())
      ensures tasks == old(tasks) && calls == old(calls) + [Call(self, id, E.Release), Call(self, id, E.Finalize)]
    {
      hide Steps, Runs, Paying, Manager.View, Manager.Own;
      ghost var start := View();
      RunsNothing(start);
      BeginShutdown(id, k);
      ghost var begun := View();
      RunsSnoc(start, [], start, ShutdownBegin(self, id, k), begun);
      es := [] + [ShutdownBegin(self, id, k)];
      var released := Pay(Job(k), id, E.Release);
      assert tasks == old(tasks)[Job(k) := ShutdownFinalize(id)];
      ghost var half := View();
      RunsSnoc(start, es, begun, Advance(self, Job(k), released), half);
      es := es + [Advance(self, Job(k), released)];
      var answer := Pay(Job(k), id, E.Finalize);
      assert tasks == old(tasks);
      RunsSnoc(start, es, half, Advance(self, Job(k), answer), View());
      es := es + [Advance(self, Job(k), answer)];
    }

    /** Every running deployment of this daemon, and no other, is released and then finalized; no flag changes. */
    method FinalizeAllEscrows(ghost k: nat) returns (paid: seq<DeploymentId>, ghost es: seq<Event>)
      requires Valid() && Job(k) !in tasks
      modifies this`asked, this`world, this`cache, this`tasks, this`calls, this`misled
      ensures Valid() && Runs(old(View()), es, View()) && tasks == old(tasks)
      ensures forall id :: id in paid <==>
                             && id in deployments
                             && var d := heap[deployments[id]];
                             d.status.Running? && d.started && d.originator == self
      ensures forall i, j :: 0 <= i < j < |paid| ==> paid[i] != paid[j]
      ensures calls == old(calls) + ShutdownCalls(self, paid)
    {
      var running := CollectRunning();
      OwnedAre(heap, deployments, running, self);
      paid, es := ShutdownEach(running, k);
    }

    method ShutdownEach(running: seq<DeploymentId>, ghost k: nat) returns (paid: seq<DeploymentId>, ghost es: seq<Event>)
      requires Valid() && Job(k) !in tasks
      requires forall id :: id in running ==> id in deployments && heap[deployments[id]].status.Running? && heap[deployments[id]].started
      modifies this`asked, this`world, this`cache, this`tasks, this`calls, this`misled
      ensures Valid() && Runs(old(View()), es, View()) && tasks == old(tasks)
      ensures paid == Owned(heap, deployments, running, self)
      ensures calls == old(calls) + ShutdownCalls(self, paid)
    {
      hide Steps, Runs, Manager.View, Manager.Own;
      ghost var start := View();
      RunsNothing(start);
      es, paid := [], [];
      for i := 0 to |running|
        invariant Valid() && Runs(start, es, View()) && tasks == old(tasks)
        invariant paid == Owned(heap, deployments, running[..i], self)
        invariant calls == old(calls) + ShutdownCalls(self, paid)
      {
        assert running[i] in running;
        assert running[..i + 1][..i] == running[..i];
        if heap[deployments[running[i]]].originator == self {
          ghost var before := View();
          ghost var more := ShutdownOne(running[i], k);
          RunsOn(start, es, before, more, View());
          es := es + more;
          ShutdownCallsSnoc(self, paid, running[i]);
          paid := paid + [running[i]];
        }
      }
      assert running[..|running|] == running;
    }
  }

  function Owned(heap: map<Ref, Deployment>, deployments: map<DeploymentId, Ref>, ids: seq<DeploymentId>, n: NodeId): seq<DeploymentId> {
    if ids == [] then []
    else
      var last := ids[|ids| - 1];
      Owned(heap, deployments, ids[..|ids| - 1], n) +
      if last in deployments && deployments[last] in heap && heap[deployments[last]].originator == n then [last] else []
  }

  lemma {:induction false} OwnedAre(heap: map<Ref, Deployment>, deployments: map<DeploymentId, Ref>, ids: seq<DeploymentId>, n: NodeId)
    requires forall i, j :: 0 <= i < j < |ids| ==> ids[i] != ids[j]
    ensures var owned := Owned(heap, deployments, ids, n);
            && (forall id :: id in owned <==> id in ids && id in deployments && deployments[id] in heap && heap[deployments[id]].originator == n)
            && (forall i, j :: 0 <= i < j < |owned| ==> owned[i] != owned[j])
  {
    if ids != [] {
      var before, last := ids[..|ids| - 1], ids[|ids| - 1];
      OwnedAre(heap, deployments, before, n);
      assert ids == before + [last];
    }
  }

  function ShutdownCalls(n: NodeId, ids: seq<DeploymentId>): seq<Call> {
    if ids == [] then []
    else
      var last := ids[|ids| - 1];
      ShutdownCalls(n, ids[..|ids| - 1]) + [Call(n, last, E.Release), Call(n, last, E.Finalize)]
  }

  lemma ShutdownCallsSnoc(n: NodeId, ids: seq<DeploymentId>, last: DeploymentId)
    ensures ShutdownCalls(n, ids + [last]) == ShutdownCalls(n, ids) + [Call(n, last, E.Release), Call(n, last, E.Finalize)]
  {
    assert (ids + [last])[..|ids|] == ids;
  }

  /** The reservations that persisted with the given deployments, where they parse. */
  function Warm(heap: map<Ref, Deployment>, index: map<DeploymentId, Ref>, ids: seq<DeploymentId>): map<DeploymentId, E.ReservationId> {
    map id | id in ids && id in index && index[id] in heap && heap[index[id]].reservation.Id? :: heap[index[id]].reservation.n
  }

  lemma WarmNone(heap: map<Ref, Deployment>, index: map<DeploymentId, Ref>)
    ensures Warm(heap, index, []) == map[]
  {
  }

  lemma WarmSnoc(heap: map<Ref, Deployment>, index: map<DeploymentId, Ref>, ids: seq<DeploymentId>, last: DeploymentId)
    requires last in index && index[last] in heap
    ensures var field := heap[index[last]].reservation;
            Warm(heap, index, ids + [last]) ==
              if field.Id? then Warm(heap, index, ids)[last := field.n] else Warm(heap, index, ids)
  {
  }

  lemma SweepFields(f: Fleet, n: NodeId, orphans: seq<DeploymentId>)
    requires n in f.nodes && (forall t :: t in f.nodes[n].tasks ==> !t.Sweep?)
    requires forall id :: id in f.nodes[n].index ==> f.nodes[n].index[id] in f.nodes[n].heap
    requires forall id :: id in orphans <==> id in Orphans(f.nodes[n], n)
    ensures forall id :: id in orphans ==> id in f.nodes[n].index
    ensures var node := f.nodes[n];
            Steps(f, SweepBegin(n), f.(nodes := f.nodes[n := node.(
              cache := node.cache + Warm(node.heap, node.index, orphans), tasks := SweepNode(node, n).tasks)]))
  {
    hide Steps;
    SweepPiece(f, n);
    SweepWarms(f.nodes[n], n, orphans);
  }

  lemma SweepWarms(node: Node, n: NodeId, orphans: seq<DeploymentId>)
    requires forall id :: id in orphans <==> id in Orphans(node, n)
    ensures SweepNode(node, n) == node.(cache := node.cache + Warm(node.heap, node.index, orphans), tasks := SweepNode(node, n).tasks)
  {
    WarmIsSwept(node, n, orphans);
    hide Warm, Orphans;
  }

  lemma WarmIsSwept(node: Node, n: NodeId, orphans: seq<DeploymentId>)
    requires forall id :: id in orphans <==> id in Orphans(node, n)
    ensures Warm(node.heap, node.index, orphans) ==
              map id | id in Orphans(node, n) && node.heap[node.index[id]].reservation.Id? :: node.heap[node.index[id]].reservation.n
  {
    hide IsOrphan;
  }
}
