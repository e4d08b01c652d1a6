/**
 What every run of the fleet keeps: the EscrowFinalized flag follows the chain, an
 accepted ending or an error that misled the sweep, and only the node that
 deployed a deployment calls its escrow.
 */
module FleetSafety {
  import opened Common
  import opened Fleet
  import E = Escrow
  import EscrowErrors

  // ---------------------------------------------------------------- invariant

  predicate SettlingField(w: E.World, field: ReservationField) {
    field.Id? && E.Settling(w, field.n)
  }

  /** The reservation is settling, or an error made the sweep of `id` think so. */
  predicate Excused(f: Fleet, id: DeploymentId, field: ReservationField) {
    field.Id? && (E.Settling(f.world, field.n) || id in f.misled)
  }

  /** A copy of deployment `id`: true to the book, and flagged only with an excuse. */
  predicate CopyOk(f: Fleet, id: DeploymentId, d: Deployment) {
    && id in f.book
    && d.originator == f.book[id].origin
    && d.reservation == f.book[id].reservation
    && (d.escrowFinalized ==> Excused(f, id, d.reservation))
  }

  predicate Owns(f: Fleet, n: NodeId, id: DeploymentId) {
    id in f.book && f.book[id].origin == n
  }

  predicate Acknowledged(f: Fleet, id: DeploymentId) {
    id in f.book && SettlingField(f.world, f.book[id].reservation)
  }

  predicate Cleared(f: Fleet, id: DeploymentId) {
    id in f.book && Excused(f, id, f.book[id].reservation)
  }

  ghost predicate TaskOk(f: Fleet, n: NodeId, node: Node, task: Task) {
    match task
    case StopSettle(ref) => ref in node.heap
    case StopRelease(ref) => ref in node.heap && Owns(f, n, ref.id)
    case StopFinalize(ref) => ref in node.heap && Owns(f, n, ref.id)
    case StopMark(ref) => ref in node.heap && Acknowledged(f, ref.id)
    case StopStatus(ref) => ref in node.heap
    case StartUpdate(ref) => ref in node.heap
    case DeleteSettle(ref) => ref in node.heap
    case DeleteRelease(ref) => ref in node.heap && Owns(f, n, ref.id)
    case DeleteFinalize(ref) => ref in node.heap && Owns(f, n, ref.id)
    case DeleteRefund(ref) => ref in node.heap && Owns(f, n, ref.id)
    case DeleteMark(ref) => ref in node.heap && Acknowledged(f, ref.id)
    case DeleteForget(_) => true
    case DriftRefund(id) => Owns(f, n, id)
    case ShutdownRelease(id) => Owns(f, n, id)
    case ShutdownFinalize(id) => Owns(f, n, id)
    case DeployRecord(id, _) => Owns(f, n, id)
    case DeployRefund(id) => Owns(f, n, id)
    case SweepFinalize(id) => Owns(f, n, id)
    case SweepMark(id) => Cleared(f, id)
    case Save(snapshot) => forall id :: id in snapshot ==> CopyOk(f, id, snapshot[id])
  }

  ghost predicate HeapOk(f: Fleet, node: Node) {
    forall ref :: ref in node.heap ==> CopyOk(f, ref.id, node.heap[ref])
  }

  ghost predicate IndexOk(node: Node) {
    forall id :: id in node.index ==> node.index[id].id == id && node.index[id] in node.heap
  }

  ghost predicate DiskOk(f: Fleet, node: Node) {
    forall id :: id in node.disk ==> CopyOk(f, id, node.disk[id])
  }

  ghost predicate CacheOk(f: Fleet, n: NodeId, node: Node) {
    forall id :: id in node.cache ==> Owns(f, n, id) && f.book[id].reservation == Id(node.cache[id])
  }

  /** The goroutine of an orphan works on that orphan and on nothing else, and no other operation does. */
  predicate Shaped(t: TaskId, task: Task) {
    if t.Sweep? then task == SweepFinalize(t.id) || task == SweepMark(t.id)
    else !task.SweepFinalize? && !task.SweepMark?
  }

  ghost predicate TasksOk(f: Fleet, n: NodeId, node: Node) {
    forall t :: t in node.tasks ==> TaskOk(f, n, node, node.tasks[t]) && Shaped(t, node.tasks[t])
  }

  ghost predicate PendingOk(f: Fleet, n: NodeId, node: Node) {
    forall id :: id in node.pending ==> Owns(f, n, id)
  }

  ghost predicate NodeOk(f: Fleet, n: NodeId, node: Node) {
    && HeapOk(f, node)
    && IndexOk(node)
    && DiskOk(f, node)
    && CacheOk(f, n, node)
    && TasksOk(f, n, node)
    && PendingOk(f, n, node)
  }

  ghost predicate NodesOk(f: Fleet) {
    forall n :: n in f.nodes ==> NodeOk(f, n, f.nodes[n])
  }

  ghost predicate PacketsOk(f: Fleet) {
    forall p :: p in f.packets ==> CopyOk(f, p.id, p.deployment)
  }

  ghost predicate CallsOk(f: Fleet) {
    forall i :: 0 <= i < |f.calls| ==> Owns(f, f.calls[i].node, f.calls[i].id)
  }

  ghost predicate Inv(f: Fleet) {
    NodesOk(f) && PacketsOk(f) && CallsOk(f) && E.Tidy(f.world)
  }

  /** A fleet just powered on: nothing in memory, and disks that a previous life left with honest flags. */
  ghost predicate Init(f: Fleet) {
    && f.packets == {}
    && f.calls == []
    && f.misled == {}
    && E.Tidy(f.world)
    && (forall n :: n in f.nodes ==> f.nodes[n] == CrashNode(f.nodes[n]) && DiskOk(f, f.nodes[n]))
  }

  // ---------------------------------------------------------------- the rest of the world moves

  /** The book only grows and nothing that was settling stops settling. */
  ghost predicate Extends(f: Fleet, f': Fleet) {
    && E.Advances(f.world, f'.world)
    && (forall id :: id in f.book ==> id in f'.book && f'.book[id] == f.book[id])
    && f.misled <= f'.misled
  }

  lemma TaskKept(f: Fleet, f': Fleet, n: NodeId, node: Node, node': Node, task: Task)
    requires Extends(f, f') && TaskOk(f, n, node, task)
    requires forall ref :: ref in node.heap ==> ref in node'.heap
    ensures TaskOk(f', n, node', task)
  {
  }

  lemma NodeKept(f: Fleet, f': Fleet, n: NodeId, node: Node)
    requires Extends(f, f') && NodeOk(f, n, node)
    ensures NodeOk(f', n, node)
  {
    forall t | t in node.tasks
      ensures TaskOk(f', n, node, node.tasks[t])
    {
      TaskKept(f, f', n, node, node, node.tasks[t]);
    }
  }

  lemma RestKept(f: Fleet, f': Fleet)
    requires Inv(f) && Extends(f, f')
    ensures forall n :: n in f.nodes ==> NodeOk(f', n, f.nodes[n])
    ensures forall p :: p in f.packets ==> CopyOk(f', p.id, p.deployment)
    ensures forall i :: 0 <= i < |f.calls| ==> Owns(f', f.calls[i].node, f.calls[i].id)
    ensures E.Tidy(f'.world)
  {
    forall n | n in f.nodes
      ensures NodeOk(f', n, f.nodes[n])
    {
      NodeKept(f, f', n, f.nodes[n]);
    }
  }

  lemma StepExtends(f: Fleet, e: Event)
    requires Enabled(f, e)
    ensures Extends(f, Step(f, e))
  {
    if e.ChainStep? || e.DeployOpen? {
      E.MoveAdvances(f.world, e.r, if e.ChainStep? then e.a else E.Create);
    } else if EventCall(f.nodes[e.n], e).Some? {
      var (id, a, answer) := EventCall(f.nodes[e.n], e).value;
      E.AfterAdvances(f.world, CacheEntry(f.nodes[e.n], id), a, answer);
    }
  }

  // ---------------------------------------------------------------- one node

  /** Objects changed in place keep the invariant when each new object is true to the book. */
  lemma HeapChanged(f: Fleet, n: NodeId, node: Node, ref: Ref, d: Deployment)
    requires NodeOk(f, n, node) && CopyOk(f, ref.id, d)
    ensures NodeOk(f, n, node.(heap := node.heap[ref := d]))
  {
    var node' := node.(heap := node.heap[ref := d]);
    forall t | t in node'.tasks
      ensures TaskOk(f, n, node', node'.tasks[t])
    {
      TaskKept(f, f, n, node, node', node.tasks[t]);
    }
  }

  lemma TaskChanged(f: Fleet, n: NodeId, node: Node, t: TaskId, task: Option<Task>)
    requires NodeOk(f, n, node)
    requires task.Some? ==> TaskOk(f, n, node, task.value) && Shaped(t, task.value)
    ensures NodeOk(f, n, WithTask(node, t, task))
  {
    var node' := WithTask(node, t, task);
    forall u | u in node'.tasks
      ensures TaskOk(f, n, node', node'.tasks[u])
    {
      TaskKept(f, f, n, node, node', if u == t && task.Some? then task.value else node.tasks[u]);
    }
  }

  lemma IndexShrunk(f: Fleet, n: NodeId, node: Node, id: DeploymentId)
    requires NodeOk(f, n, node)
    ensures NodeOk(f, n, node.(index := node.index - {id}))
  {
    var node' := node.(index := node.index - {id});
    forall t | t in node'.tasks
      ensures TaskOk(f, n, node', node'.tasks[t])
    {
      TaskKept(f, f, n, node, node', node.tasks[t]);
    }
  }

  /** A new or reloaded object under a new map entry. */
  lemma ObjectAdded(f: Fleet, n: NodeId, node: Node, ref: Ref, d: Deployment)
    requires NodeOk(f, n, node) && CopyOk(f, ref.id, d)
    ensures NodeOk(f, n, node.(heap := node.heap[ref := d], index := node.index[ref.id := ref]))
  {
    HeapChanged(f, n, node, ref, d);
    var node' := node.(heap := node.heap[ref := d], index := node.index[ref.id := ref]);
    forall t | t in node'.tasks
      ensures TaskOk(f, n, node', node'.tasks[t])
    {
      TaskKept(f, f, n, node, node', node.tasks[t]);
    }
  }

  /** Changes that leave the objects and the tasks alone. */
  lemma MarginChanged(f: Fleet, n: NodeId, node: Node, node': Node)
    requires NodeOk(f, n, node)
    requires node'.heap == node.heap && node'.index == node.index && node'.tasks == node.tasks
    requires DiskOk(f, node') && CacheOk(f, n, node') && PendingOk(f, n, node')
    ensures NodeOk(f, n, node')
  {
    forall t | t in node'.tasks
      ensures TaskOk(f, n, node', node'.tasks[t])
    {
      TaskKept(f, f, n, node, node', node.tasks[t]);
    }
  }

  lemma ObjectAt(f: Fleet, n: NodeId, node: Node, ref: Ref)
    requires NodeOk(f, n, node) && ref in node.heap
    ensures CopyOk(f, ref.id, node.heap[ref])
  {
  }

  lemma TaskAt(f: Fleet, n: NodeId, node: Node, t: TaskId)
    requires NodeOk(f, n, node) && t in node.tasks
    ensures TaskOk(f, n, node, node.tasks[t]) && Shaped(t, node.tasks[t])
  {
  }

  lemma EntryAt(f: Fleet, n: NodeId, node: Node, id: DeploymentId)
    requires NodeOk(f, n, node) && id in node.index
    ensures node.index[id].id == id && node.index[id] in node.heap
  {
  }

  /** Dropping pending trackers, cached reservations or disk entries. */
  lemma MarginShrunk(f: Fleet, n: NodeId, node: Node, node': Node)
    requires NodeOk(f, n, node)
    requires node'.heap == node.heap && node'.index == node.index && node'.tasks == node.tasks
    requires node'.pending <= node.pending
    requires forall id :: id in node'.cache ==> id in node.cache && node'.cache[id] == node.cache[id]
    requires forall id :: id in node'.disk ==> id in node.disk && node'.disk[id] == node.disk[id]
    ensures NodeOk(f, n, node')
  {
    MarginChanged(f, n, node, node');
  }

  /** A changed object and the next task of the operation that changed it. */
  lemma ObjectAndTask(f: Fleet, n: NodeId, node: Node, ref: Ref, d: Deployment, t: TaskId, task: Option<Task>)
    requires NodeOk(f, n, node) && CopyOk(f, ref.id, d)
    requires task.Some? ==> TaskOk(f, n, node.(heap := node.heap[ref := d]), task.value) && Shaped(t, task.value)
    ensures NodeOk(f, n, WithTask(node.(heap := node.heap[ref := d]), t, task))
  {
    hide NodeOk;
    HeapChanged(f, n, node, ref, d);
    TaskChanged(f, n, node.(heap := node.heap[ref := d]), t, task);
  }

  lemma FlagSet(f: Fleet, n: NodeId, node: Node, ref: Ref, t: TaskId, task: Option<Task>)
    requires NodeOk(f, n, node) && ref in node.heap && Cleared(f, ref.id)
    requires task.Some? ==> TaskOk(f, n, SetFlag(node, ref), task.value) && Shaped(t, task.value)
    ensures NodeOk(f, n, WithTask(SetFlag(node, ref), t, task))
  {
    ObjectAt(f, n, node, ref);
    ObjectAndTask(f, n, node, ref, node.heap[ref].(escrowFinalized := true), t, task);
  }

  lemma DeployRecordOk(f: Fleet, n: NodeId, node: Node, t: TaskId)
    requires NodeOk(f, n, node)
    requires t in node.tasks && node.tasks[t].DeployRecord? && node.tasks[t].id in f.book
    ensures NodeOk(f, n, LocalStep(node, n, t, f.book[node.tasks[t].id].reservation))
  {
    var id := node.tasks[t].id;
    var field := f.book[id].reservation;
    TaskAt(f, n, node, t);
    var d := Deployment(if node.tasks[t].running then Running else Pending, n, field, false, node.tasks[t].running);
    TaskChanged(f, n, node, t, None);
    var node1 := WithTask(node, t, None);
    ObjectAdded(f, n, node1, Ref(id, 0), d);
    var node2 := node1.(heap := node1.heap[Ref(id, 0) := d], index := node1.index[id := Ref(id, 0)]);
    MarginChanged(f, n, node2, LocalStep(node, n, t, field));
  }

  /** An operation piece without an escrow call. */
  lemma LocalStepOk(f: Fleet, n: NodeId, node: Node, t: TaskId, field: ReservationField)
    requires NodeOk(f, n, node)
    requires t in node.tasks && CallOf(node.tasks[t]).None? && !node.tasks[t].Save?
    requires RefHeld(node, node.tasks[t])
    requires node.tasks[t].DeployRecord? ==>
               node.tasks[t].id in f.book && field == f.book[node.tasks[t].id].reservation
    ensures NodeOk(f, n, LocalStep(node, n, t, field))
  {
    hide NodeOk;
    TaskAt(f, n, node, t);
    match node.tasks[t]
    case StopSettle(ref) =>
      ObjectAt(f, n, node, ref);
      TaskChanged(f, n, node, t, Some(StopBranch(node.heap[ref], n, ref)));
    case StopMark(ref) => FlagSet(f, n, node, ref, t, Some(StopStatus(ref)));
    case StopStatus(ref) =>
      ObjectAt(f, n, node, ref);
      ObjectAndTask(f, n, node, ref, node.heap[ref].(status := Stopped), t, None);
      MarginShrunk(f, n, WithTask(SetStatus(node, ref, Stopped), t, None), LocalStep(node, n, t, field));
    case StartUpdate(ref) =>
      ObjectAt(f, n, node, ref);
      ObjectAndTask(f, n, node, ref, node.heap[ref].(status := Running, started := true), t, None);
    case DeleteSettle(ref) =>
      ObjectAt(f, n, node, ref);
      TaskChanged(f, n, node, t, Some(DeleteBranch(node.heap[ref], n, ref)));
    case DeleteMark(ref) => FlagSet(f, n, node, ref, t, Some(DeleteForget(ref.id)));
    case DeleteForget(id) =>
      TaskChanged(f, n, node, t, None);
      MarginShrunk(f, n, WithTask(node, t, None), LocalStep(node, n, t, field));
    case DeployRecord(id, running) => DeployRecordOk(f, n, node, t);
    case SweepMark(id) =>
      if id in node.index {
        EntryAt(f, n, node, id);
        FlagSet(f, n, node, node.index[id], t, None);
      } else {
        TaskChanged(f, n, node, t, None);
      }
    case _ =>
  }

  /** What follows an escrow call is justified by its answer, or excused. */
  lemma CallSettles(f: Fleet, f': Fleet, n: NodeId, node: Node, t: TaskId, answer: E.Answer)
    requires NodeOk(f, n, node) && Extends(f, f')
    requires t in node.tasks && CallOf(node.tasks[t]).Some?
    requires E.CanAnswer(f.world, CacheEntry(node, IdOf(node.tasks[t])), CallOf(node.tasks[t]).value, answer)
    requires f'.world == E.After(f.world, CacheEntry(node, IdOf(node.tasks[t])), CallOf(node.tasks[t]).value, answer)
    requires Misleads(node, t, answer, f'.world) ==> IdOf(node.tasks[t]) in f'.misled
    ensures var next := AfterCall(node.tasks[t], answer);
            next.Some? ==> TaskOk(f', n, node, next.value)
  {
    hide NodeOk, TaskOk, EscrowErrors.Concludes;
    var task := node.tasks[t];
    var entry := CacheEntry(node, IdOf(task));
    TaskAt(f, n, node, t);
    TaskKept(f, f', n, node, node, task);
    E.AfterAdvances(f.world, entry, CallOf(task).value, answer);
    if entry.Some? {
      CacheAt(f, n, node, IdOf(task));
    } else {
      NothingToConclude(answer);
    }
    NextTaskOk(f', n, node, task, answer);
  }

  lemma NothingToConclude(answer: E.Answer)
    ensures answer.NoReservation? ==> !EscrowErrors.Concludes(answer)
  {
  }

  lemma NextTaskOk(f: Fleet, n: NodeId, node: Node, task: Task, answer: E.Answer)
    requires CallOf(task).Some? && TaskOk(f, n, node, task)
    requires answer.Done? && CallOf(task).value.Ends() ==> Acknowledged(f, IdOf(task))
    requires task.SweepFinalize? && EscrowErrors.Concludes(answer) ==> Cleared(f, IdOf(task))
    ensures var next := AfterCall(task, answer);
            next.Some? ==> TaskOk(f, n, node, next.value)
  {
    hide EscrowErrors.Concludes;
  }

  lemma CacheAt(f: Fleet, n: NodeId, node: Node, id: DeploymentId)
    requires NodeOk(f, n, node) && id in node.cache
    ensures Owns(f, n, id) && f.book[id].reservation == Id(node.cache[id])
  {
  }

  /** The daemon's side of an escrow call; `f'` is the fleet after the call. */
  lemma CallStepOk(f: Fleet, f': Fleet, n: NodeId, node: Node, t: TaskId, answer: E.Answer)
    requires NodeOk(f, n, node) && Extends(f, f')
    requires t in node.tasks && CallOf(node.tasks[t]).Some?
    requires E.CanAnswer(f.world, CacheEntry(node, IdOf(node.tasks[t])), CallOf(node.tasks[t]).value, answer)
    requires f'.world == E.After(f.world, CacheEntry(node, IdOf(node.tasks[t])), CallOf(node.tasks[t]).value, answer)
    requires Misleads(node, t, answer, f'.world) ==> IdOf(node.tasks[t]) in f'.misled
    ensures NodeOk(f', n, CallStep(node, t, answer))
  {
    hide NodeOk;
    var task := node.tasks[t];
    TaskAt(f, n, node, t);
    NodeKept(f, f', n, node);
    CallSettles(f, f', n, node, t, answer);
    var next := AfterCall(task, answer);
    TaskChanged(f', n, node, t, next);
    MarginShrunk(f', n, WithTask(node, t, next), CallStep(node, t, answer));
  }

  lemma SweepOk(f: Fleet, n: NodeId, node: Node)
    requires NodeOk(f, n, node)
    ensures NodeOk(f, n, SweepNode(node, n))
  {
    var node' := SweepNode(node, n);
    forall t | t in node'.tasks
      ensures TaskOk(f, n, node', node'.tasks[t])
    {
      if t in node.tasks && node'.tasks[t] == node.tasks[t] {
        TaskKept(f, f, n, node, node', node.tasks[t]);
      } else {
        assert t.Sweep? && t.id in Orphans(node, n);
      }
    }
  }

  lemma LoadOk(f: Fleet, n: NodeId, node: Node, g: nat)
    requires NodeOk(f, n, node)
    ensures NodeOk(f, n, LoadNode(node, g))
  {
    var node' := LoadNode(node, g);
    var refs := map id | id in node.disk :: Ref(id, g);
    forall id | id in node'.index
      ensures node'.index[id].id == id && node'.index[id] in node'.heap
    {
      if id in node.disk {
        assert refs[id] in refs.Values;
      }
    }
    forall t | t in node'.tasks
      ensures TaskOk(f, n, node', node'.tasks[t])
    {
      TaskKept(f, f, n, node, node', node.tasks[t]);
    }
  }

  // ---------------------------------------------------------------- one step

  lemma DeployBegun(f: Fleet, n: NodeId, node: Node, id: DeploymentId, running: bool, k: nat, entry: Option<E.ReservationId>)
    requires NodeOk(f, n, node) && Owns(f, n, id)
    requires entry.Some? ==> f.book[id].reservation == Id(entry.value)
    ensures NodeOk(f, n, WithTask(node, Job(k), Some(DeployRecord(id, running)))
                           .(cache := if entry.Some? then node.cache[id := entry.value] else node.cache))
  {
    TaskChanged(f, n, node, Job(k), Some(DeployRecord(id, running)));
    var node' := WithTask(node, Job(k), Some(DeployRecord(id, running)));
    MarginChanged(f, n, node', node'.(cache := if entry.Some? then node.cache[id := entry.value] else node.cache));
  }

  lemma SavePutOk(f: Fleet, n: NodeId, node: Node, t: TaskId, id: DeploymentId)
    requires NodeOk(f, n, node)
    requires t in node.tasks && node.tasks[t].Save? && id in node.tasks[t].snapshot
    ensures NodeOk(f, n, node.(disk := node.disk[id := node.tasks[t].snapshot[id]],
                               tasks := node.tasks[t := Save(node.tasks[t].snapshot - {id})]))
  {
    TaskAt(f, n, node, t);
    var rest := Save(node.tasks[t].snapshot - {id});
    TaskChanged(f, n, node, t, Some(rest));
    var node' := WithTask(node, t, Some(rest));
    MarginChanged(f, n, node', node'.(disk := node.disk[id := node.tasks[t].snapshot[id]]));
  }

  lemma SaveReplaceOk(f: Fleet, n: NodeId, node: Node, t: TaskId)
    requires NodeOk(f, n, node) && t in node.tasks && node.tasks[t].Save?
    ensures NodeOk(f, n, WithTask(node, t, None).(disk := node.tasks[t].snapshot))
  {
    TaskAt(f, n, node, t);
    TaskChanged(f, n, node, t, None);
    var node' := WithTask(node, t, None);
    MarginChanged(f, n, node', node'.(disk := node.tasks[t].snapshot));
  }

  lemma SnapshotOk(f: Fleet, n: NodeId, node: Node, k: nat)
    requires NodeOk(f, n, node)
    ensures var snapshot := map id | id in node.index && node.index[id] in node.heap :: node.heap[node.index[id]];
            NodeOk(f, n, WithTask(node, Job(k), Some(Save(snapshot))))
  {
    var snapshot := map id | id in node.index && node.index[id] in node.heap :: node.heap[node.index[id]];
    TaskChanged(f, n, node, Job(k), Some(Save(snapshot)));
  }

  lemma StatusChanged(f: Fleet, n: NodeId, node: Node, ref: Ref, status: ContainerStatus)
    requires NodeOk(f, n, node) && ref in node.heap
    ensures NodeOk(f, n, SetStatus(node, ref, status))
  {
    ObjectAt(f, n, node, ref);
    HeapChanged(f, n, node, ref, node.heap[ref].(status := status));
  }

  /** Events that start an operation on an indexed deployment, or change its status. */
  lemma OperationBegun(f: Fleet, f': Fleet, n: NodeId, node: Node, e: Event)
    requires NodeOk(f', n, node) && !e.ChainStep? && NodeEnabled(f, n, node, e)
    requires e.StopBegin? || e.StartBegin? || e.DeleteBegin? || e.Drift? || e.ShutdownBegin? || e.StartupStatus?
    ensures NodeOk(f', n, NodeStep(f, n, node, e))
  {
    hide NodeOk;
    EntryAt(f', n, node, e.id);
    var ref := node.index[e.id];
    ObjectAt(f', n, node, ref);
    if e.StopBegin? {
      TaskChanged(f', n, node, Job(e.k), Some(StopSettle(ref)));
    } else if e.StartBegin? {
      TaskChanged(f', n, node, Job(e.k), Some(StartUpdate(ref)));
    } else if e.DeleteBegin? {
      TaskChanged(f', n, node, Job(e.k), Some(DeleteSettle(ref)));
      IndexShrunk(f', n, WithTask(node, Job(e.k), Some(DeleteSettle(ref))), e.id);
    } else if e.Drift? {
      StatusChanged(f', n, node, ref, e.actual);
      TaskChanged(f', n, SetStatus(node, ref, e.actual), Job(e.k),
                  if e.hasWallet && node.heap[ref].originator == n then Some(DriftRefund(e.id)) else None);
    } else if e.ShutdownBegin? {
      TaskChanged(f', n, node, Job(e.k), Some(ShutdownRelease(e.id)));
    } else {
      StatusChanged(f', n, node, ref, Reconciled(node.heap[ref].status, e.found));
    }
  }

  /** The node that took the step, in the fleet as it is after the step. */
  lemma NodeStepOk(f: Fleet, e: Event)
    requires Inv(f) && Enabled(f, e) && !e.ChainStep?
    ensures NodeOk(Step(f, e), e.n, Step(f, e).nodes[e.n])
  {
    hide NodeOk;
    var f' := Step(f, e);
    var n := e.n;
    var node := f.nodes[n];
    StepExtends(f, e);
    assert NodeOk(f, n, node);
    NodeKept(f, f', n, node);
    if e.DeployExternal? {
      DeployBegun(f', n, node, e.id, e.running, e.k, Some(e.r));
    } else if e.DeployOpen? {
      DeployBegun(f', n, node, e.id, e.running, e.k, if e.parsed then Some(e.r) else None);
    } else if e.DeployFail? {
      TaskAt(f', n, node, e.t);
      TaskChanged(f', n, node, e.t, Some(DeployRefund(node.tasks[e.t].id)));
    } else if e.Deliver? {
      assert CopyOk(f, e.packet.id, e.packet.deployment);
      ObjectAdded(f', n, node, Ref(e.packet.id, e.generation),
                  e.packet.deployment.(originator := f.book[e.packet.id].origin));
    } else if e.Advance? {
      if CallOf(node.tasks[e.t]).Some? {
        CallStepOk(f, f', n, node, e.t, e.answer);
      } else {
        var task := node.tasks[e.t];
        LocalStepOk(f', n, node, e.t, if task.DeployRecord? then f.book[task.id].reservation else Empty);
      }
    } else {
      OtherStepOk(f, f', n, node, e);
    }
  }

  /** Events that neither deploy, deliver nor advance an operation. */
  lemma OtherStepOk(f: Fleet, f': Fleet, n: NodeId, node: Node, e: Event)
    requires NodeOk(f', n, node) && !e.ChainStep? && NodeEnabled(f, n, node, e)
    requires !e.DeployExternal? && !e.DeployOpen? && !e.DeployFail? && !e.Deliver? && !e.Advance?
    ensures NodeOk(f', n, NodeStep(f, n, node, e))
  {
    hide NodeOk;
    match e
    case Activate(_, id, _, _, _, _) => MarginShrunk(f', n, node, NodeStep(f, n, node, e));
    case ExpirePending(_, id) => MarginShrunk(f', n, node, NodeStep(f, n, node, e));
    case Evict(_, id) => MarginShrunk(f', n, node, NodeStep(f, n, node, e));
    case Abandon(_, t) => TaskChanged(f', n, node, t, None);
    case SaveBegin(_, k) => SnapshotOk(f', n, node, k);
    case SavePut(_, t, id) => SavePutOk(f', n, node, t, id);
    case SaveReplace(_, t) => SaveReplaceOk(f', n, node, t);
    case Crash(_) => CrashOk(f', n, node);
    case Load(_, g) => LoadOk(f', n, node, g);
    case SweepBegin(_) => SweepOk(f', n, node);
    case Broadcast(_, _) =>
    case _ => OperationBegun(f, f', n, node, e);
  }

  lemma CrashOk(f: Fleet, n: NodeId, node: Node)
    requires NodeOk(f, n, node)
    ensures NodeOk(f, n, CrashNode(node))
  {
  }

  /** An event that calls the escrow of `id` happens at the node that deployed `id`. */
  lemma CallerOwns(f: Fleet, e: Event)
    requires Inv(f) && Enabled(f, e) && !e.ChainStep?
    requires EventCall(f.nodes[e.n], e).Some?
    ensures Owns(f, e.n, EventCall(f.nodes[e.n], e).value.0)
  {
    assert NodeOk(f, e.n, f.nodes[e.n]);
    if e.Advance? {
      assert TaskOk(f, e.n, f.nodes[e.n], f.nodes[e.n].tasks[e.t]);
    }
  }

  lemma BroadcastOk(f: Fleet, f': Fleet, e: Event)
    requires Enabled(f, e) && e.Broadcast? && NodeOk(f', e.n, f.nodes[e.n])
    ensures CopyOk(f', e.id, f.nodes[e.n].heap[f.nodes[e.n].index[e.id]])
  {
    EntryAt(f', e.n, f.nodes[e.n], e.id);
    ObjectAt(f', e.n, f.nodes[e.n], f.nodes[e.n].index[e.id]);
  }

  lemma StepKeepsInv(f: Fleet, e: Event)
    requires Inv(f) && Enabled(f, e)
    ensures Inv(Step(f, e))
  {
    hide NodeOk, NodeStep, WorldStep, CopyOk, Extends, NodeEnabled;
    var f' := Step(f, e);
    StepExtends(f, e);
    RestKept(f, f');
    if !e.ChainStep? {
      NodeStepOk(f, e);
      if EventCall(f.nodes[e.n], e).Some? {
        CallerOwns(f, e);
        CallKept(f, f', e);
      }
      if e.Broadcast? {
        BroadcastOk(f, f', e);
      }
    }
  }

  lemma CallKept(f: Fleet, f': Fleet, e: Event)
    requires Extends(f, f') && !e.ChainStep? && e.n in f.nodes
    requires EventCall(f.nodes[e.n], e).Some? && Owns(f, e.n, EventCall(f.nodes[e.n], e).value.0)
    ensures Owns(f', e.n, EventCall(f.nodes[e.n], e).value.0)
  {
  }

  // ---------------------------------------------------------------- whole runs

  lemma {:induction false} RunKeepsInv(f: Fleet, es: seq<Event>)
    requires Inv(f) && IsRun(f, es)
    ensures Inv(Run(f, es))
    decreases |es|
  {
    hide Inv, Step, Enabled;
    if es != [] {
      StepKeepsInv(f, es[0]);
      RunKeepsInv(Step(f, es[0]), es[1..]);
    }
  }

  lemma {:induction false} RunsJoin(f: Fleet, a: seq<Event>, b: seq<Event>)
    requires IsRun(f, a) && IsRun(Run(f, a), b)
    ensures IsRun(f, a + b) && Run(f, a + b) == Run(Run(f, a), b)
    decreases |a|
  {
    hide Step, Enabled;
    if a == [] {
      assert a + b == b;
    } else {
      RunsJoin(Step(f, a[0]), a[1..], b);
      assert (a + b)[0] == a[0] && (a + b)[1..] == a[1..] + b;
    }
  }

  lemma InitInv(f: Fleet)
    requires Init(f)
    ensures Inv(f)
  {
  }

  ghost predicate HeldInMemory(node: Node, id: DeploymentId, d: Deployment) {
    exists ref :: ref in node.heap && ref.id == id && node.heap[ref] == d
  }

  ghost predicate BeingSaved(node: Node, id: DeploymentId, d: Deployment) {
    exists t :: t in node.tasks && node.tasks[t].Save? && id in node.tasks[t].snapshot && node.tasks[t].snapshot[id] == d
  }

  ghost predicate HeldAt(node: Node, id: DeploymentId, d: Deployment) {
    HeldInMemory(node, id, d) || (id in node.disk && node.disk[id] == d) || BeingSaved(node, id, d)
  }

  /** `d` is a copy of `id`: in some memory, on some disk, in a snapshot being written, or on the network. */
  ghost predicate Held(f: Fleet, id: DeploymentId, d: Deployment) {
    (exists n :: n in f.nodes && HeldAt(f.nodes[n], id, d)) || Packet(id, d) in f.packets
  }

  lemma HeldAtIsOk(f: Fleet, n: NodeId, node: Node, id: DeploymentId, d: Deployment)
    requires NodeOk(f, n, node) && HeldAt(node, id, d)
    ensures CopyOk(f, id, d)
  {
    if BeingSaved(node, id, d) {
      var t :| t in node.tasks && node.tasks[t].Save? && id in node.tasks[t].snapshot && node.tasks[t].snapshot[id] == d;
      TaskAt(f, n, node, t);
    }
  }

  lemma HeldIsOk(f: Fleet, id: DeploymentId, d: Deployment)
    requires Inv(f) && Held(f, id, d)
    ensures CopyOk(f, id, d)
  {
    hide NodeOk;
    if n :| n in f.nodes && HeldAt(f.nodes[n], id, d) {
      HeldAtIsOk(f, n, f.nodes[n], id, d);
    }
  }

  /**
   In every run, with crashes anywhere, a copy that is flagged belongs to a
   reservation that has ended on chain or whose ending was accepted, unless an
   error misled the sweep of that very deployment.
   */
  lemma FlagFollowsAcceptance(f: Fleet, es: seq<Event>, id: DeploymentId, d: Deployment)
    requires Init(f) && IsRun(f, es) && Held(Run(f, es), id, d) && d.escrowFinalized
    ensures d.reservation.Id? && (E.Settling(Run(f, es).world, d.reservation.n) || id in Run(f, es).misled)
  {
    InitInv(f);
    RunKeepsInv(f, es);
    HeldIsOk(Run(f, es), id, d);
  }

  // ---------------------------------------------------------------- runs nobody is misled in

  /** An error that reaches a sweep goroutine decodes, or has none of the classifier's phrases. */
  predicate Candid(e: Event) {
    e.Advance? && e.t.Sweep? && (e.answer.Reverted? || e.answer.Lost?) ==> EscrowErrors.Plain(e.answer.err)
  }

  /** A candid answer that concludes comes from a reservation that is settling. */
  lemma CandidConcludes(w: E.World, entry: Option<E.ReservationId>, answer: E.Answer)
    requires E.CanAnswer(w, entry, E.Finalize, answer) && EscrowErrors.Concludes(answer) && entry.Some?
    requires answer.Reverted? || answer.Lost? ==> EscrowErrors.Plain(answer.err)
    ensures E.Settling(E.After(w, entry, E.Finalize, answer), entry.value)
  {
    if answer.Reverted? || answer.Lost? {
      EscrowErrors.PlainConcludesEnded(answer.err, E.StatusOf(w, entry.value));
    }
  }

  lemma CandidStep(f: Fleet, e: Event)
    requires Inv(f) && Enabled(f, e) && Candid(e)
    ensures Step(f, e).misled == f.misled
  {
    hide NodeOk, NodeStep, EscrowErrors.Concludes, EscrowErrors.Plain;
    if e.Advance? && Misleads(f.nodes[e.n], e.t, e.answer, WorldStep(f, e)) {
      var node := f.nodes[e.n];
      assert NodeOk(f, e.n, node);
      SweepTaskAt(f, e.n, node, e.t);
      CandidConcludes(f.world, CacheEntry(node, IdOf(node.tasks[e.t])), e.answer);
    }
  }

  lemma SweepTaskAt(f: Fleet, n: NodeId, node: Node, t: TaskId)
    requires NodeOk(f, n, node) && t in node.tasks && node.tasks[t].SweepFinalize?
    ensures t.Sweep?
  {
    TaskAt(f, n, node, t);
  }

  lemma {:induction false} CandidRunsMisleadNobody(f: Fleet, es: seq<Event>)
    requires Inv(f) && IsRun(f, es) && forall e :: e in es ==> Candid(e)
    ensures Run(f, es).misled == f.misled
    decreases |es|
  {
    hide Step, Enabled, Inv, Candid;
    if es != [] {
      CandidStep(f, es[0]);
      StepKeepsInv(f, es[0]);
      CandidRunsMisleadNobody(Step(f, es[0]), es[1..]);
    }
  }

  /** What a true flag means: the reservation has ended, or its accepted ending waits to be mined, and not both. */
  predicate FlagIsTrue(w: E.World, d: Deployment) {
    d.reservation.Id? && E.Settling(w, d.reservation.n)
    && (E.StatusOf(w, d.reservation.n).Terminal() <==> d.reservation.n !in w.unmined)
  }

  /**
   When the errors that reach the sweeps are candid, a flag anywhere means that
   the reservation is terminal on chain, except exactly while its accepted ending is unmined.
   */
  lemma FlagNeverLeadsChain(f: Fleet, es: seq<Event>, id: DeploymentId, d: Deployment)
    requires Init(f) && IsRun(f, es) && Held(Run(f, es), id, d) && d.escrowFinalized
    requires forall e :: e in es ==> Candid(e)
    ensures FlagIsTrue(Run(f, es).world, d)
  {
    FlagFollowsAcceptance(f, es, id, d);
    InitInv(f);
    RunKeepsInv(f, es);
    CandidRunsMisleadNobody(f, es);
    E.SettlingSplits(Run(f, es).world, d.reservation.n);
  }

  /**
   Only the originator calls: in every run, each call to select providers, to
   release, to finalize or to refund is made by the node that deployed the
   deployment it is about.
   */
  lemma OnlyTheOriginatorCalls(f: Fleet, es: seq<Event>, i: nat)
    requires Init(f) && IsRun(f, es) && i < |Run(f, es).calls|
    ensures var g := Run(f, es);
            var c := g.calls[i];
            c.id in g.book && c.node == g.book[c.id].origin
  {
    InitInv(f);
    RunKeepsInv(f, es);
  }

  /** The book is history: who deployed a deployment never changes. */
  lemma {:induction false} BookIsHistory(f: Fleet, es: seq<Event>, id: DeploymentId)
    requires IsRun(f, es) && id in f.book
    ensures id in Run(f, es).book && Run(f, es).book[id] == f.book[id]
    decreases |es|
  {
    hide Step, Enabled;
    if es != [] {
      StepExtends(f, es[0]);
      BookIsHistory(Step(f, es[0]), es[1..], id);
    }
  }

  /** Every copy of a deployment, wherever it is, names the node that deployed it and the reservation it was given. */
  lemma CopiesAgree(f: Fleet, es: seq<Event>, id: DeploymentId, d: Deployment)
    requires Init(f) && IsRun(f, es) && Held(Run(f, es), id, d)
    ensures id in Run(f, es).book && Run(f, es).book[id] == Entry(d.originator, d.reservation)
  {
    InitInv(f);
    RunKeepsInv(f, es);
    HeldIsOk(Run(f, es), id, d);
  }
}
