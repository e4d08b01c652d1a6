/**
 The deployment and escrow lifecycle as a step system over a fleet of daemons.

 A daemon has volatile memory (the Deployment objects, the deployments map that
 points at them, the payment service's job cache, the operations in flight, the
 pending trackers) and a disk that lags behind it. Every operation is cut at the
 points where the daemon releases its lock, calls the payment service or may
 crash, so a run is any interleaving of those pieces, on any number of daemons,
 with crashes anywhere. `book` records, for each deployment, who deployed it and
 which reservation it was bound to, and `misled` those whose sweep took an error
 for the end of a reservation that was live; only the proofs look at the two.
 */
module Fleet {
  import opened Common
  import E = Escrow
  import EscrowErrors
  import A = Activation

  type NodeId = nat
  type DeploymentId = string

  datatype ContainerStatus =
    Pending | Created | Running | Paused | Stopped | Failed | Replicating

  /** The decimal reservation ID as it is stored with a deployment. */
  datatype ReservationField = Empty | Unparseable | Id(n: E.ReservationId)

  datatype Deployment = Deployment(
    status: ContainerStatus,
    originator: NodeId,
    reservation: ReservationField,
    escrowFinalized: bool,
    started: bool)

  /** A pointer to a Deployment object; Delete leaves objects that are still held. */
  datatype Ref = Ref(id: DeploymentId, generation: nat)

  /** The rest of an operation in flight, named after what it does next. */
  datatype Task =
    | StopSettle(ref: Ref) | StopRelease(ref: Ref) | StopFinalize(ref: Ref)
    | StopMark(ref: Ref) | StopStatus(ref: Ref)
    | StartUpdate(ref: Ref)
    | DeleteSettle(ref: Ref) | DeleteRelease(ref: Ref) | DeleteFinalize(ref: Ref)
    | DeleteRefund(ref: Ref) | DeleteMark(ref: Ref) | DeleteForget(id: DeploymentId)
    | DriftRefund(id: DeploymentId)
    | ShutdownRelease(id: DeploymentId) | ShutdownFinalize(id: DeploymentId)
    | DeployRecord(id: DeploymentId, running: bool) | DeployRefund(id: DeploymentId)
    | SweepFinalize(id: DeploymentId) | SweepMark(id: DeploymentId)
    | Save(snapshot: map<DeploymentId, Deployment>)

  datatype TaskId = Job(k: nat) | Sweep(id: DeploymentId)

  datatype Node = Node(
    heap: map<Ref, Deployment>,
    index: map<DeploymentId, Ref>,
    disk: map<DeploymentId, Deployment>,
    cache: map<DeploymentId, E.ReservationId>,
    tasks: map<TaskId, Task>,
    pending: set<DeploymentId>)

  datatype Entry = Entry(origin: NodeId, reservation: ReservationField)

  datatype Call = Call(node: NodeId, id: DeploymentId, action: E.Action)

  /** A deployment in flight between daemons. */
  datatype Packet = Packet(id: DeploymentId, deployment: Deployment)

  datatype Fleet = Fleet(
    nodes: map<NodeId, Node>,
    world: E.World,
    book: map<DeploymentId, Entry>,
    packets: set<Packet>,
    calls: seq<Call>,
    misled: set<DeploymentId>)

  datatype Event =
    | DeployExternal(n: NodeId, id: DeploymentId, r: E.ReservationId, running: bool, k: nat)
    | DeployOpen(n: NodeId, id: DeploymentId, r: E.ReservationId, parsed: bool, running: bool, k: nat)
    | DeployFail(n: NodeId, t: TaskId)
    | Broadcast(n: NodeId, id: DeploymentId)
    | Deliver(n: NodeId, packet: Packet, generation: nat)
    | Activate(n: NodeId, id: DeploymentId, wallet: A.Address, directory: A.Directory, acks: seq<A.Ack>, answer: E.Answer)
    | ExpirePending(n: NodeId, id: DeploymentId)
    | StopBegin(n: NodeId, id: DeploymentId, k: nat)
    | StartBegin(n: NodeId, id: DeploymentId, k: nat)
    | DeleteBegin(n: NodeId, id: DeploymentId, k: nat)
    | Drift(n: NodeId, id: DeploymentId, actual: ContainerStatus, hasWallet: bool, k: nat)
    | ShutdownBegin(n: NodeId, id: DeploymentId, k: nat)
    | Advance(n: NodeId, t: TaskId, answer: E.Answer)
    | Abandon(n: NodeId, t: TaskId)
    | SaveBegin(n: NodeId, k: nat)
    | SavePut(n: NodeId, t: TaskId, id: DeploymentId)
    | SaveReplace(n: NodeId, t: TaskId)
    | Evict(n: NodeId, id: DeploymentId)
    | Crash(n: NodeId)
    | Load(n: NodeId, generation: nat)
    | StartupStatus(n: NodeId, id: DeploymentId, found: Option<ContainerStatus>)
    | SweepBegin(n: NodeId)
    | ChainStep(r: E.ReservationId, a: E.Action)

  // ---------------------------------------------------------------- tasks

  /** The escrow call the next piece of the operation makes, if it makes one. */
  function CallOf(task: Task): Option<E.Action> {
    match task
    case StopRelease(_) => Some(E.Release)
    case DeleteRelease(_) => Some(E.Release)
    case ShutdownRelease(_) => Some(E.Release)
    case StopFinalize(_) => Some(E.Finalize)
    case DeleteFinalize(_) => Some(E.Finalize)
    case ShutdownFinalize(_) => Some(E.Finalize)
    case SweepFinalize(_) => Some(E.Finalize)
    case DeleteRefund(_) => Some(E.Refund)
    case DriftRefund(_) => Some(E.Refund)
    case DeployRefund(_) => Some(E.Refund)
    case _ => None
  }

  function IdOf(task: Task): DeploymentId
    requires !task.Save?
  {
    match task
    case StopSettle(ref) => ref.id
    case StopRelease(ref) => ref.id
    case StopFinalize(ref) => ref.id
    case StopMark(ref) => ref.id
    case StopStatus(ref) => ref.id
    case StartUpdate(ref) => ref.id
    case DeleteSettle(ref) => ref.id
    case DeleteRelease(ref) => ref.id
    case DeleteFinalize(ref) => ref.id
    case DeleteRefund(ref) => ref.id
    case DeleteMark(ref) => ref.id
    case DeleteForget(id) => id
    case DriftRefund(id) => id
    case ShutdownRelease(id) => id
    case ShutdownFinalize(id) => id
    case DeployRecord(id, _) => id
    case DeployRefund(id) => id
    case SweepFinalize(id) => id
    case SweepMark(id) => id
  }

  /** What follows an escrow call. The sweep alone looks at the error. */
  function AfterCall(task: Task, answer: E.Answer): Option<Task>
    requires CallOf(task).Some?
  {
    match task
    case StopRelease(ref) => Some(StopFinalize(ref))
    case StopFinalize(ref) => Some(if answer.Done? then StopMark(ref) else StopStatus(ref))
    case DeleteRelease(ref) => Some(DeleteFinalize(ref))
    case DeleteFinalize(ref) => Some(if answer.Done? then DeleteMark(ref) else DeleteForget(ref.id))
    case DeleteRefund(ref) => Some(if answer.Done? then DeleteMark(ref) else DeleteForget(ref.id))
    case ShutdownRelease(id) => Some(ShutdownFinalize(id))
    case SweepFinalize(id) => if EscrowErrors.Concludes(answer) then Some(SweepMark(id)) else None
    case ShutdownFinalize(_) => None
    case DriftRefund(_) => None
    case DeployRefund(_) => None
  }

  function CacheEntry(node: Node, id: DeploymentId): Option<E.ReservationId> {
    if id in node.cache then Some(node.cache[id]) else None
  }

  function WithTask(node: Node, t: TaskId, task: Option<Task>): Node {
    node.(tasks := if task.Some? then node.tasks[t := task.value] else node.tasks - {t})
  }

  /** Stop after the container is down: who pays, if anybody. */
  function StopBranch(d: Deployment, n: NodeId, ref: Ref): Task {
    if d.originator != n then StopStatus(ref)
    else if d.started then StopRelease(ref)
    else StopFinalize(ref)
  }

  /** Delete after the map entry is gone: finalize a deployment that ran, refund the rest. */
  function DeleteBranch(d: Deployment, n: NodeId, ref: Ref): Task {
    if d.originator != n then DeleteForget(ref.id)
    else if d.status.Running? && d.started then DeleteRelease(ref)
    else if d.status.Running? || d.status.Stopped? then DeleteFinalize(ref)
    else DeleteRefund(ref)
  }

  function SetFlag(node: Node, ref: Ref): Node
    requires ref in node.heap
  {
    node.(heap := node.heap[ref := node.heap[ref].(escrowFinalized := true)])
  }

  function SetStatus(node: Node, ref: Ref, status: ContainerStatus): Node
    requires ref in node.heap
  {
    node.(heap := node.heap[ref := node.heap[ref].(status := status)])
  }

  predicate RefHeld(node: Node, task: Task) {
    match task
    case StopSettle(ref) => ref in node.heap
    case StopMark(ref) => ref in node.heap
    case StopStatus(ref) => ref in node.heap
    case StartUpdate(ref) => ref in node.heap
    case DeleteSettle(ref) => ref in node.heap
    case DeleteMark(ref) => ref in node.heap
    case SweepMark(id) => id in node.index ==> node.index[id] in node.heap
    case _ => true
  }

  /** One piece of an operation that makes no escrow call. */
  function LocalStep(node: Node, n: NodeId, t: TaskId, reservation: ReservationField): Node
    requires t in node.tasks && CallOf(node.tasks[t]).None? && !node.tasks[t].Save?
    requires RefHeld(node, node.tasks[t])
  {
    match node.tasks[t]
    case StopSettle(ref) => WithTask(node, t, Some(StopBranch(node.heap[ref], n, ref)))
    case StopMark(ref) => WithTask(SetFlag(node, ref), t, Some(StopStatus(ref)))
    case StopStatus(ref) =>
      WithTask(SetStatus(node, ref, Stopped), t, None).(pending := node.pending - {ref.id})
    case StartUpdate(ref) =>
      WithTask(node.(heap := node.heap[ref := node.heap[ref].(status := Running, started := true)]), t, None)
    case DeleteSettle(ref) => WithTask(node, t, Some(DeleteBranch(node.heap[ref], n, ref)))
    case DeleteMark(ref) => WithTask(SetFlag(node, ref), t, Some(DeleteForget(ref.id)))
    case DeleteForget(id) =>
      WithTask(node, t, None).(disk := node.disk - {id}, pending := node.pending - {id})
    case DeployRecord(id, running) =>
      var ref := Ref(id, 0);
      var d := Deployment(if running then Running else Pending, n, reservation, false, running);
      WithTask(node, t, None).(heap := node.heap[ref := d], index := node.index[id := ref],
                               pending := node.pending + {id})
    case SweepMark(id) =>
      WithTask(if id in node.index then SetFlag(node, node.index[id]) else node, t, None)
    case _ => node
  }

  /** The daemon's side of an escrow call. */
  function CallStep(node: Node, t: TaskId, answer: E.Answer): Node
    requires t in node.tasks && CallOf(node.tasks[t]).Some?
  {
    var task := node.tasks[t];
    var node' := WithTask(node, t, AfterCall(task, answer));
    if answer.Done? && CallOf(task).value.Ends() then node'.(cache := node'.cache - {IdOf(task)}) else node'
  }

  /** A sweep goroutine goes on to its mark on an error, while the reservation is live in `w`. */
  predicate Misleads(node: Node, t: TaskId, answer: E.Answer, w: E.World) {
    && t in node.tasks && node.tasks[t].SweepFinalize? && node.tasks[t].id in node.cache
    && !answer.Done? && EscrowErrors.Concludes(answer)
    && !E.Settling(w, node.cache[node.tasks[t].id])
  }

  // ---------------------------------------------------------------- restart

  /** The deployments the startup reconciler sweeps. */
  predicate IsOrphan(d: Deployment, n: NodeId) {
    d.originator == n && !d.escrowFinalized && (d.status.Stopped? || d.status.Failed?)
  }

  function Orphans(node: Node, n: NodeId): set<DeploymentId> {
    set id | id in node.index && node.index[id] in node.heap && IsOrphan(node.heap[node.index[id]], n)
  }

  /** Collect the orphans, rehydrate the cache, then one goroutine per orphan. */
  function SweepNode(node: Node, n: NodeId): Node {
    var orphans := Orphans(node, n);
    var warm := map id | id in orphans && node.heap[node.index[id]].reservation.Id? ::
                  node.heap[node.index[id]].reservation.n;
    var sweeps := map id | id in orphans :: Sweep(id);
    node.(cache := node.cache + warm,
          tasks := node.tasks + (map t: TaskId | t in sweeps.Values :: SweepFinalize(t.id)))
  }

  function LoadNode(node: Node, g: nat): Node {
    var refs := map id | id in node.disk :: Ref(id, g);
    node.(index := node.index + refs,
          heap := node.heap + (map ref: Ref | ref in refs.Values :: node.disk[ref.id]))
  }

  function CrashNode(node: Node): Node {
    Node(map[], map[], node.disk, map[], map[], {})
  }

  /** A missing container counts as stopped if it was thought running or pending. */
  function Reconciled(status: ContainerStatus, actual: Option<ContainerStatus>): ContainerStatus {
    match actual
    case Some(s) => s
    case None => if status.Running? || status.Pending? then Stopped else status
  }

  // ---------------------------------------------------------------- steps

  /** An equation, so that it stays one formula wherever it has to be proved. */
  predicate Enabled(f: Fleet, e: Event) {
    Possible(f, e) == true
  }

  predicate Possible(f: Fleet, e: Event) {
    match e
    case ChainStep(r, a) => E.Act(E.StatusOf(f.world, r), a).Some?
    case _ => e.n in f.nodes && NodeEnabled(f, e.n, f.nodes[e.n], e)
  }

  predicate NodeEnabled(f: Fleet, n: NodeId, node: Node, e: Event)
    requires !e.ChainStep?
  {
    match e
    case DeployExternal(_, id, _, _, k) => id !in f.book && Job(k) !in node.tasks
    case DeployOpen(_, id, r, _, _, k) =>
      id !in f.book && Job(k) !in node.tasks && E.Act(E.StatusOf(f.world, r), E.Create).Some?
    case DeployFail(_, t) => t in node.tasks && node.tasks[t].DeployRecord?
    case Broadcast(_, id) =>
      id in node.index && node.index[id] in node.heap && node.heap[node.index[id]].originator == n
    case Deliver(_, packet, g) =>
      packet in f.packets && packet.id !in node.index && Ref(packet.id, g) !in node.heap &&
      packet.id in f.book && f.book[packet.id].origin != n
    case Activate(_, id, wallet, directory, acks, answer) =>
      && id in node.pending && A.IsSnapshot(acks)
      && E.CanAnswer(f.world, CacheEntry(node, id), E.SelectProviders, answer)
      && (E.Takes(answer) ==> A.ContractAccepts(A.Providers(wallet, directory, acks)))
    case ExpirePending(_, id) => id in node.pending
    case StopBegin(_, id, k) => id in node.index && Job(k) !in node.tasks
    case StartBegin(_, id, k) =>
      id in node.index && node.index[id] in node.heap &&
      node.heap[node.index[id]].status.Stopped? && Job(k) !in node.tasks
    case DeleteBegin(_, id, k) => id in node.index && Job(k) !in node.tasks
    case Drift(_, id, actual, _, k) =>
      id in node.index && node.index[id] in node.heap && Job(k) !in node.tasks &&
      node.heap[node.index[id]].status.Running? && !actual.Running?
    case ShutdownBegin(_, id, k) =>
      id in node.index && node.index[id] in node.heap && Job(k) !in node.tasks &&
      var d := node.heap[node.index[id]];
      d.status.Running? && d.started && d.originator == n
    case Advance(_, t, answer) =>
      t in node.tasks && !node.tasks[t].Save? &&
      var task := node.tasks[t];
      if CallOf(task).Some?
      then E.CanAnswer(f.world, CacheEntry(node, IdOf(task)), CallOf(task).value, answer)
      else RefHeld(node, task) && (task.DeployRecord? ==> task.id in f.book && Ref(task.id, 0) !in node.heap)
    case Abandon(_, t) => t in node.tasks
    case SaveBegin(_, k) => Job(k) !in node.tasks
    case SavePut(_, t, id) => t in node.tasks && node.tasks[t].Save? && id in node.tasks[t].snapshot
    case SaveReplace(_, t) => t in node.tasks && node.tasks[t].Save?
    case Evict(_, id) => id in node.cache
    case Crash(_) => true
    case Load(_, g) => forall id :: id in node.disk ==> Ref(id, g) !in node.heap
    case StartupStatus(_, id, _) => id in node.index && node.index[id] in node.heap
    case SweepBegin(_) => forall t :: t in node.tasks ==> !t.Sweep?
  }

  /** The daemon `n` after the event. */
  function NodeStep(f: Fleet, n: NodeId, node: Node, e: Event): Node
    requires !e.ChainStep? && NodeEnabled(f, n, node, e)
  {
    match e
    case DeployExternal(_, id, r, running, k) =>
      WithTask(node, Job(k), Some(DeployRecord(id, running))).(cache := node.cache[id := r])
    case DeployOpen(_, id, r, parsed, running, k) =>
      WithTask(node, Job(k), Some(DeployRecord(id, running)))
        .(cache := if parsed then node.cache[id := r] else node.cache)
    case DeployFail(_, t) => WithTask(node, t, Some(DeployRefund(node.tasks[t].id)))
    case Broadcast(_, _) => node
    case Deliver(_, packet, g) =>
      var ref := Ref(packet.id, g);
      var d := packet.deployment.(originator := f.book[packet.id].origin);
      node.(heap := node.heap[ref := d], index := node.index[packet.id := ref])
    case Activate(_, id, _, _, _, _) => node.(pending := node.pending - {id})
    case ExpirePending(_, id) => node.(pending := node.pending - {id})
    case StopBegin(_, id, k) => WithTask(node, Job(k), Some(StopSettle(node.index[id])))
    case StartBegin(_, id, k) => WithTask(node, Job(k), Some(StartUpdate(node.index[id])))
    case DeleteBegin(_, id, k) =>
      WithTask(node, Job(k), Some(DeleteSettle(node.index[id]))).(index := node.index - {id})
    case Drift(_, id, actual, hasWallet, k) =>
      var ref := node.index[id];
      var node' := SetStatus(node, ref, actual);
      if hasWallet && node.heap[ref].originator == n
      then WithTask(node', Job(k), Some(DriftRefund(id))) else node'
    case ShutdownBegin(_, id, k) => WithTask(node, Job(k), Some(ShutdownRelease(id)))
    case Advance(_, t, answer) =>
      if CallOf(node.tasks[t]).Some? then CallStep(node, t, answer)
      else
        var task := node.tasks[t];
        LocalStep(node, n, t, if task.DeployRecord? then f.book[task.id].reservation else Empty)
    case Abandon(_, t) => WithTask(node, t, None)
    case SaveBegin(_, k) =>
      var snapshot := map id | id in node.index && node.index[id] in node.heap :: node.heap[node.index[id]];
      WithTask(node, Job(k), Some(Save(snapshot)))
    case SavePut(_, t, id) =>
      node.(disk := node.disk[id := node.tasks[t].snapshot[id]],
            tasks := node.tasks[t := Save(node.tasks[t].snapshot - {id})])
    case SaveReplace(_, t) => WithTask(node, t, None).(disk := node.tasks[t].snapshot)
    case Evict(_, id) => node.(cache := node.cache - {id})
    case Crash(_) => CrashNode(node)
    case Load(_, g) => LoadNode(node, g)
    case StartupStatus(_, id, actual) =>
      var ref := node.index[id];
      SetStatus(node, ref, Reconciled(node.heap[ref].status, actual))
    case SweepBegin(_) => SweepNode(node, n)
  }

  /** The escrow call an event makes, with the answer it gets. */
  function EventCall(node: Node, e: Event): Option<(DeploymentId, E.Action, E.Answer)> {
    match e
    case Activate(_, id, _, _, _, answer) => Some((id, E.SelectProviders, answer))
    case Advance(_, t, answer) =>
      if t in node.tasks && CallOf(node.tasks[t]).Some?
      then Some((IdOf(node.tasks[t]), CallOf(node.tasks[t]).value, answer)) else None
    case _ => None
  }

  function WorldStep(f: Fleet, e: Event): E.World
    requires Enabled(f, e)
  {
    if e.ChainStep? then E.Move(f.world, e.r, e.a)
    else if e.DeployOpen? then E.Move(f.world, e.r, E.Create)
    else
      var node := f.nodes[e.n];
      match EventCall(node, e)
      case None => f.world
      case Some((id, a, answer)) => E.After(f.world, CacheEntry(node, id), a, answer)
  }

  function BookStep(book: map<DeploymentId, Entry>, e: Event): map<DeploymentId, Entry> {
    if e.DeployExternal? then book[e.id := Entry(e.n, Id(e.r))]
    else if e.DeployOpen? then book[e.id := Entry(e.n, if e.parsed then Id(e.r) else Empty)]
    else book
  }

  function PacketsStep(packets: set<Packet>, node: Node, e: Event): set<Packet> {
    if e.Broadcast? && e.id in node.index && node.index[e.id] in node.heap
    then packets + {Packet(e.id, node.heap[node.index[e.id]])}
    else packets
  }

  function CallsStep(calls: seq<Call>, n: NodeId, node: Node, e: Event): seq<Call> {
    match EventCall(node, e)
    case None => calls
    case Some((id, a, _)) => calls + [Call(n, id, a)]
  }

  function MisledStep(misled: set<DeploymentId>, w: E.World, node: Node, e: Event): set<DeploymentId> {
    if e.Advance? && Misleads(node, e.t, e.answer, w) then misled + {node.tasks[e.t].id} else misled
  }

  /** An event that is not enabled changes nothing. */
  function Step(f: Fleet, e: Event): Fleet {
    if !Enabled(f, e) then f
    else if e.ChainStep? then f.(world := WorldStep(f, e))
    else
      var node := f.nodes[e.n];
      Fleet(f.nodes[e.n := NodeStep(f, e.n, node, e)],
            WorldStep(f, e),
            BookStep(f.book, e),
            PacketsStep(f.packets, node, e),
            CallsStep(f.calls, e.n, node, e),
            MisledStep(f.misled, WorldStep(f, e), node, e))
  }

  /** Every event of the run is enabled when its turn comes. */
  predicate IsRun(f: Fleet, es: seq<Event>)
    decreases |es|
  {
    es == [] || (Enabled(f, es[0]) && IsRun(Step(f, es[0]), es[1..]))
  }

  function Run(f: Fleet, es: seq<Event>): Fleet
    decreases |es|
  {
    if es == [] then f else Run(Step(f, es[0]), es[1..])
  }
}
