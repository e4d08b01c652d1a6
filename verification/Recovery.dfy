/**
 Crash recovery. After a restart, the startup sweep ends with every orphan it
 took on flagged and, unless an error misled it, settled, in every interleaving of
 its goroutines with each other and with whatever else the daemons, the users and
 the chain do meanwhile, as long as its calls meet no transient error.
 */
module Recovery {
  import opened Common
  import opened Fleet
  import opened FleetSafety
  import E = Escrow
  import EscrowErrors

  predicate HasReservation(f: Fleet, id: DeploymentId) {
    id in f.book && f.book[id].reservation.Id?
  }

  /** The event neither takes node `n` down nor restarts it, nor loses one of its sweep goroutines. */
  predicate Calm(n: NodeId, e: Event) {
    e.ChainStep? || e.n != n || (!e.Crash? && !e.Load? && !e.SweepBegin? && (e.Abandon? ==> !e.t.Sweep?))
  }

  /** A calm event, and no transient error if it is a sweep's call for an orphan with a reservation. */
  predicate Quiet(f: Fleet, n: NodeId, e: Event)
    requires Enabled(f, e)
  {
    && Calm(n, e)
    && (!e.ChainStep? && e.n == n && e.Advance? && e.t.Sweep? && f.nodes[n].tasks[e.t].SweepFinalize? && HasReservation(f, e.t.id)
        ==> EscrowErrors.Concludes(e.answer))
  }

  predicate QuietRun(f: Fleet, n: NodeId, es: seq<Event>)
    requires IsRun(f, es)
    decreases |es|
  {
    es == [] || (Quiet(f, n, es[0]) && QuietRun(Step(f, es[0]), n, es[1..]))
  }

  /** No goroutine of the sweep is left. */
  ghost predicate Drained(node: Node) {
    forall t :: t in node.tasks ==> !t.Sweep?
  }

  /** The orphan object `ref` is flagged, no longer the current one, or still being worked on. */
  predicate Handled(node: Node, id: DeploymentId, ref: Ref) {
    || Sweep(id) in node.tasks
    || !(id in node.index && node.index[id] == ref)
    || (ref in node.heap && node.heap[ref].escrowFinalized)
  }

  /** The daemon forgets no object, clears no flag, and re-creates no map entry. */
  ghost predicate Keeps(node: Node, node': Node, id: DeploymentId, ref: Ref)
    requires ref in node.heap
  {
    && ref in node'.heap
    && (node.heap[ref].escrowFinalized ==> node'.heap[ref].escrowFinalized)
    && (id in node'.index && node'.index[id] == ref ==> id in node.index && node.index[id] == ref)
    && (Sweep(id) in node.tasks ==> Sweep(id) in node'.tasks)
  }

  lemma LocalStepKeeps(node: Node, n: NodeId, t: TaskId, field: ReservationField, id: DeploymentId, ref: Ref)
    requires t in node.tasks && CallOf(node.tasks[t]).None? && !node.tasks[t].Save? && t != Sweep(id)
    requires RefHeld(node, node.tasks[t]) && ref in node.heap
    requires node.tasks[t].DeployRecord? ==> Ref(node.tasks[t].id, 0) !in node.heap
    ensures Keeps(node, LocalStep(node, n, t, field), id, ref)
  {
  }

  lemma CallStepKeeps(node: Node, t: TaskId, answer: E.Answer, id: DeploymentId, ref: Ref)
    requires t in node.tasks && CallOf(node.tasks[t]).Some? && t != Sweep(id) && ref in node.heap
    ensures Keeps(node, CallStep(node, t, answer), id, ref)
  {
  }

  /** Every quiet step of the node itself, other than the orphan's own goroutine. */
  lemma OtherStepKeeps(f: Fleet, n: NodeId, e: Event, id: DeploymentId, ref: Ref)
    requires Inv(f) && Enabled(f, e) && Calm(n, e) && !e.ChainStep? && e.n == n
    requires ref in f.nodes[n].heap
    requires !(e.Advance? && e.t == Sweep(id))
    ensures Keeps(f.nodes[n], NodeStep(f, n, f.nodes[n], e), id, ref)
  {
    hide Inv, NodeOk;
    var node := f.nodes[n];
    InvAt(f, n);
    if e.Advance? {
      if CallOf(node.tasks[e.t]).None? {
        var task := node.tasks[e.t];
        LocalStepKeeps(node, n, e.t, if task.DeployRecord? then f.book[task.id].reservation else Empty, id, ref);
      } else {
        CallStepKeeps(node, e.t, e.answer, id, ref);
      }
    } else {
      if e.DeployFail? || e.SavePut? || e.SaveReplace? {
        TaskAt(f, n, node, e.t);
      }
      PlainStepKeeps(f, n, node, e, id, ref);
    }
  }

  lemma PlainStepKeeps(f: Fleet, n: NodeId, node: Node, e: Event, id: DeploymentId, ref: Ref)
    requires !e.ChainStep? && NodeEnabled(f, n, node, e) && ref in node.heap
    requires !e.Advance? && !e.Crash? && !e.Load? && !e.SweepBegin?
    requires e.DeployFail? || e.SavePut? || e.SaveReplace? || e.Abandon? ==> !e.t.Sweep?
    ensures Keeps(node, NodeStep(f, n, node, e), id, ref)
  {
  }

  lemma KeepsHandled(node: Node, node': Node, id: DeploymentId, ref: Ref)
    requires ref in node.heap && Keeps(node, node', id, ref) && Handled(node, id, ref)
    ensures ref in node'.heap && Handled(node', id, ref)
  {
  }

  /** The orphan's own goroutine: a conclusive call leads to the mark, and the mark flags it. */
  lemma SweepStepHandled(f: Fleet, n: NodeId, e: Event, id: DeploymentId, ref: Ref)
    requires Inv(f) && Enabled(f, e) && e.Advance? && e.n == n && e.t == Sweep(id) && Quiet(f, n, e)
    requires HasReservation(f, id) && ref in f.nodes[n].heap
    ensures var node' := NodeStep(f, n, f.nodes[n], e);
            ref in node'.heap && Handled(node', id, ref)
  {
    hide NodeOk;
    var node := f.nodes[n];
    assert NodeOk(f, n, node);
    TaskAt(f, n, node, e.t);
    if id in node.index {
      EntryAt(f, n, node, id);
    }
  }

  lemma StepHandled(f: Fleet, n: NodeId, e: Event, id: DeploymentId, ref: Ref)
    requires Inv(f) && n in f.nodes && Enabled(f, e) && Quiet(f, n, e)
    requires HasReservation(f, id) && ref in f.nodes[n].heap && Handled(f.nodes[n], id, ref)
    ensures var f' := Step(f, e);
            && n in f'.nodes && ref in f'.nodes[n].heap && Handled(f'.nodes[n], id, ref)
            && HasReservation(f', id)
  {
    hide NodeStep, Inv, WorldStep, NodeEnabled, Handled;
    BookKept(f, e, id);
    if !e.ChainStep? && e.n == n {
      if e.Advance? && e.t == Sweep(id) {
        SweepStepHandled(f, n, e, id, ref);
      } else {
        OtherStepKeeps(f, n, e, id, ref);
        KeepsHandled(f.nodes[n], NodeStep(f, n, f.nodes[n], e), id, ref);
      }
    }
  }

  lemma BookKept(f: Fleet, e: Event, id: DeploymentId)
    requires Enabled(f, e) && id in f.book
    ensures id in Step(f, e).book && Step(f, e).book[id] == f.book[id]
  {
    StepExtends(f, e);
  }

  lemma {:induction false} RunHandled(f: Fleet, n: NodeId, es: seq<Event>, id: DeploymentId, ref: Ref)
    requires Inv(f) && n in f.nodes && IsRun(f, es) && QuietRun(f, n, es)
    requires HasReservation(f, id) && ref in f.nodes[n].heap && Handled(f.nodes[n], id, ref)
    ensures var g := Run(f, es);
            n in g.nodes && ref in g.nodes[n].heap && Handled(g.nodes[n], id, ref)
    decreases |es|
  {
    hide Inv, Step, Enabled, Handled, HasReservation, Quiet;
    if es != [] {
      StepKeepsInv(f, es[0]);
      StepHandled(f, n, es[0], id, ref);
      RunHandled(Step(f, es[0]), n, es[1..], id, ref);
    }
  }

  lemma SweepTakesOrphans(node: Node, n: NodeId, id: DeploymentId)
    requires id in Orphans(node, n)
    ensures Sweep(id) in SweepNode(node, n).tasks && SweepNode(node, n).tasks[Sweep(id)] == SweepFinalize(id)
  {
    var sweeps := map i | i in Orphans(node, n) :: Sweep(i);
    assert sweeps[id] in sweeps.Values;
  }

  lemma InvAt(f: Fleet, n: NodeId)
    requires Inv(f) && n in f.nodes
    ensures NodeOk(f, n, f.nodes[n])
  {
  }

  /** A flagged deployment is never swept again: no goroutine, so no call. */
  lemma FlaggedIsNotSwept(node: Node, n: NodeId, id: DeploymentId)
    requires Drained(node)
    requires id in node.index && node.index[id] in node.heap && node.heap[node.index[id]].escrowFinalized
    ensures Sweep(id) !in SweepNode(node, n).tasks
  {
  }

  /** The sweep takes a deployment exactly if it is this node's own, unflagged, and stopped or failed; what runs is left alone. */
  lemma SweptIff(node: Node, n: NodeId, id: DeploymentId)
    requires Drained(node)
    ensures Sweep(id) in SweepNode(node, n).tasks <==>
              && id in node.index && node.index[id] in node.heap
              && var d := node.heap[node.index[id]];
              d.originator == n && !d.escrowFinalized && d.status in {Stopped, Failed}
    ensures Sweep(id) in SweepNode(node, n).tasks ==> SweepNode(node, n).tasks[Sweep(id)] == SweepFinalize(id)
  {
    if id in Orphans(node, n) {
      SweepTakesOrphans(node, n, id);
    }
  }

  lemma ReservationKept(f: Fleet, g: Fleet, n: NodeId, ref: Ref)
    requires Inv(f) && Inv(g) && n in f.nodes && n in g.nodes
    requires ref in f.nodes[n].heap && ref in g.nodes[n].heap
    requires ref.id in f.book ==> ref.id in g.book && g.book[ref.id] == f.book[ref.id]
    ensures g.nodes[n].heap[ref].reservation == f.nodes[n].heap[ref].reservation
    ensures g.nodes[n].heap[ref].escrowFinalized ==> Excused(g, ref.id, g.nodes[n].heap[ref].reservation)
    ensures f.nodes[n].heap[ref].reservation.Id? ==> HasReservation(f, ref.id)
  {
    InvAt(f, n);
    InvAt(g, n);
    ObjectAt(f, n, f.nodes[n], ref);
    ObjectAt(g, n, g.nodes[n], ref);
  }

  /** A stopped or failed deployment of the daemon itself, with a reservation. */
  predicate Due(node: Node, n: NodeId, id: DeploymentId, ref: Ref) {
    && id in node.index && node.index[id] == ref && ref.id == id && ref in node.heap
    && var d := node.heap[ref];
    && d.originator == n && (d.status.Stopped? || d.status.Failed?) && d.reservation.Id?
  }

  /** A sweep of node `n` from `f` that meets no transient error and is done at `end`. */
  ghost predicate Swept(f: Fleet, n: NodeId, es: seq<Event>, end: Fleet) {
    && Enabled(f, SweepBegin(n))
    && var s := Step(f, SweepBegin(n));
    && IsRun(s, es) && QuietRun(s, n, es) && end == Run(s, es)
    && n in end.nodes && Drained(end.nodes[n])
  }

  /** Unless it is gone, the deployment is flagged, with its reservation settled or an error to excuse it, and no further sweep takes it on. */
  predicate Repaired(end: Fleet, n: NodeId, id: DeploymentId, ref: Ref, field: ReservationField) {
    n in end.nodes &&
    var node := end.nodes[n];
    id in node.index && node.index[id] == ref ==>
      && ref in node.heap && node.heap[ref].escrowFinalized && node.heap[ref].reservation == field
      && Excused(end, id, field)
      && Sweep(id) !in SweepNode(node, n).tasks
  }

  /**
   One sweep recovers. Whatever its goroutines are interleaved with, once they
   are done each stopped or failed deployment of the node that has a reservation
   and is still deployed is flagged, and its reservation has ended, its ending
   was accepted, or an error misled the sweep; a further sweep starts no goroutine for it.
   */
  lemma SweepRecovers(f: Fleet, n: NodeId, es: seq<Event>, g: Fleet, id: DeploymentId, ref: Ref)
    requires Inv(f) && Swept(f, n, es, g) && n in f.nodes && Due(f.nodes[n], n, id, ref)
    ensures Repaired(g, n, id, ref, f.nodes[n].heap[ref].reservation)
  {
    hide Inv, NodeOk, Handled, Quiet, SweepNode, HasReservation;
    var s := Step(f, SweepBegin(n));
    StepKeepsInv(f, SweepBegin(n));
    assert s.nodes[n] == SweepNode(f.nodes[n], n) && s.book == f.book;
    AlreadyOrTaken(f.nodes[n], n, id, ref);
    ReservationKept(f, s, n, ref);
    HasKept(f, s, id);
    RunHandled(s, n, es, id, ref);
    RunKeepsInv(s, es);
    if id in g.nodes[n].index && g.nodes[n].index[id] == ref {
      HandledWhenDrained(g.nodes[n], id, ref);
      if id in s.book {
        BookIsHistory(s, es, id);
      }
      ReservationKept(s, g, n, ref);
      FlaggedIsNotSwept(g.nodes[n], n, id);
    }
  }

  lemma HasKept(f: Fleet, g: Fleet, id: DeploymentId)
    requires HasReservation(f, id) && g.book == f.book
    ensures HasReservation(g, id)
  {
  }

  // ---------------------------------------------------------------- the whole restart

  predicate IsBoot(n: NodeId, boot: seq<Event>) {
    forall e :: e in boot ==> e.StartupStatus? && e.n == n
  }

  /** The node's deployments right after loading, whatever statuses the runtime reports. */
  ghost predicate Loaded(node: Node, disk: map<DeploymentId, Deployment>, g: nat) {
    && node.tasks == map[]
    && node.index.Keys == disk.Keys
    && (forall id :: id in disk ==>
          && node.index[id] == Ref(id, g)
          && node.index[id] in node.heap
          && node.heap[node.index[id]] == disk[id].(status := node.heap[node.index[id]].status))
  }

  lemma LoadsTheDisk(node: Node, g: nat)
    ensures Loaded(LoadNode(CrashNode(node), g), node.disk, g)
  {
    var refs := map id | id in node.disk :: Ref(id, g);
    forall id | id in node.disk
      ensures refs[id] in refs.Values
    {
    }
  }

  lemma {:induction false} BootKeepsLoaded(f: Fleet, n: NodeId, boot: seq<Event>, disk: map<DeploymentId, Deployment>, g: nat)
    requires n in f.nodes && Loaded(f.nodes[n], disk, g) && IsBoot(n, boot) && IsRun(f, boot)
    ensures n in Run(f, boot).nodes && Loaded(Run(f, boot).nodes[n], disk, g)
    decreases |boot|
  {
    if boot != [] {
      assert boot[0].StartupStatus? && boot[0].n == n;
      BootStep(f, n, boot[0], disk, g);
      BootKeepsLoaded(Step(f, boot[0]), n, boot[1..], disk, g);
    }
  }

  lemma BootStep(f: Fleet, n: NodeId, e: Event, disk: map<DeploymentId, Deployment>, g: nat)
    requires n in f.nodes && Loaded(f.nodes[n], disk, g) && e.StartupStatus? && e.n == n && Enabled(f, e)
    ensures n in Step(f, e).nodes && Loaded(Step(f, e).nodes[n], disk, g)
  {
    var node := f.nodes[n];
    var node' := Step(f, e).nodes[n];
    forall id | id in disk
      ensures node'.index[id] == Ref(id, g) && node'.index[id] in node'.heap
      ensures node'.heap[node'.index[id]] == disk[id].(status := node'.heap[node'.index[id]].status)
    {
      assert node.index[id] == Ref(id, g);
    }
  }

  /** Crash, load, reconcile the statuses: the fleet just before the sweep. */
  ghost predicate Rebooted(f: Fleet, n: NodeId, g: nat, boot: seq<Event>, f1: Fleet) {
    && n in f.nodes
    && var crashed := Step(f, Crash(n));
    && Enabled(crashed, Load(n, g))
    && var loaded := Step(crashed, Load(n, g));
    && IsBoot(n, boot) && IsRun(loaded, boot) && f1 == Run(loaded, boot)
  }

  lemma CrashAndLoad(f: Fleet, n: NodeId, g: nat)
    requires Inv(f) && n in f.nodes && Enabled(Step(f, Crash(n)), Load(n, g))
    ensures var loaded := Step(Step(f, Crash(n)), Load(n, g));
            Inv(loaded) && n in loaded.nodes && Loaded(loaded.nodes[n], f.nodes[n].disk, g)
  {
    hide Inv, Loaded;
    StepKeepsInv(f, Crash(n));
    StepKeepsInv(Step(f, Crash(n)), Load(n, g));
    LoadsTheDisk(f.nodes[n], g);
  }

  lemma RebootedIsLoaded(f: Fleet, n: NodeId, g: nat, boot: seq<Event>, f1: Fleet)
    requires Inv(f) && Rebooted(f, n, g, boot, f1)
    ensures Inv(f1) && n in f1.nodes && Loaded(f1.nodes[n], f.nodes[n].disk, g)
  {
    hide Inv, Loaded, Step;
    CrashAndLoad(f, n, g);
    var loaded := Step(Step(f, Crash(n)), Load(n, g));
    RunKeepsInv(loaded, boot);
    BootKeepsLoaded(loaded, n, boot, f.nodes[n].disk, g);
  }

  // ---------------------------------------------------------------- what the runtime reports

  /** What the status check says of a deployment: None if it was not asked, Some(None) if the container is gone. */
  type Report = Option<Option<ContainerStatus>>

  /** Each deployment is asked about at most once. */
  predicate AskedOnce(boot: seq<Event>) {
    forall i, j :: 0 <= i < j < |boot| && boot[i].StartupStatus? && boot[j].StartupStatus? ==> boot[i].id != boot[j].id
  }

  predicate Reports(boot: seq<Event>, n: NodeId, id: DeploymentId, report: Report) {
    match report
    case None => forall e :: e in boot && e.StartupStatus? ==> e.id != id
    case Some(found) => StartupStatus(n, id, found) in boot
  }

  /** A reported status is taken over; a container that is gone has stopped if it was thought running or pending. */
  predicate Follows(before: ContainerStatus, report: Report, after: ContainerStatus) {
    && (report.Some? && report.value.Some? ==> after == report.value.value)
    && (report == Some(None) && (before.Running? || before.Pending?) ==> after.Stopped?)
    && (report == Some(None) && !before.Running? && !before.Pending? ==> after == before)
    && (report.None? ==> after == before)
  }

  lemma StatusStep(f: Fleet, n: NodeId, e: Event, disk: map<DeploymentId, Deployment>, g: nat, id: DeploymentId)
    requires n in f.nodes && Loaded(f.nodes[n], disk, g) && id in disk && e.StartupStatus? && e.n == n && Enabled(f, e)
    ensures n in Step(f, e).nodes && Ref(id, g) in f.nodes[n].heap && Ref(id, g) in Step(f, e).nodes[n].heap
    ensures Follows(f.nodes[n].heap[Ref(id, g)].status, if e.id == id then Some(e.found) else None,
                    Step(f, e).nodes[n].heap[Ref(id, g)].status)
  {
    assert f.nodes[n].index[id] == Ref(id, g);
    if e.id != id && e.id in disk {
      assert f.nodes[n].index[e.id] == Ref(e.id, g);
    }
  }

  lemma {:induction false} BootFollowsReports(f: Fleet, n: NodeId, boot: seq<Event>, disk: map<DeploymentId, Deployment>, g: nat,
                                              id: DeploymentId, report: Report)
    requires n in f.nodes && Loaded(f.nodes[n], disk, g) && id in disk
    requires IsBoot(n, boot) && IsRun(f, boot) && AskedOnce(boot) && Reports(boot, n, id, report)
    ensures n in Run(f, boot).nodes && Ref(id, g) in f.nodes[n].heap && Ref(id, g) in Run(f, boot).nodes[n].heap
    ensures Follows(f.nodes[n].heap[Ref(id, g)].status, report, Run(f, boot).nodes[n].heap[Ref(id, g)].status)
    decreases |boot|
  {
    hide Step, Enabled;
    LoadedAt(f.nodes[n], disk, g, id);
    if boot != [] {
      var e, rest := boot[0], boot[1..];
      assert e in boot && e.StartupStatus? && e.n == n;
      StatusStep(f, n, e, disk, g, id);
      BootStep(f, n, e, disk, g);
      assert forall x :: x in rest ==> x in boot;
      if e.id == id {
        forall x | x in rest && x.StartupStatus?
          ensures x.id != id
        {
          var j :| 0 <= j < |rest| && rest[j] == x;
          assert boot[j + 1] == x;
        }
        assert report == Some(e.found);
        BootFollowsReports(Step(f, e), n, rest, disk, g, id, None);
      } else {
        assert report.Some? ==> StartupStatus(n, id, report.value) in rest;
        BootFollowsReports(Step(f, e), n, rest, disk, g, id, report);
      }
    }
  }

  predicate Over(status: ContainerStatus) {
    status.Stopped? || status.Failed?
  }

  /** The container is over after the restart: so reported, or gone or not asked about and over or not known to be alive. */
  predicate Ended(status: ContainerStatus, report: Report) {
    match report
    case None => Over(status)
    case Some(None) => Over(status) || status.Running? || status.Pending?
    case Some(Some(found)) => Over(found)
  }

  /** Right before the sweep a deployment is due exactly if its persisted record and the report say so. */
  lemma DueIff(f: Fleet, n: NodeId, g: nat, boot: seq<Event>, f1: Fleet, id: DeploymentId, report: Report)
    requires Inv(f) && Rebooted(f, n, g, boot, f1) && id in f.nodes[n].disk && AskedOnce(boot) && Reports(boot, n, id, report)
    ensures n in f1.nodes
    ensures var d := f.nodes[n].disk[id];
            Due(f1.nodes[n], n, id, Ref(id, g)) <==> d.originator == n && d.reservation.Id? && Ended(d.status, report)
  {
    hide Inv, Step, Enabled;
    var disk := f.nodes[n].disk;
    var loaded := Step(Step(f, Crash(n)), Load(n, g));
    CrashAndLoad(f, n, g);
    LoadKeepsStatus(f, n, g, id);
    BootFollowsReports(loaded, n, boot, disk, g, id, report);
    RebootedIsLoaded(f, n, g, boot, f1);
    LoadedAt(f1.nodes[n], disk, g, id);
  }

  lemma LoadKeepsStatus(f: Fleet, n: NodeId, g: nat, id: DeploymentId)
    requires n in f.nodes && Enabled(Step(f, Crash(n)), Load(n, g)) && id in f.nodes[n].disk
    ensures var loaded := Step(Step(f, Crash(n)), Load(n, g));
            n in loaded.nodes && Ref(id, g) in loaded.nodes[n].heap && loaded.nodes[n].heap[Ref(id, g)] == f.nodes[n].disk[id]
  {
    var disk := f.nodes[n].disk;
    var refs := map i | i in disk :: Ref(i, g);
    assert refs[id] in refs.Values;
  }

  /**
   Crash recovery. Take any reachable fleet, crash a node anywhere, restart it,
   and let its sweep finish without transient errors. Every deployment on its
   disk that it originated, that has a parseable reservation ID, and whose
   container is over by the persisted status and the runtime's report, is then
   flagged with its reservation settled or an error to excuse it (unless it has been
   deleted meanwhile), and a further sweep starts no goroutine for it.
   */
  lemma CrashRecovery(f: Fleet, n: NodeId, g: nat, boot: seq<Event>, f1: Fleet, es: seq<Event>, end: Fleet, id: DeploymentId,
                      report: Report)
    requires Inv(f) && Rebooted(f, n, g, boot, f1) && Swept(f1, n, es, end)
    requires id in f.nodes[n].disk && AskedOnce(boot) && Reports(boot, n, id, report)
    requires var d := f.nodes[n].disk[id]; d.originator == n && d.reservation.Id? && Ended(d.status, report)
    ensures Repaired(end, n, id, Ref(id, g), f.nodes[n].disk[id].reservation)
  {
    hide Inv, Step, Enabled, Run, IsRun, QuietRun, Drained, SweepNode, Swept;
    DueIff(f, n, g, boot, f1, id, report);
    RebootedIsLoaded(f, n, g, boot, f1);
    LoadedAt(f1.nodes[n], f.nodes[n].disk, g, id);
    SweepRecovers(f1, n, es, end, id, Ref(id, g));
  }

  lemma LoadedAt(node: Node, disk: map<DeploymentId, Deployment>, g: nat, id: DeploymentId)
    requires Loaded(node, disk, g) && id in disk
    ensures id in node.index && node.index[id] == Ref(id, g) && node.index[id] in node.heap
    ensures node.heap[node.index[id]] == disk[id].(status := node.heap[node.index[id]].status)
  {
  }

  /** When the sweep starts, a stopped or failed deployment is flagged already or taken on. */
  lemma AlreadyOrTaken(node: Node, n: NodeId, id: DeploymentId, ref: Ref)
    requires id in node.index && node.index[id] == ref && ref in node.heap
    requires node.heap[ref].originator == n && (node.heap[ref].status.Stopped? || node.heap[ref].status.Failed?)
    ensures ref in SweepNode(node, n).heap && Handled(SweepNode(node, n), id, ref)
  {
    if !node.heap[ref].escrowFinalized {
      SweepTakesOrphans(node, n, id);
    }
  }

  lemma HandledWhenDrained(node: Node, id: DeploymentId, ref: Ref)
    requires Drained(node) && Handled(node, id, ref) && id in node.index && node.index[id] == ref
    ensures ref in node.heap && node.heap[ref].escrowFinalized
  {
  }
}
