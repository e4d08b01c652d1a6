/**
 Runs of the recovery: the sweep can finish in every order of its goroutines, what
 it leaves on chain, and exactly which errors make flags untrue.
 */
module RecoveryRuns {
  import opened Common
  import opened Fleet
  import opened FleetSafety
  import opened Recovery
  import E = Escrow
  import EscrowErrors

  /** Each goroutine still to run can be answered conclusively. */
  predicate Answerable(f: Fleet, n: NodeId, id: DeploymentId)
    requires n in f.nodes
  {
    var node := f.nodes[n];
    && Sweep(id) in node.tasks && node.tasks[Sweep(id)] == SweepFinalize(id)
    && (HasReservation(f, id) ==> id in node.cache)
    && (id in node.cache ==> var s := E.StatusOf(f.world, node.cache[id]); s.Active? || s.Terminal())
  }

  ghost predicate Ready(f: Fleet, n: NodeId, order: seq<DeploymentId>) {
    && Inv(f) && n in f.nodes
    && (forall i :: 0 <= i < |order| ==> Answerable(f, n, order[i]))
    && (forall i, j :: 0 <= i < j < |order| ==> order[i] != order[j])
    && (forall t :: t in f.nodes[n].tasks && t.Sweep? ==> t.id in order)
  }

  function Response(f: Fleet, n: NodeId, id: DeploymentId): E.Answer
    requires n in f.nodes
  {
    if id !in f.nodes[n].cache then E.NoReservation
    else if E.StatusOf(f.world, f.nodes[n].cache[id]).Active? then E.Done(true)
    else E.Reverted(E.RpcError(Some(E.InvalidStatus(Some(E.StatusOf(f.world, f.nodes[n].cache[id])))), "execution reverted"))
  }

  lemma TwoSteps(f: Fleet, e: Event, m: Event)
    requires Enabled(f, e) && Enabled(Step(f, e), m)
    ensures IsRun(f, [e, m]) && Run(f, [e, m]) == Step(Step(f, e), m)
  {
    hide Step, Enabled;
    var f1 := Step(f, e);
    assert [e, m][1..] == [m] && [m][1..] == [];
    assert IsRun(Step(f1, m), []) && Run(Step(f1, m), []) == Step(f1, m);
    assert IsRun(f1, [m]) && Run(f1, [m]) == Step(f1, m);
  }

  lemma TwoQuietSteps(f: Fleet, n: NodeId, e: Event, m: Event)
    requires Enabled(f, e) && Enabled(Step(f, e), m) && IsRun(f, [e, m])
    requires Quiet(f, n, e) && Quiet(Step(f, e), n, m)
    ensures QuietRun(f, n, [e, m])
  {
    hide Step, Enabled, Quiet;
    var f1 := Step(f, e);
    assert [e, m][1..] == [m] && [m][1..] == [];
    assert QuietRun(Step(f1, m), n, []);
    assert QuietRun(f1, n, [m]);
  }

  /** The orphan's finalize call. */
  lemma CallInOrder(f: Fleet, n: NodeId, id: DeploymentId)
    requires Inv(f) && n in f.nodes && Answerable(f, n, id)
    ensures var e := Advance(n, Sweep(id), Response(f, n, id));
            && Enabled(f, e) && Quiet(f, n, e)
            && var f' := Step(f, e);
            && n in f'.nodes && f'.book == f.book
            && f'.nodes[n].heap == f.nodes[n].heap && f'.nodes[n].index == f.nodes[n].index
            && f'.nodes[n].cache.Keys <= f.nodes[n].cache.Keys && f.nodes[n].cache.Keys <= f'.nodes[n].cache.Keys + {id}
            && (forall i :: i in f'.nodes[n].cache ==> f'.nodes[n].cache[i] == f.nodes[n].cache[i])
            && f'.nodes[n].tasks == (if id in f.nodes[n].cache then f.nodes[n].tasks[Sweep(id) := SweepMark(id)]
                                     else f.nodes[n].tasks - {Sweep(id)})
            && (forall r :: E.StatusOf(f.world, r).Active? || E.StatusOf(f.world, r).Terminal() ==>
                  E.StatusOf(f'.world, r).Active? || E.StatusOf(f'.world, r).Terminal())
  {
    hide Inv;
  }

  /** The orphan's mark. */
  lemma MarkInOrder(f: Fleet, n: NodeId, id: DeploymentId)
    requires Inv(f) && n in f.nodes && Sweep(id) in f.nodes[n].tasks && f.nodes[n].tasks[Sweep(id)] == SweepMark(id)
    ensures var e := Advance(n, Sweep(id), E.NoReservation);
            && Enabled(f, e) && Quiet(f, n, e)
            && var f' := Step(f, e);
            && n in f'.nodes && f'.book == f.book && f'.world == f.world
            && f'.nodes[n].cache == f.nodes[n].cache
            && f'.nodes[n].index == f.nodes[n].index
            && (id in f.nodes[n].index ==> f.nodes[n].index[id] in f.nodes[n].heap)
            && f'.nodes[n].heap == (if id in f.nodes[n].index
                                    then f.nodes[n].heap[f.nodes[n].index[id] := f.nodes[n].heap[f.nodes[n].index[id]].(escrowFinalized := true)]
                                    else f.nodes[n].heap)
            && f'.nodes[n].tasks == f.nodes[n].tasks - {Sweep(id)}
  {
    hide Inv, NodeOk;
    InvAt(f, n);
    if id in f.nodes[n].index {
      EntryAt(f, n, f.nodes[n], id);
    }
  }

  /** One goroutine runs to its end; the others can still be answered. */
  lemma OneInOrder(f: Fleet, n: NodeId, order: seq<DeploymentId>) returns (es: seq<Event>)
    requires Ready(f, n, order) && order != []
    ensures IsRun(f, es) && QuietRun(f, n, es) && Ready(Run(f, es), n, order[1..])
  {
    hide Inv, Quiet, Step, Enabled, HasReservation;
    var id := order[0];
    var e := Advance(n, Sweep(id), Response(f, n, id));
    CallInOrder(f, n, id);
    StepKeepsInv(f, e);
    var f1 := Step(f, e);
    if id in f.nodes[n].cache {
      MarkInOrder(f1, n, id);
      var m := Advance(n, Sweep(id), E.NoReservation);
      StepKeepsInv(f1, m);
      es := [e, m];
      TwoSteps(f, e, m);
      TwoQuietSteps(f, n, e, m);
      OthersReady(f, n, order, Step(f1, m));
    } else {
      es := [e];
      assert es[1..] == [];
      assert IsRun(f1, []) && Run(f1, []) == f1 && QuietRun(f1, n, []);
      OthersReady(f, n, order, f1);
    }
  }

  lemma OthersReady(f: Fleet, n: NodeId, order: seq<DeploymentId>, g: Fleet)
    requires Ready(f, n, order) && order != [] && Inv(g) && n in g.nodes && g.book == f.book
    requires g.nodes[n].tasks == f.nodes[n].tasks - {Sweep(order[0])}
    requires f.nodes[n].cache.Keys <= g.nodes[n].cache.Keys + {order[0]} && g.nodes[n].cache.Keys <= f.nodes[n].cache.Keys
    requires forall i :: i in g.nodes[n].cache ==> g.nodes[n].cache[i] == f.nodes[n].cache[i]
    requires forall r :: E.StatusOf(f.world, r).Active? || E.StatusOf(f.world, r).Terminal() ==>
               E.StatusOf(g.world, r).Active? || E.StatusOf(g.world, r).Terminal()
    ensures Ready(g, n, order[1..])
  {
    hide Inv;
    forall i | 0 <= i < |order[1..]|
      ensures Answerable(g, n, order[1..][i])
    {
      assert Answerable(f, n, order[i + 1]);
    }
  }

  lemma {:induction false} QuietRunsJoin(f: Fleet, n: NodeId, a: seq<Event>, b: seq<Event>)
    requires IsRun(f, a) && QuietRun(f, n, a) && IsRun(Run(f, a), b) && QuietRun(Run(f, a), n, b) && IsRun(f, a + b)
    ensures QuietRun(f, n, a + b)
    decreases |a|
  {
    hide Quiet, Step, Enabled;
    if a == [] {
      assert a + b == b;
    } else {
      assert (a + b)[0] == a[0] && (a + b)[1..] == a[1..] + b;
      QuietRunsJoin(Step(f, a[0]), n, a[1..], b);
    }
  }

  /**
   The sweep can finish: if every orphan with a reservation is in the cache and
   its reservation is active or has ended, then for every order of the goroutines
   there is a run without transient errors that drains them all.
   */
  lemma {:induction false} SweepFinishesInAnyOrder(f: Fleet, n: NodeId, order: seq<DeploymentId>) returns (es: seq<Event>)
    requires Ready(f, n, order)
    ensures IsRun(f, es) && QuietRun(f, n, es)
    ensures n in Run(f, es).nodes && Drained(Run(f, es).nodes[n])
    decreases |order|
  {
    hide Step, Enabled, Quiet, Inv;
    if order == [] {
      es := [];
    } else {
      var first := OneInOrder(f, n, order);
      var rest := SweepFinishesInAnyOrder(Run(f, first), n, order[1..]);
      RunsJoin(f, first, rest);
      QuietRunsJoin(f, n, first, rest);
      es := first + rest;
    }
  }

  /** The reservations the sweep of node `n` is going to finalize are active or have ended. */
  ghost predicate Finalizable(f: Fleet, n: NodeId)
    requires n in f.nodes
  {
    var swept := SweepNode(f.nodes[n], n);
    forall id :: id in Orphans(f.nodes[n], n) && id in swept.cache ==>
                   var s := E.StatusOf(f.world, swept.cache[id]); s.Active? || s.Terminal()
  }

  lemma SweepWarmsOrphan(f: Fleet, n: NodeId, id: DeploymentId)
    requires Inv(f) && n in f.nodes && id in Orphans(f.nodes[n], n) && HasReservation(f, id)
    requires f.nodes[n].index[id].id == id
    ensures id in SweepNode(f.nodes[n], n).cache
  {
    hide SweepNode, NodeOk;
    InvAt(f, n);
    ObjectAt(f, n, f.nodes[n], f.nodes[n].index[id]);
    OrphanIsCached(f.nodes[n], n, id);
  }

  lemma OrphanIsCached(node: Node, n: NodeId, id: DeploymentId)
    requires id in Orphans(node, n) && node.heap[node.index[id]].reservation.Id?
    ensures id in SweepNode(node, n).cache
  {
  }

  lemma OnlyOrphansAreTaken(node: Node, n: NodeId, t: TaskId)
    requires Drained(node) && t in SweepNode(node, n).tasks && t.Sweep?
    ensures t.id in Orphans(node, n)
  {
  }

  lemma OrphanIsAnswerable(f: Fleet, n: NodeId, s: Fleet, id: DeploymentId)
    requires Inv(f) && n in f.nodes && Finalizable(f, n) && id in Orphans(f.nodes[n], n)
    requires n in s.nodes && s.nodes[n] == SweepNode(f.nodes[n], n) && s.world == f.world && s.book == f.book
    ensures Answerable(s, n, id)
  {
    hide SweepNode, Orphans, Inv, NodeOk;
    SweepTakesOrphans(f.nodes[n], n, id);
    IndexedUnderItsId(f, n, id);
    if HasReservation(f, id) {
      SweepWarmsOrphan(f, n, id);
    }
  }

  lemma IndexedUnderItsId(f: Fleet, n: NodeId, id: DeploymentId)
    requires Inv(f) && n in f.nodes && id in Orphans(f.nodes[n], n)
    ensures id in f.nodes[n].index && f.nodes[n].index[id].id == id
  {
    InvAt(f, n);
  }

  /**
   From every fleet that keeps the invariant, and for every order of the
   goroutines, a sweep that meets no transient error exists if the reservations it
   finalizes are active or have ended.
   */
  lemma SweepCanFinish(f: Fleet, n: NodeId, order: seq<DeploymentId>) returns (es: seq<Event>, end: Fleet)
    requires Inv(f) && n in f.nodes && Drained(f.nodes[n]) && Finalizable(f, n)
    requires forall id :: id in order <==> id in Orphans(f.nodes[n], n)
    requires forall i, j :: 0 <= i < j < |order| ==> order[i] != order[j]
    ensures Swept(f, n, es, end)
  {
    var s := Step(f, SweepBegin(n));
    SweepStarts(f, n);
    StepKeepsInv(f, SweepBegin(n));
    hide Step, Enabled, SweepNode, Orphans, Inv, Finalizable, Answerable;
    forall i | 0 <= i < |order|
      ensures Answerable(s, n, order[i])
    {
      OrphanIsAnswerable(f, n, s, order[i]);
    }
    forall t | t in s.nodes[n].tasks && t.Sweep?
      ensures t.id in order
    {
      OnlyOrphansAreTaken(f.nodes[n], n, t);
    }
    es := SweepFinishesInAnyOrder(s, n, order);
    end := Run(s, es);
  }

  lemma SweepStarts(f: Fleet, n: NodeId)
    requires n in f.nodes && Drained(f.nodes[n])
    ensures Enabled(f, SweepBegin(n))
    ensures var s := Step(f, SweepBegin(n));
            n in s.nodes && s.nodes[n] == SweepNode(f.nodes[n], n) && s.world == f.world && s.book == f.book
  {
    hide SweepNode;
  }

  lemma BootMisleadsNobody(f: Fleet, n: NodeId, g: nat, boot: seq<Event>, f1: Fleet)
    requires Inv(f) && Rebooted(f, n, g, boot, f1)
    ensures f1.misled == f.misled
  {
    hide Inv, Step;
    var crashed := Step(f, Crash(n));
    StepKeepsInv(f, Crash(n));
    CandidStep(f, Crash(n));
    StepKeepsInv(crashed, Load(n, g));
    CandidStep(crashed, Load(n, g));
    CandidRunsMisleadNobody(Step(crashed, Load(n, g)), boot);
  }

  lemma SweepMisleadsNobody(f: Fleet, n: NodeId, es: seq<Event>, end: Fleet)
    requires Inv(f) && Swept(f, n, es, end) && forall e :: e in es ==> Candid(e)
    ensures end.misled == f.misled && E.Tidy(end.world)
  {
    hide Step, Enabled, Quiet, Drained;
    var s := Step(f, SweepBegin(n));
    StepKeepsInv(f, SweepBegin(n));
    CandidStep(f, SweepBegin(n));
    RunKeepsInv(s, es);
    CandidRunsMisleadNobody(s, es);
  }

  /**
   What crash recovery leaves when the errors that reach the sweep are candid: the
   flag, and a reservation that is terminal on chain exactly if no accepted ending of it is unmined.
   */
  lemma CrashRecoveryOnChain(f: Fleet, n: NodeId, g: nat, boot: seq<Event>, f1: Fleet, es: seq<Event>, end: Fleet, id: DeploymentId,
                             report: Report)
    requires Inv(f) && Rebooted(f, n, g, boot, f1) && Swept(f1, n, es, end)
    requires id in f.nodes[n].disk && AskedOnce(boot) && Reports(boot, n, id, report)
    requires var d := f.nodes[n].disk[id]; d.originator == n && d.reservation.Id? && Ended(d.status, report)
    requires id !in f.misled && forall e :: e in es ==> Candid(e)
    ensures n in end.nodes
    ensures id in end.nodes[n].index && end.nodes[n].index[id] == Ref(id, g) ==>
              && Ref(id, g) in end.nodes[n].heap && end.nodes[n].heap[Ref(id, g)].escrowFinalized
              && end.nodes[n].heap[Ref(id, g)].reservation == f.nodes[n].disk[id].reservation
              && FlagIsTrue(end.world, end.nodes[n].heap[Ref(id, g)])
  {
    assert n in f.nodes;
    hide Inv, Rebooted, Swept;
    CrashRecovery(f, n, g, boot, f1, es, end, id, report);
    BootMisleadsNobody(f, n, g, boot, f1);
    RebootedIsLoaded(f, n, g, boot, f1);
    SweepMisleadsNobody(f1, n, es, end);
    var field := f.nodes[n].disk[id].reservation;
    if field.Id? && E.Settling(end.world, field.n) {
      E.SettlingSplits(end.world, field.n);
    }
  }

  /** In every fleet that keeps the invariant, an accepted ending can still be mined, and that ends the reservation. */
  lemma AcceptedEndingCanBeMined(f: Fleet, r: E.ReservationId)
    requires Inv(f) && r in f.world.unmined
    ensures exists a: E.Action :: a.Ends() && Enabled(f, ChainStep(r, a)) &&
              E.StatusOf(Step(f, ChainStep(r, a)).world, r).Terminal() && r !in Step(f, ChainStep(r, a)).world.unmined
  {
    var a := E.Refund;
    assert Enabled(f, ChainStep(r, a));
  }

  // ---------------------------------------------------------------- which errors make flags untrue

  const ORPHAN := Deployment(Stopped, 0, Id(7), false, true)
  const REF := Ref("d", 0)

  /** One daemon, down, with one stopped deployment on disk and its reservation. */
  function Stranded(status: E.Status): Fleet {
    Fleet(map[0 := Node(map[], map[], map["d" := ORPHAN], map[], map[], {})],
          E.World(map[7 := status], {}), map["d" := Entry(0, Id(7))], {}, [], {})
  }

  /** It restarts, and its sweep gets the given answer. */
  function StrandingRun(answer: E.Answer): seq<Event> {
    [Load(0, 0), SweepBegin(0), Advance(0, Sweep("d"), answer), Advance(0, Sweep("d"), E.NoReservation)]
  }

  lemma StrandedLoads(node: Node)
    requires node == Node(map[], map[], map["d" := ORPHAN], map[], map[], {})
    ensures LoadNode(node, 0) == node.(index := map["d" := REF], heap := map[REF := ORPHAN])
  {
    var refs := map id | id in node.disk :: Ref(id, 0);
    assert refs == map["d" := REF];
    assert refs["d"] in refs.Values;
  }

  lemma StrandedSweeps(node: Node)
    requires node.index == map["d" := REF] && node.heap == map[REF := ORPHAN] && node.cache == map[] && node.tasks == map[]
    ensures SweepNode(node, 0) == node.(cache := map["d" := 7], tasks := map[Sweep("d") := SweepFinalize("d")])
  {
    var orphans := Orphans(node, 0);
    assert "d" in orphans;
    assert orphans == {"d"};
    var sweeps := map id | id in orphans :: Sweep(id);
    assert sweeps["d"] in sweeps.Values;
    assert SweepNode(node, 0).cache == map["d" := 7];
    assert SweepNode(node, 0).tasks == map[Sweep("d") := SweepFinalize("d")];
  }

  lemma StrandedAfterLoad(status: E.Status) returns (f1: Fleet)
    ensures Enabled(Stranded(status), Load(0, 0)) && f1 == Step(Stranded(status), Load(0, 0))
    ensures f1.world == Stranded(status).world && f1.nodes.Keys == {0} && f1.nodes[0] == LoadNode(Stranded(status).nodes[0], 0)
  {
    hide LoadNode;
    f1 := Step(Stranded(status), Load(0, 0));
  }

  lemma StrandingFirstHalf(status: E.Status) returns (g: Fleet)
    ensures IsRun(Stranded(status), [Load(0, 0), SweepBegin(0)]) && g == Run(Stranded(status), [Load(0, 0), SweepBegin(0)])
    ensures g.world == Stranded(status).world && 0 in g.nodes
    ensures g.nodes[0].index == map["d" := REF] && g.nodes[0].heap == map[REF := ORPHAN]
    ensures g.nodes[0].cache == map["d" := 7] && g.nodes[0].tasks == map[Sweep("d") := SweepFinalize("d")]
  {
    hide IsRun, Run, LoadNode, SweepNode;
    var f := Stranded(status);
    StrandedLoads(f.nodes[0]);
    var f1 := StrandedAfterLoad(status);
    StrandedSweeps(f1.nodes[0]);
    g := Step(f1, SweepBegin(0));
    TwoSteps(f, Load(0, 0), SweepBegin(0));
  }

  /** A finalize call whose answer makes the goroutine go on to its mark. */
  lemma CallConcludes(f: Fleet, n: NodeId, id: DeploymentId, answer: E.Answer)
    requires n in f.nodes && Sweep(id) in f.nodes[n].tasks && f.nodes[n].tasks[Sweep(id)] == SweepFinalize(id)
    requires id in f.nodes[n].cache && E.CanAnswer(f.world, Some(f.nodes[n].cache[id]), E.Finalize, answer)
    requires EscrowErrors.Concludes(answer)
    ensures var e := Advance(n, Sweep(id), answer);
            Enabled(f, e) && OnlyConcluded(f, Step(f, e), n, id, answer)
  {
    hide EscrowErrors.Concludes;
  }

  predicate OnlyConcluded(f: Fleet, f': Fleet, n: NodeId, id: DeploymentId, answer: E.Answer) {
    && n in f.nodes && n in f'.nodes && id in f.nodes[n].cache
    && E.CanAnswer(f.world, Some(f.nodes[n].cache[id]), E.Finalize, answer)
    && f'.world == E.After(f.world, Some(f.nodes[n].cache[id]), E.Finalize, answer)
    && f'.nodes[n].index == f.nodes[n].index
    && f'.nodes[n].heap == f.nodes[n].heap
    && f'.nodes[n].tasks == f.nodes[n].tasks[Sweep(id) := SweepMark(id)]
  }

  lemma StrandedInit(status: E.Status)
    ensures Init(Stranded(status))
  {
  }

  /** The end of the stranding run: the deployment is flagged and out of reach of every later sweep. */
  ghost predicate Flagged(h: Fleet) {
    && 0 in h.nodes && "d" in h.nodes[0].index && h.nodes[0].index["d"] == REF && REF in h.nodes[0].heap
    && h.nodes[0].heap[REF] == ORPHAN.(escrowFinalized := true)
    && "d" !in Orphans(h.nodes[0], 0)
  }

  lemma Stranding(status: E.Status, answer: E.Answer)
    requires E.CanAnswer(Stranded(status).world, Some(7), E.Finalize, answer) && EscrowErrors.Concludes(answer)
    ensures Init(Stranded(status)) && IsRun(Stranded(status), StrandingRun(answer))
    ensures var h := Run(Stranded(status), StrandingRun(answer));
            Flagged(h) && h.world == E.After(Stranded(status).world, Some(7), E.Finalize, answer)
  {
    hide Step, Enabled, IsRun, Run, Init, Inv, EscrowErrors.Concludes;
    var f := Stranded(status);
    StrandedInit(status);
    InitInv(f);
    var boot, ends := [Load(0, 0), SweepBegin(0)],
                      [Advance(0, Sweep("d"), answer), Advance(0, Sweep("d"), E.NoReservation)];
    var g := StrandingFirstHalf(status);
    RunKeepsInv(f, boot);
    CallConcludes(g, 0, "d", answer);
    StepKeepsInv(g, ends[0]);
    MarkInOrder(Step(g, ends[0]), 0, "d");
    TwoSteps(g, ends[0], ends[1]);
    RunsJoin(f, boot, ends);
    assert boot + ends == StrandingRun(answer);
  }

  /**
   The flag leads the chain while an acknowledged transaction is not mined: in
   this run the deployment ends up flagged while its reservation is still active,
   and no later sweep takes it on.
   */
  lemma UnminedTransactionStrandsTheEscrow()
    ensures var h := Run(Stranded(E.Active), StrandingRun(E.Done(false)));
            && Init(Stranded(E.Active)) && IsRun(Stranded(E.Active), StrandingRun(E.Done(false)))
            && Flagged(h) && E.StatusOf(h.world, 7).Active? && 7 in h.world.unmined
  {
    Stranding(E.Active, E.Done(false));
  }

  function MisleadingAnswer(status: E.Status, err: E.RpcError): E.Answer {
    if status.Created? then E.Reverted(err) else E.Lost(false, err)
  }

  /**
   Every error that is not plain strands an escrow: refused on a reservation whose
   providers are not selected, or lost on an active one, it leaves the deployment
   flagged while the reservation is live and nothing is on its way to end it.
   */
  lemma MisleadingErrorStrandsTheEscrow(status: E.Status, err: E.RpcError)
    requires (status.Created? || status.Active?) && !EscrowErrors.Plain(err)
    ensures var es := StrandingRun(MisleadingAnswer(status, err));
            var h := Run(Stranded(status), es);
            && Init(Stranded(status)) && IsRun(Stranded(status), es)
            && Flagged(h) && E.StatusOf(h.world, 7) == status && 7 !in h.world.unmined
  {
    Stranding(status, MisleadingAnswer(status, err));
  }

  /** Every error that reaches a sweep goroutine is among those that the network relays. */
  ghost predicate ErrorsAmong(es: seq<Event>, relayed: iset<E.RpcError>) {
    forall e :: e in es && e.Advance? && e.t.Sweep? && (e.answer.Reverted? || e.answer.Lost?) ==> e.answer.err in relayed
  }

  /** In every run over such a network, every flag of every copy is true. */
  ghost predicate FlagsAreTrue(relayed: iset<E.RpcError>) {
    forall f, es, id, d :: Init(f) && IsRun(f, es) && ErrorsAmong(es, relayed) ==>
                             Held(Run(f, es), id, d) && d.escrowFinalized ==> FlagIsTrue(Run(f, es).world, d)
  }

  /**
   The safety of the flag, exactly: whatever errors the network can relay to the
   sweeps, all flags of all runs are true if and only if each of those errors
   decodes or has none of the phrases.
   */
  lemma FlagsAreTrueIff(relayed: iset<E.RpcError>)
    ensures FlagsAreTrue(relayed) <==> forall err :: err in relayed ==> EscrowErrors.Plain(err)
  {
    if forall err :: err in relayed ==> EscrowErrors.Plain(err) {
      forall f, es, id, d | Init(f) && IsRun(f, es) && ErrorsAmong(es, relayed) && Held(Run(f, es), id, d) && d.escrowFinalized
        ensures FlagIsTrue(Run(f, es).world, d)
      {
        FlagNeverLeadsChain(f, es, id, d);
      }
    }
    if err :| err in relayed && !EscrowErrors.Plain(err) {
      MisleadingErrorBreaks(relayed, err);
    }
  }

  lemma MisleadingErrorBreaks(relayed: iset<E.RpcError>, err: E.RpcError)
    requires err in relayed && !EscrowErrors.Plain(err)
    ensures !FlagsAreTrue(relayed)
  {
    hide Init, IsRun, Run, EscrowErrors.Plain, Orphans;
    var f, es := Stranded(E.Active), StrandingRun(E.Lost(false, err));
    MisleadingErrorStrandsTheEscrow(E.Active, err);
    var h, d := Run(f, es), ORPHAN.(escrowFinalized := true);
    assert HeldInMemory(h.nodes[0], "d", d);
    assert HeldAt(h.nodes[0], "d", d);
    assert Held(h, "d", d);
    assert !FlagIsTrue(h.world, d);
  }
}
