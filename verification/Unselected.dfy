/**
 Reservations that stay live: no activation of a daemon ever selects providers,
 and a sweep flags a live deployment exactly if an error made it believe otherwise.
 */
module Unselected {
  import opened Common
  import opened Fleet
  import opened FleetSafety
  import opened Recovery
  import E = Escrow
  import EscrowErrors
  import A = Activation

  // ---------------------------------------------------------------- nobody selects providers

  /** A reservation whose providers were never selected: it can only be refunded. */
  predicate Unstarted(s: E.Status) {
    s.Absent? || s.Created? || s.Refunded?
  }

  /** The provider array the daemon can pass is refused, so an activation leaves the chain alone. */
  lemma ActivationTakesNothing(f: Fleet, e: Event)
    requires Enabled(f, e) && e.Activate?
    ensures !E.Takes(e.answer) && Step(f, e).world == f.world
  {
    A.SnapshotIsRefused(e.wallet, e.directory, e.acks);
    hide A.Providers, A.ContractAccepts, A.IsSnapshot;
  }

  lemma StepLeavesUnstarted(f: Fleet, e: Event, r: E.ReservationId)
    requires Enabled(f, e) && Unstarted(E.StatusOf(f.world, r)) && e != ChainStep(r, E.SelectProviders)
    ensures Unstarted(E.StatusOf(Step(f, e).world, r))
  {
    hide NodeStep, A.Providers, A.ContractAccepts, A.IsSnapshot;
    if e.Activate? {
      ActivationTakesNothing(f, e);
    }
  }

  /**
   Whatever the daemons of the fleet do, they never get providers selected: unless
   somebody else does it, a reservation is in no run activated, completed or disputed.
   */
  lemma {:induction false} DaemonsNeverActivate(f: Fleet, es: seq<Event>, r: E.ReservationId)
    requires IsRun(f, es) && Unstarted(E.StatusOf(f.world, r)) && ChainStep(r, E.SelectProviders) !in es
    ensures Unstarted(E.StatusOf(Run(f, es).world, r))
    decreases |es|
  {
    hide Step, Enabled;
    if es != [] {
      StepLeavesUnstarted(f, es[0], r);
      DaemonsNeverActivate(Step(f, es[0]), es[1..], r);
    }
  }

  // ---------------------------------------------------------------- what sets a flag

  /** The sweep's finalize call for `id` comes back with an error that the classifier takes for the end. */
  predicate MatchStep(f: Fleet, n: NodeId, id: DeploymentId, e: Event) {
    && e.Advance? && e.n == n && e.t == Sweep(id) && n in f.nodes
    && Sweep(id) in f.nodes[n].tasks && f.nodes[n].tasks[Sweep(id)].SweepFinalize?
    && (e.answer.Reverted? || e.answer.Lost?) && EscrowErrors.IsAlreadyTerminal(e.answer.err)
  }

  predicate Matched(f: Fleet, n: NodeId, id: DeploymentId, es: seq<Event>)
    decreases |es|
  {
    es != [] && (MatchStep(f, n, id, es[0]) || Matched(Step(f, es[0]), n, id, es[1..]))
  }

  /** Neither the flag of `ref` nor the goroutine of `id` is new. */
  ghost predicate Unmarked(node: Node, node': Node, id: DeploymentId, ref: Ref)
    requires ref in node.heap && ref in node'.heap
  {
    && (node'.heap[ref].escrowFinalized ==> node.heap[ref].escrowFinalized)
    && (Sweep(id) in node'.tasks ==> Sweep(id) in node.tasks && node'.tasks[Sweep(id)] == node.tasks[Sweep(id)])
  }

  lemma LocalStepUnmarked(node: Node, n: NodeId, t: TaskId, field: ReservationField, id: DeploymentId, ref: Ref)
    requires t in node.tasks && CallOf(node.tasks[t]).None? && !node.tasks[t].Save? && t != Sweep(id)
    requires RefHeld(node, node.tasks[t]) && ref in node.heap
    requires node.tasks[t].DeployRecord? ==> Ref(node.tasks[t].id, 0) !in node.heap
    requires node.tasks[t] != StopMark(ref) && node.tasks[t] != DeleteMark(ref)
    requires node.tasks[t].SweepMark? && node.tasks[t].id in node.index ==> node.index[node.tasks[t].id] != ref
    ensures var node' := LocalStep(node, n, t, field);
            ref in node'.heap && Unmarked(node, node', id, ref)
  {
  }

  lemma CallStepUnmarked(node: Node, t: TaskId, answer: E.Answer, id: DeploymentId, ref: Ref)
    requires t in node.tasks && CallOf(node.tasks[t]).Some? && t != Sweep(id) && ref in node.heap
    ensures Unmarked(node, CallStep(node, t, answer), id, ref)
  {
  }

  lemma PlainStepUnmarked(f: Fleet, n: NodeId, node: Node, e: Event, id: DeploymentId, ref: Ref)
    requires !e.ChainStep? && NodeEnabled(f, n, node, e) && ref in node.heap
    requires !e.Advance? && !e.Crash? && !e.Load? && !e.SweepBegin?
    requires e.DeployFail? || e.SavePut? || e.SaveReplace? || e.Abandon? ==> !e.t.Sweep?
    ensures var node' := NodeStep(f, n, node, e);
            ref in node'.heap && Unmarked(node, node', id, ref)
  {
  }

  /** The only operation of the daemon that can flag a live deployment is the goroutine of its sweep. */
  lemma LiveTask(f: Fleet, n: NodeId, node: Node, t: TaskId, id: DeploymentId, ref: Ref, r: E.ReservationId)
    requires NodeOk(f, n, node) && t in node.tasks && t != Sweep(id) && ref.id == id
    requires id in f.book && f.book[id].reservation == Id(r) && !E.Settling(f.world, r)
    ensures node.tasks[t] != StopMark(ref) && node.tasks[t] != DeleteMark(ref)
    ensures node.tasks[t].SweepMark? && node.tasks[t].id in node.index ==> node.index[node.tasks[t].id] != ref
  {
    TaskAt(f, n, node, t);
    if node.tasks[t].SweepMark? && node.tasks[t].id in node.index {
      EntryAt(f, n, node, node.tasks[t].id);
    }
  }

  lemma OtherStepUnmarked(f: Fleet, n: NodeId, e: Event, id: DeploymentId, ref: Ref, r: E.ReservationId)
    requires Inv(f) && Enabled(f, e) && Calm(n, e) && !e.ChainStep? && e.n == n
    requires ref in f.nodes[n].heap && ref.id == id && !(e.Advance? && e.t == Sweep(id))
    requires id in f.book && f.book[id].reservation == Id(r) && !E.Settling(f.world, r)
    ensures var node' := NodeStep(f, n, f.nodes[n], e);
            ref in node'.heap && Unmarked(f.nodes[n], node', id, ref)
  {
    hide Inv, NodeOk;
    var node := f.nodes[n];
    InvAt(f, n);
    if e.Advance? {
      if CallOf(node.tasks[e.t]).None? {
        var task := node.tasks[e.t];
        LiveTask(f, n, node, e.t, id, ref, r);
        LocalStepUnmarked(node, n, e.t, if task.DeployRecord? then f.book[task.id].reservation else Empty, id, ref);
      } else {
        CallStepUnmarked(node, e.t, e.answer, id, ref);
      }
    } else {
      if e.DeployFail? || e.SavePut? || e.SaveReplace? {
        TaskAt(f, n, node, e.t);
      }
      PlainStepUnmarked(f, n, node, e, id, ref);
    }
  }

  // ---------------------------------------------------------------- following one orphan through its sweep

  /** Where the sweep of a live orphan stands, and whether an error has matched so far. */
  ghost predicate Tracked(f: Fleet, n: NodeId, id: DeploymentId, ref: Ref, r: E.ReservationId, matched: bool) {
    && n in f.nodes && ref in f.nodes[n].heap && ref.id == id
    && id in f.book && f.book[id].reservation == Id(r)
    && TrackedAt(f.nodes[n], id, ref, matched)
  }

  predicate TrackedAt(node: Node, id: DeploymentId, ref: Ref, matched: bool)
    requires ref in node.heap
  {
    if Sweep(id) in node.tasks
    then !node.heap[ref].escrowFinalized && node.tasks[Sweep(id)] == (if matched then SweepMark(id) else SweepFinalize(id))
    else id in node.index && node.index[id] == ref ==> (node.heap[ref].escrowFinalized <==> matched)
  }

  lemma UnmarkedStaysTracked(node: Node, node': Node, id: DeploymentId, ref: Ref, matched: bool)
    requires ref in node.heap && TrackedAt(node, id, ref, matched) && Keeps(node, node', id, ref) && Unmarked(node, node', id, ref)
    ensures TrackedAt(node', id, ref, matched)
  {
  }

  /** The goroutine's own steps. */
  lemma OwnStepTracked(f: Fleet, n: NodeId, e: Event, id: DeploymentId, ref: Ref, r: E.ReservationId, matched: bool)
    requires Inv(f) && Enabled(f, e) && Tracked(f, n, id, ref, r, matched)
    requires e.Advance? && e.n == n && e.t == Sweep(id) && !E.Settling(Step(f, e).world, r)
    ensures var node' := NodeStep(f, n, f.nodes[n], e);
            ref in node'.heap && TrackedAt(node', id, ref, matched || MatchStep(f, n, id, e))
  {
    hide Inv, NodeOk, EscrowErrors.IsAlreadyTerminal;
    var node := f.nodes[n];
    InvAt(f, n);
    if id in node.index {
      EntryAt(f, n, node, id);
    }
    if id in node.cache {
      CacheAt(f, n, node, id);
    }
  }

  lemma StepTracked(f: Fleet, n: NodeId, e: Event, id: DeploymentId, ref: Ref, r: E.ReservationId, matched: bool)
    requires Inv(f) && Enabled(f, e) && Calm(n, e) && Tracked(f, n, id, ref, r, matched)
    requires !E.Settling(f.world, r) && !E.Settling(Step(f, e).world, r)
    ensures Tracked(Step(f, e), n, id, ref, r, matched || MatchStep(f, n, id, e))
  {
    hide NodeStep, Inv, WorldStep, NodeEnabled, TrackedAt;
    BookKept(f, e, id);
    if !e.ChainStep? && e.n == n {
      if e.Advance? && e.t == Sweep(id) {
        OwnStepTracked(f, n, e, id, ref, r, matched);
      } else {
        OtherStepKeeps(f, n, e, id, ref);
        OtherStepUnmarked(f, n, e, id, ref, r);
        UnmarkedStaysTracked(f.nodes[n], NodeStep(f, n, f.nodes[n], e), id, ref, matched);
      }
    }
  }

  lemma {:induction false} SettlingStays(f: Fleet, es: seq<Event>, r: E.ReservationId)
    requires IsRun(f, es) && E.Settling(f.world, r)
    ensures E.Settling(Run(f, es).world, r)
    decreases |es|
  {
    hide Step, Enabled, E.Settling;
    if es != [] {
      StepExtends(f, es[0]);
      SettlingStays(Step(f, es[0]), es[1..], r);
    }
  }

  lemma {:induction false} RunTracked(f: Fleet, n: NodeId, es: seq<Event>, id: DeploymentId, ref: Ref, r: E.ReservationId, matched: bool)
    requires Inv(f) && IsRun(f, es) && (forall e :: e in es ==> Calm(n, e)) && Tracked(f, n, id, ref, r, matched)
    requires !E.Settling(Run(f, es).world, r)
    ensures Tracked(Run(f, es), n, id, ref, r, matched || Matched(f, n, id, es))
    decreases |es|
  {
    hide Inv, Step, Enabled, Calm, Tracked, MatchStep, E.Settling;
    if es != [] {
      var f' := Step(f, es[0]);
      if E.Settling(f.world, r) {
        SettlingStays(f, es, r);
      }
      if E.Settling(f'.world, r) {
        SettlingStays(f', es[1..], r);
      }
      StepTracked(f, n, es[0], id, ref, r, matched);
      StepKeepsInv(f, es[0]);
      RunTracked(f', n, es[1..], id, ref, r, matched || MatchStep(f, n, id, es[0]));
    }
  }

  /** A sweep of node `n` from `f`, interrupted by nothing but errors, that is done at `end`. */
  ghost predicate Finished(f: Fleet, n: NodeId, es: seq<Event>, end: Fleet) {
    && Enabled(f, SweepBegin(n))
    && IsRun(Step(f, SweepBegin(n)), es) && end == Run(Step(f, SweepBegin(n)), es)
    && (forall e :: e in es ==> Calm(n, e))
    && n in end.nodes && Drained(end.nodes[n])
  }

  /** The sweep's call for `id` met an error that the classifier takes for the end. */
  predicate ErrorMatched(f: Fleet, n: NodeId, id: DeploymentId, es: seq<Event>) {
    Matched(Step(f, SweepBegin(n)), n, id, es)
  }

  lemma SweepTracks(f: Fleet, n: NodeId, id: DeploymentId, ref: Ref, r: E.ReservationId)
    requires Inv(f) && Enabled(f, SweepBegin(n)) && n in f.nodes && Due(f.nodes[n], n, id, ref)
    requires f.nodes[n].heap[ref].reservation == Id(r) && !f.nodes[n].heap[ref].escrowFinalized
    ensures Tracked(Step(f, SweepBegin(n)), n, id, ref, r, false)
  {
    hide NodeOk;
    InvAt(f, n);
    ObjectAt(f, n, f.nodes[n], ref);
    SweepTakesOrphans(f.nodes[n], n, id);
  }

  /**
   A sweep that leaves a reservation live, and nothing on its way to end it, has
   flagged the deployment if and only if its call met an error that the classifier
   takes for the end, in every interleaving.
   */
  lemma LiveIsFlaggedIffMatched(f: Fleet, n: NodeId, es: seq<Event>, end: Fleet, id: DeploymentId, ref: Ref)
    requires Inv(f) && Finished(f, n, es, end) && n in f.nodes && Due(f.nodes[n], n, id, ref)
    requires !f.nodes[n].heap[ref].escrowFinalized && !E.Settling(end.world, f.nodes[n].heap[ref].reservation.n)
    ensures n in end.nodes
    ensures id in end.nodes[n].index && end.nodes[n].index[id] == ref ==>
              ref in end.nodes[n].heap && (end.nodes[n].heap[ref].escrowFinalized <==> ErrorMatched(f, n, id, es))
  {
    var r := f.nodes[n].heap[ref].reservation.n;
    var s := Step(f, SweepBegin(n));
    SweepTracks(f, n, id, ref, r);
    StepKeepsInv(f, SweepBegin(n));
    hide Inv, Step, Enabled, Calm, E.Settling;
    RunTracked(s, n, es, id, ref, r, false);
  }

  /**
   The whole story of a reservation whose providers nobody else selects: no sweep
   ever completes it, and while it is neither refunded nor about to be, the sweep
   flags its deployment exactly if its call met an error that matches.
   */
  lemma UnselectedIsNeverCompleted(f: Fleet, n: NodeId, es: seq<Event>, end: Fleet, id: DeploymentId, ref: Ref)
    requires Inv(f) && Finished(f, n, es, end) && n in f.nodes && Due(f.nodes[n], n, id, ref)
    requires !f.nodes[n].heap[ref].escrowFinalized && E.StatusOf(f.world, f.nodes[n].heap[ref].reservation.n).Created?
    requires ChainStep(f.nodes[n].heap[ref].reservation.n, E.SelectProviders) !in es
    ensures Unstarted(E.StatusOf(end.world, f.nodes[n].heap[ref].reservation.n)) && n in end.nodes
    ensures !E.Settling(end.world, f.nodes[n].heap[ref].reservation.n) && id in end.nodes[n].index && end.nodes[n].index[id] == ref ==>
              ref in end.nodes[n].heap && (end.nodes[n].heap[ref].escrowFinalized <==> ErrorMatched(f, n, id, es))
  {
    var r := f.nodes[n].heap[ref].reservation.n;
    StepLeavesUnstarted(f, SweepBegin(n), r);
    DaemonsNeverActivate(Step(f, SweepBegin(n)), es, r);
    if !E.Settling(end.world, r) {
      LiveIsFlaggedIffMatched(f, n, es, end, id, ref);
    }
  }
}
