/** The crawl scheduler: jobs, their statuses, and the limit of active jobs per wallet. */
module CrawlScheduler {
  import opened Common
  import Admission

  datatype Status = Pending | Running | Completed | Failed | Cancelled {
    predicate Active() {
      Pending? || Running?
    }
  }

  datatype Job = Job(owner: string, status: Status)

  type Jobs = map<string, Job>

  /** `passed` holds the owners of CreateJob calls between the count and the insertion. */
  datatype State = State(jobs: Jobs, passed: multiset<string>)

  datatype Event =
    | Check(owner: string)
    | Insert(owner: string, id: string)
    | Abort(owner: string)
    | Start(id: string)
    | Complete(id: string)
    | Fail(id: string)
    | Cancel(id: string)

  const EMPTY := State(map[], multiset{})

  function ActiveJobs(jobs: Jobs, owner: string): set<string> {
    set id | id in jobs && jobs[id].owner == owner && jobs[id].status.Active()
  }

  /** The status an operation gives a job, or None where it reports an error. */
  function NextStatus(e: Event, status: Status): Option<Status>
    requires e.Start? || e.Complete? || e.Fail? || e.Cancel?
  {
    match e
    case Start(_) => if status.Pending? then Some(Running) else None
    case Complete(_) => Some(Completed)
    case Fail(_) => Some(Failed)
    case Cancel(_) => if status.Completed? || status.Failed? then None else Some(Cancelled)
  }

  function Updated(jobs: Jobs, e: Event): Jobs
    requires e.Start? || e.Complete? || e.Fail? || e.Cancel?
  {
    if e.id !in jobs || NextStatus(e, jobs[e.id].status).None? then jobs
    else jobs[e.id := jobs[e.id].(status := NextStatus(e, jobs[e.id].status).value)]
  }

  predicate Enabled(s: State, e: Event, max: int, calls: nat) {
    match e
    case Check(owner) => |ActiveJobs(s.jobs, owner)| < max && s.passed[owner] < calls
    case Insert(owner, id) => owner in s.passed && id !in s.jobs
    case Abort(owner) => owner in s.passed
    case _ => true
  }

  function Step(s: State, e: Event, max: int, calls: nat): State
    requires Enabled(s, e, max, calls)
  {
    match e
    case Check(owner) => s.(passed := s.passed + multiset{owner})
    case Insert(owner, id) => State(s.jobs[id := Job(owner, Pending)], s.passed - multiset{owner})
    case Abort(owner) => s.(passed := s.passed - multiset{owner})
    case _ => s.(jobs := Updated(s.jobs, e))
  }

  function Run(s: State, es: seq<Event>, max: int, calls: nat): Option<State>
    decreases es
  {
    if es == [] then Some(s)
    else if Enabled(s, es[0], max, calls) then Run(Step(s, es[0], max, calls), es[1..], max, calls)
    else None
  }

  // ---------------------------------------------------------------- the gate it goes through

  function Abs(s: State): Admission.Gate {
    Admission.Gate(map id | id in s.jobs :: Admission.Entry(s.jobs[id].owner, s.jobs[id].status.Active()), s.passed)
  }

  function GateEvent(s: State, e: Event): Admission.Event {
    if e.Check? then Admission.Pass(e.owner)
    else if e.Insert? then Admission.Insert(e.owner, e.id)
    else if e.Abort? then Admission.Drop(e.owner)
    else if e.id in s.jobs && !Updated(s.jobs, e)[e.id].status.Active() then Admission.Retire(e.id)
    else Admission.Idle
  }

  lemma LiveIsActive(s: State, owner: string)
    ensures Admission.Live(Abs(s), owner) == ActiveJobs(s.jobs, owner)
  {
  }

  /** Every operation of the scheduler is a step of the admission gate. */
  lemma StepRefines(s: State, e: Event, max: int, calls: nat)
    requires Enabled(s, e, max, calls)
    ensures Admission.Enabled(Abs(s), GateEvent(s, e), max, calls)
    ensures Abs(Step(s, e, max, calls)) == Admission.Step(Abs(s), GateEvent(s, e), max, calls)
  {
    if e.Check? {
      LiveIsActive(s, e.owner);
    }
  }

  lemma {:induction false} RunStaysWithin(s: State, es: seq<Event>, max: int, calls: nat)
    requires Admission.Within(Abs(s), max, calls) && Run(s, es, max, calls).Some?
    ensures Admission.Within(Abs(Run(s, es, max, calls).value), max, calls)
    decreases es
  {
    if es != [] {
      StepRefines(s, es[0], max, calls);
      Admission.StepStaysWithin(Abs(s), GateEvent(s, es[0]), max, calls);
      RunStaysWithin(Step(s, es[0], max, calls), es[1..], max, calls);
    }
  }

  /** With at most `calls` CreateJob calls of an owner under way at a time, the owner never exceeds the cap. */
  lemma ActiveJobsAreCapped(es: seq<Event>, max: int, calls: nat, owner: string)
    requires Run(EMPTY, es, max, calls).Some?
    ensures |ActiveJobs(Run(EMPTY, es, max, calls).value.jobs, owner)| <= Admission.Cap(max, calls)
  {
    var s := Run(EMPTY, es, max, calls).value;
    assert Abs(EMPTY) == Admission.OPEN;
    Admission.OpenIsWithin(max, calls);
    RunStaysWithin(EMPTY, es, max, calls);
    LiveIsActive(s, owner);
    assert |Admission.Live(Abs(s), owner)| + Abs(s).passed[owner] <= Admission.Cap(max, calls);
  }

  // ---------------------------------------------------------------- the cap is reached

  function Lifted(e: Admission.Event): Event
    requires e.Pass? || e.Insert?
  {
    if e.Pass? then Check(e.owner) else Insert(e.owner, e.id)
  }

  lemma {:induction false} CreationsLift(s: State, es: seq<Admission.Event>, max: int, calls: nat) returns (lifted: seq<Event>)
    requires Admission.Creating(es) && Admission.Run(Abs(s), es, max, calls).Some?
    ensures Run(s, lifted, max, calls).Some?
    ensures Abs(Run(s, lifted, max, calls).value) == Admission.Run(Abs(s), es, max, calls).value
    decreases es
  {
    if es == [] {
      lifted := [];
    } else {
      var e := Lifted(es[0]);
      LiveIsActive(s, e.owner);
      assert Enabled(s, e, max, calls) && GateEvent(s, e) == es[0];
      StepRefines(s, e, max, calls);
      var rest := CreationsLift(Step(s, e, max, calls), es[1..], max, calls);
      lifted := [e] + rest;
      assert lifted[1..] == rest;
    }
  }

  /** The cap cannot be lowered: concurrent calls reach it for every positive maximum. */
  lemma JobCapIsReached(max: int, calls: nat, owner: string) returns (es: seq<Event>)
    requires max > 0 && calls > 0
    ensures Run(EMPTY, es, max, calls).Some?
    ensures |ActiveJobs(Run(EMPTY, es, max, calls).value.jobs, owner)| == max + calls - 1
  {
    assert Abs(EMPTY) == Admission.OPEN;
    var creating := Admission.CapIsReached(owner, max, calls);
    es := CreationsLift(EMPTY, creating, max, calls);
    LiveIsActive(Run(EMPTY, es, max, calls).value, owner);
  }

  // ---------------------------------------------------------------- finished jobs

  /** A job that is no longer active never becomes active again, and keeps its owner. */
  lemma {:induction false} FinishedStaysFinished(s: State, es: seq<Event>, max: int, calls: nat, id: string)
    requires Run(s, es, max, calls).Some? && id in s.jobs && !s.jobs[id].status.Active()
    ensures var jobs := Run(s, es, max, calls).value.jobs;
            id in jobs && !jobs[id].status.Active() && jobs[id].owner == s.jobs[id].owner
    decreases es
  {
    if es != [] {
      FinishedStaysFinished(Step(s, es[0], max, calls), es[1..], max, calls, id);
    }
  }

  // ---------------------------------------------------------------- the status of a job

  /** The last verdict a worker reported for a job. */
  function Verdict(es: seq<Event>, id: string): Option<Status> {
    if es == [] then None
    else
      var last := es[|es| - 1];
      if last == Complete(id) then Some(Completed)
      else if last == Fail(id) then Some(Failed)
      else Verdict(es[..|es| - 1], id)
  }

  lemma {:induction false} RunSnoc(s: State, es: seq<Event>, max: int, calls: nat)
    requires es != [] && Run(s, es, max, calls).Some?
    ensures var n := |es| - 1;
            && Run(s, es[..n], max, calls).Some?
            && Enabled(Run(s, es[..n], max, calls).value, es[n], max, calls)
            && Run(s, es, max, calls).value == Step(Run(s, es[..n], max, calls).value, es[n], max, calls)
    decreases es
  {
    hide Enabled, Step;
    if |es| > 1 {
      RunSnoc(Step(s, es[0], max, calls), es[1..], max, calls);
      assert es[1..][..|es| - 2] == es[..|es| - 1][1..];
    }
  }

  /** What the calls so far make of a job. */
  function StatusOf(es: seq<Event>, id: string): Status {
    if Verdict(es, id).Some? then Verdict(es, id).value
    else if Cancel(id) in es then Cancelled
    else if Start(id) in es then Running
    else Pending
  }

  predicate Concerns(e: Event, id: string) {
    (e.Start? || e.Complete? || e.Fail? || e.Cancel?) && e.id == id
  }

  lemma StatusOfSnoc(es: seq<Event>, e: Event, id: string)
    ensures StatusOf(es + [e], id) ==
              if Concerns(e, id) && NextStatus(e, StatusOf(es, id)).Some? then NextStatus(e, StatusOf(es, id)).value
              else StatusOf(es, id)
  {
    VerdictIsFinal(es, id);
    assert (es + [e])[..|es|] == es;
  }

  lemma StatusStep(s: State, e: Event, max: int, calls: nat, id: string, es: seq<Event>)
    requires Enabled(s, e, max, calls) && id in s.jobs && s.jobs[id].status == StatusOf(es, id)
    ensures id in Step(s, e, max, calls).jobs
    ensures Step(s, e, max, calls).jobs[id] == s.jobs[id].(status := StatusOf(es + [e], id))
  {
    StatusOfSnoc(es, e, id);
    hide ActiveJobs, StatusOf, NextStatus;
  }

  /**
   From its insertion on, in every run: the last reported verdict counts, even after
   a cancellation; without one a job is cancelled if anybody cancelled it, else
   running if it was started, else pending. Its owner never changes.
   */
  lemma {:induction false} StatusIsHistory(s: State, es: seq<Event>, max: int, calls: nat, id: string)
    requires Run(s, es, max, calls).Some? && id in s.jobs && s.jobs[id].status.Pending?
    ensures var jobs := Run(s, es, max, calls).value.jobs;
            id in jobs && jobs[id] == s.jobs[id].(status := StatusOf(es, id))
    decreases es
  {
    if es != [] {
      var front, last := es[..|es| - 1], es[|es| - 1];
      RunSnoc(s, es, max, calls);
      StatusIsHistory(s, front, max, calls, id);
      StatusStep(Run(s, front, max, calls).value, last, max, calls, id, front);
      assert es == front + [last];
    }
  }

  lemma {:induction false} VerdictIsFinal(es: seq<Event>, id: string)
    ensures Verdict(es, id).Some? ==> Verdict(es, id).value.Completed? || Verdict(es, id).value.Failed?
  {
    if es != [] {
      VerdictIsFinal(es[..|es| - 1], id);
    }
  }

  lemma {:induction false} RunSplits(s: State, es: seq<Event>, max: int, calls: nat, n: nat)
    requires n <= |es| && Run(s, es, max, calls).Some?
    ensures Run(s, es[..n], max, calls).Some?
    ensures Run(Run(s, es[..n], max, calls).value, es[n..], max, calls) == Run(s, es, max, calls)
    decreases es
  {
    hide Enabled, Step;
    if n > 0 {
      RunSplits(Step(s, es[0], max, calls), es[1..], max, calls, n - 1);
      assert es[1..][..n - 1] == es[..n][1..] && es[1..][n - 1..] == es[n..];
    } else {
      assert es[0..] == es;
    }
  }

  /** In every run of a new scheduler, a job belongs to whom it was created for and has the status its later calls add up to. */
  lemma CreatedJobFollowsCalls(es: seq<Event>, max: int, calls: nat, i: nat)
    requires Run(EMPTY, es, max, calls).Some? && i < |es| && es[i].Insert?
    ensures var jobs := Run(EMPTY, es, max, calls).value.jobs;
            es[i].id in jobs && jobs[es[i].id] == Job(es[i].owner, StatusOf(es[i + 1..], es[i].id))
  {
    RunSplits(EMPTY, es, max, calls, i + 1);
    RunSnoc(EMPTY, es[..i + 1], max, calls);
    var s := Run(EMPTY, es[..i + 1], max, calls).value;
    StatusIsHistory(s, es[i + 1..], max, calls, es[i].id);
  }

  // ---------------------------------------------------------------- the scheduler object

  class Scheduler {
    const maxJobsPerWallet: int
    var jobs: Jobs

    constructor (maxJobsPerWallet: int)
      ensures this.maxJobsPerWallet == maxJobsPerWallet && jobs == map[]
    {
      this.maxJobsPerWallet := maxJobsPerWallet;
      jobs := map[];
    }

    /** The first half of CreateJob: counts the owner's active jobs. */
    method CheckLimit(owner: string) returns (ok: bool)
      ensures ok <==> |ActiveJobs(jobs, owner)| < maxJobsPerWallet
    {
      var rest, activeCount := jobs.Keys, 0;
      ghost var counted: set<string> := {};
      while rest != {}
        invariant rest <= jobs.Keys
        invariant counted == set id | id in ActiveJobs(jobs, owner) && id !in rest
        invariant activeCount == |counted|
        decreases |rest|
      {
        var id :| id in rest;
        rest := rest - {id};
        if jobs[id].owner == owner && jobs[id].status.Active() {
          activeCount := activeCount + 1;
          counted := counted + {id};
        }
      }
      assert counted == ActiveJobs(jobs, owner);
      ok := activeCount < maxJobsPerWallet;
    }

    /** The second half of CreateJob. */
    method InsertJob(owner: string, id: string)
      modifies this
      ensures jobs == old(jobs)[id := Job(owner, Pending)]
    {
      jobs := jobs[id := Job(owner, Pending)];
    }

    method StartJob(id: string) returns (ok: bool)
      modifies this
      ensures ok <==> id in old(jobs) && old(jobs)[id].status.Pending?
      ensures jobs == Updated(old(jobs), Start(id))
    {
      if id !in jobs || !jobs[id].status.Pending? {
        return false;
      }
      jobs := jobs[id := jobs[id].(status := Running)];
      ok := true;
    }

    method CompleteJob(id: string) returns (ok: bool)
      modifies this
      ensures ok <==> id in old(jobs)
      ensures jobs == Updated(old(jobs), Complete(id))
    {
      if id !in jobs {
        return false;
      }
      jobs := jobs[id := jobs[id].(status := Completed)];
      ok := true;
    }

    method FailJob(id: string) returns (ok: bool)
      modifies this
      ensures ok <==> id in old(jobs)
      ensures jobs == Updated(old(jobs), Fail(id))
    {
      if id !in jobs {
        return false;
      }
      jobs := jobs[id := jobs[id].(status := Failed)];
      ok := true;
    }

    method CancelJob(id: string) returns (ok: bool)
      modifies this
      ensures ok <==> id in old(jobs) && !old(jobs)[id].status.Completed? && !old(jobs)[id].status.Failed?
      ensures jobs == Updated(old(jobs), Cancel(id))
    {
      if id !in jobs {
        return false;
      }
      if jobs[id].status.Completed? || jobs[id].status.Failed? {
        return false;
      }
      jobs := jobs[id := jobs[id].(status := Cancelled)];
      ok := true;
    }
  }
}
