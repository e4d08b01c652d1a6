/**
 The clone manager: every clone operation is an executor that waits for one of
 a fixed number of slots, works through its phases and ends in the history.
 */
module CloneManager {
  import opened Common

  datatype Status = Pending | Preparing | Transferring | Deploying | Verifying | Complete | Failed

  /** Where the executor of a clone stands. From Acquired to Ended it holds a slot. */
  datatype Phase =
    | Waiting | Acquired | Prepared | Transferred | Deployment | Deployed | Verification | Ended | Gone
  {
    predicate Finished() {
      Ended? || Gone?
    }

    predicate Holds() {
      !Waiting? && !Gone?
    }

    /** The places where the executor may call failClone while it holds a slot. */
    predicate MayFail() {
      Prepared? || Deployment? || Verification?
    }

    predicate MayAdvance() {
      Acquired? || Prepared? || Transferred? || Deployment? || Deployed?
    }

    function Next(): Phase
      requires MayAdvance()
    {
      match this
      case Acquired => Prepared
      case Prepared => Transferred
      case Transferred => Deployment
      case Deployment => Deployed
      case Deployed => Verification
    }
  }

  datatype Clone = Clone(source: string, target: string, status: Status, phase: Phase)

  /** The records, the active map and the history both referring to records by id, and the lineage. */
  datatype State = State(
    clones: map<string, Clone>,
    active: set<string>,
    history: seq<string>,
    lineage: map<string, seq<string>>)

  datatype Event =
    | Request(id: string, source: string)
    | Acquire(id: string)
    | GiveUp(id: string)
    | Advance(id: string)
    | Name(id: string, target: string)
    | Fail(id: string)
    | Succeed(id: string)
    | Release(id: string)
    | Cancel(id: string)

  const NOTHING := State(map[], {}, [], map[])

  function Holders(s: State): set<string> {
    set id | id in s.clones && s.clones[id].phase.Holds()
  }

  predicate Enabled(s: State, e: Event, max: nat) {
    match e
    case Request(id, _) => id !in s.clones
    case Acquire(id) => id in s.clones && s.clones[id].phase.Waiting? && |Holders(s)| < max
    case GiveUp(id) => id in s.clones && s.clones[id].phase.Waiting?
    case Advance(id) => id in s.clones && s.clones[id].phase.MayAdvance()
    case Name(id, _) => id in s.clones && s.clones[id].phase.Deployment?
    case Fail(id) => id in s.clones && s.clones[id].phase.MayFail()
    case Succeed(id) => id in s.clones && s.clones[id].phase.Verification?
    case Release(id) => id in s.clones && s.clones[id].phase.Ended?
    case Cancel(id) => id in s.active && id in s.clones
  }

  function StatusOn(phase: Phase, status: Status): Status {
    match phase
    case Prepared => Preparing
    case Transferred => Transferring
    case Deployment => Deploying
    case Verification => Verifying
    case _ => status
  }

  /** The record gets its final status, leaves the active map and is appended to the history. */
  function File(s: State, id: string, clone: Clone): State {
    s.(clones := s.clones[id := clone], active := s.active - {id}, history := s.history + [id])
  }

  function Descendants(s: State, source: string): seq<string> {
    if source in s.lineage then s.lineage[source] else []
  }

  function Step(s: State, e: Event, max: nat): State
    requires Enabled(s, e, max)
  {
    match e
    case Request(id, source) =>
      s.(clones := s.clones[id := Clone(source, "", Pending, Waiting)], active := s.active + {id})
    case Acquire(id) => s.(clones := s.clones[id := s.clones[id].(phase := Acquired)])
    case GiveUp(id) => File(s, id, s.clones[id].(status := Failed, phase := Gone))
    case Advance(id) =>
      var phase := s.clones[id].phase.Next();
      s.(clones := s.clones[id := s.clones[id].(phase := phase, status := StatusOn(phase, s.clones[id].status))])
    case Name(id, target) => s.(clones := s.clones[id := s.clones[id].(target := target)])
    case Fail(id) => File(s, id, s.clones[id].(status := Failed, phase := Ended))
    case Succeed(id) =>
      var clone := s.clones[id];
      File(s, id, clone.(status := Complete, phase := Ended)).(
        lineage := s.lineage[clone.source := Descendants(s, clone.source) + [clone.target]])
    case Release(id) => s.(clones := s.clones[id := s.clones[id].(phase := Gone)])
    case Cancel(id) => File(s, id, s.clones[id].(status := Failed))
  }

  /** The state after a sequence of events from the empty manager, if each was enabled in its turn. */
  function Run(es: seq<Event>, max: nat): Option<State> {
    if es == [] then Some(NOTHING)
    else
      match Run(es[..|es| - 1], max)
      case None => None
      case Some(s) => if Enabled(s, es[|es| - 1], max) then Some(Step(s, es[|es| - 1], max)) else None
  }

  predicate IsRun(es: seq<Event>, max: nat) {
    Run(es, max).Some?
  }

  function After(es: seq<Event>, max: nat): State
    requires IsRun(es, max)
  {
    Run(es, max).value
  }

  lemma Unroll(es: seq<Event>, max: nat) returns (before: seq<Event>, e: Event)
    requires IsRun(es, max) && es != []
    ensures es == before + [e] && |before| < |es|
    ensures IsRun(before, max) && Enabled(After(before, max), e, max)
    ensures After(es, max) == Step(After(before, max), e, max)
  {
    before, e := es[..|es| - 1], es[|es| - 1];
  }

  lemma Extend(es: seq<Event>, e: Event, longer: seq<Event>, max: nat)
    requires IsRun(es, max) && Enabled(After(es, max), e, max) && longer == es + [e]
    ensures IsRun(longer, max) && After(longer, max) == Step(After(es, max), e, max)
  {
    assert longer[..|es|] == es;
  }

  // ---------------------------------------------------------------- what every run keeps

  function Times(history: seq<string>, id: string): nat {
    multiset(history)[id]
  }

  ghost predicate Filed(es: seq<Event>, s: State, id: string)
    requires id in s.clones
  {
    && Times(s.history, id) == Bit(Cancel(id) in es) + Bit(s.clones[id].phase.Finished())
    && (id in s.active <==> Times(s.history, id) == 0)
    && (s.clones[id].phase.Finished() ==> s.clones[id].status.Complete? || s.clones[id].status.Failed?)
  }

  ghost predicate Inv(es: seq<Event>, s: State, max: nat) {
    && (forall id :: id in s.clones ==> Filed(es, s, id))
    && (forall id :: id !in s.clones ==> Untouched(es, s, id))
    && |Holders(s)| <= max
  }

  lemma TimesSnoc(history: seq<string>, last: string, id: string)
    ensures Times(history + [last], id) == Times(history, id) + Bit(id == last)
  {
    assert multiset(history + [last]) == multiset(history) + multiset{last};
  }

  /** An event of one clone leaves the others alone. */
  lemma StepSparesOthers(s: State, e: Event, max: nat, id: string)
    requires Enabled(s, e, max) && id != e.id
    ensures var s' := Step(s, e, max);
            && (id in s'.clones <==> id in s.clones)
            && (id in s.clones ==> s'.clones[id] == s.clones[id])
            && (id in s'.active <==> id in s.active)
            && Times(s'.history, id) == Times(s.history, id)
  {
    TimesSnoc(s.history, e.id, id);
    hide Times, Holders;
  }

  ghost predicate Untouched(es: seq<Event>, s: State, id: string) {
    id !in s.active && Times(s.history, id) == 0 && Cancel(id) !in es
  }

  lemma StepFilesOwn(es: seq<Event>, s: State, e: Event, max: nat)
    requires Inv(es, s, max) && Enabled(s, e, max)
    ensures var s' := Step(s, e, max);
            e.id in s'.clones && Filed(es + [e], s', e.id)
  {
    TimesSnoc(s.history, e.id, e.id);
    hide Times, Holders;
    if !e.Request? {
      assert Filed(es, s, e.id);
    }
  }

  lemma StepFiles(es: seq<Event>, s: State, e: Event, max: nat, id: string)
    requires Inv(es, s, max) && Enabled(s, e, max)
    ensures var s' := Step(s, e, max);
            if id in s'.clones then Filed(es + [e], s', id) else Untouched(es + [e], s', id)
  {
    if id == e.id {
      StepFilesOwn(es, s, e, max);
    } else {
      StepSparesOthers(s, e, max, id);
      hide Step, Times, Holders, Enabled;
      assert id in s.clones ==> Filed(es, s, id);
    }
  }

  lemma StepKeepsSlots(s: State, e: Event, max: nat)
    requires |Holders(s)| <= max && Enabled(s, e, max)
    ensures |Holders(Step(s, e, max))| <= max
  {
    var before, after := Holders(s), Holders(Step(s, e, max));
    if e.Acquire? {
      assert after == before + {e.id};
    } else {
      assert after <= before;
      SubsetSize(after, before);
    }
  }

  lemma {:induction false} RunKeepsInv(es: seq<Event>, max: nat)
    requires IsRun(es, max)
    ensures Inv(es, After(es, max), max)
  {
    if es == [] {
      assert Holders(NOTHING) == {};
    } else {
      var before, e := Unroll(es, max);
      RunKeepsInv(before, max);
      hide Step, Run, Filed, Untouched, Holders;
      var s := After(before, max);
      StepKeepsSlots(s, e, max);
      forall id
        ensures var s' := After(es, max);
                if id in s'.clones then Filed(es, s', id) else Untouched(es, s', id)
      {
        StepFiles(before, s, e, max, id);
      }
    }
  }

  /** No more executors than slots hold one, in every run. */
  lemma SlotsAreRespected(es: seq<Event>, max: nat)
    requires IsRun(es, max)
    ensures |Holders(After(es, max))| <= max
  {
    RunKeepsInv(es, max);
  }

  /**
   In every run, a clone is in the history once for its executor having finished
   and once more for having been cancelled, and it is active exactly while neither happened.
   */
  lemma HistoryCount(es: seq<Event>, max: nat, id: string)
    requires IsRun(es, max) && id in After(es, max).clones
    ensures var s := After(es, max);
            && Times(s.history, id) == Bit(Cancel(id) in es) + Bit(s.clones[id].phase.Finished())
            && (id in s.active <==> Cancel(id) !in es && !s.clones[id].phase.Finished())
  {
    RunKeepsInv(es, max);
    assert Filed(es, After(es, max), id);
  }

  ghost predicate CancelFree(es: seq<Event>) {
    forall id :: Cancel(id) !in es
  }

  /** Without cancellation, a requested clone is either active or in the history, and there just once. */
  lemma ActiveOrFiledOnce(es: seq<Event>, max: nat, id: string)
    requires IsRun(es, max) && CancelFree(es)
    ensures var s := After(es, max);
            && (id in s.clones <==> id in s.active || id in s.history)
            && !(id in s.active && id in s.history)
            && Times(s.history, id) <= 1
            && (id in s.history <==> id in s.clones && s.clones[id].phase.Finished())
  {
    RunKeepsInv(es, max);
    var s := After(es, max);
    assert id in s.clones ==> Filed(es, s, id);
    assert id in s.history <==> id in multiset(s.history);
  }

  /** A clone is in the history more than once exactly if it was cancelled and its executor has finished. */
  lemma ListedTwiceIff(es: seq<Event>, max: nat, id: string)
    requires IsRun(es, max)
    ensures var s := After(es, max);
            Times(s.history, id) > 1 <==> Cancel(id) in es && id in s.clones && s.clones[id].phase.Finished()
  {
    RunKeepsInv(es, max);
    assert id in After(es, max).clones ==> Filed(es, After(es, max), id);
  }

  // ---------------------------------------------------------------- what a record says about the run

  /** The last name given to the target, if any. */
  function TargetOf(es: seq<Event>, id: string): string {
    if es == [] then ""
    else
      var last := es[|es| - 1];
      if last.Name? && last.id == id then last.target else TargetOf(es[..|es| - 1], id)
  }

  /** The phases an executor with a slot goes through, in order. */
  const ORDER := [Acquired, Prepared, Transferred, Deployment, Deployed, Verification]

  /** What is shown while the executor stands there, as long as nobody cancels. */
  function ShownIn(phase: Phase): Status {
    if phase.Prepared? then Preparing
    else if phase.Transferred? then Transferring
    else if phase.Deployment? || phase.Deployed? then Deploying
    else if phase.Verification? then Verifying
    else Pending
  }

  ghost predicate Requested(es: seq<Event>, clone: Clone, id: string) {
    && Request(id, clone.source) in es
    && (forall source :: Request(id, source) in es ==> source == clone.source)
    && clone.target == TargetOf(es, id)
  }

  ghost predicate Placed(es: seq<Event>, phase: Phase, id: string) {
    && (phase.Waiting? <==> Acquire(id) !in es && GiveUp(id) !in es)
    && (phase.Gone? <==> GiveUp(id) in es || Release(id) in es)
    && (phase.Finished() <==> GiveUp(id) in es || Fail(id) in es || Succeed(id) in es)
    && (phase.Waiting? ==> multiset(es)[Advance(id)] == 0)
    && (!phase.Waiting? && !phase.Finished() ==> multiset(es)[Advance(id)] < 6 && phase == ORDER[multiset(es)[Advance(id)]])
  }

  ghost predicate Reported(es: seq<Event>, clone: Clone, id: string) {
    && (clone.phase.Finished() ==> clone.status == if Succeed(id) in es then Complete else Failed)
    && (!clone.phase.Finished() && Cancel(id) !in es ==> clone.status == ShownIn(clone.phase))
  }

  ghost predicate Matches(es: seq<Event>, s: State, id: string) {
    if id in s.clones then Requested(es, s.clones[id], id) && Placed(es, s.clones[id].phase, id) && Reported(es, s.clones[id], id)
    else forall e :: e in es ==> e.id != id
  }

  lemma OtherEvents(es: seq<Event>, e: Event, id: string)
    requires e.id != id
    ensures forall x: Event :: x.id == id ==> (x in es + [e] <==> x in es) && multiset(es + [e])[x] == multiset(es)[x]
    ensures TargetOf(es + [e], id) == TargetOf(es, id)
  {
    assert (es + [e])[..|es|] == es;
    assert multiset(es + [e]) == multiset(es) + multiset{e};
  }

  lemma OwnEvent(es: seq<Event>, e: Event)
    ensures forall x: Event :: (x in es + [e] <==> x in es || x == e) && multiset(es + [e])[x] == multiset(es)[x] + Bit(x == e)
    ensures TargetOf(es + [e], e.id) == if e.Name? then e.target else TargetOf(es, e.id)
  {
    assert (es + [e])[..|es|] == es;
    assert multiset(es + [e]) == multiset(es) + multiset{e};
  }

  lemma FirstEventMatches(es: seq<Event>, s: State, e: Event, max: nat)
    requires Matches(es, s, e.id) && Enabled(s, e, max) && e.Request?
    ensures Matches(es + [e], Step(s, e, max), e.id)
  {
    OwnEvent(es, e);
    hide Holders, TargetOf;
    NoNameYet(es, e.id);
  }

  lemma {:induction false} NoNameYet(es: seq<Event>, id: string)
    requires forall e :: e in es ==> e.id != id
    ensures TargetOf(es, id) == "" && forall x: Event :: x.id == id ==> multiset(es)[x] == 0
  {
    if es != [] {
      var before, last := es[..|es| - 1], es[|es| - 1];
      assert es == before + [last] && last in es;
      NoNameYet(before, id);
      OtherEvents(before, last, id);
    }
  }

  lemma OwnEventPlaces(es: seq<Event>, s: State, e: Event, max: nat)
    requires Enabled(s, e, max) && !e.Request? && e.id in s.clones && Placed(es, s.clones[e.id].phase, e.id)
    ensures Placed(es + [e], Step(s, e, max).clones[e.id].phase, e.id)
  {
    OwnEvent(es, e);
    hide Holders, TargetOf;
  }

  lemma OwnEventReports(es: seq<Event>, s: State, e: Event, max: nat)
    requires Enabled(s, e, max) && !e.Request? && e.id in s.clones
    requires Placed(es, s.clones[e.id].phase, e.id) && Reported(es, s.clones[e.id], e.id)
    requires e.Cancel? ==> !s.clones[e.id].phase.Finished()
    ensures Reported(es + [e], Step(s, e, max).clones[e.id], e.id)
  {
    OwnEvent(es, e);
    hide Holders, TargetOf;
  }

  lemma OwnEventMatches(es: seq<Event>, s: State, e: Event, max: nat)
    requires Matches(es, s, e.id) && Enabled(s, e, max) && !e.Request?
    requires e.Cancel? ==> !s.clones[e.id].phase.Finished()
    ensures Matches(es + [e], Step(s, e, max), e.id)
  {
    OwnEventPlaces(es, s, e, max);
    OwnEventReports(es, s, e, max);
    OwnEvent(es, e);
    hide Holders, TargetOf, Placed, Reported;
  }

  lemma StepMatches(es: seq<Event>, s: State, e: Event, max: nat, id: string)
    requires Matches(es, s, id) && Enabled(s, e, max)
    requires e.Cancel? ==> e.id in s.clones && !s.clones[e.id].phase.Finished()
    ensures Matches(es + [e], Step(s, e, max), id)
  {
    if e.id != id {
      StepSparesOthers(s, e, max, id);
      OtherEvents(es, e, id);
      hide Step, Enabled, TargetOf, Times, Holders;
    } else if e.Request? {
      FirstEventMatches(es, s, e, max);
    } else {
      OwnEventMatches(es, s, e, max);
    }
  }

  /**
   In every run a record shows the source of its request and the last target it was
   given, stands in the phase its executor's calls add up to, reports the status of
   that phase unless it was cancelled, and in the end reports how the executor ended.
   */
  lemma {:induction false} RecordMatchesRun(es: seq<Event>, max: nat, id: string)
    requires IsRun(es, max)
    ensures Matches(es, After(es, max), id)
  {
    if es != [] {
      var before, e := Unroll(es, max);
      RecordMatchesRun(before, max, id);
      RunKeepsInv(before, max);
      hide Run, Matches, Holders;
      assert e.Cancel? ==> Filed(before, After(before, max), e.id);
      StepMatches(before, After(before, max), e, max, id);
    }
  }

  // ---------------------------------------------------------------- statistics

  function Tally(clones: map<string, Clone>, history: seq<string>, status: Status): nat {
    if history == [] then 0
    else
      var last := history[|history| - 1];
      Tally(clones, history[..|history| - 1], status) + Bit(last in clones && clones[last].status == status)
  }

  lemma {:induction false} TallyAll(clones: map<string, Clone>, history: seq<string>)
    ensures Tally(clones, history, Complete) + Tally(clones, history, Failed) <= |history|
    ensures Tally(clones, history, Complete) + Tally(clones, history, Failed) == |history| <==>
              forall id :: id in history ==> id in clones && (clones[id].status.Complete? || clones[id].status.Failed?)
  {
    if history != [] {
      var before, last := history[..|history| - 1], history[|history| - 1];
      TallyAll(clones, before);
      assert history == before + [last];
    }
  }

  /** The executor moves to a phase at whose start it writes the status. */
  predicate Overwrites(s: State, e: Event) {
    && e.Advance? && e.id in s.clones && s.clones[e.id].phase.MayAdvance()
    && var phase := s.clones[e.id].phase.Next();
    phase.Prepared? || phase.Transferred? || phase.Deployment? || phase.Verification?
  }

  /** Since the clone was cancelled, its executor has written the status again. */
  predicate Overwritten(es: seq<Event>, max: nat, id: string) {
    es != [] &&
    var before, e := es[..|es| - 1], es[|es| - 1];
    || Overwritten(before, max, id)
    || (Cancel(id) in before && e.id == id && Run(before, max).Some? && Overwrites(Run(before, max).value, e))
  }

  lemma OverwrittenSnoc(before: seq<Event>, e: Event, max: nat, id: string)
    requires IsRun(before, max)
    ensures Overwritten(before + [e], max, id) <==>
              Overwritten(before, max, id) || (Cancel(id) in before && e.id == id && Overwrites(After(before, max), e))
  {
    assert (before + [e])[..|before|] == before;
  }

  /** What a cancelled clone whose executor goes on shows: failed until the executor writes again, and complete never. */
  ghost predicate Shows(es: seq<Event>, max: nat, s: State, id: string) {
    && (Overwritten(es, max, id) ==> Cancel(id) in es)
    && (Cancel(id) in es && id in s.clones && !s.clones[id].phase.Finished() ==>
          !s.clones[id].status.Complete? && (s.clones[id].status.Failed? <==> !Overwritten(es, max, id)))
  }

  lemma StepShows(before: seq<Event>, e: Event, max: nat, id: string)
    requires IsRun(before, max) && Enabled(After(before, max), e, max)
    requires Inv(before, After(before, max), max) && Shows(before, max, After(before, max), id)
    ensures Shows(before + [e], max, Step(After(before, max), e, max), id)
  {
    hide Run, Holders, Times;
    OverwrittenSnoc(before, e, max, id);
    hide Overwritten;
    var s := After(before, max);
    if id in s.clones {
      assert Filed(before, s, id);
    } else {
      assert Untouched(before, s, id);
    }
  }

  lemma {:induction false} RunShows(es: seq<Event>, max: nat, id: string)
    requires IsRun(es, max)
    ensures Shows(es, max, After(es, max), id)
  {
    if es != [] {
      var before, e := Unroll(es, max);
      RunShows(before, max, id);
      RunKeepsInv(before, max);
      StepShows(before, e, max, id);
    }
  }

  /** The clone is in the history and counted neither as completed nor as failed. */
  predicate Uncounted(es: seq<Event>, max: nat, s: State, id: string) {
    id in s.clones && !s.clones[id].phase.Finished() && Overwritten(es, max, id)
  }

  lemma CountedIff(es: seq<Event>, max: nat, id: string)
    requires IsRun(es, max)
    ensures var s := After(es, max);
            && (id in s.history ==> id in s.clones)
            && (id in s.history ==> (s.clones[id].status.Complete? || s.clones[id].status.Failed? <==> !Uncounted(es, max, s, id)))
            && (Uncounted(es, max, s, id) ==> id in s.history)
  {
    var s := After(es, max);
    RunKeepsInv(es, max);
    RunShows(es, max, id);
    hide Run, Overwritten, Holders;
    assert if id in s.clones then Filed(es, s, id) else Untouched(es, s, id);
    assert id in s.history <==> id in multiset(s.history);
  }

  /**
   In every run, completed and failed clones account for the whole history if and
   only if no cancelled clone with an unfinished executor has had its status
   written again since it was cancelled.
   */
  lemma StatsAddUpIff(es: seq<Event>, max: nat)
    requires IsRun(es, max)
    ensures var s := After(es, max);
            Tally(s.clones, s.history, Complete) + Tally(s.clones, s.history, Failed) == |s.history| <==>
              forall id :: id in s.clones ==> !Uncounted(es, max, s, id)
  {
    var s := After(es, max);
    TallyAll(s.clones, s.history);
    hide Run, Uncounted, Tally;
    forall id
      ensures id in s.history ==> id in s.clones
      ensures id in s.history ==> (s.clones[id].status.Complete? || s.clones[id].status.Failed? <==> !Uncounted(es, max, s, id))
      ensures Uncounted(es, max, s, id) ==> id in s.history
    {
      CountedIff(es, max, id);
    }
  }

  /** The clones that were cancelled and whose executors have finished. */
  function Doubled(es: seq<Event>, s: State): set<string> {
    set id | id in s.clones && Cancel(id) in es && s.clones[id].phase.Finished()
  }

  /** In every run, active clones and history entries are the requested clones plus the doubled ones. */
  lemma EntriesAddUp(es: seq<Event>, max: nat)
    requires IsRun(es, max)
    ensures var s := After(es, max);
            |s.active| + |s.history| == |s.clones| + |Doubled(es, s)|
  {
    var s := After(es, max);
    RunKeepsInv(es, max);
    hide Run, Holders, Times;
    var filed := set id | id in s.clones && id !in s.active;
    forall id
      ensures id in filed <==> Times(s.history, id) >= 1
      ensures id in Doubled(es, s) <==> Times(s.history, id) >= 2
      ensures Times(s.history, id) <= 2 && (id in s.active ==> id in s.clones)
    {
      assert if id in s.clones then Filed(es, s, id) else Untouched(es, s, id);
    }
    CountedSize(s.history, filed, Doubled(es, s));
    assert s.clones.Keys == s.active + filed;
    assert |s.clones| == |s.clones.Keys| && s.active !! filed;
  }

  /** Without cancellation, completed and failed clones account for the history, and with the active ones for all clones. */
  lemma StatsAddUp(es: seq<Event>, max: nat)
    requires IsRun(es, max) && CancelFree(es)
    ensures var s := After(es, max);
            && Tally(s.clones, s.history, Complete) + Tally(s.clones, s.history, Failed) == |s.history|
            && |s.active| + |s.history| == |s.clones|
  {
    var s := After(es, max);
    forall id | id in s.clones
      ensures !Uncounted(es, max, s, id)
    {
      RunShows(es, max, id);
    }
    StatsAddUpIff(es, max);
    EntriesAddUp(es, max);
    assert Doubled(es, s) == {};
  }

  lemma {:induction false} CountedSize(xs: seq<string>, once: set<string>, twice: set<string>)
    requires forall x :: (x in once <==> Times(xs, x) >= 1) && (x in twice <==> Times(xs, x) >= 2) && Times(xs, x) <= 2
    ensures |xs| == |once| + |twice|
  {
    if xs == [] {
      assert once == {} && twice == {};
    } else {
      var before, last := xs[..|xs| - 1], xs[|xs| - 1];
      assert xs == before + [last];
      forall x
        ensures Times(xs, x) == Times(before, x) + Bit(x == last)
      {
        TimesSnoc(before, last, x);
      }
      hide Times;
      if last in twice {
        CountedSize(before, once, twice - {last});
      } else {
        CountedSize(before, once - {last}, twice);
      }
    }
  }

  // ---------------------------------------------------------------- lineage

  /** What a clone adds to the containers made from a source. */
  function Yield(clones: map<string, Clone>, id: string, source: string): seq<string> {
    if id in clones && clones[id].status.Complete? && clones[id].source == source then [clones[id].target] else []
  }

  /** The containers made by the completed clones of a source, in history order. */
  function Made(clones: map<string, Clone>, history: seq<string>, source: string): seq<string> {
    if history == [] then []
    else Made(clones, history[..|history| - 1], source) + Yield(clones, history[|history| - 1], source)
  }

  lemma MadeSnoc(clones: map<string, Clone>, history: seq<string>, last: string, source: string)
    ensures Made(clones, history + [last], source) == Made(clones, history, source) + Yield(clones, last, source)
  {
    assert (history + [last])[..|history|] == history;
  }

  /** A record that comes to yield something adds it once for every time it is in the history. */
  lemma {:induction false} MadeChanges(before: map<string, Clone>, after: map<string, Clone>, history: seq<string>, source: string, id: string)
    requires forall x :: x != id ==> Yield(before, x, source) == Yield(after, x, source)
    requires Yield(before, id, source) != [] ==> Yield(before, id, source) == Yield(after, id, source)
    ensures Yield(before, id, source) == Yield(after, id, source) || id !in history ==>
              Made(after, history, source) == Made(before, history, source)
    ensures Yield(before, id, source) != Yield(after, id, source) ==>
              |Made(after, history, source)| == |Made(before, history, source)| + Times(history, id)
  {
    if history != [] {
      var prefix, last := history[..|history| - 1], history[|history| - 1];
      assert history == prefix + [last];
      MadeChanges(before, after, prefix, source, id);
      TimesSnoc(prefix, last, id);
    }
  }

  /** Only success changes a lineage or makes a record yield something; what a record yields, it yields for good. */
  lemma StepYields(s: State, e: Event, max: nat, source: string)
    requires Enabled(s, e, max)
    requires e.id in s.clones && s.clones[e.id].status.Complete? ==> e.id !in s.active && s.clones[e.id].phase.Finished()
    ensures var s' := Step(s, e, max);
            && (forall x :: x != e.id ==> Yield(s.clones, x, source) == Yield(s'.clones, x, source))
            && (!e.Succeed? ==> Yield(s'.clones, e.id, source) == Yield(s.clones, e.id, source))
            && (e.Succeed? ==> Yield(s.clones, e.id, source) == [])
            && Descendants(s', source) == Descendants(s, source) + (if e.Succeed? then Yield(s'.clones, e.id, source) else [])
            && s'.history == s.history + (if e.Succeed? || e.Fail? || e.GiveUp? || e.Cancel? then [e.id] else [])
  {
    hide Holders;
  }

  /** A completed clone of the source that had been cancelled. */
  ghost predicate Revived(es: seq<Event>, s: State, source: string) {
    exists id :: id in s.clones && Cancel(id) in es && Yield(s.clones, id, source) != []
  }

  ghost predicate LineageOk(es: seq<Event>, s: State, source: string) {
    && (!Revived(es, s, source) ==> Descendants(s, source) == Made(s.clones, s.history, source))
    && |Descendants(s, source)| + Bit(Revived(es, s, source)) <= |Made(s.clones, s.history, source)|
  }

  lemma {:induction false} CompleteIsFinal(es: seq<Event>, max: nat, id: string)
    requires IsRun(es, max)
    ensures var s := After(es, max);
            id in s.clones && s.clones[id].status.Complete? ==> id !in s.active && s.clones[id].phase.Finished()
    decreases |es|
  {
    if es != [] {
      var before, e := Unroll(es, max);
      CompleteIsFinal(before, max, id);
      RunKeepsInv(before, max);
      var s := After(before, max);
      hide Run, Holders;
      if id in s.clones {
        assert Filed(before, s, id);
      }
    }
  }

  lemma StillRevived(before: seq<Event>, e: Event, max: nat, s: State, source: string)
    requires Enabled(s, e, max) && Revived(before, s, source)
    requires forall x :: x in s.clones ==> x in Step(s, e, max).clones
    requires forall x :: Yield(s.clones, x, source) != [] ==> Yield(Step(s, e, max).clones, x, source) != []
    ensures Revived(before + [e], Step(s, e, max), source)
  {
    var id :| id in s.clones && Cancel(id) in before && Yield(s.clones, id, source) != [];
    assert Cancel(id) in before + [e];
  }

  /** The step that completes a clone. */
  lemma SuccessKeepsLineage(before: seq<Event>, e: Event, max: nat, source: string)
    requires IsRun(before, max) && Enabled(After(before, max), e, max) && e.Succeed?
    requires LineageOk(before, After(before, max), source)
    ensures LineageOk(before + [e], Step(After(before, max), e, max), source)
  {
    var s := After(before, max);
    var s' := Step(s, e, max);
    var id := e.id;
    CompleteIsFinal(before, max, id);
    RunKeepsInv(before, max);
    assert Filed(before, s, id);
    StepYields(s, e, max, source);
    MadeChanges(s.clones, s'.clones, s.history, source, id);
    MadeSnoc(s'.clones, s.history, id, source);
    assert id in s.history <==> id in multiset(s.history);
    if Revived(before, s, source) {
      StillRevived(before, e, max, s, source);
    }
    hide Run, Step, Enabled, Made, Descendants, Times;
    assert Cancel(id) in before + [e] <==> Cancel(id) in before;
    if Yield(s'.clones, id, source) != [] && Cancel(id) in before {
      assert Revived(before + [e], s', source);
    } else if Revived(before + [e], s', source) {
      var x :| x in s'.clones && Cancel(x) in before + [e] && Yield(s'.clones, x, source) != [];
      assert Cancel(x) in before;
      assert Revived(before, s, source);
    }
  }

  lemma OtherKeepsLineage(before: seq<Event>, e: Event, max: nat, source: string)
    requires IsRun(before, max) && Enabled(After(before, max), e, max) && !e.Succeed?
    requires LineageOk(before, After(before, max), source)
    ensures LineageOk(before + [e], Step(After(before, max), e, max), source)
  {
    var s := After(before, max);
    var s' := Step(s, e, max);
    CompleteIsFinal(before, max, e.id);
    StepYields(s, e, max, source);
    MadeChanges(s.clones, s'.clones, s.history, source, e.id);
    MadeSnoc(s'.clones, s.history, e.id, source);
    CancelYieldsNothing(before, e, max, source);
    if Revived(before, s, source) {
      StillRevived(before, e, max, s, source);
    }
    hide Run, Step, Enabled, Made, Descendants;
    if Revived(before + [e], s', source) {
      var x :| x in s'.clones && Cancel(x) in before + [e] && Yield(s'.clones, x, source) != [];
      assert Cancel(x) in before;
      assert Revived(before, s, source);
    }
  }

  lemma CancelYieldsNothing(before: seq<Event>, e: Event, max: nat, source: string)
    requires IsRun(before, max) && Enabled(After(before, max), e, max) && !e.Succeed?
    ensures var s' := Step(After(before, max), e, max);
            e.Fail? || e.GiveUp? || e.Cancel? ==> Yield(s'.clones, e.id, source) == []
  {
    hide Run, Holders;
  }

  lemma {:induction false} RunKeepsLineage(es: seq<Event>, max: nat, source: string)
    requires IsRun(es, max)
    ensures LineageOk(es, After(es, max), source)
  {
    if es != [] {
      var before, e := Unroll(es, max);
      RunKeepsLineage(before, max, source);
      hide Run, Step, LineageOk, Enabled;
      if e.Succeed? {
        SuccessKeepsLineage(before, e, max, source);
      } else {
        OtherKeepsLineage(before, e, max, source);
      }
    }
  }

  /**
   In every run, the lineage of a container lists what its completed clones made in
   history order if and only if none of them had been cancelled before it completed.
   */
  lemma LineageFollowsHistoryIff(es: seq<Event>, max: nat, source: string)
    requires IsRun(es, max)
    ensures var s := After(es, max);
            Descendants(s, source) == Made(s.clones, s.history, source) <==> !Revived(es, s, source)
  {
    RunKeepsLineage(es, max, source);
  }

  /** Without cancellation it always does. */
  lemma LineageFollowsHistory(es: seq<Event>, max: nat, source: string)
    requires IsRun(es, max) && CancelFree(es)
    ensures var s := After(es, max);
            Descendants(s, source) == Made(s.clones, s.history, source)
  {
    LineageFollowsHistoryIff(es, max, source);
  }

  // ---------------------------------------------------------------- what cancellation breaks

  /** A clone cancelled while it waits, whose executor then gives up, is listed and counted twice. */
  lemma CancelledTwice(id: string, source: string, max: nat)
    ensures var es := [Request(id, source), Cancel(id), GiveUp(id)];
            && IsRun(es, max)
            && After(es, max).history == [id, id]
            && Tally(After(es, max).clones, [id, id], Failed) == 2
  {
    var request := Request(id, source);
    Extend([], request, [request], max);
    Extend([request], Cancel(id), [request, Cancel(id)], max);
    Extend([request, Cancel(id)], GiveUp(id), [request, Cancel(id), GiveUp(id)], max);
    hide Run;
    assert [id, id][..1] == [id] && [id][..0] == [];
    assert Tally(After([request, Cancel(id), GiveUp(id)], max).clones, [id], Failed) == 1;
  }

  /** A clone cancelled while its executor works is in the history and counted neither completed nor failed. */
  lemma CancelledUncounted(id: string, source: string, max: nat)
    requires max > 0
    ensures var es := [Request(id, source), Acquire(id), Cancel(id), Advance(id)];
            && IsRun(es, max)
            && After(es, max).history == [id]
            && Tally(After(es, max).clones, [id], Complete) + Tally(After(es, max).clones, [id], Failed) == 0
  {
    var request := Request(id, source);
    Extend([], request, [request], max);
    assert Holders(After([request], max)) == {};
    Extend([request], Acquire(id), [request, Acquire(id)], max);
    Extend([request, Acquire(id)], Cancel(id), [request, Acquire(id), Cancel(id)], max);
    Extend([request, Acquire(id), Cancel(id)], Advance(id), [request, Acquire(id), Cancel(id), Advance(id)], max);
    hide Run;
    assert [id][..0] == [];
  }

  // ---------------------------------------------------------------- the manager object

  datatype Stats = Stats(active: nat, completed: nat, failed: nat)

  class Manager {
    const maxConcurrent: nat
    var clones: map<string, Clone>
    var active: set<string>
    var history: seq<string>
    var lineage: map<string, seq<string>>

    function Abs(): State
      reads this
    {
      State(clones, active, history, lineage)
    }

    constructor (maxConcurrent: nat)
      ensures Abs() == NOTHING && this.maxConcurrent == maxConcurrent
    {
      this.maxConcurrent := maxConcurrent;
      clones, active, history, lineage := map[], {}, [], map[];
    }

    method RequestClone(id: string, source: string)
      requires Enabled(Abs(), Request(id, source), maxConcurrent)
      modifies this
      ensures Abs() == Step(old(Abs()), Request(id, source), maxConcurrent)
    {
      clones := clones[id := Clone(source, "", Pending, Waiting)];
      active := active + {id};
    }

    method CompleteClone(id: string)
      requires Enabled(Abs(), Succeed(id), maxConcurrent)
      modifies this
      ensures Abs() == Step(old(Abs()), Succeed(id), maxConcurrent)
    {
      clones := clones[id := clones[id].(status := Complete, phase := Ended)];
      active := active - {id};
      history := history + [id];
      var source := clones[id].source;
      var known := if source in lineage then lineage[source] else [];
      lineage := lineage[source := known + [clones[id].target]];
    }

    method FailClone(id: string)
      requires Enabled(Abs(), GiveUp(id), maxConcurrent) || Enabled(Abs(), Fail(id), maxConcurrent)
      modifies this
      ensures old(Enabled(Abs(), GiveUp(id), maxConcurrent)) ==> Abs() == old(Step(Abs(), GiveUp(id), maxConcurrent))
      ensures old(Enabled(Abs(), Fail(id), maxConcurrent)) ==> Abs() == old(Step(Abs(), Fail(id), maxConcurrent))
    {
      var phase := if clones[id].phase.Waiting? then Gone else Ended;
      clones := clones[id := clones[id].(status := Failed, phase := phase)];
      active := active - {id};
      history := history + [id];
    }

    method CancelClone(id: string) returns (ok: bool)
      requires active <= clones.Keys
      modifies this
      ensures ok == (id in old(active))
      ensures Abs() == if ok then old(Step(Abs(), Cancel(id), maxConcurrent)) else old(Abs())
    {
      if id !in active {
        return false;
      }
      clones := clones[id := clones[id].(status := Failed)];
      active := active - {id};
      history := history + [id];
      ok := true;
    }

    method GetClone(id: string) returns (found: bool)
      ensures found <==> id in active || id in history
    {
      if id in active {
        return true;
      }
      for i := 0 to |history|
        invariant id !in history[..i]
      {
        if history[i] == id {
          return true;
        }
      }
      found := false;
    }

    method GetStats() returns (stats: Stats)
      ensures stats == Stats(|active|, Tally(clones, history, Complete), Tally(clones, history, Failed))
    {
      var completed, failed := 0, 0;
      for i := 0 to |history|
        invariant completed == Tally(clones, history[..i], Complete)
        invariant failed == Tally(clones, history[..i], Failed)
      {
        assert history[..i + 1][..i] == history[..i];
        if history[i] in clones {
          match clones[history[i]].status {
            case Complete => completed := completed + 1;
            case Failed => failed := failed + 1;
            case _ =>
          }
        }
      }
      assert history[..|history|] == history;
      stats := Stats(|active|, completed, failed);
    }

    /** The most recent entries first; a limit that is not positive or too large means all. */
    method GetCloneHistory(limit: int) returns (recent: array<string>)
      ensures recent.Length == if 0 < limit <= |history| then limit else |history|
      ensures forall i :: 0 <= i < recent.Length ==> recent[i] == history[|history| - 1 - i]
    {
      var n := limit;
      if n <= 0 || n > |history| {
        n := |history|;
      }
      recent := new string[n];
      for i := 0 to n
        invariant forall k :: 0 <= k < i ==> recent[k] == history[|history| - 1 - k]
      {
        recent[i] := history[|history| - 1 - i];
      }
    }
  }
}
