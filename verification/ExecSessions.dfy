/** Exec challenges that are good for one use within half a minute, and the caps on exec sessions. */
module ExecSessions {
  import opened Common

  const MAX_SESSIONS_PER_WALLET: nat := 5
  const MAX_SESSIONS_PER_CONTAINER: nat := 3
  const MAX_TOTAL_SESSIONS: nat := 50
  const MAX_TOTAL_CHALLENGES: nat := 200
  const SECOND: int := 1_000_000_000
  const IDLE_TIMEOUT: int := 1800 * SECOND
  const CHALLENGE_TIMEOUT: int := 30 * SECOND

  datatype Session = Session(container: string, wallet: string, lastActivity: int)

  datatype Challenge = Challenge(container: string, wallet: string, createdAt: int, expiresAt: int)

  type Sessions = map<string, Session>
  type Challenges = map<string, Challenge>

  datatype State = State(sessions: Sessions, challenges: Challenges)

  datatype Event =
    | Create(nonce: string, container: string, wallet: string, now: int)
    | Validate(nonce: string, now: int)
    | Add(id: string, session: Session, now: int)
    | Remove(id: string, now: int)
    | Touch(id: string, now: int)
    | Reap(now: int)

  const EMPTY := State(map[], map[])

  // ---------------------------------------------------------------- the operations

  function OfWallet(sessions: Sessions, wallet: string): set<string> {
    set id | id in sessions && sessions[id].wallet == wallet
  }

  function OfContainer(sessions: Sessions, container: string): set<string> {
    set id | id in sessions && sessions[id].container == container
  }

  function Issued(e: Event): Challenge
    requires e.Create?
  {
    Challenge(e.container, e.wallet, e.now, e.now + CHALLENGE_TIMEOUT)
  }

  predicate Creates(s: State, e: Event) {
    e.Create? && |s.challenges| < MAX_TOTAL_CHALLENGES
  }

  /** The validation finds the challenge, and not after it expired. */
  predicate Accepts(s: State, e: Event) {
    e.Validate? && e.nonce in s.challenges && e.now <= s.challenges[e.nonce].expiresAt
  }

  predicate Admits(sessions: Sessions, session: Session) {
    && |sessions| < MAX_TOTAL_SESSIONS
    && |OfWallet(sessions, session.wallet)| < MAX_SESSIONS_PER_WALLET
    && |OfContainer(sessions, session.container)| < MAX_SESSIONS_PER_CONTAINER
  }

  function Busy(sessions: Sessions, now: int): Sessions {
    map id | id in sessions && now - sessions[id].lastActivity <= IDLE_TIMEOUT :: sessions[id]
  }

  function Unexpired(challenges: Challenges, now: int): Challenges {
    map nonce | nonce in challenges && now <= challenges[nonce].expiresAt :: challenges[nonce]
  }

  function Step(s: State, e: Event): State {
    match e
    case Create(nonce, _, _, _) => if Creates(s, e) then s.(challenges := s.challenges[nonce := Issued(e)]) else s
    case Validate(nonce, _) => s.(challenges := s.challenges - {nonce})
    case Add(id, session, _) => if Admits(s.sessions, session) then s.(sessions := s.sessions[id := session]) else s
    case Remove(id, _) => s.(sessions := s.sessions - {id})
    case Touch(id, now) =>
      if id in s.sessions then s.(sessions := s.sessions[id := s.sessions[id].(lastActivity := now)]) else s
    case Reap(now) => State(Busy(s.sessions, now), Unexpired(s.challenges, now))
  }

  function Run(s: State, es: seq<Event>): State
    decreases es
  {
    if es == [] then s else Run(Step(s, es[0]), es[1..])
  }

  // ---------------------------------------------------------------- caps

  ghost predicate Capped(s: State) {
    && |s.sessions| <= MAX_TOTAL_SESSIONS
    && |s.challenges| <= MAX_TOTAL_CHALLENGES
    && (forall wallet :: |OfWallet(s.sessions, wallet)| <= MAX_SESSIONS_PER_WALLET)
    && (forall container :: |OfContainer(s.sessions, container)| <= MAX_SESSIONS_PER_CONTAINER)
  }

  lemma OneMore(a: set<string>, b: set<string>, x: string)
    requires a <= b + {x}
    ensures |a| <= |b| + 1
  {
    SubsetSize(a, b + {x});
  }

  /** An admitted session, even under an id already in use, makes each count grow by one at most. */
  lemma AddKeepsCaps(s: State, id: string, session: Session, now: int)
    requires Capped(s) && Admits(s.sessions, session)
    ensures Capped(Step(s, Add(id, session, now)))
  {
    var sessions := s.sessions[id := session];
    OneMore(sessions.Keys, s.sessions.Keys, id);
    assert |sessions| == |sessions.Keys| && |s.sessions| == |s.sessions.Keys|;
    forall wallet
      ensures |OfWallet(sessions, wallet)| <= MAX_SESSIONS_PER_WALLET
    {
      if wallet == session.wallet {
        OneMore(OfWallet(sessions, wallet), OfWallet(s.sessions, wallet), id);
      } else {
        SubsetSize(OfWallet(sessions, wallet), OfWallet(s.sessions, wallet));
      }
    }
    forall container
      ensures |OfContainer(sessions, container)| <= MAX_SESSIONS_PER_CONTAINER
    {
      if container == session.container {
        OneMore(OfContainer(sessions, container), OfContainer(s.sessions, container), id);
      } else {
        SubsetSize(OfContainer(sessions, container), OfContainer(s.sessions, container));
      }
    }
  }

  /** Dropping sessions, or changing when they were last active, keeps the caps. */
  lemma ShrinkKeepsCaps(s: State, s': State)
    requires Capped(s)
    requires s'.sessions.Keys <= s.sessions.Keys
    requires forall id :: id in s'.sessions ==>
                            s'.sessions[id].wallet == s.sessions[id].wallet && s'.sessions[id].container == s.sessions[id].container
    requires |s'.challenges| <= MAX_TOTAL_CHALLENGES
    ensures Capped(s')
  {
    SubsetSize(s'.sessions.Keys, s.sessions.Keys);
    assert |s'.sessions| == |s'.sessions.Keys| && |s.sessions| == |s.sessions.Keys|;
    forall wallet
      ensures |OfWallet(s'.sessions, wallet)| <= MAX_SESSIONS_PER_WALLET
    {
      SubsetSize(OfWallet(s'.sessions, wallet), OfWallet(s.sessions, wallet));
    }
    forall container
      ensures |OfContainer(s'.sessions, container)| <= MAX_SESSIONS_PER_CONTAINER
    {
      SubsetSize(OfContainer(s'.sessions, container), OfContainer(s.sessions, container));
    }
  }

  lemma ChallengesStayCapped(s: State, e: Event)
    requires |s.challenges| <= MAX_TOTAL_CHALLENGES
    ensures |Step(s, e).challenges| <= MAX_TOTAL_CHALLENGES
  {
    var s' := Step(s, e);
    assert |s'.challenges| == |s'.challenges.Keys| && |s.challenges| == |s.challenges.Keys|;
    if Creates(s, e) {
      OneMore(s'.challenges.Keys, s.challenges.Keys, e.nonce);
    } else {
      SubsetSize(s'.challenges.Keys, s.challenges.Keys);
    }
  }

  lemma StepKeepsCaps(s: State, e: Event)
    requires Capped(s)
    ensures Capped(Step(s, e))
  {
    ChallengesStayCapped(s, e);
    if e.Add? && Admits(s.sessions, e.session) {
      AddKeepsCaps(s, e.id, e.session, e.now);
    } else {
      ShrinkKeepsCaps(s, Step(s, e));
    }
  }

  /** The caps on sessions in all, per wallet and per container, and on challenges, hold in every run. */
  lemma {:induction false} RunKeepsCaps(s: State, es: seq<Event>)
    requires Capped(s)
    ensures Capped(Run(s, es))
    decreases es
  {
    if es != [] {
      StepKeepsCaps(s, es[0]);
      hide Step, Capped;
      RunKeepsCaps(Step(s, es[0]), es[1..]);
    }
  }

  lemma StartsCapped()
    ensures Capped(EMPTY)
  {
    forall key
      ensures |OfWallet(EMPTY.sessions, key)| == 0 && |OfContainer(EMPTY.sessions, key)| == 0
    {
      assert OfWallet(EMPTY.sessions, key) == {} && OfContainer(EMPTY.sessions, key) == {};
    }
  }

  // ---------------------------------------------------------------- challenges are used once

  function TimesCreated(s: State, es: seq<Event>, nonce: string): nat
    decreases es
  {
    if es == [] then 0
    else Bit(Creates(s, es[0]) && es[0].nonce == nonce) + TimesCreated(Step(s, es[0]), es[1..], nonce)
  }

  function TimesAccepted(s: State, es: seq<Event>, nonce: string): nat
    decreases es
  {
    if es == [] then 0
    else Bit(Accepts(s, es[0]) && es[0].nonce == nonce) + TimesAccepted(Step(s, es[0]), es[1..], nonce)
  }

  /** In every run, a nonce is accepted at most once for each time it was created, and a pending one not yet. */
  lemma {:induction false} AcceptedOncePerCreation(s: State, es: seq<Event>, nonce: string)
    ensures TimesAccepted(s, es, nonce) + Bit(nonce in Run(s, es).challenges) <=
              TimesCreated(s, es, nonce) + Bit(nonce in s.challenges)
    decreases es
  {
    if es != [] {
      AcceptedOncePerCreation(Step(s, es[0]), es[1..], nonce);
      SpentWhenAccepted(s, es[0], nonce);
      hide Step;
    }
  }

  lemma SpentWhenAccepted(s: State, e: Event, nonce: string)
    ensures Bit(Accepts(s, e) && e.nonce == nonce) + Bit(nonce in Step(s, e).challenges) <=
              Bit(Creates(s, e) && e.nonce == nonce) + Bit(nonce in s.challenges)
  {
    hide Admits, Busy;
  }

  // ---------------------------------------------------------------- challenges are used in time

  /** The call that made the challenge: for the same container and wallet, half a minute before it expires. */
  predicate IsIssue(e: Event, nonce: string, challenge: Challenge) {
    && e.Create? && e.nonce == nonce
    && challenge.container == e.container && challenge.wallet == e.wallet
    && challenge.createdAt == e.now && challenge.expiresAt == e.now + 30 * SECOND
  }

  ghost predicate Genuine(es: seq<Event>, s: State) {
    forall nonce :: nonce in s.challenges ==> exists i :: 0 <= i < |es| && IsIssue(es[i], nonce, s.challenges[nonce])
  }

  lemma StepStaysGenuine(es: seq<Event>, s: State, e: Event)
    requires Genuine(es, s)
    ensures Genuine(es + [e], Step(s, e))
  {
    var s' := Step(s, e);
    forall nonce | nonce in s'.challenges
      ensures exists i :: 0 <= i < |es + [e]| && IsIssue((es + [e])[i], nonce, s'.challenges[nonce])
    {
      if Creates(s, e) && e.nonce == nonce {
        assert IsIssue((es + [e])[|es|], nonce, s'.challenges[nonce]);
      } else {
        assert nonce in s.challenges && s'.challenges[nonce] == s.challenges[nonce];
        var i :| 0 <= i < |es| && IsIssue(es[i], nonce, s.challenges[nonce]);
        assert (es + [e])[i] == es[i];
      }
    }
  }

  lemma {:induction false} RunStaysGenuine(past: seq<Event>, s: State, es: seq<Event>)
    requires Genuine(past, s)
    ensures Genuine(past + es, Run(s, es))
    decreases es
  {
    if es == [] {
      assert past + es == past;
    } else {
      StepStaysGenuine(past, s, es[0]);
      RunStaysGenuine(past + [es[0]], Step(s, es[0]), es[1..]);
      assert past + [es[0]] + es[1..] == past + es;
    }
  }

  /** Whatever is accepted was issued earlier for the same container and wallet, at most thirty seconds before. */
  lemma AcceptedWasIssuedInTime(es: seq<Event>, e: Event)
    requires Accepts(Run(EMPTY, es), e)
    ensures var c := Run(EMPTY, es).challenges[e.nonce];
            exists i :: 0 <= i < |es| && IsIssue(es[i], e.nonce, c) && e.now <= es[i].now + CHALLENGE_TIMEOUT
  {
    var s := Run(EMPTY, es);
    RunStaysGenuine([], EMPTY, es);
    hide Run;
    assert [] + es == es;
    var i :| 0 <= i < |es| && IsIssue(es[i], e.nonce, s.challenges[e.nonce]);
  }

  /** Events that neither create nor validate the nonce, at moments up to the given one. */
  predicate Leaves(es: seq<Event>, nonce: string, until: int) {
    forall i :: 0 <= i < |es| ==>
      es[i].now <= until && (es[i].Create? || es[i].Validate? ==> es[i].nonce != nonce)
  }

  lemma {:induction false} PendingStays(s: State, es: seq<Event>, nonce: string, until: int)
    requires nonce in s.challenges && Leaves(es, nonce, until) && until <= s.challenges[nonce].expiresAt
    ensures nonce in Run(s, es).challenges && Run(s, es).challenges[nonce] == s.challenges[nonce]
    decreases es
  {
    if es != [] {
      hide Admits, Busy;
      var s' := Step(s, es[0]);
      assert es[0].now <= until && (es[0].Create? || es[0].Validate? ==> es[0].nonce != nonce);
      assert nonce in s'.challenges && s'.challenges[nonce] == s.challenges[nonce];
      PendingStays(s', es[1..], nonce, until);
    }
  }

  lemma {:induction false} PendingIsSame(s: State, es: seq<Event>, nonce: string, until: int)
    requires nonce in s.challenges && Leaves(es, nonce, until)
    ensures nonce in Run(s, es).challenges ==> Run(s, es).challenges[nonce] == s.challenges[nonce]
    decreases es
  {
    if es != [] {
      hide Admits, Busy;
      var s' := Step(s, es[0]);
      assert es[0].now <= until && (es[0].Create? || es[0].Validate? ==> es[0].nonce != nonce);
      if nonce in s'.challenges {
        PendingIsSame(s', es[1..], nonce, until);
      } else {
        AbsentStays(s', es[1..], nonce, until);
      }
    }
  }

  lemma {:induction false} AbsentStays(s: State, es: seq<Event>, nonce: string, until: int)
    requires nonce !in s.challenges && Leaves(es, nonce, until)
    ensures nonce !in Run(s, es).challenges
    decreases es
  {
    if es != [] {
      hide Admits, Busy;
      assert es[0].Create? || es[0].Validate? ==> es[0].nonce != nonce;
      AbsentStays(Step(s, es[0]), es[1..], nonce, until);
    }
  }

  /** With a clock that does not run backwards, the first validation of a challenge succeeds exactly if it comes in time. */
  lemma FirstValidationIff(s: State, es: seq<Event>, nonce: string, now: int)
    requires nonce in s.challenges && Leaves(es, nonce, now)
    ensures Accepts(Run(s, es), Validate(nonce, now)) <==> now <= s.challenges[nonce].expiresAt
  {
    if now <= s.challenges[nonce].expiresAt {
      PendingStays(s, es, nonce, now);
    } else {
      PendingIsSame(s, es, nonce, now);
    }
  }

  /** A new challenge is accepted exactly within its half minute, and only the first time. */
  lemma IssuedIsAcceptedIff(s: State, e: Event, es: seq<Event>, now: int)
    requires Creates(s, e) && Leaves(es, e.nonce, now)
    ensures var end := Run(Step(s, e), es);
            && (Accepts(end, Validate(e.nonce, now)) <==> now <= e.now + 30 * SECOND)
            && (Accepts(end, Validate(e.nonce, now)) ==> IsIssue(e, e.nonce, end.challenges[e.nonce]))
            && !Accepts(Step(end, Validate(e.nonce, now)), Validate(e.nonce, now))
  {
    FirstValidationIff(Step(s, e), es, e.nonce, now);
    PendingIsSame(Step(s, e), es, e.nonce, now);
    hide Run, Busy, Unexpired, Admits;
  }

  // ---------------------------------------------------------------- how long a session lives

  lemma {:induction false} RunSnoc(s: State, es: seq<Event>)
    requires es != []
    ensures Run(s, es) == Step(Run(s, es[..|es| - 1]), es[|es| - 1])
    decreases es
  {
    hide Step;
    if |es| > 1 {
      RunSnoc(Step(s, es[0]), es[1..]);
      assert es[1..][..|es| - 2] == es[..|es| - 1][1..];
    }
  }

  /** When a session that was last active at `start` was last touched. */
  function LastActive(es: seq<Event>, id: string, start: int): int {
    if es == [] then start
    else
      var last := es[|es| - 1];
      if last.Touch? && last.id == id then last.now else LastActive(es[..|es| - 1], id, start)
  }

  /** A round of the reaper that finds the session idle for more than half an hour. */
  predicate ReapsIdle(es: seq<Event>, id: string, start: int, i: nat)
    requires i < |es|
  {
    es[i].Reap? && es[i].now - LastActive(es[..i], id, start) > 1800 * SECOND
  }

  predicate NeverIdle(es: seq<Event>, id: string, start: int) {
    forall i :: 0 <= i < |es| ==> !ReapsIdle(es, id, start, i)
  }

  predicate NotManaged(es: seq<Event>, id: string) {
    forall i :: 0 <= i < |es| ==> !((es[i].Add? || es[i].Remove?) && es[i].id == id)
  }

  lemma NeverIdleSnoc(es: seq<Event>, id: string, start: int)
    requires es != []
    ensures var n := |es| - 1;
            NeverIdle(es, id, start) <==> NeverIdle(es[..n], id, start) && !ReapsIdle(es, id, start, n)
  {
    var front := es[..|es| - 1];
    assert forall i :: 0 <= i < |front| ==> front[..i] == es[..i];
    if NeverIdle(front, id, start) {
      forall i | 0 <= i < |front|
        ensures !ReapsIdle(es, id, start, i)
      {
        assert !ReapsIdle(front, id, start, i);
      }
    }
    if NeverIdle(es, id, start) {
      forall i | 0 <= i < |front|
        ensures !ReapsIdle(front, id, start, i)
      {
        assert !ReapsIdle(es, id, start, i);
      }
    }
  }

  /** What one event does to a session it neither adds nor removes. */
  lemma SessionStep(s: State, e: Event, id: string)
    requires !((e.Add? || e.Remove?) && e.id == id)
    ensures var after := Step(s, e).sessions;
            && (id in after <==> id in s.sessions && !(e.Reap? && e.now - s.sessions[id].lastActivity > 1800 * SECOND))
            && (id in after ==> after[id] == if e == Touch(id, e.now) then s.sessions[id].(lastActivity := e.now) else s.sessions[id])
  {
    hide Admits, Unexpired;
  }

  /**
   In every run a session stays exactly until a round of the reaper comes more than
   half an hour after it was last touched, and all that changes is when that was.
   */
  lemma {:induction false} SessionLivesUntilIdle(s: State, es: seq<Event>, id: string)
    requires id in s.sessions && NotManaged(es, id)
    ensures var start := s.sessions[id].lastActivity;
            && (id in Run(s, es).sessions <==> NeverIdle(es, id, start))
            && (id in Run(s, es).sessions ==>
                  Run(s, es).sessions[id] == s.sessions[id].(lastActivity := LastActive(es, id, start)))
    decreases es
  {
    if es != [] {
      var n := |es| - 1;
      RunSnoc(s, es);
      SessionLivesUntilIdle(s, es[..n], id);
      NeverIdleSnoc(es, id, s.sessions[id].lastActivity);
      SessionStep(Run(s, es[..n]), es[n], id);
      hide Run, Step, NeverIdle;
    }
  }

  predicate NotUsed(es: seq<Event>, nonce: string) {
    forall i :: 0 <= i < |es| ==> !((es[i].Create? || es[i].Validate?) && es[i].nonce == nonce)
  }

  predicate NotReapedAfter(es: seq<Event>, expiry: int) {
    forall i :: 0 <= i < |es| && es[i].Reap? ==> es[i].now <= expiry
  }

  lemma ChallengeStep(s: State, e: Event, nonce: string)
    requires !((e.Create? || e.Validate?) && e.nonce == nonce)
    ensures var after := Step(s, e).challenges;
            && (nonce in after <==> nonce in s.challenges && !(e.Reap? && e.now > s.challenges[nonce].expiresAt))
            && (nonce in after ==> after[nonce] == s.challenges[nonce])
  {
    hide Admits, Busy;
  }

  /** In every run an unused challenge takes up room exactly until a round of the reaper comes after it has expired. */
  lemma {:induction false} ChallengeStaysUntilExpiry(s: State, es: seq<Event>, nonce: string)
    requires nonce in s.challenges && NotUsed(es, nonce)
    ensures nonce in Run(s, es).challenges <==> NotReapedAfter(es, s.challenges[nonce].expiresAt)
    ensures nonce in Run(s, es).challenges ==> Run(s, es).challenges[nonce] == s.challenges[nonce]
    decreases es
  {
    if es != [] {
      var n := |es| - 1;
      RunSnoc(s, es);
      ChallengeStaysUntilExpiry(s, es[..n], nonce);
      ChallengeStep(Run(s, es[..n]), es[n], nonce);
      hide Run, Step;
      assert es == es[..n] + [es[n]];
    }
  }

  /** An admitted session is there, a removed one is not, and a refused one changes nothing. */
  lemma SessionsComeAndGo(s: State, id: string, session: Session, now: int)
    ensures Admits(s.sessions, session) ==> Step(s, Add(id, session, now)) == s.(sessions := s.sessions[id := session])
    ensures !Admits(s.sessions, session) ==> Step(s, Add(id, session, now)) == s
    ensures Step(s, Remove(id, now)) == s.(sessions := s.sessions - {id})
  {
  }

  lemma OfWalletPlus(sessions: Sessions, id: string, session: Session, wallet: string)
    requires id !in sessions
    ensures OfWallet(sessions[id := session], wallet) == OfWallet(sessions, wallet) + if session.wallet == wallet then {id} else {}
    ensures OfContainer(sessions[id := session], wallet) ==
              OfContainer(sessions, wallet) + if session.container == wallet then {id} else {}
  {
  }

  lemma OverCap(s: State, id: string, session: Session)
    requires id !in s.sessions && Capped(s.(sessions := s.sessions[id := session]))
    ensures Admits(s.sessions, session)
  {
    var sessions := s.sessions[id := session];
    OfWalletPlus(s.sessions, id, session, session.wallet);
    OfWalletPlus(s.sessions, id, session, session.container);
    assert sessions.Keys == s.sessions.Keys + {id} && |sessions| == |sessions.Keys| && |s.sessions| == |s.sessions.Keys|;
    assert |OfWallet(sessions, session.wallet)| <= MAX_SESSIONS_PER_WALLET;
    assert |OfContainer(sessions, session.container)| <= MAX_SESSIONS_PER_CONTAINER;
  }

  /** Where the caps hold, a session under a new id is admitted exactly if they would hold with it. */
  lemma AdmittedIffCapped(s: State, id: string, session: Session, now: int)
    requires Capped(s) && id !in s.sessions
    ensures Admits(s.sessions, session) <==> Capped(s.(sessions := s.sessions[id := session]))
  {
    if Admits(s.sessions, session) {
      AddKeepsCaps(s, id, session, now);
      SessionsComeAndGo(s, id, session, now);
    }
    hide Capped, Admits;
    if Capped(s.(sessions := s.sessions[id := session])) {
      OverCap(s, id, session);
    }
  }

  // ---------------------------------------------------------------- the manager object

  lemma CountOne(all: set<string>, rest: set<string>, id: string)
    requires id in rest
    ensures |all - (rest - {id})| == |all - rest| + Bit(id in all)
  {
    if id in all {
      assert all - (rest - {id}) == all - rest + {id};
    } else {
      assert all - (rest - {id}) == all - rest;
    }
  }

  class ExecSessionManager {
    var sessions: Sessions
    var challenges: Challenges

    function Abs(): State
      reads this
    {
      State(sessions, challenges)
    }

    constructor ()
      ensures Abs() == EMPTY
    {
      sessions, challenges := map[], map[];
    }

    method CreateChallenge(nonce: string, container: string, wallet: string, now: int) returns (ok: bool)
      modifies this
      ensures ok == Creates(old(Abs()), Create(nonce, container, wallet, now))
      ensures Abs() == Step(old(Abs()), Create(nonce, container, wallet, now))
    {
      if |challenges| >= MAX_TOTAL_CHALLENGES {
        return false;
      }
      challenges := challenges[nonce := Challenge(container, wallet, now, now + CHALLENGE_TIMEOUT)];
      ok := true;
    }

    method ValidateChallenge(nonce: string, now: int) returns (challenge: Option<Challenge>)
      modifies this
      ensures challenge.Some? == Accepts(old(Abs()), Validate(nonce, now))
      ensures challenge.Some? ==> challenge.value == old(challenges)[nonce]
      ensures Abs() == Step(old(Abs()), Validate(nonce, now))
    {
      if nonce !in challenges {
        assert challenges - {nonce} == challenges;
        return None;
      }
      var found := challenges[nonce];
      challenges := challenges - {nonce};
      if now > found.expiresAt {
        return None;
      }
      challenge := Some(found);
    }

    /** The loop of AddSession that counts the sessions of the wallet and of the container. */
    method CountSessions(wallet: string, container: string) returns (ofWallet: nat, ofContainer: nat)
      ensures ofWallet == |OfWallet(sessions, wallet)| && ofContainer == |OfContainer(sessions, container)|
    {
      var rest := sessions.Keys;
      ofWallet, ofContainer := 0, 0;
      ghost var w, c := OfWallet(sessions, wallet), OfContainer(sessions, container);
      assert w - rest == {} && c - rest == {};
      while rest != {}
        invariant rest <= sessions.Keys
        invariant ofWallet == |w - rest| && ofContainer == |c - rest|
        decreases |rest|
      {
        var id :| id in rest;
        CountOne(w, rest, id);
        CountOne(c, rest, id);
        if sessions[id].wallet == wallet {
          ofWallet := ofWallet + 1;
        }
        if sessions[id].container == container {
          ofContainer := ofContainer + 1;
        }
        rest := rest - {id};
      }
      assert w - rest == w && c - rest == c;
    }

    method AddSession(id: string, session: Session, ghost now: int) returns (ok: bool)
      modifies this
      ensures ok == Admits(old(sessions), session)
      ensures Abs() == Step(old(Abs()), Add(id, session, now))
    {
      if |sessions| >= MAX_TOTAL_SESSIONS {
        return false;
      }
      var ofWallet, ofContainer := CountSessions(session.wallet, session.container);
      if ofWallet >= MAX_SESSIONS_PER_WALLET || ofContainer >= MAX_SESSIONS_PER_CONTAINER {
        return false;
      }
      sessions := sessions[id := session];
      ok := true;
    }

    method RemoveSession(id: string, ghost now: int)
      modifies this
      ensures Abs() == Step(old(Abs()), Remove(id, now))
    {
      sessions := sessions - {id};
    }

    method TouchSession(id: string, now: int)
      modifies this
      ensures Abs() == Step(old(Abs()), Touch(id, now))
    {
      if id in sessions {
        sessions := sessions[id := sessions[id].(lastActivity := now)];
      }
    }

    method ReapSessions(now: int)
      modifies this
      ensures sessions == Busy(old(sessions), now) && challenges == old(challenges)
    {
      var ids := sessions.Keys;
      while ids != {}
        invariant challenges == old(challenges) && ids <= old(sessions).Keys
        invariant sessions == map id | id in old(sessions) && (id in ids || now - old(sessions)[id].lastActivity <= IDLE_TIMEOUT)
                              :: old(sessions)[id]
        decreases |ids|
      {
        var id :| id in ids;
        if now - sessions[id].lastActivity > IDLE_TIMEOUT {
          sessions := sessions - {id};
        }
        ids := ids - {id};
      }
    }

    method ReapChallenges(now: int)
      modifies this
      ensures challenges == Unexpired(old(challenges), now) && sessions == old(sessions)
    {
      var nonces := challenges.Keys;
      while nonces != {}
        invariant sessions == old(sessions) && nonces <= old(challenges).Keys
        invariant challenges == map nonce | nonce in old(challenges) && (nonce in nonces || now <= old(challenges)[nonce].expiresAt)
                                :: old(challenges)[nonce]
        decreases |nonces|
      {
        var nonce :| nonce in nonces;
        if now > challenges[nonce].expiresAt {
          challenges := challenges - {nonce};
        }
        nonces := nonces - {nonce};
      }
    }

    /** One round of the reaper. */
    method ReapOnce(now: int)
      modifies this
      ensures Abs() == Step(old(Abs()), Reap(now))
    {
      ReapSessions(now);
      ReapChallenges(now);
    }
  }
}
