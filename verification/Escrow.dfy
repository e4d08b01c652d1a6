/**
 The escrow reservation as its contract sees it, and the payment service as the
 daemon sees it.

 `Act` is the status machine of the reservation contract. `Answer` is what one
 call of the payment service can bring back, and `After` is what that call does
 to the chain. A call returns as soon as its transaction is accepted, so an
 accepted transaction may still be unmined (`Done(false)`), and a lost reply may
 hide a transaction that landed (`Lost(true, _)`).
 */
module Escrow {
  import opened Common

  type ReservationId = int

  datatype Status = Absent | Created | Active | Completed | Refunded | Disputed {
    predicate Terminal() {
      Completed? || Refunded? || Disputed?
    }
  }

  datatype Action = Create | SelectProviders | Release | Finalize | Refund | SettleDispute {
    /** The two calls that end a reservation on the daemon's behalf. */
    predicate Ends() {
      Finalize? || Refund?
    }
  }

  /** The contract's transition; `None` is a revert with `InvalidStatus`. */
  function Act(s: Status, a: Action): Option<Status> {
    match a
    case Create => if s.Absent? then Some(Created) else None
    case SelectProviders => if s.Created? then Some(Active) else None
    case Release => if s.Active? then Some(Active) else None
    case Finalize => if s.Active? then Some(Completed) else None
    case Refund => if s.Active? || s.Created? then Some(Refunded) else None
    case SettleDispute => if s.Active? then Some(Disputed) else None
  }

  /** The status after the contract executed these actions in turn, if it executes them all. */
  function Replay(actions: seq<Action>): Option<Status> {
    if actions == [] then Some(Absent)
    else
      match Replay(actions[..|actions| - 1])
      case None => None
      case Some(s) => Act(s, actions[|actions| - 1])
  }

  /** Created, given its providers, and paid out any number of times. */
  predicate Opened(actions: seq<Action>) {
    && |actions| >= 2 && actions[0] == Create && actions[1] == SelectProviders
    && forall i :: 2 <= i < |actions| ==> actions[i] == Release
  }

  /** Opened, and then the one last action. */
  predicate OpenedThen(actions: seq<Action>, last: Action) {
    |actions| >= 3 && Opened(actions[..|actions| - 1]) && actions[|actions| - 1] == last
  }

  /**
   The whole life of a reservation: it is created, refunded at once or given its
   providers, paid out, and then completed, refunded or disputed, and that is the end.
   */
  lemma {:induction false} LifeOfReservation(actions: seq<Action>)
    ensures Replay(actions) == Some(Absent) <==> actions == []
    ensures Replay(actions) == Some(Created) <==> actions == [Create]
    ensures Replay(actions) == Some(Active) <==> Opened(actions)
    ensures Replay(actions) == Some(Completed) <==> OpenedThen(actions, Finalize)
    ensures Replay(actions) == Some(Refunded) <==> actions == [Create, Refund] || OpenedThen(actions, Refund)
    ensures Replay(actions) == Some(Disputed) <==> OpenedThen(actions, SettleDispute)
  {
    if actions != [] {
      var before, last := actions[..|actions| - 1], actions[|actions| - 1];
      LifeOfReservation(before);
      assert actions == before + [last];
    }
  }

  /** The chain, and the live reservations whose accepted ending is not mined yet. */
  datatype World = World(chain: map<ReservationId, Status>, unmined: set<ReservationId>)

  function StatusOf(w: World, r: ReservationId): Status {
    if r in w.chain then w.chain[r] else Absent
  }

  /** The reservation has ended, or an accepted transaction is going to end it. */
  predicate Settling(w: World, r: ReservationId) {
    StatusOf(w, r).Terminal() || r in w.unmined
  }

  /** Only a live reservation waits for its ending to be mined. */
  ghost predicate Tidy(w: World) {
    forall r :: r in w.unmined ==> StatusOf(w, r).Created? || StatusOf(w, r).Active?
  }

  // ---------------------------------------------------------------- answers

  /** The custom error carried by a revert, as far as it can be decoded. */
  datatype RevertData = Undecodable | InvalidStatus(actual: Option<Status>) | InvalidReservation

  /** The error of a call: what it carries besides its text, and the text. */
  datatype RpcError = RpcError(data: Option<RevertData>, message: string)

  datatype Answer =
    | Done(mined: bool)
    | Reverted(err: RpcError)
    | Lost(landed: bool, err: RpcError)
    | NoReservation

  /** Decoded revert data never reports an ending that has not happened; a message may say anything. */
  predicate CanRelay(err: RpcError, s: Status) {
    match err.data
    case Some(InvalidStatus(Some(actual))) => actual.Terminal() ==> s.Terminal()
    case _ => true
  }

  /**
   Which answers the service can give when its cache holds `entry` for the job.
   A transaction is accepted after its gas was estimated on the chain as it is, so
   only if the contract would execute it.
   */
  predicate CanAnswer(w: World, entry: Option<ReservationId>, a: Action, answer: Answer) {
    match answer
    case NoReservation => entry.None?
    case Done(_) => entry.Some? && Act(StatusOf(w, entry.value), a).Some?
    case Reverted(err) =>
      entry.Some? && Act(StatusOf(w, entry.value), a).None? && CanRelay(err, StatusOf(w, entry.value))
    case Lost(landed, err) =>
      && entry.Some? && CanRelay(err, StatusOf(w, entry.value))
      && (landed ==> Act(StatusOf(w, entry.value), a).Some?)
  }

  /** The call was executed or accepted, whatever the caller learns of it. */
  predicate Takes(answer: Answer) {
    answer.Done? || (answer.Lost? && answer.landed)
  }

  function After(w: World, entry: Option<ReservationId>, a: Action, answer: Answer): World
    requires CanAnswer(w, entry, a, answer)
  {
    match answer
    case NoReservation => w
    case Reverted(_) => w
    case Lost(landed, _) => if landed then Move(w, entry.value, a) else w
    case Done(mined) =>
      if mined then Move(w, entry.value, a)
      else if a.Ends() then w.(unmined := w.unmined + {entry.value})
      else w
  }

  /** The contract executes `a` on `r`; once `r` has ended nothing of it is left to mine. */
  function Move(w: World, r: ReservationId, a: Action): World
    requires Act(StatusOf(w, r), a).Some?
  {
    var s := Act(StatusOf(w, r), a).value;
    World(w.chain[r := s], if s.Terminal() then w.unmined - {r} else w.unmined)
  }

  /** Nothing that was ended, or accepted for ending, becomes live again. */
  ghost predicate Advances(w: World, w': World) {
    && (forall r :: Settling(w, r) ==> Settling(w', r))
    && (Tidy(w) ==> Tidy(w'))
  }

  lemma AfterAdvances(w: World, entry: Option<ReservationId>, a: Action, answer: Answer)
    requires CanAnswer(w, entry, a, answer)
    ensures Advances(w, After(w, entry, a, answer))
    ensures answer.Done? && a.Ends() ==> Settling(After(w, entry, a, answer), entry.value)
  {
  }

  lemma MoveAdvances(w: World, r: ReservationId, a: Action)
    requires Act(StatusOf(w, r), a).Some?
    ensures Advances(w, Move(w, r, a))
  {
  }

  /** A settling reservation has ended exactly if it is not waiting to be mined. */
  lemma SettlingSplits(w: World, r: ReservationId)
    requires Tidy(w) && Settling(w, r)
    ensures StatusOf(w, r).Terminal() <==> r !in w.unmined
  {
  }
}
