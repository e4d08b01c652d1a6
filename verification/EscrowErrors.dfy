/**
 How the daemon recognises, from the error of a finalize call, that a reservation
 has already ended.
 */
module EscrowErrors {
  import opened Common
  import opened Escrow

  function Lower(s: string): (r: string)
    ensures |r| == |s|
    ensures forall i :: 0 <= i < |s| ==> r[i] == if 'A' <= s[i] <= 'Z' then s[i] - 'A' + 'a' else s[i]
  {
    seq(|s|, i requires 0 <= i < |s| => if 'A' <= s[i] <= 'Z' then s[i] - 'A' + 'a' else s[i])
  }

  predicate OccursAt(s: string, sub: string, i: nat) {
    i + |sub| <= |s| && s[i..i + |sub|] == sub
  }

  predicate Contains(s: string, sub: string) {
    exists i :: 0 <= i <= |s| && OccursAt(s, sub, i)
  }

  const NAME := "invalidstatus"

  const PHRASES := [
    "reservation already finalized", "reservation already completed",
    "reservation already refunded", "already finalized", NAME]

  predicate MatchesPhrase(message: string) {
    exists i :: 0 <= i < |PHRASES| && Contains(Lower(message), PHRASES[i])
  }

  /** The revert data decodes to an error of the contract. */
  predicate Typed(err: RpcError) {
    err.data.Some? && !err.data.value.Undecodable?
  }

  /** Decoded revert data decides; only without it does the message. */
  predicate IsAlreadyTerminal(err: RpcError) {
    match err.data
    case Some(InvalidStatus(actual)) => actual.Some? && actual.value.Terminal()
    case Some(InvalidReservation) => false
    case _ => MatchesPhrase(err.message)
  }

  /** The answer makes the sweep take the reservation for ended. */
  predicate Concludes(answer: Answer) {
    answer.Done? || ((answer.Reverted? || answer.Lost?) && IsAlreadyTerminal(answer.err))
  }

  // ---------------------------------------------------------------- which errors mislead

  /** An error the classifier cannot be misled by. */
  predicate Plain(err: RpcError) {
    Typed(err) || !MatchesPhrase(err.message)
  }

  /**
   An error is never taken for the end of a live reservation, whatever its
   status, exactly if its revert data decodes or its message has none of the phrases.
   */
  lemma NeverAbandonsIff(err: RpcError)
    ensures (forall status: Status :: !status.Terminal() && CanRelay(err, status) ==> !IsAlreadyTerminal(err)) <==> Plain(err)
  {
    if !Plain(err) {
      assert CanRelay(err, Active);
    }
  }

  /** A conclusive plain error comes from a reservation that has ended. */
  lemma PlainConcludesEnded(err: RpcError, status: Status)
    requires Plain(err) && CanRelay(err, status) && IsAlreadyTerminal(err)
    ensures status.Terminal()
  {
    NeverAbandonsIff(err);
  }

  /** A message that echoes the name of the contract's status error matches, whatever surrounds the name. */
  lemma NameMatches(before: string, after: string)
    ensures MatchesPhrase(before + "InvalidStatus" + after)
  {
    var message := before + "InvalidStatus" + after;
    var lower := Lower(message);
    var k := |before|;
    assert message[k..k + |NAME|] == "InvalidStatus";
    forall i | 0 <= i < |NAME|
      ensures lower[k + i] == NAME[i]
    {
      assert message[k + i] == "InvalidStatus"[i];
    }
    assert lower[k..k + |NAME|] == NAME;
    assert OccursAt(lower, NAME, k);
    assert Contains(lower, NAME);
    assert PHRASES[4] == NAME;
  }

  lemma ContainsInner(before: string, inner: string, after: string)
    ensures Contains(Lower(before + inner + after), Lower(inner))
  {
    var message := before + inner + after;
    var lower, k := Lower(message), |before|;
    assert message[k..k + |inner|] == inner;
    assert lower[k..k + |inner|] == Lower(inner);
    assert OccursAt(lower, Lower(inner), k);
  }

  /** A message that has one of the phrases anywhere, in capitals or not, matches. */
  lemma EveryPhraseMatches(before: string, phrase: string, after: string)
    requires Lower(phrase) in PHRASES
    ensures MatchesPhrase(before + phrase + after)
  {
    hide Contains, Lower;
    ContainsInner(before, phrase, after);
    var i :| 0 <= i < |PHRASES| && PHRASES[i] == Lower(phrase);
    assert Contains(Lower(before + phrase + after), PHRASES[i]);
  }

  /** A status error that decodes is taken for the end exactly if the status it reports is final, whatever its text says. */
  lemma DecodedStatusDecides(actual: Status, message: string)
    ensures IsAlreadyTerminal(RpcError(Some(InvalidStatus(Some(actual))), message)) <==> actual in {Completed, Refunded, Disputed}
    ensures !IsAlreadyTerminal(RpcError(Some(InvalidStatus(None)), message))
    ensures !IsAlreadyTerminal(RpcError(Some(InvalidReservation), message))
    ensures IsAlreadyTerminal(RpcError(None, message)) <==> MatchesPhrase(message)
    ensures IsAlreadyTerminal(RpcError(Some(Undecodable), message)) <==> MatchesPhrase(message)
  {
  }

  predicate IsHex(s: string) {
    forall i :: 0 <= i < |s| ==> '0' <= s[i] <= '9' || 'a' <= s[i] <= 'f'
  }

  lemma LetterAt(s: string, sub: string, i: nat, j: nat)
    requires OccursAt(s, sub, i) && j < |sub|
    ensures s[i + j] == sub[j]
  {
    assert s[i..i + |sub|][j] == s[i + j];
  }

  lemma NeedsItsLetters(s: string, sub: string, j: nat)
    requires j < |sub| && forall i :: 0 <= i < |s| ==> s[i] != sub[j]
    ensures !Contains(s, sub)
  {
    forall i | 0 <= i <= |s|
      ensures !OccursAt(s, sub, i)
    {
      if OccursAt(s, sub, i) {
        LetterAt(s, sub, i, j);
      }
    }
  }

  /** The error for a job without a reservation is never taken for an ended one: every phrase has an l, it has none. */
  lemma NoReservationIsTransient(job: string)
    requires IsHex(job)
    ensures !IsAlreadyTerminal(RpcError(None, "no reservation ID found for job " + job))
  {
    var message := "no reservation ID found for job " + job;
    var lower := Lower(message);
    assert forall i :: 0 <= i < |lower| ==> lower[i] != 'l';
    assert PHRASES[0][13] == 'l' && PHRASES[1][13] == 'l' && PHRASES[2][13] == 'l' && PHRASES[3][1] == 'l' && PHRASES[4][4] == 'l';
    NeedsItsLetters(lower, PHRASES[0], 13);
    NeedsItsLetters(lower, PHRASES[1], 13);
    NeedsItsLetters(lower, PHRASES[2], 13);
    NeedsItsLetters(lower, PHRASES[3], 1);
    NeedsItsLetters(lower, PHRASES[4], 4);
  }
}
