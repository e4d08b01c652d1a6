/**
 Admission by counting: a call counts an owner's live records under a lock,
 lets go of the lock, and inserts its record later under another one. Several
 calls can stand between the two.
 */
module Admission {
  import opened Common

  datatype Entry = Entry(owner: string, live: bool)

  /** The records, and the owners of the calls that passed the count and have not inserted yet. */
  datatype Gate = Gate(records: map<string, Entry>, passed: multiset<string>)

  datatype Event =
    | Pass(owner: string)
    | Insert(owner: string, id: string)
    | Drop(owner: string)
    | Retire(id: string)
    | Remove(id: string)
    | Idle

  const OPEN := Gate(map[], multiset{})

  function Live(g: Gate, owner: string): set<string> {
    set id | id in g.records && g.records[id] == Entry(owner, true)
  }

  /** `calls` is the number of creation calls an owner may have under way at the same time. */
  predicate Enabled(g: Gate, e: Event, max: int, calls: nat) {
    match e
    case Pass(owner) => |Live(g, owner)| < max && g.passed[owner] < calls
    case Insert(owner, id) => owner in g.passed && id !in g.records
    case Drop(owner) => owner in g.passed
    case Retire(id) => id in g.records
    case Remove(id) => id in g.records
    case Idle => true
  }

  function Step(g: Gate, e: Event, max: int, calls: nat): Gate
    requires Enabled(g, e, max, calls)
  {
    match e
    case Pass(owner) => g.(passed := g.passed + multiset{owner})
    case Insert(owner, id) => Gate(g.records[id := Entry(owner, true)], g.passed - multiset{owner})
    case Drop(owner) => g.(passed := g.passed - multiset{owner})
    case Retire(id) => g.(records := g.records[id := g.records[id].(live := false)])
    case Remove(id) => g.(records := g.records - {id})
    case Idle => g
  }

  function Run(g: Gate, es: seq<Event>, max: int, calls: nat): Option<Gate>
    decreases es
  {
    if es == [] then Some(g)
    else if Enabled(g, es[0], max, calls) then Run(Step(g, es[0], max, calls), es[1..], max, calls)
    else None
  }

  // ---------------------------------------------------------------- the bound

  /** With one call at a time this is the configured maximum; each further call can add one. */
  function Cap(max: int, calls: nat): nat {
    if max <= 0 || calls == 0 then 0 else max + calls - 1
  }

  ghost predicate Within(g: Gate, max: int, calls: nat) {
    forall owner :: |Live(g, owner)| + g.passed[owner] <= Cap(max, calls)
  }

  lemma StepStaysWithin(g: Gate, e: Event, max: int, calls: nat)
    requires Within(g, max, calls) && Enabled(g, e, max, calls)
    ensures Within(Step(g, e, max, calls), max, calls)
  {
    var g' := Step(g, e, max, calls);
    forall owner
      ensures |Live(g', owner)| + g'.passed[owner] <= Cap(max, calls)
    {
      assert |Live(g, owner)| + g.passed[owner] <= Cap(max, calls);
      if e.Insert? && e.owner == owner {
        assert Live(g', owner) == Live(g, owner) + {e.id};
      } else {
        assert Live(g', owner) <= Live(g, owner);
        SubsetSize(Live(g', owner), Live(g, owner));
      }
    }
  }

  /** In every run an owner has at most as many live records as the cap. */
  lemma {:induction false} RunStaysWithin(g: Gate, es: seq<Event>, max: int, calls: nat)
    requires Within(g, max, calls) && Run(g, es, max, calls).Some?
    ensures Within(Run(g, es, max, calls).value, max, calls)
    decreases es
  {
    if es != [] {
      StepStaysWithin(g, es[0], max, calls);
      RunStaysWithin(Step(g, es[0], max, calls), es[1..], max, calls);
    }
  }

  lemma OpenIsWithin(max: int, calls: nat)
    ensures Within(OPEN, max, calls)
  {
    forall owner
      ensures |Live(OPEN, owner)| == 0
    {
      assert Live(OPEN, owner) == {};
    }
  }

  // ---------------------------------------------------------------- the bound is reached

  lemma {:induction false} RunsJoin(g: Gate, first: seq<Event>, second: seq<Event>, max: int, calls: nat)
    requires Run(g, first, max, calls).Some?
    ensures Run(g, first + second, max, calls) == Run(Run(g, first, max, calls).value, second, max, calls)
    decreases first
  {
    if first == [] {
      assert first + second == second;
    } else {
      assert (first + second)[1..] == first[1..] + second;
      RunsJoin(Step(g, first[0], max, calls), first[1..], second, max, calls);
    }
  }

  lemma RunCons(g: Gate, e: Event, rest: seq<Event>, max: int, calls: nat)
    requires Enabled(g, e, max, calls)
    ensures Run(g, [e] + rest, max, calls) == Run(Step(g, e, max, calls), rest, max, calls)
  {
    assert ([e] + rest)[1..] == rest;
  }

  /** Names of different lengths, so that each new record gets an id of its own. */
  function NameOf(n: nat): (name: string)
    ensures |name| == n
  {
    seq(n, _ => 'x')
  }

  function Filled(owner: string, n: nat): map<string, Entry> {
    if n == 0 then map[] else Filled(owner, n - 1)[NameOf(n - 1) := Entry(owner, true)]
  }

  lemma {:induction false} FilledHolds(owner: string, n: nat, id: string)
    ensures id in Filled(owner, n) ==> Filled(owner, n)[id] == Entry(owner, true) && |id| < n
  {
    if n > 0 {
      FilledHolds(owner, n - 1, id);
    }
  }

  lemma {:induction false} FilledCount(owner: string, n: nat, passed: multiset<string>)
    ensures |Live(Gate(Filled(owner, n), passed), owner)| == n
  {
    if n == 0 {
      assert Live(Gate(Filled(owner, n), passed), owner) == {};
    } else {
      FilledCount(owner, n - 1, passed);
      FilledHolds(owner, n - 1, NameOf(n - 1));
      assert Live(Gate(Filled(owner, n), passed), owner) == Live(Gate(Filled(owner, n - 1), passed), owner) + {NameOf(n - 1)};
    }
  }

  predicate Creating(es: seq<Event>) {
    forall i :: 0 <= i < |es| ==> es[i].Pass? || es[i].Insert?
  }

  function Waiting(owner: string, n: nat): multiset<string> {
    multiset{}[owner := n]
  }

  lemma PassOne(owner: string, n: nat, waiting: nat, max: int, calls: nat)
    requires n < max && waiting < calls
    ensures var g := Gate(Filled(owner, n), Waiting(owner, waiting));
            Enabled(g, Pass(owner), max, calls)
            && Step(g, Pass(owner), max, calls) == Gate(Filled(owner, n), Waiting(owner, waiting + 1))
  {
    FilledCount(owner, n, Waiting(owner, waiting));
    assert Waiting(owner, waiting) + multiset{owner} == Waiting(owner, waiting + 1);
  }

  lemma InsertOne(owner: string, n: nat, waiting: nat, max: int, calls: nat)
    requires waiting > 0
    ensures var g := Gate(Filled(owner, n), Waiting(owner, waiting));
            var e := Insert(owner, NameOf(n));
            Enabled(g, e, max, calls) && Step(g, e, max, calls) == Gate(Filled(owner, n + 1), Waiting(owner, waiting - 1))
  {
    FilledHolds(owner, n, NameOf(n));
    assert Waiting(owner, waiting) - multiset{owner} == Waiting(owner, waiting - 1);
  }

  lemma PassFirst(owner: string, n: nat, waiting: nat, rest: seq<Event>, max: int, calls: nat)
    requires n < max && waiting < calls
    ensures Run(Gate(Filled(owner, n), Waiting(owner, waiting)), [Pass(owner)] + rest, max, calls) ==
              Run(Gate(Filled(owner, n), Waiting(owner, waiting + 1)), rest, max, calls)
  {
    PassOne(owner, n, waiting, max, calls);
    RunCons(Gate(Filled(owner, n), Waiting(owner, waiting)), Pass(owner), rest, max, calls);
    hide *;
  }

  lemma InsertFirst(owner: string, n: nat, waiting: nat, rest: seq<Event>, max: int, calls: nat)
    requires waiting > 0
    ensures Run(Gate(Filled(owner, n), Waiting(owner, waiting)), [Insert(owner, NameOf(n))] + rest, max, calls) ==
              Run(Gate(Filled(owner, n + 1), Waiting(owner, waiting - 1)), rest, max, calls)
  {
    InsertOne(owner, n, waiting, max, calls);
    RunCons(Gate(Filled(owner, n), Waiting(owner, waiting)), Insert(owner, NameOf(n)), rest, max, calls);
    hide *;
  }

  /** One call after the other up to one below the maximum. */
  lemma {:induction false} FillUp(owner: string, n: nat, goal: nat, max: int, calls: nat) returns (es: seq<Event>)
    requires n <= goal < max && calls > 0
    ensures Creating(es)
    ensures Run(Gate(Filled(owner, n), Waiting(owner, 0)), es, max, calls) == Some(Gate(Filled(owner, goal), Waiting(owner, 0)))
    decreases goal - n
  {
    hide Filled, Waiting, NameOf, Enabled, Step;
    if n == goal {
      es := [];
    } else {
      var rest := FillUp(owner, n + 1, goal, max, calls);
      InsertFirst(owner, n, 1, rest, max, calls);
      PassFirst(owner, n, 0, [Insert(owner, NameOf(n))] + rest, max, calls);
      es := [Pass(owner)] + ([Insert(owner, NameOf(n))] + rest);
      hide Run;
    }
  }

  /** All calls pass the count before any of them inserts. */
  lemma {:induction false} PassAll(owner: string, n: nat, waiting: nat, max: int, calls: nat) returns (es: seq<Event>)
    requires n < max && waiting <= calls
    ensures Creating(es)
    ensures Run(Gate(Filled(owner, n), Waiting(owner, waiting)), es, max, calls) ==
              Some(Gate(Filled(owner, n), Waiting(owner, calls)))
    decreases calls - waiting
  {
    hide Filled, Waiting, Enabled, Step;
    if waiting == calls {
      es := [];
    } else {
      var rest := PassAll(owner, n, waiting + 1, max, calls);
      PassFirst(owner, n, waiting, rest, max, calls);
      es := [Pass(owner)] + rest;
      hide Run;
    }
  }

  lemma {:induction false} InsertAll(owner: string, n: nat, waiting: nat, max: int, calls: nat) returns (es: seq<Event>)
    ensures Creating(es)
    ensures Run(Gate(Filled(owner, n), Waiting(owner, waiting)), es, max, calls) ==
              Some(Gate(Filled(owner, n + waiting), Waiting(owner, 0)))
    decreases waiting
  {
    hide Filled, Waiting, NameOf, Enabled, Step;
    if waiting == 0 {
      es := [];
    } else {
      var rest := InsertAll(owner, n + 1, waiting - 1, max, calls);
      InsertFirst(owner, n, waiting, rest, max, calls);
      es := [Insert(owner, NameOf(n))] + rest;
      hide Run;
    }
  }

  lemma OpenIsUnfilled(owner: string)
    ensures OPEN == Gate(Filled(owner, 0), Waiting(owner, 0))
  {
  }

  /** For every positive maximum and every number of concurrent calls, some run reaches the cap. */
  lemma CapIsReached(owner: string, max: int, calls: nat) returns (es: seq<Event>)
    requires max > 0 && calls > 0
    ensures Creating(es) && Run(OPEN, es, max, calls).Some?
    ensures |Live(Run(OPEN, es, max, calls).value, owner)| == max + calls - 1
  {
    hide Run, Filled, Waiting, Live, Enabled, Step;
    OpenIsUnfilled(owner);
    var first := FillUp(owner, 0, max - 1, max, calls);
    var second := PassAll(owner, max - 1, 0, max, calls);
    var third := InsertAll(owner, max - 1, calls, max, calls);
    RunsJoin(OPEN, first, second, max, calls);
    RunsJoin(OPEN, first + second, third, max, calls);
    FilledCount(owner, max + calls - 1, Waiting(owner, 0));
    es := first + second + third;
  }
}
