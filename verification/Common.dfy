/** What the other modules share. */
module Common {
  datatype Option<+T> = None | Some(value: T)

  datatype Result<+T, +E> = Ok(value: T) | Err(error: E)

  /** Bytes on a wire or in a payload. */
  newtype byte = b: int | 0 <= b < 256

  function Bit(b: bool): nat {
    if b then 1 else 0
  }

  lemma {:induction false} SubsetSize<T>(a: set<T>, b: set<T>)
    requires a <= b
    ensures |a| <= |b|
  {
    if a != {} {
      var x :| x in a;
      SubsetSize(a - {x}, b - {x});
    }
  }

  /** The elements that are kept, in order. */
  function Filter<T>(xs: seq<T>, keep: T -> bool): seq<T> {
    if xs == [] then []
    else Filter(xs[..|xs| - 1], keep) + if keep(xs[|xs| - 1]) then [xs[|xs| - 1]] else []
  }

  lemma {:induction false} FilterHas<T>(xs: seq<T>, keep: T -> bool)
    ensures forall x :: x in Filter(xs, keep) <==> x in xs && keep(x)
  {
    if xs != [] {
      FilterHas(xs[..|xs| - 1], keep);
      assert xs == xs[..|xs| - 1] + [xs[|xs| - 1]];
    }
  }

  /** Strictly increasing places below a bound. */
  predicate Places(at: seq<int>, bound: nat) {
    && (forall k :: 0 <= k < |at| ==> 0 <= at[k] < bound)
    && (forall j, k :: 0 <= j < k < |at| ==> at[j] < at[k])
  }

  /** `ys` are the elements of `xs` at the given places, which are exactly those whose elements are kept. */
  ghost predicate Picks<T>(xs: seq<T>, ys: seq<T>, keep: T -> bool, at: seq<int>) {
    && |at| == |ys| && Places(at, |xs|)
    && (forall k :: 0 <= k < |at| ==> ys[k] == xs[at[k]])
    && (forall k :: 0 <= k < |at| ==> keep(ys[k]))
    && (forall i :: 0 <= i < |xs| && keep(xs[i]) ==> i in at)
  }

  lemma {:induction false} FilterPicks<T>(xs: seq<T>, keep: T -> bool) returns (at: seq<int>)
    ensures Picks(xs, Filter(xs, keep), keep, at)
  {
    if xs == [] {
      at := [];
    } else {
      var front, last := xs[..|xs| - 1], xs[|xs| - 1];
      at := FilterPicks(front, keep);
      PickNext(front, Filter(front, keep), keep, last, at);
      assert xs == front + [last];
      if keep(last) {
        at := at + [|front|];
      } else {
        assert Filter(xs, keep) == Filter(front, keep);
      }
    }
  }

  lemma PickNext<T>(xs: seq<T>, ys: seq<T>, keep: T -> bool, x: T, at: seq<int>)
    requires Picks(xs, ys, keep, at)
    ensures keep(x) ==> Picks(xs + [x], ys + [x], keep, at + [|xs|])
    ensures !keep(x) ==> Picks(xs + [x], ys, keep, at)
  {
    if keep(x) {
      var at' := at + [|xs|];
      forall i | 0 <= i < |xs + [x]| && keep((xs + [x])[i])
        ensures i in at'
      {
        if i < |xs| {
          assert keep(xs[i]);
        } else {
          assert at'[|at|] == i;
        }
      }
    }
  }

  lemma {:induction false} FilterJoins<T>(xs: seq<T>, ys: seq<T>, keep: T -> bool)
    ensures Filter(xs + ys, keep) == Filter(xs, keep) + Filter(ys, keep)
  {
    if ys == [] {
      assert xs + ys == xs;
    } else {
      var front := ys[..|ys| - 1];
      FilterJoins(xs, front, keep);
      assert (xs + ys)[..|xs + ys| - 1] == xs + front;
    }
  }
}
