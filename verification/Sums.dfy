/** Weighted sums over sequences: how much all the members of a collection hold together. */
module Sums {

  function Sum<T>(xs: seq<T>, w: T -> nat): nat {
    if xs == [] then 0 else w(xs[0]) + Sum(xs[1..], w)
  }

  lemma {:induction false} SumUpdate<T>(xs: seq<T>, w: T -> nat, i: nat, v: T)
    requires i < |xs|
    ensures Sum(xs[i := v], w) + w(xs[i]) == Sum(xs, w) + w(v)
  {
    if i == 0 {
      assert xs[0 := v][1..] == xs[1..];
    } else {
      assert xs[i := v][1..] == xs[1..][i - 1 := v];
      SumUpdate(xs[1..], w, i - 1, v);
    }
  }

  lemma {:induction false} SumAppend<T>(xs: seq<T>, w: T -> nat, v: T)
    ensures Sum(xs + [v], w) == Sum(xs, w) + w(v)
  {
    if xs == [] {
      assert xs + [v] == [v];
    } else {
      assert (xs + [v])[1..] == xs[1..] + [v];
      SumAppend(xs[1..], w, v);
    }
  }

  lemma {:induction false} SumAt<T>(xs: seq<T>, w: T -> nat, i: nat)
    requires i < |xs|
    ensures w(xs[i]) <= Sum(xs, w)
  {
    if i > 0 {
      SumAt(xs[1..], w, i - 1);
    }
  }

  lemma {:induction false} SumAtTwo<T>(xs: seq<T>, w: T -> nat, i: nat, j: nat)
    requires i < j < |xs|
    ensures w(xs[i]) + w(xs[j]) <= Sum(xs, w)
  {
    if i > 0 {
      SumAtTwo(xs[1..], w, i - 1, j - 1);
    } else {
      SumAt(xs[1..], w, j - 1);
    }
  }

  lemma {:induction false} SumZero<T>(xs: seq<T>, w: T -> nat)
    requires forall i :: 0 <= i < |xs| ==> w(xs[i]) == 0
    ensures Sum(xs, w) == 0
  {
    if xs != [] {
      SumZero(xs[1..], w);
    }
  }

  lemma {:induction false} SumSame<T>(xs: seq<T>, ys: seq<T>, w: T -> nat)
    requires |xs| == |ys| && forall i :: 0 <= i < |xs| ==> w(xs[i]) == w(ys[i])
    ensures Sum(xs, w) == Sum(ys, w)
  {
    if xs != [] {
      SumSame(xs[1..], ys[1..], w);
    }
  }
}
