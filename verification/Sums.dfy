// Sums of lists of numbers, and how often an element occurs in a list.
module Sums {
  function Sum(xs: seq<int>): int {
    if xs == [] then 0 else Sum(xs[..|xs| - 1]) + xs[|xs| - 1]
  }

  lemma {:induction false} SumAppend(xs: seq<int>, ys: seq<int>)
    ensures Sum(xs + ys) == Sum(xs) + Sum(ys)
  {
    if ys == [] {
      assert xs + ys == xs;
    } else {
      SumAppend(xs, ys[..|ys| - 1]);
      assert (xs + ys)[..|xs + ys| - 1] == xs + ys[..|ys| - 1];
    }
  }

  lemma {:induction false} SumUpdate(xs: seq<int>, i: nat, x: int)
    requires i < |xs|
    ensures Sum(xs[i := x]) == Sum(xs) - xs[i] + x
  {
    var ys := xs[i := x];
    if i == |xs| - 1 {
      assert ys[..|ys| - 1] == xs[..|xs| - 1];
    } else {
      SumUpdate(xs[..|xs| - 1], i, x);
      assert ys[..|ys| - 1] == xs[..|xs| - 1][i := x];
    }
  }

  lemma CountOne<T>(xs: seq<T>, x: T, m: T)
    ensures multiset(xs + [x])[m] == multiset(xs)[m] + if m == x then 1 else 0
  {
  }

  lemma CountStep<T>(xs: seq<T>, m: T)
    requires xs != []
    ensures multiset(xs)[m] == multiset(xs[..|xs| - 1])[m] + if m == xs[|xs| - 1] then 1 else 0
  {
    assert xs == xs[..|xs| - 1] + [xs[|xs| - 1]];
  }
}
