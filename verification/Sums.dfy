/** Sums over sequences, as the reduce calls of the services compute them. */
module Sums {

  function Sum(xs: seq<int>): int {
    if xs == [] then 0 else Sum(xs[..|xs| - 1]) + xs[|xs| - 1]
  }

  lemma SumAppend(xs: seq<int>, x: int)
    ensures Sum(xs + [x]) == Sum(xs) + x
  {
  }

  lemma {:induction false} SumConcat(xs: seq<int>, ys: seq<int>)
    ensures Sum(xs + ys) == Sum(xs) + Sum(ys)
  {
    if ys == [] {
      assert xs + ys == xs;
    } else {
      assert (xs + ys)[..|xs + ys| - 1] == xs + ys[..|ys| - 1];
      SumConcat(xs, ys[..|ys| - 1]);
    }
  }

  lemma {:induction false} SumConstant(xs: seq<int>, c: int)
    requires forall i :: 0 <= i < |xs| ==> xs[i] == c
    ensures Sum(xs) == |xs| * c
  {
    if xs != [] {
      SumConstant(xs[..|xs| - 1], c);
      assert (|xs| - 1) * c + c == |xs| * c;
    }
  }

  lemma {:induction false} SumAtLeast(xs: seq<int>)
    requires forall i :: 0 <= i < |xs| ==> 1 <= xs[i]
    ensures |xs| <= Sum(xs)
  {
    if xs != [] {
      SumAtLeast(xs[..|xs| - 1]);
    }
  }
}
