/** Exact sums of a two-argument quantity over two sequences, and the fact
    that the order of summation does not matter. */
module Sums {

  /** The sum of `f(x, y)` over the `y` in `ys`, for a fixed `x`. */
  function SumY<A, B>(x: A, ys: seq<B>, f: (A, B) -> real): real {
    if ys == [] then 0.0 else SumY(x, ys[..|ys| - 1], f) + f(x, ys[|ys| - 1])
  }

  /** The sum of `f(x, y)` over the `x` in `xs`, for a fixed `y`. */
  function SumX<A, B>(xs: seq<A>, y: B, f: (A, B) -> real): real {
    if xs == [] then 0.0 else SumX(xs[..|xs| - 1], y, f) + f(xs[|xs| - 1], y)
  }

  /** Row by row: the sum over `xs` of the row sums. */
  function SumRows<A, B>(xs: seq<A>, ys: seq<B>, f: (A, B) -> real): real {
    if xs == [] then 0.0 else SumRows(xs[..|xs| - 1], ys, f) + SumY(xs[|xs| - 1], ys, f)
  }

  /** Column by column: the sum over `ys` of the column sums. */
  function SumCols<A, B>(xs: seq<A>, ys: seq<B>, f: (A, B) -> real): real {
    if ys == [] then 0.0 else SumCols(xs, ys[..|ys| - 1], f) + SumX(xs, ys[|ys| - 1], f)
  }

  lemma {:induction false} SumColsSnoc<A, B>(xs: seq<A>, x: A, ys: seq<B>, f: (A, B) -> real)
    ensures SumCols(xs + [x], ys, f) == SumCols(xs, ys, f) + SumY(x, ys, f)
  {
    if ys != [] {
      var ys' := ys[..|ys| - 1];
      SumColsSnoc(xs, x, ys', f);
      assert (xs + [x])[..|xs + [x]| - 1] == xs;
    }
  }

  /** Summing a table row by row or column by column gives the same total. */
  lemma {:induction false} SwapSums<A, B>(xs: seq<A>, ys: seq<B>, f: (A, B) -> real)
    ensures SumRows(xs, ys, f) == SumCols(xs, ys, f)
  {
    if xs == [] {
      assert SumCols(xs, ys, f) == 0.0 by { ColsOfNothing(ys, f); }
    } else {
      var xs' := xs[..|xs| - 1];
      SwapSums(xs', ys, f);
      SumColsSnoc(xs', xs[|xs| - 1], ys, f);
      assert xs' + [xs[|xs| - 1]] == xs;
    }
  }

  lemma {:induction false} ColsOfNothing<A, B>(ys: seq<B>, f: (A, B) -> real)
    ensures SumCols([], ys, f) == 0.0
  {
    if ys != [] {
      ColsOfNothing(ys[..|ys| - 1], f);
    }
  }

  /** A column in which only row `i` can be non-zero sums to that entry. */
  lemma {:induction false} SumXSingle<A, B>(xs: seq<A>, y: B, f: (A, B) -> real, i: nat)
    requires i < |xs|
    requires forall j :: 0 <= j < |xs| && j != i ==> f(xs[j], y) == 0.0
    ensures SumX(xs, y, f) == f(xs[i], y)
  {
    var xs' := xs[..|xs| - 1];
    if i == |xs| - 1 {
      SumXZero(xs', y, f);
    } else {
      SumXSingle(xs', y, f, i);
    }
  }

  lemma {:induction false} SumXZero<A, B>(xs: seq<A>, y: B, f: (A, B) -> real)
    requires forall j :: 0 <= j < |xs| ==> f(xs[j], y) == 0.0
    ensures SumX(xs, y, f) == 0.0
  {
    if xs != [] {
      SumXZero(xs[..|xs| - 1], y, f);
    }
  }

  /** A row in which only column `i` can be non-zero sums to that entry. */
  lemma {:induction false} SumYSingle<A, B>(x: A, ys: seq<B>, f: (A, B) -> real, i: nat)
    requires i < |ys|
    requires forall j :: 0 <= j < |ys| && j != i ==> f(x, ys[j]) == 0.0
    ensures SumY(x, ys, f) == f(x, ys[i])
  {
    var ys' := ys[..|ys| - 1];
    if i == |ys| - 1 {
      SumYZero(x, ys', f);
    } else {
      SumYSingle(x, ys', f, i);
    }
  }

  lemma {:induction false} SumYZero<A, B>(x: A, ys: seq<B>, f: (A, B) -> real)
    requires forall j :: 0 <= j < |ys| ==> f(x, ys[j]) == 0.0
    ensures SumY(x, ys, f) == 0.0
  {
    if ys != [] {
      SumYZero(x, ys[..|ys| - 1], f);
    }
  }
}
