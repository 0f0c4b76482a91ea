/** Integer totals over a sequence: the accounting identity behind every counter in the model. */
module Sums {

  /** The total of `f` over `xs`. */
  function Sum<T>(xs: seq<T>, f: T -> int): int {
    if xs == [] then 0 else Sum(xs[..|xs| - 1], f) + f(xs[|xs| - 1])
  }

  lemma SumAppend<T>(xs: seq<T>, x: T, f: T -> int)
    ensures Sum(xs + [x], f) == Sum(xs, f) + f(x)
  {
    assert (xs + [x])[..|xs|] == xs;
  }

  lemma {:induction false} SumPrepend<T>(x: T, xs: seq<T>, f: T -> int)
    ensures Sum([x] + xs, f) == f(x) + Sum(xs, f)
  {
    if xs == [] {
      assert [x] + xs == xs + [x];
    } else {
      var n := |xs| - 1;
      assert [x] + xs == ([x] + xs[..n]) + [xs[n]];
      SumAppend([x] + xs[..n], xs[n], f);
      SumPrepend(x, xs[..n], f);
    }
  }

  /** Changing one element changes the total by exactly that element's change. */
  lemma {:induction false} SumUpdate<T>(xs: seq<T>, i: nat, x: T, f: T -> int)
    requires i < |xs|
    ensures Sum(xs[i := x], f) == Sum(xs, f) - f(xs[i]) + f(x)
  {
    var n := |xs| - 1;
    if i == n {
      assert xs[i := x][..n] == xs[..n];
    } else {
      assert xs[i := x][..n] == xs[..n][i := x];
      SumUpdate(xs[..n], i, x, f);
    }
  }

  /** Pointwise order lifts to totals. */
  lemma {:induction false} SumMonotone<T>(xs: seq<T>, f: T -> int, g: T -> int)
    requires forall i :: 0 <= i < |xs| ==> f(xs[i]) <= g(xs[i])
    ensures Sum(xs, f) <= Sum(xs, g)
  {
    if xs != [] {
      SumMonotone(xs[..|xs| - 1], f, g);
    }
  }

  /** Pointwise sums lift to totals. */
  lemma {:induction false} SumAdd<T>(xs: seq<T>, f: T -> int, g: T -> int, h: T -> int)
    requires forall i :: 0 <= i < |xs| ==> f(xs[i]) == g(xs[i]) + h(xs[i])
    ensures Sum(xs, f) == Sum(xs, g) + Sum(xs, h)
  {
    if xs != [] {
      SumAdd(xs[..|xs| - 1], f, g, h);
    }
  }

  lemma {:induction false} SumZero<T>(xs: seq<T>, f: T -> int)
    requires forall i :: 0 <= i < |xs| ==> f(xs[i]) == 0
    ensures Sum(xs, f) == 0
  {
    if xs != [] {
      SumZero(xs[..|xs| - 1], f);
    }
  }

  /** The total without one element. */
  lemma {:induction false} SumMonotoneExcept<T>(xs: seq<T>, j: nat, f: T -> int, g: T -> int)
    requires j < |xs| && forall i :: 0 <= i < |xs| && i != j ==> f(xs[i]) <= g(xs[i])
    ensures Sum(xs, f) - f(xs[j]) <= Sum(xs, g) - g(xs[j])
  {
    var n := |xs| - 1;
    if j == n {
      SumMonotone(xs[..n], f, g);
    } else {
      SumMonotoneExcept(xs[..n], j, f, g);
    }
  }

  lemma {:induction false} SumConcat<T>(xs: seq<T>, ys: seq<T>, f: T -> int)
    ensures Sum(xs + ys, f) == Sum(xs, f) + Sum(ys, f)
  {
    if ys == [] {
      assert xs + ys == xs;
    } else {
      var n := |ys| - 1;
      assert (xs + ys)[..|xs| + n] == xs + ys[..n];
      SumConcat(xs, ys[..n], f);
    }
  }

  lemma SumRemove<T>(xs: seq<T>, j: nat, f: T -> int)
    requires j < |xs|
    ensures Sum(xs, f) == Sum(xs[..j] + xs[j + 1..], f) + f(xs[j])
  {
    hide Sum;
    assert xs == (xs[..j] + [xs[j]]) + xs[j + 1..];
    SumConcat(xs[..j] + [xs[j]], xs[j + 1..], f);
    SumAppend(xs[..j], xs[j], f);
    SumConcat(xs[..j], xs[j + 1..], f);
  }
}
