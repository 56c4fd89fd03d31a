/** Small shared datatypes and arithmetic helpers. */
module Wrappers {

  datatype Option<+T> = None | Some(value: T)

  function Max(a: int, b: int): int {
    if a < b then b else a
  }

  function Min(a: int, b: int): int {
    if a < b then a else b
  }

  function Abs(a: int): int {
    if a < 0 then -a else a
  }

  function MaxReal(a: real, b: real): real {
    if a < b then b else a
  }

  function MinReal(a: real, b: real): real {
    if a < b then a else b
  }

  function AbsReal(a: real): real {
    if a < 0.0 then -a else a
  }

  function Sum(xs: seq<int>): int {
    if xs == [] then 0 else xs[0] + Sum(xs[1..])
  }

  lemma {:induction false} SumAppend(xs: seq<int>, ys: seq<int>)
    ensures Sum(xs + ys) == Sum(xs) + Sum(ys)
  {
    if xs == [] {
      assert xs + ys == ys;
    } else {
      assert (xs + ys)[1..] == xs[1..] + ys;
      SumAppend(xs[1..], ys);
    }
  }

  lemma {:induction false} SumPositive(xs: seq<int>)
    requires forall i :: 0 <= i < |xs| ==> xs[i] > 0
    ensures Sum(xs) >= |xs|
  {
    if xs != [] {
      SumPositive(xs[1..]);
    }
  }

  /** Prefix sums of positive numbers stay below the total, strictly for a proper prefix. */
  lemma PrefixSums(xs: seq<int>, k: nat)
    requires k <= |xs| && forall i :: 0 <= i < |xs| ==> xs[i] > 0
    ensures 0 <= Sum(xs[..k]) <= Sum(xs)
    ensures k < |xs| ==> Sum(xs[..k]) < Sum(xs)
  {
    assert xs == xs[..k] + xs[k..];
    SumAppend(xs[..k], xs[k..]);
    SumPositive(xs[..k]);
    SumPositive(xs[k..]);
  }
}
