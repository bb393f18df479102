/** How often a value occurs in a sequence: the bookkeeping of the conservation
    and ownership proofs. */
module Counting {

  lemma Reassociate<T>(a: seq<T>, b: seq<T>, c: seq<T>)
    ensures a + (b + c) == a + b + c
  {
  }

  function Count<T(==)>(xs: seq<T>, x: T): nat {
    if xs == [] then 0
    else Count(xs[..|xs| - 1], x) + if xs[|xs| - 1] == x then 1 else 0
  }

  lemma CountAppend<T>(xs: seq<T>, y: T, x: T)
    ensures Count(xs + [y], x) == Count(xs, x) + if x == y then 1 else 0
  {
    assert (xs + [y])[..|xs|] == xs;
  }

  lemma {:induction false} CountConcat<T>(xs: seq<T>, ys: seq<T>, x: T)
    ensures Count(xs + ys, x) == Count(xs, x) + Count(ys, x)
  {
    if ys == [] {
      assert xs + ys == xs;
    } else {
      var zs := ys[..|ys| - 1];
      CountConcat(xs, zs, x);
      assert xs + ys == (xs + zs) + [ys[|ys| - 1]];
      CountAppend(xs + zs, ys[|ys| - 1], x);
    }
  }

  lemma CountTakeAt<T>(xs: seq<T>, k: nat, x: T)
    requires k < |xs|
    ensures Count(xs, x) == Count(xs[..k] + xs[k + 1..], x) + if xs[k] == x then 1 else 0
  {
    var front, back := xs[..k], xs[k + 1..];
    CountConcat(front, back, x);
    assert xs[..k + 1][..k] == front;
    CountConcat(xs[..k + 1], back, x);
    assert xs[..k + 1] + back == xs;
  }

  lemma CountTail<T>(xs: seq<T>, x: T)
    requires xs != []
    ensures Count(xs, x) == Count(xs[1..], x) + if xs[0] == x then 1 else 0
  {
    CountTakeAt(xs, 0, x);
    assert xs[..0] + xs[1..] == xs[1..];
  }

  lemma CountTwice<T>(xs: seq<T>, i: nat, j: nat)
    requires i < j < |xs| && xs[i] == xs[j]
    ensures Count(xs, xs[i]) >= 2
  {
    CountTakeAt(xs, j, xs[i]);
    CountTakeAt(xs[..j] + xs[j + 1..], i, xs[i]);
  }

  lemma {:induction false} CountZero<T>(xs: seq<T>, x: T)
    ensures Count(xs, x) == 0 <==> x !in xs
  {
    if xs != [] {
      CountZero(xs[..|xs| - 1], x);
      assert xs == xs[..|xs| - 1] + [xs[|xs| - 1]];
    }
  }
}
