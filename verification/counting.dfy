/** How many elements of a sequence meet a test, and that the order of the elements does not matter; and counting up. */
module Counting {
  function Count<T>(xs: seq<T>, p: T -> bool): nat {
    if xs == [] then 0
    else Count(xs[..|xs| - 1], p) + if p(xs[|xs| - 1]) then 1 else 0
  }

  lemma CountOneMore<T>(xs: seq<T>, x: T, p: T -> bool)
    ensures Count(xs + [x], p) == Count(xs, p) + if p(x) then 1 else 0
  {
    assert (xs + [x])[..|xs|] == xs;
  }

  lemma {:induction false} CountConcat<T>(xs: seq<T>, ys: seq<T>, p: T -> bool)
    ensures Count(xs + ys, p) == Count(xs, p) + Count(ys, p)
  {
    if ys == [] {
      assert xs + ys == xs;
    } else {
      var last := |ys| - 1;
      CountConcat(xs, ys[..last], p);
      CountOneMore(xs + ys[..last], ys[last], p);
      assert (xs + ys[..last]) + [ys[last]] == xs + ys;
    }
  }

  lemma {:induction false} CountNone<T>(xs: seq<T>, p: T -> bool)
    requires forall x :: x in xs ==> !p(x)
    ensures Count(xs, p) == 0
  {
    if xs != [] { CountNone(xs[..|xs| - 1], p); }
  }

  lemma {:induction false} CountAll<T>(xs: seq<T>, p: T -> bool)
    requires forall x :: x in xs ==> p(x)
    ensures Count(xs, p) == |xs|
  {
    if xs != [] { CountAll(xs[..|xs| - 1], p); }
  }

  /** A permutation changes no count. */
  lemma {:induction false} CountPermuted<T>(xs: seq<T>, ys: seq<T>, p: T -> bool)
    requires multiset(xs) == multiset(ys)
    ensures Count(xs, p) == Count(ys, p)
    decreases |xs|
  {
    if xs == [] {
      assert |multiset(ys)| == 0;
    } else {
      var last := |xs| - 1;
      var x := xs[last];
      assert xs == xs[..last] + [x];
      assert x in multiset(ys);
      var k :| 0 <= k < |ys| && ys[k] == x;
      var rest := ys[..k] + ys[k + 1..];
      TakeOut(ys, k);
      assert multiset(xs[..last]) == multiset(rest);
      CountPermuted(xs[..last], rest, p);
      CountTakeOut(ys, k, p);
    }
  }

  lemma TakeOut<T>(ys: seq<T>, k: nat)
    requires k < |ys|
    ensures multiset(ys[..k] + ys[k + 1..]) == multiset(ys) - multiset{ys[k]}
  {
    assert ys == ys[..k] + [ys[k]] + ys[k + 1..];
  }

  lemma CountMiddle<T>(front: seq<T>, x: T, back: seq<T>, p: T -> bool)
    ensures Count((front + [x]) + back, p) == Count(front + back, p) + if p(x) then 1 else 0
  {
    CountConcat(front + [x], back, p);
    CountOneMore(front, x, p);
    CountConcat(front, back, p);
  }

  lemma PartedAt<T>(ys: seq<T>, k: nat)
    requires k < |ys|
    ensures ys == (ys[..k] + [ys[k]]) + ys[k + 1..]
  {
  }

  lemma CountTakeOut<T>(ys: seq<T>, k: nat, p: T -> bool)
    requires k < |ys|
    ensures Count(ys, p) == Count(ys[..k] + ys[k + 1..], p) + if p(ys[k]) then 1 else 0
  {
    PartedAt(ys, k);
    CountMiddle(ys[..k], ys[k], ys[k + 1..], p);
  }

  /** What holds at first and from each step to the next holds after all of them. */
  lemma {:induction false} StepByStep(p: nat -> bool, n: nat)
    requires p(0) && forall k: nat :: k < n && p(k) ==> p(k + 1)
    ensures p(n)
  {
    if n > 0 { StepByStep(p, n - 1); }
  }
}
