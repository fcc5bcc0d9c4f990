/** Quotients and remainders of natural numbers, and how many numbers below a bound share a remainder. */
module Division {
  lemma MulOrder(a: int, b: int, n: nat)
    ensures a <= b ==> a * n <= b * n
  {
    if a <= b {
      assert (b - a) * n >= 0;
      assert (b - a) * n == b * n - a * n;
    }
  }

  lemma DivModUnique(q: int, r: nat, n: nat)
    requires r < n
    ensures (q * n + r) / n == q && (q * n + r) % n == r
  {
    var a := q * n + r;
    assert a == (a / n) * n + a % n;
    MulOrder(a / n + 1, q, n);
    assert (a / n + 1) * n == (a / n) * n + n;
    MulOrder(q + 1, a / n, n);
    assert (q + 1) * n == q * n + n;
  }

  lemma OneRoundMore(k: nat, n: nat)
    requires n > 0
    ensures (k + n) / n == k / n + 1 && (k + n) % n == k % n
  {
    assert k == (k / n) * n + k % n;
    assert (k / n + 1) * n == (k / n) * n + n;
    DivModUnique(k / n + 1, k % n, n);
  }

  lemma FirstRound(k: nat, n: nat)
    requires k < n
    ensures k / n == 0 && k % n == k
  {
    DivModUnique(0, k, n);
  }

  /** Counting up by one moves to the next remainder, or to the next quotient. */
  lemma NextDivMod(k: nat, n: nat)
    requires n > 0
    ensures if k % n == n - 1 then (k + 1) / n == k / n + 1 && (k + 1) % n == 0
            else (k + 1) / n == k / n && (k + 1) % n == k % n + 1
  {
    assert k == (k / n) * n + k % n;
    if k % n == n - 1 {
      assert (k / n + 1) * n == (k / n) * n + n;
      DivModUnique(k / n + 1, 0, n);
    } else {
      DivModUnique(k / n, k % n + 1, n);
    }
  }

  /** How many of the first `total` numbers leave the remainder `r`. */
  function WithRemainder(total: nat, n: nat, r: nat): nat
    requires n > 0
  {
    if total == 0 then 0
    else WithRemainder(total - 1, n, r) + if (total - 1) % n == r then 1 else 0
  }

  /** Each remainder comes up equally often, the first total % n of them once more. */
  lemma {:induction false} RemaindersAreBalanced(total: nat, n: nat, r: nat)
    requires r < n
    ensures WithRemainder(total, n, r) == total / n + if r < total % n then 1 else 0
  {
    if total == 0 {
      DivModUnique(0, 0, n);
    } else {
      RemaindersAreBalanced(total - 1, n, r);
      NextDivMod(total - 1, n);
    }
  }
}
