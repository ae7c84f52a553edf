/** Finite sums over the id range [0, n), used to state the ledger invariants. */
module Sums {

  /** Euclidean division by a positive divisor is floor division. */
  lemma FloorBounds(n: int, d: int)
    requires d > 0
    ensures d * (n / d) <= n < d * (n / d) + d
  {
    assert n == d * (n / d) + n % d;
  }

  /** The sum f(0) + ... + f(n - 1). */
  function Sum(f: nat -> int, n: nat): int
  {
    if n == 0 then 0 else Sum(f, n - 1) + f(n - 1)
  }

  /** Two functions that agree below n have the same sum up to n. */
  lemma {:induction false} SumAgree(f: nat -> int, g: nat -> int, n: nat)
    requires forall j: nat :: j < n ==> f(j) == g(j)
    ensures Sum(f, n) == Sum(g, n)
  {
    if n > 0 {
      SumAgree(f, g, n - 1);
    }
  }

  /** Changing one term below n changes the sum by exactly that term's difference. */
  lemma {:induction false} SumPointUpdate(f: nat -> int, g: nat -> int, n: nat, k: nat)
    requires k < n
    requires forall j: nat :: j < n && j != k ==> f(j) == g(j)
    ensures Sum(g, n) == Sum(f, n) - f(k) + g(k)
  {
    if k == n - 1 {
      SumAgree(f, g, n - 1);
    } else {
      SumPointUpdate(f, g, n - 1, k);
    }
  }

  /** Terms that vanish from n up to m add nothing to the sum. */
  lemma {:induction false} SumExtend(f: nat -> int, n: nat, m: nat)
    requires n <= m
    requires forall j: nat :: n <= j < m ==> f(j) == 0
    ensures Sum(f, m) == Sum(f, n)
  {
    if m > n {
      SumExtend(f, n, m - 1);
    }
  }

  /** A sum of zero terms is zero. */
  lemma {:induction false} SumZero(f: nat -> int, n: nat)
    requires forall j: nat :: j < n ==> f(j) == 0
    ensures Sum(f, n) == 0
  {
    if n > 0 {
      SumZero(f, n - 1);
    }
  }
}
