/**
 The arithmetic of heap heights.
 */
module HeapCost {
  import opened Arithmetic

  /** floor(log2 n), and 0 for n = 0. */
  function Log2(n: nat): nat {
    if n <= 1 then 0 else 1 + Log2(n / 2)
  }

  lemma {:induction false} Log2Bound(n: nat)
    requires n >= 1
    ensures Pow2(Log2(n)) <= n < 2 * Pow2(Log2(n))
  {
    if n > 1 {
      Log2Bound(n / 2);
    }
  }

  lemma {:induction false} Log2Monotone(k: nat, n: nat)
    requires k <= n
    ensures Log2(k) <= Log2(n)
    decreases n
  {
    if k > 1 {
      Log2Monotone(k / 2, n / 2);
    }
  }

  /** Levels below the node numbered m, counting nodes from 1, in a heap of n. */
  function Height(m: nat, n: nat): nat
    decreases n
  {
    if 0 < m <= n / 2 then 1 + Height(m, n / 2) else 0
  }

  /** The heights of nodes 1 to k together. */
  function Heights(k: nat, n: nat): nat {
    if k == 0 then 0 else Heights(k - 1, n) + Height(k, n)
  }

  lemma {:induction false} HeightDouble(m: nat, n: nat)
    ensures Height(2 * m, n) == Height(m, n / 2)
    decreases n
  {
    if 0 < m <= n / 2 / 2 {
      HeightDouble(m, n / 2);
    }
  }

  lemma {:induction false} HeightMonotone(m: nat, n: nat)
    requires m > 0
    ensures Height(m + 1, n) <= Height(m, n)
    decreases n
  {
    if m + 1 <= n / 2 {
      HeightMonotone(m, n / 2);
    }
  }

  /** Either child of a node that has children is at least a level lower. */
  lemma HeightDown(m: nat, n: nat)
    requires 0 < m <= n / 2
    ensures Height(2 * m, n) + 1 == Height(m, n) && Height(2 * m + 1, n) + 1 <= Height(m, n)
  {
    HeightDouble(m, n);
    HeightMonotone(2 * m, n);
  }

  /** Two calls a level pay for the descent to either child. */
  lemma CostDown(i: nat, n: nat)
    ensures var cost := if 2 * i + 1 < n then 2 else 0;
            && cost <= 2 * Height(i + 1, n)
            && (2 * i + 1 < n ==> cost + 2 * Height(2 * i + 2, n) <= 2 * Height(i + 1, n))
            && (2 * i + 1 < n ==> cost + 2 * Height(2 * i + 3, n) <= 2 * Height(i + 1, n))
  {
    if 2 * i + 1 < n {
      HeightDown(i + 1, n);
    }
  }

  lemma {:induction false} HeightsHalf(k: nat, n: nat)
    requires k <= n / 2
    ensures Heights(k, n) == k + Heights(k, n / 2)
  {
    if k > 0 {
      HeightsHalf(k - 1, n);
    }
  }

  lemma {:induction false} HeightsAbove(k: nat, n: nat)
    requires n / 2 <= k
    ensures Heights(k, n) == Heights(n / 2, n)
  {
    if k > n / 2 {
      HeightsAbove(k - 1, n);
    }
  }

  /** All heights together stay below the number of nodes. */
  lemma {:induction false} HeightsBound(n: nat)
    ensures n >= 1 ==> Heights(n / 2, n) <= n - 1
    ensures n == 0 ==> Heights(n / 2, n) == 0
  {
    if n >= 2 {
      HeightsHalf(n / 2, n);
      HeightsAbove(n / 2, n / 2);
      HeightsBound(n / 2);
    }
  }

  lemma {:induction false} HeightOfRoot(n: nat)
    ensures Height(1, n) == Log2(n)
  {
    if n > 1 {
      HeightOfRoot(n / 2);
    }
  }
}
