/** Quotients and remainders by a divisor that is not a constant. */
module Arithmetic {
  /** Counting one more raises the quotient exactly at a multiple. */
  lemma FloorStep(k: nat, n: nat)
    requires n > 0
    ensures (k + 1) / n == k / n + (if (k + 1) % n == 0 then 1 else 0)
  {
    var q, r := k / n, k % n;
    assert k + 1 == n * q + (r + 1);
    if r + 1 == n {
      assert k + 1 == n * (q + 1);
      QuotientIs(k + 1, n, q + 1, 0);
    } else {
      QuotientIs(k + 1, n, q, r + 1);
    }
  }

  lemma {:induction false} MulGap(n: nat, a: int, b: int)
    requires a < b
    ensures n * a + n <= n * b
    decreases b - a
  {
    assert n * b == n * (b - 1) + n;
    if a < b - 1 {
      MulGap(n, a, b - 1);
    }
  }

  lemma QuotientIs(k: nat, n: nat, q: nat, r: nat)
    requires n > 0 && k == n * q + r && r < n
    ensures k / n == q && k % n == r
  {
    if q < k / n {
      MulGap(n, q, k / n);
    } else if k / n < q {
      MulGap(n, k / n, q);
    }
  }

  /** Two numbers less than `n` apart with the same remainder are equal. */
  lemma SameRemainder(n: nat, a: nat, b: nat)
    requires n > 0 && a <= b < a + n && a % n == b % n
    ensures a == b
  {
    if a / n < b / n {
      MulGap(n, a / n, b / n);
    } else if b / n < a / n {
      MulGap(n, b / n, a / n);
    }
  }

  lemma NextRemainder(n: nat, k: nat)
    requires n > 0
    ensures (k + 1) % n == if k % n + 1 == n then 0 else k % n + 1
  {
    if k % n + 1 == n {
      assert n * (k / n + 1) == n * (k / n) + n;
      QuotientIs(k + 1, n, k / n + 1, 0);
    } else {
      QuotientIs(k + 1, n, k / n, k % n + 1);
    }
  }

  /** In a ring of `n` slots the next write index meets the read index exactly when `n - 1` are in use. */
  lemma RingFull(n: nat, t: nat, h: nat)
    requires n >= 2 && t <= h < t + n
    ensures (h + 1) % n == t % n <==> h + 1 == t + n
  {
    if h + 1 < t + n {
      if (h + 1) % n == t % n {
        SameRemainder(n, t, h + 1);
      }
    } else {
      assert n * (t / n + 1) == n * (t / n) + n;
      QuotientIs(h + 1, n, t / n + 1, t % n);
    }
  }
}
