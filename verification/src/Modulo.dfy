/** Facts about quotients and remainders that the wrapping counters and clocks rest on. */
module Modulo {

  lemma MulDistributes(x: int, y: int, n: int)
    ensures (x - y) * n == x * n - y * n
  {
  }

  lemma MulAtLeast(k: int, n: nat)
    requires 1 <= k
    ensures n <= k * n
  {
    MulDistributes(k, 1, n);
    MulNonNegative(k - 1, n);
  }

  lemma MulNonNegative(k: int, n: nat)
    requires 0 <= k
    ensures 0 <= k * n
  {
  }

  /** A decomposition with a small remainder is the division. */
  lemma DivModUnique(a: int, q: int, r: nat, n: nat)
    requires r < n && a == q * n + r
    ensures a / n == q && a % n == r
  {
    var q', r' := a / n, a % n;
    assert a == q' * n + r' by { DivModDecompose(a, n); }
    MulDistributes(q, q', n);
    MulDistributes(q', q, n);
    if q > q' {
      MulAtLeast(q - q', n);
    } else if q < q' {
      MulAtLeast(q' - q, n);
    }
  }

  lemma DivModDecompose(a: int, n: nat)
    requires 0 < n
    ensures a == (a / n) * n + a % n
    ensures 0 <= a % n < n
  {
    var q := a / n;
    assert q * n == n * q;
  }

  /** Adding d < n to a number moves its remainder up by d, or up by d and down by n. */
  lemma ModStep(a: int, d: nat, n: nat)
    requires d < n
    ensures (a + d) % n == if a % n + d < n then a % n + d else a % n + d - n
  {
    DivModDecompose(a, n);
    var q, r := a / n, a % n;
    if r + d < n {
      DivModUnique(a + d, q, r + d, n);
    } else {
      assert (q + 1) * n == q * n + n;
      DivModUnique(a + d, q + 1, r + d - n, n);
    }
  }

  lemma ModSmall(a: nat, n: nat)
    requires a < n
    ensures a % n == a && a / n == 0
  {
    DivModUnique(a, 0, a, n);
  }
}
