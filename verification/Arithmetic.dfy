/** Products, quotients and remainders of natural numbers. */
module Arithmetic {
  function Max(a: int, b: int): int { if a < b then b else a }

  function Min(a: int, b: int): int { if a < b then a else b }

  lemma MulMono(a: nat, b: nat, k: nat)
    ensures a <= b ==> a * k <= b * k
  {
  }

  lemma DivMod(i: nat, k: nat, j: nat)
    requires j < k
    ensures (i * k + j) / k == i && (i * k + j) % k == j
  {
    var x := i * k + j;
    var q, r := x / k, x % k;
    assert x == q * k + r;
    MulMono(i + 1, q, k);
    MulMono(q + 1, i, k);
    assert (i + 1) * k == i * k + k;
    assert (q + 1) * k == q * k + k;
  }

  lemma DropMultiple(x: nat, q: nat, m: nat)
    requires m > 0
    ensures (x + q * m) % m == x % m
  {
    var p := x / m;
    assert x == p * m + x % m;
    assert x + q * m == (p + q) * m + x % m;
    DivMod(p + q, m, x % m);
  }

  lemma AddReduced(a: nat, b: nat, m: nat)
    requires m > 0
    ensures (a % m + b) % m == (a + b) % m
  {
    DropMultiple(a % m + b, a / m, m);
    assert a == a / m * m + a % m;
  }

  lemma QuotientAtLeast(x: nat, n: nat, q: nat)
    requires n > 0
    ensures x / n >= q <==> x >= q * n
  {
    var p := x / n;
    assert x == p * n + x % n;
    if p >= q {
      MulMono(q, p, n);
    } else {
      MulMono(p + 1, q, n);
      assert (p + 1) * n == p * n + n;
    }
  }

  lemma QuotientGrows(a: nat, b: nat, n: nat)
    requires a <= b && n > 0
    ensures a / n <= b / n
  {
    QuotientAtLeast(a, n, a / n);
    QuotientAtLeast(b, n, a / n);
  }

  lemma QuotientShrinks(x: nat, m: nat, n: nat)
    requires 0 < m <= n
    ensures x / n <= x / m
  {
    var q := x / n;
    QuotientAtLeast(x, n, q);
    MulMono(m, n, q);
    assert q * m == m * q && q * n == n * q;
    QuotientAtLeast(x, m, q);
  }

  lemma ProductQuotient(v: nat, n: nat)
    requires n > 0
    ensures v * n / n == v
  {
    DivMod(v, n, 0);
  }

  lemma DigitsRegroup(a: nat, b: nat, p: nat, r: nat, s: nat)
    ensures b * (a * p + r) + s == a * (b * p) + (b * r + s)
  {
  }

  lemma RestFits(b: nat, p: nat, r: nat, s: nat)
    requires r < p && s < b
    ensures b * r + s < b * p
  {
    MulMono(r + 1, p, b);
  }

  lemma TwoDigits(v: nat, b: nat, p: nat, q: nat, s: nat, a: nat, r: nat)
    requires v == b * q + s && s < b && q == a * p + r && r < p
    ensures b * p > 0 && v / (b * p) == a
  {
    DigitsRegroup(a, b, p, r, s);
    RestFits(b, p, r, s);
    DivMod(a, b * p, b * r + s);
  }

  lemma QuotientTwice(v: nat, b: nat, p: nat)
    requires b > 0 && p > 0
    ensures b * p > 0 && v / b / p == v / (b * p)
  {
    var q := v / b;
    TwoDigits(v, b, p, q, v % b, q / p, q % p);
  }

  lemma QuotientJumps(low: nat, x: nat, n: nat)
    requires n > 0 && low + n <= x
    ensures low / n < x / n
  {
    QuotientAtLeast(low, n, low / n);
    assert (low / n + 1) * n == low / n * n + n;
    QuotientAtLeast(x, n, low / n + 1);
  }

  lemma Remainder(x: nat, m: nat)
    requires m > 0
    ensures if x < m then x % m == x else x % m + m <= x
  {
    if x >= m {
      QuotientAtLeast(x, m, 1);
      MulMono(1, x / m, m);
      assert x == x / m * m + x % m;
    }
  }

  /** A quotient survives reducing its dividend modulo m exactly when there is nothing to reduce. */
  lemma ReducedQuotientIff(x: nat, m: nat, n: nat)
    requires 0 < n <= m
    ensures x % m / n == x / n <==> x < m
  {
    Remainder(x, m);
    var low := x % m;
    hide *;
    if x >= m {
      QuotientJumps(low, x, n);
    }
  }
}
