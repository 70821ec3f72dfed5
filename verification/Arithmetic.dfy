/** Quotients, remainders and products by a variable divisor. */
module Arithmetic {

  function Min(a: int, b: int): int {
    if a <= b then a else b
  }

  function Max(a: int, b: int): int {
    if a <= b then b else a
  }

  lemma ProductOrder(a: int, b: int, c: int)
    requires a <= b && 0 <= c
    ensures a * c <= b * c
  {
  }

  lemma DivStep(x: int, n: int)
    requires 0 <= x && 0 < n
    ensures 0 <= x % n < n
    ensures (x / n + 1) * n == x - x % n + n
  {
    assert x == x / n * n + x % n;
  }

  lemma QuotientSmall(x: int, n: int)
    requires 0 <= x && 0 < n
    ensures 0 <= x / n <= x
    ensures x < n ==> x / n == 0 && x % n == x
  {
    var q := x / n;
    var rest := x % n;
    assert x == q * n + rest;
    if q < 0 {
      ProductOrder(q, -1, n);
    } else {
      ProductOrder(1, n, q);
      assert n * q == q * n;
      if q > 0 {
        ProductOrder(1, q, n);
      }
    }
  }

  lemma SameProduct(a: int, b: int, n: int)
    requires n > 0 && a * n == b * n
    ensures a == b
  {
    assert (a + 1) * n == a * n + n;
    assert (b + 1) * n == b * n + n;
    if a < b {
      ProductOrder(a + 1, b, n);
    } else if b < a {
      ProductOrder(b + 1, a, n);
    }
  }

  lemma ModuloOf(a: int, q: int, r: int, n: int)
    requires 0 <= r < n && a == q * n + r
    ensures a % n == r
  {
    var q' := a / n;
    assert a == q' * n + a % n;
    assert (q + 1) * n == q * n + n;
    assert (q' + 1) * n == q' * n + n;
    if q < q' {
      ProductOrder(q + 1, q', n);
    } else if q' < q {
      ProductOrder(q' + 1, q, n);
    }
  }

  lemma ModuloStep(t: nat, n: nat)
    requires n > 0 && t > 0
    ensures (t - 1) % n == if t % n == 0 then n - 1 else t % n - 1
  {
    var q := t / n;
    assert t == q * n + t % n;
    if t % n == 0 {
      assert t - 1 == (q - 1) * n + (n - 1) by {
        assert (q - 1) * n == q * n - n;
      }
      ModuloOf(t - 1, q - 1, n - 1, n);
    } else {
      ModuloOf(t - 1, q, t % n - 1, n);
    }
  }

  lemma QuotientStep(t: nat, n: nat)
    requires n > 0
    ensures if t % n == n - 1 then (t + 1) % n == 0 && (t + 1) / n == t / n + 1
            else (t + 1) % n == t % n + 1 && (t + 1) / n == t / n
  {
    var q := t / n;
    assert t == q * n + t % n;
    assert (q + 1) * n == q * n + n;
    assert t + 1 == (t + 1) / n * n + (t + 1) % n;
    if t % n == n - 1 {
      ModuloOf(t + 1, q + 1, 0, n);
      SameProduct((t + 1) / n, q + 1, n);
    } else {
      ModuloOf(t + 1, q, t % n + 1, n);
      SameProduct((t + 1) / n, q, n);
    }
  }

  lemma RemainderStep(x: int, n: int)
    requires 0 < n
    ensures (x - n) % n == x % n
  {
    var q, r := x / n - 1, x % n;
    var q', r' := (x - n) / n, (x - n) % n;
    assert x == (x / n) * n + r;
    assert (x / n) * n == q * n + n;
    assert x - n == q' * n + r';
    assert (q + 1) * n == q * n + n;
    assert (q' + 1) * n == q' * n + n;
    if q < q' {
      ProductOrder(q + 1, q', n);
    } else if q' < q {
      ProductOrder(q' + 1, q, n);
    }
  }

  lemma QuotientMonotone(a: int, b: int, n: int)
    requires n > 0 && 0 <= a <= b
    ensures a / n <= b / n
  {
    var p, q := a / n, b / n;
    assert a == p * n + a % n;
    assert b == q * n + b % n;
    assert (q + 1) * n == q * n + n;
    if q < p {
      ProductOrder(q + 1, p, n);
    }
  }

  lemma QuotientShift(x: int, n: int, k: int)
    requires n > 0
    ensures (x - k * n) / n == x / n - k
  {
    var p, q := x / n, (x - k * n) / n;
    assert x == p * n + x % n;
    assert x - k * n == q * n + (x - k * n) % n;
    assert (p - k) * n == p * n - k * n;
    assert (p - k + 1) * n == (p - k) * n + n;
    assert (q + 1) * n == q * n + n;
    if q < p - k {
      ProductOrder(q + 1, p - k, n);
    } else if p - k < q {
      ProductOrder(p - k + 1, q, n);
    }
  }

  lemma NextCongruent(a: nat, n: nat, r: nat) returns (t: nat)
    requires r < n
    ensures a <= t < a + n && t % n == r
  {
    var q := a / n;
    assert a == q * n + a % n;
    assert (q + 1) * n == q * n + n;
    if a % n <= r {
      t := q * n + r;
      ModuloOf(t, q, r, n);
    } else {
      t := (q + 1) * n + r;
      ModuloOf(t, q + 1, r, n);
    }
  }

  lemma CloseCongruent(u: nat, t: nat, n: nat)
    requires n > 0 && u % n == t % n && u < t + n && t < u + n
    ensures u == t
  {
    var p, q := u / n, t / n;
    assert u == p * n + u % n && t == q * n + t % n;
    assert (p + 1) * n == p * n + n;
    assert (q + 1) * n == q * n + n;
    if p < q {
      ProductOrder(p + 1, q, n);
    } else if q < p {
      ProductOrder(q + 1, p, n);
    }
  }
}
