/**
 Division with remainder, and counters that wrap around, as places in a ring.
 */
module Division {

  lemma Divided(n: nat, m: nat)
    requires m > 0
    ensures n == n / m * m + n % m && 0 <= n % m < m
  {
  }

  lemma Grows(d: int, m: nat)
    requires d >= 1
    ensures d * m >= m
  {
  }

  /** Quotient and remainder are the only such numbers. */
  lemma Unique(a: int, b: int, r: nat, t: nat, m: nat)
    requires r < m && t < m && a * m + r == b * m + t
    ensures a == b && r == t
  {
    var d := a - b;
    assert d * m == t - r;
    assert (-d) * m == r - t;
    if d >= 1 {
      Grows(d, m);
    } else if d <= -1 {
      Grows(-d, m);
    }
  }

  lemma QuotientIs(n: nat, q: nat, r: nat, m: nat)
    requires r < m && n == q * m + r
    ensures n / m == q && n % m == r
  {
    Divided(n, m);
    Unique(n / m, q, n % m, r, m);
  }

  /** A counter kept modulo a multiple of the ring's size still tells its place. */
  lemma SameSlot(n: nat, size: nat, m: nat)
    requires size > 0 && m > 0
    ensures var wrap := m * size; wrap > 0 && n % wrap % size == n % size
  {
    var wrap := m * size;
    Grows(m, size);
    Divided(n, wrap);
    var q, r := n / wrap, n % wrap;
    Divided(r, size);
    Divided(n, size);
    assert q * wrap == (q * m) * size;
    assert (q * m + r / size) * size == (q * m) * size + r / size * size;
    Unique(q * m + r / size, n / size, r % size, n % size, size);
  }

  /** Fewer than size apart, two counters have different places. */
  lemma Apart(k: nat, n: nat, size: nat)
    requires k < n < k + size
    ensures k % size != n % size
  {
    Divided(k, size);
    Divided(n, size);
    var d := n / size - k / size;
    if k % size == n % size {
      assert d * size == n - k;
      Unique(d, 0, 0, n - k, size);
    }
  }
}
