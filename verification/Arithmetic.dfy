/** Division and multiplication facts the solver does not find unaided. */
module Arithmetic {

  lemma MulAtLeast(n: nat, d: nat)
    requires 1 <= d
    ensures n <= n * d
  {
    assert n * d == n + n * (d - 1);
  }

  /** Quotient and remainder are determined by their defining equation. */
  lemma DivModUnique(x: int, n: int, q: int, r: int)
    requires 0 < n && x == n * q + r && 0 <= r < n
    ensures x / n == q && x % n == r
  {
    var q', r' := x / n, x % n;
    assert n * (q - q') == r' - r by {
      assert x == n * q' + r';
      assert n * (q - q') == n * q - n * q';
    }
    if q' < q {
      MulAtLeast(n, q - q');
    } else if q < q' {
      assert n * (q' - q) == r - r' by {
        assert n * (q' - q) == -(n * (q - q'));
      }
      MulAtLeast(n, q' - q);
    }
  }

  lemma ModOfMultiple(n: int, q: int)
    requires 0 < n
    ensures (n * q) % n == 0 && (n * q) / n == q
  {
    DivModUnique(n * q, n, q, 0);
  }

  /** Adding a multiple of the modulus changes nothing. */
  lemma ModShift(x: int, n: int, k: int)
    requires 0 < n
    ensures (x + n * k) % n == x % n
  {
    var q, r := x / n, x % n;
    assert x + n * k == n * (q + k) + r by {
      assert n * (q + k) == n * q + n * k;
    }
    DivModUnique(x + n * k, n, q + k, r);
  }

  lemma DividesThrough(x: int, n: int, k: int)
    requires 0 < n && 0 < k && x % n == 0 && n % k == 0
    ensures x % k == 0
  {
    var q, r := x / n, n / k;
    assert x == k * (r * q) by {
      assert x == n * q && n == k * r;
      MulAssociative(k, r, q);
    }
    ModOfMultiple(k, r * q);
  }

  lemma MulAssociative(a: int, b: int, c: int)
    ensures (a * b) * c == a * (b * c)
  {
  }

  lemma ModBounded(x: nat, n: nat)
    requires x < n
    ensures x % n == x
  {
    DivModUnique(x, n, 0, x);
  }

  /** Remainders may be taken before or after adding. */
  lemma ModSum(x: nat, y: nat, n: nat)
    requires 0 < n
    ensures (x % n + y % n) % n == (x + y) % n
  {
    var p, q := x / n, y / n;
    assert x + y == (x % n + y % n) + n * (p + q) by {
      assert n * (p + q) == n * p + n * q;
    }
    ModShift(x % n + y % n, n, p + q);
  }

  /** Remainders may be taken before or after multiplying. */
  lemma ModProduct(x: nat, y: nat, n: nat)
    requires 0 < n
    ensures ((x % n) * (y % n)) % n == (x * y) % n
  {
    var p, r, q, s := x / n, x % n, y / n, y % n;
    assert x * y == r * s + n * (p * y + q * r) by {
      assert x == n * p + r && y == n * q + s;
      assert x * y == (n * p) * y + r * y;
      assert (n * p) * y == n * (p * y);
      assert r * y == r * (n * q) + r * s;
      assert r * (n * q) == n * (q * r);
      assert n * (p * y + q * r) == n * (p * y) + n * (q * r);
    }
    ModShift(r * s, n, p * y + q * r);
  }

  function Power(b: nat, n: nat): nat {
    if n == 0 then 1 else b * Power(b, n - 1)
  }

  lemma {:induction false} PowerPositive(b: nat, n: nat)
    requires 0 < b
    ensures 0 < Power(b, n)
  {
    if n > 0 {
      PowerPositive(b, n - 1);
    }
  }

  lemma {:induction false} PowerSum(b: nat, m: nat, n: nat)
    ensures Power(b, m + n) == Power(b, m) * Power(b, n)
  {
    if m > 0 {
      PowerSum(b, m - 1, n);
      MulAssociative(b, Power(b, m - 1), Power(b, n));
    }
  }

  lemma {:induction false} PowerProduct(b: nat, m: nat, n: nat)
    ensures Power(Power(b, m), n) == Power(b, m * n)
  {
    if n > 0 {
      PowerProduct(b, m, n - 1);
      assert m * n == m + m * (n - 1);
      PowerSum(b, m, m * (n - 1));
    }
  }

  lemma {:induction false} PowerDoubles(n: nat)
    requires 0 < n
    ensures Power(2, n) == 2 * Power(2, n - 1)
  {
  }

  lemma PowerZero()
    ensures Power(2, 0) == 1
  {
  }
}
