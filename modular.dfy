/** Facts about Euclidean `%` with a variable modulus, proved once from the
    uniqueness of quotient and remainder. */
module Modular {

  lemma {:induction false} MulNonNegative(a: int, b: int)
    requires a >= 0 && b >= 0
    ensures a * b >= 0
    decreases a
  {
    if a > 0 {
      MulNonNegative(a - 1, b);
      assert a * b == (a - 1) * b + b;
    }
  }

  /** The product of two naturals, as a natural. */
  function Times(a: nat, b: nat): (p: nat)
    ensures p == a * b
  {
    MulNonNegative(a, b);
    a * b
  }

  lemma DivModUnique(x: int, m: int, q: int, r: int)
    requires m > 0 && 0 <= r < m && x == q * m + r
    ensures x / m == q && x % m == r
  {
    var q', r' := x / m, x % m;
    assert x == q' * m + r';
    if q' > q {
      MulNonNegative(q' - q - 1, m);
      assert false;
    } else if q' < q {
      MulNonNegative(q - q' - 1, m);
      assert false;
    }
  }

  lemma ModSmall(x: int, m: int)
    requires m > 0 && 0 <= x < 2 * m
    ensures x % m == (if x < m then x else x - m)
  {
    if x < m { DivModUnique(x, m, 0, x); } else { DivModUnique(x, m, 1, x - m); }
  }

  lemma ModAdd(i: int, n: int, m: int)
    requires m > 0
    ensures (i + n % m) % m == (i + n) % m
  {
    var s := i + n % m;
    DivModUnique(n, m, n / m, n % m);
    assert s == (s / m) * m + s % m;
    assert i + n == (n / m + s / m) * m + s % m;
    DivModUnique(i + n, m, n / m + s / m, s % m);
  }

  lemma ModMultiple(x: int, q: int, m: int)
    requires m > 0
    ensures (x + q * m) % m == x % m
  {
    assert x == (x / m) * m + x % m;
    assert x + q * m == (x / m + q) * m + x % m;
    DivModUnique(x + q * m, m, x / m + q, x % m);
  }

  /** Moving k forward by n and back again returns to k. */
  lemma ShiftBack(k: int, n: int, m: int)
    requires m > 0 && 0 <= k < m
    ensures ((k + n) % m - n) % m == k
  {
    var q, r := (k + n) / m, (k + n) % m;
    assert k + n == q * m + r;
    assert r - n == (-q) * m + k;
    DivModUnique(r - n, m, -q, k);
  }

  /** Moving i back by n and forward again returns to i. */
  lemma ShiftFrom(i: int, n: int, m: int)
    requires m > 0 && 0 <= i < m
    ensures ((i - n) % m + n) % m == i
  {
    var d, r := (i - n) / m, (i - n) % m;
    assert i - n == d * m + r;
    assert r + n == (-d) * m + i;
    DivModUnique(r + n, m, -d, i);
  }

  /** Index i of a sequence rotated right by n reads index (i - n) mod m,
      which is i - n % m without wrapping or with one. */
  lemma RotIndex(i: int, n: int, m: int)
    requires m > 0 && 0 <= i < m
    ensures (i - n) % m == if i < n % m then i - n % m + m else i - n % m
  {
    var q, c := n / m, n % m;
    assert n == q * m + c;
    if i < c {
      assert i - n == (-q - 1) * m + (i - c + m);
      DivModUnique(i - n, m, -q - 1, i - c + m);
    } else {
      assert i - n == (-q) * m + (i - c);
      DivModUnique(i - n, m, -q, i - c);
    }
  }

  /** Adding less than the distance to the next multiple adds to the
      remainder. */
  lemma ModAddSmall(x: int, k: int, m: int)
    requires m > 0 && 0 <= k && x % m + k < m
    ensures (x + k) % m == x % m + k
  {
    assert x == (x / m) * m + x % m;
    DivModUnique(x + k, m, x / m, x % m + k);
  }

  /** 2 to the power k. */
  function Pow2(k: nat): (p: nat)
    ensures p >= 1
  {
    if k == 0 then 1 else 2 * Pow2(k - 1)
  }
}
