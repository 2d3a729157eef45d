/** Division with remainder, stated the way the loops use it. */
module Arithmetic {

  lemma SmallMultipleIsZero(k: int, b: nat)
    requires -(b as int) < k * b < b
    ensures k == 0
  {
  }

  lemma RemainderUnique(b: nat, q: int, r: nat, q': int, r': nat)
    requires r < b && r' < b && q * b + r == q' * b + r'
    ensures r == r'
  {
    assert (q - q') * b == q * b - q' * b;
    SmallMultipleIsZero(q - q', b);
  }

  lemma RemainderIs(x: nat, n: nat, q: int, r: nat)
    requires n > 0 && x == q * n + r && r < n
    ensures x % n == r
  {
    assert x == (x / n) * n + x % n;
    RemainderUnique(n, q, r, x / n, x % n);
  }

  /** Taking one divisor away does not change the remainder. */
  lemma RemainderStep(n: nat, b: nat)
    requires 0 < b <= n
    ensures (n - b) % b == n % b
  {
    var q := n / b;
    assert n == q * b + n % b;
    assert (q - 1) * b == q * b - b;
    RemainderIs(n - b, b, q - 1, n % b);
  }

  lemma RemainderAdd(a: nat, b: nat, n: nat)
    requires n > 0
    ensures (a % n + b) % n == (a + b) % n
  {
    var q := (a % n + b) / n;
    var r := (a % n + b) % n;
    assert a % n + b == q * n + r;
    assert a == (a / n) * n + a % n;
    assert (a / n + q) * n == (a / n) * n + q * n;
    RemainderIs(a + b, n, a / n + q, r);
  }

  lemma RemainderWrap(x: nat, n: nat)
    requires n > 0 && x < 2 * n
    ensures x % n == if x < n then x else x - n
  {
    if x < n { RemainderIs(x, n, 0, x); } else { RemainderIs(x, n, 1, x - n); }
  }
}
