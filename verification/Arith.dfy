/**
 * Facts about division and remainder used by the index arithmetic of several
 * components.
 */
module Arith {

  lemma MulAtLeast(k: int, n: nat)
    requires k >= 1
    ensures k * n >= n
  {
    if k > 1 { MulAtLeast(k - 1, n); }
  }

  lemma DivUnique(n: nat, q: int, r: int, q': int, r': int)
    requires 0 <= r < n && 0 <= r' < n
    requires q * n + r == q' * n + r'
    ensures q == q' && r == r'
  {
    assert (q - q') * n == r' - r;
    if q > q' { MulAtLeast(q - q', n); }
    assert (q' - q) * n == r - r';
    if q < q' { MulAtLeast(q' - q, n); }
  }

  lemma DivMod(x: int, n: nat)
    requires n > 0
    ensures x == (x / n) * n + x % n
  {
  }

  lemma ModIs(x: int, q: int, r: nat, n: nat)
    requires n > 0 && x == q * n + r && r < n
    ensures x % n == r && x / n == q
  {
    DivMod(x, n);
    DivUnique(n, x / n, x % n, q, r);
  }

  // Two numbers with the same remainder are at least n apart.
  lemma ModGap(a: int, b: int, n: nat)
    requires n > 0 && a % n == b % n && a < b
    ensures a + n <= b
  {
    DivMod(a, n);
    DivMod(b, n);
    var d := b / n - a / n;
    assert b - a == d * n;
    if d >= 1 { MulAtLeast(d, n); }
  }

  lemma ModAdd(a: int, d: int, n: nat)
    requires n > 0
    ensures (a % n + d) % n == (a + d) % n
  {
    var x := a % n + d;
    DivMod(a, n);
    DivMod(x, n);
    assert a + d == (a / n + x / n) * n + x % n;
    ModIs(a + d, a / n + x / n, x % n, n);
  }

  lemma ModShift(a: int, n: nat)
    requires n > 0
    ensures (a + n) % n == a % n && (a - n) % n == a % n
  {
    DivMod(a, n);
    assert a + n == (a / n + 1) * n + a % n;
    assert a - n == (a / n - 1) * n + a % n;
    ModIs(a + n, a / n + 1, a % n, n);
    ModIs(a - n, a / n - 1, a % n, n);
  }
}
