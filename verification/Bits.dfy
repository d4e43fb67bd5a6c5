/**
 * Bitwise "and" on natural numbers, and what it means for masks.
 */
module Bits {
  import opened Arith

  function And(x: nat, y: nat): nat {
    if x == 0 || y == 0 then 0 else 2 * And(x / 2, y / 2) + (x % 2) * (y % 2)
  }

  predicate Power2(n: nat) {
    n == 1 || (n > 1 && n % 2 == 0 && Power2(n / 2))
  }

  lemma {:induction false} AndAtMost(x: nat, y: nat)
    ensures And(x, y) <= x && And(x, y) <= y
  {
    if x != 0 && y != 0 {
      AndAtMost(x / 2, y / 2);
      assert (x % 2) * (y % 2) <= x % 2 && (x % 2) * (y % 2) <= y % 2;
    }
  }

  lemma HalfMod(x: nat, q: nat)
    requires q > 0
    ensures x % (2 * q) == 2 * (x / 2 % q) + x % 2
  {
    DivMod(x / 2, q);
    assert x == (x / 2 / q) * (2 * q) + (2 * (x / 2 % q) + x % 2);
    ModIs(x, x / 2 / q, 2 * (x / 2 % q) + x % 2, 2 * q);
  }

  // A power of two less one selects the low bits.
  lemma {:induction false} AndMask(x: nat, q: nat)
    requires Power2(q)
    ensures And(x, q - 1) == x % q
  {
    if q > 1 {
      AndMask(x / 2, q / 2);
      HalfMod(x, q / 2);
      assert (q - 1) / 2 == q / 2 - 1 && (q - 1) % 2 == 1;
      if x == 0 { ModIs(0, 0, 0, q); }
    }
  }

  // Bits above the mask's top bit do not matter.
  lemma {:induction false} AndLow(x: nat, m: nat, q: nat)
    requires Power2(q) && m < q
    ensures And(x, m) == And(x % q, m)
  {
    if q > 1 {
      HalfMod(x, q / 2);
      AndLow(x / 2, m / 2, q / 2);
      assert x % q / 2 == x / 2 % (q / 2) && x % q % 2 == x % 2;
      if x == 0 { ModIs(0, 0, 0, q); }
    }
  }

  lemma TwiceOf(k: nat, q: nat)
    ensures 2 * (k * q) == k * (2 * q)
  {
  }

  lemma HalfDiv(x: nat, q: nat)
    requires q > 0
    ensures x / (2 * q) == x / 2 / q
  {
    DivMod(x / 2, q);
    assert x == (x / 2 / q) * (2 * q) + (2 * (x / 2 % q) + x % 2);
    ModIs(x, x / 2 / q, 2 * (x / 2 % q) + x % 2, 2 * q);
  }

  lemma AndStep(x: nat, y: nat)
    ensures And(x, y) == 2 * And(x / 2, y / 2) + (x % 2) * (y % 2)
  {
  }

  // Clearing the low bits below q rounds down to a multiple of q.
  lemma {:induction false} AndHigh(y: nat, p: nat, q: nat)
    requires Power2(p) && Power2(q) && q <= p && y < p
    ensures And(y, p - q) == y / q * q
  {
    if q == 1 {
      AndMask(y, p);
      ModIs(y, 0, y, p);
      ModIs(y, y, 0, 1);
    } else {
      var y', p', q' := y / 2, p / 2, q / 2;
      AndHigh(y', p', q');
      HalfDiv(y, q');
      AndStep(y, p - q);
      assert (p - q) / 2 == p' - q' && (p - q) % 2 == 0;
      assert y % 2 * 0 == 0;
      TwiceOf(y' / q', q');
    }
  }

  lemma Double(n: nat)
    requires Power2(n)
    ensures Power2(2 * n)
  {
  }

  function Shl(n: nat, k: nat): nat
    decreases k
  {
    if k == 0 then n else Shl(2 * n, k - 1)
  }

  lemma {:induction false} ShlPower(n: nat, k: nat)
    requires Power2(n)
    ensures Power2(Shl(n, k))
    decreases k
  {
    if k > 0 {
      Double(n);
      ShlPower(2 * n, k - 1);
    }
  }

  lemma ShlEight(n: nat)
    ensures Shl(n, 8) == 256 * n
  {
    assert Shl(n, 8) == Shl(2 * n, 7) == Shl(4 * n, 6) == Shl(8 * n, 5) == Shl(16 * n, 4);
    assert Shl(16 * n, 4) == Shl(32 * n, 3) == Shl(64 * n, 2) == Shl(128 * n, 1) == Shl(256 * n, 0);
  }

  lemma Times256(n: nat)
    requires Power2(n)
    ensures Power2(256 * n)
  {
    ShlPower(n, 8);
    ShlEight(n);
  }

  lemma HalfComplement(m: nat, p: nat)
    requires Power2(p) && p > 1 && m < p
    ensures (p - 1 - m) / 2 == p / 2 - 1 - m / 2 && (p - 1 - m) % 2 == 1 - m % 2
  {
  }

  lemma OneBit(x: nat, m: nat)
    requires x < 2 && m < 2
    ensures x * m + x * (1 - m) == x
  {
  }

  // A mask and its complement in a word of p = 2^k split a number in two.
  lemma {:induction false} AndComplement(x: nat, m: nat, p: nat)
    requires Power2(p) && x < p && m < p
    ensures And(x, m) + And(x, p - 1 - m) == x
  {
    if p > 1 && x > 0 {
      var c := p - 1 - m;
      HalfComplement(m, p);
      AndComplement(x / 2, m / 2, p / 2);
      AndStep(x, m);
      AndStep(x, c);
      OneBit(x % 2, m % 2);
    }
  }
}
