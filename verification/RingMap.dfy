/**
 * Register indices of the rings when traffic classes (DCB) and pools (VMDq) are
 * both in use on the 82599 and X540: each pool owns q consecutive registers, of
 * which the first `tcs` are used, and separate FCoE rings follow one per pool.
 */
module RingMap {
  import opened Arith
  import opened Bits

  const REGISTERS := 128
  const WORD := 0x1_0000_0000

  // q registers per pool; the pool mask has all register bits above them
  function PoolMask(q: nat): nat
    requires q <= REGISTERS
  {
    REGISTERS - q
  }

  // the C expressions ~mask, x & ~mask and __ALIGN_MASK(x, ~mask)
  function Not(m: nat): nat
    requires m < WORD
  {
    WORD - 1 - m
  }

  function InPool(x: nat, m: nat): nat
    requires m < WORD
  {
    And(x, Not(m))
  }

  function Align(x: nat, m: nat): nat
    requires m < WORD
  {
    And((x + Not(m)) % WORD, m)
  }

  predicate PoolSize(q: nat) { q == 4 || q == 8 }

  lemma WordIsPower()
    ensures Power2(WORD) && Power2(REGISTERS) && Power2(4) && Power2(8)
  {
    Times256(1);
    Times256(0x100);
    Times256(0x1_0000);
    Times256(0x100_0000);
    Double(1); Double(2); Double(4); Double(8); Double(16); Double(32); Double(64);
  }

  lemma InPoolIs(x: nat, q: nat)
    requires PoolSize(q) && x < REGISTERS
    ensures InPool(x, PoolMask(q)) == x % q
  {
    WordIsPower();
    AndHigh(x, REGISTERS, q);
    AndComplement(x, PoolMask(q), WORD);
  }

  // The alignment rounds up to the next pool, within the register space.
  lemma AlignIs(x: nat, q: nat)
    requires PoolSize(q) && x + q <= REGISTERS
    ensures Align(x, PoolMask(q)) == (x + q - 1) / q * q
  {
    WordIsPower();
    var y := (x + Not(PoolMask(q))) % WORD;
    assert y % REGISTERS == x + q - 1;
    AndLow(y, PoolMask(q), REGISTERS);
    AndHigh(x + q - 1, REGISTERS, q);
  }

  // ----- the layout

  // q registers per pool, the pools from `offset` on, tcs rings per pool, then
  // `fcoe` rings in the traffic class fcoeTc of the following pools
  datatype Layout = Layout(q: nat, tcs: nat, offset: nat, pools: nat, fcoe: nat, fcoeTc: nat)

  predicate Fits(l: Layout) {
    && PoolSize(l.q) && 1 <= l.tcs <= l.q && l.fcoeTc < l.tcs
    && (l.offset + l.pools + l.fcoe) * l.q <= REGISTERS
  }

  function Rings(l: Layout): nat { l.pools * l.tcs + l.fcoe }

  function Reg(l: Layout, i: nat): nat
    requires l.tcs > 0
  {
    if i < l.pools * l.tcs then (l.offset + i / l.tcs) * l.q + i % l.tcs
    else (l.offset + l.pools + (i - l.pools * l.tcs)) * l.q + l.fcoeTc
  }

  // The pool of a ring and its place in the pool.
  function Pool(l: Layout, i: nat): nat
    requires l.tcs > 0
  {
    if i < l.pools * l.tcs then l.offset + i / l.tcs else l.offset + l.pools + (i - l.pools * l.tcs)
  }

  lemma QuotientBelow(i: nat, t: nat, n: nat)
    requires t > 0 && i < n * t
    ensures 0 <= i / t < n
  {
    DivMod(i, t);
    var a := i / t;
    assert a >= n ==> (a - n) * t >= 0;
  }

  lemma RegInPool(l: Layout, i: nat)
    requires Fits(l) && i < Rings(l)
    ensures Pool(l, i) < l.offset + l.pools + l.fcoe
    ensures Reg(l, i) / l.q == Pool(l, i) && Reg(l, i) % l.q == if i < l.pools * l.tcs then i % l.tcs else l.fcoeTc
    ensures Reg(l, i) < REGISTERS
  {
    var k := if i < l.pools * l.tcs then i % l.tcs else l.fcoeTc;
    ModIs(Reg(l, i), Pool(l, i), k, l.q);
    if i < l.pools * l.tcs { QuotientBelow(i, l.tcs, l.pools); }
    var d := l.offset + l.pools + l.fcoe - Pool(l, i);
    MulAtLeast(d, l.q);
    assert (l.offset + l.pools + l.fcoe) * l.q - Reg(l, i) == d * l.q - k;
  }

  // Different rings never share a register, and all registers exist.
  lemma RegistersDistinct(l: Layout, i: nat, j: nat)
    requires Fits(l) && i < j < Rings(l)
    ensures Reg(l, i) != Reg(l, j) && Reg(l, i) < REGISTERS && Reg(l, j) < REGISTERS
  {
    RegInPool(l, i);
    RegInPool(l, j);
    if Pool(l, i) == Pool(l, j) && i < l.pools * l.tcs {
      if j < l.pools * l.tcs {
        DivMod(i, l.tcs);
        DivMod(j, l.tcs);
      } else {
        QuotientBelow(i, l.tcs, l.pools);
        assert false;
      }
    }
  }

  // ----- the loops

  // Where the running index stands before ring i of the pools.
  ghost function Next(l: Layout, i: nat): nat
    requires l.tcs > 0
  {
    if i == 0 then l.offset * l.q else Reg(l, i - 1) + 1
  }

  // One turn of the loop: align when the pool's share is used up.
  function Moved(l: Layout, reg: nat): nat
    requires l.q <= REGISTERS
  {
    if InPool(reg, PoolMask(l.q)) >= l.tcs then Align(reg, PoolMask(l.q)) else reg
  }

  lemma Cell(n: nat, t: nat, a: nat, b: nat)
    requires a < n && b < t
    ensures a * t + b < n * t && (a * t + b) / t == a && (a * t + b) % t == b
  {
    ModIs(a * t + b, a, b, t);
    MulAtLeast(n - a, t);
    assert n * t == (n - a) * t + a * t;
  }

  // Ring b of pool a.
  lemma RegAt(l: Layout, a: nat, b: nat)
    requires Fits(l) && a < l.pools && b < l.tcs
    ensures a * l.tcs + b < l.pools * l.tcs
    ensures Reg(l, a * l.tcs + b) == (l.offset + a) * l.q + b < REGISTERS
  {
    Cell(l.pools, l.tcs, a, b);
    RegInPool(l, a * l.tcs + b);
  }

  // Inside a pool nothing moves.
  lemma StaysInPool(l: Layout, a: nat, b: nat)
    requires Fits(l) && a < l.pools && b < l.tcs
    ensures Moved(l, (l.offset + a) * l.q + b) == (l.offset + a) * l.q + b
  {
    RegAt(l, a, b);
    ModIs((l.offset + a) * l.q + b, l.offset + a, b, l.q);
    InPoolIs((l.offset + a) * l.q + b, l.q);
  }

  lemma SplitAt(i: nat, t: nat, n: nat) returns (a: nat, b: nat)
    requires t > 0 && i < n * t
    ensures a < n && b < t && i == a * t + b
  {
    a, b := i / t, i % t;
    QuotientBelow(i, t, n);
    DivMod(i, t);
  }

  // Every ring is ring b of some pool a.
  lemma Split(l: Layout, i: nat) returns (a: nat, b: nat)
    requires Fits(l) && i < l.pools * l.tcs
    ensures a < l.pools && b < l.tcs && i == a * l.tcs + b
  {
    a, b := SplitAt(i, l.tcs, l.pools);
  }

  // Less than a pool behind register p * q, the alignment goes there.
  lemma Rounded(x: nat, p: nat, r: nat, q: nat)
    requires PoolSize(q) && r < q && x + q - 1 == p * q + r && x + q <= REGISTERS
    ensures Align(x, PoolMask(q)) == p * q
  {
    AlignIs(x, q);
    ModIs(x + q - 1, p, r, q);
  }

  // Register t of pool p, for t up to the pool size.
  lemma NextPoolAt(p: nat, t: nat, q: nat, reg: nat)
    requires PoolSize(q) && 0 < t <= q && reg == p * q + t && reg + q <= REGISTERS
    ensures InPool(reg, PoolMask(q)) == if t == q then 0 else t
    ensures Align(reg, PoolMask(q)) == (p + 1) * q
  {
    InPoolIs(reg, q);
    if t == q { ModIs(reg, p + 1, 0, q); } else { ModIs(reg, p, t, q); }
    assert (p + 1) * q == p * q + q;
    Rounded(reg, p + 1, t - 1, q);
  }

  // The index just behind the last ring of pool a moves to the next pool.
  lemma NextPool(l: Layout, a: nat)
    requires Fits(l) && a + 1 < l.pools
    ensures Moved(l, (l.offset + a) * l.q + l.tcs) == (l.offset + a + 1) * l.q
  {
    var reg := (l.offset + a) * l.q + l.tcs;
    assert reg + l.q <= REGISTERS by {
      if l.q == 4 { assert (l.offset + a + 2) * 4 <= REGISTERS; } else { assert (l.offset + a + 2) * 8 <= REGISTERS; }
    }
    NextPoolAt(l.offset + a, l.tcs, l.q, reg);
    if l.tcs == l.q { assert reg == (l.offset + a + 1) * l.q; }
  }

  lemma MovedNext(l: Layout, a: nat, b: nat)
    requires Fits(l) && a < l.pools && b < l.tcs && a * l.tcs + b + 1 < l.pools * l.tcs
    ensures Moved(l, (l.offset + a) * l.q + b + 1) == Reg(l, a * l.tcs + b + 1)
  {
    if b + 1 < l.tcs {
      RegAt(l, a, b + 1);
      StaysInPool(l, a, b + 1);
    } else {
      assert (a + 1) * l.tcs == a * l.tcs + b + 1;
      assert a + 1 < l.pools;
      RegAt(l, a + 1, 0);
      NextPool(l, a);
    }
  }

  lemma MovedIsReg(l: Layout, i: nat)
    requires Fits(l) && i < l.pools * l.tcs
    ensures Moved(l, Next(l, i)) == Reg(l, i)
  {
    if i == 0 {
      var a, b := Split(l, 0);
      RegAt(l, 0, 0);
      StaysInPool(l, 0, 0);
    } else {
      var a, b := Split(l, i - 1);
      RegAt(l, a, b);
      assert Next(l, i) == (l.offset + a) * l.q + b + 1;
      MovedNext(l, a, b);
    }
  }

  ghost function FcoeNext(l: Layout, k: nat): nat {
    if k == 0 then (l.offset + l.pools) * l.q else (l.offset + l.pools + (k - 1)) * l.q + l.fcoeTc + 1
  }

  lemma FcoeAlignAt(p: nat, q: nat, r: nat, x: nat, end: nat)
    requires PoolSize(q) && r < q && p < end && end * q <= REGISTERS
    requires (x == p * q && r == q - 1) || (p > 0 && x == (p - 1) * q + r + 1)
    ensures Align(x, PoolMask(q)) == p * q
  {
    if q == 4 { Rounded(x, p, r, 4); } else { Rounded(x, p, r, 8); }
  }

  // The separate FCoE rings: from behind one of them to the next pool.
  lemma FcoeAlign(l: Layout, k: nat)
    requires Fits(l) && k < l.fcoe
    ensures Align(FcoeNext(l, k), PoolMask(l.q)) == (l.offset + l.pools + k) * l.q
  {
    FcoeAlignAt(l.offset + l.pools + k, l.q, if k == 0 then l.q - 1 else l.fcoeTc, FcoeNext(l, k),
                l.offset + l.pools + l.fcoe);
  }

  lemma RegSmall(l: Layout, i: nat)
    requires Fits(l) && i < l.pools * l.tcs
    ensures Reg(l, i) < REGISTERS
  {
    RegInPool(l, i);
  }

  lemma SmallIncrement(x: nat)
    requires x < REGISTERS
    ensures (x + 1) % 0x1_0000 == x + 1
  {
  }

  // One turn of the first loop.
  lemma PoolTurn(l: Layout, i: nat)
    requires Fits(l) && i < l.pools * l.tcs
    ensures Moved(l, Next(l, i)) == Reg(l, i)
    ensures (Reg(l, i) + 1) % 0x1_0000 == Next(l, i + 1)
  {
    MovedIsReg(l, i);
    RegSmall(l, i);
    SmallIncrement(Reg(l, i));
  }

  lemma FirstRegister(l: Layout)
    requires Fits(l)
    ensures l.offset * Align(1, PoolMask(l.q)) == Next(l, 0)
  {
    AlignIs(1, l.q);
    ModIs(l.q, 1, 0, l.q);
  }

  // The first loop of one direction, over all n rings of the adapter.
  method MapPools(l: Layout, ghost count: nat, n: nat) returns (regs: seq<nat>)
    requires Fits(l) && count == l.pools * l.tcs <= n
    ensures |regs| == n && forall i: nat :: i < count ==> regs[i] == Reg(l, i)
  {
    regs := [];
    var reg: nat := l.offset * Align(1, PoolMask(l.q));
    FirstRegister(l);
    for i := 0 to n
      invariant |regs| == i && forall k: nat :: k < i && k < count ==> regs[k] == Reg(l, k)
      invariant i < count ==> reg == Next(l, i)
    {
      if i < count { PoolTurn(l, i); }
      if InPool(reg, PoolMask(l.q)) >= l.tcs {
        reg := Align(reg, PoolMask(l.q));
      }
      regs := regs + [reg];
      reg := (reg + 1) % 0x1_0000;
    }
  }

  ghost function AllRegs(l: Layout, n: nat): (r: seq<nat>)
    requires l.tcs > 0
    ensures |r| == n && forall i: nat :: i < n ==> r[i] == Reg(l, i)
  {
    seq(n, i requires 0 <= i < n => Reg(l, i))
  }

  // One turn of the second loop.
  method MoveFcoe(l: Layout, reg: nat, ghost base: nat, ghost i: nat) returns (here: nat, next: nat)
    requires Fits(l) && base == l.pools * l.tcs && base <= i < base + l.fcoe && reg == FcoeNext(l, i - base)
    ensures here == Reg(l, i) && next == FcoeNext(l, i + 1 - base)
  {
    FcoeAlign(l, i - base);
    here := Align(reg, PoolMask(l.q)) + l.fcoeTc;
    next := here + 1;
  }

  // The second loop: the FCoE rings are moved to pools of their own.
  method MapFcoe(l: Layout, base: nat, regs: seq<nat>) returns (r: seq<nat>)
    requires Fits(l) && base == l.pools * l.tcs && |regs| == base + l.fcoe
    ensures |r| == |regs|
    ensures forall i: nat :: i < |r| ==> r[i] == if i < base then regs[i] else Reg(l, i)
  {
    r := regs;
    var reg := (l.offset + l.pools) * l.q;
    assert reg == FcoeNext(l, 0);
    ghost var goal := AllRegs(l, |regs|);
    for i := base to |regs|
      invariant |r| == |regs| && reg == FcoeNext(l, i - base)
      invariant forall j: nat :: j < |r| ==> r[j] == if base <= j < i then goal[j] else regs[j]
    {
      var here;
      here, reg := MoveFcoe(l, reg, base, i);
      r := r[i := here];
    }
  }

  // ----- choosing the layout and applying it

  datatype Config = Config(tcs: nat, limit: nat, offset: nat, fcoeEnabled: bool, fcoeLimit: nat, fcoeTc: nat)

  // The driver's use: two to eight traffic classes, at least one pool wanted.
  predicate Sensible(c: Config) {
    2 <= c.tcs <= 8 && 1 <= c.limit && c.limit + c.offset < 0x1_0000 && c.fcoeTc < c.tcs
  }

  function MaxPools(c: Config): nat { if c.tcs > 4 then 16 else 32 }

  lemma FitsMeans(l: Layout)
    requires PoolSize(l.q)
    ensures Fits(l) <==> && 1 <= l.tcs <= l.q && l.fcoeTc < l.tcs
                         && l.offset + l.pools + l.fcoe <= if l.q == 8 then 16 else 32
  {
    if l.q == 8 {
      assert (l.offset + l.pools + l.fcoe) * l.q == (l.offset + l.pools + l.fcoe) * 8;
    } else {
      assert (l.offset + l.pools + l.fcoe) * l.q == (l.offset + l.pools + l.fcoe) * 4;
    }
  }

  // As many pools as are wanted and the card has; as many separate FCoE rings as are
  // wanted and the rest of the card takes, and none without FCoE.
  ghost predicate Chosen(c: Config, l: Layout) {
    && l.pools <= c.limit && (forall n: nat :: n <= c.limit && Fits(l.(pools := n, fcoe := 0)) ==> n <= l.pools)
    && l.fcoe <= c.fcoeLimit && (!c.fcoeEnabled ==> l.fcoe == 0)
    && (c.fcoeEnabled ==> forall n: nat :: n <= c.fcoeLimit && Fits(l.(fcoe := n)) ==> n <= l.fcoe)
  }

  // The rings FCoE uses: its own behind the pools, or else the one of its class in the
  // first pool.
  predicate FcoeRings(c: Config, l: Layout, first: nat, count: nat) {
    if !c.fcoeEnabled then count == 0
    else if l.fcoe > 0 then first == l.pools * l.tcs && count == l.fcoe
    else first == c.fcoeTc && count == 1
  }

  lemma ChosenMeans(c: Config, l: Layout)
    requires Sensible(c) && c.offset <= MaxPools(c) && l.tcs == c.tcs && l.offset == c.offset && l.fcoeTc == c.fcoeTc
    requires l.q == if c.tcs > 4 then 8 else 4
    requires l.pools == if c.limit < MaxPools(c) - c.offset then c.limit else MaxPools(c) - c.offset
    requires var rest := MaxPools(c) - c.offset - l.pools;
             l.fcoe == if !c.fcoeEnabled then 0 else if rest > c.fcoeLimit then c.fcoeLimit else rest
    ensures Fits(l) && Chosen(c, l)
  {
    FitsMeans(l);
    forall n: nat | Fits(l.(pools := n, fcoe := 0))
      ensures n <= MaxPools(c) - c.offset
    {
      FitsMeans(l.(pools := n, fcoe := 0));
    }
    forall n: nat | Fits(l.(fcoe := n))
      ensures n <= MaxPools(c) - c.offset - l.pools
    {
      FitsMeans(l.(fcoe := n));
    }
  }

  // The share of FCoE: what the pools leave of the card, within its limit.
  method SetFcoe(c: Config, pools: nat, rest: nat) returns (fcoe: nat, first: nat, count: nat)
    ensures fcoe == if !c.fcoeEnabled then 0 else if rest > c.fcoeLimit then c.fcoeLimit else rest
    ensures forall l: Layout :: l.pools == pools && l.tcs == c.tcs && l.fcoe == fcoe ==> FcoeRings(c, l, first, count)
  {
    fcoe, first, count := 0, 0, 0;
    if c.fcoeEnabled {
      fcoe := if rest > c.fcoeLimit then c.fcoeLimit else rest;
      if fcoe > 0 {
        first, count := pools * c.tcs, fcoe;
      } else {
        first, count := c.fcoeTc, 1;
      }
    }
  }

  // How many queues and pools there will be.  The differences are taken in 16
  // bits; the layout fits the card exactly when the first pool exists.
  method SetQueues(c: Config) returns (l: Layout, first: nat, count: nat)
    requires Sensible(c)
    ensures Fits(l) <==> c.offset <= MaxPools(c)
    ensures l.tcs == c.tcs && l.offset == c.offset && l.fcoeTc == c.fcoeTc && l.q * MaxPools(c) == REGISTERS
    ensures if c.offset <= MaxPools(c) then Chosen(c, l) else l.pools == MaxPools(c) - c.offset + 0x1_0000
    ensures FcoeRings(c, l, first, count)
  {
    var vmdq := (c.limit + c.offset) % 0x1_0000;
    var q := 4;
    if c.tcs > 4 {
      if vmdq > 16 {
        vmdq := 16;
      }
      q := 8;
    } else {
      if vmdq > 32 {
        vmdq := 32;
      }
    }
    var rest := (if q == 8 then 128 / 8 else 128 / 4) - vmdq;
    vmdq := (vmdq - c.offset) % 0x1_0000;
    var fcoe;
    fcoe, first, count := SetFcoe(c, vmdq, rest);
    l := Layout(q, c.tcs, c.offset, vmdq, fcoe, c.fcoeTc);
    if c.offset <= MaxPools(c) { ChosenMeans(c, l); } else { FitsMeans(l); }
  }

  // Every ring has the register the layout gives it.
  ghost predicate Mapped(l: Layout, regs: seq<nat>)
    requires l.tcs > 0
  {
    |regs| == Rings(l) && forall i: nat :: i < |regs| ==> regs[i] == Reg(l, i)
  }

  // No two rings share a register, and all registers exist.
  ghost predicate Separate(regs: seq<nat>) {
    && (forall i: nat, j: nat :: i < j < |regs| ==> regs[i] != regs[j])
    && (forall i: nat :: i < |regs| ==> regs[i] < REGISTERS)
  }

  // Both loops of one direction.
  method MapRings(l: Layout) returns (regs: seq<nat>)
    requires Fits(l)
    ensures Mapped(l, regs)
  {
    var base := l.pools * l.tcs;
    regs := MapPools(l, base, base + l.fcoe);
    if l.fcoe > 0 {
      regs := MapFcoe(l, base, regs);
    }
  }

  lemma TwoDistinct(l: Layout, i: nat, j: nat, x: nat, y: nat)
    requires Fits(l) && i < j < Rings(l) && x == Reg(l, i) && y == Reg(l, j)
    ensures x != y
  {
    RegistersDistinct(l, i, j);
  }

  lemma AllDistinct(l: Layout, regs: seq<nat>)
    requires Fits(l) && Mapped(l, regs)
    ensures Separate(regs)
  {
    forall i: nat, j: nat | i < j < |regs| ensures regs[i] != regs[j] {
      TwoDistinct(l, i, j, regs[i], regs[j]);
    }
    forall i: nat | i < |regs| ensures regs[i] < REGISTERS {
      RegInPool(l, i);
    }
  }

  // The rings FCoE uses, its own or the shared one, are all in its traffic class; and
  // so are all rings behind the pools.
  lemma FcoeClass(c: Config, l: Layout, first: nat, count: nat, regs: seq<nat>)
    requires Fits(l) && l.pools >= 1 && l.fcoeTc == c.fcoeTc && Mapped(l, regs) && FcoeRings(c, l, first, count)
    ensures count > 0 ==> first + count <= |regs|
    ensures forall i: nat :: i < |regs| && (first <= i < first + count || l.pools * l.tcs <= i) ==>
              regs[i] % l.q == c.fcoeTc
  {
    MulAtLeast(l.pools, l.tcs);
    forall i: nat | i < |regs| && (first <= i < first + count || l.pools * l.tcs <= i)
      ensures regs[i] % l.q == c.fcoeTc
    {
      RegInPool(l, i);
      if i < l.pools * l.tcs { ModIs(i, 0, i, l.tcs); }
    }
  }

  // Both halves together: for every sensible configuration whose first pool
  // exists, each ring gets the register the layout gives it.
  method CacheRings(c: Config) returns (l: Layout, regs: seq<nat>, first: nat, count: nat)
    requires Sensible(c) && c.offset < MaxPools(c)
    ensures Fits(l) && l.tcs == c.tcs && l.offset == c.offset && l.pools >= 1 && Chosen(c, l)
    ensures Mapped(l, regs) && Separate(regs) && |regs| == l.pools * l.tcs + l.fcoe
    ensures FcoeRings(c, l, first, count) && (count > 0 ==> first + count <= |regs|)
    ensures forall i: nat :: i < |regs| && (first <= i < first + count || l.pools * l.tcs <= i) ==>
              regs[i] % l.q == c.fcoeTc
  {
    l, first, count := SetQueues(c);
    assert l.pools >= 1 by { FitsMeans(l.(pools := 1, fcoe := 0)); }
    regs := MapRings(l);
    AllDistinct(l, regs);
    FcoeClass(c, l, first, count, regs);
  }
}
