/**
 * The receive address registers: RAL/RAH hold a MAC address and a valid bit,
 * MPSAR_LO/HI the pools that listen to it.  A pool register is modelled as the
 * set of its set bits.
 */
module MacFilter {
  import opened Arith

  type Byte = x: int | 0 <= x < 256

  const ERR_INVALID_ARGUMENT := -32

  // `rest` stands for the RAH bits that the driver preserves.
  datatype Rar = Rar(low: nat, high: nat, rest: nat, valid: bool)

  // ----- addresses

  type Mac = m: seq<Byte> | |m| == 6 witness [0, 0, 0, 0, 0, 0]

  function Low(m: Mac): nat {
    var a: int, b: int, c: int, d: int := m[0], m[1], m[2], m[3];
    a + 256 * b + 65536 * c + 16777216 * d
  }

  function High(m: Mac): nat {
    var a: int, b: int := m[4], m[5];
    a + 256 * b
  }

  predicate Zero(m: Mac) { m == [0, 0, 0, 0, 0, 0] }

  // Byte k of a register, the least significant first.
  function RegByte(x: nat, k: nat): nat {
    if k == 0 then x % 256 else RegByte(x / 256, k - 1)
  }

  lemma Digit(q: nat, b: nat, k: nat)
    requires b < 256
    ensures RegByte(256 * q + b, k) == if k == 0 then b else RegByte(q, k - 1)
  {
    ModIs(256 * q + b, q, b, 256);
  }

  // Byte k of the address is byte k of the register pair.
  lemma PackBytes(m: Mac, k: nat)
    requires k < 6
    ensures m[k] == if k < 4 then RegByte(Low(m), k) else RegByte(High(m), k - 4)
  {
    if k < 4 {
      var a: int, b: int, c: int, d: int := m[0], m[1], m[2], m[3];
      Digit(b + 256 * (c + 256 * d), a, k);
      if k >= 1 { Digit(c + 256 * d, b, k - 1); }
      if k >= 2 { Digit(d, c, k - 2); }
    } else {
      Digit(m[5], m[4], k - 4);
    }
  }

  // The registers identify the address.
  lemma PackInjective(m: Mac, m': Mac)
    requires Low(m) == Low(m') && High(m) == High(m')
    ensures m == m'
  {
    forall k | 0 <= k < 6 ensures m[k] == m'[k] {
      PackBytes(m, k);
      PackBytes(m', k);
    }
  }

  lemma PackZero(m: Mac)
    ensures Zero(m) <==> Low(m) == 0 && High(m) == 0
  {
    if Low(m) == 0 && High(m) == 0 { PackInjective(m, [0, 0, 0, 0, 0, 0]); }
  }

  // ----- registers

  datatype Regs = Regs(rar: seq<Rar>, lo: seq<set<nat>>, hi: seq<set<nat>>)

  ghost predicate Shape(g: Regs, n: nat) {
    && |g.rar| == |g.lo| == |g.hi| == n
    && (forall i :: 0 <= i < n ==> forall b :: b in g.lo[i] ==> b < 32)
    && (forall i :: 0 <= i < n ==> forall b :: b in g.hi[i] ==> b < 32)
  }

  predicate Listens(g: Regs, i: nat, pool: nat)
    requires i < |g.lo| && i < |g.hi|
  {
    if pool < 32 then pool in g.lo[i] else pool - 32 in g.hi[i]
  }

  predicate Silent(g: Regs, i: nat)
    requires i < |g.lo| && i < |g.hi|
  {
    g.lo[i] == {} && g.hi[i] == {}
  }

  predicate Holds(r: Rar, m: Mac) { r.low == Low(m) && r.high == High(m) }

  ghost predicate EntryOk(g: Regs, i: nat)
    requires i < |g.rar| && i < |g.lo| && i < |g.hi|
  {
    && (!g.rar[i].valid ==> g.rar[i].low == 0 && g.rar[i].high == 0)
    && (i >= 1 ==> (g.rar[i].valid <==> !Silent(g, i)))
  }

  predicate SameAddress(r: Rar, s: Rar) { r.low == s.low && r.high == s.high }

  // Valid registers hold distinct addresses; every register above 0 is valid
  // exactly when some pool listens; nothing is in use from the high water mark on.
  ghost predicate Consistent(g: Regs, n: nat, highwater: nat) {
    && Shape(g, n) && 1 <= highwater <= n
    && (forall i: nat :: i < n ==> EntryOk(g, i))
    && (forall i: nat, j: nat :: i < j < n && g.rar[i].valid && g.rar[j].valid ==> !SameAddress(g.rar[i], g.rar[j]))
    && (forall i: nat :: highwater <= i < n ==> !g.rar[i].valid)
  }

  predicate Present(g: Regs, m: Mac) {
    exists i: nat :: i < |g.rar| && g.rar[i].valid && Holds(g.rar[i], m)
  }

  predicate Full(g: Regs, n: nat) {
    |g.rar| == n && forall i: nat :: i < n ==> g.rar[i].valid
  }

  function WithPool(g: Regs, i: nat, pool: nat): Regs
    requires i < |g.lo| && i < |g.hi|
  {
    if pool < 32 then g.(lo := g.lo[i := g.lo[i] + {pool}]) else g.(hi := g.hi[i := g.hi[i] + {pool - 32}])
  }

  function WithoutPool(g: Regs, i: nat, pool: nat): Regs
    requires i < |g.lo| && i < |g.hi|
  {
    if pool < 32 then g.(lo := g.lo[i := g.lo[i] - {pool}]) else g.(hi := g.hi[i := g.hi[i] - {pool - 32}])
  }

  function WithoutPools(g: Regs, i: nat): Regs
    requires i < |g.lo| && i < |g.hi|
  {
    g.(lo := g.lo[i := {}], hi := g.hi[i := {}])
  }

  function WithAddress(g: Regs, i: nat, low: nat, high: nat, valid: bool): Regs
    requires i < |g.rar|
  {
    g.(rar := g.rar[i := g.rar[i].(low := low, high := high, valid := valid)])
  }

  // A register given up: no address, no pools.
  function Dropped(g: Regs, i: nat): Regs
    requires i < |g.rar| && i < |g.lo| && i < |g.hi|
  {
    WithoutPools(WithAddress(g, i, 0, 0, false), i)
  }

  lemma SilentStays(g: Regs, i: nat, pool: int)
    requires i < |g.lo| && i < |g.hi| && Silent(g, i)
    ensures WithoutPools(g, i) == g
    ensures pool >= 0 ==> WithoutPool(g, i, pool) == g
  {
    assert g.lo[i := {}] == g.lo && g.hi[i := {}] == g.hi;
    if pool >= 0 { assert g.lo[i] - {pool} == {} && g.hi[i] - {pool - 32} == {}; }
  }

  lemma AddPool(g: Regs, n: nat, highwater: nat, i: nat, pool: nat)
    requires Consistent(g, n, highwater) && i < n && pool < 64 && (i == 0 || g.rar[i].valid)
    ensures Consistent(WithPool(g, i, pool), n, highwater)
    ensures !Silent(WithPool(g, i, pool), i)
  {
    var g' := WithPool(g, i, pool);
    assert !Silent(g', i) by {
      if pool < 32 { assert pool in g'.lo[i]; } else { assert pool - 32 in g'.hi[i]; }
    }
    forall j: nat | j < n ensures EntryOk(g', j) {
      assert EntryOk(g, j);
    }
  }

  lemma Occupy(g: Regs, n: nat, highwater: nat, i: nat, m: Mac, pool: nat)
    requires Consistent(g, n, highwater) && i < n && pool < 64 && !g.rar[i].valid
    requires i <= highwater && !Zero(m) && !Present(g, m)
    ensures Consistent(WithAddress(WithPool(g, i, pool), i, Low(m), High(m), true), n,
                       if i == highwater then highwater + 1 else highwater)
  {
    var h := WithPool(g, i, pool);
    var g' := WithAddress(h, i, Low(m), High(m), true);
    assert !Silent(h, i) by {
      if pool < 32 { assert pool in h.lo[i]; } else { assert pool - 32 in h.hi[i]; }
    }
    PackZero(m);
    forall j: nat | j < n ensures EntryOk(g', j) {
      assert EntryOk(g, j);
    }
    forall a: nat, b: nat | a < b < n && g'.rar[a].valid && g'.rar[b].valid
      ensures !SameAddress(g'.rar[a], g'.rar[b])
    {
      if a == i { assert !Holds(g.rar[b], m); }
      if b == i { assert !Holds(g.rar[a], m); }
    }
  }

  lemma TakePool(g: Regs, n: nat, highwater: nat, i: nat, pool: int)
    requires Consistent(g, n, highwater) && i < n && -1 <= pool < 64
    ensures var h := if pool == -1 then WithoutPools(g, i) else WithoutPool(g, i, pool);
            Consistent(if Silent(h, i) && i != 0 && !Silent(g, i) then Dropped(g, i) else h, n, highwater)
  {
    var h := if pool == -1 then WithoutPools(g, i) else WithoutPool(g, i, pool);
    var g' := if Silent(h, i) && i != 0 && !Silent(g, i) then Dropped(g, i) else h;
    if Silent(g, i) { SilentStays(g, i, pool); }
    forall j: nat | j < n ensures EntryOk(g', j) {
      assert EntryOk(g, j);
    }
  }

  class Card {
    const entries: nat
    var regs: Regs
    var highwater: nat

    ghost predicate Valid()
      reads this
    {
      Consistent(regs, entries, highwater)
    }

    // As the reset code leaves it: the primary address in register 0.
    constructor (entries: nat, primary: Mac)
      requires entries >= 1 && !Zero(primary)
      ensures Valid() && this.entries == entries && highwater == 1
      ensures regs.rar[0].valid && Holds(regs.rar[0], primary) && forall i: nat :: i < entries ==> Silent(regs, i)
    {
      this.entries := entries;
      regs := Regs(seq(entries, i => if i == 0 then Rar(Low(primary), High(primary), 0, true) else Rar(0, 0, 0, false)),
                   seq(entries, _ => {}), seq(entries, _ => {}));
      highwater := 1;
    }

    method SetVmdq(i: nat, pool: nat) returns (r: int)
      requires Shape(regs, entries) && pool < 64
      modifies this`regs
      ensures r == if i < entries then 0 else ERR_INVALID_ARGUMENT
      ensures regs == if i < entries then WithPool(old(regs), i, pool) else old(regs)
    {
      if i >= entries {
        return ERR_INVALID_ARGUMENT;
      }
      if pool < 32 {
        regs := regs.(lo := regs.lo[i := regs.lo[i] + {pool}]);
      } else {
        regs := regs.(hi := regs.hi[i := regs.hi[i] + {pool - 32}]);
      }
      r := 0;
    }

    method SetRar(i: nat, m: Mac, pool: nat, enable: bool) returns (r: int)
      requires Shape(regs, entries) && pool < 64
      modifies this`regs
      ensures r == if i < entries then 0 else ERR_INVALID_ARGUMENT
      ensures regs == if i < entries then WithAddress(WithPool(old(regs), i, pool), i, Low(m), High(m), enable)
                      else old(regs)
    {
      if i >= entries {
        return ERR_INVALID_ARGUMENT;
      }
      var _ := SetVmdq(i, pool);
      regs := WithAddress(regs, i, Low(m), High(m), enable);
      r := 0;
    }

    // ClearRar and ClearVmdq call each other; the second visit finds no pools.
    method ClearRar(i: nat) returns (r: int)
      requires Shape(regs, entries)
      modifies this`regs
      ensures r == if i < entries then 0 else ERR_INVALID_ARGUMENT
      ensures regs == if i < entries then Dropped(old(regs), i) else old(regs)
      decreases if i < entries && !Silent(regs, i) then 1 else 0, 1
    {
      if i >= entries {
        return ERR_INVALID_ARGUMENT;
      }
      regs := WithAddress(regs, i, 0, 0, false);
      var _ := ClearVmdq(i, -1);
      r := 0;
    }

    // pool -1 stands for all pools
    method ClearVmdq(i: nat, pool: int) returns (r: int)
      requires Shape(regs, entries) && -1 <= pool < 64
      modifies this`regs
      ensures r == if i < entries then 0 else ERR_INVALID_ARGUMENT
      ensures i < entries ==>
                var g := if pool == -1 then WithoutPools(old(regs), i) else WithoutPool(old(regs), i, pool);
                regs == if Silent(g, i) && i != 0 && !Silent(old(regs), i) then Dropped(old(regs), i) else g
      ensures i >= entries ==> regs == old(regs)
      decreases if i < entries && !Silent(regs, i) then 1 else 0, 0
    {
      if i >= entries {
        return ERR_INVALID_ARGUMENT;
      }
      r := 0;
      if Silent(regs, i) {
        SilentStays(regs, i, pool);
        return;
      }
      if pool == -1 {
        regs := WithoutPools(regs, i);
      } else {
        regs := WithoutPool(regs, i, pool);
      }
      if Silent(regs, i) && i != 0 {
        var _ := ClearRar(i);
        assert regs.lo == Dropped(old(regs), i).lo && regs.hi == Dropped(old(regs), i).hi;
      }
    }

    // Stop one pool, or all of them, from listening to a register.
    method RemovePool(i: nat, pool: int) returns (r: int)
      requires Valid() && -1 <= pool < 64
      modifies this`regs
      ensures Valid() && r == if i < entries then 0 else ERR_INVALID_ARGUMENT
      ensures i >= entries ==> regs == old(regs)
      ensures i < entries && (i == 0 || regs.rar[i].valid) ==> regs.rar == old(regs).rar
      ensures i < entries ==> forall p: nat :: p < 64 ==>
                (Listens(regs, i, p) <==> Listens(old(regs), i, p) && pool != -1 && p != pool)
      ensures i < entries ==> forall j: nat :: j < entries && j != i ==>
                regs.rar[j] == old(regs).rar[j] && regs.lo[j] == old(regs).lo[j] && regs.hi[j] == old(regs).hi[j]
    {
      if i < entries { TakePool(regs, entries, highwater, i, pool); }
      r := ClearVmdq(i, pool);
    }

    // The register that holds the address below the high water mark, if any,
    // and the first one that is not in use.
    method Search(m: Mac) returns (rar: nat, firstEmpty: int)
      requires Valid() && !Zero(m)
      ensures rar <= highwater && -1 <= firstEmpty < highwater
      ensures rar < highwater ==> regs.rar[rar].valid && Holds(regs.rar[rar], m)
      ensures rar == highwater ==> !Present(regs, m)
      ensures firstEmpty >= 0 ==> !regs.rar[firstEmpty].valid
      ensures firstEmpty == -1 ==> forall i: nat :: i < rar ==> regs.rar[i].valid
    {
      firstEmpty := -1;
      rar := 0;
      PackZero(m);
      while rar < highwater
        invariant rar <= highwater && -1 <= firstEmpty < rar
        invariant forall i: nat :: i < rar ==> !(regs.rar[i].valid && Holds(regs.rar[i], m))
        invariant firstEmpty >= 0 ==> !regs.rar[firstEmpty].valid
        invariant firstEmpty == -1 ==> forall i: nat :: i < rar ==> regs.rar[i].valid
      {
        assert EntryOk(regs, rar);
        if !regs.rar[rar].valid && firstEmpty == -1 {
          firstEmpty := rar;
        } else if regs.rar[rar].high == High(m) {
          if regs.rar[rar].low == Low(m) {
            return;
          }
        }
        rar := rar + 1;
      }
    }

    // The part of an insertion before register 0 is looked after.
    method Place(m: Mac, pool: nat) returns (r: nat)
      requires Valid() && !Zero(m) && pool < 64
      modifies this
      ensures Full(old(regs), entries) && !Present(old(regs), m) ==>
                r == entries && regs == old(regs) && highwater == entries + 1
      ensures !Full(old(regs), entries) || Present(old(regs), m) ==>
                && Valid() && r < entries && regs.rar[r].valid && Holds(regs.rar[r], m)
                && regs.lo == WithPool(old(regs), r, pool).lo && regs.hi == WithPool(old(regs), r, pool).hi
                && regs.rar == old(regs).rar[r := regs.rar[r]]
      ensures Present(old(regs), m) ==> regs.rar == old(regs).rar && highwater == old(highwater)
      ensures !Present(old(regs), m) && r < entries ==> !old(regs).rar[r].valid
    {
      var firstEmpty;
      r, firstEmpty := Search(m);
      if r < highwater {
        AddPool(regs, entries, highwater, r, pool);
        var _ := SetVmdq(r, pool);
      } else if firstEmpty != -1 {
        r := firstEmpty;
        Occupy(regs, entries, highwater, r, m, pool);
        var _ := SetRar(r, m, pool, true);
      } else {
        if r < entries { Occupy(regs, entries, highwater, r, m, pool); }
        var _ := SetRar(r, m, pool, true);
        highwater := highwater + 1;
      }
    }

    // Let a pool listen to an address, in the register that has it already or
    // in a new one.  The error return of the original cannot be reached: with
    // every register in use, the call reports the number of registers, stores
    // nothing and moves the high water mark beyond the table.
    method InsertMac(m: Mac, pool: nat) returns (r: int)
      requires Valid() && !Zero(m) && pool < 64
      modifies this
      ensures !Full(old(regs), entries) || Present(old(regs), m) ==>
                && Valid() && 0 <= r < entries && regs.rar[r].valid && Holds(regs.rar[r], m)
                && (forall p: nat :: p < 64 ==> (Listens(regs, r, p) <==>
                      if r == 0 && p == 0 then false else Listens(old(regs), r, p) || p == pool))
                && (forall j: nat :: j < entries && j != r ==>
                      regs.rar[j] == old(regs).rar[j] && regs.lo[j] == old(regs).lo[j] && regs.hi[j] == old(regs).hi[j])
      ensures Present(old(regs), m) ==> regs.rar == old(regs).rar && highwater == old(highwater)
      ensures !Present(old(regs), m) && 0 <= r < entries ==> !old(regs).rar[r].valid
      ensures Full(old(regs), entries) && !Present(old(regs), m) ==>
                r == entries && regs == old(regs) && highwater == entries + 1
    {
      var rar := Place(m, pool);
      if rar == 0 {
        var _ := RemovePool(rar, 0);
      }
      r := rar;
    }
  }

  // ----- whole runs

  datatype Request = Insert(m: Mac, pool: nat) | Remove(rar: nat, which: int)

  predicate Proper(q: Request) {
    match q
    case Insert(m, pool) => !Zero(m) && pool < 64
    case Remove(rar, which) => -1 <= which < 64
  }

  // Any sequence of requests keeps the registers consistent, up to the first
  // insertion of a new address into a table with every register in use.
  method Replay(card: Card, requests: seq<Request>) returns (done: nat)
    requires card.Valid() && forall i :: 0 <= i < |requests| ==> Proper(requests[i])
    modifies card
    ensures card.Valid() && done <= |requests|
    ensures done < |requests| ==>
              requests[done].Insert? && Full(card.regs, card.entries) && !Present(card.regs, requests[done].m)
  {
    done := 0;
    while done < |requests|
      invariant card.Valid() && done <= |requests|
    {
      match requests[done] {
        case Insert(m, pool) =>
          if Full(card.regs, card.entries) && !Present(card.regs, m) {
            return;
          }
          var _ := card.InsertMac(m, pool);
        case Remove(rar, which) =>
          var _ := card.RemovePool(rar, which);
      }
      done := done + 1;
    }
  }

  // ----- what the registers mean

  type Filters = map<Mac, set<nat>>

  function Pools(f: Filters, m: Mac): set<nat> { if m in f then f[m] else {} }

  function Assign(f: Filters, m: Mac, pools: set<nat>): Filters {
    if pools == {} then f - {m} else f[m := pools]
  }

  // A pool joins or leaves an address; which == -1 stands for all pools.
  datatype Wish = Join(m: Mac, pool: nat) | Leave(m: Mac, which: int)

  predicate ProperWish(q: Wish) {
    match q
    case Join(m, pool) => !Zero(m) && pool < 64
    case Leave(m, which) => -1 <= which < 64
  }

  // The default pool never listens to the primary address by a filter.
  function Change(primary: Mac, f: Filters, q: Wish): Filters {
    match q
    case Join(m, pool) => Assign(f, m, (Pools(f, m) + {pool}) - if m == primary then {0} else {})
    case Leave(m, which) => Assign(f, m, set p | p in Pools(f, m) && which != -1 && p != which)
  }

  function Meaning(primary: Mac, wishes: seq<Wish>): Filters {
    if wishes == [] then map[]
    else Change(primary, Meaning(primary, wishes[..|wishes| - 1]), wishes[|wishes| - 1])
  }

  predicate Concerns(q: Wish, m: Mac, pool: nat) {
    match q
    case Join(m', pool') => m' == m && pool' == pool
    case Leave(m', which) => m' == m && (which == -1 || which == pool)
  }

  lemma {:induction false} DefaultPool(primary: Mac, wishes: seq<Wish>)
    ensures 0 !in Pools(Meaning(primary, wishes), primary)
  {
    if wishes != [] { DefaultPool(primary, wishes[..|wishes| - 1]); }
  }

  // A pool listens to an address exactly when the last wish about the two was to
  // join.
  lemma {:induction false} LastWishDecides(primary: Mac, wishes: seq<Wish>, j: nat, m: Mac, pool: nat)
    requires j < |wishes| && Concerns(wishes[j], m, pool)
    requires forall i :: j < i < |wishes| ==> !Concerns(wishes[i], m, pool)
    ensures pool in Pools(Meaning(primary, wishes), m) <==> wishes[j].Join? && !(m == primary && pool == 0)
  {
    var n := |wishes| - 1;
    DefaultPool(primary, wishes[..n]);
    if j < n {
      LastWishDecides(primary, wishes[..n], j, m, pool);
      assert !Concerns(wishes[n], m, pool);
    }
  }

  predicate Hears(g: Regs, m: Mac, pool: nat) {
    exists i: nat ::
      i < |g.rar| && i < |g.lo| && i < |g.hi| && g.rar[i].valid && Holds(g.rar[i], m) && Listens(g, i, pool)
  }

  ghost predicate Represents(g: Regs, f: Filters) {
    forall m: Mac, pool: nat :: !Zero(m) && pool < 64 ==> (Hears(g, m, pool) <==> pool in Pools(f, m))
  }

  lemma OneHolder(g: Regs, n: nat, highwater: nat, i: nat, j: nat, m: Mac)
    requires Consistent(g, n, highwater) && i < n && j < n
    requires g.rar[i].valid && Holds(g.rar[i], m) && g.rar[j].valid && Holds(g.rar[j], m)
    ensures i == j
  {
    assert SameAddress(g.rar[i], g.rar[j]) && SameAddress(g.rar[j], g.rar[i]);
  }

  lemma HeardAt(g: Regs, n: nat, highwater: nat, i: nat, m: Mac, pool: nat)
    requires Consistent(g, n, highwater) && i < n && g.rar[i].valid && Holds(g.rar[i], m)
    ensures Hears(g, m, pool) <==> Listens(g, i, pool)
  {
    if j: nat :| j < n && g.rar[j].valid && Holds(g.rar[j], m) && Listens(g, j, pool) {
      OneHolder(g, n, highwater, i, j, m);
    }
  }

  // Registers other than r are the same.
  ghost predicate Elsewhere(g: Regs, g': Regs, n: nat, r: nat) {
    && |g.rar| == |g.lo| == |g.hi| == n && |g'.rar| == |g'.lo| == |g'.hi| == n
    && forall j: nat :: j < n && j != r ==> g'.rar[j] == g.rar[j] && g'.lo[j] == g.lo[j] && g'.hi[j] == g.hi[j]
  }

  // An address that register r does not hold is heard as before.
  lemma HeardElsewhere(g: Regs, g': Regs, n: nat, r: nat, m: Mac, pool: nat)
    requires Elsewhere(g, g', n, r) && r < n
    requires !(g.rar[r].valid && Holds(g.rar[r], m)) && !(g'.rar[r].valid && Holds(g'.rar[r], m))
    ensures Hears(g', m, pool) <==> Hears(g, m, pool)
  {
    if j: nat :| j < n && g.rar[j].valid && Holds(g.rar[j], m) && Listens(g, j, pool) {
      assert Listens(g', j, pool);
    }
    if j: nat :| j < n && g'.rar[j].valid && Holds(g'.rar[j], m) && Listens(g', j, pool) {
      assert Listens(g, j, pool);
    }
  }

  // What an insertion that settled on register r has done.
  ghost predicate Joined(g: Regs, g': Regs, n: nat, r: nat, m: Mac, pool: nat) {
    && r < n && Elsewhere(g, g', n, r) && g'.rar[r].valid && Holds(g'.rar[r], m)
    && (Present(g, m) ==> g'.rar == g.rar) && (!Present(g, m) ==> !g.rar[r].valid)
    && forall p: nat :: p < 64 ==>
         (Listens(g', r, p) <==> if r == 0 && p == 0 then false else Listens(g, r, p) || p == pool)
  }

  ghost predicate HasPrimary(g: Regs, primary: Mac) { |g.rar| > 0 && g.rar[0].valid && Holds(g.rar[0], primary) }

  // Register 0 is taken for the primary address and for no other.
  lemma PrimaryRegister(g: Regs, g': Regs, n: nat, highwater: nat, r: nat, primary: Mac, m: Mac, pool: nat)
    requires Consistent(g', n, highwater) && HasPrimary(g, primary) && Joined(g, g', n, r, m, pool)
    ensures HasPrimary(g', primary) && (r == 0 <==> m == primary)
  {
    if r == 0 { PackInjective(m, primary); }
    if m == primary { OneHolder(g', n, highwater, 0, r, m); }
  }

  lemma JoinHeard(g: Regs, g': Regs, n: nat, hw: nat, hw': nat, r: nat, primary: Mac, m: Mac, pool: nat, p: nat)
    requires Consistent(g, n, hw) && Consistent(g', n, hw') && HasPrimary(g, primary) && p < 64
    requires Joined(g, g', n, r, m, pool)
    ensures Hears(g', m, p) <==> (Hears(g, m, p) || p == pool) && !(m == primary && p == 0)
  {
    PrimaryRegister(g, g', n, hw', r, primary, m, pool);
    HeardAt(g', n, hw', r, m, p);
    if Present(g, m) {
      HeardAt(g, n, hw, r, m, p);
    } else {
      assert EntryOk(g, r);
    }
  }

  lemma JoinRepresents(g: Regs, g': Regs, n: nat, hw: nat, hw': nat, r: nat, primary: Mac, f: Filters,
                       m: Mac, pool: nat)
    requires Consistent(g, n, hw) && Consistent(g', n, hw') && HasPrimary(g, primary) && Represents(g, f)
    requires Joined(g, g', n, r, m, pool) && !Zero(m) && pool < 64
    ensures Represents(g', Change(primary, f, Join(m, pool)))
  {
    forall m': Mac, p: nat | !Zero(m') && p < 64
      ensures Hears(g', m', p) <==> p in Pools(Change(primary, f, Join(m, pool)), m')
    {
      if m' == m {
        JoinHeard(g, g', n, hw, hw', r, primary, m, pool, p);
      } else {
        if Holds(g'.rar[r], m') { PackInjective(m, m'); }
        HeardElsewhere(g, g', n, r, m', p);
      }
    }
  }

  // What a removal of pools from register r has done.
  ghost predicate Parted(g: Regs, g': Regs, n: nat, r: nat, which: int) {
    && r < n && Elsewhere(g, g', n, r) && (r == 0 || g'.rar[r].valid ==> g'.rar == g.rar)
    && forall p: nat :: p < 64 ==> (Listens(g', r, p) <==> Listens(g, r, p) && which != -1 && p != which)
  }

  lemma LeaveHeard(g: Regs, g': Regs, n: nat, hw: nat, r: nat, m: Mac, which: int, p: nat)
    requires Consistent(g, n, hw) && Consistent(g', n, hw) && Parted(g, g', n, r, which) && p < 64
    requires g.rar[r].valid && Holds(g.rar[r], m)
    ensures Hears(g', m, p) <==> Hears(g, m, p) && which != -1 && p != which
  {
    HeardAt(g, n, hw, r, m, p);
    if r == 0 || g'.rar[r].valid {
      HeardAt(g', n, hw, r, m, p);
    } else {
      assert EntryOk(g', r);
      if j: nat :| j < n && g'.rar[j].valid && Holds(g'.rar[j], m) && Listens(g', j, p) {
        OneHolder(g, n, hw, j, r, m);
      }
    }
  }

  lemma LeaveRepresents(g: Regs, g': Regs, n: nat, hw: nat, r: nat, primary: Mac, f: Filters, m: Mac, which: int)
    requires Consistent(g, n, hw) && Consistent(g', n, hw) && Represents(g, f) && Parted(g, g', n, r, which)
    requires g.rar[r].valid && Holds(g.rar[r], m)
    ensures Represents(g', Change(primary, f, Leave(m, which)))
  {
    forall m': Mac, p: nat | !Zero(m') && p < 64
      ensures Hears(g', m', p) <==> p in Pools(Change(primary, f, Leave(m, which)), m')
    {
      if m' == m {
        LeaveHeard(g, g', n, hw, r, m, which, p);
      } else {
        if Holds(g.rar[r], m') { PackInjective(m, m'); }
        HeardElsewhere(g, g', n, r, m', p);
      }
    }
  }

  // The registers a caller remembers for the addresses that some pool listens to.
  ghost predicate Remembered(g: Regs, f: Filters, where: map<Mac, nat>) {
    && (forall m :: m in where ==>
          !Zero(m) && where[m] < |g.rar| && g.rar[where[m]].valid && Holds(g.rar[where[m]], m))
    && (forall m :: m in f ==> m in where && f[m] != {} && forall p :: p in f[m] ==> p < 64)
  }

  ghost predicate Serving(g: Regs, n: nat, hw: nat, primary: Mac, f: Filters, where: map<Mac, nat>) {
    Consistent(g, n, hw) && HasPrimary(g, primary) && Represents(g, f) && Remembered(g, f, where)
  }

  lemma ServingStart(g: Regs, n: nat, hw: nat, primary: Mac)
    requires Consistent(g, n, hw) && HasPrimary(g, primary) && forall i: nat :: i < n ==> Silent(g, i)
    ensures Serving(g, n, hw, primary, map[], map[])
  {
    forall m: Mac, pool: nat ensures !Hears(g, m, pool) {
      forall i: nat | i < n ensures !Listens(g, i, pool) {
        assert Silent(g, i);
      }
    }
  }

  lemma JoinRemembers(g: Regs, g': Regs, n: nat, r: nat, primary: Mac, f: Filters, where: map<Mac, nat>,
                      m: Mac, pool: nat)
    requires Joined(g, g', n, r, m, pool) && Remembered(g, f, where) && !Zero(m) && pool < 64
    ensures Remembered(g', Change(primary, f, Join(m, pool)), where[m := r])
  {
  }

  lemma ServingJoin(g: Regs, g': Regs, n: nat, hw: nat, hw': nat, r: nat, primary: Mac, f: Filters,
                    where: map<Mac, nat>, m: Mac, pool: nat)
    requires Serving(g, n, hw, primary, f, where) && Consistent(g', n, hw')
    requires Joined(g, g', n, r, m, pool) && !Zero(m) && pool < 64
    ensures Serving(g', n, hw', primary, Change(primary, f, Join(m, pool)), where[m := r])
  {
    PrimaryRegister(g, g', n, hw', r, primary, m, pool);
    JoinRepresents(g, g', n, hw, hw', r, primary, f, m, pool);
    JoinRemembers(g, g', n, r, primary, f, where, m, pool);
  }

  // While some pool listens, the register stays valid.
  lemma StillValid(g: Regs, g': Regs, n: nat, hw: nat, r: nat, m: Mac, which: int, p: nat)
    requires Consistent(g, n, hw) && Parted(g, g', n, r, which) && Hears(g', m, p)
    requires g.rar[r].valid && Holds(g.rar[r], m)
    ensures g'.rar[r].valid
  {
    var j: nat :| j < n && g'.rar[j].valid && Holds(g'.rar[j], m) && Listens(g', j, p);
    if j != r { OneHolder(g, n, hw, j, r, m); }
  }

  lemma LeaveValid(g: Regs, g': Regs, n: nat, hw: nat, r: nat, f: Filters, m: Mac, which: int)
    requires Consistent(g, n, hw) && Parted(g, g', n, r, which) && Represents(g', f)
    requires g.rar[r].valid && Holds(g.rar[r], m) && !Zero(m)
    requires m in f && f[m] != {} && forall p :: p in f[m] ==> p < 64
    ensures g'.rar[r].valid
  {
    var p :| p in f[m];
    StillValid(g, g', n, hw, r, m, which, p);
  }

  lemma LeaveRemembers(g: Regs, g': Regs, n: nat, r: nat, primary: Mac, f: Filters, where: map<Mac, nat>,
                       m: Mac, which: int)
    requires Parted(g, g', n, r, which) && Remembered(g, f, where) && m in where && where[m] == r
    requires m in Change(primary, f, Leave(m, which)) ==> g'.rar[r].valid
    ensures var f' := Change(primary, f, Leave(m, which));
            Remembered(g', f', if m in f' then where else where - {m})
  {
    forall m' | m' in where && m' != m ensures where[m'] != r {
      if where[m'] == r { PackInjective(m, m'); }
    }
  }

  lemma ServingLeave(g: Regs, g': Regs, n: nat, hw: nat, r: nat, primary: Mac, f: Filters, where: map<Mac, nat>,
                     m: Mac, which: int)
    requires Serving(g, n, hw, primary, f, where) && Consistent(g', n, hw)
    requires m in where && where[m] == r && Parted(g, g', n, r, which)
    ensures var f' := Change(primary, f, Leave(m, which));
            Serving(g', n, hw, primary, f', if m in f' then where else where - {m})
  {
    var f' := Change(primary, f, Leave(m, which));
    LeaveRepresents(g, g', n, hw, r, primary, f, m, which);
    if m in f' { LeaveValid(g, g', n, hw, r, f', m, which); }
    LeaveRemembers(g, g', n, r, primary, f, where, m, which);
  }

  // A pool leaves an address that nobody listens to.
  lemma NothingToLeave(primary: Mac, f: Filters, m: Mac, which: int)
    requires m !in f
    ensures Change(primary, f, Leave(m, which)) == f
  {
  }

  // A caller that remembers the register each insertion returned.
  method ServeJoin(card: Card, ghost primary: Mac, ghost f: Filters, where: map<Mac, nat>, m: Mac, pool: nat)
    returns (where': map<Mac, nat>)
    requires Serving(card.regs, card.entries, card.highwater, primary, f, where) && !Zero(m) && pool < 64
    requires !Full(card.regs, card.entries) || Present(card.regs, m)
    modifies card
    ensures Serving(card.regs, card.entries, card.highwater, primary, Change(primary, f, Join(m, pool)), where')
  {
    ghost var g, hw := card.regs, card.highwater;
    var r := card.InsertMac(m, pool);
    ServingJoin(g, card.regs, card.entries, hw, card.highwater, r, primary, f, where, m, pool);
    where' := where[m := r];
  }

  method ServeLeave(card: Card, primary: Mac, f: Filters, where: map<Mac, nat>, m: Mac, which: int)
    returns (where': map<Mac, nat>)
    requires Serving(card.regs, card.entries, card.highwater, primary, f, where) && -1 <= which < 64
    modifies card
    ensures Serving(card.regs, card.entries, card.highwater, primary, Change(primary, f, Leave(m, which)), where')
  {
    if m in where {
      ghost var g := card.regs;
      var _ := card.RemovePool(where[m], which);
      ServingLeave(g, card.regs, card.entries, card.highwater, where[m], primary, f, where, m, which);
      where' := if m in Change(primary, f, Leave(m, which)) then where else where - {m};
    } else {
      NothingToLeave(primary, f, m, which);
      where' := where;
    }
  }

  // A new address on a full table cannot be stored.
  predicate Refused(g: Regs, n: nat, q: Wish) { q.Join? && Full(g, n) && !Present(g, q.m) }

  method ServeOne(card: Card, primary: Mac, f: Filters, where: map<Mac, nat>, q: Wish) returns (where': map<Mac, nat>)
    requires Serving(card.regs, card.entries, card.highwater, primary, f, where) && ProperWish(q)
    requires !Refused(card.regs, card.entries, q)
    modifies card
    ensures Serving(card.regs, card.entries, card.highwater, primary, Change(primary, f, q), where')
  {
    match q {
      case Join(m, pool) => where' := ServeJoin(card, primary, f, where, m, pool);
      case Leave(m, which) => where' := ServeLeave(card, primary, f, where, m, which);
    }
  }

  // After any sequence of wishes the registers mean what the wishes mean, up to
  // the first one that is refused.
  method Serve(card: Card, primary: Mac, wishes: seq<Wish>) returns (done: nat)
    requires card.Valid() && HasPrimary(card.regs, primary)
    requires forall i: nat :: i < card.entries ==> Silent(card.regs, i)
    requires forall i :: 0 <= i < |wishes| ==> ProperWish(wishes[i])
    modifies card
    ensures card.Valid() && done <= |wishes| && Represents(card.regs, Meaning(primary, wishes[..done]))
    ensures done < |wishes| ==> Refused(card.regs, card.entries, wishes[done])
  {
    done := 0;
    var f: Filters, where: map<Mac, nat> := map[], map[];
    ServingStart(card.regs, card.entries, card.highwater, primary);
    while done < |wishes| && !Refused(card.regs, card.entries, wishes[done])
      invariant done <= |wishes| && f == Meaning(primary, wishes[..done])
      invariant Serving(card.regs, card.entries, card.highwater, primary, f, where)
    {
      assert wishes[..done + 1][..done] == wishes[..done];
      where := ServeOne(card, primary, f, where, wishes[done]);
      f := Change(primary, f, wishes[done]);
      done := done + 1;
    }
  }
}
