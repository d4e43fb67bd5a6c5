/**
 * The VLAN filter of the card: VLVF names a VLAN per slot, VLVFB holds the pools
 * of each slot in two registers, and VFTA has one bit per VLAN.  Together they
 * represent one map from VLAN id to the set of subscribed pools.
 *
 * A register that is only a bit string is modelled as the set of its set bits.
 */
module VlanFilter {

  const ENTRIES := 64
  const VIEN := 0x8000_0000
  const ERR_PARAM := -5
  const ERR_NO_SPACE := -25

  // ----- the map, and what the driver's calls mean for it

  // VLAN id to its subscribers; only VLANs with a subscriber are keys.
  type Subscriptions = map<nat, set<nat>>

  function Pools(m: Subscriptions, vlan: nat): set<nat> { if vlan in m then m[vlan] else {} }

  function Assign(m: Subscriptions, vlan: nat, pools: set<nat>): Subscriptions {
    if pools == {} then m - {vlan} else m[vlan := pools]
  }

  // VLAN 0 has a slot of its own; the others share the remaining slots.
  predicate NoRoom(m: Subscriptions, vlan: nat) {
    vlan != 0 && vlan !in m && |m.Keys - {0}| >= ENTRIES - 1
  }

  function Change(m: Subscriptions, vlan: nat, pool: nat, on: bool): (Subscriptions, int) {
    if vlan > 4095 then (m, ERR_PARAM)
    else if NoRoom(m, vlan) then (m, ERR_NO_SPACE)
    else (Assign(m, vlan, if on then Pools(m, vlan) + {pool} else Pools(m, vlan) - {pool}), 0)
  }

  // ----- registers

  datatype Regs = Regs(vfta: seq<set<nat>>, vlvf: seq<nat>, vlvfb: seq<set<nat>>)

  ghost predicate Shape(g: Regs) {
    && |g.vfta| == 128 && |g.vlvf| == ENTRIES && |g.vlvfb| == 2 * ENTRIES
    && (forall i :: 0 <= i < 2 * ENTRIES ==> forall b :: b in g.vlvfb[i] ==> b < 32)
  }

  predicate PoolBit(g: Regs, slot: nat, pool: nat)
    requires |g.vlvfb| == 2 * ENTRIES && slot < ENTRIES
  {
    if pool < 32 then pool in g.vlvfb[2 * slot] else pool - 32 in g.vlvfb[2 * slot + 1]
  }

  ghost function SlotPools(g: Regs, slot: nat): set<nat>
    requires Shape(g) && slot < ENTRIES
  {
    set p: nat | p < 64 && PoolBit(g, slot, p)
  }

  // The VLAN of a slot that is in use.
  function Vlan(x: nat): nat { if x >= VIEN then x - VIEN else 0 }

  predicate VftaBit(g: Regs, vlan: nat)
    requires |g.vfta| == 128 && vlan < 4096
  {
    vlan % 32 in g.vfta[vlan / 32]
  }

  ghost predicate SlotOk(g: Regs, slot: nat)
    requires Shape(g) && slot < ENTRIES
  {
    && (g.vlvf[slot] == 0 <==> g.vlvfb[2 * slot] == {} && g.vlvfb[2 * slot + 1] == {})
    && (g.vlvf[slot] != 0 ==> if slot == 0 then g.vlvf[slot] == VIEN else VIEN < g.vlvf[slot] < VIEN + 4096)
  }

  ghost predicate InSlot(g: Regs, vlan: nat, slot: nat)
    requires Shape(g) && slot < ENTRIES
  {
    g.vlvf[slot] == VIEN + vlan
  }

  ghost predicate SlotsOk(g: Regs)
    requires Shape(g)
  {
    && (forall slot: nat :: slot < ENTRIES ==> SlotOk(g, slot))
    && (forall i: nat, j: nat :: i < j < ENTRIES && g.vlvf[i] == g.vlvf[j] ==> g.vlvf[i] == 0)
  }

  ghost predicate HasSlot(g: Regs, vlan: nat)
    requires Shape(g)
  {
    exists slot: nat :: slot < ENTRIES && InSlot(g, vlan, slot)
  }

  // The registers represent the map m.
  ghost predicate Represents(g: Regs, m: Subscriptions) {
    && Shape(g) && SlotsOk(g)
    && (forall v: nat :: v in m <==> HasSlot(g, v))
    && (forall slot: nat :: slot < ENTRIES && g.vlvf[slot] != 0 ==>
          Vlan(g.vlvf[slot]) in m && m[Vlan(g.vlvf[slot])] == SlotPools(g, slot))
    && (forall v: nat :: v < 4096 ==> (VftaBit(g, v) <==> v in m))
  }

  // ----- counting slots

  ghost function Used(g: Regs, n: nat): set<nat>
    requires Shape(g) && 1 <= n <= ENTRIES
  {
    if n == 1 then {}
    else if g.vlvf[n - 1] == 0 then Used(g, n - 1)
    else Used(g, n - 1) + {Vlan(g.vlvf[n - 1])}
  }

  lemma {:induction false} UsedIs(g: Regs, n: nat, v: nat)
    requires Shape(g) && SlotsOk(g) && 1 <= n <= ENTRIES
    ensures v in Used(g, n) <==> exists slot: nat :: 1 <= slot < n && InSlot(g, v, slot)
  {
    if n > 1 {
      UsedIs(g, n - 1, v);
      assert SlotOk(g, n - 1);
      assert InSlot(g, v, n - 1) <==> g.vlvf[n - 1] == VIEN + v;
    }
  }

  lemma {:induction false} UsedCount(g: Regs, n: nat)
    requires Shape(g) && SlotsOk(g) && 1 <= n <= ENTRIES
    ensures |Used(g, n)| <= n - 1
    ensures |Used(g, n)| == n - 1 <==> forall slot: nat :: 1 <= slot < n ==> g.vlvf[slot] != 0
  {
    if n > 1 {
      UsedCount(g, n - 1);
      if g.vlvf[n - 1] != 0 {
        assert SlotOk(g, n - 1);
        UsedIs(g, n - 1, Vlan(g.vlvf[n - 1]));
      }
    }
  }

  lemma UsedAll(g: Regs, m: Subscriptions)
    requires Represents(g, m)
    ensures Used(g, ENTRIES) == m.Keys - {0}
  {
    forall v: nat ensures v in Used(g, ENTRIES) <==> v in m && v != 0 {
      UsedIs(g, ENTRIES, v);
      assert v in m <==> HasSlot(g, v);
      assert forall slot: nat :: slot < ENTRIES && InSlot(g, v, slot) ==> SlotOk(g, slot);
    }
  }

  // There is no free slot exactly when 63 VLANs other than 0 are subscribed.
  lemma FullIff(g: Regs, m: Subscriptions)
    requires Represents(g, m)
    ensures |m.Keys - {0}| >= ENTRIES - 1 <==> forall slot: nat :: 1 <= slot < ENTRIES ==> g.vlvf[slot] != 0
  {
    UsedAll(g, m);
    UsedCount(g, ENTRIES);
  }

  // The registers determine the map.
  lemma OneMeaning(g: Regs, m: Subscriptions, m': Subscriptions)
    requires Represents(g, m) && Represents(g, m')
    ensures m == m'
  {
    forall v: nat | v in m ensures v in m' && m[v] == m'[v] {
      assert HasSlot(g, v);
      var slot: nat :| slot < ENTRIES && InSlot(g, v, slot);
      assert g.vlvf[slot] != 0 && Vlan(g.vlvf[slot]) == v;
    }
    forall v: nat | v in m' ensures v in m {
      assert HasSlot(g, v);
    }
  }

  // ----- one change

  function Register(slot: nat, pool: nat): nat { 2 * slot + if pool < 32 then 0 else 1 }

  function Flip(bits: set<nat>, bit: nat, on: bool): set<nat> { if on then bits + {bit} else bits - {bit} }

  // The registers after one call that settled on `slot`.
  function Updated(g: Regs, slot: nat, vlan: nat, pool: nat, on: bool): Regs
    requires |g.vfta| == 128 && |g.vlvf| == ENTRIES && |g.vlvfb| == 2 * ENTRIES
    requires slot < ENTRIES && vlan < 4096 && pool < 64
  {
    var r := Register(slot, pool);
    var vlvfb := g.vlvfb[r := Flip(g.vlvfb[r], pool % 32, on)];
    var left := vlvfb[2 * slot] != {} || vlvfb[2 * slot + 1] != {};
    Regs(g.vfta[vlan / 32 := Flip(g.vfta[vlan / 32], vlan % 32, left)],
         g.vlvf[slot := if left then VIEN + vlan else 0],
         vlvfb)
  }

  // The slot is the VLAN's own, or free and of the right kind.
  ghost predicate Suits(g: Regs, vlan: nat, slot: nat)
    requires Shape(g)
  {
    && slot < ENTRIES && (slot == 0 <==> vlan == 0)
    && (InSlot(g, vlan, slot) || (g.vlvf[slot] == 0 && !HasSlot(g, vlan)))
  }

  lemma PoolsOfSlot(g: Regs, m: Subscriptions, vlan: nat, slot: nat)
    requires Represents(g, m) && Suits(g, vlan, slot)
    ensures SlotPools(g, slot) == Pools(m, vlan)
    ensures forall p :: p in Pools(m, vlan) ==> p < 64
  {
    assert SlotOk(g, slot);
    if InSlot(g, vlan, slot) { assert Vlan(g.vlvf[slot]) == vlan; }
  }

  lemma EmptySlot(g: Regs, slot: nat)
    requires Shape(g) && slot < ENTRIES
    ensures SlotPools(g, slot) == {} <==> g.vlvfb[2 * slot] == {} && g.vlvfb[2 * slot + 1] == {}
  {
    var lo, hi := g.vlvfb[2 * slot], g.vlvfb[2 * slot + 1];
    if lo != {} {
      var b :| b in lo;
      assert PoolBit(g, slot, b);
      assert b in SlotPools(g, slot);
    }
    if hi != {} {
      var b :| b in hi;
      assert PoolBit(g, slot, b + 32);
      assert b + 32 in SlotPools(g, slot);
    }
  }

  lemma UpdatedPools(g: Regs, slot: nat, vlan: nat, pool: nat, on: bool, other: nat)
    requires Shape(g) && slot < ENTRIES && other < ENTRIES && vlan < 4096 && pool < 64
    ensures var g' := Updated(g, slot, vlan, pool, on);
            && Shape(g')
            && SlotPools(g', other) ==
               (if other == slot then Flip(SlotPools(g, slot), pool, on) else SlotPools(g, other))
            && (g'.vlvf[slot] != 0 <==> SlotPools(g', slot) != {})
  {
    var g' := Updated(g, slot, vlan, pool, on);
    forall p: nat | p < 64
      ensures PoolBit(g', other, p) <==> if other == slot && p == pool then on else PoolBit(g, other, p)
    {
    }
    EmptySlot(g', slot);
  }

  lemma UpdatedSlots(g: Regs, m: Subscriptions, vlan: nat, slot: nat, pool: nat, on: bool)
    requires Represents(g, m) && Suits(g, vlan, slot) && vlan < 4096 && pool < 64
    ensures var g' := Updated(g, slot, vlan, pool, on); Shape(g') && SlotsOk(g')
  {
    var g' := Updated(g, slot, vlan, pool, on);
    UpdatedPools(g, slot, vlan, pool, on, slot);
    forall i: nat | i < ENTRIES ensures SlotOk(g', i) {
      assert SlotOk(g, i);
    }
    forall i: nat, j: nat | i < j < ENTRIES && g'.vlvf[i] == g'.vlvf[j] ensures g'.vlvf[i] == 0 {
      assert HasSlot(g, vlan) || forall k: nat :: k < ENTRIES ==> !InSlot(g, vlan, k);
      assert InSlot(g, vlan, i) <==> g.vlvf[i] == VIEN + vlan;
      assert InSlot(g, vlan, j) <==> g.vlvf[j] == VIEN + vlan;
    }
  }

  // The VLAN of the call afterwards.
  lemma UpdatedOwn(g: Regs, m: Subscriptions, vlan: nat, slot: nat, pool: nat, on: bool)
    requires Represents(g, m) && Suits(g, vlan, slot) && vlan < 4096 && pool < 64
    ensures var g' := Updated(g, slot, vlan, pool, on); HasSlot(g', vlan) <==> g'.vlvf[slot] != 0
  {
    var g' := Updated(g, slot, vlan, pool, on);
    assert SlotOk(g, slot);
    assert InSlot(g', vlan, slot) <==> g'.vlvf[slot] != 0;
    forall i: nat | i < ENTRIES && i != slot ensures !InSlot(g', vlan, i) {
      assert InSlot(g', vlan, i) ==> InSlot(g, vlan, i);
    }
  }

  // Any other VLAN in any slot.
  lemma UpdatedOther(g: Regs, vlan: nat, slot: nat, pool: nat, on: bool, v: nat, i: nat)
    requires Shape(g) && SlotsOk(g) && Suits(g, vlan, slot) && vlan < 4096 && pool < 64 && v != vlan && i < ENTRIES
    ensures InSlot(Updated(g, slot, vlan, pool, on), v, i) <==> InSlot(g, v, i)
  {
    assert SlotOk(g, slot);
  }

  lemma UpdatedHasSlot(g: Regs, m: Subscriptions, vlan: nat, slot: nat, pool: nat, on: bool, v: nat)
    requires Represents(g, m) && Suits(g, vlan, slot) && vlan < 4096 && pool < 64
    ensures var g' := Updated(g, slot, vlan, pool, on);
            HasSlot(g', v) <==> if v == vlan then g'.vlvf[slot] != 0 else HasSlot(g, v)
  {
    if v == vlan {
      UpdatedOwn(g, m, vlan, slot, pool, on);
    } else {
      forall i: nat | i < ENTRIES
        ensures InSlot(Updated(g, slot, vlan, pool, on), v, i) <==> InSlot(g, v, i)
      {
        UpdatedOther(g, vlan, slot, pool, on, v, i);
      }
    }
  }

  lemma UpdatedVfta(g: Regs, slot: nat, vlan: nat, pool: nat, on: bool, v: nat)
    requires Shape(g) && slot < ENTRIES && vlan < 4096 && pool < 64 && v < 4096
    ensures var g' := Updated(g, slot, vlan, pool, on);
            VftaBit(g', v) <==> if v == vlan then g'.vlvf[slot] != 0 else VftaBit(g, v)
  {
  }

  lemma OtherVlan(g: Regs, vlan: nat, slot: nat, i: nat)
    requires Shape(g) && SlotsOk(g) && Suits(g, vlan, slot) && i < ENTRIES && i != slot && g.vlvf[i] != 0
    ensures Vlan(g.vlvf[i]) != vlan
  {
    assert SlotOk(g, i);
    if Vlan(g.vlvf[i]) == vlan { assert InSlot(g, vlan, i); }
  }

  // One change of the registers is one change of the map.
  lemma UpdatedRepresents(g: Regs, m: Subscriptions, vlan: nat, slot: nat, pool: nat, on: bool)
    requires Represents(g, m) && Suits(g, vlan, slot) && vlan < 4096 && pool < 64
    ensures Represents(Updated(g, slot, vlan, pool, on), Assign(m, vlan, Flip(Pools(m, vlan), pool, on)))
  {
    var g' := Updated(g, slot, vlan, pool, on);
    var m' := Assign(m, vlan, Flip(Pools(m, vlan), pool, on));
    UpdatedSlots(g, m, vlan, slot, pool, on);
    PoolsOfSlot(g, m, vlan, slot);
    UpdatedPools(g, slot, vlan, pool, on, slot);
    forall v: nat ensures v in m' <==> HasSlot(g', v) {
      UpdatedHasSlot(g, m, vlan, slot, pool, on, v);
    }
    forall i: nat | i < ENTRIES && g'.vlvf[i] != 0
      ensures Vlan(g'.vlvf[i]) in m' && m'[Vlan(g'.vlvf[i])] == SlotPools(g', i)
    {
      UpdatedPools(g, slot, vlan, pool, on, i);
      if i != slot {
        OtherVlan(g, vlan, slot, i);
      }
    }
    forall v: nat | v < 4096 ensures VftaBit(g', v) <==> v in m' {
      UpdatedVfta(g, slot, vlan, pool, on, v);
    }
  }

  lemma InSlotIs(g: Regs, vlan: nat, i: nat)
    requires Shape(g) && SlotsOk(g) && vlan < 4096 && i < ENTRIES
    ensures InSlot(g, vlan, i) <==>
            if vlan == 0 then i == 0 && g.vlvf[i] != 0 else i >= 1 && g.vlvf[i] % 4096 == vlan
  {
    assert SlotOk(g, i);
  }

  lemma SuitableSlot(g: Regs, vlan: nat, r: nat)
    requires Shape(g) && SlotsOk(g) && vlan < 4096 && r < ENTRIES && (r == 0 <==> vlan == 0)
    requires vlan != 0 && g.vlvf[r] % 4096 != vlan ==>
               g.vlvf[r] == 0 && forall i :: 1 <= i < ENTRIES ==> g.vlvf[i] % 4096 != vlan
    ensures Suits(g, vlan, r)
  {
    InSlotIs(g, vlan, r);
    if !InSlot(g, vlan, r) {
      forall i: nat | i < ENTRIES ensures !InSlot(g, vlan, i) {
        InSlotIs(g, vlan, i);
      }
    }
  }

  // What the slot search finds, in terms of the map.
  lemma SearchResult(g: Regs, m: Subscriptions, vlan: nat, r: int)
    requires Represents(g, m) && vlan < 4096
    requires r == ERR_NO_SPACE || (0 <= r < ENTRIES && (r == 0 <==> vlan == 0))
    requires vlan != 0 && r >= 0 && g.vlvf[r] % 4096 != vlan ==>
               g.vlvf[r] == 0 && forall i :: 1 <= i < ENTRIES ==> g.vlvf[i] % 4096 != vlan
    requires r < 0 ==> vlan != 0 && forall i :: 1 <= i < ENTRIES ==> g.vlvf[i] != 0 && g.vlvf[i] % 4096 != vlan
    ensures if NoRoom(m, vlan) then r == ERR_NO_SPACE else r >= 0 && Suits(g, vlan, r)
  {
    FullIff(g, m);
    assert vlan in m <==> HasSlot(g, vlan);
    if r >= 0 {
      SuitableSlot(g, vlan, r);
    } else {
      forall i: nat | i < ENTRIES ensures !InSlot(g, vlan, i) {
        InSlotIs(g, vlan, i);
      }
    }
  }

  lemma VftaWritten(g: Regs, m: Subscriptions, vlan: nat, slot: nat, pool: nat, on: bool, changed: bool, g': Regs)
    requires Represents(g, m) && Suits(g, vlan, slot) && vlan < 4096 && pool < 64
    requires var u := Updated(g, slot, vlan, pool, on);
             && changed == ((vlan % 32 in g.vfta[vlan / 32]) != on && (on || u.vlvf[slot] == 0))
             && g' == u.(vfta :=
                           if changed then g.vfta[vlan / 32 := Flip(g.vfta[vlan / 32], vlan % 32, on)] else g.vfta)
    ensures g' == Updated(g, slot, vlan, pool, on)
  {
    var u := Updated(g, slot, vlan, pool, on);
    assert VftaBit(g, vlan) <==> vlan in m;
    assert vlan in m <==> HasSlot(g, vlan);
    assert SlotOk(g, slot);
    assert g'.vfta[vlan / 32] == u.vfta[vlan / 32];
    assert g'.vfta == u.vfta;
  }

  // ----- the driver's functions

  class Card {
    var vtEnabled: bool
    var regs: Regs

    ghost predicate Valid()
      reads this
    {
      Shape(regs)
    }

    constructor (vtEnabled: bool, regs: Regs)
      requires Shape(regs)
      ensures Valid() && this.vtEnabled == vtEnabled && this.regs == regs
    {
      this.vtEnabled := vtEnabled;
      this.regs := regs;
    }

    // The slot of a VLAN, or the first free one, or no space.
    method FindVlvfSlot(vlan: nat) returns (r: int)
      requires Valid()
      ensures r == ERR_NO_SPACE || (0 <= r < ENTRIES && (r == 0 <==> vlan == 0))
      ensures vlan != 0 && r >= 0 && regs.vlvf[r] % 4096 != vlan ==> regs.vlvf[r] == 0
      ensures vlan != 0 && r >= 0 && regs.vlvf[r] % 4096 != vlan ==>
                && (forall i :: 1 <= i < ENTRIES ==> regs.vlvf[i] % 4096 != vlan)
                && (forall i :: 1 <= i < r ==> regs.vlvf[i] != 0)
      ensures r < 0 ==> vlan != 0 && forall i :: 1 <= i < ENTRIES ==> regs.vlvf[i] != 0 && regs.vlvf[i] % 4096 != vlan
    {
      if vlan == 0 {
        return 0;
      }
      var firstEmpty := 0;
      var i := 1;
      while i < ENTRIES
        invariant 1 <= i <= ENTRIES && 0 <= firstEmpty < i
        invariant forall k :: 1 <= k < i ==> regs.vlvf[k] % 4096 != vlan
        invariant firstEmpty == 0 ==> forall k :: 1 <= k < i ==> regs.vlvf[k] != 0
        invariant firstEmpty != 0 ==> regs.vlvf[firstEmpty] == 0
        invariant firstEmpty != 0 ==> forall k :: 1 <= k < firstEmpty ==> regs.vlvf[k] != 0
      {
        var bits := regs.vlvf[i];
        if bits == 0 && firstEmpty == 0 {
          firstEmpty := i;
        } else if bits % 4096 == vlan {
          return i;
        }
        i := i + 1;
      }
      r := if firstEmpty != 0 then firstEmpty else ERR_NO_SPACE;
    }

    // The pool registers of a slot and the slot itself; tells whether any pool is left.
    method WriteSlot(slot: nat, vlan: nat, vind: nat, on: bool) returns (left: bool)
      requires Valid() && slot < ENTRIES && vlan < 4096 && vind < 64
      modifies this`regs
      ensures regs == Updated(old(regs), slot, vlan, vind, on).(vfta := old(regs).vfta)
      ensures left == (regs.vlvf[slot] != 0) && (on ==> left)
    {
      var own := Register(slot, vind);
      var other := 2 * slot + if vind < 32 then 1 else 0;
      var bits := Flip(regs.vlvfb[own], vind % 32, on);
      regs := regs.(vlvfb := regs.vlvfb[own := bits]);
      if !on {
        bits := bits + regs.vlvfb[other];
      }
      left := bits != {};
      regs := regs.(vlvf := regs.vlvf[slot := if left then VIEN + vlan else 0]);
    }

    // The pool filter part.  `wish` is the caller's wish to write VFTA, withdrawn
    // when other pools still use a VLAN that is being turned off.
    method SetVlvf(vlan: nat, vind: nat, on: bool, wish: bool, ghost m: Subscriptions)
      returns (r: int, changed: bool, ghost slot: nat)
      requires Valid() && vind < 64 && (vtEnabled ==> Represents(regs, m))
      modifies this`regs
      ensures r == if vlan > 4095 then ERR_PARAM else if vtEnabled && NoRoom(m, vlan) then ERR_NO_SPACE else 0
      ensures !vtEnabled ==> changed == wish && regs == old(regs)
      ensures r != 0 ==> regs == old(regs)
      ensures vtEnabled && r == 0 ==> Suits(old(regs), vlan, slot)
      ensures vtEnabled && r == 0 ==>
                && regs == Updated(old(regs), slot, vlan, vind, on).(vfta := old(regs).vfta)
                && changed == (wish && (on || regs.vlvf[slot] == 0))
    {
      changed, slot := wish, 0;
      if vlan > 4095 {
        return ERR_PARAM, changed, slot;
      }
      if !vtEnabled {
        return 0, changed, slot;
      }
      var found := FindVlvfSlot(vlan);
      SearchResult(regs, m, vlan, found);
      if found < 0 {
        return found, changed, slot;
      }
      slot := found;
      var left := WriteSlot(found, vlan, vind, on);
      if left && !on {
        changed := false;
      }
      r := 0;
    }

    // Turn one VLAN of one pool on or off.
    method SetVfta(vlan: nat, vind: nat, on: bool, ghost m: Subscriptions) returns (r: int)
      requires Valid() && vind < 64 && (vtEnabled ==> Represents(regs, m))
      modifies this`regs
      ensures Valid()
      ensures vtEnabled ==> Represents(regs, Change(m, vlan, vind, on).0) && r == Change(m, vlan, vind, on).1
      ensures !vtEnabled ==> r == if vlan > 4095 then ERR_PARAM else 0
      ensures !vtEnabled && r == 0 ==>
                forall v: nat :: v < 4096 ==> (VftaBit(regs, v) <==> if v == vlan then on else VftaBit(old(regs), v))
      ensures r != 0 ==> regs == old(regs)
    {
      if vlan > 4095 {
        return ERR_PARAM;
      }
      var vfta := regs.vfta[vlan / 32];
      var wish := (vlan % 32 in vfta) != on;
      vfta := Flip(vfta, vlan % 32, on);
      var changed;
      ghost var slot;
      r, changed, slot := SetVlvf(vlan, vind, on, wish, m);
      if r != 0 {
        return;
      }
      if changed {
        regs := regs.(vfta := regs.vfta[vlan / 32 := vfta]);
      }
      if vtEnabled {
        UpdatedRepresents(old(regs), m, vlan, slot, vind, on);
        VftaWritten(old(regs), m, vlan, slot, vind, on, changed, regs);
      }
    }

    method ClearVfta()
      requires Valid()
      modifies this`regs
      ensures Valid() && Represents(regs, map[])
    {
      var offset := 0;
      while offset < 128
        invariant 0 <= offset <= 128 && Valid()
        invariant forall i :: 0 <= i < offset ==> regs.vfta[i] == {}
      {
        regs := regs.(vfta := regs.vfta[offset := {}]);
        offset := offset + 1;
      }
      offset := 0;
      while offset < ENTRIES
        invariant 0 <= offset <= ENTRIES && Valid()
        invariant forall i :: 0 <= i < 128 ==> regs.vfta[i] == {}
        invariant forall i :: 0 <= i < offset ==> regs.vlvf[i] == 0
        invariant forall i :: 0 <= i < 2 * offset ==> regs.vlvfb[i] == {}
      {
        regs := regs.(vlvf := regs.vlvf[offset := 0],
                      vlvfb := regs.vlvfb[2 * offset := {}][2 * offset + 1 := {}]);
        offset := offset + 1;
      }
      forall v: nat ensures !HasSlot(regs, v) {
        assert forall slot: nat :: slot < ENTRIES ==> !InSlot(regs, v, slot);
      }
    }
  }

  // ----- whole runs

  datatype Call = Call(vlan: nat, pool: nat, on: bool)

  // The map after a sequence of calls on a cleared filter.
  function Meaning(calls: seq<Call>): Subscriptions {
    if calls == [] then map[]
    else
      var c := calls[|calls| - 1];
      Change(Meaning(calls[..|calls| - 1]), c.vlan, c.pool, c.on).0
  }

  lemma {:induction false} OnlyRealVlans(calls: seq<Call>, vlan: nat)
    requires vlan in Meaning(calls)
    ensures vlan <= 4095
  {
    var before := calls[..|calls| - 1];
    if vlan in Meaning(before) { OnlyRealVlans(before, vlan); }
  }

  lemma AssignPools(m: Subscriptions, vlan: nat, pools: set<nat>, v: nat)
    ensures Pools(Assign(m, vlan, pools), v) == if v == vlan then pools else Pools(m, v)
  {
  }

  lemma ChangeEffect(m: Subscriptions, c: Call, vlan: nat, pool: nat)
    requires vlan in m ==> vlan <= 4095
    ensures pool in Pools(Change(m, c.vlan, c.pool, c.on).0, vlan) <==>
            if c.vlan == vlan && c.pool == pool then c.on && vlan <= 4095 && !NoRoom(m, vlan)
            else pool in Pools(m, vlan)
  {
    if c.vlan > 4095 {
      assert Change(m, c.vlan, c.pool, c.on).0 == m;
    } else if NoRoom(m, c.vlan) {
      assert Change(m, c.vlan, c.pool, c.on).0 == m;
    } else {
      AssignPools(m, c.vlan, if c.on then Pools(m, c.vlan) + {c.pool} else Pools(m, c.vlan) - {c.pool}, vlan);
    }
  }

  // Whether a pool is subscribed depends only on its own last call for the VLAN,
  // and on whether there was room when that call was made.
  lemma {:induction false} LastCallDecides(calls: seq<Call>, j: nat, vlan: nat, pool: nat)
    requires j < |calls| && calls[j].vlan == vlan && calls[j].pool == pool
    requires forall i :: j < i < |calls| ==> !(calls[i].vlan == vlan && calls[i].pool == pool)
    ensures pool in Pools(Meaning(calls), vlan) <==>
            calls[j].on && vlan <= 4095 && !NoRoom(Meaning(calls[..j]), vlan)
  {
    var before := calls[..|calls| - 1];
    if vlan in Meaning(before) { OnlyRealVlans(before, vlan); }
    ChangeEffect(Meaning(before), calls[|calls| - 1], vlan, pool);
    if j < |calls| - 1 {
      LastCallDecides(before, j, vlan, pool);
      assert before[..j] == calls[..j];
    }
  }

  // The registers always represent what the calls so far mean.
  method Replay(card: Card, calls: seq<Call>)
    requires card.Valid() && card.vtEnabled
    requires forall i :: 0 <= i < |calls| ==> calls[i].pool < 64
    modifies card
    ensures Represents(card.regs, Meaning(calls))
  {
    card.ClearVfta();
    for i := 0 to |calls|
      invariant card.Valid() && card.vtEnabled && Represents(card.regs, Meaning(calls[..i]))
    {
      assert calls[..i + 1][..i] == calls[..i];
      var r := card.SetVfta(calls[i].vlan, calls[i].pool, calls[i].on, Meaning(calls[..i]));
    }
    assert calls[..|calls|] == calls;
  }
}
