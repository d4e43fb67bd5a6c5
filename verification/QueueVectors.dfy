/**
 * Distribution of Tx and Rx rings over interrupt vectors: each vector takes its
 * share of what is left, at indices a whole number of vectors apart.
 */
module QueueVectors {
  import opened Arith

  const NONE := -1

  function CeilDiv(n: nat, d: nat): nat
    requires d > 0
  {
    (n + d - 1) / d
  }

  // The n indices first, first + stride, first + 2 * stride, ...
  predicate InClass(i: int, first: nat, stride: nat, n: nat)
    requires stride > 0
  {
    first <= i && (i - first) % stride == 0 && (i - first) / stride < n
  }

  // ----- the shares

  // How many of the indices 0 .. total-1 are v modulo `vectors`.
  function Share(total: nat, vectors: nat, v: nat): nat
    requires vectors > 0
  {
    total / vectors + if v < total % vectors then 1 else 0
  }

  // What the first v vectors have taken, if the total is q whole rounds and r.
  function TakenOf(q: nat, r: nat, v: nat): nat {
    if v == 0 then 0 else TakenOf(q, r, v - 1) + q + if v - 1 < r then 1 else 0
  }

  function Taken(total: nat, vectors: nat, v: nat): nat
    requires vectors > 0
  {
    TakenOf(total / vectors, total % vectors, v)
  }

  // What is left for the vectors from v on.
  lemma {:induction false} Left(q: nat, r: nat, vectors: nat, v: nat)
    requires v <= vectors && r <= vectors
    ensures q * vectors + r - TakenOf(q, r, v) == q * (vectors - v) + if v < r then r - v else 0
  {
    if v > 0 {
      Left(q, r, vectors, v - 1);
      assert q * (vectors - (v - 1)) == q * (vectors - v) + q;
    }
  }

  lemma CeilOf(q: nat, d: nat, rest: nat)
    requires d > 0 && rest <= d
    ensures q * d >= 0 && CeilDiv(q * d + rest, d) == q + if rest > 0 then 1 else 0
  {
    if rest > 0 {
      assert q * d + rest + d - 1 == (q + 1) * d + (rest - 1);
      ModIs(q * d + rest + d - 1, q + 1, rest - 1, d);
    } else {
      ModIs(q * d + d - 1, q, d - 1, d);
    }
  }

  // Dividing what is left evenly and rounding up gives exactly the share of the
  // next residue class, and at the end nothing is left.
  lemma GreedyIsShare(total: nat, vectors: nat, v: nat)
    requires v < vectors
    ensures Taken(total, vectors, v) <= total
    ensures CeilDiv(total - Taken(total, vectors, v), vectors - v) == Share(total, vectors, v)
  {
    var q, r := total / vectors, total % vectors;
    DivMod(total, vectors);
    Left(q, r, vectors, v);
    CeilOf(q, vectors - v, if v < r then r - v else 0);
  }

  lemma AllTaken(total: nat, vectors: nat)
    requires vectors > 0
    ensures Taken(total, vectors, vectors) == total
  {
    DivMod(total, vectors);
    Left(total / vectors, total % vectors, vectors, vectors);
  }

  lemma ShareBound(total: nat, vectors: nat, v: nat, k: nat)
    requires v < vectors
    ensures k < Share(total, vectors, v) <==> v + k * vectors < total
  {
    var q, r := total / vectors, total % vectors;
    DivMod(total, vectors);
    assert total - (v + k * vectors) == (q - k) * vectors + (r - v);
    if q - k >= 1 { MulAtLeast(q - k, vectors); }
    if q - k <= -1 { MulAtLeast(k - q, vectors); assert (q - k) * vectors == -((k - q) * vectors); }
  }

  // The class a vector fills is the residue class of its number.
  lemma ClassIsResidue(total: nat, vectors: nat, v: nat, i: nat)
    requires v < vectors
    ensures InClass(i, v, vectors, Share(total, vectors, v)) <==> i < total && i % vectors == v
  {
    var q, r := total / vectors, total % vectors;
    DivMod(total, vectors);
    DivMod(i, vectors);
    if i % vectors == v {
      var k := i / vectors;
      if k < 0 { assert false; }
      assert i - v == k * vectors;
      ModIs(i - v, k, 0, vectors);
      ShareBound(total, vectors, v, k);
    } else if i >= v && (i - v) % vectors == 0 {
      DivMod(i - v, vectors);
      ModIs(i, (i - v) / vectors, v, vectors);
      assert false;
    }
  }

  // first + (n-1) * stride, ..., first + stride, first: the order of a linked
  // list to which the rings are added at the head.
  function Chain(first: nat, stride: nat, n: nat): (r: seq<nat>)
    ensures |r| == n
  {
    if n == 0 then [] else [first + (n - 1) * stride] + Chain(first, stride, n - 1)
  }

  lemma {:induction false} ChainIsClass(first: nat, stride: nat, n: nat, i: int)
    requires stride > 0
    ensures i in Chain(first, stride, n) <==> InClass(i, first, stride, n)
  {
    if n > 0 {
      ChainIsClass(first, stride, n - 1, i);
      DivMod(i - first, stride);
      ModIs((n - 1) * stride, n - 1, 0, stride);
    }
  }

  // ----- the two inner loops

  lemma InReach(first: nat, stride: nat, n: nat, k: nat)
    requires k < n
    ensures first + k * stride <= first + (n - 1) * stride && (k + 1) * stride == k * stride + stride
  {
    var d := n - 1 - k;
    assert (k + d) * stride == k * stride + d * stride;
  }

  // Gives n rings to a vector and links them.
  method AssignRings(ring: seq<int>, owner: nat, first: nat, stride: nat, n: nat)
    returns (r: seq<int>, list: seq<nat>)
    requires stride > 0 && (n > 0 ==> first + (n - 1) * stride < |ring|)
    ensures |r| == |ring| && list == Chain(first, stride, n)
    ensures forall i: nat :: i < |r| ==> r[i] == if i in list then owner else ring[i]
    ensures forall i: nat :: i in list ==> i < |ring|
  {
    r, list := ring, [];
    var idx, count := first, n;
    ghost var k := 0;
    while count > 0
      invariant count >= 0 && k + count == n && idx == first + k * stride && |r| == |ring|
      invariant list == Chain(first, stride, k)
      invariant forall i: nat :: i in list ==> i < |ring|
      invariant forall i: nat :: i < |r| ==> r[i] == if i in list then owner else ring[i]
    {
      InReach(first, stride, n, k);
      r := r[idx := owner];
      list := [idx] + list;
      count := count - 1;
      idx := idx + stride;
      k := k + 1;
    }
  }

  // Takes every ring of a list away.
  method DropRings(ring: seq<int>, list: seq<nat>) returns (r: seq<int>)
    requires forall i: nat :: i in list ==> i < |ring|
    ensures |r| == |ring|
    ensures forall i: nat :: i < |r| ==> r[i] == if i in list then NONE else ring[i]
  {
    r := ring;
    for k := 0 to |list|
      invariant |r| == |ring|
      invariant forall i: nat :: i < |r| ==> r[i] == if i in list[..k] then NONE else ring[i]
    {
      assert list[..k + 1] == list[..k] + [list[k]];
      assert list[k] in list;
      r := r[list[k] := NONE];
    }
    assert list[..|list|] == list;
  }

  // ----- the adapter

  // A vector lists exactly the rings that point to it.
  ghost predicate Linked(ring: seq<int>, lists: seq<seq<nat>>) {
    && (forall v: nat :: v < |lists| ==> forall i: nat :: i in lists[v] ==> i < |ring| && ring[i] == v)
    && (forall i: nat :: i < |ring| && 0 <= ring[i] < |lists| ==> i in lists[ring[i]])
  }

  lemma LinkRings(ring: seq<int>, lists: seq<seq<nat>>, v: nat, list: seq<nat>, ring': seq<int>)
    requires Linked(ring, lists) && v < |lists| && |ring'| == |ring|
    requires forall i: nat :: i in list ==> i < |ring| && ring[i] == NONE
    requires forall i: nat :: i < |ring| ==> ring'[i] == if i in list then v else ring[i]
    requires lists[v] == []
    ensures Linked(ring', lists[v := list])
  {
    var lists' := lists[v := list];
    forall u: nat | u < |lists'| ensures forall i: nat :: i in lists'[u] ==> i < |ring'| && ring'[i] == u {
      if u != v { assert lists'[u] == lists[u]; }
    }
  }

  lemma UnlinkRings(ring: seq<int>, lists: seq<seq<nat>>, v: nat, ring': seq<int>)
    requires Linked(ring, lists) && v < |lists| && |ring'| == |ring|
    requires forall i: nat :: i < |ring| ==> ring'[i] == if i in lists[v] then NONE else ring[i]
    ensures Linked(ring', lists[v := []])
    ensures forall i: nat :: i < |ring| ==> ring'[i] == if ring[i] == v then NONE else ring[i]
  {
    var lists' := lists[v := []];
    forall u: nat | u < |lists'| ensures forall i: nat :: i in lists'[u] ==> i < |ring'| && ring'[i] == u {
      if u != v { assert lists'[u] == lists[u]; }
    }
  }

  // ----- who gets which ring

  datatype Plan = Plan(rx: nat, tx: nat, vectors: nat)

  datatype Side = Rx | Tx

  function Total(p: Plan, side: Side): nat { if side == Rx then p.rx else p.tx }

  // With a vector for every ring the Rx rings come first, one each; otherwise
  // ring i goes to vector i modulo the number of vectors.
  predicate OneEach(p: Plan) { p.vectors >= p.rx + p.tx }

  function Owner(p: Plan, side: Side, i: nat): nat
    requires p.vectors > 0
  {
    if OneEach(p) then (if side == Rx then i else p.rx + i) else i % p.vectors
  }

  // What is left of a side when vector v is next.
  function LeftFor(p: Plan, side: Side, v: nat): int
    requires p.vectors > 0
  {
    if !OneEach(p) then Total(p, side) - Taken(Total(p, side), p.vectors, v)
    else if side == Rx then (if v < p.rx then p.rx - v else 0)
    else if v <= p.rx then p.tx
    else if v - p.rx < p.tx then p.tx - (v - p.rx) else 0
  }

  // The index with which vector v begins.
  function FirstFor(p: Plan, side: Side, v: nat): nat {
    if OneEach(p) && side == Tx then (if v <= p.rx then 0 else v - p.rx) else v
  }

  // The n rings from `first` on are inside the side and are those of vector v.
  ghost predicate Gives(p: Plan, side: Side, v: nat, first: nat, n: nat)
    requires p.vectors > 0
  {
    && (n > 0 ==> first + (n - 1) * p.vectors < Total(p, side))
    && (forall i: nat :: i in Chain(first, p.vectors, n) <==> i < Total(p, side) && Owner(p, side, i) == v)
  }

  lemma SharedGives(p: Plan, side: Side, v: nat)
    requires v < p.vectors && !OneEach(p)
    ensures Gives(p, side, v, v, Share(Total(p, side), p.vectors, v))
  {
    var total := Total(p, side);
    var n := Share(total, p.vectors, v);
    if n > 0 { ShareBound(total, p.vectors, v, n - 1); }
    forall i: nat ensures i in Chain(v, p.vectors, n) <==> i < total && i % p.vectors == v {
      ChainIsClass(v, p.vectors, n, i);
      ClassIsResidue(total, p.vectors, v, i);
    }
  }

  lemma SingleClass(first: nat, stride: nat, n: nat, i: nat)
    requires stride > 0 && n <= 1
    ensures i in Chain(first, stride, n) <==> n == 1 && i == first
  {
    assert n == 1 ==> Chain(first, stride, 1) == [first + 0 * stride] + Chain(first, stride, 0);
  }

  lemma OneEachGives(p: Plan, side: Side, v: nat)
    requires v < p.vectors && OneEach(p)
    ensures Gives(p, side, v, FirstFor(p, side, v), if side.Rx? == (v < p.rx) && v < p.rx + p.tx then 1 else 0)
  {
    var n := if side.Rx? == (v < p.rx) && v < p.rx + p.tx then 1 else 0;
    forall i: nat
      ensures i in Chain(FirstFor(p, side, v), p.vectors, n) <==> i < Total(p, side) && Owner(p, side, i) == v
    {
      SingleClass(FirstFor(p, side, v), p.vectors, n, i);
    }
  }

  // The number the code computes for a side of vector v is the number of rings
  // meant for it, and the sums come out.
  lemma Turn(p: Plan, side: Side, v: nat)
    requires v < p.vectors && (OneEach(p) ==> v >= p.rx)
    ensures LeftFor(p, side, v) >= 0
    ensures var n := CeilDiv(LeftFor(p, side, v), p.vectors - v);
            Gives(p, side, v, FirstFor(p, side, v), n) && LeftFor(p, side, v) - n == LeftFor(p, side, v + 1)
  {
    if OneEach(p) {
      OneEachGives(p, side, v);
      CeilOf(0, p.vectors - v, LeftFor(p, side, v));
    } else {
      GreedyIsShare(Total(p, side), p.vectors, v);
      SharedGives(p, side, v);
    }
  }

  lemma Enough(p: Plan, v: nat)
    requires v < p.vectors && (OneEach(p) ==> v >= p.rx)
    ensures LeftFor(p, Rx, v) >= 0 && LeftFor(p, Tx, v) >= 0
  {
    Turn(p, Rx, v);
    Turn(p, Tx, v);
  }

  // The rings of the first v vectors are handed out and no others.
  ghost predicate Handed(ring: seq<int>, p: Plan, side: Side, v: nat)
    requires p.vectors > 0
  {
    forall i: nat :: i < |ring| ==>
      ring[i] == if i < Total(p, side) && Owner(p, side, i) < v then Owner(p, side, i) else NONE
  }

  lemma HandedNext(ring: seq<int>, ring': seq<int>, p: Plan, side: Side, v: nat, first: nat, n: nat)
    requires p.vectors > 0 && Handed(ring, p, side, v) && Gives(p, side, v, first, n) && |ring'| == |ring|
    requires forall i: nat :: i < |ring| ==> ring'[i] == if i in Chain(first, p.vectors, n) then v else ring[i]
    ensures Handed(ring', p, side, v + 1)
  {
  }

  // Every ring of a side is with the vector meant for it, which exists, and no
  // index beyond has been touched.
  ghost predicate Placed(ring: seq<int>, p: Plan, side: Side) {
    && p.vectors > 0
    && (forall i: nat :: i < |ring| ==> ring[i] == if i < Total(p, side) then Owner(p, side, i) else NONE)
    && (forall i: nat :: i < Total(p, side) ==> Owner(p, side, i) < p.vectors)
  }

  class Adapter {
    var txRing: seq<int>          // the vector of each ring, or NONE
    var rxRing: seq<int>
    var present: seq<bool>        // whether a vector is allocated
    var txOf: seq<seq<nat>>       // and its linked lists of rings
    var rxOf: seq<seq<nat>>
    var numTx: nat
    var numRx: nat
    var numVectors: nat

    ghost predicate Valid()
      reads this
    {
      && |present| == |txOf| == |rxOf|
      && Linked(txRing, txOf) && Linked(rxRing, rxOf)
      && (forall v :: 0 <= v < |present| && !present[v] ==> txOf[v] == [] && rxOf[v] == [])
    }

    constructor (maxQueues: nat, maxVectors: nat, numTx: nat, numRx: nat, numVectors: nat)
      ensures Valid() && this.numTx == numTx && this.numRx == numRx && this.numVectors == numVectors
      ensures txRing == rxRing == seq(maxQueues, _ => NONE) && present == seq(maxVectors, _ => false)
    {
      txRing := seq(maxQueues, _ => NONE);
      rxRing := seq(maxQueues, _ => NONE);
      present := seq(maxVectors, _ => false);
      txOf := seq(maxVectors, _ => []);
      rxOf := seq(maxVectors, _ => []);
      this.numTx, this.numRx, this.numVectors := numTx, numRx, numVectors;
    }

    // One vector; `memory` says whether its allocation succeeds.
    method AllocVector(stride: nat, v: nat, txCount: nat, txIdx: nat, rxCount: nat, rxIdx: nat, memory: bool)
      returns (ok: bool)
      requires Valid() && stride > 0 && v < |present| && !present[v]
      requires txCount > 0 ==> txIdx + (txCount - 1) * stride < |txRing|
      requires rxCount > 0 ==> rxIdx + (rxCount - 1) * stride < |rxRing|
      requires forall i: nat :: i < |txRing| && i in Chain(txIdx, stride, txCount) ==> txRing[i] == NONE
      requires forall i: nat :: i < |rxRing| && i in Chain(rxIdx, stride, rxCount) ==> rxRing[i] == NONE
      modifies this`txRing, this`rxRing, this`present, this`txOf, this`rxOf
      ensures Valid() && ok == memory
      ensures |txRing| == |old(txRing)| && |rxRing| == |old(rxRing)|
      ensures !ok ==> txRing == old(txRing) && rxRing == old(rxRing) && present == old(present)
      ensures ok ==> present == old(present)[v := true]
      ensures ok ==> forall i: nat :: i < |txRing| ==>
                txRing[i] == if i in Chain(txIdx, stride, txCount) then v else old(txRing)[i]
      ensures ok ==> forall i: nat :: i < |rxRing| ==>
                rxRing[i] == if i in Chain(rxIdx, stride, rxCount) then v else old(rxRing)[i]
    {
      if !memory {
        return false;
      }
      var tx, rx;
      txRing, tx := AssignRings(txRing, v, txIdx, stride, txCount);
      rxRing, rx := AssignRings(rxRing, v, rxIdx, stride, rxCount);
      LinkRings(old(txRing), txOf, v, tx, txRing);
      LinkRings(old(rxRing), rxOf, v, rx, rxRing);
      txOf := txOf[v := tx];
      rxOf := rxOf[v := rx];
      present := present[v := true];
      ok := true;
    }

    method FreeVector(v: nat)
      requires Valid() && v < |present|
      modifies this`txRing, this`rxRing, this`present, this`txOf, this`rxOf
      ensures Valid() && present == old(present)[v := false]
      ensures |txRing| == |old(txRing)| && forall i: nat :: i < |txRing| ==>
                txRing[i] == if old(txRing)[i] == v then NONE else old(txRing)[i]
      ensures |rxRing| == |old(rxRing)| && forall i: nat :: i < |rxRing| ==>
                rxRing[i] == if old(rxRing)[i] == v then NONE else old(rxRing)[i]
    {
      txRing := DropRings(txRing, txOf[v]);
      rxRing := DropRings(rxRing, rxOf[v]);
      UnlinkRings(old(txRing), txOf, v, txRing);
      UnlinkRings(old(rxRing), rxOf, v, rxRing);
      txOf := txOf[v := []];
      rxOf := rxOf[v := []];
      present := present[v := false];
    }

    ghost predicate Empty()
      reads this
    {
      && (forall i :: 0 <= i < |txRing| ==> txRing[i] == NONE)
      && (forall i :: 0 <= i < |rxRing| ==> rxRing[i] == NONE)
      && (forall v :: 0 <= v < |present| ==> !present[v])
    }

    ghost predicate HandedOut(p: Plan, v: nat)
      requires p.vectors > 0
      reads this
    {
      && Handed(rxRing, p, Rx, v) && Handed(txRing, p, Tx, v)
      && (forall u :: 0 <= u < |present| ==> (present[u] <==> u < v))
    }

    ghost predicate Room(p: Plan)
      reads this
    {
      1 <= p.vectors <= |present| && p.rx <= |rxRing| && p.tx <= |txRing|
    }

    // Vector v of the distribution, with the numbers the code has computed.
    method Allot(p: Plan, v: nat, tqpv: nat, txIdx: nat, rqpv: nat, rxIdx: nat, memory: bool) returns (ok: bool)
      requires Valid() && Room(p) && v < p.vectors && HandedOut(p, v)
      requires Gives(p, Rx, v, rxIdx, rqpv) && Gives(p, Tx, v, txIdx, tqpv)
      modifies this`txRing, this`rxRing, this`present, this`txOf, this`rxOf
      ensures Valid() && Room(p) && ok == memory && HandedOut(p, if ok then v + 1 else v)
      ensures |txRing| == |old(txRing)| && |rxRing| == |old(rxRing)|
    {
      ok := AllocVector(p.vectors, v, tqpv, txIdx, rqpv, rxIdx, memory);
      if ok {
        HandedNext(old(txRing), txRing, p, Tx, v, txIdx, tqpv);
        HandedNext(old(rxRing), rxRing, p, Rx, v, rxIdx, rqpv);
      }
    }

    // Frees the vectors below v.
    method FreeBelow(v: nat)
      requires Valid() && v <= |present| && forall u :: v <= u < |present| ==> !present[u]
      requires forall i :: 0 <= i < |txRing| ==> NONE <= txRing[i] < v
      requires forall i :: 0 <= i < |rxRing| ==> NONE <= rxRing[i] < v
      modifies this`txRing, this`rxRing, this`present, this`txOf, this`rxOf
      ensures Valid() && Empty()
      ensures |txRing| == |old(txRing)| && |rxRing| == |old(rxRing)|
    {
      var u: nat := v;
      while u > 0
        invariant Valid() && u <= |present| && forall w :: u <= w < |present| ==> !present[w]
        invariant |txRing| == |old(txRing)| && |rxRing| == |old(rxRing)|
        invariant forall i :: 0 <= i < |txRing| ==> NONE <= txRing[i] < u
        invariant forall i :: 0 <= i < |rxRing| ==> NONE <= rxRing[i] < u
      {
        u := u - 1;
        FreeVector(u);
      }
    }

    // The error path: nothing that was handed out stays.
    method Release(p: Plan, v: nat)
      requires Valid() && Room(p) && v <= p.vectors && HandedOut(p, v)
      modifies this
      ensures Valid() && Empty() && numTx == numRx == numVectors == 0
      ensures |txRing| == |old(txRing)| && |rxRing| == |old(rxRing)|
    {
      numTx, numRx, numVectors := 0, 0, 0;
      FreeBelow(v);
    }

    // With enough vectors: one vector for each Rx ring.  Stops at the vector for
    // which there is no memory.
    method AllocRxVectors(p: Plan, fails: set<nat>) returns (v: nat, ok: bool)
      requires Valid() && Room(p) && OneEach(p) && HandedOut(p, 0)
      modifies this`txRing, this`rxRing, this`present, this`txOf, this`rxOf
      ensures Valid() && Room(p) && HandedOut(p, v) && v <= p.vectors
      ensures |txRing| == |old(txRing)| && |rxRing| == |old(rxRing)|
      ensures if ok then v == p.rx else v < p.vectors && v in fails
      ensures forall u: nat :: u < v ==> u !in fails
    {
      v := 0;
      while v < p.rx
        invariant Valid() && Room(p) && HandedOut(p, v) && v <= p.rx
        invariant |txRing| == |old(txRing)| && |rxRing| == |old(rxRing)|
        invariant forall u: nat :: u < v ==> u !in fails
      {
        OneEachGives(p, Rx, v);
        OneEachGives(p, Tx, v);
        ok := Allot(p, v, 0, 0, 1, v, v !in fails);
        if !ok {
          return;
        }
        v := v + 1;
      }
      ok := true;
    }

    // Vector v takes its part of what is left.
    method TakeShare(p: Plan, v: nat, rxLeft: nat, txLeft: nat, rxIdx: nat, txIdx: nat, memory: bool)
      returns (ok: bool, rqpv: nat, tqpv: nat)
      requires Valid() && Room(p) && v < p.vectors && (OneEach(p) ==> v >= p.rx) && HandedOut(p, v)
      requires rxLeft == LeftFor(p, Rx, v) && txLeft == LeftFor(p, Tx, v)
      requires rxIdx == FirstFor(p, Rx, v) && txIdx == FirstFor(p, Tx, v)
      modifies this`txRing, this`rxRing, this`present, this`txOf, this`rxOf
      ensures Valid() && Room(p) && ok == memory && HandedOut(p, if ok then v + 1 else v)
      ensures |txRing| == |old(txRing)| && |rxRing| == |old(rxRing)|
      ensures rxLeft - rqpv == LeftFor(p, Rx, v + 1) && txLeft - tqpv == LeftFor(p, Tx, v + 1)
    {
      Turn(p, Rx, v);
      Turn(p, Tx, v);
      rqpv := CeilDiv(rxLeft, p.vectors - v);
      tqpv := CeilDiv(txLeft, p.vectors - v);
      ok := Allot(p, v, tqpv, txIdx, rqpv, rxIdx, memory);
    }

    // The remaining vectors share what is left.
    method AllocShares(p: Plan, from: nat, fails: set<nat>) returns (v: nat, ok: bool)
      requires Valid() && Room(p) && from <= p.vectors && HandedOut(p, from)
      requires from == if OneEach(p) then p.rx else 0
      modifies this`txRing, this`rxRing, this`present, this`txOf, this`rxOf
      ensures Valid() && Room(p) && HandedOut(p, v) && from <= v <= p.vectors
      ensures |txRing| == |old(txRing)| && |rxRing| == |old(rxRing)|
      ensures if ok then v == p.vectors else v < p.vectors && v in fails
      ensures forall u: nat :: from <= u < v ==> u !in fails
    {
      v := from;
      var rxLeft: int, txLeft: int := if OneEach(p) then 0 else p.rx, p.tx;
      var rxIdx, txIdx := from, 0;
      while v < p.vectors
        invariant Valid() && Room(p) && HandedOut(p, v) && from <= v <= p.vectors
        invariant |txRing| == |old(txRing)| && |rxRing| == |old(rxRing)|
        invariant rxLeft == LeftFor(p, Rx, v) && txLeft == LeftFor(p, Tx, v)
        invariant rxIdx == FirstFor(p, Rx, v) && txIdx == FirstFor(p, Tx, v)
        invariant forall u: nat :: from <= u < v ==> u !in fails
      {
        Enough(p, v);
        var rqpv, tqpv;
        ok, rqpv, tqpv := TakeShare(p, v, rxLeft, txLeft, rxIdx, txIdx, v !in fails);
        if !ok {
          return;
        }
        rxLeft := rxLeft - rqpv;
        txLeft := txLeft - tqpv;
        rxIdx := rxIdx + 1;
        txIdx := txIdx + 1;
        v := v + 1;
      }
      ok := true;
    }

    // Distributes all rings over all vectors; `fails` are the vectors for which
    // there is no memory.
    method AllocVectors(fails: set<nat>) returns (ok: bool)
      requires Valid() && Empty() && Room(Plan(numRx, numTx, numVectors))
      modifies this
      ensures Valid() && |txRing| == |old(txRing)| && |rxRing| == |old(rxRing)|
      ensures ok <==> forall v: nat :: v < old(numVectors) ==> v !in fails
      ensures ok ==> numRx == old(numRx) && numTx == old(numTx) && numVectors == old(numVectors) >= 1
      ensures ok ==> Placed(rxRing, Plan(numRx, numTx, numVectors), Rx)
      ensures ok ==> Placed(txRing, Plan(numRx, numTx, numVectors), Tx)
      ensures ok ==> forall v :: 0 <= v < |present| ==> present[v] == (v < numVectors)
      ensures !ok ==> Empty() && numTx == numRx == numVectors == 0
    {
      var p := Plan(numRx, numTx, numVectors);
      var v: nat := 0;
      ok := true;
      if OneEach(p) {
        v, ok := AllocRxVectors(p, fails);
      }
      if ok {
        v, ok := AllocShares(p, v, fails);
      }
      if !ok {
        Release(p, v);
      }
    }
  }
}
