/**
 * Direct data placement for FCoE: a scatter list is cut into 4 KB buffers, of
 * which only the first may begin and only the last may end inside a page.
 */
module FcoeDdp {

  const BUFFLEN := 4096
  const BUFFCNT_MAX := 256

  datatype Entry = Entry(addr: nat, len: nat)

  // The user descriptor list with the two sizes programmed beside it.
  datatype Result = NoDdp | Ddp(udl: seq<nat>, firstOff: nat, lastSize: nat)

  // ----- what the two descriptions mean in bytes

  function Range(from: nat, n: nat): (r: seq<nat>)
    ensures |r| == n && forall i :: 0 <= i < n ==> r[i] == from + i
  {
    seq(n, i requires 0 <= i < n => from + i)
  }

  // The addresses of a scatter list, in order.
  function Bytes(sg: seq<Entry>): seq<nat> {
    if sg == [] then []
    else Bytes(sg[..|sg| - 1]) + Range(sg[|sg| - 1].addr, sg[|sg| - 1].len)
  }

  function Window(base: nat, off: nat, end: nat): seq<nat> {
    Range(base + off, if off <= end then end - off else 0)
  }

  // The addresses of buffers that are full except for the offset into the
  // first, with the last one ending at `end`.
  function Covered(udl: seq<nat>, firstOff: nat, end: nat): seq<nat> {
    if udl == [] then []
    else
      var n := |udl| - 1;
      Covered(udl[..n], firstOff, BUFFLEN) + Window(udl[n], if n == 0 then firstOff else 0, end)
  }

  // ----- when the card can take the list

  function Pages(addr: nat, len: nat): nat {
    if len == 0 then 0 else (addr % BUFFLEN + len + BUFFLEN - 1) / BUFFLEN
  }

  function AllPages(sg: seq<Entry>): nat {
    if sg == [] then 0 else AllPages(sg[..|sg| - 1]) + Pages(sg[|sg| - 1].addr, sg[|sg| - 1].len)
  }

  // Only the first data may begin inside a page.
  predicate Starts(sg: seq<Entry>) {
    forall i: nat :: i < |sg| && sg[i].len > 0 && AllPages(sg[..i]) > 0 ==> sg[i].addr % BUFFLEN == 0
  }

  // Only the last entry may end inside a page.
  predicate Ends(sg: seq<Entry>) {
    forall i: nat :: i < |sg| - 1 && sg[i].len > 0 ==> (sg[i].addr + sg[i].len) % BUFFLEN == 0
  }

  // The end of the data lies on a page boundary.
  predicate EndsFull(sg: seq<Entry>) {
    AllPages(sg) > 0 &&
    (sg[|sg| - 1].len > 0 ==> (sg[|sg| - 1].addr + sg[|sg| - 1].len) % BUFFLEN == 0)
  }

  predicate Acceptable(sg: seq<Entry>) {
    Starts(sg) && Ends(sg) && AllPages(sg) + (if EndsFull(sg) then 1 else 0) <= BUFFCNT_MAX
  }

  // ----- small facts

  lemma PagesNext(addr: nat, len: nat)
    requires len > 0
    ensures var off := addr % BUFFLEN;
            var n := if BUFFLEN - off < len then BUFFLEN - off else len;
            && Pages(addr, len) == 1 + Pages(addr + n, len - n)
            && (n < len ==> (addr + n) % BUFFLEN == 0)
            && (n == len ==> ((addr + len) % BUFFLEN == 0 <==> off + len == BUFFLEN))
  {
  }

  lemma CoverNext(udl: seq<nat>, firstOff: nat, addr: nat, n: nat)
    requires if udl == [] then firstOff == addr % BUFFLEN else addr % BUFFLEN == 0
    ensures var off := addr % BUFFLEN;
            Covered(udl + [addr - off], firstOff, off + n) == Covered(udl, firstOff, BUFFLEN) + Range(addr, n)
  {
    var off := addr % BUFFLEN;
    var more := udl + [addr - off];
    assert more[..|udl|] == udl && more[|udl|] == addr - off;
    assert Window(addr - off, if udl == [] then firstOff else 0, off + n) == Range(addr, n);
  }

  predicate Aligned(udl: seq<nat>) {
    forall j :: 0 <= j < |udl| ==> udl[j] % BUFFLEN == 0
  }

  // ----- the two loops

  // What has been cut so far: the list, the offset into its first buffer and
  // where the last buffer ends.
  datatype Cut = Cut(udl: seq<nat>, firstOff: nat, end: nat)

  ghost predicate Sound(c: Cut) {
    && Aligned(c.udl) && |c.udl| <= BUFFCNT_MAX && c.firstOff < BUFFLEN && c.end <= BUFFLEN
    && (c.udl != [] ==> 0 < c.end) && (c.udl == [] ==> c.end == 0)
  }

  // An entry can be added to what has been cut.
  predicate CanAdd(c: Cut, e: Entry, last: bool) {
    e.len == 0 ||
    (&& (c.udl == [] || e.addr % BUFFLEN == 0)
     && (last || (e.addr + e.len) % BUFFLEN == 0)
     && |c.udl| + Pages(e.addr, e.len) <= BUFFCNT_MAX)
  }

  // One buffer: as much as fits into the page of addr.
  function Piece(addr: nat, len: nat): nat {
    if BUFFLEN - addr % BUFFLEN < len then BUFFLEN - addr % BUFFLEN else len
  }

  predicate PieceOk(c: Cut, addr: nat, len: nat, last: bool) {
    var off, n := addr % BUFFLEN, Piece(addr, len);
    && |c.udl| < BUFFCNT_MAX
    && (|c.udl| != 0 ==> off == 0)
    && ((!last || n != len) ==> n + off == BUFFLEN)
  }

  function AddPiece(c: Cut, addr: nat, len: nat): Cut {
    var off := addr % BUFFLEN;
    Cut(c.udl + [addr - off], if |c.udl| == 0 then off else c.firstOff, off + Piece(addr, len))
  }

  lemma PieceSound(c: Cut, addr: nat, len: nat, last: bool)
    requires Sound(c) && (c.udl != [] ==> c.end == BUFFLEN) && len > 0 && PieceOk(c, addr, len, last)
    ensures var r, n := AddPiece(c, addr, len), Piece(addr, len);
            && Sound(r) && 0 < n <= len && r.udl != []
            && Pages(addr, len) == 1 + Pages(addr + n, len - n)
            && (n < len ==> r.end == BUFFLEN)
            && (n == len ==> (r.end == BUFFLEN <==> (addr + len) % BUFFLEN == 0))
  {
    PagesNext(addr, len);
  }

  // Cutting off a piece neither helps nor hurts the rest.
  lemma PieceAccepts(c: Cut, addr: nat, len: nat, last: bool)
    requires len > 0
    ensures CanAdd(c, Entry(addr, len), last) <==>
            && PieceOk(c, addr, len, last)
            && CanAdd(AddPiece(c, addr, len), Entry(addr + Piece(addr, len), len - Piece(addr, len)), last)
  {
    PagesNext(addr, len);
  }

  lemma PieceCovers(c: Cut, addr: nat, len: nat, last: bool)
    requires len > 0 && PieceOk(c, addr, len, last)
    ensures var r, n := AddPiece(c, addr, len), Piece(addr, len);
            Covered(r.udl, r.firstOff, r.end) + Range(addr + n, len - n) ==
            Covered(c.udl, c.firstOff, BUFFLEN) + Range(addr, len)
  {
    var r, n := AddPiece(c, addr, len), Piece(addr, len);
    CoverNext(c.udl, r.firstOff, addr, n);
    assert Range(addr, len) == Range(addr, n) + Range(addr + n, len - n);
    if c.udl == [] { assert Covered([], c.firstOff, BUFFLEN) == Covered([], r.firstOff, BUFFLEN); }
  }

  // What one entry adds to the list.
  ghost predicate Added(c: Cut, e: Entry, r: Cut) {
    && Sound(r) && |r.udl| == |c.udl| + Pages(e.addr, e.len)
    && (e.len == 0 ==> r == c)
    && (e.len > 0 ==> r.udl != [] && (r.end == BUFFLEN <==> (e.addr + e.len) % BUFFLEN == 0))
  }

  function Data(c: Cut): seq<nat> { Covered(c.udl, c.firstOff, c.end) }

  lemma PieceData(c: Cut, addr: nat, len: nat, last: bool)
    requires len > 0 && PieceOk(c, addr, len, last) && (c.udl != [] ==> c.end == BUFFLEN)
    ensures var n := Piece(addr, len);
            Data(AddPiece(c, addr, len)) + Range(addr + n, len - n) == Data(c) + Range(addr, len)
  {
    PieceCovers(c, addr, len, last);
  }

  // Inside an entry, with `len` bytes from `addr` on still to be cut.
  ghost predicate Midway(c: Cut, e: Entry, last: bool, r: Cut, addr: nat, len: nat) {
    && Sound(r) && len <= e.len && addr + len == e.addr + e.len
    && (len > 0 && r.udl != [] ==> r.end == BUFFLEN)
    && (len < e.len && len == 0 ==> r.udl != [] && (r.end == BUFFLEN <==> (e.addr + e.len) % BUFFLEN == 0))
    && (len == e.len ==> r == c)
    && (CanAdd(c, e, last) <==> CanAdd(r, Entry(addr, len), last))
    && |r.udl| + Pages(addr, len) == |c.udl| + Pages(e.addr, e.len)
  }

  lemma MidwayNext(c: Cut, e: Entry, last: bool, r: Cut, addr: nat, len: nat)
    requires Midway(c, e, last, r, addr, len) && len > 0 && PieceOk(r, addr, len, last)
    ensures var n := Piece(addr, len);
            0 < n <= len && Midway(c, e, last, AddPiece(r, addr, len), addr + n, len - n)
  {
    PieceAccepts(r, addr, len, last);
    PieceSound(r, addr, len, last);
  }

  // The same with the bytes listed so far.
  ghost predicate Halfway(c: Cut, e: Entry, last: bool, r: Cut, addr: nat, len: nat) {
    Midway(c, e, last, r, addr, len) && Data(c) + Range(e.addr, e.len) == Data(r) + Range(addr, len)
  }

  lemma HalfwayNext(c: Cut, e: Entry, last: bool, r: Cut, addr: nat, len: nat)
    requires Halfway(c, e, last, r, addr, len) && len > 0 && PieceOk(r, addr, len, last)
    ensures var n := Piece(addr, len);
            0 < n <= len && Halfway(c, e, last, AddPiece(r, addr, len), addr + n, len - n)
  {
    MidwayNext(c, e, last, r, addr, len);
    PieceData(r, addr, len, last);
  }

  lemma HalfwayFails(c: Cut, e: Entry, last: bool, r: Cut, addr: nat, len: nat)
    requires Halfway(c, e, last, r, addr, len) && len > 0 && !PieceOk(r, addr, len, last)
    ensures !CanAdd(c, e, last)
  {
    PieceAccepts(r, addr, len, last);
  }

  lemma HalfwayDone(c: Cut, e: Entry, last: bool, r: Cut, addr: nat)
    requires Halfway(c, e, last, r, addr, 0)
    ensures CanAdd(c, e, last) && Added(c, e, r) && Data(r) == Data(c) + Range(e.addr, e.len)
  {
    assert Data(r) + Range(addr, 0) == Data(r);
  }

  // The inner loop: one scatter entry.
  method CutEntry(c: Cut, e: Entry, last: bool) returns (ok: bool, r: Cut)
    requires Sound(c) && (c.udl != [] ==> c.end == BUFFLEN)
    ensures ok <==> CanAdd(c, e, last)
    ensures ok ==> Added(c, e, r) && Data(r) == Data(c) + Range(e.addr, e.len)
  {
    r := c;
    var addr: nat, len: nat := e.addr, e.len;
    while len > 0
      invariant Halfway(c, e, last, r, addr, len)
    {
      if !PieceOk(r, addr, len, last) {
        HalfwayFails(c, e, last, r, addr, len);
        return false, r;
      }
      HalfwayNext(c, e, last, r, addr, len);
      var n := Piece(addr, len);
      r := AddPiece(r, addr, len);
      len := len - n;
      addr := addr + n;
    }
    HalfwayDone(c, e, last, r, addr);
    ok := true;
  }

  lemma {:induction false} AllPagesGrow(sg: seq<Entry>, k: nat)
    requires k <= |sg|
    ensures AllPages(sg[..k]) <= AllPages(sg)
  {
    if k < |sg| {
      AllPagesGrow(sg[..|sg| - 1], k);
      assert sg[..|sg| - 1][..k] == sg[..k];
    } else {
      assert sg[..k] == sg;
    }
  }

  lemma PrefixNext(sg: seq<Entry>, i: nat)
    requires i < |sg|
    ensures AllPages(sg[..i + 1]) == AllPages(sg[..i]) + Pages(sg[i].addr, sg[i].len)
    ensures Bytes(sg[..i + 1]) == Bytes(sg[..i]) + Range(sg[i].addr, sg[i].len)
    ensures AllPages(sg[..i + 1]) <= AllPages(sg)
  {
    assert sg[..i + 1][..i] == sg[..i];
    AllPagesGrow(sg, i + 1);
  }

  // Entry k of a list may follow the entries before it.
  predicate Joins(sg: seq<Entry>, k: nat)
    requires k < |sg|
  {
    sg[k].len > 0 ==>
      && (AllPages(sg[..k]) > 0 ==> sg[k].addr % BUFFLEN == 0)
      && (k < |sg| - 1 ==> (sg[k].addr + sg[k].len) % BUFFLEN == 0)
  }

  // The state of the outer loop before entry i.
  ghost predicate Cutting(sg: seq<Entry>, i: nat, c: Cut)
    requires i <= |sg|
  {
    && Sound(c) && |c.udl| == AllPages(sg[..i])
    && (c.udl != [] && i < |sg| ==> c.end == BUFFLEN)
    && (forall k: nat :: k < i ==> Joins(sg, k))
    && (i == |sg| && |sg| > 0 && sg[|sg| - 1].len > 0 ==>
          (c.end == BUFFLEN <==> (sg[|sg| - 1].addr + sg[|sg| - 1].len) % BUFFLEN == 0))
    && (i == |sg| && |sg| > 0 && sg[|sg| - 1].len == 0 ==> (c.udl != [] ==> c.end == BUFFLEN))
  }

  lemma JoinsIff(sg: seq<Entry>)
    ensures Starts(sg) && Ends(sg) <==> forall k: nat :: k < |sg| ==> Joins(sg, k)
  {
    if Starts(sg) && Ends(sg) {
      forall k: nat | k < |sg| ensures Joins(sg, k) {
      }
    }
    if forall k: nat :: k < |sg| ==> Joins(sg, k) {
      forall i: nat | i < |sg| && sg[i].len > 0 && AllPages(sg[..i]) > 0 ensures sg[i].addr % BUFFLEN == 0 {
        assert Joins(sg, i);
      }
      forall i: nat | i < |sg| - 1 && sg[i].len > 0 ensures (sg[i].addr + sg[i].len) % BUFFLEN == 0 {
        assert Joins(sg, i);
      }
    }
  }

  lemma CannotCut(sg: seq<Entry>, i: nat, c: Cut)
    requires i < |sg| && Cutting(sg, i, c) && !CanAdd(c, sg[i], i == |sg| - 1)
    ensures !Acceptable(sg)
  {
    PrefixNext(sg, i);
    JoinsIff(sg);
  }

  lemma CutNext(sg: seq<Entry>, i: nat, c: Cut, r: Cut)
    requires i < |sg| && Cutting(sg, i, c) && CanAdd(c, sg[i], i == |sg| - 1) && Added(c, sg[i], r)
    ensures Cutting(sg, i + 1, r)
  {
    assert AllPages(sg[..i + 1]) == |r.udl| by { PrefixNext(sg, i); }
    assert Joins(sg, i);
  }

  lemma CutAll(sg: seq<Entry>, c: Cut)
    requires Cutting(sg, |sg|, c)
    ensures Starts(sg) && Ends(sg) && |c.udl| == AllPages(sg)
    ensures EndsFull(sg) <==> c.end == BUFFLEN
  {
    JoinsIff(sg);
    assert sg[..|sg|] == sg;
  }

  // The whole set-up.  It succeeds exactly on acceptable lists, and then the
  // descriptors list the bytes of the scatter list once each and in order.  A
  // list that ends on a page boundary gets one more buffer that carries no data.
  method Setup(sg: seq<Entry>, extraBuffer: nat) returns (r: Result)
    ensures r.Ddp? <==> Acceptable(sg)
    ensures r.Ddp? ==> |r.udl| <= BUFFCNT_MAX && r.firstOff < BUFFLEN
    ensures r.Ddp? ==> if AllPages(sg) > 0 then 1 <= r.lastSize < BUFFLEN else r.lastSize == 0
    ensures r.Ddp? && !EndsFull(sg) ==>
              Aligned(r.udl) && Covered(r.udl, r.firstOff, r.lastSize) == Bytes(sg)
    ensures r.Ddp? && EndsFull(sg) ==>
              && |r.udl| >= 2 && r.udl[|r.udl| - 1] == extraBuffer && r.lastSize == 1
              && Aligned(r.udl[..|r.udl| - 1])
              && Covered(r.udl[..|r.udl| - 1], r.firstOff, BUFFLEN) == Bytes(sg)
  {
    var c := Cut([], 0, 0);
    assert sg[..0] == [];
    for i := 0 to |sg|
      invariant Cutting(sg, i, c) && Data(c) == Bytes(sg[..i])
    {
      PrefixNext(sg, i);
      var ok, next := CutEntry(c, sg[i], i == |sg| - 1);
      if !ok {
        CannotCut(sg, i, c);
        return NoDdp;
      }
      CutNext(sg, i, c, next);
      c := next;
    }
    assert sg[..|sg|] == sg;
    CutAll(sg, c);
    var lastSize := c.end;
    if lastSize == BUFFLEN {
      if |c.udl| >= BUFFCNT_MAX {
        return NoDdp;
      }
      var udl := c.udl + [extraBuffer];
      assert udl[..|udl| - 1] == c.udl;
      return Ddp(udl, c.firstOff, 1);
    }
    r := Ddp(c.udl, c.firstOff, lastSize);
  }
}
