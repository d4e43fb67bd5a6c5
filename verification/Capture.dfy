/**
 * The capture driver filling one block: for every packet it posts the next free
 * address of a slot, the card stores the packet there, and the length goes to
 * the table.  A block is closed at the end of the row in which some slot passed
 * the byte limit.
 */
module Capture {
  import opened Layout

  const RX_BUF_SIZE := 1514
  const MIN_FRAME := 60
  const BYTE_LIMIT := STRIDE - 2 * RX_BUF_SIZE

  // The length table begins behind one row of header; the last page of the area
  // is not written to the file and holds the stop byte in the first bucket.
  const TABLE_AT := 2 * SLOTS
  const LEN_BLOCK_SIZE := 32 * 1024 * 1024 - 4096

  // How many of the first n packets went to a slot.
  function Rows(n: nat, slot: nat): nat { n / SLOTS + if slot < n % SLOTS then 1 else 0 }

  function Splice(data: seq<Byte>, at: nat, packet: seq<Byte>): seq<Byte>
    requires at + |packet| <= |data|
  {
    data[..at] + packet + data[at + |packet|..]
  }

  function SetLen(len: seq<seq<nat>>, n: nat, size: nat): seq<seq<nat>>
    requires Table(len) && n < ROWS * SLOTS
  {
    var row: seq<nat> := len[n / SLOTS];
    var row': seq<nat> := row[n % SLOTS := size];
    len[n / SLOTS := row']
  }

  predicate Frame(packet: seq<Byte>) { MIN_FRAME <= |packet| <= RX_BUF_SIZE }

  ghost predicate At(data: seq<Byte>, len: seq<seq<nat>>, n: nat, p: nat, packet: seq<Byte>)
    requires Table(len) && |data| == DATA_BYTES && p < n <= ROWS * SLOTS && Fits(len, n)
  {
    InData(len, n, p);
    Len(len, p) == |packet| && data[Address(len, p)..Address(len, p) + Len(len, p)] == packet
  }

  // The memory holds the packets taken so far.
  ghost predicate Stored(data: seq<Byte>, len: seq<seq<nat>>, taken: seq<seq<Byte>>) {
    && Table(len) && |data| == DATA_BYTES && |taken| <= ROWS * SLOTS
    && Fits(len, |taken|)
    && forall p: nat :: p < |taken| ==> At(data, len, |taken|, p, taken[p])
  }

  ghost predicate SlotPaced(len: seq<seq<nat>>, glength: seq<nat>, n: nat, closing: bool, slot: nat)
    requires Table(len) && n <= ROWS * SLOTS && |glength| == SLOTS && slot < SLOTS && Rows(n, slot) > 0
  {
    && Rows(n, slot) <= ROWS
    && glength[slot] == Before(len, Rows(n, slot) - 1, slot)
    && glength[slot] >= MIN_FRAME * (Rows(n, slot) - 1)
    && MIN_FRAME <= len[Rows(n, slot) - 1][slot] <= RX_BUF_SIZE
    && (Rows(n, slot) >= 2 ==> Before(len, Rows(n, slot) - 2, slot) <= BYTE_LIMIT)
    && (glength[slot] <= BYTE_LIMIT ||
        (closing && glength[slot] <= BYTE_LIMIT + RX_BUF_SIZE && (n % SLOTS == 0 || slot < n % SLOTS)))
  }

  // The running offset of a slot, and how close it is to the limit.
  ghost predicate Paced(len: seq<seq<nat>>, glength: seq<nat>, n: nat, closing: bool)
    requires Table(len) && n <= ROWS * SLOTS
  {
    && |glength| == SLOTS
    && forall slot: nat :: slot < SLOTS && Rows(n, slot) > 0 ==> SlotPaced(len, glength, n, closing, slot)
  }

  // Some slot has passed the limit, and only in the row in progress.
  ghost predicate Passed(glength: seq<nat>, n: nat)
    requires |glength| == SLOTS
  {
    exists slot: nat :: slot < SLOTS && Rows(n, slot) > 0 && glength[slot] > BYTE_LIMIT
  }

  // In the given row some slot begins beyond the limit.
  ghost predicate PastLimit(len: seq<seq<nat>>, row: nat)
    requires Table(len) && row <= ROWS
  {
    exists slot: nat :: slot < SLOTS && Before(len, row, slot) > BYTE_LIMIT
  }

  lemma RowsNext(n: nat, slot: nat)
    requires slot < SLOTS
    ensures Rows(n + 1, slot) == Rows(n, slot) + if slot == n % SLOTS then 1 else 0
    ensures Rows(n, n % SLOTS) == n / SLOTS
  {
  }

  // The address for packet n: glength after the refill of its slot.
  function Refill(len: seq<seq<nat>>, glength: seq<nat>, n: nat): nat
    requires Table(len) && n < ROWS * SLOTS && |glength| == SLOTS
  {
    if n / SLOTS == 0 then 0 else glength[n % SLOTS] + len[n / SLOTS - 1][n % SLOTS]
  }

  lemma RefillIsBefore(len: seq<seq<nat>>, glength: seq<nat>, n: nat, closing: bool)
    requires Table(len) && n < ROWS * SLOTS && Paced(len, glength, n, closing)
    requires !(closing && n % SLOTS == 0)
    ensures Refill(len, glength, n) == Before(len, n / SLOTS, n % SLOTS) <= BYTE_LIMIT + RX_BUF_SIZE
    ensures Refill(len, glength, n) >= MIN_FRAME * (n / SLOTS)
  {
    RowsNext(n, n % SLOTS);
    if n / SLOTS > 0 { assert SlotPaced(len, glength, n, closing, n % SLOTS); }
  }

  // A block is closed long before the length table reaches the last page.
  lemma RoomForRow(len: seq<seq<nat>>, glength: seq<nat>, n: nat, closing: bool)
    requires Table(len) && n <= ROWS * SLOTS && Paced(len, glength, n, closing)
    requires !(closing && n % SLOTS == 0)
    ensures n < ROWS * SLOTS && TABLE_AT + 2 * (n + 1) <= LEN_BLOCK_SIZE
  {
    RowsNext(n, n % SLOTS);
    if n / SLOTS > 0 { assert SlotPaced(len, glength, n, closing, n % SLOTS); }
  }

  lemma SetLenFrame(len: seq<seq<nat>>, n: nat, size: nat, p: nat)
    requires Table(len) && p < n < ROWS * SLOTS
    ensures var len' := SetLen(len, n, size);
            Table(len') && Len(len', p) == Len(len, p) && Address(len', p) == Address(len, p)
            && Before(len', p / SLOTS, p % SLOTS) == Before(len, p / SLOTS, p % SLOTS)
  {
    BeforeFrame(len, SetLen(len, n, size), p / SLOTS, p % SLOTS);
  }

  lemma SpliceElsewhere(data: seq<Byte>, at: nat, packet: seq<Byte>, from: nat, size: nat)
    requires at + |packet| <= |data| && from + size <= |data|
    requires from + size <= at || at + |packet| <= from
    ensures Splice(data, at, packet)[from..from + size] == data[from..from + size]
  {
    var s := Splice(data, at, packet);
    var x, y := s[from..from + size], data[from..from + size];
    forall k | 0 <= k < size ensures x[k] == y[k] {
      var i := from + k;
      if at + |packet| <= from { assert s[i] == data[at + |packet|..][i - at - |packet|]; }
      assert s[i] == data[i];
    }
  }

  lemma StoredNext(data: seq<Byte>, len: seq<seq<nat>>, taken: seq<seq<Byte>>, packet: seq<Byte>, at: nat)
    requires Stored(data, len, taken) && |taken| < ROWS * SLOTS
    requires at == Address(len, |taken|)
    requires Before(len, |taken| / SLOTS, |taken| % SLOTS) + |packet| <= STRIDE
    ensures at + |packet| <= |data|
    ensures Stored(Splice(data, at, packet), SetLen(len, |taken|, |packet|), taken + [packet])
  {
    var n := |taken|;
    var len' := SetLen(len, n, |packet|);
    var taken' := taken + [packet];
    BeforeFrame(len, len', n / SLOTS, n % SLOTS);
    forall p: nat | p < n + 1 ensures Before(len', p / SLOTS, p % SLOTS) + Len(len', p) <= STRIDE {
      if p < n { SetLenFrame(len, n, |packet|, p); }
    }
    InData(len', n + 1, n);
    var data' := Splice(data, at, packet);
    forall p: nat | p < n + 1 ensures At(data', len', n + 1, p, taken'[p]) {
      if p < n {
        assert At(data, len, n, p, taken[p]);
        SetLenFrame(len, n, |packet|, p);
        Disjoint(len', n + 1, p, n);
        InData(len', n + 1, p);
        SpliceElsewhere(data, at, packet, Address(len, p), Len(len, p));
      }
    }
  }

  // The slot that takes packet n, and any other slot.
  lemma OwnPaced(len: seq<seq<nat>>, glength: seq<nat>, n: nat, closing: bool, size: nat)
    requires Table(len) && n < ROWS * SLOTS && Paced(len, glength, n, closing)
    requires !(closing && n % SLOTS == 0) && MIN_FRAME <= size <= RX_BUF_SIZE
    ensures var g := Refill(len, glength, n);
            && Rows(n + 1, n % SLOTS) > 0
            && SlotPaced(SetLen(len, n, size), glength[n % SLOTS := g], n + 1, closing || g > BYTE_LIMIT, n % SLOTS)
  {
    var slot, row := n % SLOTS, n / SLOTS;
    RowsNext(n, slot);
    RefillIsBefore(len, glength, n, closing);
    BeforeFrame(len, SetLen(len, n, size), row, slot);
    if row > 0 {
      assert SlotPaced(len, glength, n, closing, slot);
      BeforeFrame(len, SetLen(len, n, size), row - 1, slot);
    }
  }

  lemma OtherPaced(len: seq<seq<nat>>, glength: seq<nat>, n: nat, closing: bool, size: nat, slot: nat)
    requires Table(len) && n < ROWS * SLOTS && Paced(len, glength, n, closing)
    requires !(closing && n % SLOTS == 0) && slot < SLOTS && slot != n % SLOTS && Rows(n + 1, slot) > 0
    ensures var g := Refill(len, glength, n);
            SlotPaced(SetLen(len, n, size), glength[n % SLOTS := g], n + 1, closing || g > BYTE_LIMIT, slot)
  {
    RowsNext(n, slot);
    assert SlotPaced(len, glength, n, closing, slot);
    BeforeFrame(len, SetLen(len, n, size), Rows(n, slot) - 1, slot);
    if Rows(n, slot) >= 2 { BeforeFrame(len, SetLen(len, n, size), Rows(n, slot) - 2, slot); }
  }

  lemma PacedNext(len: seq<seq<nat>>, glength: seq<nat>, n: nat, closing: bool, size: nat)
    requires Table(len) && n < ROWS * SLOTS && Paced(len, glength, n, closing)
    requires !(closing && n % SLOTS == 0) && MIN_FRAME <= size <= RX_BUF_SIZE
    ensures var g := Refill(len, glength, n);
            Paced(SetLen(len, n, size), glength[n % SLOTS := g], n + 1, closing || g > BYTE_LIMIT)
  {
    var g := Refill(len, glength, n);
    var len', glength', closing' := SetLen(len, n, size), glength[n % SLOTS := g], closing || g > BYTE_LIMIT;
    RefillIsBefore(len, glength, n, closing);
    var m := n + 1;
    forall slot: nat | slot < SLOTS && Rows(m, slot) > 0
      ensures SlotPaced(len', glength', m, closing', slot)
    {
      if slot == n % SLOTS {
        OwnPaced(len, glength, n, closing, size);
      } else {
        OtherPaced(len, glength, n, closing, size, slot);
      }
    }
  }

  lemma PassedNext(len: seq<seq<nat>>, glength: seq<nat>, n: nat, closing: bool)
    requires Table(len) && n < ROWS * SLOTS && Paced(len, glength, n, closing) && (closing ==> Passed(glength, n))
    requires !(closing && n % SLOTS == 0)
    ensures var g := Refill(len, glength, n);
            closing || g > BYTE_LIMIT ==> Passed(glength[n % SLOTS := g], n + 1)
  {
    var g := Refill(len, glength, n);
    RowsNext(n, n % SLOTS);
    if g > BYTE_LIMIT {
      assert glength[n % SLOTS := g][n % SLOTS] == g;
    } else if closing {
      var slot: nat :| slot < SLOTS && Rows(n, slot) > 0 && glength[slot] > BYTE_LIMIT;
      assert SlotPaced(len, glength, n, closing, slot);
      RowsNext(n, slot);
      assert glength[n % SLOTS := g][slot] == glength[slot];
    }
  }

  // A block whose rows are complete and that is closing is past the limit in its
  // last row.
  lemma ClosedPast(len: seq<seq<nat>>, glength: seq<nat>, n: nat, closing: bool)
    requires Table(len) && n <= ROWS * SLOTS && Paced(len, glength, n, closing) && Passed(glength, n) && n % SLOTS == 0
    ensures n > 0 && PastLimit(len, n / SLOTS - 1)
  {
    var slot: nat :| slot < SLOTS && Rows(n, slot) > 0 && glength[slot] > BYTE_LIMIT;
    assert SlotPaced(len, glength, n, closing, slot);
  }

  lemma NotPastBefore(len: seq<seq<nat>>, glength: seq<nat>, n: nat, closing: bool)
    requires Table(len) && 2 * SLOTS <= n <= ROWS * SLOTS && Paced(len, glength, n, closing)
    ensures !PastLimit(len, n / SLOTS - 2)
  {
    var row := n / SLOTS - 2;
    forall slot: nat | slot < SLOTS ensures Before(len, row, slot) <= BYTE_LIMIT {
      assert SlotPaced(len, glength, n, closing, slot);
      BeforeGrows(len, row, Rows(n, slot) - 2, slot);
    }
  }

  // What one more packet does to all of it.
  lemma Accepts(data: seq<Byte>, len: seq<seq<nat>>, glength: seq<nat>, closing: bool, taken: seq<seq<Byte>>,
                packet: seq<Byte>)
    requires Stored(data, len, taken) && Paced(len, glength, |taken|, closing) && Frame(packet)
    requires !(closing && |taken| % SLOTS == 0)
    ensures |taken| < ROWS * SLOTS && TABLE_AT + 2 * (|taken| + 1) <= LEN_BLOCK_SIZE
    ensures var offset := Refill(len, glength, |taken|); var at := STRIDE * (|taken| % SLOTS) + offset;
            && at + |packet| <= |data|
            && Stored(Splice(data, at, packet), SetLen(len, |taken|, |packet|), taken + [packet])
            && Paced(SetLen(len, |taken|, |packet|), glength[|taken| % SLOTS := offset], |taken| + 1,
                     closing || offset > BYTE_LIMIT)
  {
    RoomForRow(len, glength, |taken|, closing);
    RefillIsBefore(len, glength, |taken|, closing);
    StoredNext(data, len, taken, packet, Address(len, |taken|));
    PacedNext(len, glength, |taken|, closing, |packet|);
  }

  class Filler {
    var data: seq<Byte>
    var len: seq<seq<nat>>
    var glength: seq<nat>
    var n: nat
    var closing: bool
    ghost var taken: seq<seq<Byte>>

    ghost predicate Valid()
      reads this
    {
      && n == |taken|
      && Stored(data, len, taken)
      && Paced(len, glength, n, closing)
      && TABLE_AT + 2 * n <= LEN_BLOCK_SIZE && (closing ==> Passed(glength, n))
    }

    predicate Full()
      reads this
    {
      closing && n % SLOTS == 0
    }

    // A bucket may hold anything when the driver moves on to it.
    constructor (data: seq<Byte>, len: seq<seq<nat>>)
      requires Table(len) && |data| == DATA_BYTES
      ensures Valid() && taken == [] && !closing
    {
      this.data := data;
      this.len := len;
      glength := seq(SLOTS, _ => 0);
      n := 0;
      closing := false;
      taken := [];
    }

    method Receive(packet: seq<Byte>)
      requires Valid() && !Full() && Frame(packet)
      modifies this
      ensures Valid() && taken == old(taken) + [packet]
    {
      Accepts(data, len, glength, closing, taken, packet);
      PassedNext(len, glength, n, closing);
      var slot := n % SLOTS;
      var offset := Refill(len, glength, n);
      closing := closing || offset > BYTE_LIMIT;
      glength := glength[slot := offset];
      data := Splice(data, STRIDE * slot + offset, packet);
      len := SetLen(len, n, |packet|);
      n := n + 1;
      taken := taken + [packet];
    }

    // What the driver publishes: the count and the two memory areas.
    method Publish(last: bool) returns (b: Block)
      requires Valid()
      ensures WellFormed(b) && Packets(b) == taken && b.last == last && !b.stalled && b.len == len
    {
      b := Block(n, last, false, len, data);
      forall p: nat | p < n ensures Packet(b, p) == taken[p] {
        assert At(data, len, n, p, taken[p]);
      }
    }
  }

  // ----- how the traffic is cut into blocks

  // Bytes of a slot taken by the packets of the first `row` rows.
  ghost function Offset(packets: seq<seq<Byte>>, row: nat, slot: nat): nat {
    if row == 0 then 0
    else
      var p := (row - 1) * SLOTS + slot;
      Offset(packets, row - 1, slot) + if p < |packets| then |packets[p]| else 0
  }

  // In the given row some slot begins beyond the limit.
  ghost predicate Past(packets: seq<seq<Byte>>, row: nat) {
    exists slot: nat :: slot < SLOTS && Offset(packets, row, slot) > BYTE_LIMIT
  }

  // A block of n packets is closed.
  ghost predicate Closes(packets: seq<seq<Byte>>, n: nat) {
    n > 0 && n % SLOTS == 0 && Past(packets, n / SLOTS - 1)
  }

  // The size of the first block, when it is still open before the given row: it
  // ends with the first row in which some slot begins beyond the limit.
  ghost function BlockSize(packets: seq<seq<Byte>>, row: nat): (n: nat)
    requires row * SLOTS <= |packets|
    ensures n <= |packets| && (row * SLOTS < |packets| ==> row * SLOTS < n)
    decreases |packets| - row * SLOTS
  {
    if (row + 1) * SLOTS > |packets| then |packets|
    else if Past(packets, row) then (row + 1) * SLOTS
    else BlockSize(packets, row + 1)
  }

  // The traffic ends with the packet that closes a block.
  ghost predicate EndsClosed(packets: seq<seq<Byte>>)
    decreases |packets|
  {
    packets != [] &&
    var n := BlockSize(packets, 0);
    if n < |packets| then EndsClosed(packets[n..]) else Closes(packets, n)
  }

  lemma {:induction false} BeforeIsOffset(data: seq<Byte>, len: seq<seq<nat>>, taken: seq<seq<Byte>>,
                                          packets: seq<seq<Byte>>, row: nat, slot: nat)
    requires Stored(data, len, taken) && taken <= packets && slot < SLOTS && row <= ROWS
    requires row == 0 || (row - 1) * SLOTS + slot < |taken|
    ensures Before(len, row, slot) == Offset(packets, row, slot)
  {
    if row > 0 {
      var p := (row - 1) * SLOTS + slot;
      BeforeIsOffset(data, len, taken, packets, row - 1, slot);
      assert p / SLOTS == row - 1 && p % SLOTS == slot;
      assert At(data, len, |taken|, p, taken[p]);
    }
  }

  lemma PastIs(data: seq<Byte>, len: seq<seq<nat>>, taken: seq<seq<Byte>>, packets: seq<seq<Byte>>, row: nat)
    requires Stored(data, len, taken) && taken <= packets && row * SLOTS <= |taken|
    ensures PastLimit(len, row) <==> Past(packets, row)
  {
    forall slot: nat | slot < SLOTS ensures Before(len, row, slot) == Offset(packets, row, slot) {
      BeforeIsOffset(data, len, taken, packets, row, slot);
    }
  }

  lemma {:induction false} PastGrows(packets: seq<seq<Byte>>, r: nat, r': nat)
    requires r <= r' && Past(packets, r)
    ensures Past(packets, r')
  {
    if r < r' {
      PastGrows(packets, r, r' - 1);
      var slot: nat :| slot < SLOTS && Offset(packets, r' - 1, slot) > BYTE_LIMIT;
      assert Offset(packets, r', slot) > BYTE_LIMIT;
    }
  }

  lemma {:induction false} SkipRows(packets: seq<seq<Byte>>, row: nat, end: nat)
    requires row <= end && end * SLOTS <= |packets| && forall r: nat :: row <= r < end ==> !Past(packets, r)
    ensures row * SLOTS <= |packets| && BlockSize(packets, row) == BlockSize(packets, end)
    decreases end - row
  {
    if row < end { SkipRows(packets, row + 1, end); }
  }

  // The last whole row of an open block is not past the limit.
  lemma OpenRow(len: seq<seq<nat>>, glength: seq<nat>, n: nat, closing: bool)
    requires Table(len) && SLOTS <= n <= ROWS * SLOTS && Paced(len, glength, n, closing) && (n % SLOTS != 0 || !closing)
    ensures !PastLimit(len, n / SLOTS - 1)
  {
    var row := n / SLOTS - 1;
    forall slot: nat | slot < SLOTS ensures Before(len, row, slot) <= BYTE_LIMIT {
      assert SlotPaced(len, glength, n, closing, slot);
    }
  }

  lemma SizeIs(packets: seq<seq<Byte>>, n: nat)
    requires n <= |packets| && (n < |packets| ==> Closes(packets, n))
    requires n >= 2 * SLOTS ==> !Past(packets, n / SLOTS - 2)
    requires n >= SLOTS && n % SLOTS != 0 ==> !Past(packets, n / SLOTS - 1)
    ensures BlockSize(packets, 0) == n
  {
    if n >= SLOTS {
      var last := n / SLOTS - 1;
      forall r: nat | r < last ensures !Past(packets, r) {
        if Past(packets, r) { PastGrows(packets, r, last - 1); }
      }
      SkipRows(packets, 0, last);
      if !Past(packets, last) { SkipRows(packets, last, last + 1); }
    }
  }

  lemma RowBeforeLast(data: seq<Byte>, len: seq<seq<nat>>, glength: seq<nat>, closing: bool,
                      packets: seq<seq<Byte>>, n: nat)
    requires 2 * SLOTS <= n <= |packets| && Stored(data, len, packets[..n]) && Paced(len, glength, n, closing)
    ensures !Past(packets, n / SLOTS - 2)
  {
    NotPastBefore(len, glength, n, closing);
    PastIs(data, len, packets[..n], packets, n / SLOTS - 2);
  }

  lemma LastRow(data: seq<Byte>, len: seq<seq<nat>>, glength: seq<nat>, closing: bool, packets: seq<seq<Byte>>, n: nat)
    requires SLOTS <= n <= |packets| && Stored(data, len, packets[..n]) && Paced(len, glength, n, closing)
    requires closing ==> Passed(glength, n)
    ensures Past(packets, n / SLOTS - 1) <==> PastLimit(len, n / SLOTS - 1)
    ensures n % SLOTS != 0 || !closing ==> !Past(packets, n / SLOTS - 1)
  {
    PastIs(data, len, packets[..n], packets, n / SLOTS - 1);
    if n % SLOTS != 0 || !closing { OpenRow(len, glength, n, closing); }
  }

  // Where the driver stops filling.
  lemma CutOff(data: seq<Byte>, len: seq<seq<nat>>, glength: seq<nat>, closing: bool, packets: seq<seq<Byte>>, n: nat)
    requires n <= |packets| && Stored(data, len, packets[..n]) && Paced(len, glength, n, closing)
    requires (closing ==> Passed(glength, n)) && (n < |packets| ==> closing && n % SLOTS == 0)
    ensures BlockSize(packets, 0) == n
    ensures closing && n % SLOTS == 0 <==> Closes(packets, n)
  {
    if n >= 2 * SLOTS { RowBeforeLast(data, len, glength, closing, packets, n); }
    if n >= SLOTS { LastRow(data, len, glength, closing, packets, n); }
    if closing && n % SLOTS == 0 { ClosedPast(len, glength, n, closing); }
    SizeIs(packets, n);
  }

  // The driver's work on one bucket, from arbitrary old contents: it takes packets
  // until the traffic ends or the block is closed.  A block that the traffic leaves
  // open is marked last; after a closed one the mark goes to the next bucket, which
  // stays empty.
  method FillBlock(packets: seq<seq<Byte>>, data: seq<Byte>, len: seq<seq<nat>>)
    returns (b: Block, used: nat)
    requires Table(len) && |data| == DATA_BYTES
    requires forall i :: 0 <= i < |packets| ==> Frame(packets[i])
    ensures used == BlockSize(packets, 0) && WellFormed(b) && Packets(b) == packets[..used]
    ensures !b.stalled && (b.last <==> used == |packets| && !Closes(packets, used))
    ensures TABLE_AT + 2 * used <= LEN_BLOCK_SIZE
  {
    var f := new Filler(data, len);
    used := 0;
    while used < |packets| && !f.Full()
      invariant fresh(f) && f.Valid()
      invariant used <= |packets| && f.taken == packets[..used]
    {
      f.Receive(packets[used]);
      used := used + 1;
    }
    CutOff(f.data, f.len, f.glength, f.closing, packets, used);
    b := f.Publish(!f.Full());
  }
}
