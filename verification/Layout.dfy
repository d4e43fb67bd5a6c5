/**
 * How one block of captured packets is laid out: packet p sits in slot
 * p mod SLOTS, after the earlier packets of that slot, and its length is in row
 * p / SLOTS of the length table.
 */
module Layout {

  type Byte = x: int | 0 <= x < 256

  const SLOTS := 4096
  const ROWS := 4096
  const STRIDE := 240 * 1024
  const DATA_BYTES := 992 * 1024 * 1024

  // A recorded block as a reader sees it.
  datatype Block = Block(captured: nat, last: bool, stalled: bool, len: seq<seq<nat>>, data: seq<Byte>)

  predicate Table(len: seq<seq<nat>>) {
    |len| == ROWS && forall r :: 0 <= r < ROWS ==> |len[r]| == SLOTS
  }

  // Bytes of slot `slot` taken by the packets of the first `row` rows.
  function Before(len: seq<seq<nat>>, row: nat, slot: nat): nat
    requires Table(len) && row <= ROWS && slot < SLOTS
  {
    if row == 0 then 0 else Before(len, row - 1, slot) + len[row - 1][slot]
  }

  function Len(len: seq<seq<nat>>, p: nat): nat
    requires Table(len) && p < ROWS * SLOTS
  {
    len[p / SLOTS][p % SLOTS]
  }

  function Address(len: seq<seq<nat>>, p: nat): nat
    requires Table(len) && p < ROWS * SLOTS
  {
    STRIDE * (p % SLOTS) + Before(len, p / SLOTS, p % SLOTS)
  }

  // Every packet ends inside the stride of its slot.
  ghost predicate Fits(len: seq<seq<nat>>, n: nat)
    requires Table(len) && n <= ROWS * SLOTS
  {
    forall p: nat :: p < n ==> Before(len, p / SLOTS, p % SLOTS) + Len(len, p) <= STRIDE
  }

  ghost predicate WellFormed(b: Block) {
    && Table(b.len) && |b.data| == DATA_BYTES && b.captured <= ROWS * SLOTS
    && Fits(b.len, b.captured)
  }

  lemma InData(len: seq<seq<nat>>, n: nat, p: nat)
    requires Table(len) && n <= ROWS * SLOTS && Fits(len, n) && p < n
    ensures Address(len, p) + Len(len, p) <= STRIDE * (p % SLOTS) + STRIDE <= DATA_BYTES
  {
  }

  // Packet p of a well-formed block; a total function, for ease of use.
  ghost function Packet(b: Block, p: nat): seq<Byte> {
    if WellFormed(b) && p < b.captured then
      InData(b.len, b.captured, p);
      b.data[Address(b.len, p)..Address(b.len, p) + Len(b.len, p)]
    else []
  }

  // The packets of a block in the order they were captured.
  ghost function Packets(b: Block): seq<seq<Byte>> {
    seq(b.captured, p requires 0 <= p < b.captured => Packet(b, p))
  }

  lemma {:induction false} BeforeGrows(len: seq<seq<nat>>, r: nat, r': nat, slot: nat)
    requires Table(len) && r <= r' <= ROWS && slot < SLOTS
    ensures Before(len, r, slot) <= Before(len, r', slot)
  {
    if r < r' { BeforeGrows(len, r, r' - 1, slot); }
  }

  // The windows of two packets do not overlap.
  lemma Disjoint(len: seq<seq<nat>>, n: nat, p: nat, q: nat)
    requires Table(len) && n <= ROWS * SLOTS && Fits(len, n) && p < q < n
    ensures Address(len, p) + Len(len, p) <= Address(len, q) || Address(len, q) + Len(len, q) <= Address(len, p)
  {
    var s, t := p % SLOTS, q % SLOTS;
    if s == t {
      assert p / SLOTS < q / SLOTS;
      BeforeGrows(len, p / SLOTS + 1, q / SLOTS, s);
    } else {
      InData(len, n, p);
      InData(len, n, q);
    }
  }

  // Rows below `row` decide what comes before it.
  lemma {:induction false} BeforeFrame(len: seq<seq<nat>>, len': seq<seq<nat>>, row: nat, slot: nat)
    requires Table(len) && Table(len') && row <= ROWS && slot < SLOTS
    requires forall r :: 0 <= r < row ==> len[r][slot] == len'[r][slot]
    ensures Before(len, row, slot) == Before(len', row, slot)
  {
    if row > 0 { BeforeFrame(len, len', row - 1, slot); }
  }
}
