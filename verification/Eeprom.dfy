/**
 * Writing a serial EEPROM in bursts.  The chip keeps the burst address inside
 * the page in which the burst began; the driver ends a burst where it believes
 * a page ends, and finds out the page size by writing marching data.
 */
module Eeprom {
  import opened Arith
  import opened Bits

  type Half = x: int | 0 <= x < 0x1_0000

  const PAGE_SIZE_MAX := 128
  const BUFFER_MAX_COUNT := 256

  datatype Error = InvalidArgument | OutOfRange
  datatype Result = Ok | Err(error: Error)

  // size in words, page in words, number of address bits
  datatype Chip = Chip(size: nat, page: nat, bits: nat)

  ghost predicate Sound(c: Chip) {
    && Power2(c.page) && PAGE_SIZE_MAX % c.page == 0 && c.size % c.page == 0
    && ((c.bits == 8 && c.size <= 256) || (c.bits == 16 && c.size <= 32768))
  }

  function Swap(w: Half): Half { w / 256 + w % 256 * 256 }

  // A word goes to the chip with its low byte first: the chip's high byte is the low one.
  lemma SwapBytes(w: Half)
    ensures Swap(w) / 256 == w % 256 && Swap(w) % 256 == w / 256
  {
    ModIs(Swap(w), w % 256, w / 256, 256);
  }

  lemma SwapSwap(w: Half)
    ensures Swap(Swap(w)) == w
  {
    SwapBytes(w);
  }

  // The word address a chip makes of a command: the byte address is shifted out
  // in `bits` bits, and the ninth bit of a small chip travels in the opcode.
  function Decode(c: Chip, a8: bool, word: nat): nat {
    var sent := word * 2 % 0x1_0000;
    if c.bits == 8 then (sent % 256 + if a8 then 256 else 0) / 2 else sent / 2
  }

  lemma DecodeIs(c: Chip, word: nat)
    requires Sound(c) && word < c.size
    ensures Decode(c, c.bits == 8 && word >= 128, word) == word
  {
  }

  // The chip's next burst address.
  function NextInPage(c: Chip, a: nat): nat
    requires c.page > 0
  {
    if a % c.page == c.page - 1 && a >= c.page - 1 then a + 1 - c.page else a + 1
  }

  // Where the driver ends a burst.
  predicate Breaks(pageSize: nat, a: nat) {
    pageSize == 0 || And(a, pageSize - 1) == pageSize - 1
  }

  // ----- what a buffer write does to the chip, word by word

  // The chip address that receives word k of the buffer.
  function Target(c: Chip, pageSize: nat, offset: nat, k: nat): nat
    requires c.page > 0
  {
    if k == 0 then offset
    else if Breaks(pageSize, offset + k - 1) then offset + k
    else NextInPage(c, Target(c, pageSize, offset, k - 1))
  }

  lemma PageRoom(c: Chip, a: nat, b: nat)
    requires c.page > 0 && c.size % c.page == 0 && a < c.size && a / c.page == b / c.page
    ensures b < c.size
  {
    DivMod(a, c.page);
    DivMod(b, c.page);
    DivMod(c.size, c.page);
    var d := c.size / c.page - a / c.page;
    assert c.size - a == d * c.page - a % c.page;
    if d >= 1 { MulAtLeast(d, c.page); assert c.size - b == d * c.page - b % c.page; }
  }

  lemma NextSamePage(c: Chip, a: nat)
    requires c.page > 0
    ensures NextInPage(c, a) / c.page == a / c.page
    ensures a % c.page != c.page - 1 ==> NextInPage(c, a) == a + 1
    ensures a % c.page == c.page - 1 ==> NextInPage(c, a) == a + 1 - c.page
    ensures NextInPage(c, a) % c.page == (a % c.page + 1) % c.page
  {
    var q, r := a / c.page, a % c.page;
    DivMod(a, c.page);
    if r == c.page - 1 {
      if q < 0 { assert false; }
      assert a >= c.page - 1;
      ModIs(a + 1 - c.page, q, 0, c.page);
      ModIs(r + 1, 1, 0, c.page);
    } else {
      ModIs(a + 1, q, r + 1, c.page);
      ModIs(r + 1, 0, r + 1, c.page);
    }
  }

  lemma {:induction false} TargetInRange(c: Chip, pageSize: nat, offset: nat, k: nat)
    requires Sound(c) && offset + k < c.size
    ensures Target(c, pageSize, offset, k) < c.size
  {
    if k > 0 && !Breaks(pageSize, offset + k - 1) {
      TargetInRange(c, pageSize, offset, k - 1);
      var a := Target(c, pageSize, offset, k - 1);
      NextSamePage(c, a);
      PageRoom(c, a, NextInPage(c, a));
    }
  }

  // The chip after the first n words of the buffer.
  function Written(c: Chip, pageSize: nat, offset: nat, data: seq<Half>, mem: seq<Half>, n: nat): (r: seq<Half>)
    requires c.page > 0 && n <= |data|
    ensures |r| == |mem|
  {
    if n == 0 then mem
    else
      var before := Written(c, pageSize, offset, data, mem, n - 1);
      var a := Target(c, pageSize, offset, n - 1);
      if a < |mem| then before[a := Swap(data[n - 1])] else before
  }

  // One word more: where it goes, and where the next one goes.
  lemma WrittenNext(c: Chip, pageSize: nat, offset: nat, data: seq<Half>, mem: seq<Half>, k: nat)
    requires Sound(c) && k < |data| && offset + |data| <= c.size && |mem| == c.size
    ensures Target(c, pageSize, offset, k) < |mem|
    ensures Written(c, pageSize, offset, data, mem, k + 1) ==
            Written(c, pageSize, offset, data, mem, k)[Target(c, pageSize, offset, k) := Swap(data[k])]
    ensures Target(c, pageSize, offset, k + 1) ==
            if Breaks(pageSize, offset + k) then offset + k + 1 else NextInPage(c, Target(c, pageSize, offset, k))
  {
    TargetInRange(c, pageSize, offset, k);
  }

  function OverwriteAt(mem: seq<Half>, offset: nat, data: seq<Half>, i: nat): Half
    requires i < |mem|
  {
    if offset <= i < offset + |data| then Swap(data[i - offset]) else mem[i]
  }

  // What was meant: the words at offset, and nothing else.
  function Overwrite(mem: seq<Half>, offset: nat, data: seq<Half>): (r: seq<Half>)
    requires offset + |data| <= |mem|
    ensures |r| == |mem|
  {
    seq(|mem|, i requires 0 <= i < |mem| => OverwriteAt(mem, offset, data, i))
  }

  // A page size the driver may safely believe in.
  ghost predicate Safe(c: Chip, pageSize: nat) {
    pageSize == 0 || (Power2(pageSize) && c.page % pageSize == 0)
  }

  lemma ModOfMod(x: nat, p: nat, w: nat)
    requires p > 0 && w > 0 && p % w == 0
    ensures x % p % w == x % w
  {
    DivMod(x, p);
    DivMod(p, w);
    DivMod(x % p, w);
    assert x == (x / p * (p / w) + x % p / w) * w + x % p % w by {
      assert x / p * p == x / p * (p / w) * w;
    }
    ModIs(x, x / p * (p / w) + x % p / w, x % p % w, w);
  }

  lemma SafeBreaks(c: Chip, pageSize: nat, a: nat)
    requires Sound(c) && Safe(c, pageSize) && a % c.page == c.page - 1
    ensures Breaks(pageSize, a)
  {
    if pageSize != 0 {
      AndMask(a, pageSize);
      ModOfMod(a, c.page, pageSize);
      DivMod(c.page, pageSize);
      assert c.page - 1 == (c.page / pageSize - 1) * pageSize + (pageSize - 1);
      ModIs(c.page - 1, c.page / pageSize - 1, pageSize - 1, pageSize);
    }
  }

  lemma {:induction false} SafeTarget(c: Chip, pageSize: nat, offset: nat, k: nat)
    requires Sound(c) && Safe(c, pageSize)
    ensures Target(c, pageSize, offset, k) == offset + k
  {
    if k > 0 {
      SafeTarget(c, pageSize, offset, k - 1);
      var a := offset + k - 1;
      NextSamePage(c, a);
      if a % c.page == c.page - 1 { SafeBreaks(c, pageSize, a); }
    }
  }

  lemma {:induction false} SafeWritten(c: Chip, pageSize: nat, offset: nat, data: seq<Half>, mem: seq<Half>, n: nat)
    requires Sound(c) && Safe(c, pageSize) && n <= |data| && offset + |data| <= |mem|
    ensures Written(c, pageSize, offset, data, mem, n) == Overwrite(mem, offset, data[..n])
  {
    if n > 0 {
      SafeWritten(c, pageSize, offset, data, mem, n - 1);
      SafeTarget(c, pageSize, offset, n - 1);
    }
  }

  // ----- long writes, in chunks

  function ChunkSize(words: nat): nat {
    if words / BUFFER_MAX_COUNT > 0 then BUFFER_MAX_COUNT else words
  }

  function Chunked(c: Chip, pageSize: nat, offset: nat, data: seq<Half>, mem: seq<Half>): (r: seq<Half>)
    requires c.page > 0
    ensures |r| == |mem|
    decreases |data|
  {
    if data == [] then mem
    else
      var n := ChunkSize(|data|);
      Chunked(c, pageSize, offset + n, data[n..], Written(c, pageSize, offset, data[..n], mem, n))
  }

  lemma OverwriteTwice(mem: seq<Half>, offset: nat, a: seq<Half>, b: seq<Half>)
    requires offset + |a| + |b| <= |mem|
    ensures Overwrite(Overwrite(mem, offset, a), offset + |a|, b) == Overwrite(mem, offset, a + b)
  {
  }

  lemma {:induction false} SafeChunked(c: Chip, pageSize: nat, offset: nat, data: seq<Half>, mem: seq<Half>)
    requires Sound(c) && Safe(c, pageSize) && offset + |data| <= |mem|
    ensures Chunked(c, pageSize, offset, data, mem) == Overwrite(mem, offset, data)
    decreases |data|
  {
    if data != [] {
      var n := ChunkSize(|data|);
      SafeWritten(c, pageSize, offset, data[..n], mem, n);
      assert data[..n][..n] == data[..n] && data[..n] + data[n..] == data;
      SafeChunked(c, pageSize, offset + n, data[n..], Overwrite(mem, offset, data[..n]));
      OverwriteTwice(mem, offset, data[..n], data[n..]);
    }
  }

  // What was written exactly is read back.
  lemma ReadBack(mem: seq<Half>, offset: nat, data: seq<Half>, i: nat)
    requires offset + |data| <= |mem| && i < |data|
    ensures Swap(Overwrite(mem, offset, data)[offset + i]) == data[i]
  {
    SwapSwap(data[i]);
  }
}
