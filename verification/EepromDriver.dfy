/**
 * The driver's bit-bang access to the EEPROM, against the word-by-word
 * description of what the chip makes of it.
 */
module EepromDriver {
  import opened Arith
  import opened Eeprom
  import opened EepromProbe
  import opened EepromKnown

  lemma AlignedIsSafe(c: Chip, offset: nat)
    requires Sound(c) && (c.page == PAGE_SIZE_MAX || offset % PAGE_SIZE_MAX == 0)
    ensures Safe(c, Detected(c, offset))
  {
    DetectedIff(c, offset);
    ModIs(c.page, 1, 0, c.page);
  }

  lemma ChunkedNext(c: Chip, pageSize: nat, offset: nat, data: seq<Half>, mem: seq<Half>, i: nat)
    requires c.page > 0 && i < |data|
    ensures var n := ChunkSize(|data| - i);
            && n > 0 && i + n <= |data|
            && Chunked(c, pageSize, offset + i, data[i..], mem) ==
               Chunked(c, pageSize, offset + (i + n), data[i + n..],
                       Written(c, pageSize, offset + i, data[i..i + n], mem, n))
  {
    var n := ChunkSize(|data| - i);
    assert data[i..][..n] == data[i..i + n] && data[i..][n..] == data[i + n..];
  }

  // After a burst that ended on word i the next one begins at its own address.
  lemma AfterBreak(c: Chip, pageSize: nat, offset: nat, i: nat)
    requires c.page > 0 && Breaks(pageSize, offset + i)
    ensures Target(c, pageSize, offset, i + 1) == offset + (i + 1)
  {
  }

  class Driver {
    const chip: Chip
    var mem: seq<Half>
    var wordPageSize: nat

    ghost predicate Valid()
      reads this
    {
      Sound(chip) && |mem| == chip.size
    }

    constructor (chip: Chip, mem: seq<Half>)
      requires Sound(chip) && |mem| == chip.size
      ensures Valid() && this.chip == chip && this.mem == mem && wordPageSize == 0
    {
      this.chip := chip;
      this.mem := mem;
      wordPageSize := 0;
    }

    // The inner loop: data words from `start` on, in one burst.  It leaves the
    // shared index on the last word sent, or behind the buffer.
    method Burst(offset: nat, data: seq<Half>, start: nat, addr0: nat, ghost was: seq<Half>) returns (i: nat)
      requires Valid() && offset + |data| <= chip.size && start < |data| && |was| == |mem|
      requires addr0 == Target(chip, wordPageSize, offset, start)
      requires mem == Written(chip, wordPageSize, offset, data, was, start)
      modifies this`mem
      ensures Valid() && start <= i <= |data|
      ensures i < |data| ==> Breaks(wordPageSize, offset + i)
      ensures mem == Written(chip, wordPageSize, offset, data, was, if i < |data| then i + 1 else i)
    {
      var addr := addr0;
      var pageSize := wordPageSize;
      i := start;
      while true
        invariant start <= i < |data| && |mem| == chip.size
        invariant addr == Target(chip, pageSize, offset, i)
        invariant mem == Written(chip, pageSize, offset, data, was, i)
        decreases |data| - i
      {
        WrittenNext(chip, pageSize, offset, data, was, i);
        mem := mem[addr := Swap(data[i])];
        addr := NextInPage(chip, addr);
        if Breaks(pageSize, offset + i) {
          return;
        }
        i := i + 1;
        if i >= |data| {
          return;
        }
      }
    }

    // One write command and its burst.
    method SendBurst(offset: nat, data: seq<Half>, i: nat, a8: bool, ghost was: seq<Half>)
      returns (next: nat, a8': bool)
      requires Valid() && offset + |data| <= chip.size && i < |data| && |was| == |mem|
      requires a8 ==> chip.bits == 8 && offset + i >= 128
      requires Target(chip, wordPageSize, offset, i) == offset + i
      requires mem == Written(chip, wordPageSize, offset, data, was, i)
      modifies this`mem
      ensures Valid() && i < next <= |data| + 1 && (a8' ==> chip.bits == 8 && offset + next >= 128)
      ensures next <= |data| ==> Target(chip, wordPageSize, offset, next) == offset + next
      ensures mem == Written(chip, wordPageSize, offset, data, was, if next < |data| then next else |data|)
    {
      a8' := a8 || (chip.bits == 8 && offset + i >= 128);
      DecodeIs(chip, offset + i);
      next := Burst(offset, data, i, Decode(chip, a8', offset + i), was);
      if next < |data| { AfterBreak(chip, wordPageSize, offset, next); }
      next := next + 1;
    }

    // The outer loop.
    method WriteBuffer(offset: nat, data: seq<Half>)
      requires Valid() && offset + |data| <= chip.size
      modifies this`mem
      ensures Valid()
      ensures mem == Written(chip, wordPageSize, offset, data, old(mem), |data|)
    {
      var i := 0;
      var a8 := false;
      while i < |data|
        invariant Valid() && i <= |data| + 1
        invariant a8 ==> chip.bits == 8 && offset + i >= 128
        invariant i <= |data| ==> Target(chip, wordPageSize, offset, i) == offset + i
        invariant mem == Written(chip, wordPageSize, offset, data, old(mem), if i < |data| then i else |data|)
        decreases |data| + 1 - i
      {
        i, a8 := SendBurst(offset, data, i, a8, old(mem));
      }
    }

    method ReadBuffer(offset: nat, words: nat) returns (data: seq<Half>)
      requires Valid() && offset + words <= chip.size
      ensures |data| == words && forall i :: 0 <= i < words ==> data[i] == Swap(mem[offset + i])
    {
      data := [];
      var a8 := false;
      for i := 0 to words
        invariant a8 ==> chip.bits == 8 && offset + i >= 128
        invariant |data| == i && forall k :: 0 <= k < i ==> data[k] == Swap(mem[offset + k])
      {
        if chip.bits == 8 && offset + i >= 128 {
          a8 := true;
        }
        DecodeIs(chip, offset + i);
        data := data + [Swap(mem[Decode(chip, a8, offset + i)])];
      }
    }

    method DetectPageSize(offset: nat)
      requires Valid() && offset + PAGE_SIZE_MAX <= chip.size
      modifies this
      ensures Valid() && mem == Probed(chip, offset, old(mem)) && wordPageSize == Detected(chip, offset)
    {
      var data := March();
      wordPageSize := PAGE_SIZE_MAX;
      WriteBuffer(offset, data);
      wordPageSize := 0;
      var word := ReadBuffer(offset, 1);
      ProbeReads(chip, offset, old(mem));
      SurvivorSmall(chip, offset);
      wordPageSize := PAGE_SIZE_MAX - word[0];
    }

    method WriteChunk(offset: nat, data: seq<Half>, i: nat, ghost goal: seq<Half>) returns (next: nat)
      requires Valid() && offset + |data| <= chip.size && i < |data|
      requires goal == Chunked(chip, wordPageSize, offset + i, data[i..], mem)
      modifies this`mem
      ensures Valid() && i < next <= |data|
      ensures goal == Chunked(chip, wordPageSize, offset + next, data[next..], mem)
    {
      var count := ChunkSize(|data| - i);
      ChunkedNext(chip, wordPageSize, offset, data, mem, i);
      WriteBuffer(offset + i, data[i..i + count]);
      next := i + count;
    }

    method WriteChunks(offset: nat, data: seq<Half>)
      requires Valid() && offset + |data| <= chip.size
      modifies this`mem
      ensures Valid() && mem == Chunked(chip, wordPageSize, offset, data, old(mem))
    {
      var i := 0;
      ghost var goal := Chunked(chip, wordPageSize, offset, data, mem);
      assert data[0..] == data;
      while i < |data|
        invariant Valid() && i <= |data|
        invariant goal == Chunked(chip, wordPageSize, offset + i, data[i..], mem)
        decreases |data| - i
      {
        i := WriteChunk(offset, data, i, goal);
      }
    }

    // The public write.  With a known page size, or a buffer no longer than the
    // largest page, it is exact whenever the driver's page size is safe, or at
    // least every page end inside a chunk ends a burst.
    method Write(offset: nat, data: seq<Half>) returns (r: Result)
      requires Valid()
      modifies this
      ensures Valid()
      ensures r == if |data| == 0 then Err(InvalidArgument)
                   else if offset + |data| > chip.size then Err(OutOfRange) else Ok
      ensures r.Err? ==> mem == old(mem) && wordPageSize == old(wordPageSize)
      ensures r.Ok? && old(wordPageSize) == 0 && |data| > PAGE_SIZE_MAX ==>
                mem == Lazy(chip, offset, data, old(mem)) && wordPageSize == Detected(chip, offset)
      ensures r.Ok? && !(old(wordPageSize) == 0 && |data| > PAGE_SIZE_MAX) ==>
                && mem == Chunked(chip, old(wordPageSize), offset, data, old(mem)) && wordPageSize == old(wordPageSize)
                && (Safe(chip, wordPageSize) || Caught(chip, wordPageSize, offset, |data|) ==>
                      mem == Overwrite(old(mem), offset, data))
    {
      if |data| == 0 {
        return Err(InvalidArgument);
      }
      if offset + |data| > chip.size {
        return Err(OutOfRange);
      }
      if wordPageSize == 0 && |data| > PAGE_SIZE_MAX {
        DetectPageSize(offset);
      } else if Safe(chip, wordPageSize) {
        SafeChunked(chip, wordPageSize, offset, data, mem);
      } else if Caught(chip, wordPageSize, offset, |data|) {
        CaughtExact(chip, wordPageSize, offset, data, mem);
      }
      WriteChunks(offset, data);
      r := Ok;
    }

    method Read(offset: nat, words: nat) returns (r: Result, data: seq<Half>)
      requires Valid()
      ensures r == if words == 0 then Err(InvalidArgument)
                   else if offset + words > chip.size then Err(OutOfRange) else Ok
      ensures r.Ok? ==> |data| == words && forall i :: 0 <= i < words ==> data[i] == Swap(mem[offset + i])
    {
      data := [];
      if words == 0 {
        return Err(InvalidArgument), data;
      }
      if offset + words > chip.size {
        return Err(OutOfRange), data;
      }
      var i := 0;
      while i < words
        invariant i <= words
        invariant |data| == i && forall k :: 0 <= k < i ==> data[k] == Swap(mem[offset + k])
        decreases words - i
      {
        var count := ChunkSize(words - i);
        var more := ReadBuffer(offset + i, count);
        data := data + more;
        i := i + count;
      }
      r := Ok;
    }

    // Writing and reading back, with a page size the driver may rely on.
    method WriteThenRead(offset: nat, data: seq<Half>) returns (r: Result, back: seq<Half>)
      requires Valid() && Safe(chip, wordPageSize)
      requires wordPageSize == 0 && |data| > PAGE_SIZE_MAX ==> chip.page == PAGE_SIZE_MAX || offset % PAGE_SIZE_MAX == 0
      modifies this
      ensures Valid() && (r.Ok? <==> 0 < |data| && offset + |data| <= chip.size)
      ensures r.Ok? ==> back == data && mem == Overwrite(old(mem), offset, data) && Safe(chip, wordPageSize)
    {
      back := [];
      r := Write(offset, data);
      if r.Err? {
        return;
      }
      if old(wordPageSize) == 0 && |data| > PAGE_SIZE_MAX {
        LazyExact(chip, offset, data, old(mem));
        AlignedIsSafe(chip, offset);
      }
      r, back := Read(offset, |data|);
      forall i | 0 <= i < |data| ensures back[i] == data[i] {
        ReadBack(old(mem), offset, data, i);
      }
    }
  }
}
