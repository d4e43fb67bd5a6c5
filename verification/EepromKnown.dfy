/**
 * Writing with a page size the driver already holds, right or wrong: exactly which
 * writes come out right.
 */
module EepromKnown {
  import opened Arith
  import opened Eeprom
  import opened EepromProbe

  predicate PageEnd(c: Chip, a: nat)
    requires c.page > 0
  {
    a % c.page == c.page - 1
  }

  // Every page end inside one chunk ends a burst.
  ghost predicate CaughtIn(c: Chip, q: nat, offset: nat, n: nat)
    requires c.page > 0
  {
    forall a: nat :: offset <= a && a + 1 < offset + n && PageEnd(c, a) ==> Breaks(q, a)
  }

  // And so in every chunk; each chunk begins with a command of its own.
  ghost predicate Caught(c: Chip, q: nat, offset: nat, words: nat)
    requires c.page > 0
    decreases words
  {
    words == 0 ||
    var n := ChunkSize(words);
    CaughtIn(c, q, offset, n) && Caught(c, q, offset + n, words - n)
  }

  lemma {:induction false} CaughtTarget(c: Chip, q: nat, offset: nat, n: nat, k: nat)
    requires c.page > 0 && CaughtIn(c, q, offset, n) && k < n
    ensures Target(c, q, offset, k) == offset + k
  {
    if k > 0 {
      CaughtTarget(c, q, offset, n, k - 1);
      var a := offset + (k - 1);
      NextSamePage(c, a);
      assert PageEnd(c, a) ==> Breaks(q, a);
    }
  }

  lemma {:induction false} CaughtWritten(c: Chip, q: nat, offset: nat, data: seq<Half>, mem: seq<Half>, n: nat)
    requires c.page > 0 && CaughtIn(c, q, offset, |data|) && n <= |data| && offset + |data| <= |mem|
    ensures Written(c, q, offset, data, mem, n) == Overwrite(mem, offset, data[..n])
  {
    if n > 0 {
      CaughtWritten(c, q, offset, data, mem, n - 1);
      CaughtTarget(c, q, offset, |data|, n - 1);
    }
  }

  // The first chunk, when it is caught.
  lemma FirstChunk(c: Chip, q: nat, offset: nat, data: seq<Half>, mem: seq<Half>)
    requires c.page > 0 && data != [] && offset + |data| <= |mem| && CaughtIn(c, q, offset, ChunkSize(|data|))
    ensures var n := ChunkSize(|data|);
            && 0 < n <= |data|
            && Chunked(c, q, offset, data, mem) ==
               Chunked(c, q, offset + n, data[n..], Overwrite(mem, offset, data[..n]))
            && Overwrite(Overwrite(mem, offset, data[..n]), offset + n, data[n..]) == Overwrite(mem, offset, data)
  {
    var n := ChunkSize(|data|);
    CaughtWritten(c, q, offset, data[..n], mem, n);
    assert data[..n][..n] == data[..n] && data[..n] + data[n..] == data;
    OverwriteTwice(mem, offset, data[..n], data[n..]);
  }

  lemma {:induction false} CaughtExact(c: Chip, q: nat, offset: nat, data: seq<Half>, mem: seq<Half>)
    requires c.page > 0 && Caught(c, q, offset, |data|) && offset + |data| <= |mem|
    ensures Chunked(c, q, offset, data, mem) == Overwrite(mem, offset, data)
    decreases |data|
  {
    if data != [] {
      var n := ChunkSize(|data|);
      FirstChunk(c, q, offset, data, mem);
      CaughtExact(c, q, offset + n, data[n..], Overwrite(mem, offset, data[..n]));
    }
  }

  // Buffer words that differ from each other and from what the chip holds there.
  ghost predicate Telling(offset: nat, data: seq<Half>, mem: seq<Half>) {
    && offset + |data| <= |mem|
    && (forall i, j :: 0 <= i < j < |data| ==> data[i] != data[j])
    && (forall i, a :: 0 <= i < |data| && offset <= a < offset + |data| ==> mem[a] != Swap(data[i]))
  }

  // A missed page end sends some word of the chunk astray.
  lemma MissedTarget(c: Chip, q: nat, offset: nat, n: nat) returns (t: nat)
    requires c.page > 0 && !CaughtIn(c, q, offset, n)
    ensures t < n && Target(c, q, offset, t) != offset + t
  {
    var a: nat :| offset <= a && a + 1 < offset + n && PageEnd(c, a) && !Breaks(q, a);
    var k := a - offset;
    if Target(c, q, offset, k) == offset + k {
      MissedPageEnd(c, q, offset, k);
      t := k + 1;
    } else {
      t := k;
    }
  }

  lemma FirstChunkWrong(c: Chip, q: nat, offset: nat, data: seq<Half>, mem: seq<Half>)
    requires c.page > 0 && Telling(offset, data, mem) && data != [] && !CaughtIn(c, q, offset, ChunkSize(|data|))
    ensures Chunked(c, q, offset, data, mem) != Overwrite(mem, offset, data)
  {
    var t := MissedTarget(c, q, offset, ChunkSize(|data|));
    var a := offset + t;
    var m := ChunkedFrom(c, q, offset, data, mem, a);
    SwapSwap(data[t]);
    if m >= 0 { SwapSwap(data[m]); }
    assert Overwrite(mem, offset, data)[a] == Swap(data[t]);
  }

  lemma {:induction false} UncaughtWrong(c: Chip, q: nat, offset: nat, data: seq<Half>, mem: seq<Half>)
    requires c.page > 0 && Telling(offset, data, mem) && !Caught(c, q, offset, |data|)
    ensures Chunked(c, q, offset, data, mem) != Overwrite(mem, offset, data)
    decreases |data|
  {
    var n := ChunkSize(|data|);
    if CaughtIn(c, q, offset, n) {
      FirstChunk(c, q, offset, data, mem);
      UncaughtWrong(c, q, offset + n, data[n..], Overwrite(mem, offset, data[..n]));
    } else {
      FirstChunkWrong(c, q, offset, data, mem);
    }
  }

  lemma DistinctTells(c: Chip, offset: nat, words: nat)
    requires Sound(c) && offset + words <= c.size
    ensures words <= 32768 && Telling(offset, Distinct(words), Blank(c.size, 0))
  {
    forall i | 0 <= i < words ensures Swap(Distinct(words)[i]) != 0 {
      SwapSwap(Distinct(words)[i]);
    }
  }

  // With the page size q in hand a write is exact for all contents if and only if
  // every page end inside its chunks ends a burst.
  lemma KnownExactIff(c: Chip, q: nat, offset: nat, words: nat)
    requires Sound(c) && offset + words <= c.size
    ensures (forall data: seq<Half>, mem: seq<Half> :: |data| == words && |mem| == c.size ==>
               Chunked(c, q, offset, data, mem) == Overwrite(mem, offset, data))
            <==> Caught(c, q, offset, words)
  {
    if Caught(c, q, offset, words) {
      forall data: seq<Half>, mem: seq<Half> | |data| == words && |mem| == c.size
        ensures Chunked(c, q, offset, data, mem) == Overwrite(mem, offset, data)
      {
        CaughtExact(c, q, offset, data, mem);
      }
    } else {
      DistinctTells(c, offset, words);
      UncaughtWrong(c, q, offset, Distinct(words), Blank(c.size, 0));
    }
  }
}
