/**
 * The page size probe, and when a long write that begins with it is exact.
 */
module EepromProbe {
  import opened Arith
  import opened Bits
  import opened Eeprom

  // ----- finding the page size

  function March(): (r: seq<Half>)
    ensures |r| == PAGE_SIZE_MAX && forall i :: 0 <= i < PAGE_SIZE_MAX ==> r[i] == i
  {
    seq(PAGE_SIZE_MAX, i requires 0 <= i < PAGE_SIZE_MAX => i)
  }

  // The chip after the marching data.
  function Probed(c: Chip, offset: nat, mem: seq<Half>): (r: seq<Half>)
    requires c.page > 0
    ensures |r| == |mem|
  {
    Written(c, PAGE_SIZE_MAX, offset, March(), mem, PAGE_SIZE_MAX)
  }

  // The marching word that ends up at the offset, and so the page size inferred.
  function Survivor(c: Chip, offset: nat): nat
    requires c.page > 0
  {
    (PAGE_SIZE_MAX - 1 - offset % PAGE_SIZE_MAX) / c.page * c.page
  }

  lemma SurvivorSmall(c: Chip, offset: nat)
    requires c.page > 0
    ensures Survivor(c, offset) < PAGE_SIZE_MAX
  {
    DivMod(PAGE_SIZE_MAX - 1 - offset % PAGE_SIZE_MAX, c.page);
  }

  function Detected(c: Chip, offset: nat): nat
    requires c.page > 0
  {
    SurvivorSmall(c, offset);
    PAGE_SIZE_MAX - Survivor(c, offset)
  }

  // Words before the first burst of the probe ends.
  function FirstBurst(offset: nat): nat { PAGE_SIZE_MAX - offset % PAGE_SIZE_MAX }

  lemma ProbeBreaks(a: nat)
    ensures Breaks(PAGE_SIZE_MAX, a) <==> a % PAGE_SIZE_MAX == PAGE_SIZE_MAX - 1
  {
    assert Power2(128) by { assert Power2(2) && Power2(8) && Power2(32); }
    AndMask(a, PAGE_SIZE_MAX);
  }

  lemma FirstBurstEnds(offset: nat, k: nat)
    requires 0 < k < PAGE_SIZE_MAX
    ensures (offset + k - 1) % PAGE_SIZE_MAX == PAGE_SIZE_MAX - 1 <==> k == FirstBurst(offset)
  {
  }

  // The probe's burst goes on up to the first multiple of the largest page,
  // and then starts again there.
  lemma ProbeNext(c: Chip, offset: nat, k: nat)
    requires c.page > 0 && 0 < k < PAGE_SIZE_MAX
    ensures Target(c, PAGE_SIZE_MAX, offset, k) ==
            if k == FirstBurst(offset) then offset + k
            else NextInPage(c, Target(c, PAGE_SIZE_MAX, offset, k - 1))
  {
    ProbeBreaks(offset + k - 1);
    FirstBurstEnds(offset, k);
  }

  // During the first burst the address goes round the page of the offset.
  lemma {:induction false} ProbeTargetFirst(c: Chip, offset: nat, k: nat)
    requires c.page > 0 && k < FirstBurst(offset)
    ensures var t := Target(c, PAGE_SIZE_MAX, offset, k);
            t / c.page == offset / c.page && t % c.page == (offset + k) % c.page
  {
    if k > 0 {
      ProbeTargetFirst(c, offset, k - 1);
      ProbeNext(c, offset, k);
      NextSamePage(c, Target(c, PAGE_SIZE_MAX, offset, k - 1));
      ModAdd(offset + k - 1, 1, c.page);
    }
  }

  lemma {:induction false} ProbePageLater(c: Chip, offset: nat, k: nat)
    requires c.page > 0 && FirstBurst(offset) <= k < PAGE_SIZE_MAX
    ensures Target(c, PAGE_SIZE_MAX, offset, k) / c.page == (offset + FirstBurst(offset)) / c.page
  {
    ProbeNext(c, offset, k);
    if k > FirstBurst(offset) {
      ProbePageLater(c, offset, k - 1);
      NextSamePage(c, Target(c, PAGE_SIZE_MAX, offset, k - 1));
    }
  }

  lemma PageStart(e: nat, p: nat)
    requires p > 0 && PAGE_SIZE_MAX % p == 0 && e % PAGE_SIZE_MAX == 0
    ensures e % p == 0
  {
    ModOfMod(e, PAGE_SIZE_MAX, p);
    ModIs(0, 0, 0, p);
  }

  lemma BurstEnd(offset: nat)
    ensures (offset + FirstBurst(offset)) % PAGE_SIZE_MAX == 0
  {
  }

  lemma SamePageLater(t: nat, e: nat, p: nat)
    requires p > 0 && e % p == 0 && t / p == e / p
    ensures t >= e
  {
    DivMod(t, p);
    DivMod(e, p);
  }

  // Afterwards it is in later pages.
  lemma ProbeTargetLater(c: Chip, offset: nat, k: nat)
    requires c.page > 0 && PAGE_SIZE_MAX % c.page == 0 && FirstBurst(offset) <= k < PAGE_SIZE_MAX
    ensures Target(c, PAGE_SIZE_MAX, offset, k) >= offset + FirstBurst(offset)
  {
    var e, t := offset + FirstBurst(offset), Target(c, PAGE_SIZE_MAX, offset, k);
    ProbePageLater(c, offset, k);
    BurstEnd(offset);
    PageStart(e, c.page);
    SamePageLater(t, e, c.page);
  }

  lemma SameResidue(x: nat, d: nat, p: nat)
    requires p > 0
    ensures (x + d) % p == x % p <==> d % p == 0
  {
    DivMod(x, p);
    DivMod(d, p);
    DivMod(x + d, p);
    if d % p == 0 {
      assert x + d == (x / p + d / p) * p + x % p;
      ModIs(x + d, x / p + d / p, x % p, p);
    }
    if (x + d) % p == x % p {
      assert d == ((x + d) / p - x / p) * p + 0;
      ModIs(d, (x + d) / p - x / p, 0, p);
    }
  }

  // The word at the offset after n words of the first burst.
  lemma {:induction false} ProbeSurvivor(c: Chip, offset: nat, mem: seq<Half>, n: nat)
    requires c.page > 0 && 0 < n <= FirstBurst(offset) && offset < |mem|
    ensures (n - 1) / c.page * c.page < PAGE_SIZE_MAX
    ensures Written(c, PAGE_SIZE_MAX, offset, March(), mem, n)[offset] == Swap((n - 1) / c.page * c.page)
  {
    var p, t := c.page, Target(c, PAGE_SIZE_MAX, offset, n - 1);
    ProbeTargetFirst(c, offset, n - 1);
    DivMod(t, p);
    DivMod(offset, p);
    DivMod(n - 1, p);
    if n == 1 {
      ModIs(0, 0, 0, p);
    } else {
      ProbeSurvivor(c, offset, mem, n - 1);
      SameResidue(offset, n - 1, p);
      if (n - 1) % p != 0 { ModIs(n - 2, (n - 1) / p, (n - 1) % p - 1, p); }
    }
  }

  lemma {:induction false} ProbeKeepsSurvivor(c: Chip, offset: nat, mem: seq<Half>, n: nat)
    requires c.page > 0 && PAGE_SIZE_MAX % c.page == 0 && FirstBurst(offset) <= n <= PAGE_SIZE_MAX && offset < |mem|
    ensures Written(c, PAGE_SIZE_MAX, offset, March(), mem, n)[offset] ==
            Written(c, PAGE_SIZE_MAX, offset, March(), mem, FirstBurst(offset))[offset]
  {
    if n > FirstBurst(offset) {
      ProbeKeepsSurvivor(c, offset, mem, n - 1);
      ProbeTargetLater(c, offset, n - 1);
    }
  }

  // The probe reads the survivor back, so it infers `Detected`.
  lemma ProbeReads(c: Chip, offset: nat, mem: seq<Half>)
    requires Sound(c) && offset < |mem|
    ensures PAGE_SIZE_MAX - Swap(Probed(c, offset, mem)[offset]) == Detected(c, offset)
  {
    SurvivorSmall(c, offset);
    ProbeSurvivor(c, offset, mem, FirstBurst(offset));
    ProbeKeepsSurvivor(c, offset, mem, PAGE_SIZE_MAX);
    SwapSwap(Survivor(c, offset));
  }

  lemma MulAtMost(k: int, n: nat)
    requires k <= 0
    ensures k * n <= 0
  {
  }

  // The probe finds the real page size exactly when the offset lies in the
  // first page of a largest page; otherwise it overestimates.
  lemma DetectedIff(c: Chip, offset: nat)
    requires Sound(c)
    ensures Detected(c, offset) == c.page <==> offset % PAGE_SIZE_MAX < c.page
    ensures Detected(c, offset) >= c.page && Detected(c, offset) % c.page == 0
  {
    var p, o := c.page, offset % PAGE_SIZE_MAX;
    var m := PAGE_SIZE_MAX / p;
    DivMod(PAGE_SIZE_MAX, p);
    DivMod(PAGE_SIZE_MAX - 1 - o, p);
    var q := (PAGE_SIZE_MAX - 1 - o) / p;
    assert PAGE_SIZE_MAX - q * p == (m - q) * p;
    ModIs((m - q) * p, m - q, 0, p);
    if m - q <= 0 { MulAtMost(m - q, p); }
    if m - q >= 2 { MulAtLeast(m - q - 1, p); assert (m - q) * p == (m - q - 1) * p + p; }
    assert m - q == 1 || m - q >= 2;
  }

  // ----- a long write that begins with the probe

  function Lazy(c: Chip, offset: nat, data: seq<Half>, mem: seq<Half>): seq<Half>
    requires c.page > 0
  {
    Chunked(c, Detected(c, offset), offset, data, Probed(c, offset, mem))
  }

  // Where a word of the chip comes from.
  lemma {:induction false} WrittenFrom(c: Chip, pageSize: nat, offset: nat, data: seq<Half>, mem: seq<Half>,
                                       n: nat, a: nat)
    returns (m: int)
    requires c.page > 0 && n <= |data| && a < |mem|
    ensures -1 <= m < n
    ensures m == -1 ==> Written(c, pageSize, offset, data, mem, n)[a] == mem[a]
    ensures m == -1 ==> forall k :: 0 <= k < n ==> Target(c, pageSize, offset, k) != a
    ensures m >= 0 ==> Target(c, pageSize, offset, m) == a
    ensures m >= 0 ==> Written(c, pageSize, offset, data, mem, n)[a] == Swap(data[m])
  {
    if n == 0 {
      m := -1;
    } else if Target(c, pageSize, offset, n - 1) == a {
      m := n - 1;
    } else {
      m := WrittenFrom(c, pageSize, offset, data, mem, n - 1, a);
    }
  }

  lemma {:induction false} ChunkedFrom(c: Chip, pageSize: nat, offset: nat, data: seq<Half>, mem: seq<Half>, a: nat)
    returns (m: int)
    requires c.page > 0 && a < |mem|
    ensures -1 <= m < |data|
    ensures m == -1 ==> Chunked(c, pageSize, offset, data, mem)[a] == mem[a]
    ensures m >= 0 ==> Chunked(c, pageSize, offset, data, mem)[a] == Swap(data[m])
    ensures 0 <= m < BUFFER_MAX_COUNT ==> Target(c, pageSize, offset, m) == a
    decreases |data|
  {
    if data == [] {
      m := -1;
    } else {
      var n := ChunkSize(|data|);
      var next := Written(c, pageSize, offset, data[..n], mem, n);
      m := ChunkedFrom(c, pageSize, offset + n, data[n..], next, a);
      if m >= 0 {
        m := m + n;
      } else {
        m := WrittenFrom(c, pageSize, offset, data[..n], mem, n, a);
      }
    }
  }

  // Inside its range the probe leaves no trace behind a write of that range.
  lemma OverwriteCovers(mem: seq<Half>, mem': seq<Half>, offset: nat, data: seq<Half>)
    requires |mem| == |mem'| && offset + |data| <= |mem|
    requires forall i :: 0 <= i < |mem| && !(offset <= i < offset + |data|) ==> mem[i] == mem'[i]
    ensures Overwrite(mem, offset, data) == Overwrite(mem', offset, data)
  {
  }

  lemma AlignedTarget(c: Chip, offset: nat, k: nat)
    requires Sound(c) && offset % PAGE_SIZE_MAX == 0 && k < PAGE_SIZE_MAX
    ensures offset <= Target(c, PAGE_SIZE_MAX, offset, k) < offset + PAGE_SIZE_MAX
  {
    ProbeTargetFirst(c, offset, k);
    ModOfMod(offset, PAGE_SIZE_MAX, c.page);
    ModIs(0, 0, 0, c.page);
    DivMod(offset, c.page);
    DivMod(Target(c, PAGE_SIZE_MAX, offset, k), c.page);
    DivMod(PAGE_SIZE_MAX, c.page);
    MulAtLeast(PAGE_SIZE_MAX / c.page, c.page);
  }

  lemma AlignedProbeStays(c: Chip, offset: nat, mem: seq<Half>, i: nat)
    requires Sound(c) && offset % PAGE_SIZE_MAX == 0 && i < |mem|
    requires !(offset <= i < offset + PAGE_SIZE_MAX)
    ensures Probed(c, offset, mem)[i] == mem[i]
  {
    var m := WrittenFrom(c, PAGE_SIZE_MAX, offset, March(), mem, PAGE_SIZE_MAX, i);
    if m >= 0 {
      AlignedTarget(c, offset, m);
      assert false;
    }
  }

  lemma LargePageProbeStays(c: Chip, offset: nat, mem: seq<Half>, i: nat)
    requires Sound(c) && c.page == PAGE_SIZE_MAX && i < |mem|
    requires !(offset <= i < offset + PAGE_SIZE_MAX)
    ensures Probed(c, offset, mem)[i] == mem[i]
  {
    var m := WrittenFrom(c, PAGE_SIZE_MAX, offset, March(), mem, PAGE_SIZE_MAX, i);
    if m >= 0 {
      ModIs(PAGE_SIZE_MAX, 1, 0, PAGE_SIZE_MAX);
      SafeTarget(c, PAGE_SIZE_MAX, offset, m);
      assert false;
    }
  }

  lemma LazyExact(c: Chip, offset: nat, data: seq<Half>, mem: seq<Half>)
    requires Sound(c) && |mem| == c.size && PAGE_SIZE_MAX < |data| && offset + |data| <= c.size
    requires c.page == PAGE_SIZE_MAX || offset % PAGE_SIZE_MAX == 0
    ensures Lazy(c, offset, data, mem) == Overwrite(mem, offset, data)
  {
    var mem' := Probed(c, offset, mem);
    DetectedIff(c, offset);
    ModIs(c.page, 1, 0, c.page);
    SafeChunked(c, c.page, offset, data, mem');
    forall i | 0 <= i < |mem| && !(offset <= i < offset + |data|) ensures mem[i] == mem'[i] {
      if c.page == PAGE_SIZE_MAX {
        LargePageProbeStays(c, offset, mem, i);
      } else {
        AlignedProbeStays(c, offset, mem, i);
      }
    }
    OverwriteCovers(mem, mem', offset, data);
  }

  // ----- the failing family

  lemma TwoPages(p: nat)
    requires 0 < p < PAGE_SIZE_MAX && PAGE_SIZE_MAX % p == 0
    ensures 2 * p <= PAGE_SIZE_MAX
  {
    DivMod(PAGE_SIZE_MAX, p);
    assert PAGE_SIZE_MAX / p >= 2;
    assert (PAGE_SIZE_MAX / p - 1) * p == PAGE_SIZE_MAX - p;
    MulAtLeast(PAGE_SIZE_MAX / p - 1, p);
  }

  lemma NeighbourHit(c: Chip, offset: nat)
    requires Sound(c) && 0 < offset % PAGE_SIZE_MAX < c.page && 2 * c.page <= PAGE_SIZE_MAX
    ensures Target(c, PAGE_SIZE_MAX, offset, c.page - 1) == offset - 1
  {
    var p, t := c.page, Target(c, PAGE_SIZE_MAX, offset, c.page - 1);
    ProbeTargetFirst(c, offset, p - 1);
    ModOfMod(offset, PAGE_SIZE_MAX, p);
    ModIs(offset % PAGE_SIZE_MAX, 0, offset % PAGE_SIZE_MAX, p);
    ModShift(offset - 1, p);
    DivMod(offset, p);
    ModIs(offset - 1, offset / p, offset % p - 1, p);
    DivMod(t, p);
  }

  // Offset inside the first small page, but not at its start: the probe wraps
  // onto the word before the offset, which no later write repairs.
  lemma LazySpoilsNeighbour(c: Chip, offset: nat, data: seq<Half>, mem: seq<Half>)
    requires Sound(c) && |mem| == c.size && PAGE_SIZE_MAX < |data| && offset + |data| <= c.size
    requires 0 < offset % PAGE_SIZE_MAX < c.page < PAGE_SIZE_MAX && mem[offset - 1] == 0xFFFF
    ensures Lazy(c, offset, data, mem) != Overwrite(mem, offset, data)
  {
    var p := c.page;
    DetectedIff(c, offset);
    ModIs(p, 1, 0, p);
    var mem' := Probed(c, offset, mem);
    SafeChunked(c, p, offset, data, mem');
    TwoPages(p);
    NeighbourHit(c, offset);
    var m := WrittenFrom(c, PAGE_SIZE_MAX, offset, March(), mem, PAGE_SIZE_MAX, offset - 1);
    assert Overwrite(mem', offset, data)[offset - 1] != Overwrite(mem, offset, data)[offset - 1];
  }

  // The first address from the offset on that is r past a largest page.
  lemma FindResidue(offset: nat, r: nat) returns (k: nat)
    requires r < PAGE_SIZE_MAX
    ensures k < PAGE_SIZE_MAX && (offset + k) % PAGE_SIZE_MAX == r
  {
    var o := offset % PAGE_SIZE_MAX;
    k := if o <= r then r - o else r - o + PAGE_SIZE_MAX;
  }

  // A page end that does not end the burst sends the next word astray.
  lemma MissedPageEnd(c: Chip, q: nat, offset: nat, k: nat)
    requires c.page > 0 && !Breaks(q, offset + k) && (offset + k) % c.page == c.page - 1
    requires Target(c, q, offset, k) == offset + k
    ensures Target(c, q, offset, k + 1) == offset + k + 1 - c.page
  {
    NextSamePage(c, offset + k);
  }

  lemma NotABreak(c: Chip, q: nat, x: nat)
    requires c.page < q <= PAGE_SIZE_MAX && x % PAGE_SIZE_MAX == c.page - 1 && c.page > 0
    ensures !Breaks(q, x)
  {
    assert Power2(128) by { assert Power2(2) && Power2(8) && Power2(32); }
    AndLow(x, q - 1, PAGE_SIZE_MAX);
    AndAtMost(c.page - 1, q - 1);
  }

  // Offset beyond the first small page: the inferred size is too large and not
  // every page end ends a burst.
  lemma SomeTargetOff(c: Chip, offset: nat) returns (t: nat)
    requires Sound(c) && c.page <= offset % PAGE_SIZE_MAX
    ensures 0 < t <= PAGE_SIZE_MAX && Target(c, Detected(c, offset), offset, t) != offset + t
  {
    var p, q := c.page, Detected(c, offset);
    DetectedIff(c, offset);
    var k := FindResidue(offset, p - 1);
    NotABreak(c, q, offset + k);
    if Target(c, q, offset, k) == offset + k {
      ModOfMod(offset + k, PAGE_SIZE_MAX, p);
      ModIs(p - 1, 0, p - 1, p);
      MissedPageEnd(c, q, offset, k);
      t := k + 1;
    } else {
      t := k;
    }
  }

  // Buffer contents that differ from each other and from the marching data.
  function Distinct(words: nat): (r: seq<Half>)
    requires words <= 32768
    ensures |r| == words && forall i :: 0 <= i < words ==> r[i] == 1000 + i
  {
    seq(words, i requires 0 <= i < words => 1000 + i)
  }

  // On a chip of zeros the probe leaves nothing but marching data.
  lemma OnlyMarching(c: Chip, offset: nat, mem: seq<Half>, a: nat)
    requires Sound(c) && a < |mem| && mem[a] == 0
    ensures Swap(Probed(c, offset, mem)[a]) < PAGE_SIZE_MAX
  {
    var n := WrittenFrom(c, PAGE_SIZE_MAX, offset, March(), mem, PAGE_SIZE_MAX, a);
    if n >= 0 { SwapSwap(March()[n]); }
  }

  // Word t of the buffer does not reach the address meant for it.
  lemma WordMissing(c: Chip, q: nat, offset: nat, data: seq<Half>, mem: seq<Half>, t: nat)
    requires c.page > 0 && t < |data| && t < BUFFER_MAX_COUNT && offset + t < |mem|
    requires forall i :: 0 <= i < |data| ==> data[i] == 1000 + i
    requires Swap(mem[offset + t]) < PAGE_SIZE_MAX && Target(c, q, offset, t) != offset + t
    ensures Swap(Chunked(c, q, offset, data, mem)[offset + t]) != data[t]
  {
    var m := ChunkedFrom(c, q, offset, data, mem, offset + t);
    if m >= 0 { SwapSwap(data[m]); }
  }

  lemma LazyMisplaces(c: Chip, offset: nat, words: nat, mem: seq<Half>)
    requires Sound(c) && |mem| == c.size && PAGE_SIZE_MAX < words && offset + words <= c.size
    requires c.page <= offset % PAGE_SIZE_MAX
    requires forall i :: 0 <= i < |mem| ==> mem[i] == 0
    ensures Lazy(c, offset, Distinct(words), mem) != Overwrite(mem, offset, Distinct(words))
  {
    var t := SomeTargetOff(c, offset);
    OnlyMarching(c, offset, mem, offset + t);
    WordMissing(c, Detected(c, offset), offset, Distinct(words), Probed(c, offset, mem), t);
    SwapSwap(Distinct(words)[t]);
    assert Overwrite(mem, offset, Distinct(words))[offset + t] == Swap(Distinct(words)[t]);
  }

  function Blank(size: nat, word: Half): (r: seq<Half>)
    ensures |r| == size && forall i :: 0 <= i < size ==> r[i] == word
  {
    seq(size, _ => word)
  }

  lemma PageAtMost(c: Chip)
    requires Sound(c)
    ensures c.page <= PAGE_SIZE_MAX
  {
    DivMod(PAGE_SIZE_MAX, c.page);
    MulAtLeast(PAGE_SIZE_MAX / c.page, c.page);
  }

  // A long write that begins with the probe is exact for all contents if and
  // only if the chip's pages are of the largest size or the offset is aligned
  // to that size.
  lemma LazyExactIff(c: Chip, offset: nat, words: nat)
    requires Sound(c) && PAGE_SIZE_MAX < words && offset + words <= c.size
    ensures (forall data: seq<Half>, mem: seq<Half> :: |data| == words && |mem| == c.size ==>
               Lazy(c, offset, data, mem) == Overwrite(mem, offset, data))
            <==> c.page == PAGE_SIZE_MAX || offset % PAGE_SIZE_MAX == 0
  {
    if c.page == PAGE_SIZE_MAX || offset % PAGE_SIZE_MAX == 0 {
      forall data: seq<Half>, mem: seq<Half> | |data| == words && |mem| == c.size
        ensures Lazy(c, offset, data, mem) == Overwrite(mem, offset, data)
      {
        LazyExact(c, offset, data, mem);
      }
    } else if offset % PAGE_SIZE_MAX < c.page {
      PageAtMost(c);
      LazySpoilsNeighbour(c, offset, Distinct(words), Blank(c.size, 0xFFFF));
    } else {
      LazyMisplaces(c, offset, words, Blank(c.size, 0));
    }
  }
}
