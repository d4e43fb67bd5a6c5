/**
 * What the three readers deliver from a whole recording, and the round trip
 * from captured packets to the packets of the pcap file.
 */
module Recording {
  import opened Layout
  import Capture
  import opened Pcap
  import opened Readers

  // The concatenated capture.
  ghost function All(blocks: seq<Block>): seq<seq<Byte>> {
    if blocks == [] then [] else Packets(blocks[0]) + All(blocks[1..])
  }

  ghost function Total(blocks: seq<Block>): nat {
    if blocks == [] then 0 else blocks[0].captured + Total(blocks[1..])
  }

  // No block before the last one is marked last or stalled.
  ghost predicate OnlyEndMarked(blocks: seq<Block>) {
    forall k :: 0 <= k < |blocks| - 1 ==> !blocks[k].last && !blocks[k].stalled
  }

  ghost function Numbered(packets: seq<seq<Byte>>, base: nat): seq<Labelled> {
    seq(|packets|, i requires 0 <= i < |packets| => Labelled(base + i, packets[i]))
  }

  lemma NumberedAppend(a: seq<seq<Byte>>, b: seq<seq<Byte>>, base: nat)
    ensures Numbered(a + b, base) == Numbered(a, base) + Numbered(b, base + |a|)
  {
  }

  lemma {:induction false} AllLength(blocks: seq<Block>)
    ensures |All(blocks)| == Total(blocks)
  {
    if blocks != [] { AllLength(blocks[1..]); }
  }

  lemma ExcerptNumbered(b: Block, base: nat, from: nat)
    requires from < b.captured
    ensures Excerpt(b, base, from, b.captured) == Numbered(Packets(b)[from..], base + from)
  {
  }

  lemma SuffixOfRest(b: Block, more: seq<seq<Byte>>, start: nat)
    requires start >= b.captured
    ensures From(Packets(b) + more, start) == From(more, start - b.captured)
  {
  }

  // From packet `start` on a reader can show every packet, under its number in
  // the concatenated capture.
  ghost predicate ShowsAll(blocks: seq<Block>, base: nat, start: nat) {
    Visible(blocks, base, start) == Numbered(From(All(blocks), start), base + start)
  }

  lemma VisibleNone(base: nat, start: nat)
    ensures ShowsAll([], base, start)
  {
  }

  lemma VisibleLater(blocks: seq<Block>, base: nat, start: nat)
    requires blocks != [] && start >= blocks[0].captured
    requires ShowsAll(blocks[1..], base + blocks[0].captured, start - blocks[0].captured)
    ensures ShowsAll(blocks, base, start)
  {
    SuffixOfRest(blocks[0], All(blocks[1..]), start);
  }

  lemma SuffixOfFirst(b: Block, more: seq<seq<Byte>>, base: nat, start: nat)
    requires start < b.captured
    ensures Numbered(From(Packets(b) + more, start), base + start) ==
            Numbered(Packets(b)[start..], base + start) + Numbered(more, base + b.captured)
  {
    assert From(Packets(b) + more, start) == Packets(b)[start..] + more;
    NumberedAppend(Packets(b)[start..], more, base + start);
  }

  lemma FirstNumbered(b: Block, more: seq<seq<Byte>>, base: nat, start: nat, shown: seq<Labelled>)
    requires start < b.captured && shown == Numbered(more, base + b.captured)
    ensures Excerpt(b, base, start, b.captured) + shown == Numbered(From(Packets(b) + more, start), base + start)
  {
    ExcerptNumbered(b, base, start);
    SuffixOfFirst(b, more, base, start);
  }

  lemma VisibleGoesOn(blocks: seq<Block>, base: nat, start: nat)
    requires OnlyEndMarked(blocks) && blocks != [] && start < blocks[0].captured
    ensures Visible(blocks, base, start) ==
            Excerpt(blocks[0], base, start, blocks[0].captured) + Visible(blocks[1..], base + blocks[0].captured, 0)
  {
    if blocks[1..] == [] { assert Visible(blocks[1..], base + blocks[0].captured, 0) == []; }
  }

  lemma FromZero<T>(s: seq<T>)
    ensures From(s, 0) == s
  {
  }

  lemma ShownFromStart(blocks: seq<Block>, base: nat)
    requires ShowsAll(blocks, base, 0)
    ensures Visible(blocks, base, 0) == Numbered(All(blocks), base)
  {
    FromZero(All(blocks));
  }

  lemma VisibleFirst(blocks: seq<Block>, base: nat, start: nat)
    requires OnlyEndMarked(blocks) && blocks != [] && start < blocks[0].captured
    requires ShowsAll(blocks[1..], base + blocks[0].captured, 0)
    ensures ShowsAll(blocks, base, start)
  {
    var more := All(blocks[1..]);
    ShownFromStart(blocks[1..], base + blocks[0].captured);
    VisibleGoesOn(blocks, base, start);
    FirstNumbered(blocks[0], more, base, start, Visible(blocks[1..], base + blocks[0].captured, 0));
    assert All(blocks) == Packets(blocks[0]) + more;
  }

  lemma TailMarked(blocks: seq<Block>)
    requires OnlyEndMarked(blocks) && blocks != []
    ensures OnlyEndMarked(blocks[1..])
  {
  }

  lemma {:induction false} VisibleIsSuffix(blocks: seq<Block>, base: nat, start: nat)
    requires OnlyEndMarked(blocks)
    ensures ShowsAll(blocks, base, start)
  {
    if blocks == [] {
      VisibleNone(base, start);
      return;
    }
    TailMarked(blocks);
    var n := blocks[0].captured;
    if start >= n {
      VisibleIsSuffix(blocks[1..], base + n, start - n);
      VisibleLater(blocks, base, start);
    } else {
      VisibleIsSuffix(blocks[1..], base + n, 0);
      VisibleFirst(blocks, base, start);
    }
  }

  lemma TotalOfPrefix(blocks: seq<Block>, k: nat)
    requires 0 < k <= |blocks|
    ensures Total(blocks[..k]) == blocks[0].captured + Total(blocks[1..][..k - 1])
    ensures blocks[1..][k - 1..] == blocks[k..]
  {
    assert blocks[..k][1..] == blocks[1..][..k - 1];
  }

  // Starting at a block is starting at the number of its first packet.
  lemma {:induction false} VisibleFromBlock(blocks: seq<Block>, base: nat, k: nat, n: nat)
    requires k <= |blocks| && n == Total(blocks[..k])
    ensures Visible(blocks, base, n) == Visible(blocks[k..], base + n, 0)
    ensures Ending(blocks, n) == Ending(blocks[k..], 0)
  {
    if k == 0 {
      assert blocks[..0] == [] && blocks[0..] == blocks;
    } else {
      TotalOfPrefix(blocks, k);
      VisibleFromBlock(blocks[1..], base + blocks[0].captured, k - 1, n - blocks[0].captured);
    }
  }

  lemma RebaseAppend(b: Block, base: nat, base': nat, start: nat, more: seq<Labelled>, more': seq<Labelled>)
    requires start < b.captured && Bytes(more) == Bytes(more')
    ensures Bytes(Excerpt(b, base, start, b.captured) + more) == Bytes(Excerpt(b, base', start, b.captured) + more')
  {
    var e, e' := Excerpt(b, base, start, b.captured), Excerpt(b, base', start, b.captured);
    assert |Bytes(more)| == |more| && |Bytes(more')| == |more'|;
    forall i | 0 <= i < |e + more| ensures (e + more)[i].bytes == (e' + more')[i].bytes {
      if i >= |e| { assert Bytes(more)[i - |e|] == Bytes(more')[i - |e|]; }
    }
  }

  lemma {:induction false} VisibleRebase(blocks: seq<Block>, base: nat, base': nat, start: nat)
    ensures Bytes(Visible(blocks, base, start)) == Bytes(Visible(blocks, base', start))
  {
    if blocks != [] {
      var b, rest := blocks[0], blocks[1..];
      if start >= b.captured {
        VisibleRebase(rest, base + b.captured, base' + b.captured, start - b.captured);
      } else {
        VisibleRebase(rest, base + b.captured, base' + b.captured, 0);
        RebaseAppend(b, base, base', start,
                     if b.last || b.stalled then [] else Visible(rest, base + b.captured, 0),
                     if b.last || b.stalled then [] else Visible(rest, base' + b.captured, 0));
      }
    }
  }

  // What is asked for: `count` packets from packet `start`, or as many as there are.
  ghost function Wanted(packets: seq<seq<Byte>>, start: nat, count: nat): seq<seq<Byte>> {
    Take(From(packets, start), count)
  }

  lemma BytesOfNumbered(packets: seq<seq<Byte>>, base: nat, count: nat)
    ensures Take(Numbered(packets, base), count) == Numbered(Take(packets, count), base)
    ensures Bytes(Numbered(Take(packets, count), base)) == Take(packets, count)
  {
  }

  lemma TakenNumbered(shown: seq<Labelled>, packets: seq<seq<Byte>>, start: nat, count: nat)
    requires shown == Numbered(From(packets, start), start)
    ensures Take(shown, count) == Numbered(Wanted(packets, start, count), start)
    ensures Bytes(Take(shown, count)) == Wanted(packets, start, count)
  {
    BytesOfNumbered(From(packets, start), start, count);
  }

  lemma ShownWanted(blocks: seq<Block>, start: nat, count: nat)
    requires ShowsAll(blocks, 0, start)
    ensures Take(Visible(blocks, 0, start), count) == Numbered(Wanted(All(blocks), start, count), start)
    ensures Bytes(Take(Visible(blocks, 0, start), count)) == Wanted(All(blocks), start, count)
  {
    var shown := Visible(blocks, 0, start);
    assert 0 + start == start;
    TakenNumbered(shown, All(blocks), start, count);
  }

  lemma VisibleWanted(blocks: seq<Block>, start: nat, count: nat)
    requires OnlyEndMarked(blocks)
    ensures Take(Visible(blocks, 0, start), count) == Numbered(Wanted(All(blocks), start, count), start)
    ensures Bytes(Take(Visible(blocks, 0, start), count)) == Wanted(All(blocks), start, count)
  {
    VisibleIsSuffix(blocks, 0, start);
    ShownWanted(blocks, start, count);
  }

  // How a reader of these blocks ends.
  ghost function Ends(blocks: seq<Block>, start: nat, count: nat): Status {
    Outcome(|Visible(blocks, 0, start)|, Ending(blocks, start), count)
  }

  lemma {:induction false} PositiveTotal(blocks: seq<Block>)
    requires blocks != [] && blocks[|blocks| - 1].captured > 0
    ensures Total(blocks) > 0
  {
    if |blocks| > 1 { PositiveTotal(blocks[1..]); }
  }

  lemma {:induction false} EndingIsLast(blocks: seq<Block>, start: nat)
    requires OnlyEndMarked(blocks) && start < Total(blocks)
    requires var b := blocks[|blocks| - 1]; b.captured > 0 && (b.last || b.stalled)
    ensures Ending(blocks, start) == Some(blocks[|blocks| - 1])
  {
    var rest := blocks[1..];
    if rest == [] {
    } else if start >= blocks[0].captured {
      EndingIsLast(rest, start - blocks[0].captured);
    } else {
      PositiveTotal(rest);
      EndingIsLast(rest, 0);
    }
  }

  lemma {:induction false} NoEnding(blocks: seq<Block>, start: nat)
    requires start >= Total(blocks)
    ensures Ending(blocks, start) == None
  {
    if blocks != [] { NoEnding(blocks[1..], start - blocks[0].captured); }
  }

  // A recording ends with a mark when its last block is marked and not empty.
  ghost predicate EndMarked(blocks: seq<Block>) {
    blocks != [] && var b := blocks[|blocks| - 1]; b.captured > 0 && (b.last || b.stalled)
  }

  // Without it, as after the writers have completed their quota, no reader finds
  // an end.
  lemma {:induction false} UnmarkedEnding(blocks: seq<Block>, start: nat)
    requires OnlyEndMarked(blocks) && !EndMarked(blocks)
    ensures Ending(blocks, start) == None
  {
    if blocks != [] {
      var rest := blocks[1..];
      UnmarkedEnding(rest, if start >= blocks[0].captured then start - blocks[0].captured else 0);
    }
  }

  // How a reader of a recording ends.
  lemma EndsOfRecording(blocks: seq<Block>, start: nat, count: nat)
    requires OnlyEndMarked(blocks)
    ensures Ends(blocks, start, count) ==
            if start >= Total(blocks) then CannotOpen
            else if count == 0 then DumpError
            else if count <= Total(blocks) - start then Done
            else if !EndMarked(blocks) then CannotOpen
            else if blocks[|blocks| - 1].stalled then EndStalled else EndNormal
  {
    VisibleIsSuffix(blocks, 0, start);
    AllLength(blocks);
    if !EndMarked(blocks) {
      UnmarkedEnding(blocks, start);
    } else if start < Total(blocks) {
      EndingIsLast(blocks, start);
    } else {
      NoEnding(blocks, start);
    }
  }

  // ----- from the wire to the pcap file

  function Flatten(captures: seq<seq<seq<Byte>>>): seq<seq<Byte>> {
    if captures == [] then [] else captures[0] + Flatten(captures[1..])
  }

  // Blocks that hold the captured packets one after the other.
  ghost predicate Hold(blocks: seq<Block>, captures: seq<seq<seq<Byte>>>) {
    |blocks| == |captures| && forall k :: 0 <= k < |blocks| ==> Packets(blocks[k]) == captures[k]
  }

  lemma {:induction false} AllOfCaptures(blocks: seq<Block>, captures: seq<seq<seq<Byte>>>)
    requires Hold(blocks, captures)
    ensures All(blocks) == Flatten(captures)
  {
    if blocks != [] { AllOfCaptures(blocks[1..], captures[1..]); }
  }

  // ----- the programs

  method ToLibpcap(files: Store, writers: nat, start: nat, count: nat, ghost blocks: seq<Block>)
    returns (status: Status, pcap: seq<Byte>)
    requires Recorded(files, writers, blocks)
    ensures status == Ends(blocks, start, count)
    ensures Parse(pcap) == Ethernet(Bytes(Take(Visible(blocks, 0, start), count)))
    ensures OnlyEndMarked(blocks) ==> Parse(pcap) == Ethernet(Wanted(All(blocks), start, count))
    ensures forall captures :: OnlyEndMarked(blocks) && Hold(blocks, captures) ==>
              Parse(pcap) == Ethernet(Wanted(Flatten(captures), start, count))
  {
    var records, listing;
    status, records, listing := Walk(files, writers, 0, start, count, blocks);
    pcap := HEADER + records;
    assert From(blocks, 0) == blocks;
    ParseOf(Bytes(listing));
    if OnlyEndMarked(blocks) { VisibleWanted(blocks, start, count); }
    forall captures | OnlyEndMarked(blocks) && Hold(blocks, captures)
      ensures Parse(pcap) == Ethernet(Wanted(Flatten(captures), start, count))
    {
      AllOfCaptures(blocks, captures);
    }
  }

  lemma SameShown(rest: seq<Block>, n: nat, shown: seq<Labelled>)
    requires shown == Visible(rest, n, 0)
    ensures Bytes(Visible(rest, 0, 0)) == Bytes(shown)
  {
    VisibleRebase(rest, 0, n, 0);
  }

  lemma SameBytes(blocks: seq<Block>, rest: seq<Block>, block: nat, n: nat)
    requires block <= |blocks| && n == Total(blocks[..block]) && rest == blocks[block..]
    ensures Bytes(Visible(rest, 0, 0)) == Bytes(Visible(blocks, 0, n))
  {
    VisibleFromBlock(blocks, 0, block, n);
    SameShown(rest, n, Visible(blocks, 0, n));
  }

  lemma SameFromBlock(blocks: seq<Block>, block: nat, n: nat)
    requires block <= |blocks| && n == Total(blocks[..block])
    ensures Bytes(Visible(blocks[block..], 0, 0)) == Bytes(Visible(blocks, 0, n))
    ensures Ending(blocks[block..], 0) == Ending(blocks, n)
  {
    SameBytes(blocks, blocks[block..], block, n);
    VisibleFromBlock(blocks, 0, block, n);
  }

  lemma TakeBytes(v: seq<Labelled>, v': seq<Labelled>, count: nat)
    requires Bytes(v) == Bytes(v')
    ensures |v| == |v'| && Bytes(Take(v, count)) == Bytes(Take(v', count))
  {
    assert |Bytes(v)| == |v| && |Bytes(v')| == |v'|;
    forall i | 0 <= i < |v| ensures v[i].bytes == v'[i].bytes {
      assert Bytes(v)[i] == Bytes(v')[i];
    }
  }

  lemma BlockIsPacketStart(blocks: seq<Block>, block: nat, count: nat)
    requires block <= |blocks|
    ensures Bytes(Take(Visible(From(blocks, block), 0, 0), count)) ==
            Bytes(Take(Visible(blocks, 0, Total(blocks[..block])), count))
    ensures Ends(From(blocks, block), 0, count) == Ends(blocks, Total(blocks[..block]), count)
  {
    assert From(blocks, block) == blocks[block..];
    SameFromBlock(blocks, block, Total(blocks[..block]));
    TakeBytes(Visible(blocks[block..], 0, 0), Visible(blocks, 0, Total(blocks[..block])), count);
  }

  method Block2Libpcap(files: Store, writers: nat, block: nat, count: nat, ghost blocks: seq<Block>)
    returns (status: Status, pcap: seq<Byte>)
    requires Recorded(files, writers, blocks)
    ensures block <= |blocks| ==>
              && status == Ends(blocks, Total(blocks[..block]), count)
              && Parse(pcap) == Ethernet(Bytes(Take(Visible(blocks, 0, Total(blocks[..block])), count)))
    ensures block > |blocks| ==> status == CannotOpen && Parse(pcap) == Ethernet([])
  {
    var records, listing;
    status, records, listing := Walk(files, writers, block, 0, count, blocks);
    pcap := HEADER + records;
    ParseOf(Bytes(listing));
    if block <= |blocks| {
      BlockIsPacketStart(blocks, block, count);
    } else {
      assert Bytes(listing) == [];
    }
  }

  method DumpTool(files: Store, writers: nat, start: nat, count: nat, ghost blocks: seq<Block>)
    returns (status: Status, listing: seq<Labelled>)
    requires Recorded(files, writers, blocks)
    ensures status == Ends(blocks, start, count)
    ensures OnlyEndMarked(blocks) ==> listing == Numbered(Wanted(All(blocks), start, count), start)
  {
    var records;
    status, records, listing := Walk(files, writers, 0, start, count, blocks);
    assert From(blocks, 0) == blocks;
    if OnlyEndMarked(blocks) { VisibleWanted(blocks, start, count); }
  }

  // ----- the round trip

  lemma {:induction false} AllAppend(blocks: seq<Block>, b: Block)
    ensures All(blocks + [b]) == All(blocks) + Packets(b)
  {
    if blocks == [] {
      assert [b][1..] == [];
    } else {
      assert (blocks + [b])[1..] == blocks[1..] + [b];
      AllAppend(blocks[1..], b);
    }
  }

  lemma RecordedNext(files: Store, writers: nat, blocks: seq<Block>, b: Block)
    requires Recorded(files, writers, blocks) && WellFormed(b)
    ensures Recorded(files[(|blocks| % writers, |blocks|) := b], writers, blocks + [b])
  {
  }

  // What a capture of the first i packets has recorded: whole blocks, unmarked but
  // for the last one, which is marked when the traffic left it open.
  ghost predicate Captured(packets: seq<seq<Byte>>, i: nat, files: Store, writers: nat, blocks: seq<Block>) {
    && i <= |packets| && Recorded(files, writers, blocks) && All(blocks) == packets[..i]
    && OnlyEndMarked(blocks)
    && (blocks != [] ==> var b := blocks[|blocks| - 1];
          !b.stalled && b.captured > 0 && (b.last <==> i == |packets| && !Capture.EndsClosed(packets)))
    && (blocks == [] ==> i == 0)
    && (i < |packets| ==> (Capture.EndsClosed(packets) <==> Capture.EndsClosed(packets[i..])))
  }

  // How the next block leaves the rest of the traffic.
  lemma RestEnds(packets: seq<seq<Byte>>, i: nat, used: nat)
    requires i < |packets| && used == Capture.BlockSize(packets[i..], 0)
    requires Capture.EndsClosed(packets) <==> Capture.EndsClosed(packets[i..])
    ensures 0 < used <= |packets| - i
    ensures i + used < |packets| ==> (Capture.EndsClosed(packets) <==> Capture.EndsClosed(packets[i + used..]))
    ensures i + used == |packets| ==> (Capture.EndsClosed(packets) <==> Capture.Closes(packets[i..], used))
  {
    assert packets[i..][used..] == packets[i + used..];
  }

  lemma CapturedNext(packets: seq<seq<Byte>>, i: nat, files: Store, writers: nat, blocks: seq<Block>,
                     b: Block, used: nat)
    requires Captured(packets, i, files, writers, blocks) && i < |packets| && used == Capture.BlockSize(packets[i..], 0)
    requires WellFormed(b) && Packets(b) == packets[i..][..used] && !b.stalled
    requires b.last <==> used == |packets[i..]| && !Capture.Closes(packets[i..], used)
    ensures Captured(packets, i + used, files[(|blocks| % writers, |blocks|) := b], writers, blocks + [b])
  {
    RecordedNext(files, writers, blocks, b);
    AllAppend(blocks, b);
    RestEnds(packets, i, used);
    assert packets[..i] + packets[i..][..used] == packets[..i + used];
    assert b.captured == |Packets(b)|;
  }

  // The traffic goes into block after block, each over whatever memory holds, and
  // each block to the disk of its writer.
  method Record(packets: seq<seq<Byte>>, writers: nat, data: seq<Byte>, len: seq<seq<nat>>)
    returns (files: Store, ghost blocks: seq<Block>)
    requires writers >= 1 && Table(len) && |data| == DATA_BYTES
    requires forall i :: 0 <= i < |packets| ==> Capture.Frame(packets[i])
    ensures Captured(packets, |packets|, files, writers, blocks)
  {
    files, blocks := map[], [];
    var i, k := 0, 0;
    var memory, table := data, len;
    assert packets[0..] == packets;
    while i < |packets|
      invariant Captured(packets, i, files, writers, blocks) && k == |blocks|
      invariant Table(table) && |memory| == DATA_BYTES
    {
      var b, used := Capture.FillBlock(packets[i..], memory, table);
      RestEnds(packets, i, used);
      CapturedNext(packets, i, files, writers, blocks, b, used);
      files := files[(k % writers, k) := b];
      blocks := blocks + [b];
      memory, table := b.data, b.len;
      i, k := i + used, k + 1;
    }
  }

  // From the wire to the pcap file: the packets asked for come back, in order and
  // with their bytes.  A reader that is asked for too much finds the end mark, but
  // for traffic that ended with the packet that closed a block.
  method RoundTrip(packets: seq<seq<Byte>>, writers: nat, data: seq<Byte>, len: seq<seq<nat>>, start: nat, count: nat)
    returns (status: Status, pcap: seq<Byte>)
    requires writers >= 1 && Table(len) && |data| == DATA_BYTES
    requires forall i :: 0 <= i < |packets| ==> Capture.Frame(packets[i])
    ensures Parse(pcap) == Ethernet(Wanted(packets, start, count))
    ensures status == if start >= |packets| then CannotOpen
                      else if count == 0 then DumpError
                      else if count <= |packets| - start then Done
                      else if Capture.EndsClosed(packets) then CannotOpen else EndNormal
  {
    var files;
    ghost var blocks;
    files, blocks := Record(packets, writers, data, len);
    status, pcap := ToLibpcap(files, writers, start, count, blocks);
    assert packets[..|packets|] == packets;
    AllLength(blocks);
    EndsOfRecording(blocks, start, count);
  }
}
