/**
 * The readers of a recording: `to_libpcap` and `dump_packet` start from a packet
 * number, `block2libpcap` from a block number.  All three walk the files of the
 * writers in turn and unfold each block's slot-major layout into packet order.
 */
module Readers {
  import opened Arith
  import opened Layout
  import opened Pcap

  // A packet as `dump_packet` prints it: with its number.
  datatype Labelled = Labelled(index: nat, bytes: seq<Byte>)

  datatype Status = CannotOpen | DumpError | Done | EndStalled | EndNormal

  // Bytes of slot j before packet p: what local_len[j] must hold.
  ghost function Passed(len: seq<seq<nat>>, p: nat, j: nat): nat
    requires Table(len) && p <= ROWS * SLOTS && j < SLOTS
  {
    if j < p % SLOTS then Before(len, p / SLOTS + 1, j) else Before(len, p / SLOTS, j)
  }

  lemma PassedNext(len: seq<seq<nat>>, p: nat, j: nat)
    requires Table(len) && p < ROWS * SLOTS && j < SLOTS
    ensures Passed(len, p + 1, j) == Passed(len, p, j) + if j == p % SLOTS then Len(len, p) else 0
    ensures j == p % SLOTS ==> STRIDE * j + Passed(len, p, j) == Address(len, p)
  {
  }

  // Sums the slot lengths of everything before packet `start`.
  method SkipTo(len: seq<seq<nat>>, start: nat) returns (local: array<nat>)
    requires Table(len) && start < ROWS * SLOTS
    ensures fresh(local) && local.Length == SLOTS
    ensures forall j :: 0 <= j < SLOTS ==> local[j] == Passed(len, start, j)
  {
    local := new nat[SLOTS];
    for i := 0 to SLOTS
      invariant forall j :: 0 <= j < i ==> local[j] == 0
    {
      local[i] := 0;
    }
    var row, partial := start / SLOTS, start % SLOTS;
    for i := 0 to row
      invariant forall j :: 0 <= j < SLOTS ==> local[j] == Before(len, i, j)
    {
      for j := 0 to SLOTS
        invariant forall k :: 0 <= k < j ==> local[k] == Before(len, i + 1, k)
        invariant forall k :: j <= k < SLOTS ==> local[k] == Before(len, i, k)
      {
        local[j] := local[j] + len[i][j];
      }
    }
    for j := 0 to partial
      invariant forall k :: 0 <= k < j ==> local[k] == Before(len, row + 1, k)
      invariant forall k :: j <= k < SLOTS ==> local[k] == Before(len, row, k)
    {
      local[j] := local[j] + len[row][j];
    }
  }

  // What one block contributes from packet `from` up to packet `to`.
  ghost function Excerpt(b: Block, base: nat, from: nat, to: nat): seq<Labelled>
    requires from <= to <= b.captured
  {
    seq(to - from, i requires 0 <= i < to - from => Labelled(base + from + i, Packet(b, from + i)))
  }

  ghost function Bytes(listing: seq<Labelled>): seq<seq<Byte>> {
    seq(|listing|, i requires 0 <= i < |listing| => listing[i].bytes)
  }

  ghost predicate SmallListing(listing: seq<Labelled>) {
    forall i :: 0 <= i < |listing| ==> |listing[i].bytes| <= STRIDE
  }

  lemma BytesAppend(a: seq<Labelled>, b: seq<Labelled>)
    requires SmallListing(a) && SmallListing(b)
    ensures SmallListing(a + b) && Bytes(a + b) == Bytes(a) + Bytes(b)
    ensures Small(Bytes(a)) && Small(Bytes(b)) && Small(Bytes(a + b))
    ensures Records(Bytes(a + b)) == Records(Bytes(a)) + Records(Bytes(b))
  {
    assert Bytes(a + b) == Bytes(a) + Bytes(b);
    RecordsAppend(Bytes(a), Bytes(b));
  }

  lemma BytesOne(l: Labelled)
    requires |l.bytes| <= STRIDE
    ensures SmallListing([l]) && Records(Bytes([l])) == Record(l.bytes)
  {
    assert Bytes([l]) == [l.bytes];
    assert [l.bytes][1..] == [];
  }

  lemma ExcerptNext(b: Block, base: nat, from: nat, p: nat)
    requires WellFormed(b) && from <= p < b.captured
    ensures Excerpt(b, base, from, p + 1) == Excerpt(b, base, from, p) + [Labelled(base + p, Packet(b, p))]
    ensures |Packet(b, p)| <= STRIDE
  {
  }

  ghost predicate Written(records: seq<Byte>, listing: seq<Labelled>) {
    SmallListing(listing) && Small(Bytes(listing)) && records == Records(Bytes(listing))
  }

  ghost predicate Emitted(b: Block, base: nat, from: nat, to: nat, bytes: seq<Byte>, shown: seq<Labelled>) {
    from <= to <= b.captured && shown == Excerpt(b, base, from, to) && Written(bytes, shown)
  }

  lemma EmittedNext(b: Block, base: nat, start: nat, p: nat, bytes: seq<Byte>, shown: seq<Labelled>)
    requires WellFormed(b) && Emitted(b, base, start, p, bytes, shown) && p < b.captured
    ensures |Packet(b, p)| <= STRIDE
    ensures Emitted(b, base, start, p + 1, bytes + Record(Packet(b, p)), shown + [Labelled(base + p, Packet(b, p))])
  {
    ExcerptNext(b, base, start, p);
    BytesOne(Labelled(base + p, Packet(b, p)));
    BytesAppend(shown, [Labelled(base + p, Packet(b, p))]);
  }

  ghost predicate Summed(local: array<nat>, len: seq<seq<nat>>, p: nat)
    requires Table(len) && p <= ROWS * SLOTS
    reads local
  {
    local.Length == SLOTS && forall j :: 0 <= j < SLOTS ==> local[j] == Passed(len, p, j)
  }

  // The packet at (row, partial), which is packet p, and the sums for p + 1.
  method ReadPacket(b: Block, local: array<nat>, row: nat, partial: nat, ghost p: nat) returns (packet: seq<Byte>)
    requires WellFormed(b) && p < b.captured && row == p / SLOTS && partial == p % SLOTS
    requires Summed(local, b.len, p)
    modifies local
    ensures packet == Packet(b, p) && Summed(local, b.len, p + 1)
  {
    PassedNext(b.len, p, partial);
    InData(b.len, b.captured, p);
    var from := STRIDE * partial + local[partial];
    packet := b.data[from..from + b.len[row][partial]];
    local[partial] := local[partial] + b.len[row][partial];
    forall j | 0 <= j < SLOTS ensures local[j] == Passed(b.len, p + 1, j) {
      PassedNext(b.len, p, j);
    }
  }

  // Row and slot of packet p, and one step on.
  ghost predicate Stands(row: nat, partial: nat, p: nat) { row == p / SLOTS && partial == p % SLOTS }

  method NextCell(row: nat, partial: nat, ghost p: nat) returns (row': nat, partial': nat)
    requires Stands(row, partial, p)
    ensures Stands(row', partial', p + 1)
  {
    row', partial' := row, partial + 1;
    if partial' == SLOTS {
      partial' := 0;
      row' := row' + 1;
    }
  }

  // The unfolding loop: writes at most `count` packets of block b from packet
  // `start`.  `pcap` is what the two pcap tools append to their output and
  // `listing` what the hex dumper prints.
  method DumpPacket(b: Block, base: nat, start: nat, count: nat)
    returns (processed: nat, pcap: seq<Byte>, listing: seq<Labelled>)
    requires WellFormed(b) && start < b.captured
    ensures processed == if count < b.captured - start then count else b.captured - start
    ensures Emitted(b, base, start, start + processed, pcap, listing)
  {
    var maxRow, maxPartial := b.captured / SLOTS, b.captured % SLOTS;
    var row: nat, partial: nat := start / SLOTS, start % SLOTS;
    var local := SkipTo(b.len, start);
    ghost var p := start;
    processed, pcap, listing := 0, [], [];
    while !(row == maxRow && partial == maxPartial) && processed != count
      invariant start <= p <= b.captured && Stands(row, partial, p)
      invariant p == start + processed && processed <= count
      invariant fresh(local) && Summed(local, b.len, p)
      invariant Emitted(b, base, start, p, pcap, listing)
      decreases b.captured - p
    {
      EmittedNext(b, base, start, p, pcap, listing);
      var packet := ReadPacket(b, local, row, partial, p);
      pcap := pcap + Record(packet);
      listing := listing + [Labelled(base + (row * SLOTS + partial), packet)];
      processed := processed + 1;
      row, partial := NextCell(row, partial, p);
      p := p + 1;
    }
  }

  // ----- walking the files

  // File k of a recording lies in the directory of writer k mod writers.
  type Store = map<(nat, nat), Block>

  ghost predicate Recorded(files: Store, writers: nat, blocks: seq<Block>) {
    && writers >= 1
    && (forall k: nat :: k < |blocks| ==> WellFormed(blocks[k]))
    && (forall k: nat :: (k % writers, k) in files <==> k < |blocks|)
    && (forall k: nat :: k < |blocks| ==> files[(k % writers, k)] == blocks[k])
  }

  // Everything a reader can show from packet `start` on: it skips whole blocks,
  // unfolds the rest and stops behind the first unfolded block that is marked
  // last or stalled.
  ghost function Visible(blocks: seq<Block>, base: nat, start: nat): seq<Labelled> {
    if blocks == [] then []
    else
      var b, rest := blocks[0], blocks[1..];
      if start >= b.captured then Visible(rest, base + b.captured, start - b.captured)
      else Excerpt(b, base, start, b.captured) +
           if b.last || b.stalled then [] else Visible(rest, base + b.captured, 0)
  }

  // The marked block behind which a reader stops, if it meets one.
  ghost function Ending(blocks: seq<Block>, start: nat): Option<Block> {
    if blocks == [] then None
    else if start >= blocks[0].captured then Ending(blocks[1..], start - blocks[0].captured)
    else if blocks[0].last || blocks[0].stalled then Some(blocks[0])
    else Ending(blocks[1..], 0)
  }

  // How a reader ends that can show n packets and was asked for `count`.
  ghost function Outcome(n: nat, ending: Option<Block>, count: nat): Status {
    if count == 0 then if n == 0 then CannotOpen else DumpError
    else if count <= n then Done
    else
      match ending
      case None => CannotOpen
      case Some(b) => if b.stalled then EndStalled else EndNormal
  }

  ghost function Take<T>(s: seq<T>, n: nat): seq<T> { if n < |s| then s[..n] else s }

  ghost function From<T>(s: seq<T>, n: nat): seq<T> { if n < |s| then s[n..] else [] }

  // A reader's progress: `start` and `count` are what it still wants, `offs` is
  // the number of the next block's first packet, `records` and `listing` what it
  // has written.
  datatype Progress = Progress(offs: nat, start: nat, count: nat, records: seq<Byte>, listing: seq<Labelled>)

  // `whole` is all it could show, `rest` the blocks it has not opened yet.
  ghost predicate OnTrack(whole: seq<Labelled>, ending: Option<Block>, count: nat, rest: seq<Block>, p: Progress) {
    && whole == p.listing + Visible(rest, p.offs, p.start)
    && ending == Ending(rest, p.start)
    && p.count + |p.listing| == count && (p.count == 0 ==> count == 0)
    && Written(p.records, p.listing)
  }

  ghost predicate Final(whole: seq<Labelled>, ending: Option<Block>, count: nat,
                        status: Status, records: seq<Byte>, listing: seq<Labelled>)
  {
    && listing == Take(whole, count) && Written(records, listing)
    && status == Outcome(|whole|, ending, count)
  }

  lemma WrittenAppend(records: seq<Byte>, listing: seq<Labelled>, bytes: seq<Byte>, shown: seq<Labelled>)
    requires Written(records, listing) && Written(bytes, shown)
    ensures Written(records + bytes, listing + shown)
  {
    BytesAppend(listing, shown);
  }

  // What unfolding the first block takes off the visible packets.
  lemma VisibleShown(rest: seq<Block>, offs: nat, start: nat)
    requires rest != [] && start < rest[0].captured
    ensures var b := rest[0]; var marked := b.last || b.stalled;
            && Visible(rest, offs, start) == Excerpt(b, offs, start, b.captured) +
               (if marked then [] else Visible(rest[1..], offs + b.captured, 0))
            && Ending(rest, start) == if marked then Some(b) else Ending(rest[1..], 0)
  {
  }

  lemma Regroup<T>(whole: seq<T>, a: seq<T>, bc: seq<T>, b: seq<T>, c: seq<T>)
    requires whole == a + bc && bc == b + c
    ensures whole == (a + b) + c
  {
  }

  lemma ShownGoesOn(whole: seq<Labelled>, listing: seq<Labelled>, rest: seq<Block>, offs: nat, start: nat,
                    shown: seq<Labelled>)
    requires rest != [] && start < rest[0].captured && !rest[0].last && !rest[0].stalled
    requires whole == listing + Visible(rest, offs, start)
    requires shown == Excerpt(rest[0], offs, start, rest[0].captured)
    ensures whole == listing + shown + Visible(rest[1..], offs + rest[0].captured, 0)
    ensures Ending(rest, start) == Ending(rest[1..], 0)
  {
    VisibleShown(rest, offs, start);
    Regroup(whole, listing, Visible(rest, offs, start), shown, Visible(rest[1..], offs + rest[0].captured, 0));
  }

  lemma ShowBlock(whole: seq<Labelled>, ending: Option<Block>, count: nat, rest: seq<Block>, p: Progress,
                  bytes: seq<Byte>, shown: seq<Labelled>)
    requires OnTrack(whole, ending, count, rest, p) && rest != [] && p.start < rest[0].captured
    requires Emitted(rest[0], p.offs, p.start, rest[0].captured, bytes, shown)
    requires |shown| < p.count && !rest[0].last && !rest[0].stalled
    ensures OnTrack(whole, ending, count, rest[1..],
                    Progress(p.offs + rest[0].captured, 0, p.count - |shown|, p.records + bytes, p.listing + shown))
  {
    ShownGoesOn(whole, p.listing, rest, p.offs, p.start, shown);
    WrittenAppend(p.records, p.listing, bytes, shown);
  }

  lemma ShowLastBlock(whole: seq<Labelled>, ending: Option<Block>, count: nat, rest: seq<Block>, p: Progress,
                      bytes: seq<Byte>, shown: seq<Labelled>)
    requires OnTrack(whole, ending, count, rest, p) && rest != [] && p.start < rest[0].captured
    requires Emitted(rest[0], p.offs, p.start, rest[0].captured, bytes, shown)
    requires |shown| < p.count && (rest[0].last || rest[0].stalled)
    ensures Final(whole, ending, count, if rest[0].stalled then EndStalled else EndNormal,
                  p.records + bytes, p.listing + shown)
  {
    VisibleShown(rest, p.offs, p.start);
    WrittenAppend(p.records, p.listing, bytes, shown);
    Regroup(whole, p.listing, Visible(rest, p.offs, p.start), shown, []);
  }

  lemma ShowEnough(whole: seq<Labelled>, ending: Option<Block>, count: nat, rest: seq<Block>, p: Progress,
                   bytes: seq<Byte>, shown: seq<Labelled>)
    requires OnTrack(whole, ending, count, rest, p) && rest != [] && p.start < rest[0].captured
    requires p.start + p.count <= rest[0].captured
    requires Emitted(rest[0], p.offs, p.start, p.start + p.count, bytes, shown)
    ensures Final(whole, ending, count, if p.count == 0 then DumpError else Done, p.records + bytes, p.listing + shown)
  {
    VisibleShown(rest, p.offs, p.start);
    WrittenAppend(p.records, p.listing, bytes, shown);
    var e := Excerpt(rest[0], p.offs, p.start, rest[0].captured);
    assert shown == e[..p.count];
    var v := Visible(rest, p.offs, p.start);
    assert v[..p.count] == shown;
    assert (p.listing + v)[..count] == p.listing + shown;
  }

  lemma NoMoreFiles(whole: seq<Labelled>, ending: Option<Block>, count: nat, p: Progress)
    requires OnTrack(whole, ending, count, [], p)
    ensures Final(whole, ending, count, CannotOpen, p.records, p.listing)
  {
    assert whole == p.listing;
  }

  lemma SkipBlock(whole: seq<Labelled>, ending: Option<Block>, count: nat, rest: seq<Block>, p: Progress)
    requires OnTrack(whole, ending, count, rest, p) && rest != [] && p.start >= rest[0].captured
    ensures OnTrack(whole, ending, count, rest[1..],
                    p.(offs := p.offs + rest[0].captured, start := p.start - rest[0].captured))
  {
  }

  lemma Begin(blocks: seq<Block>, start: nat, count: nat)
    ensures OnTrack(Visible(blocks, 0, start), Ending(blocks, start), count, blocks, Progress(0, start, count, [], []))
  {
    assert Bytes([]) == [];
    assert [] + Visible(blocks, 0, start) == Visible(blocks, 0, start);
  }

  // One block that holds packet `start`: unfold it and decide how to go on.
  method Unfold(b: Block, p: Progress,
                ghost whole: seq<Labelled>, ghost ending: Option<Block>, ghost count: nat, ghost rest: seq<Block>)
    returns (over: bool, status: Status, next: Progress)
    requires OnTrack(whole, ending, count, rest, p)
    requires rest != [] && rest[0] == b && p.start < b.captured && WellFormed(b)
    ensures over ==> Final(whole, ending, count, status, next.records, next.listing)
    ensures !over ==> OnTrack(whole, ending, count, rest[1..], next)
  {
    var processed, bytes, shown := DumpPacket(b, p.offs, p.start, p.count);
    next := p.(records := p.records + bytes, listing := p.listing + shown);
    if processed <= 0 {
      ShowEnough(whole, ending, count, rest, p, bytes, shown);
      return true, DumpError, next;
    }
    if p.count == processed {
      ShowEnough(whole, ending, count, rest, p, bytes, shown);
      return true, Done, next;
    }
    if b.stalled || b.last {
      ShowLastBlock(whole, ending, count, rest, p, bytes, shown);
      return true, if b.stalled then EndStalled else EndNormal, next;
    }
    ShowBlock(whole, ending, count, rest, p, bytes, shown);
    next := Progress(p.offs + b.captured, p.start + processed - b.captured, p.count - processed,
                     p.records + bytes, p.listing + shown);
    return false, Done, next;
  }

  ghost predicate Finds(found: Option<Block>, rest: seq<Block>) {
    match found
    case None => rest == []
    case Some(b) => rest != [] && rest[0] == b && WellFormed(b)
  }

  // What a reader finds under a file's name, and what is left behind it.
  method Open(files: Store, writers: nat, file: nat, writer: nat, ghost blocks: seq<Block>)
    returns (found: Option<Block>)
    requires Recorded(files, writers, blocks) && writer == file % writers
    ensures Finds(found, From(blocks, file))
    ensures found.Some? ==> file < |blocks| && From(blocks, file)[1..] == From(blocks, file + 1)
  {
    if (writer, file) in files {
      found := Some(files[(writer, file)]);
    } else {
      found := None;
    }
  }

  // One file: there is none, or its block is skipped, or unfolded.
  method Visit(found: Option<Block>, p: Progress,
               ghost whole: seq<Labelled>, ghost ending: Option<Block>, ghost count: nat, ghost rest: seq<Block>)
    returns (over: bool, status: Status, next: Progress)
    requires OnTrack(whole, ending, count, rest, p) && Finds(found, rest)
    ensures over ==> Final(whole, ending, count, status, next.records, next.listing)
    ensures !over ==> found.Some? && OnTrack(whole, ending, count, rest[1..], next)
  {
    match found {
      case None =>
        NoMoreFiles(whole, ending, count, p);
        return true, CannotOpen, p;
      case Some(b) =>
        if p.start >= b.captured {
          SkipBlock(whole, ending, count, rest, p);
          return false, Done, p.(offs := p.offs + b.captured, start := p.start - b.captured);
        }
        over, status, next := Unfold(b, p, whole, ending, count, rest);
    }
  }

  // The next file and its writer.
  method Next(file: nat, writer: nat, writers: nat) returns (file': nat, writer': nat)
    requires writers >= 1 && writer == file % writers
    ensures file' == file + 1 && writer' == file' % writers
  {
    ModAdd(file, 1, writers);
    return file + 1, (writer + 1) % writers;
  }

  // The loop of all three readers, from file `first` and packet `start` of it.
  method Walk(files: Store, writers: nat, first: nat, start: nat, count: nat, ghost blocks: seq<Block>)
    returns (status: Status, records: seq<Byte>, listing: seq<Labelled>)
    requires Recorded(files, writers, blocks)
    ensures Final(Visible(From(blocks, first), 0, start), Ending(From(blocks, first), start), count,
                  status, records, listing)
  {
    ghost var whole, ending := Visible(From(blocks, first), 0, start), Ending(From(blocks, first), start);
    Begin(From(blocks, first), start, count);
    var p := Progress(0, start, count, [], []);
    var file: nat, writer: nat := first, first % writers;
    ghost var rest := From(blocks, first);
    while true
      invariant writer == file % writers && rest == From(blocks, file)
      invariant OnTrack(whole, ending, count, rest, p)
      decreases |blocks| - file
    {
      var found := Open(files, writers, file, writer, blocks);
      var over, st, next := Visit(found, p, whole, ending, count, rest);
      p := next;
      if over {
        return st, p.records, p.listing;
      }
      file, writer := Next(file, writer, writers);
      rest := rest[1..];
    }
  }
}
