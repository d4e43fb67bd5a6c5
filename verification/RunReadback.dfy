/**
 * From the concurrent recorder to the readers: the sealed files of any run, read
 * back, give the packets of the blocks the driver captured.  The recorder model
 * knows a block as a count and copied pieces; `read` says which length table and
 * which data some pieces are.
 */
module RunReadback {
  import L = Layout
  import Pcap
  import R = Recorder
  import S = RecorderSafety
  import T = RecorderTheorems
  import Readers
  import Recording

  type Reading = seq<R.Chunk> -> (seq<seq<nat>>, seq<L.Byte>)

  function Seen(read: Reading, count: nat, last: bool, stalled: bool, pieces: seq<R.Chunk>): L.Block {
    var (len, data) := read(pieces);
    L.Block(count, last, stalled, len, data)
  }

  function FileSeen(read: Reading, f: R.File): L.Block { Seen(read, f.count, f.last, f.stalled, f.pieces) }

  // The first n captured blocks as a reader would see them.
  ghost function Captures(content: seq<R.Block>, n: nat, read: Reading): (r: seq<L.Block>)
    requires n <= |content|
    ensures |r| == n
  {
    seq(n, k requires 0 <= k < n => Seen(read, content[k].count, false, false, content[k].pieces))
  }

  // The files are the first n files of the disk, each in its writer's directory.
  ghost predicate Shelved(files: Readers.Store, writers: nat, disk: map<nat, R.File>, n: nat, read: Reading)
    requires writers >= 1
  {
    && (forall k: nat :: (k % writers, k) in files <==> k < n)
    && (forall k: nat :: k < n ==> k in disk && files[(k % writers, k)] == FileSeen(read, disk[k]))
  }

  // Files 0 to n - 1 are sealed, and none of their blocks was taken early.
  ghost predicate AllSealed(cfg: R.Config, s: R.State, n: nat)
    requires R.Shape(cfg, s)
  {
    !s.stop && forall k: nat :: k < n ==> S.Sealed(cfg, s, k) && k !in s.early
  }

  lemma SealedCopy(cfg: R.Config, schedule: seq<R.Action>, rest: seq<R.Action>, n: nat, k: nat)
    requires R.Enough(cfg) && AllSealed(cfg, R.Run(cfg, schedule), n) && k < n
    ensures var s := R.Run(cfg, schedule);
            var t := R.RunFrom(cfg, s, rest);
            k < |s.content| && k in t.disk
            && t.disk[k] == R.File(s.content[k].count, false, false, s.content[k].pieces)
  {
    var s := R.Run(cfg, schedule);
    S.RunInv(cfg, schedule);
    T.SealedFilesAreExact(cfg, schedule, k, []);
    assert R.RunFrom(cfg, s, []) == s;
    assert forall i :: 0 <= i < cfg.writers ==> k < S.At(cfg, s.writers[i]);
    T.ClosedStays(cfg, s, k, rest);
  }

  // Sealed files are files of finished blocks.
  lemma SealedCount(cfg: R.Config, schedule: seq<R.Action>, n: nat)
    requires R.Enough(cfg) && AllSealed(cfg, R.Run(cfg, schedule), n)
    ensures n <= |R.Run(cfg, schedule).content|
  {
    if n > 0 { SealedCopy(cfg, schedule, [], n, n - 1); }
  }

  lemma SealedRecorded(cfg: R.Config, schedule: seq<R.Action>, rest: seq<R.Action>, n: nat, read: Reading,
                       files: Readers.Store)
    requires R.Enough(cfg) && AllSealed(cfg, R.Run(cfg, schedule), n) && n <= |R.Run(cfg, schedule).content|
    requires Shelved(files, cfg.writers, R.RunFrom(cfg, R.Run(cfg, schedule), rest).disk, n, read)
    requires forall k: nat :: k < n ==> L.WellFormed(Captures(R.Run(cfg, schedule).content, n, read)[k])
    ensures var blocks := Captures(R.Run(cfg, schedule).content, n, read);
            Readers.Recorded(files, cfg.writers, blocks) && Recording.OnlyEndMarked(blocks)
  {
    forall k: nat | k < n
      ensures files[(k % cfg.writers, k)] == Captures(R.Run(cfg, schedule).content, n, read)[k]
    {
      SealedCopy(cfg, schedule, rest, n, k);
    }
  }

  // Exporting the sealed files of a run, whatever has happened since, gives the
  // wanted packets of the blocks the driver captured.
  method Export(files: Readers.Store, writers: nat, start: nat, count: nat, ghost cfg: R.Config,
                ghost schedule: seq<R.Action>, ghost rest: seq<R.Action>, ghost n: nat, ghost read: Reading)
    returns (status: Readers.Status, pcap: seq<L.Byte>)
    requires R.Enough(cfg) && writers == cfg.writers && AllSealed(cfg, R.Run(cfg, schedule), n)
    requires Shelved(files, writers, R.RunFrom(cfg, R.Run(cfg, schedule), rest).disk, n, read)
    requires n <= |R.Run(cfg, schedule).content|
    requires forall k: nat :: k < n ==> L.WellFormed(Captures(R.Run(cfg, schedule).content, n, read)[k])
    ensures status == Recording.Ends(Captures(R.Run(cfg, schedule).content, n, read), start, count)
    ensures var blocks := Captures(R.Run(cfg, schedule).content, n, read);
            Pcap.Parse(pcap) == Pcap.Ethernet(Recording.Wanted(Recording.All(blocks), start, count))
  {
    SealedRecorded(cfg, schedule, rest, n, read, files);
    status, pcap := Recording.ToLibpcap(files, writers, start, count, Captures(R.Run(cfg, schedule).content, n, read));
  }
}
