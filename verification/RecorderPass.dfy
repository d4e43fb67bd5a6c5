/**
 * What one pass of a writer puts on disk, before and after a stop, whatever the
 * others do: the bucket it found, as long as nobody else touches that bucket.
 * After a stop a writer still makes three passes over filled buckets.
 */
module RecorderPass {
  import opened Arith
  import opened Recorder
  import opened RecorderSafety
  import opened RecorderStop

  // ----- one pass

  // A writer at its first poll that has not seen a stop detects a stall.
  predicate Alarms(w: Writer) { w.endCnt == 0 && w.delayStop == 0 }

  // The bucket as this pass will write it: a writer that detects a stall marks it.
  function Found(w: Writer, k: Bucket): Bucket { if Alarms(w) then k.(stalled := true) else k }

  // The file that goes with a bucket, as far as n pieces.
  function Part(k: Bucket, n: nat): File
    requires n <= |k.pieces|
  {
    File(k.captured, k.last, k.stalled, k.pieces[..n])
  }

  predicate NoFile(w: Writer) { w.phase == Top || w.phase == Poll || w.phase == Test || w.phase == Mark }

  // Before the file exists: b is the bucket now, k what the file will be made of, and
  // `alarm` says that the pass detects a stall.
  ghost predicate Ahead(stop: bool, w: Writer, b: Bucket, k: Bucket, alarm: bool) {
    && !w.stalled
    && (w.phase == Top ==> stop && w.delayStop <= 2 && k == b && !alarm)
    && (w.phase == Poll || w.phase == Test ==> k == Found(w, b) && alarm == Alarms(w))
    && (w.phase == Mark ==> k == b.(stalled := true) && alarm)
  }

  // How many pieces the file has in a phase.
  function FileLength(cfg: Config, p: Phase): nat {
    match p
    case Table(i) => i
    case Release => cfg.table
    case Data(i) => cfg.table + i
    case After => cfg.table + cfg.data
    case _ => 0
  }

  // From the header on.
  ghost predicate Filling(cfg: Config, disk: map<nat, File>, w: Writer, b: Bucket, k: Bucket, alarm: bool)
    requires |k.pieces| == Pieces(cfg) && WriterShape(cfg, w)
  {
    && w.stalled == alarm
    && (w.phase == Header || w.phase.Table? || w.phase == Release ==> b == k)
    && (w.phase.Data? || w.phase == After ==> b == k.(captured := 0) && w.last == k.last)
    && (w.phase != Header ==> w.file in disk && disk[w.file] == Part(k, FileLength(cfg, w.phase)))
  }

  // Writer w is in a pass that writes bucket k.
  ghost predicate Passing(cfg: Config, stop: bool, disk: map<nat, File>, w: Writer, b: Bucket, k: Bucket, alarm: bool) {
    && |k.pieces| == Pieces(cfg) && WriterShape(cfg, w) && k.captured > 0 && w.phase != Slept && w.phase != Exited
    && (alarm && w.phase != Poll && w.phase != Test ==> stop)
    && (if NoFile(w) then Ahead(stop, w, b, k, alarm) else Filling(cfg, disk, w, b, k, alarm))
  }

  // Own turns until the file is complete.
  function TurnsLeft(cfg: Config, w: Writer, alarm: bool): int {
    var body := cfg.table + cfg.data;
    match w.phase
    case Top => body + 7
    case Poll => body + if alarm then 7 else 6
    case Test => body + if alarm then 6 else 5
    case Mark => body + 5
    case Header => body + 4
    case Table(i) => body - i + 3
    case Release => cfg.data + 2
    case Data(i) => cfg.data - i + 1
    case _ => 0
  }

  // The number of passes a stop has counted when this one is under way.
  function Counted(w: Writer): nat { if w.phase == Top then w.delayStop + 1 else w.delayStop }

  predicate SamePass(v: Writer, w: Writer) {
    v.file == w.file && v.cur == w.cur && v.blocks == w.blocks && Counted(v) == Counted(w)
  }

  lemma NextPart(k: Bucket, n: nat)
    requires n < |k.pieces|
    ensures Part(k, n).(pieces := Part(k, n).pieces + [k.pieces[n]]) == Part(k, n + 1)
  {
  }

  // What one own turn does.
  ghost predicate Advances(cfg: Config, stop: bool, disk: map<nat, File>, w: Writer, b: Bucket, k: Bucket, alarm: bool)
    requires Sane(cfg) && WriterShape(cfg, w) && |b.pieces| == Pieces(cfg)
  {
    var v := NextWriter(cfg, stop, w, b);
    && SamePass(v, w)
    && Passing(cfg, stop || DetectsStall(w), NextDisk(cfg, disk, w, b), v, NextBucket(w, b), k, alarm)
    && TurnsLeft(cfg, v, alarm) == TurnsLeft(cfg, w, alarm) - 1
  }

  lemma AheadTurn(cfg: Config, stop: bool, disk: map<nat, File>, w: Writer, b: Bucket, k: Bucket, alarm: bool)
    requires Sane(cfg) && |b.pieces| == Pieces(cfg) && Passing(cfg, stop, disk, w, b, k, alarm) && NoFile(w)
    ensures Advances(cfg, stop, disk, w, b, k, alarm)
  {
  }

  lemma HeaderTurn(cfg: Config, stop: bool, disk: map<nat, File>, w: Writer, b: Bucket, k: Bucket, alarm: bool)
    requires Sane(cfg) && |b.pieces| == Pieces(cfg) && Passing(cfg, stop, disk, w, b, k, alarm)
    requires w.phase == Header || w.phase == Release
    ensures Advances(cfg, stop, disk, w, b, k, alarm)
  {
  }

  lemma TableTurn(cfg: Config, stop: bool, disk: map<nat, File>, w: Writer, b: Bucket, k: Bucket, alarm: bool)
    requires Sane(cfg) && |b.pieces| == Pieces(cfg) && Passing(cfg, stop, disk, w, b, k, alarm) && w.phase.Table?
    ensures Advances(cfg, stop, disk, w, b, k, alarm)
  {
    if w.phase.next < cfg.table { NextPart(k, w.phase.next); }
  }

  lemma DataTurn(cfg: Config, stop: bool, disk: map<nat, File>, w: Writer, b: Bucket, k: Bucket, alarm: bool)
    requires Sane(cfg) && |b.pieces| == Pieces(cfg) && Passing(cfg, stop, disk, w, b, k, alarm) && w.phase.Data?
    ensures Advances(cfg, stop, disk, w, b, k, alarm)
  {
    if w.phase.next < cfg.data { NextPart(k, cfg.table + w.phase.next); }
  }

  // ----- a pass among the others

  // Nobody but writer id changes bucket b.
  ghost predicate Untouched(cfg: Config, s: State, rest: seq<Action>, id: nat, b: nat)
    requires Shape(cfg, s) && b < cfg.buckets
    decreases |rest|
  {
    rest == [] ||
    var before, a := rest[..|rest| - 1], rest[|rest| - 1];
    var t := RunFrom(cfg, s, before);
    Untouched(cfg, s, before, id, b) && (a != Write(id) ==> Step(cfg, t, a).buckets[b] == t.buckets[b])
  }

  // Writer id of s is in a pass that writes bucket k.
  ghost predicate InPass(cfg: Config, s: State, id: nat, k: Bucket, alarm: bool) {
    && Shape(cfg, s) && Ledger(cfg, s) && id < cfg.writers
    && Passing(cfg, s.stop, s.disk, s.writers[id], s.buckets[s.writers[id].cur], k, alarm)
  }

  lemma OwnTurn(cfg: Config, s: State, id: nat, k: Bucket, alarm: bool)
    requires InPass(cfg, s, id, k, alarm) && s.writers[id].phase != After
    ensures var w, t := s.writers[id], WriteStep(cfg, s, id);
            && InPass(cfg, t, id, k, alarm) && SamePass(t.writers[id], w)
            && TurnsLeft(cfg, t.writers[id], alarm) == TurnsLeft(cfg, w, alarm) - 1
  {
    var w := s.writers[id];
    var b := s.buckets[w.cur];
    LedgerWrite(cfg, s, id);
    if NoFile(w) {
      AheadTurn(cfg, s.stop, s.disk, w, b, k, alarm);
    } else if w.phase.Data? {
      DataTurn(cfg, s.stop, s.disk, w, b, k, alarm);
    } else if w.phase.Table? {
      TableTurn(cfg, s.stop, s.disk, w, b, k, alarm);
    } else {
      HeaderTurn(cfg, s.stop, s.disk, w, b, k, alarm);
    }
  }

  // The others leave a writer and its files alone.
  lemma OthersStep(cfg: Config, s: State, a: Action, id: nat, f: nat)
    requires Shape(cfg, s) && Ledger(cfg, s) && id < cfg.writers && a != Write(id) && f % cfg.writers == id
    ensures var t := Step(cfg, s, a);
            && t.writers[id] == s.writers[id] && (s.stop ==> t.stop)
            && (f in t.disk <==> f in s.disk) && (f in s.disk ==> t.disk[f] == s.disk[f])
  {
    if a.Write? && a.id < cfg.writers { OwnFile(cfg, a.id, s.writers[a.id]); }
  }

  lemma OthersTurn(cfg: Config, s: State, a: Action, id: nat, k: Bucket, alarm: bool)
    requires InPass(cfg, s, id, k, alarm) && a != Write(id)
    requires Step(cfg, s, a).buckets[s.writers[id].cur] == s.buckets[s.writers[id].cur]
    ensures InPass(cfg, Step(cfg, s, a), id, k, alarm) && Step(cfg, s, a).writers[id] == s.writers[id]
  {
    LedgerStep(cfg, s, a);
    OwnFile(cfg, id, s.writers[id]);
    OthersStep(cfg, s, a, id, s.writers[id].file);
  }

  // The pass that writer w had begun, n own turns on.
  ghost predicate Since(cfg: Config, t: State, id: nat, w: Writer, k: Bucket, alarm: bool, n: int) {
    && InPass(cfg, t, id, k, alarm) && SamePass(t.writers[id], w)
    && TurnsLeft(cfg, t.writers[id], alarm) == TurnsLeft(cfg, w, alarm) - n
  }

  lemma SinceStep(cfg: Config, t: State, a: Action, id: nat, w: Writer, k: Bucket, alarm: bool, n: int)
    requires Since(cfg, t, id, w, k, alarm, n)
    requires a == Write(id) ==> n < TurnsLeft(cfg, w, alarm)
    requires a != Write(id) ==> Step(cfg, t, a).buckets[w.cur] == t.buckets[w.cur]
    ensures Since(cfg, Step(cfg, t, a), id, w, k, alarm, if a == Write(id) then n + 1 else n)
  {
    if a == Write(id) {
      OwnTurn(cfg, t, id, k, alarm);
    } else {
      OthersTurn(cfg, t, a, id, k, alarm);
    }
  }

  // However the others' turns fall, a pass goes on by its own turns.
  lemma {:induction false} PassGoesOn(cfg: Config, s: State, rest: seq<Action>, id: nat, k: Bucket, alarm: bool)
    requires InPass(cfg, s, id, k, alarm) && Untouched(cfg, s, rest, id, s.writers[id].cur)
    requires Turns(rest, id) <= TurnsLeft(cfg, s.writers[id], alarm)
    ensures Since(cfg, RunFrom(cfg, s, rest), id, s.writers[id], k, alarm, Turns(rest, id))
    decreases |rest|
  {
    if rest != [] {
      var before := rest[..|rest| - 1];
      PassGoesOn(cfg, s, before, id, k, alarm);
      SinceStep(cfg, RunFrom(cfg, s, before), rest[|rest| - 1], id, s.writers[id], k, alarm, Turns(before, id));
    }
  }

  // The pass that writer w had begun is over: the file is the whole bucket, and the
  // writer has left, or stands one round further on.
  ghost predicate Written(cfg: Config, t: State, id: nat, w: Writer, k: Bucket, alarm: bool) {
    && Shape(cfg, t) && Ledger(cfg, t) && id < cfg.writers && |k.pieces| == Pieces(cfg)
    && w.file in t.disk && t.disk[w.file] == File(k.captured, k.last, k.stalled, k.pieces)
    && (alarm ==> t.stop)
    && var v := t.writers[id];
       && v.blocks == (if k.last || alarm then w.blocks else w.blocks + 1)
       && if k.last || alarm || w.blocks + 1 == cfg.maxBlocks then v.phase == Exited && v.file == w.file
       else
         && v.phase == Top && v.file == w.file + cfg.writers && v.delayStop == Counted(w) && !v.stalled
  }

  lemma LastTurn(cfg: Config, s: State, id: nat, w: Writer, k: Bucket, alarm: bool)
    requires InPass(cfg, s, id, k, alarm) && s.writers[id].phase == After && SamePass(s.writers[id], w)
    ensures Written(cfg, WriteStep(cfg, s, id), id, w, k, alarm)
  {
    LedgerWrite(cfg, s, id);
    assert k.pieces[..Pieces(cfg)] == k.pieces;
  }

  lemma WrittenStays(cfg: Config, t: State, a: Action, id: nat, w: Writer, k: Bucket, alarm: bool)
    requires Written(cfg, t, id, w, k, alarm) && a != Write(id) && w.file % cfg.writers == id
    ensures Written(cfg, Step(cfg, t, a), id, w, k, alarm)
  {
    LedgerStep(cfg, t, a);
    OthersStep(cfg, t, a, id, w.file);
  }

  lemma AtAfter(cfg: Config, w: Writer, alarm: bool)
    requires WriterShape(cfg, w) && w.phase != Slept && w.phase != Exited && TurnsLeft(cfg, w, alarm) == 0
    ensures w.phase == After
  {
  }

  lemma TurnsPositive(cfg: Config, w: Writer, alarm: bool)
    requires WriterShape(cfg, w)
    ensures TurnsLeft(cfg, w, alarm) >= 0
  {
  }

  lemma CompletesStep(cfg: Config, t: State, id: nat, w: Writer, k: Bucket, alarm: bool)
    requires Since(cfg, t, id, w, k, alarm, TurnsLeft(cfg, w, alarm))
    ensures Written(cfg, Step(cfg, t, Write(id)), id, w, k, alarm)
  {
    AtAfter(cfg, t.writers[id], alarm);
    LastTurn(cfg, t, id, w, k, alarm);
  }

  // Every writer that found a filled bucket writes it, whole and as it was, in a fixed
  // number of its own turns, whatever the others do elsewhere.
  lemma {:induction false} PassWrites(cfg: Config, s: State, rest: seq<Action>, id: nat, k: Bucket, alarm: bool)
    requires InPass(cfg, s, id, k, alarm) && Untouched(cfg, s, rest, id, s.writers[id].cur)
    requires Turns(rest, id) == TurnsLeft(cfg, s.writers[id], alarm) + 1
    ensures Written(cfg, RunFrom(cfg, s, rest), id, s.writers[id], k, alarm)
    decreases |rest|
  {
    TurnsPositive(cfg, s.writers[id], alarm);
    var before, a := rest[..|rest| - 1], rest[|rest| - 1];
    if a == Write(id) {
      PassGoesOn(cfg, s, before, id, k, alarm);
      CompletesStep(cfg, RunFrom(cfg, s, before), id, s.writers[id], k, alarm);
    } else {
      PassWrites(cfg, s, before, id, k, alarm);
      OwnFile(cfg, id, s.writers[id]);
      WrittenStays(cfg, RunFrom(cfg, s, before), a, id, s.writers[id], k, alarm);
    }
  }

  // ----- after a stop

  // Own turns of a whole pass that begins at the head of the loop.
  function WholePass(cfg: Config): nat { cfg.table + cfg.data + 8 }

  // A writer at the head of its loop that has counted at most two passes since the
  // stop, before a filled bucket.
  ghost predicate Ready(cfg: Config, s: State, id: nat)
    requires Shape(cfg, s) && id < cfg.writers
  {
    var w := s.writers[id];
    s.stop && w.phase == Top && w.delayStop <= 2 && !w.stalled && s.buckets[w.cur].captured > 0
  }

  // After a stop such a writer still writes its bucket.
  lemma StopPassWrites(cfg: Config, s: State, rest: seq<Action>, id: nat)
    requires Shape(cfg, s) && Ledger(cfg, s) && id < cfg.writers && Ready(cfg, s, id)
    requires Untouched(cfg, s, rest, id, s.writers[id].cur) && Turns(rest, id) == WholePass(cfg)
    ensures var w := s.writers[id]; Written(cfg, RunFrom(cfg, s, rest), id, w, s.buckets[w.cur], false)
  {
    PassWrites(cfg, s, rest, id, s.buckets[s.writers[id].cur], false);
  }

  // A writer that has left file f behind never changes it.
  predicate Behind(w: Writer, f: nat) { f < w.file || (f == w.file && w.phase == Exited) }

  lemma BehindOwn(cfg: Config, s: State, id: nat, f: nat)
    requires Shape(cfg, s) && id < cfg.writers && Behind(s.writers[id], f) && f in s.disk
    ensures var t := WriteStep(cfg, s, id); Behind(t.writers[id], f) && f in t.disk && t.disk[f] == s.disk[f]
  {
  }

  lemma BehindStep(cfg: Config, s: State, a: Action, id: nat, f: nat)
    requires Shape(cfg, s) && Ledger(cfg, s) && id < cfg.writers && f % cfg.writers == id
    requires Behind(s.writers[id], f) && f in s.disk
    ensures var t := Step(cfg, s, a); Behind(t.writers[id], f) && f in t.disk && t.disk[f] == s.disk[f]
  {
    if a != Write(id) { OthersStep(cfg, s, a, id, f); } else { BehindOwn(cfg, s, id, f); }
  }

  lemma {:induction false} BehindStays(cfg: Config, s: State, rest: seq<Action>, id: nat, f: nat)
    requires Shape(cfg, s) && Ledger(cfg, s) && id < cfg.writers && f % cfg.writers == id
    requires Behind(s.writers[id], f) && f in s.disk
    ensures var t := RunFrom(cfg, s, rest); Behind(t.writers[id], f) && f in t.disk && t.disk[f] == s.disk[f]
    decreases |rest|
  {
    if rest != [] {
      var before := rest[..|rest| - 1];
      BehindStays(cfg, s, before, id, f);
      LedgerStays(cfg, s, before);
      BehindStep(cfg, RunFrom(cfg, s, before), rest[|rest| - 1], id, f);
    }
  }

  ghost predicate OnDisk(disk: map<nat, File>, f: nat, k: Bucket) {
    f in disk && disk[f] == File(k.captured, k.last, k.stalled, k.pieces)
  }

  lemma StaysOnDisk(cfg: Config, s: State, rest: seq<Action>, id: nat, f: nat, k: Bucket)
    requires Shape(cfg, s) && Ledger(cfg, s) && id < cfg.writers && f % cfg.writers == id
    requires Behind(s.writers[id], f) && OnDisk(s.disk, f, k)
    ensures OnDisk(RunFrom(cfg, s, rest).disk, f, k)
  {
    BehindStays(cfg, s, rest, id, f);
  }

  // A pass that begins before a filled bucket without an end mark, and during which
  // nobody else touches that bucket.
  ghost predicate Feeds(cfg: Config, s: State, pass: seq<Action>, id: nat)
    requires Shape(cfg, s) && id < cfg.writers
  {
    var c := s.writers[id].cur;
    && s.buckets[c].captured > 0 && !s.buckets[c].last
    && Untouched(cfg, s, pass, id, c) && Turns(pass, id) == WholePass(cfg)
  }

  // The state before pass n.
  function Before(cfg: Config, s: State, passes: seq<seq<Action>>, n: nat): (t: State)
    requires Shape(cfg, s) && n <= |passes|
    ensures Shape(cfg, t)
    decreases n
  {
    if n == 0 then s else RunFrom(cfg, Before(cfg, s, passes, n - 1), passes[n - 1])
  }

  ghost predicate Fed(cfg: Config, s: State, passes: seq<seq<Action>>, id: nat)
    requires Shape(cfg, s) && id < cfg.writers
  {
    forall n: nat :: n < |passes| ==> Feeds(cfg, Before(cfg, s, passes, n), passes[n], id)
  }

  // The file of pass n: one round further on for each pass.
  function FileOf(file: nat, writers: nat, n: nat): nat {
    if n == 0 then file else FileOf(file, writers, n - 1) + writers
  }

  lemma {:induction false} FileOfIs(file: nat, writers: nat, n: nat)
    ensures FileOf(file, writers, n) == file + n * writers
  {
    if n > 0 { FileOfIs(file, writers, n - 1); }
  }

  lemma {:induction false} EarlierFile(file: nat, writers: nat, j: nat, n: nat)
    requires j < n && writers > 0
    ensures FileOf(file, writers, j) < FileOf(file, writers, n)
    decreases n
  {
    if j < n - 1 { EarlierFile(file, writers, j, n - 1); }
  }

  lemma {:induction false} ResidueOf(file: nat, writers: nat, n: nat)
    requires writers > 0
    ensures FileOf(file, writers, n) % writers == file % writers
  {
    if n > 0 {
      ResidueOf(file, writers, n - 1);
      ModShift(FileOf(file, writers, n - 1), writers);
    }
  }

  // The writer may make all these passes: the stop allows them and so does its quota.
  predicate Allowed(cfg: Config, w: Writer, passes: nat) {
    w.phase == Top && !w.stalled && w.delayStop + passes <= 3 && w.blocks + passes <= cfg.maxBlocks
  }

  // Where the writer stands before pass n.
  ghost predicate StandsBefore(cfg: Config, t: State, id: nat, w: Writer, n: nat)
    requires Shape(cfg, t) && id < cfg.writers
  {
    var v := t.writers[id];
    && t.stop && Ledger(cfg, t)
    && v.phase == Top && !v.stalled && v.delayStop == w.delayStop + n && v.blocks == w.blocks + n
    && v.file == FileOf(w.file, cfg.writers, n)
  }

  lemma OnePass(cfg: Config, t: State, pass: seq<Action>, id: nat, w: Writer, n: nat)
    requires Shape(cfg, t) && id < cfg.writers && StandsBefore(cfg, t, id, w, n) && Feeds(cfg, t, pass, id)
    requires w.delayStop + n <= 2
    ensures var u := RunFrom(cfg, t, pass);
            && OnDisk(u.disk, FileOf(w.file, cfg.writers, n), t.buckets[t.writers[id].cur])
            && Ledger(cfg, u) && Behind(u.writers[id], FileOf(w.file, cfg.writers, n))
            && (w.blocks + n + 1 < cfg.maxBlocks ==> StandsBefore(cfg, u, id, w, n + 1))
  {
    StopPassWrites(cfg, t, pass, id);
    StopDrains(cfg, t, pass, id);
  }

  lemma {:induction false} PassesStand(cfg: Config, s: State, passes: seq<seq<Action>>, id: nat, n: nat)
    requires Shape(cfg, s) && Ledger(cfg, s) && id < cfg.writers && s.stop && n < |passes|
    requires Allowed(cfg, s.writers[id], |passes|) && Fed(cfg, s, passes, id)
    ensures StandsBefore(cfg, Before(cfg, s, passes, n), id, s.writers[id], n)
    decreases n
  {
    if n > 0 {
      PassesStand(cfg, s, passes, id, n - 1);
      assert Feeds(cfg, Before(cfg, s, passes, n - 1), passes[n - 1], id);
      OnePass(cfg, Before(cfg, s, passes, n - 1), passes[n - 1], id, s.writers[id], n - 1);
    }
  }

  // A later pass leaves the file of pass j alone.
  lemma LaterPass(cfg: Config, u: State, pass: seq<Action>, id: nat, w: Writer, j: nat, n: nat, k: Bucket)
    requires Shape(cfg, u) && id < cfg.writers && StandsBefore(cfg, u, id, w, n) && j < n
    requires OnDisk(u.disk, FileOf(w.file, cfg.writers, j), k)
    ensures OnDisk(RunFrom(cfg, u, pass).disk, FileOf(w.file, cfg.writers, j), k)
  {
    EarlierFile(w.file, cfg.writers, j, n);
    OwnFile(cfg, id, u.writers[id]);
    ResidueOf(w.file, cfg.writers, n);
    ResidueOf(w.file, cfg.writers, j);
    StaysOnDisk(cfg, u, pass, id, FileOf(w.file, cfg.writers, j), k);
  }

  // The bucket a writer looks at.
  function Bin(s: State, id: nat, cfg: Config): Bucket
    requires Shape(cfg, s) && id < cfg.writers
  {
    s.buckets[s.writers[id].cur]
  }

  // Before pass n, the file of pass j is the bucket that pass j found.
  ghost predicate Kept(cfg: Config, s: State, passes: seq<seq<Action>>, id: nat, j: nat, n: nat)
    requires Shape(cfg, s) && id < cfg.writers && j < n <= |passes|
  {
    OnDisk(Before(cfg, s, passes, n).disk, FileOf(s.writers[id].file, cfg.writers, j),
           Bin(Before(cfg, s, passes, j), id, cfg))
  }

  lemma KeptNow(cfg: Config, s: State, passes: seq<seq<Action>>, id: nat, j: nat)
    requires Shape(cfg, s) && Ledger(cfg, s) && id < cfg.writers && s.stop && j < |passes|
    requires Allowed(cfg, s.writers[id], |passes|) && Fed(cfg, s, passes, id)
    ensures Kept(cfg, s, passes, id, j, j + 1)
  {
    PassesStand(cfg, s, passes, id, j);
    assert Feeds(cfg, Before(cfg, s, passes, j), passes[j], id);
    OnePass(cfg, Before(cfg, s, passes, j), passes[j], id, s.writers[id], j);
  }

  lemma KeptLater(cfg: Config, s: State, passes: seq<seq<Action>>, id: nat, j: nat, n: nat)
    requires Shape(cfg, s) && Ledger(cfg, s) && id < cfg.writers && s.stop && j + 1 < n <= |passes|
    requires Allowed(cfg, s.writers[id], |passes|) && Fed(cfg, s, passes, id)
    requires Kept(cfg, s, passes, id, j, n - 1)
    ensures Kept(cfg, s, passes, id, j, n)
  {
    PassesStand(cfg, s, passes, id, n - 1);
    LaterPass(cfg, Before(cfg, s, passes, n - 1), passes[n - 1], id, s.writers[id], j, n - 1,
              Bin(Before(cfg, s, passes, j), id, cfg));
  }

  // After a stop, a writer at the head of its loop makes as many passes as the stop
  // still allows: three, if it has counted none.  Pass j leaves the bucket it found in
  // its file, count, marks and all pieces, and the later passes leave it there.
  lemma {:induction false} StopGrantsPasses(cfg: Config, s: State, passes: seq<seq<Action>>, id: nat, j: nat, n: nat)
    requires Shape(cfg, s) && Ledger(cfg, s) && id < cfg.writers && s.stop && j < n <= |passes|
    requires Allowed(cfg, s.writers[id], |passes|) && Fed(cfg, s, passes, id)
    ensures Kept(cfg, s, passes, id, j, n)
    decreases n
  {
    if j == n - 1 {
      KeptNow(cfg, s, passes, id, j);
    } else {
      StopGrantsPasses(cfg, s, passes, id, j, n - 1);
      KeptLater(cfg, s, passes, id, j, n);
    }
  }

  // ----- the last block

  // When the driver ends after a stop it marks the bucket it was filling; the writer of
  // that block writes it with its count and the mark, and leaves.
  lemma LastBlockWritten(cfg: Config, s: State, count: nat, rest: seq<Action>, id: nat)
    requires Shape(cfg, s) && Ledger(cfg, s) && s.stop && !s.driverDone && count > 0 && id < cfg.writers
    requires var w := s.writers[id];
             w.phase == Top && w.delayStop <= 2 && !w.stalled && w.file == |s.content|
    requires var t := Step(cfg, s, DriverLast(count)); Untouched(cfg, t, rest, id, t.writers[id].cur)
    requires Turns(rest, id) == WholePass(cfg)
    ensures var k := s.buckets[|s.content| % cfg.buckets];
            var u := RunFrom(cfg, Step(cfg, s, DriverLast(count)), rest);
            && u.writers[id].phase == Exited && |s.content| in u.disk
            && u.disk[|s.content|] == File(count, true, k.stalled, k.pieces)
  {
    var t := Step(cfg, s, DriverLast(count));
    LedgerStep(cfg, s, DriverLast(count));
    assert Placed(cfg, id, s.writers[id]);
    StopPassWrites(cfg, t, rest, id);
  }

  // ----- a stall

  // A writer whose first poll finds a filled bucket, before any stop: it sets the stop
  // byte, writes the bucket with the stall mark, and leaves.
  lemma StallWritten(cfg: Config, s: State, rest: seq<Action>, id: nat)
    requires Shape(cfg, s) && Ledger(cfg, s) && id < cfg.writers
    requires var w := s.writers[id];
             w.phase == Poll && Alarms(w) && !w.stalled && s.buckets[w.cur].captured > 0
    requires Untouched(cfg, s, rest, id, s.writers[id].cur) && Turns(rest, id) == WholePass(cfg)
    ensures var w, t := s.writers[id], RunFrom(cfg, s, rest);
            && OnDisk(t.disk, w.file, s.buckets[w.cur].(stalled := true)) && t.writers[id].phase == Exited && t.stop
  {
    var k := s.buckets[s.writers[id].cur];
    PassWrites(cfg, s, rest, id, k.(stalled := true), true);
  }

  // ----- in every run

  ghost predicate CleanWriters(cfg: Config, s: State)
    requires Shape(cfg, s)
  {
    forall i :: 0 <= i < cfg.writers && (NoFile(s.writers[i]) || s.writers[i].phase == Slept) ==> !s.writers[i].stalled
  }

  lemma CleanStep(cfg: Config, s: State, a: Action)
    requires Shape(cfg, s) && CleanWriters(cfg, s)
    ensures CleanWriters(cfg, Step(cfg, s, a))
  {
  }

  // A writer that has not begun its file has not detected a stall.
  lemma {:induction false} RunClean(cfg: Config, schedule: seq<Action>)
    requires Sane(cfg)
    ensures CleanWriters(cfg, Run(cfg, schedule))
    decreases |schedule|
  {
    if schedule != [] {
      RunClean(cfg, schedule[..|schedule| - 1]);
      CleanStep(cfg, Run(cfg, schedule[..|schedule| - 1]), schedule[|schedule| - 1]);
    }
  }
}
