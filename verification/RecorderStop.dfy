/**
 * Which files the writers create over a whole run, and how soon every writer
 * leaves its loop once the stop byte is set.
 */
module RecorderStop {
  import opened Arith
  import opened Recorder
  import opened RecorderSafety

  // ----- which files

  // Where a writer stands after its number of blocks.
  ghost predicate Placed(cfg: Config, i: nat, w: Writer)
    requires Sane(cfg)
  {
    && w.blocks <= cfg.maxBlocks && (w.blocks == cfg.maxBlocks ==> w.phase == Exited && w.delayStop <= 3)
    && w.file == i + (if w.blocks == cfg.maxBlocks then w.blocks - 1 else w.blocks) * cfg.writers
    && w.cur == w.file % cfg.buckets
    && (w.delayStop <= 3 || w.phase == Exited)
  }

  // Whether the writer has created file k.  A writer that ran into the stop
  // limit leaves from Top, before creating the file it stands at.
  ghost predicate Begun(w: Writer, k: nat) {
    k < w.file || (k == w.file && (Copying(w) || w.phase == After || (w.phase == Exited && w.delayStop <= 3)))
  }

  ghost predicate Ledger(cfg: Config, s: State)
    requires Shape(cfg, s)
  {
    && (forall i :: 0 <= i < cfg.writers ==> Placed(cfg, i, s.writers[i]))
    && (forall k: nat :: k in s.disk <==> Begun(s.writers[k % cfg.writers], k))
  }

  lemma OwnFile(cfg: Config, i: nat, w: Writer)
    requires Sane(cfg) && i < cfg.writers && Placed(cfg, i, w)
    ensures w.file % cfg.writers == i
  {
    ModIs(w.file, if w.blocks == cfg.maxBlocks then w.blocks - 1 else w.blocks, i, cfg.writers);
  }

  lemma LedgerStart(cfg: Config)
    requires Sane(cfg)
    ensures Ledger(cfg, Start(cfg))
  {
    var s := Start(cfg);
    forall i | 0 <= i < cfg.writers ensures i % cfg.buckets == i {
      ModIs(i, 0, i, cfg.buckets);
    }
    forall k: nat ensures !Begun(s.writers[k % cfg.writers], k) {
      DivMod(k, cfg.writers);
      if k / cfg.writers >= 1 { MulAtLeast(k / cfg.writers, cfg.writers); }
    }
  }

  lemma NextBegun(cfg: Config, stop: bool, w: Writer, b: Bucket, k: nat)
    requires Sane(cfg) && WriterShape(cfg, w) && (w.delayStop <= 3 || w.phase == Exited)
    requires k % cfg.writers == w.file % cfg.writers
    ensures Begun(NextWriter(cfg, stop, w, b), k) <==> Begun(w, k) || (w.phase == Header && k == w.file)
  {
    if w.file < k { ModGap(w.file, k, cfg.writers); }
  }

  lemma LedgerWriter(cfg: Config, s: State, id: nat)
    requires Shape(cfg, s) && Ledger(cfg, s) && id < cfg.writers
    ensures Placed(cfg, id, WriteStep(cfg, s, id).writers[id])
  {
    var w := s.writers[id];
    ModAdd(w.file, cfg.writers, cfg.buckets);
    assert (w.blocks + 1) * cfg.writers == w.blocks * cfg.writers + cfg.writers;
  }

  lemma LedgerDisk(cfg: Config, s: State, id: nat, k: nat)
    requires Shape(cfg, s) && Ledger(cfg, s) && id < cfg.writers
    ensures var t := WriteStep(cfg, s, id); k in t.disk <==> Begun(t.writers[k % cfg.writers], k)
  {
    var w := s.writers[id];
    OwnFile(cfg, id, w);
    if k % cfg.writers == id { NextBegun(cfg, s.stop, w, s.buckets[w.cur], k); }
  }

  lemma LedgerWrite(cfg: Config, s: State, id: nat)
    requires Shape(cfg, s) && Ledger(cfg, s) && id < cfg.writers
    ensures Ledger(cfg, WriteStep(cfg, s, id))
  {
    var t := WriteStep(cfg, s, id);
    LedgerWriter(cfg, s, id);
    forall k: nat ensures k in t.disk <==> Begun(t.writers[k % cfg.writers], k) {
      LedgerDisk(cfg, s, id, k);
    }
  }

  lemma LedgerStep(cfg: Config, s: State, a: Action)
    requires Shape(cfg, s) && Ledger(cfg, s)
    ensures Ledger(cfg, Step(cfg, s, a))
  {
    match a {
      case Write(id) => if id < cfg.writers { LedgerWrite(cfg, s, id); }
      case _ =>
    }
  }

  lemma {:induction false} LedgerStays(cfg: Config, s: State, rest: seq<Action>)
    requires Shape(cfg, s) && Ledger(cfg, s)
    ensures Ledger(cfg, RunFrom(cfg, s, rest))
    decreases |rest|
  {
    if rest != [] {
      LedgerStays(cfg, s, rest[..|rest| - 1]);
      LedgerStep(cfg, RunFrom(cfg, s, rest[..|rest| - 1]), rest[|rest| - 1]);
    }
  }

  lemma RunLedger(cfg: Config, schedule: seq<Action>)
    requires Sane(cfg)
    ensures Ledger(cfg, Run(cfg, schedule))
  {
    LedgerStart(cfg);
    LedgerStays(cfg, Start(cfg), schedule);
  }

  // The step in which a writer creates file k.
  predicate Creates(cfg: Config, s: State, a: Action, k: nat)
    requires Shape(cfg, s)
  {
    a.Write? && a.id < cfg.writers && s.writers[a.id].phase == Header && s.writers[a.id].file == k
  }

  // How often a run creates file k.
  function Creations(cfg: Config, schedule: seq<Action>, k: nat): nat
    requires Sane(cfg)
    decreases |schedule|
  {
    if schedule == [] then 0
    else
      var before := schedule[..|schedule| - 1];
      Creations(cfg, before, k) + if Creates(cfg, Run(cfg, before), schedule[|schedule| - 1], k) then 1 else 0
  }

  // A step creates a file that is not there, or leaves the files that are.
  lemma StepCreates(cfg: Config, s: State, a: Action, k: nat)
    requires Shape(cfg, s) && Ledger(cfg, s)
    ensures Creates(cfg, s, a, k) ==> k !in s.disk && k in Step(cfg, s, a).disk
    ensures !Creates(cfg, s, a, k) ==> (k in Step(cfg, s, a).disk <==> k in s.disk)
  {
    if a.Write? && a.id < cfg.writers {
      var w := s.writers[a.id];
      OwnFile(cfg, a.id, w);
      assert Copying(w) ==> Begun(w, w.file);
    }
  }

  // No file is created twice, in any run.
  lemma {:induction false} CreatedOnce(cfg: Config, schedule: seq<Action>, k: nat)
    requires Sane(cfg)
    ensures Creations(cfg, schedule, k) == if k in Run(cfg, schedule).disk then 1 else 0
    decreases |schedule|
  {
    if schedule != [] {
      var before := schedule[..|schedule| - 1];
      CreatedOnce(cfg, before, k);
      RunLedger(cfg, before);
      StepCreates(cfg, Run(cfg, before), schedule[|schedule| - 1], k);
    }
  }

  // A writer's position after m blocks, in every interleaving and whether or
  // not the capture is being stopped.
  lemma WriterPosition(cfg: Config, schedule: seq<Action>, id: nat)
    requires Sane(cfg) && id < cfg.writers
    ensures var w := Run(cfg, schedule).writers[id];
            && w.cur == w.file % cfg.buckets && w.file % cfg.writers == id
            && (w.blocks < cfg.maxBlocks ==> w.file == id + w.blocks * cfg.writers)
  {
    RunLedger(cfg, schedule);
    var w := Run(cfg, schedule).writers[id];
    OwnFile(cfg, id, w);
  }

  // The last file of a writer, against the total number of files.
  lemma LastOfQuota(k: nat, writers: nat, rounds: nat)
    requires writers > 0 && rounds > 0
    ensures k <= k % writers + (rounds - 1) * writers <==> k < writers * rounds
  {
    var i, q := k % writers, k / writers;
    DivMod(k, writers);
    var d := rounds - 1 - q;
    assert i + (rounds - 1) * writers - k == d * writers;
    assert writers * rounds - k == (d + 1) * writers - i;
    if d >= 0 {
      MulAtLeast(d + 1, writers);
      if d > 0 { MulAtLeast(d, writers); }
    } else {
      MulAtLeast(-d, writers);
      if d + 1 < 0 { MulAtLeast(-(d + 1), writers); }
    }
  }

  // A writer that has completed its quota has created its share of the files.
  lemma QuotaFile(cfg: Config, s: State, k: nat)
    requires Shape(cfg, s) && Ledger(cfg, s) && s.writers[k % cfg.writers].blocks == cfg.maxBlocks
    ensures k in s.disk <==> k < cfg.writers * cfg.maxBlocks
  {
    LastOfQuota(k, cfg.writers, cfg.maxBlocks);
    assert Placed(cfg, k % cfg.writers, s.writers[k % cfg.writers]);
  }

  // Writers that all complete their quota have created the files
  // 0 .. writers * maxBlocks - 1 and no others.
  lemma QuotaCoversFiles(cfg: Config, schedule: seq<Action>, k: nat)
    requires Sane(cfg)
    requires forall i :: 0 <= i < cfg.writers ==> Run(cfg, schedule).writers[i].blocks == cfg.maxBlocks
    ensures k in Run(cfg, schedule).disk <==> k < cfg.writers * cfg.maxBlocks
    ensures Creations(cfg, schedule, k) == if k < cfg.writers * cfg.maxBlocks then 1 else 0
  {
    CreatedOnce(cfg, schedule, k);
    RunLedger(cfg, schedule);
    QuotaFile(cfg, Run(cfg, schedule), k);
  }

  // ----- after a stop

  function Rounds(w: Writer): nat { if w.delayStop < 3 then 3 - w.delayStop else 0 }

  // Steps left in the pass in progress.
  function InPass(cfg: Config, w: Writer): nat
    requires WriterShape(cfg, w)
  {
    match w.phase
    case Top => 0
    case After => 1
    case Data(i) => 2 + cfg.data - i
    case Release => 3 + cfg.data
    case Table(i) => 4 + cfg.data + cfg.table - i
    case Header => 5 + cfg.data + cfg.table
    case Mark => 6 + cfg.data + cfg.table
    case Test => 7 + cfg.data + cfg.table
    case Poll => 10 + cfg.data + cfg.table + if w.endCnt < 40 then 2 * (40 - w.endCnt) else 0
    case Slept =>
      if w.endCnt > 40 then 9 + cfg.data + cfg.table else 11 + cfg.data + cfg.table + 2 * (40 - w.endCnt)
    case Exited => 0
  }

  function StepsLeft(cfg: Config, w: Writer): nat
    requires WriterShape(cfg, w)
  {
    if w.phase == Exited then 0
    else 1 + Rounds(w) * (cfg.data + cfg.table + 100) + InPass(cfg, w)
  }

  // The highest file number this writer can still create.
  function FileLimit(cfg: Config, w: Writer): int {
    if w.phase == Exited then w.file
    else if w.phase == Top then w.file + cfg.writers * (Rounds(w) - 1)
    else w.file + cfg.writers * Rounds(w)
  }

  lemma StoppingStep(cfg: Config, w: Writer, k: Bucket)
    requires Sane(cfg) && WriterShape(cfg, w) && w.phase != Exited
    ensures StepsLeft(cfg, NextWriter(cfg, true, w, k)) < StepsLeft(cfg, w)
  {
    var v := NextWriter(cfg, true, w, k);
    if w.phase == Top && v.phase == Poll {
      assert Rounds(w) == Rounds(v) + 1;
      assert (Rounds(v) + 1) * (cfg.data + cfg.table + 100) ==
             Rounds(v) * (cfg.data + cfg.table + 100) + (cfg.data + cfg.table + 100);
    }
  }

  lemma StoppingFiles(cfg: Config, w: Writer, k: Bucket)
    requires Sane(cfg) && WriterShape(cfg, w)
    ensures var v := NextWriter(cfg, true, w, k);
            w.phase == Exited || FileLimit(cfg, v) <= FileLimit(cfg, w) || v.phase == Exited
    ensures w.phase == Header ==> w.file <= FileLimit(cfg, w)
  {
    var v := NextWriter(cfg, true, w, k);
    if w.phase == Top {
      assert w.phase == Top && v.phase == Poll ==> Rounds(w) - 1 == Rounds(v);
    }
  }

  function Turns(schedule: seq<Action>, id: nat): nat {
    if schedule == [] then 0
    else Turns(schedule[..|schedule| - 1], id) + if schedule[|schedule| - 1] == Write(id) then 1 else 0
  }

  lemma {:induction false} StopDrains(cfg: Config, s: State, rest: seq<Action>, id: nat)
    requires Shape(cfg, s) && s.stop && id < cfg.writers
    ensures var t := RunFrom(cfg, s, rest);
            && t.stop
            && (t.writers[id].phase == Exited ||
                StepsLeft(cfg, t.writers[id]) + Turns(rest, id) <= StepsLeft(cfg, s.writers[id]))
  {
    if rest != [] {
      var before := rest[..|rest| - 1];
      StopDrains(cfg, s, before, id);
      var t := RunFrom(cfg, s, before);
      var w := t.writers[id];
      if rest[|rest| - 1] == Write(id) && w.phase != Exited {
        StoppingStep(cfg, w, t.buckets[w.cur]);
      }
    }
  }

  // Between s and t, writer id has created no file above the limit.
  ghost predicate NoneAbove(cfg: Config, s: State, t: State, id: nat, limit: int)
    requires Sane(cfg)
  {
    forall k: nat :: k in t.disk && k !in s.disk && k % cfg.writers == id ==> k <= limit
  }

  // One writer step after a stop creates at most the file its writer stands at.
  lemma StopFilesWrite(cfg: Config, s: State, j: nat, id: nat)
    requires Shape(cfg, s) && Ledger(cfg, s) && s.stop && id < cfg.writers && j < cfg.writers
    ensures var t := WriteStep(cfg, s, j);
            && (t.writers[id].phase == Exited || FileLimit(cfg, t.writers[id]) <= FileLimit(cfg, s.writers[id]))
            && NoneAbove(cfg, s, t, id, FileLimit(cfg, s.writers[id]))
            && (s.writers[id].phase == Exited ==> NoneAbove(cfg, s, t, id, -1))
  {
    var w := s.writers[j];
    OwnFile(cfg, j, w);
    assert Copying(w) ==> Begun(w, w.file);
    if j == id { StoppingFiles(cfg, w, s.buckets[w.cur]); }
  }

  lemma {:induction false} StopFiles(cfg: Config, s: State, rest: seq<Action>, id: nat)
    requires Shape(cfg, s) && Ledger(cfg, s) && s.stop && id < cfg.writers
    ensures var t := RunFrom(cfg, s, rest);
            && t.stop
            && (t.writers[id].phase == Exited || FileLimit(cfg, t.writers[id]) <= FileLimit(cfg, s.writers[id]))
            && NoneAbove(cfg, s, t, id, FileLimit(cfg, s.writers[id]))
  {
    if rest != [] {
      var before := rest[..|rest| - 1];
      StopFiles(cfg, s, before, id);
      LedgerStays(cfg, s, before);
      var t := RunFrom(cfg, s, before);
      match rest[|rest| - 1]
      case Write(j) => if j < cfg.writers { StopFilesWrite(cfg, t, j, id); }
      case _ =>
    }
  }

  lemma WithinThree(cfg: Config, w: Writer)
    requires Sane(cfg) && WriterShape(cfg, w)
    ensures FileLimit(cfg, w) <= w.file + 3 * cfg.writers
    ensures StepsLeft(cfg, w) <= 4 * (cfg.table + cfg.data + 100)
  {
    assert Rounds(w) == 0 || Rounds(w) == 1 || Rounds(w) == 2 || Rounds(w) == 3;
  }

  lemma StepsPositive(cfg: Config, w: Writer)
    requires Sane(cfg) && WriterShape(cfg, w) && w.phase != Exited
    ensures StepsLeft(cfg, w) >= 1
  {
  }

  lemma StopEndsTurns(cfg: Config, s: State, rest: seq<Action>, id: nat)
    requires Shape(cfg, s) && s.stop && id < cfg.writers && Turns(rest, id) >= 4 * (cfg.table + cfg.data + 100)
    ensures RunFrom(cfg, s, rest).writers[id].phase == Exited
  {
    StopDrains(cfg, s, rest, id);
    WithinThree(cfg, s.writers[id]);
    var v := RunFrom(cfg, s, rest).writers[id];
    if v.phase != Exited { StepsPositive(cfg, v); }
  }

  lemma StopEndsFiles(cfg: Config, s: State, rest: seq<Action>, id: nat)
    requires Shape(cfg, s) && Ledger(cfg, s) && s.stop && id < cfg.writers
    ensures NoneAbove(cfg, s, RunFrom(cfg, s, rest), id, s.writers[id].file + 3 * cfg.writers)
  {
    WithinThree(cfg, s.writers[id]);
    StopFiles(cfg, s, rest, id);
  }

  // Once the stop byte is set, by the user or by a writer that saw a stall, and
  // whatever the driver and the other writers do: a writer has left its loop
  // after a fixed number of its own turns, and the files it still creates are
  // its current one and at most three more.
  lemma StopEndsEveryWriter(cfg: Config, schedule: seq<Action>, rest: seq<Action>, id: nat)
    requires Sane(cfg) && id < cfg.writers && Run(cfg, schedule).stop
    ensures var s := Run(cfg, schedule);
            var t := RunFrom(cfg, s, rest);
            && (Turns(rest, id) >= 4 * (cfg.table + cfg.data + 100) ==> t.writers[id].phase == Exited)
            && NoneAbove(cfg, s, t, id, s.writers[id].file + 3 * cfg.writers)
  {
    RunLedger(cfg, schedule);
    var s := Run(cfg, schedule);
    StopEndsFiles(cfg, s, rest, id);
    if Turns(rest, id) >= 4 * (cfg.table + cfg.data + 100) { StopEndsTurns(cfg, s, rest, id); }
  }

  // The user's stop is such a stop.
  lemma UserStopEnds(cfg: Config, schedule: seq<Action>, rest: seq<Action>, id: nat)
    requires Sane(cfg) && id < cfg.writers && Turns(rest, id) >= 4 * (cfg.table + cfg.data + 100)
    ensures RunFrom(cfg, Run(cfg, schedule + [UserStop]), rest).writers[id].phase == Exited
  {
    assert (schedule + [UserStop])[..|schedule|] == schedule;
    StopEndsEveryWriter(cfg, schedule + [UserStop], rest, id);
  }
}
