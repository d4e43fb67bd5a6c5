/**
 * The moment at which a writer begins with a block decides what becomes of its
 * file: it can be trusted exactly when the driver has finished the block by then.
 */
module RecorderTake {
  import opened Recorder
  import opened RecorderSafety
  import opened RecorderTheorems
  import opened RecorderStop

  lemma NotEarlyStep(cfg: Config, s: State, k: nat, a: Action)
    requires Shape(cfg, s) && k < |s.content| && k !in s.early
    ensures var t := Step(cfg, s, a); k < |t.content| && k !in t.early
  {
  }

  // A finished block that was not taken early is not taken early later.
  lemma {:induction false} NotEarly(cfg: Config, s: State, k: nat, rest: seq<Action>)
    requires Shape(cfg, s) && k < |s.content| && k !in s.early
    ensures var t := RunFrom(cfg, s, rest); k < |t.content| && k !in t.early
    decreases |rest|
  {
    if rest != [] {
      NotEarly(cfg, s, k, rest[..|rest| - 1]);
      NotEarlyStep(cfg, RunFrom(cfg, s, rest[..|rest| - 1]), k, rest[|rest| - 1]);
    }
  }

  lemma EarlyStep(cfg: Config, s: State, a: Action)
    requires Shape(cfg, s) && forall k :: k in s.early ==> k in s.disk
    ensures var t := Step(cfg, s, a); forall k :: k in t.early ==> k in t.disk
  {
  }

  // Only files that exist count as taken early.
  lemma {:induction false} EarlyOnDisk(cfg: Config, schedule: seq<Action>)
    requires Sane(cfg)
    ensures forall k :: k in Run(cfg, schedule).early ==> k in Run(cfg, schedule).disk
    decreases |schedule|
  {
    if schedule != [] {
      var before, a := schedule[..|schedule| - 1], schedule[|schedule| - 1];
      EarlyOnDisk(cfg, before);
      EarlyStep(cfg, Run(cfg, before), a);
    }
  }

  lemma HeaderNotEarly(cfg: Config, schedule: seq<Action>, id: nat)
    requires Sane(cfg) && id < cfg.writers && Run(cfg, schedule).writers[id].phase == Header
    ensures Run(cfg, schedule).writers[id].file !in Run(cfg, schedule).early
  {
    EarlyOnDisk(cfg, schedule);
    RunLedger(cfg, schedule);
    var w := Run(cfg, schedule).writers[id];
    OwnFile(cfg, id, w);
    assert !Begun(w, w.file);
  }

  // File k, as far as it has been copied, is the finished block.
  ghost predicate Faithful(s: State, k: nat) {
    k < |s.content| && k in s.disk ==> s.disk[k].pieces <= s.content[k].pieces
  }

  // In every continuation without a stop in which nobody is late.
  ghost predicate StaysFaithful(cfg: Config, s: State, k: nat)
    requires Shape(cfg, s)
  {
    forall rest :: var t := RunFrom(cfg, s, rest); !t.stop && OnTime(cfg, t) ==> Faithful(t, k)
  }

  lemma InTimeFaithful(cfg: Config, t: State, k: nat)
    requires Inv(cfg, t) && Ledger(cfg, t) && !t.stop && OnTime(cfg, t) && k !in t.early
    ensures Faithful(t, k)
  {
    var w := t.writers[k % cfg.writers];
    if k in t.disk {
      assert Begun(w, k);
      if Complete(w, k) { assert Exact(t, k); }
    }
  }

  lemma FinishedIsFaithful(cfg: Config, s: State, k: nat)
    requires Inv(cfg, s) && Ledger(cfg, s) && k < |s.content| && k !in s.early
    ensures StaysFaithful(cfg, s, k)
  {
    forall rest | var t := RunFrom(cfg, s, rest); !t.stop && OnTime(cfg, t)
      ensures Faithful(RunFrom(cfg, s, rest), k)
    {
      NotEarly(cfg, s, k, rest);
      RunFromInv(cfg, s, rest);
      LedgerStays(cfg, s, rest);
      InTimeFaithful(cfg, RunFrom(cfg, s, rest), k);
    }
  }

  lemma StaysOnTime(cfg: Config, s: State, t: State, id: nat)
    requires Shape(cfg, s) && Shape(cfg, t) && OnTime(cfg, s) && id < cfg.writers
    requires s.writers[id].phase == Header && t.writers == s.writers[id := s.writers[id].(phase := Table(1))]
    requires t.counts == s.counts
    ensures OnTime(cfg, t)
  {
    forall i | 0 <= i < cfg.writers ensures |t.counts| <= At(cfg, t.writers[i]) + cfg.writers {
      assert |s.counts| <= At(cfg, s.writers[i]) + cfg.writers;
    }
  }

  lemma UnfinishedIsNot(cfg: Config, s: State, id: nat)
    requires Inv(cfg, s) && !s.stop && OnTime(cfg, s) && id < cfg.writers && cfg.table >= 1
    requires s.writers[id].phase == Header && |s.content| <= s.writers[id].file
    ensures !StaysFaithful(cfg, s, s.writers[id].file)
  {
    var k := s.writers[id].file;
    var spoil := Spoiling(cfg, s, id);
    var t := RunFrom(cfg, s, spoil);
    StaysOnTime(cfg, s, t, id);
    assert !Faithful(t, k);
  }

  // A writer that stands before its file, with nobody late: the file will be the
  // block in every continuation exactly when the block is finished.
  lemma TakeDecides(cfg: Config, schedule: seq<Action>, id: nat)
    requires Enough(cfg) && id < cfg.writers && cfg.table >= 1
    requires var s := Run(cfg, schedule); !s.stop && OnTime(cfg, s) && s.writers[id].phase == Header
    ensures var s := Run(cfg, schedule);
            StaysFaithful(cfg, s, s.writers[id].file) <==> s.writers[id].file < |s.content|
  {
    var s := Run(cfg, schedule);
    RunInv(cfg, schedule);
    RunLedger(cfg, schedule);
    if s.writers[id].file < |s.content| {
      HeaderNotEarly(cfg, schedule, id);
      FinishedIsFaithful(cfg, s, s.writers[id].file);
    } else {
      UnfinishedIsNot(cfg, s, id);
    }
  }
}
