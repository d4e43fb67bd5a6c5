/**
 * The repeated store of the count.  While its block is unreleased it changes
 * nothing, and a writer that finds a full bucket at its first poll is right to
 * report a stall.  After an early writer has released the bucket the mark outlives
 * its block, and the bucket's next block is never written without a stop.
 */
module RecorderRemark {
  import opened Arith
  import opened Recorder
  import opened RecorderSafety
  import opened RecorderTheorems
  import opened RecorderLimits
  import opened RecorderStop

  // ----- when a stall report is right

  lemma StopStays(cfg: Config, s: State, a: Action)
    requires Shape(cfg, s)
    ensures s.stop ==> Step(cfg, s, a).stop
  {
  }

  // Some block that lies in bucket b is published and not released.
  ghost predicate Backed(cfg: Config, s: State, b: nat)
    requires Shape(cfg, s)
  {
    exists k: nat :: Unreleased(cfg, s, k) && k % cfg.buckets == b
  }

  // Every mark stands for an unreleased block.
  ghost predicate Honest(cfg: Config, s: State)
    requires Shape(cfg, s)
  {
    forall b: nat :: b < cfg.buckets && s.buckets[b].captured != 0 ==> Backed(cfg, s, b)
  }

  // A count is stored again only while its block is unreleased.
  ghost predicate TruthfulStep(cfg: Config, s: State, a: Action)
    requires Shape(cfg, s)
  {
    a == Repeat && !s.driverDone && |s.counts| > |s.content| ==> Unreleased(cfg, s, |s.content|)
  }

  ghost predicate Truthful(cfg: Config, schedule: seq<Action>)
    requires Sane(cfg)
  {
    forall i :: 0 <= i < |schedule| ==> TruthfulStep(cfg, Run(cfg, schedule[..i]), schedule[i])
  }

  // A block stays unreleased over a writer's step that leaves its mark.
  lemma StillUnreleased(cfg: Config, s: State, id: nat, k: nat)
    requires Inv(cfg, s) && !s.stop && id < cfg.writers && !DetectsStall(s.writers[id]) && Unreleased(cfg, s, k)
    requires WriteStep(cfg, s, id).buckets[k % cfg.buckets].captured != 0
    ensures Unreleased(cfg, WriteStep(cfg, s, id), k)
  {
    var w := s.writers[id];
    assert w.file % cfg.writers == id && w.cur == w.file % cfg.buckets;
    if k % cfg.writers == id {
      WriteAt(cfg, s, id);
      if FirstPoll(w) && s.buckets[w.cur].captured == 0 && k < w.file { ModGap(k, w.file, cfg.writers); }
    }
  }

  lemma HonestWrite(cfg: Config, s: State, id: nat)
    requires Inv(cfg, s) && !s.stop && id < cfg.writers && Honest(cfg, s) && !WriteStep(cfg, s, id).stop
    ensures Honest(cfg, WriteStep(cfg, s, id))
  {
    var t := WriteStep(cfg, s, id);
    forall b: nat | b < cfg.buckets && t.buckets[b].captured != 0 ensures Backed(cfg, t, b) {
      assert s.buckets[b].captured != 0;
      var k: nat :| Unreleased(cfg, s, k) && k % cfg.buckets == b;
      StillUnreleased(cfg, s, id, k);
    }
  }

  lemma LaterOwn(cfg: Config, w: Writer, j: nat)
    requires Sane(cfg) && At(cfg, w) > j && w.file % cfg.writers == j % cfg.writers
    ensures At(cfg, w) >= j + cfg.writers
  {
    if At(cfg, w) != w.file { ModShift(w.file, cfg.writers); }
    ModGap(j, At(cfg, w), cfg.writers);
  }

  // A block that has just been published is unreleased.
  lemma NewUnreleased(cfg: Config, s: State, count: nat)
    requires Inv(cfg, s) && !s.stop && !s.driverDone && |s.counts| == |s.content| && count > 0
    ensures Unreleased(cfg, PublishStep(cfg, s, count), |s.counts|)
  {
    var j := |s.counts|;
    var w := s.writers[j % cfg.writers];
    assert PublishedFor(cfg, s, w) && w.file % cfg.writers == j % cfg.writers;
    if At(cfg, w) > j { LaterOwn(cfg, w, j); }
  }

  lemma HonestPublish(cfg: Config, s: State, count: nat)
    requires Inv(cfg, s) && !s.stop && Honest(cfg, s)
    ensures Honest(cfg, PublishStep(cfg, s, count))
  {
    var t := PublishStep(cfg, s, count);
    if !s.driverDone && |s.counts| == |s.content| && count > 0 {
      NewUnreleased(cfg, s, count);
      forall b: nat | b < cfg.buckets && t.buckets[b].captured != 0 ensures Backed(cfg, t, b) {
        if b != |s.counts| % cfg.buckets {
          var k: nat :| Unreleased(cfg, s, k) && k % cfg.buckets == b;
          assert Unreleased(cfg, t, k);
        }
      }
    }
  }

  lemma HonestDriver(cfg: Config, s: State, a: Action)
    requires Inv(cfg, s) && !s.stop && Honest(cfg, s) && TruthfulStep(cfg, s, a)
    requires !a.Write? && !a.Publish?
    ensures Honest(cfg, Step(cfg, s, a))
  {
    var t := Step(cfg, s, a);
    forall b: nat | b < cfg.buckets && t.buckets[b].captured != 0 ensures Backed(cfg, t, b) {
      if s.buckets[b].captured != 0 {
        var k: nat :| Unreleased(cfg, s, k) && k % cfg.buckets == b;
        assert Unreleased(cfg, t, k);
      } else {
        assert Unreleased(cfg, t, |s.content|);
      }
    }
  }

  lemma HonestStep(cfg: Config, s: State, a: Action)
    requires Inv(cfg, s) && !s.stop && Honest(cfg, s) && TruthfulStep(cfg, s, a) && !Step(cfg, s, a).stop
    ensures Honest(cfg, Step(cfg, s, a))
  {
    match a {
      case Write(id) => if id < cfg.writers { HonestWrite(cfg, s, id); }
      case Publish(count) => HonestPublish(cfg, s, count);
      case _ => HonestDriver(cfg, s, a);
    }
  }

  lemma HonestNext(cfg: Config, s: State, a: Action)
    requires Inv(cfg, s) && (s.stop || Honest(cfg, s)) && TruthfulStep(cfg, s, a)
    ensures Step(cfg, s, a).stop || Honest(cfg, Step(cfg, s, a))
  {
    StopStays(cfg, s, a);
    if !Step(cfg, s, a).stop { HonestStep(cfg, s, a); }
  }

  lemma TruthfulPrefix(cfg: Config, schedule: seq<Action>)
    requires Sane(cfg) && Truthful(cfg, schedule) && schedule != []
    ensures Truthful(cfg, schedule[..|schedule| - 1])
    ensures TruthfulStep(cfg, Run(cfg, schedule[..|schedule| - 1]), schedule[|schedule| - 1])
  {
    var n := |schedule| - 1;
    forall i | 0 <= i < n ensures TruthfulStep(cfg, Run(cfg, schedule[..n][..i]), schedule[..n][i]) {
      assert schedule[..n][..i] == schedule[..i];
    }
  }

  lemma {:induction false} HonestRun(cfg: Config, schedule: seq<Action>)
    requires Enough(cfg) && Truthful(cfg, schedule)
    ensures Run(cfg, schedule).stop || Honest(cfg, Run(cfg, schedule))
    decreases |schedule|
  {
    if schedule != [] {
      var before, a := schedule[..|schedule| - 1], schedule[|schedule| - 1];
      TruthfulPrefix(cfg, schedule);
      HonestRun(cfg, before);
      RunInv(cfg, before);
      HonestNext(cfg, Run(cfg, before), a);
    }
  }

  // In every run whose repeated stores all hit unreleased blocks, a first poll that
  // finds a full bucket has a reason: the writer's own block is published already,
  // or a block from an earlier round of the ring is still unreleased there.
  lemma StallIsReal(cfg: Config, schedule: seq<Action>, id: nat)
    requires Enough(cfg) && Truthful(cfg, schedule) && id < cfg.writers
    requires var s := Run(cfg, schedule);
             !s.stop && s.writers[id].phase == Poll && s.writers[id].endCnt == 0
             && s.buckets[s.writers[id].cur].captured != 0
    ensures var s := Run(cfg, schedule);
            var file := s.writers[id].file;
            exists k: nat :: Unreleased(cfg, s, k) && k % cfg.buckets == file % cfg.buckets
                             && (file < |s.counts| || k + cfg.buckets <= file)
  {
    var s := Run(cfg, schedule);
    RunInv(cfg, schedule);
    HonestRun(cfg, schedule);
    var w := s.writers[id];
    assert w.cur == w.file % cfg.buckets;
    assert Backed(cfg, s, w.cur);
    var k: nat :| Unreleased(cfg, s, k) && k % cfg.buckets == w.cur;
    if |s.counts| <= w.file { ModGap(k, w.file, cfg.buckets); }
  }

  // ----- when the repeated store does harm

  // The writer neither releases the bucket of block j nor has found it empty since.
  ghost predicate Clear(cfg: Config, w: Writer, j: nat)
    requires Sane(cfg)
  {
    && j - cfg.buckets < At(cfg, w)
    && (At(cfg, w) == j ==> !Hot(w))
    && (At(cfg, w) > j ==> At(cfg, w) % cfg.buckets != j % cfg.buckets)
  }

  // The writer of the next block in the bucket of block j.
  function NextUser(cfg: Config, j: nat): nat
    requires Sane(cfg)
  {
    (j + cfg.buckets) % cfg.writers
  }

  ghost predicate Remarked(cfg: Config, s: State, j: nat) {
    && Inv(cfg, s) && !s.stop
    && s.buckets[j % cfg.buckets].captured != 0
    && (forall i :: 0 <= i < cfg.writers ==> Clear(cfg, s.writers[i], j))
    && At(cfg, s.writers[NextUser(cfg, j)]) < j + cfg.buckets
  }

  // No step of a writer clears the mark, and none passes it.
  lemma RemarkedOwn(cfg: Config, s: State, j: nat, id: nat)
    requires Remarked(cfg, s, j) && id < cfg.writers && !DetectsStall(s.writers[id])
    ensures var t := WriteStep(cfg, s, id);
            t.buckets[j % cfg.buckets].captured != 0 && Clear(cfg, t.writers[id], j)
  {
    var w := s.writers[id];
    WriteAt(cfg, s, id);
    assert w.cur == w.file % cfg.buckets && Clear(cfg, w, j) && CalmWriter(w);
    if w.phase == Release && w.cur == j % cfg.buckets {
      assert At(cfg, w) == w.file && Hot(w);
      if w.file < j { ModGap(w.file, j, cfg.buckets); }
    }
  }

  // It is stopped at block j + buckets at the latest.
  lemma NextUserStays(cfg: Config, s: State, j: nat)
    requires Remarked(cfg, s, j) && !DetectsStall(s.writers[NextUser(cfg, j)])
    ensures At(cfg, WriteStep(cfg, s, NextUser(cfg, j)).writers[NextUser(cfg, j)]) < j + cfg.buckets
  {
    var id := NextUser(cfg, j);
    var w := s.writers[id];
    WriteAt(cfg, s, id);
    assert w.file % cfg.writers == id && w.cur == w.file % cfg.buckets && CalmWriter(w);
    if FirstPoll(w) && s.buckets[w.cur].captured == 0 {
      if j + cfg.buckets < w.file { ModGap(j + cfg.buckets, w.file, cfg.writers); }
      if w.file == j + cfg.buckets { ModShift(j, cfg.buckets); }
    }
  }

  lemma RemarkedWrite(cfg: Config, s: State, j: nat, id: nat)
    requires Remarked(cfg, s, j) && id < cfg.writers
    ensures var t := WriteStep(cfg, s, id); t.stop || Remarked(cfg, t, j)
  {
    var t := WriteStep(cfg, s, id);
    WriteInv(cfg, s, id);
    if !t.stop {
      RemarkedOwn(cfg, s, j, id);
      if id == NextUser(cfg, j) { NextUserStays(cfg, s, j); }
    }
  }

  lemma RemarkedStep(cfg: Config, s: State, j: nat, a: Action)
    requires Remarked(cfg, s, j)
    ensures var t := Step(cfg, s, a); t.stop || Remarked(cfg, t, j)
  {
    StepInv(cfg, s, a);
    match a
    case Write(id) => if id < cfg.writers { RemarkedWrite(cfg, s, j, id); }
    case _ =>
  }

  lemma {:induction false} RemarkedRun(cfg: Config, s: State, j: nat, rest: seq<Action>)
    requires Remarked(cfg, s, j)
    ensures var t := RunFrom(cfg, s, rest); t.stop || Remarked(cfg, t, j)
    decreases |rest|
  {
    if rest != [] {
      var before := rest[..|rest| - 1];
      RemarkedRun(cfg, s, j, before);
      var t := RunFrom(cfg, s, before);
      if t.stop { StopStays(cfg, t, rest[|rest| - 1]); } else { RemarkedStep(cfg, t, j, rest[|rest| - 1]); }
    }
  }

  // The state in which the repeated store does harm: the writer of the block in
  // progress has released its bucket, nobody is late.
  ghost predicate ReleasedEarly(cfg: Config, s: State) {
    && Inv(cfg, s) && !s.stop && !s.driverDone && |s.counts| > |s.content| && OnTime(cfg, s)
    && var w := s.writers[|s.content| % cfg.writers];
       At(cfg, w) >= |s.content| && (At(cfg, w) == |s.content| ==> !Hot(w))
  }

  // The block a writer is at is its own.
  lemma OwnAt(cfg: Config, w: Writer, j: nat)
    requires Sane(cfg) && At(cfg, w) == j
    ensures j % cfg.writers == w.file % cfg.writers
  {
    if w.file != j { ModShift(j, cfg.writers); }
  }

  lemma RepeatRemarks(cfg: Config, s: State)
    requires ReleasedEarly(cfg, s)
    ensures Remarked(cfg, Step(cfg, s, Repeat), |s.content|)
  {
    var j := |s.content|;
    RepeatInv(cfg, s);
    forall i | 0 <= i < cfg.writers ensures Clear(cfg, s.writers[i], j) {
      var w := s.writers[i];
      assert PublishedFor(cfg, s, w);
      assert w.file % cfg.writers == i;
      assert At(cfg, w) <= j + cfg.writers;
      if At(cfg, w) == j { OwnAt(cfg, w, j); }
      if At(cfg, w) > j && At(cfg, w) % cfg.buckets == j % cfg.buckets { ModGap(j, At(cfg, w), cfg.buckets); }
    }
    assert PublishedFor(cfg, s, s.writers[NextUser(cfg, j)]);
  }

  lemma ReleasedIsUnmarked(cfg: Config, s: State)
    requires Inv(cfg, s) && !s.stop && |s.counts| > |s.content| && OnTime(cfg, s) && Honest(cfg, s)
    requires !Unreleased(cfg, s, |s.content|)
    ensures s.buckets[|s.content| % cfg.buckets].captured == 0
  {
    var j := |s.content|;
    if s.buckets[j % cfg.buckets].captured != 0 {
      assert Backed(cfg, s, j % cfg.buckets);
      var k: nat :| Unreleased(cfg, s, k) && k % cfg.buckets == j % cfg.buckets;
      ModGap(k, j, cfg.buckets);
    }
  }

  // With every mark honest and nobody late, the repeated store changes nothing
  // exactly when its block is unreleased.
  lemma RepeatChangesNothing(cfg: Config, s: State)
    requires Inv(cfg, s) && !s.stop && !s.driverDone && |s.counts| > |s.content| && OnTime(cfg, s) && Honest(cfg, s)
    ensures Step(cfg, s, Repeat) == s <==> Unreleased(cfg, s, |s.content|)
    ensures ReleasedEarly(cfg, s) <==> !Unreleased(cfg, s, |s.content|)
  {
    var j := |s.content|;
    var b := j % cfg.buckets;
    if Unreleased(cfg, s, j) {
      assert Held(cfg, s, j);
      assert s.buckets[b := s.buckets[b]] == s.buckets;
    } else {
      ReleasedIsUnmarked(cfg, s);
      assert Step(cfg, s, Repeat).buckets[b].captured == s.counts[j] > 0;
    }
  }

  lemma NotBegun(cfg: Config, w: Writer, k: nat)
    requires Sane(cfg) && At(cfg, w) < k && w.file % cfg.writers == k % cfg.writers
    ensures !Begun(w, k)
  {
    if k < w.file { ModGap(k, w.file, cfg.writers); }
  }

  // The next block of the bucket of block j is not on disk, and its writer has not
  // found the bucket empty.
  ghost predicate Blocked(cfg: Config, s: State, j: nat)
    requires Shape(cfg, s)
  {
    j + cfg.buckets !in s.disk && At(cfg, s.writers[NextUser(cfg, j)]) < j + cfg.buckets
  }

  lemma RemarkedBlocks(cfg: Config, s: State, j: nat)
    requires Remarked(cfg, s, j) && Ledger(cfg, s)
    ensures Blocked(cfg, s, j)
  {
    var w := s.writers[NextUser(cfg, j)];
    assert w.file % cfg.writers == NextUser(cfg, j);
    NotBegun(cfg, w, j + cfg.buckets);
  }

  lemma RemarkedEnds(cfg: Config, s: State, j: nat, rest: seq<Action>)
    requires Remarked(cfg, s, j) && Ledger(cfg, s)
    ensures var t := RunFrom(cfg, s, rest); t.stop || Blocked(cfg, t, j)
  {
    RemarkedRun(cfg, s, j, rest);
    LedgerStays(cfg, s, rest);
    var t := RunFrom(cfg, s, rest);
    if !t.stop { RemarkedBlocks(cfg, t, j); }
  }

  lemma RepeatEnds(cfg: Config, s: State, rest: seq<Action>)
    requires ReleasedEarly(cfg, s) && Ledger(cfg, s)
    ensures var t := RunFrom(cfg, Step(cfg, s, Repeat), rest); t.stop || Blocked(cfg, t, |s.content|)
  {
    RepeatRemarks(cfg, s);
    LedgerStep(cfg, s, Repeat);
    RemarkedEnds(cfg, Step(cfg, s, Repeat), |s.content|, rest);
  }

  // Once the count is stored again over a released bucket, no continuation writes
  // the bucket's next block, or takes its writer past its first poll, without a
  // stop.
  lemma RepeatEndsRecording(cfg: Config, schedule: seq<Action>, rest: seq<Action>)
    requires Enough(cfg) && ReleasedEarly(cfg, Run(cfg, schedule))
    ensures var s := Run(cfg, schedule);
            var t := RunFrom(cfg, Step(cfg, s, Repeat), rest); t.stop || Blocked(cfg, t, |s.content|)
  {
    RunLedger(cfg, schedule);
    RepeatEnds(cfg, Run(cfg, schedule), rest);
  }

  // When that writer gets there, it reports a stall.
  lemma RemarkAlarms(cfg: Config, s: State, j: nat)
    requires Remarked(cfg, s, j)
    requires var w := s.writers[NextUser(cfg, j)]; w.phase == Poll && w.endCnt == 0 && w.file == j + cfg.buckets
    ensures var id := NextUser(cfg, j); Step(cfg, Step(cfg, s, Write(id)), Write(id)).stop
  {
    var w := s.writers[NextUser(cfg, j)];
    assert w.cur == w.file % cfg.buckets && CalmWriter(w);
    ModShift(j, cfg.buckets);
  }

  lemma FirstReleased(cfg: Config, s: State)
    requires Inv(cfg, s) && Alone(cfg, s, Data(0)) && !s.driverDone && s.content == [] && |s.counts| == 1
    ensures ReleasedEarly(cfg, s)
  {
    ModIs(0, 0, 0, cfg.writers);
    forall i | 0 <= i < cfg.writers ensures |s.counts| <= At(cfg, s.writers[i]) + cfg.writers {
      if i > 0 { assert s.writers[i] == Asleep(i); }
    }
  }

  // Every accepted configuration has a run into such a state, in which every
  // writer found its bucket empty: no disk was slow.
  lemma RepeatRun(cfg: Config) returns (s: State)
    requires Enough(cfg)
    ensures Reached(cfg, s) && ReleasedEarly(cfg, s)
  {
    s := TakeEarly(cfg);
    s := CopyUntil(cfg, s, Table(0), Data(0));
    var schedule :| s == Run(cfg, schedule);
    RunInv(cfg, schedule);
    FirstReleased(cfg, s);
  }
}
