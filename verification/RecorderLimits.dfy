/**
 * Where the recorder's guarantee ends.  For every configuration there is a run
 * that seals a wrong file: without a bucket to spare because the driver reaches a
 * bucket that is still being copied, and with it when a block is taken before the
 * driver has finished it.
 */
module RecorderLimits {
  import opened Arith
  import opened Recorder
  import opened RecorderSafety
  import opened RecorderTheorems

  const COUNT := 5
  const NOISE := 7

  ghost predicate Reached(cfg: Config, s: State) {
    Sane(cfg) && exists schedule :: s == Run(cfg, schedule)
  }

  lemma Onward(cfg: Config, s: State, a: Action)
    requires Reached(cfg, s)
    ensures Shape(cfg, s) && Reached(cfg, Step(cfg, s, a))
  {
    var schedule :| s == Run(cfg, schedule);
    RunFromOne(cfg, Start(cfg), schedule, a);
    assert Step(cfg, s, a) == Run(cfg, schedule + [a]);
  }

  // ----- every writer finds its first bucket empty

  function Asleep(i: nat): Writer { Writer(Slept, i, i, 0, 1, 0, false, false) }

  ghost predicate Zeros(pieces: seq<Chunk>) { forall p :: 0 <= p < |pieces| ==> pieces[p] == 0 }

  ghost predicate Blank(k: Bucket) {
    !k.last && !k.stalled && Zeros(k.pieces)
  }

  // The first j writers sleep, the others have not begun.
  ghost predicate Waits(cfg: Config, s: State, j: nat) {
    && Shape(cfg, s) && !s.stop && !s.driverDone && s.counts == [] && s.content == [] && s.early == {}
    && (forall b :: 0 <= b < cfg.buckets ==> Blank(s.buckets[b]) && s.buckets[b].captured == 0)
    && (forall i: nat :: i < cfg.writers ==>
          s.writers[i] == if i < j then Asleep(i) else Writer(Top, i, i, 0, 0, 0, false, false))
  }

  lemma WaitsNext(cfg: Config, s: State, j: nat)
    requires Waits(cfg, s, j) && j < cfg.writers
    ensures Waits(cfg, Step(cfg, Step(cfg, s, Write(j)), Write(j)), j + 1)
  {
  }

  lemma Twice(cfg: Config, s: State, a: Action, b: Action)
    requires Reached(cfg, s)
    ensures Shape(cfg, s) && Reached(cfg, Step(cfg, Step(cfg, s, a), b))
  {
    Onward(cfg, s, a);
    Onward(cfg, Step(cfg, s, a), b);
  }

  lemma {:induction false} AllWait(cfg: Config, j: nat) returns (s: State)
    requires Sane(cfg) && j <= cfg.writers
    ensures Reached(cfg, s) && Waits(cfg, s, j)
  {
    if j == 0 {
      s := Start(cfg);
      assert s == Run(cfg, []);
    } else {
      s := AllWait(cfg, j - 1);
      WaitsNext(cfg, s, j - 1);
      Twice(cfg, s, Write(j - 1), Write(j - 1));
      s := Step(cfg, Step(cfg, s, Write(j - 1)), Write(j - 1));
    }
  }

  // ----- the driver finishes j blocks while they sleep

  ghost predicate Filled(cfg: Config, s: State, j: nat) {
    && Shape(cfg, s) && !s.stop && !s.driverDone && |s.counts| == |s.content| == j && s.early == {}
    && (forall b :: 0 <= b < cfg.buckets ==> Blank(s.buckets[b]) && s.buckets[b].captured == if b < j then COUNT else 0)
    && (forall b :: 0 <= b < j ==> Zeros(s.content[b].pieces) && |s.content[b].pieces| == Pieces(cfg))
    && (forall i: nat :: i < cfg.writers ==> s.writers[i] == Asleep(i))
  }

  lemma FilledNext(cfg: Config, s: State, j: nat)
    requires Filled(cfg, s, j) && j < cfg.buckets
    ensures Filled(cfg, Step(cfg, Step(cfg, s, Publish(COUNT)), Finish), j + 1)
  {
    ModIs(j, 0, j, cfg.buckets);
  }

  lemma {:induction false} Fill(cfg: Config, j: nat) returns (s: State)
    requires Sane(cfg) && j <= cfg.buckets
    ensures Reached(cfg, s) && Filled(cfg, s, j)
  {
    if j == 0 {
      s := AllWait(cfg, cfg.writers);
    } else {
      s := Fill(cfg, j - 1);
      FilledNext(cfg, s, j - 1);
      Twice(cfg, s, Publish(COUNT), Finish);
      s := Step(cfg, Step(cfg, s, Publish(COUNT)), Finish);
    }
  }

  // ----- writer 0 copies block 0 alone

  // The bucket that writer 0 looks at next.
  function NextOf(cfg: Config): nat
    requires Sane(cfg)
  {
    cfg.writers % cfg.buckets
  }

  // The length of file 0 in a phase, once it exists.
  function Length(cfg: Config, p: Phase): int {
    match p
    case Table(i) => i
    case Release => cfg.table
    case Data(i) => cfg.table + i
    case After => cfg.table + cfg.data
    case _ => -1
  }

  // Writer 0 is in the given phase of block 0 and will find its next bucket empty.
  ghost predicate Alone(cfg: Config, s: State, phase: Phase) {
    && Shape(cfg, s) && !s.stop && 0 < |s.counts|
    && s.writers[0] == Asleep(0).(phase := phase)
    && (forall i: nat :: 1 <= i < cfg.writers ==> s.writers[i] == Asleep(i))
    && Blank(s.buckets[0].(pieces := []))
    && (NextOf(cfg) != 0 || phase.Data? || phase.After? ==> s.buckets[NextOf(cfg)].captured == 0)
    && (Length(cfg, phase) >= 0 ==> 0 in s.disk && |s.disk[0].pieces| == Length(cfg, phase))
  }

  // Steps of writer 0 leave the driver's side alone and only extend file 0.
  ghost predicate Carried(s: State, t: State) {
    && t.counts == s.counts && t.content == s.content && t.early == s.early && t.driverDone == s.driverDone
    && 0 in s.disk && 0 in t.disk && s.disk[0].pieces <= t.disk[0].pieces
  }

  predicate CopyPhase(cfg: Config, p: Phase) {
    (p.Table? && p.next <= cfg.table) || p == Release || (p.Data? && p.next <= cfg.data)
  }

  function NextPhase(cfg: Config, p: Phase): Phase {
    match p
    case Table(i) => if i == cfg.table then Release else Table(i + 1)
    case Release => Data(0)
    case Data(i) => if i == cfg.data then After else Data(i + 1)
    case _ => p
  }

  lemma CopyStep(cfg: Config, s: State, p: Phase)
    requires Alone(cfg, s, p) && CopyPhase(cfg, p)
    ensures var t := Step(cfg, s, Write(0)); Alone(cfg, t, NextPhase(cfg, p)) && Carried(s, t)
  {
  }

  function Left(cfg: Config, p: Phase): int {
    match p
    case Table(i) => cfg.table - i + cfg.data + 3
    case Release => cfg.data + 2
    case Data(i) => cfg.data - i + 1
    case _ => 0
  }

  // Copying from phase p leads to the phase `goal`.
  predicate LeadsTo(cfg: Config, p: Phase, goal: Phase) {
    p == goal || (CopyPhase(cfg, p) && (goal == After || (goal == Data(0) && !p.Data?)))
  }

  lemma PhaseNext(cfg: Config, p: Phase, goal: Phase)
    requires LeadsTo(cfg, p, goal) && p != goal
    ensures LeadsTo(cfg, NextPhase(cfg, p), goal) && 0 <= Left(cfg, NextPhase(cfg, p)) < Left(cfg, p)
  {
  }

  lemma CarriedOn(s: State, t: State, u: State)
    requires Carried(s, t) && Carried(t, u)
    ensures Carried(s, u)
  {
  }

  // Writer 0 goes on copying until it reaches the phase `goal`.
  lemma {:induction false} CopyUntil(cfg: Config, s: State, p: Phase, goal: Phase) returns (t: State)
    requires Reached(cfg, s) && Alone(cfg, s, p) && LeadsTo(cfg, p, goal) && Length(cfg, p) >= 0
    ensures Reached(cfg, t) && Alone(cfg, t, goal) && Carried(s, t)
    decreases Left(cfg, p)
  {
    if p == goal {
      t := s;
    } else {
      CopyStep(cfg, s, p);
      Onward(cfg, s, Write(0));
      PhaseNext(cfg, p, goal);
      t := CopyUntil(cfg, Step(cfg, s, Write(0)), NextPhase(cfg, p), goal);
      CarriedOn(s, Step(cfg, s, Write(0)), t);
    }
  }

  // A complete file 0 and the empty first poll for the next block.
  ghost predicate Past(cfg: Config, s: State) {
    Shape(cfg, s) && !s.stop && Sealed(cfg, s, 0)
  }

  lemma PollNext(cfg: Config, s: State)
    requires Alone(cfg, s, After) && cfg.maxBlocks >= 2
    ensures var t := Step(cfg, Step(cfg, Step(cfg, s, Write(0)), Write(0)), Write(0)); Past(cfg, t) && Carried(s, t)
  {
  }

  lemma CopyRest(cfg: Config, s: State, p: Phase) returns (t: State)
    requires Reached(cfg, s) && Alone(cfg, s, p) && CopyPhase(cfg, p) && cfg.maxBlocks >= 2
    ensures Reached(cfg, t) && Past(cfg, t) && Carried(s, t)
  {
    t := CopyUntil(cfg, s, p, After);
    PollNext(cfg, t);
    Onward(cfg, t, Write(0));
    t := Step(cfg, t, Write(0));
    Onward(cfg, t, Write(0));
    t := Step(cfg, t, Write(0));
    Onward(cfg, t, Write(0));
    t := Step(cfg, t, Write(0));
  }

  // From its sleep writer 0 finds bucket 0 filled and stands before file 0.
  lemma WakeSteps(cfg: Config, s: State)
    requires Alone(cfg, s, Slept) && s.buckets[0].captured == COUNT
    ensures var t := Step(cfg, Step(cfg, Step(cfg, s, Write(0)), Write(0)), Write(0));
            Alone(cfg, t, Header) && t == s.(writers := t.writers)
  {
    assert s.buckets[0 := s.buckets[0]] == s.buckets;
  }

  lemma Wake(cfg: Config, s: State) returns (t: State)
    requires Reached(cfg, s) && Alone(cfg, s, Slept) && s.buckets[0].captured == COUNT
    ensures Reached(cfg, t) && Alone(cfg, t, Header) && t == s.(writers := t.writers)
  {
    WakeSteps(cfg, s);
    Onward(cfg, s, Write(0));
    t := Step(cfg, s, Write(0));
    Onward(cfg, t, Write(0));
    t := Step(cfg, t, Write(0));
    Onward(cfg, t, Write(0));
    t := Step(cfg, t, Write(0));
  }

  lemma Create(cfg: Config, s: State) returns (t: State)
    requires Reached(cfg, s) && Alone(cfg, s, Header)
    ensures Reached(cfg, t) && Alone(cfg, t, Table(0)) && t.buckets == s.buckets && 0 in t.disk
    ensures t.disk[0].pieces == [] && t == s.(writers := t.writers, disk := t.disk, early := t.early)
    ensures t.early == if |s.content| == 0 then s.early + {0} else s.early
  {
    assert s.buckets[0 := s.buckets[0]] == s.buckets;
    Onward(cfg, s, Write(0));
    t := Step(cfg, s, Write(0));
  }

  // ----- a ring with no bucket to spare

  // The driver writes into bucket 0 while its data is still to be copied.
  lemma Overtaken(cfg: Config, s: State)
    requires Alone(cfg, s, Data(0)) && !s.driverDone && |s.content| == cfg.writers && cfg.data >= 1
    requires cfg.buckets <= cfg.writers
    ensures var t := Step(cfg, s, Touch(false, cfg.table, NOISE));
            && Alone(cfg, t, Data(0)) && t.buckets[0].pieces[cfg.table] == NOISE
            && t == s.(buckets := t.buckets)
  {
    ModIs(cfg.buckets, 1, 0, cfg.buckets);
  }

  lemma CopyNoise(cfg: Config, s: State)
    requires Alone(cfg, s, Data(0)) && cfg.data >= 1 && s.buckets[0].pieces[cfg.table] == NOISE
    ensures var t := Step(cfg, s, Write(0));
            && Alone(cfg, t, Data(1)) && Carried(s, t) && t.disk[0].pieces[cfg.table] == NOISE
  {
  }

  // Block 0 was finished when it was taken, and it is all zero.
  ghost predicate BlankBlock(cfg: Config, s: State) {
    && 0 < |s.content| == cfg.writers && 0 !in s.early
    && |s.content[0].pieces| == Pieces(cfg) && Zeros(s.content[0].pieces)
  }

  lemma FilledAlone(cfg: Config, s: State)
    requires Filled(cfg, s, cfg.writers) && cfg.buckets <= cfg.writers
    ensures Alone(cfg, s, Slept) && BlankBlock(cfg, s) && s.buckets[0].captured == COUNT
  {
    ModIs(cfg.writers, 1, 0, cfg.buckets);
  }

  lemma TakeBlank(cfg: Config) returns (s: State)
    requires Sane(cfg) && cfg.buckets <= cfg.writers
    ensures Reached(cfg, s) && Alone(cfg, s, Data(0)) && BlankBlock(cfg, s) && !s.driverDone
  {
    s := Fill(cfg, cfg.writers);
    FilledAlone(cfg, s);
    s := Wake(cfg, s);
    s := Create(cfg, s);
    s := CopyUntil(cfg, s, Table(0), Data(0));
  }

  // With as many buckets as writers there is a run without a stall in which file 0
  // is sealed and wrong, although block 0 was finished when taken.
  lemma ShortRingRun(cfg: Config) returns (s: State)
    requires Sane(cfg) && !Enough(cfg) && cfg.data >= 1 && cfg.maxBlocks >= 2
    ensures Reached(cfg, s) && !s.stop && Sealed(cfg, s, 0) && 0 !in s.early && 0 < |s.content| && !Exact(s, 0)
  {
    s := TakeBlank(cfg);
    Overtaken(cfg, s);
    var touch := Touch(false, cfg.table, NOISE);
    Onward(cfg, s, touch);
    s := Step(cfg, s, touch);
    CopyNoise(cfg, s);
    Onward(cfg, s, Write(0));
    s := Step(cfg, s, Write(0));
    s := CopyRest(cfg, s, Data(1));
  }

  // The guarantee holds over all runs exactly when there is a bucket more than
  // writers.
  lemma OneMoreIsExact(cfg: Config)
    requires Sane(cfg) && cfg.data >= 1 && cfg.maxBlocks >= 2
    ensures Enough(cfg) <==> forall schedule: seq<Action>, k: nat ::
              var s := Run(cfg, schedule); !s.stop && Sealed(cfg, s, k) && k !in s.early ==> Exact(s, k)
  {
    if Enough(cfg) {
      forall schedule: seq<Action>, k: nat |
        var s := Run(cfg, schedule); !s.stop && Sealed(cfg, s, k) && k !in s.early
        ensures Exact(Run(cfg, schedule), k)
      {
        SealedFilesAreExact(cfg, schedule, k, []);
      }
    } else {
      var s := ShortRingRun(cfg);
      var schedule :| s == Run(cfg, schedule);
      assert !Exact(Run(cfg, schedule), 0);
    }
  }

  // So the guard of the configuration reader, which asks for two more, suffices.
  lemma GuardSuffices(cfg: Config, schedule: seq<Action>, k: nat, rest: seq<Action>)
    requires Accepted(cfg)
    requires var s := Run(cfg, schedule); !s.stop && Sealed(cfg, s, k) && k !in s.early
    ensures Enough(cfg) && Exact(RunFrom(cfg, Run(cfg, schedule), rest), k)
  {
    SealedFilesAreExact(cfg, schedule, k, rest);
  }

  // The guard refuses just one configuration that would do: a single spare bucket.
  lemma GuardRefuses(cfg: Config)
    requires Sane(cfg)
    ensures Enough(cfg) && !Accepted(cfg) <==> cfg.buckets == cfg.writers + 1
  {
  }

  // ----- a block taken before it is finished

  lemma PublishedAlone(cfg: Config, s: State)
    requires Waits(cfg, s, cfg.writers) && Enough(cfg)
    ensures var t := Step(cfg, s, Publish(COUNT));
            && Alone(cfg, t, Slept) && t.buckets[0].captured == COUNT && Zeros(t.buckets[0].pieces)
            && t.content == [] && |t.counts| == 1 && !t.driverDone
  {
    ModIs(cfg.writers, 0, cfg.writers, cfg.buckets);
    ModIs(0, 0, 0, cfg.buckets);
  }

  // The driver publishes block 0 and writer 0 begins to copy it.
  lemma TakeEarly(cfg: Config) returns (s: State)
    requires Enough(cfg)
    ensures Reached(cfg, s) && Alone(cfg, s, Table(0)) && !s.driverDone
    ensures Zeros(s.buckets[0].pieces) && s.content == [] && |s.counts| == 1
  {
    s := AllWait(cfg, cfg.writers);
    PublishedAlone(cfg, s);
    Onward(cfg, s, Publish(COUNT));
    s := Step(cfg, s, Publish(COUNT));
    s := Wake(cfg, s);
    s := Create(cfg, s);
  }

  // The first piece is on disk when the driver replaces it and finishes.
  lemma ReplaceFirst(cfg: Config, s: State)
    requires Alone(cfg, s, Table(1)) && !s.driverDone && s.content == [] && |s.counts| == 1 && cfg.table >= 1
    ensures var t := Step(cfg, Step(cfg, s, Touch(false, 0, NOISE)), Finish);
            && Alone(cfg, t, Table(1)) && t.disk == s.disk && |t.content| == 1
            && |t.content[0].pieces| > 0 && t.content[0].pieces[0] == NOISE
  {
    ModIs(0, 0, 0, cfg.buckets);
  }

  lemma CopyZero(cfg: Config, s: State)
    requires Alone(cfg, s, Table(0)) && cfg.table >= 1 && Zeros(s.buckets[0].pieces)
    ensures var t := Step(cfg, s, Write(0));
            Alone(cfg, t, Table(1)) && Carried(s, t) && t.disk[0].pieces[0] == 0
  {
    CopyStep(cfg, s, Table(0));
  }

  // With a ring the guard accepts: the driver publishes block 0, the writer
  // copies the first piece, only then the last row arrives.  File 0 is sealed,
  // nobody stalls, and the file is not the block.
  lemma EarlyTakeRun(cfg: Config) returns (s: State)
    requires Enough(cfg) && cfg.table >= 1 && cfg.maxBlocks >= 2
    ensures Reached(cfg, s) && !s.stop && Sealed(cfg, s, 0) && 0 < |s.content| && !Exact(s, 0)
  {
    s := TakeEarly(cfg);
    CopyZero(cfg, s);
    Onward(cfg, s, Write(0));
    s := Step(cfg, s, Write(0));
    ReplaceFirst(cfg, s);
    Onward(cfg, s, Touch(false, 0, NOISE));
    s := Step(cfg, s, Touch(false, 0, NOISE));
    Onward(cfg, s, Finish);
    s := Step(cfg, s, Finish);
    s := CopyRest(cfg, s, Table(1));
  }
}
