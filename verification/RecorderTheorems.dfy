/**
 * What the recorder guarantees over whole runs, and where the guarantee ends.
 */
module RecorderTheorems {
  import opened Arith
  import opened Recorder
  import opened RecorderSafety

  // ----- safety

  // A writer past a file never writes that file again.
  ghost predicate Closed(cfg: Config, s: State, k: nat)
    requires Shape(cfg, s)
  {
    && k < |s.content|
    && forall i :: 0 <= i < cfg.writers ==> k < s.writers[i].file
  }

  lemma ClosedStep(cfg: Config, s: State, k: nat, a: Action)
    requires Shape(cfg, s) && Closed(cfg, s, k)
    ensures var t := Step(cfg, s, a);
            Closed(cfg, t, k) && t.content[k] == s.content[k] && (Exact(s, k) ==> Exact(t, k))
  {
    if a.Write? && a.id < cfg.writers { assert k < s.writers[a.id].file; }
  }

  lemma {:induction false} ClosedStays(cfg: Config, s: State, k: nat, rest: seq<Action>)
    requires Shape(cfg, s) && Closed(cfg, s, k)
    ensures var t := RunFrom(cfg, s, rest);
            Closed(cfg, t, k) && t.content[k] == s.content[k] && (Exact(s, k) ==> Exact(t, k))
    decreases |rest|
  {
    if rest != [] {
      ClosedStays(cfg, s, k, rest[..|rest| - 1]);
      ClosedStep(cfg, RunFrom(cfg, s, rest[..|rest| - 1]), k, rest[|rest| - 1]);
    }
  }

  // In every interleaving: while no stop has been requested, every file that
  // all writers have left behind with an empty first poll is the block the
  // driver captured, and it stays so whatever happens later.
  lemma SealedFilesAreExact(cfg: Config, schedule: seq<Action>, k: nat, rest: seq<Action>)
    requires Enough(cfg)
    requires var s := Run(cfg, schedule); !s.stop && Sealed(cfg, s, k) && k !in s.early
    ensures Exact(RunFrom(cfg, Run(cfg, schedule), rest), k)
  {
    var s := Run(cfg, schedule);
    RunInv(cfg, schedule);
    assert Exact(s, k);
    ClosedStays(cfg, s, k, rest);
  }

  // ----- a block taken before the driver has finished it

  ghost predicate PastHeader(w: Writer) {
    Copying(w) || w.phase == After || w.phase == Exited
  }

  // File k begins with something the driver did not keep, and is past repair.
  ghost predicate Spoilt(cfg: Config, s: State, k: nat)
    requires Shape(cfg, s)
  {
    && k < |s.content| && k in s.disk
    && 0 < |s.disk[k].pieces| && 0 < |s.content[k].pieces|
    && s.disk[k].pieces[0] != s.content[k].pieces[0]
    && var w := s.writers[k % cfg.writers]; k < w.file || (k == w.file && PastHeader(w))
  }

  lemma SpoiltOwn(cfg: Config, s: State, k: nat, id: nat)
    requires Inv(cfg, s) && Spoilt(cfg, s, k) && id < cfg.writers && s.writers[id].file == k
    ensures Spoilt(cfg, WriteStep(cfg, s, id), k)
  {
    assert k % cfg.writers == id && PastHeader(s.writers[id]);
    ModShift(k, cfg.writers);
  }

  lemma SpoiltWrite(cfg: Config, s: State, k: nat, id: nat)
    requires Inv(cfg, s) && Spoilt(cfg, s, k) && id < cfg.writers
    ensures Spoilt(cfg, WriteStep(cfg, s, id), k)
  {
    var w := s.writers[id];
    assert w.file % cfg.writers == id;
    if w.file == k { SpoiltOwn(cfg, s, k, id); }
  }

  lemma SpoiltStep(cfg: Config, s: State, k: nat, a: Action)
    requires Inv(cfg, s) && Spoilt(cfg, s, k)
    ensures Spoilt(cfg, Step(cfg, s, a), k)
  {
    match a {
      case Write(id) => if id < cfg.writers { SpoiltWrite(cfg, s, k, id); }
      case _ =>
    }
  }

  lemma {:induction false} SpoiltStays(cfg: Config, s: State, k: nat, rest: seq<Action>)
    requires Inv(cfg, s) && Spoilt(cfg, s, k)
    ensures Spoilt(cfg, RunFrom(cfg, s, rest), k)
    decreases |rest|
  {
    if rest != [] {
      var before := rest[..|rest| - 1];
      SpoiltStays(cfg, s, k, before);
      RunFromInv(cfg, s, before);
      SpoiltStep(cfg, RunFrom(cfg, s, before), k, rest[|rest| - 1]);
    }
  }

  lemma RunFromOne(cfg: Config, s: State, rest: seq<Action>, a: Action)
    requires Shape(cfg, s)
    ensures RunFrom(cfg, s, rest + [a]) == Step(cfg, RunFrom(cfg, s, rest), a)
  {
    assert (rest + [a])[..|rest|] == rest;
  }

  lemma RunFour(cfg: Config, s: State, a: Action, b: Action, c: Action, d: Action)
    requires Shape(cfg, s)
    ensures RunFrom(cfg, s, [a, b, c, d]) == Step(cfg, Step(cfg, Step(cfg, Step(cfg, s, a), b), c), d)
  {
    assert [a, b, c, d] == [a, b, c] + [d] && [a, b, c] == [a, b] + [c] && [a, b] == [a] + [b] && [a] == [] + [a];
    RunFromOne(cfg, s, [], a);
    RunFromOne(cfg, s, [a], b);
    RunFromOne(cfg, s, [a, b], c);
    RunFromOne(cfg, s, [a, b, c], d);
  }

  lemma CopyFirstPiece(cfg: Config, s: State, id: nat)
    requires Inv(cfg, s) && !s.stop && id < cfg.writers && cfg.table >= 1
    requires s.writers[id].phase == Header && |s.content| <= s.writers[id].file
    ensures var w := s.writers[id];
            var t := Step(cfg, Step(cfg, s, Write(id)), Write(id));
            && Inv(cfg, t) && !t.stop && !t.driverDone
            && t.writers == s.writers[id := w.(phase := Table(1))] && t.counts == s.counts
            && w.file == |t.content| < |t.counts|
            && t.buckets[w.cur] == s.buckets[w.cur]
            && w.file in t.disk && t.disk[w.file].pieces == [s.buckets[w.cur].pieces[0]]
  {
    assert PublishedFor(cfg, s, s.writers[id]);
    assert CalmWriter(s.writers[id]);
    StepInv(cfg, s, Write(id));
    StepInv(cfg, Step(cfg, s, Write(id)), Write(id));
  }

  lemma OverwriteAndFinish(cfg: Config, s: State, id: nat, value: Chunk)
    requires Inv(cfg, s) && !s.stop && !s.driverDone && id < cfg.writers && Pieces(cfg) >= 1
    requires var w := s.writers[id];
             w.phase == Table(1) && w.file == |s.content| < |s.counts| && w.file in s.disk
             && 0 < |s.disk[w.file].pieces| && s.disk[w.file].pieces[0] != value
    ensures var t := Step(cfg, Step(cfg, s, Touch(false, 0, value)), Finish);
            && Inv(cfg, t) && !t.stop && Spoilt(cfg, t, s.writers[id].file)
            && t.writers == s.writers && t.counts == s.counts
  {
    var w := s.writers[id];
    assert w.file % cfg.writers == id && w.cur == w.file % cfg.buckets;
    StepInv(cfg, s, Touch(false, 0, value));
    StepInv(cfg, Step(cfg, s, Touch(false, 0, value)), Finish);
  }

  // Four steps that put a piece on disk that is not in the block.
  lemma Spoiling(cfg: Config, s: State, id: nat) returns (spoil: seq<Action>)
    requires Inv(cfg, s) && !s.stop && id < cfg.writers && cfg.table >= 1
    requires s.writers[id].phase == Header && |s.content| <= s.writers[id].file
    ensures |spoil| == 4
    ensures var t := RunFrom(cfg, s, spoil); Inv(cfg, t) && !t.stop && Spoilt(cfg, t, s.writers[id].file)
    ensures var t := RunFrom(cfg, s, spoil);
            t.writers == s.writers[id := s.writers[id].(phase := Table(1))] && t.counts == s.counts
  {
    var v := s.buckets[s.writers[id].cur].pieces[0];
    spoil := [Write(id), Write(id), Touch(false, 0, v + 1), Finish];
    RunFour(cfg, s, Write(id), Write(id), Touch(false, 0, v + 1), Finish);
    CopyFirstPiece(cfg, s, id);
    OverwriteAndFinish(cfg, Step(cfg, Step(cfg, s, Write(id)), Write(id)), id, v + 1);
  }

  // Whenever a writer begins to copy a published block that the driver has not
  // finished, four more steps can put a piece on disk that is not in the block;
  // the stop byte stays clear and the file stays wrong in every continuation.
  lemma EarlyTakeCanSpoil(cfg: Config, s: State, id: nat, rest: seq<Action>) returns (spoil: seq<Action>)
    requires Inv(cfg, s) && !s.stop && id < cfg.writers && cfg.table >= 1
    requires s.writers[id].phase == Header && |s.content| <= s.writers[id].file
    ensures |spoil| == 4 && !RunFrom(cfg, s, spoil).stop
    ensures !Exact(RunFrom(cfg, RunFrom(cfg, s, spoil), rest), s.writers[id].file)
  {
    spoil := Spoiling(cfg, s, id);
    SpoiltStays(cfg, RunFrom(cfg, s, spoil), s.writers[id].file, rest);
  }
}
