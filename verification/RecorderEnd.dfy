/**
 * The end of a recording: the driver marks one block as the last and is done, and a
 * writer that waits at an empty bucket after a stop gives up after 41 polls.
 */
module RecorderEnd {
  import opened Recorder
  import opened RecorderSafety
  import opened RecorderStop
  import opened RecorderPass

  // ----- the driver's end

  // Only a driver that is done has marked a block, and that is the one it was filling.
  ghost predicate OneMark(cfg: Config, s: State)
    requires Shape(cfg, s)
  {
    forall b: nat :: b < cfg.buckets ==> (s.buckets[b].last <==> s.driverDone && b == |s.content| % cfg.buckets)
  }

  lemma OneMarkStep(cfg: Config, s: State, a: Action)
    requires Shape(cfg, s) && OneMark(cfg, s)
    ensures OneMark(cfg, Step(cfg, s, a))
  {
  }

  // In every run the end mark is on the block the driver was filling when it ended, and
  // on no other.
  lemma {:induction false} EndMark(cfg: Config, schedule: seq<Action>)
    requires Sane(cfg)
    ensures OneMark(cfg, Run(cfg, schedule))
    decreases |schedule|
  {
    if schedule != [] {
      EndMark(cfg, schedule[..|schedule| - 1]);
      OneMarkStep(cfg, Run(cfg, schedule[..|schedule| - 1]), schedule[|schedule| - 1]);
    }
  }

  // A driver that is done leaves the blocks and the memory alone.
  ghost predicate LeftAlone(cfg: Config, s: State, t: State)
    requires Shape(cfg, s) && Shape(cfg, t)
  {
    && t.driverDone && t.content == s.content && t.counts == s.counts
    && forall b: nat :: b < cfg.buckets ==> t.buckets[b].pieces == s.buckets[b].pieces
  }

  lemma LeftAloneStep(cfg: Config, s: State, t: State, a: Action)
    requires Shape(cfg, s) && Shape(cfg, t) && LeftAlone(cfg, s, t)
    ensures LeftAlone(cfg, s, Step(cfg, t, a))
  {
  }

  lemma {:induction false} DriverIsDone(cfg: Config, s: State, rest: seq<Action>)
    requires Shape(cfg, s) && s.driverDone
    ensures LeftAlone(cfg, s, RunFrom(cfg, s, rest))
    decreases |rest|
  {
    if rest != [] {
      DriverIsDone(cfg, s, rest[..|rest| - 1]);
      LeftAloneStep(cfg, s, RunFrom(cfg, s, rest[..|rest| - 1]), rest[|rest| - 1]);
    }
  }

  // ----- waiting at an empty bucket

  const POLLS := 41

  // Writer w, which had begun to wait, after n own turns: each poll is two of them.
  ghost predicate StillWaiting(cfg: Config, t: State, id: nat, w: Writer, n: nat)
    requires Shape(cfg, t) && id < cfg.writers && w.cur < cfg.buckets
  {
    var v := t.writers[id];
    && t.stop && t.buckets[w.cur].captured == 0
    && (v.phase == Poll || v.phase == Slept) && v == w.(phase := v.phase, endCnt := v.endCnt)
    && n == if v.phase == Poll then 2 * v.endCnt else 2 * v.endCnt - 1
  }

  lemma WaitingTurn(cfg: Config, t: State, id: nat, w: Writer, n: nat)
    requires Shape(cfg, t) && id < cfg.writers && w.cur < cfg.buckets && StillWaiting(cfg, t, id, w, n)
    ensures n + 1 < 2 * POLLS ==> StillWaiting(cfg, WriteStep(cfg, t, id), id, w, n + 1)
    ensures n + 1 == 2 * POLLS ==> WriteStep(cfg, t, id).writers[id] == w.(phase := Top, endCnt := POLLS)
  {
  }

  // However the others' turns fall, as long as nobody fills the bucket.
  lemma {:induction false} WaitsOn(cfg: Config, s: State, rest: seq<Action>, id: nat)
    requires Shape(cfg, s) && id < cfg.writers && s.stop && Turns(rest, id) < 2 * POLLS
    requires var w := s.writers[id];
             w.phase == Poll && w.endCnt == 0 && s.buckets[w.cur].captured == 0 && Untouched(cfg, s, rest, id, w.cur)
    ensures StillWaiting(cfg, RunFrom(cfg, s, rest), id, s.writers[id], Turns(rest, id))
    decreases |rest|
  {
    if rest != [] {
      var before := rest[..|rest| - 1];
      WaitsOn(cfg, s, before, id);
      if rest[|rest| - 1] == Write(id) {
        WaitingTurn(cfg, RunFrom(cfg, s, before), id, s.writers[id], Turns(before, id));
      }
    }
  }

  // With the last of these turns it goes back to the head of its loop, not before.
  lemma {:induction false} GivesUp(cfg: Config, s: State, rest: seq<Action>, id: nat)
    requires Shape(cfg, s) && id < cfg.writers && s.stop
    requires rest != [] && rest[|rest| - 1] == Write(id) && Turns(rest, id) == 2 * POLLS
    requires var w := s.writers[id];
             w.phase == Poll && w.endCnt == 0 && s.buckets[w.cur].captured == 0 && Untouched(cfg, s, rest, id, w.cur)
    ensures RunFrom(cfg, s, rest).writers[id] == s.writers[id].(phase := Top, endCnt := POLLS)
  {
    var before := rest[..|rest| - 1];
    WaitsOn(cfg, s, before, id);
    WaitingTurn(cfg, RunFrom(cfg, s, before), id, s.writers[id], Turns(before, id));
  }
}
