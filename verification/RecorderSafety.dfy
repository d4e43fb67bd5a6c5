/**
 * Safety of the recorder: a bucket is released before its data is copied, so
 * integrity rests on the stall test of each writer's next first poll.
 */
module RecorderSafety {
  import opened Arith
  import opened Recorder

  // ----- vocabulary

  ghost predicate FirstPoll(w: Writer) {
    (w.phase == Poll || w.phase == Test) && w.endCnt == 0
  }

  // The last block for which this writer's first poll found an empty bucket.
  ghost function At(cfg: Config, w: Writer): int {
    if w.phase == Top || FirstPoll(w) then w.file - cfg.writers else w.file
  }

  // Between the empty first poll and the release of the bucket.
  ghost predicate Hot(w: Writer) {
    && (w.phase.Poll? || w.phase.Slept? || w.phase.Test? || w.phase.Header? || w.phase.Table? || w.phase.Release?)
    && !FirstPoll(w)
  }

  ghost predicate Waiting(w: Writer) {
    (w.phase.Poll? && w.endCnt > 0) || w.phase.Slept?
  }

  // Block b is published and its writer has not released its bucket.
  ghost predicate Unreleased(cfg: Config, s: State, b: nat)
    requires Shape(cfg, s)
  {
    && b < |s.counts|
    && var w := s.writers[b % cfg.writers];
       At(cfg, w) < b || (At(cfg, w) == b && Hot(w))
  }

  // No writer is more than one round behind block b.
  ghost predicate Near(cfg: Config, s: State, b: int)
    requires Shape(cfg, s)
  {
    forall i :: 0 <= i < cfg.writers ==> b <= At(cfg, s.writers[i]) + cfg.writers
  }

  // Every writer is still within one round of the driver.
  ghost predicate OnTime(cfg: Config, s: State)
    requires Shape(cfg, s)
  {
    Near(cfg, s, |s.counts|)
  }

  // Every writer has passed an empty first poll for a block after k.
  ghost predicate Sealed(cfg: Config, s: State, k: int)
    requires Shape(cfg, s)
  {
    forall i :: 0 <= i < cfg.writers ==> k < At(cfg, s.writers[i])
  }

  // File k is exactly what the driver had captured when it finished block k.
  ghost predicate Exact(s: State, k: nat) {
    && k < |s.content| && k in s.disk
    && s.disk[k] == File(s.content[k].count, false, false, s.content[k].pieces)
  }

  // ----- invariant

  ghost predicate Indexed(cfg: Config, s: State)
    requires Shape(cfg, s)
  {
    forall i :: 0 <= i < cfg.writers ==>
      s.writers[i].file % cfg.writers == i && s.writers[i].cur == s.writers[i].file % cfg.buckets
  }

  // The buckets the driver can no longer touch hold the finished blocks.
  ghost predicate Settled(cfg: Config, s: State)
    requires Shape(cfg, s)
  {
    && (forall j: nat :: j < |s.content| ==> s.content[j].count == s.counts[j])
    && (forall j: nat :: |s.counts| + 1 - cfg.buckets <= j < |s.content| ==>
          s.buckets[j % cfg.buckets].pieces == s.content[j].pieces)
  }

  ghost predicate CalmWriter(w: Writer) {
    w.delayStop == 0 && !w.stalled && !w.last && w.phase != Mark
  }

  ghost predicate Calm(cfg: Config, s: State)
    requires Shape(cfg, s)
  {
    && (forall b :: 0 <= b < cfg.buckets ==> !s.buckets[b].last && !s.buckets[b].stalled)
    && (forall i :: 0 <= i < cfg.writers ==> CalmWriter(s.writers[i]))
    && (forall j :: 0 <= j < |s.counts| ==> s.counts[j] > 0)
  }

  // A writer works only on published blocks.
  ghost predicate PublishedFor(cfg: Config, s: State, w: Writer)
    requires Shape(cfg, s) && WriterShape(cfg, w)
  {
    if Waiting(w)
    then At(cfg, w) - cfg.writers < |s.counts| && (s.buckets[w.cur].captured != 0 ==> At(cfg, w) < |s.counts|)
    else At(cfg, w) < |s.counts|
  }

  ghost predicate Published(cfg: Config, s: State)
    requires Shape(cfg, s)
  {
    forall i :: 0 <= i < cfg.writers ==> PublishedFor(cfg, s, s.writers[i])
  }

  // An unreleased block keeps its bucket marked, and no writer that could
  // release that bucket is after another block.
  ghost predicate Held(cfg: Config, s: State, b: nat)
    requires Shape(cfg, s) && b < |s.counts|
  {
    && s.buckets[b % cfg.buckets].captured != 0
    && (|s.counts| <= b + cfg.buckets ==> s.buckets[b % cfg.buckets].captured == s.counts[b])
    && (forall i :: 0 <= i < cfg.writers && Hot(s.writers[i]) && s.writers[i].cur == b % cfg.buckets ==>
          s.writers[i].file == b)
  }

  ghost predicate Holds(cfg: Config, s: State)
    requires Shape(cfg, s)
  {
    forall b: nat :: Unreleased(cfg, s, b) && Near(cfg, s, b) ==> Held(cfg, s, b)
  }

  ghost predicate SealedExact(cfg: Config, s: State)
    requires Shape(cfg, s)
  {
    forall k: nat :: Sealed(cfg, s, k) && k !in s.early ==> Exact(s, k)
  }

  ghost predicate Complete(w: Writer, k: nat) {
    k < w.file || (k == w.file && (w.phase == After || w.phase == Exited))
  }

  ghost predicate CompleteExact(cfg: Config, s: State)
    requires Shape(cfg, s)
  {
    forall k: nat :: Complete(s.writers[k % cfg.writers], k) && k !in s.early ==> Exact(s, k)
  }

  ghost function Copied(cfg: Config, w: Writer): nat {
    match w.phase
    case Table(n) => n
    case Release => cfg.table
    case Data(n) => cfg.table + n
    case _ => 0
  }

  ghost predicate Copying(w: Writer) { w.phase.Table? || w.phase.Release? || w.phase.Data? }

  ghost predicate PartialExact(cfg: Config, s: State)
    requires Shape(cfg, s)
  {
    forall i :: 0 <= i < cfg.writers && Copying(s.writers[i]) && s.writers[i].file !in s.early ==>
      var w := s.writers[i];
      && w.file < |s.content| && w.file in s.disk
      && |s.content[w.file].pieces| == Pieces(cfg)
      && s.disk[w.file] == File(s.content[w.file].count, false, false, s.content[w.file].pieces[..Copied(cfg, w)])
  }

  ghost predicate Live(cfg: Config, s: State)
    requires Shape(cfg, s)
  {
    && Calm(cfg, s) && Published(cfg, s) && Holds(cfg, s) && SealedExact(cfg, s)
    && (OnTime(cfg, s) ==> CompleteExact(cfg, s) && PartialExact(cfg, s))
  }

  ghost predicate Inv(cfg: Config, s: State) {
    && Enough(cfg) && Shape(cfg, s) && Indexed(cfg, s) && Settled(cfg, s) && (s.driverDone ==> s.stop)
    && (forall j: nat :: j < |s.content| ==> |s.content[j].pieces| == Pieces(cfg))
    && (!s.stop ==> Live(cfg, s))
  }

  // ----- the key step: a late writer that nobody trails must see a full bucket

  lemma FirstPollFull(cfg: Config, s: State, i: nat)
    requires Inv(cfg, s) && !s.stop && i < cfg.writers
    requires s.writers[i].phase == Poll && s.writers[i].endCnt == 0 && s.writers[i].file < |s.counts|
    requires Near(cfg, s, At(cfg, s.writers[i]) + cfg.writers)
    ensures s.buckets[s.writers[i].cur].captured != 0
  {
    assert Unreleased(cfg, s, s.writers[i].file);
  }

  lemma FirstPollEmpty(cfg: Config, s: State, i: nat)
    requires Inv(cfg, s) && !s.stop && i < cfg.writers
    requires s.writers[i].phase == Poll && s.writers[i].endCnt == 0
    requires s.buckets[s.writers[i].cur].captured == 0
    requires Near(cfg, s, At(cfg, s.writers[i]) + cfg.writers)
    ensures OnTime(cfg, s)
  {
    if s.writers[i].file < |s.counts| {
      FirstPollFull(cfg, s, i);
    }
  }

  // ----- driver steps

  lemma StartInv(cfg: Config)
    requires Enough(cfg)
    ensures Inv(cfg, Start(cfg))
  {
    var s := Start(cfg);
    forall i | 0 <= i < cfg.writers
      ensures i % cfg.writers == i && i % cfg.buckets == i && At(cfg, s.writers[i]) < 0
    {
      ModIs(i, 0, i, cfg.writers);
      ModIs(i, 0, i, cfg.buckets);
    }
    assert At(cfg, s.writers[0]) < 0;
    forall k: nat ensures !Complete(s.writers[k % cfg.writers], k) {
      DivMod(k, cfg.writers);
      if k / cfg.writers >= 1 { MulAtLeast(k / cfg.writers, cfg.writers); }
    }
  }

  // Writers, counts and disk unchanged: only bucket pieces and content may differ.
  ghost predicate SameView(s: State, t: State) {
    && s.stop == t.stop && s.counts == t.counts && s.writers == t.writers && s.disk == t.disk && s.early == t.early
    && s.content <= t.content
    && |s.buckets| == |t.buckets|
    && (forall b :: 0 <= b < |s.buckets| ==>
          s.buckets[b] == t.buckets[b].(pieces := s.buckets[b].pieces))
  }

  lemma SameViewLive(cfg: Config, s: State, t: State)
    requires Inv(cfg, s) && !s.stop && Shape(cfg, t) && SameView(s, t)
    ensures Live(cfg, t)
  {
    forall b: nat | Unreleased(cfg, t, b) && Near(cfg, t, b) ensures Held(cfg, t, b) {
      assert Unreleased(cfg, s, b) && Near(cfg, s, b);
      assert Held(cfg, s, b);
    }
    forall k: nat | Sealed(cfg, t, k) && k !in t.early ensures Exact(t, k) {
      assert Sealed(cfg, s, k);
      assert Exact(s, k);
    }
    assert forall k :: Exact(s, k) ==> Exact(t, k);
    assert OnTime(cfg, t) ==> OnTime(cfg, s);
  }

  lemma TouchInv(cfg: Config, s: State, ahead: bool, piece: nat, value: Chunk)
    requires Inv(cfg, s)
    ensures Inv(cfg, TouchStep(cfg, s, ahead, piece, value))
  {
    var t := TouchStep(cfg, s, ahead, piece, value);
    var n := |s.content| + if ahead then 1 else 0;
    forall j: nat | |t.counts| + 1 - cfg.buckets <= j < |t.content|
      ensures t.buckets[j % cfg.buckets].pieces == t.content[j].pieces
    {
      if j % cfg.buckets == n % cfg.buckets { ModGap(j, n, cfg.buckets); }
    }
    if !s.stop { SameViewLive(cfg, s, t); }
  }

  lemma FinishInv(cfg: Config, s: State)
    requires Inv(cfg, s)
    ensures Inv(cfg, FinishStep(cfg, s))
  {
    var t := FinishStep(cfg, s);
    if !s.stop { SameViewLive(cfg, s, t); }
  }

  lemma PublishHolds(cfg: Config, s: State, count: nat, b: nat)
    requires Inv(cfg, s) && !s.stop && !s.driverDone && |s.counts| == |s.content| && count > 0
    requires var t := PublishStep(cfg, s, count); Unreleased(cfg, t, b) && Near(cfg, t, b)
    ensures Held(cfg, PublishStep(cfg, s, count), b)
  {
    var t := PublishStep(cfg, s, count);
    var j := |s.counts|;
    if b < j {
      assert Unreleased(cfg, s, b) && Near(cfg, s, b);
      assert Held(cfg, s, b);
      if j % cfg.buckets == b % cfg.buckets { ModGap(b, j, cfg.buckets); }
    } else {
      forall i | 0 <= i < cfg.writers && Hot(t.writers[i]) && t.writers[i].cur == b % cfg.buckets
        ensures t.writers[i].file == b
      {
        var w := s.writers[i];
        assert PublishedFor(cfg, s, w);
        assert w.cur == w.file % cfg.buckets;
        if w.file < b { ModGap(w.file, b, cfg.buckets); }
        if b < w.file { ModGap(b, w.file, cfg.buckets); }
      }
    }
  }

  lemma PublishPublished(cfg: Config, s: State, count: nat, i: nat)
    requires Inv(cfg, s) && !s.stop && !s.driverDone && |s.counts| == |s.content| && count > 0 && i < cfg.writers
    ensures PublishedFor(cfg, PublishStep(cfg, s, count), s.writers[i])
  {
    var w := s.writers[i];
    var j := |s.counts|;
    assert PublishedFor(cfg, s, w);
    if Waiting(w) && w.cur == j % cfg.buckets && j < w.file { ModGap(j, w.file, cfg.buckets); }
  }

  lemma PublishInv(cfg: Config, s: State, count: nat)
    requires Inv(cfg, s)
    ensures Inv(cfg, PublishStep(cfg, s, count))
  {
    var t := PublishStep(cfg, s, count);
    if t != s && !s.stop {
      forall b: nat | Unreleased(cfg, t, b) && Near(cfg, t, b) ensures Held(cfg, t, b) {
        PublishHolds(cfg, s, count, b);
      }
      forall i | 0 <= i < cfg.writers ensures PublishedFor(cfg, t, t.writers[i]) {
        PublishPublished(cfg, s, count, i);
      }
      forall k: nat | Sealed(cfg, t, k) && k !in t.early ensures Exact(t, k) {
        assert Sealed(cfg, s, k);
        assert Exact(s, k);
      }
      assert OnTime(cfg, t) ==> OnTime(cfg, s);
      assert forall k :: Exact(s, k) ==> Exact(t, k);
    }
  }

  lemma RepeatHolds(cfg: Config, s: State, b: nat)
    requires Inv(cfg, s) && !s.stop && !s.driverDone && |s.counts| > |s.content|
    requires var t := RepeatStep(cfg, s); Unreleased(cfg, t, b) && Near(cfg, t, b)
    ensures Held(cfg, RepeatStep(cfg, s), b)
  {
    var j := |s.content|;
    assert Unreleased(cfg, s, b) && Near(cfg, s, b);
    assert Held(cfg, s, b);
    if b < j && j % cfg.buckets == b % cfg.buckets { ModGap(b, j, cfg.buckets); }
  }

  lemma RepeatPublished(cfg: Config, s: State, i: nat)
    requires Inv(cfg, s) && !s.stop && !s.driverDone && |s.counts| > |s.content| && i < cfg.writers
    ensures PublishedFor(cfg, RepeatStep(cfg, s), s.writers[i])
  {
    var w := s.writers[i];
    var j := |s.content|;
    assert PublishedFor(cfg, s, w);
    if Waiting(w) && w.cur == j % cfg.buckets && j < w.file { ModGap(j, w.file, cfg.buckets); }
  }

  lemma RepeatInv(cfg: Config, s: State)
    requires Inv(cfg, s)
    ensures Inv(cfg, RepeatStep(cfg, s))
  {
    var t := RepeatStep(cfg, s);
    if !s.stop && !s.driverDone && |s.counts| > |s.content| {
      forall b: nat | Unreleased(cfg, t, b) && Near(cfg, t, b) ensures Held(cfg, t, b) {
        RepeatHolds(cfg, s, b);
      }
      forall i | 0 <= i < cfg.writers ensures PublishedFor(cfg, t, t.writers[i]) {
        RepeatPublished(cfg, s, i);
      }
      forall k: nat | Sealed(cfg, t, k) && k !in t.early ensures Exact(t, k) {
        assert Sealed(cfg, s, k);
        assert Exact(s, k);
      }
      assert OnTime(cfg, t) ==> OnTime(cfg, s);
      assert forall k :: Exact(s, k) ==> Exact(t, k);
    }
  }

  // ----- writer steps

  lemma WriteIndexed(cfg: Config, s: State, id: nat)
    requires Inv(cfg, s) && id < cfg.writers
    ensures var t := WriteStep(cfg, s, id); Indexed(cfg, t) && Settled(cfg, t)
  {
    var w := s.writers[id];
    ModShift(w.file, cfg.writers);
    ModAdd(w.file, cfg.writers, cfg.buckets);
  }

  lemma WriteCalm(cfg: Config, s: State, id: nat)
    requires Inv(cfg, s) && id < cfg.writers
    requires !s.stop && !DetectsStall(s.writers[id])
    ensures Calm(cfg, WriteStep(cfg, s, id))
  {
    assert CalmWriter(s.writers[id]);
  }

  lemma WritePublished(cfg: Config, s: State, id: nat, i: nat)
    requires Inv(cfg, s) && id < cfg.writers && i < cfg.writers
    requires !s.stop && !DetectsStall(s.writers[id])
    ensures var t := WriteStep(cfg, s, id); PublishedFor(cfg, t, t.writers[i])
  {
    assert CalmWriter(s.writers[id]);
    assert PublishedFor(cfg, s, s.writers[i]);
  }

  // How a step moves a writer while nobody has asked to stop.
  lemma NextAt(cfg: Config, w: Writer, k: Bucket)
    requires Enough(cfg) && WriterShape(cfg, w) && CalmWriter(w) && !DetectsStall(w)
    ensures var v := NextWriter(cfg, false, w, k);
            if FirstPoll(w) && k.captured == 0
            then At(cfg, v) == At(cfg, w) + cfg.writers == w.file == v.file && Hot(v)
            else At(cfg, v) == At(cfg, w) && (Hot(v) ==> Hot(w) && w.file == v.file)
                 && (Hot(w) && !Hot(v) ==> w.phase == Release)
  {
  }

  lemma WriteAt(cfg: Config, s: State, id: nat)
    requires Inv(cfg, s) && id < cfg.writers
    requires !s.stop && !DetectsStall(s.writers[id])
    ensures var w, v := s.writers[id], WriteStep(cfg, s, id).writers[id];
            if FirstPoll(w) && s.buckets[w.cur].captured == 0
            then At(cfg, v) == At(cfg, w) + cfg.writers == w.file == v.file && Hot(v)
            else At(cfg, v) == At(cfg, w) && (Hot(v) ==> Hot(w) && w.file == v.file)
                 && (Hot(w) && !Hot(v) ==> w.phase == Release)
  {
    NextAt(cfg, s.writers[id], s.buckets[s.writers[id].cur]);
  }

  lemma WriteNear(cfg: Config, s: State, id: nat, b: nat)
    requires Inv(cfg, s) && id < cfg.writers
    requires !s.stop && !DetectsStall(s.writers[id])
    requires b <= |s.counts| && Near(cfg, WriteStep(cfg, s, id), b)
    ensures Near(cfg, s, b)
  {
    var t := WriteStep(cfg, s, id);
    WriteAt(cfg, s, id);
    var w := s.writers[id];
    assert forall i :: 0 <= i < cfg.writers && i != id ==> s.writers[i] == t.writers[i];
    if w.phase == Poll && FirstPoll(w) && b > At(cfg, w) + cfg.writers {
      assert Near(cfg, s, At(cfg, w) + cfg.writers);
      FirstPollEmpty(cfg, s, id);
      assert Near(cfg, s, |s.counts|);
    }
  }

  lemma WriteHolds(cfg: Config, s: State, id: nat, b: nat)
    requires Inv(cfg, s) && id < cfg.writers
    requires !s.stop && !DetectsStall(s.writers[id])
    requires var t := WriteStep(cfg, s, id); Unreleased(cfg, t, b) && Near(cfg, t, b)
    ensures Held(cfg, WriteStep(cfg, s, id), b)
  {
    var t := WriteStep(cfg, s, id);
    WriteAt(cfg, s, id);
    WriteNear(cfg, s, id, b);
    assert Unreleased(cfg, s, b);
    assert Held(cfg, s, b);
  }

  lemma NextComplete(cfg: Config, w: Writer, k: Bucket, b: nat)
    requires Enough(cfg) && WriterShape(cfg, w) && CalmWriter(w) && !DetectsStall(w)
    requires b % cfg.writers == w.file % cfg.writers
    requires Complete(NextWriter(cfg, false, w, k), b)
    ensures Complete(w, b) || (b == w.file && w.phase == Data(cfg.data))
  {
    if w.file < b { ModGap(w.file, b, cfg.writers); }
  }

  lemma WriteSealed(cfg: Config, s: State, id: nat, k: nat)
    requires Inv(cfg, s) && id < cfg.writers
    requires !s.stop && !DetectsStall(s.writers[id])
    requires var t := WriteStep(cfg, s, id); Sealed(cfg, t, k) && k !in t.early
    ensures Exact(WriteStep(cfg, s, id), k)
  {
    var t := WriteStep(cfg, s, id);
    WriteAt(cfg, s, id);
    assert forall i :: 0 <= i < cfg.writers && i != id ==> s.writers[i] == t.writers[i];
    if !Sealed(cfg, s, k) {
      assert At(cfg, s.writers[id]) <= k;
      FirstPollEmpty(cfg, s, id);
      assert k < At(cfg, t.writers[k % cfg.writers]);
      assert Complete(s.writers[k % cfg.writers], k);
    }
    assert Exact(s, k);
  }

  lemma WriteComplete(cfg: Config, s: State, id: nat, k: nat)
    requires Inv(cfg, s) && id < cfg.writers
    requires !s.stop && !DetectsStall(s.writers[id]) && OnTime(cfg, WriteStep(cfg, s, id))
    requires var t := WriteStep(cfg, s, id); Complete(t.writers[k % cfg.writers], k) && k !in t.early
    ensures Exact(WriteStep(cfg, s, id), k)
  {
    WriteNear(cfg, s, id, |s.counts|);
    var w := s.writers[id];
    if k % cfg.writers == id {
      assert w.file % cfg.writers == id;
      NextComplete(cfg, w, s.buckets[w.cur], k);
    }
    if Complete(s.writers[k % cfg.writers], k) {
      assert Exact(s, k);
    } else {
      assert Copying(w) && Copied(cfg, w) == Pieces(cfg);
      var f := s.content[k];
      assert f.pieces[..Pieces(cfg)] == f.pieces;
    }
  }

  // The file of writer v is the block as far as it has been copied.
  ghost predicate SoFar(cfg: Config, t: State, v: Writer) {
    && v.file < |t.content| && v.file in t.disk && |t.content[v.file].pieces| == Pieces(cfg)
    && Copied(cfg, v) <= Pieces(cfg)
    && t.disk[v.file] == File(t.content[v.file].count, false, false, t.content[v.file].pieces[..Copied(cfg, v)])
  }

  // In time, the bucket still holds what the writer is about to copy.
  lemma Intact(cfg: Config, s: State, id: nat)
    requires Inv(cfg, s) && id < cfg.writers && !s.stop && OnTime(cfg, s)
    requires At(cfg, s.writers[id]) == s.writers[id].file < |s.content|
    ensures var w := s.writers[id];
            && s.buckets[w.cur].pieces == s.content[w.file].pieces
            && (w.phase == Header ==> s.buckets[w.cur].captured == s.content[w.file].count)
  {
    var w := s.writers[id];
    assert w.cur == w.file % cfg.buckets;
    assert |s.counts| <= w.file + cfg.writers;
    if w.phase == Header {
      assert w.file % cfg.writers == id;
      assert Unreleased(cfg, s, w.file) && Near(cfg, s, w.file);
      assert Held(cfg, s, w.file);
    }
  }

  lemma WriteHeaderOwn(cfg: Config, s: State, id: nat)
    requires Inv(cfg, s) && id < cfg.writers && !s.stop && OnTime(cfg, s)
    requires s.writers[id].phase == Header && s.writers[id].file !in WriteStep(cfg, s, id).early
    ensures var t := WriteStep(cfg, s, id); SoFar(cfg, t, t.writers[id])
  {
    Intact(cfg, s, id);
  }

  lemma WriteCopyOwn(cfg: Config, s: State, id: nat)
    requires Inv(cfg, s) && id < cfg.writers && !s.stop && OnTime(cfg, s)
    requires Copying(s.writers[id]) && s.writers[id].phase != Data(cfg.data) && s.writers[id].file !in s.early
    ensures var t := WriteStep(cfg, s, id); SoFar(cfg, t, t.writers[id])
  {
    var w, v := s.writers[id], WriteStep(cfg, s, id).writers[id];
    Intact(cfg, s, id);
    var p, n := s.content[w.file].pieces, Copied(cfg, w);
    if n < Copied(cfg, v) { assert p[..n] + [p[n]] == p[..n + 1]; }
  }

  lemma WritePartialOwn(cfg: Config, s: State, id: nat)
    requires Inv(cfg, s) && id < cfg.writers && !s.stop && OnTime(cfg, s)
    requires var t := WriteStep(cfg, s, id); Copying(t.writers[id]) && t.writers[id].file !in t.early
    ensures var t := WriteStep(cfg, s, id); SoFar(cfg, t, t.writers[id])
  {
    if s.writers[id].phase == Header {
      WriteHeaderOwn(cfg, s, id);
    } else {
      WriteCopyOwn(cfg, s, id);
    }
  }

  lemma WritePartial(cfg: Config, s: State, id: nat)
    requires Inv(cfg, s) && id < cfg.writers
    requires !s.stop && !DetectsStall(s.writers[id]) && OnTime(cfg, WriteStep(cfg, s, id))
    ensures PartialExact(cfg, WriteStep(cfg, s, id))
  {
    WriteNear(cfg, s, id, |s.counts|);
    var t := WriteStep(cfg, s, id);
    forall i | 0 <= i < cfg.writers && Copying(t.writers[i]) && t.writers[i].file !in t.early
      ensures var w := t.writers[i];
        && w.file < |t.content| && w.file in t.disk && |t.content[w.file].pieces| == Pieces(cfg)
        && t.disk[w.file] == File(t.content[w.file].count, false, false, t.content[w.file].pieces[..Copied(cfg, w)])
    {
      if i == id {
        WritePartialOwn(cfg, s, id);
      } else {
        assert t.writers[i] == s.writers[i];
        assert s.writers[i].file % cfg.writers == i && s.writers[id].file % cfg.writers == id;
      }
    }
  }

  lemma WriteInv(cfg: Config, s: State, id: nat)
    requires Inv(cfg, s) && id < cfg.writers
    ensures Inv(cfg, WriteStep(cfg, s, id))
  {
    var t := WriteStep(cfg, s, id);
    WriteIndexed(cfg, s, id);
    if !t.stop {
      WriteCalm(cfg, s, id);
      forall i | 0 <= i < cfg.writers ensures PublishedFor(cfg, t, t.writers[i]) {
        WritePublished(cfg, s, id, i);
      }
      forall b: nat | Unreleased(cfg, t, b) && Near(cfg, t, b) ensures Held(cfg, t, b) {
        WriteHolds(cfg, s, id, b);
      }
      forall k: nat | Sealed(cfg, t, k) && k !in t.early ensures Exact(t, k) {
        WriteSealed(cfg, s, id, k);
      }
      if OnTime(cfg, t) {
        forall k: nat | Complete(t.writers[k % cfg.writers], k) && k !in t.early ensures Exact(t, k) {
          WriteComplete(cfg, s, id, k);
        }
        WritePartial(cfg, s, id);
      }
    }
  }

  lemma StepInv(cfg: Config, s: State, a: Action)
    requires Inv(cfg, s)
    ensures Inv(cfg, Step(cfg, s, a))
  {
    match a
    case Touch(ahead, piece, value) => TouchInv(cfg, s, ahead, piece, value);
    case Publish(count) => PublishInv(cfg, s, count);
    case Repeat => RepeatInv(cfg, s);
    case Finish => FinishInv(cfg, s);
    case DriverLast(count) =>
    case UserStop =>
    case Write(id) => if id < cfg.writers { WriteInv(cfg, s, id); }
  }

  lemma {:induction false} RunFromInv(cfg: Config, s: State, rest: seq<Action>)
    requires Inv(cfg, s)
    ensures Inv(cfg, RunFrom(cfg, s, rest))
    decreases |rest|
  {
    if rest != [] {
      RunFromInv(cfg, s, rest[..|rest| - 1]);
      StepInv(cfg, RunFrom(cfg, s, rest[..|rest| - 1]), rest[|rest| - 1]);
    }
  }

  lemma RunInv(cfg: Config, schedule: seq<Action>)
    requires Enough(cfg)
    ensures Inv(cfg, Run(cfg, schedule))
  {
    StartInv(cfg);
    RunFromInv(cfg, Start(cfg), schedule);
  }
}
