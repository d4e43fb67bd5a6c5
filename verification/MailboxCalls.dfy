/**
 * What the calls of the mailbox mean to the other side.  Which notification is due is
 * read off the steps of a run, not off its log: a side that finishes a transfer owes the
 * other one a notification, until the other one checks for it.  And a call ends: turned
 * away if the other side holds the mailbox, completed if not.
 */
module MailboxCalls {

  import opened Mailbox

  // ----- notifications, from the steps

  predicate PfFinishes(s: State, a: Action) { s.pf.phase.Copy? && Step(s, a).pf.phase == Idle }

  predicate VfFinishes(s: State, a: Action) { s.vf.phase.Copy? && Step(s, a).vf.phase == Idle }

  // The step owes the other side this notification: a finished write of the PF, a
  // finished read of the PF, the end of a reset, and the same two of the VF.
  predicate Owes(s: State, a: Action, f: Flag) {
    match f
    case PFSTS => PfFinishes(s, a) && s.pf.job.Send?
    case PFACK => PfFinishes(s, a) && s.pf.job.Receive?
    case RSTD => a == ResetDone
    case VFREQ => VfFinishes(s, a) && s.vf.job.Send?
    case VFACK => VfFinishes(s, a) && s.vf.job.Receive?
    case _ => false
  }

  // The masks of the three checks the VF makes.
  predicate VfMask(mask: set<Flag>) { mask == {PFSTS} || mask == {PFACK} || mask == {RSTD, RSTI} }

  // The step takes the notification: a check by the VF, by itself or before it writes;
  // the second access of a check by the PF.
  predicate Takes(s: State, a: Action, f: Flag) {
    || (a.VfCheck? && s.vf.phase == Idle && VfMask(a.mask) && f in a.mask)
    || (a == VfGo && s.vf.phase == FlushMsg && f == PFSTS)
    || (a == VfGo && s.vf.phase == FlushAck && f == PFACK)
    || (a == PfGo && s.pf.phase == ClearMsg && f == VFREQ)
    || (a == PfGo && s.pf.phase == ClearAck && f == VFACK)
    || (a == PfGo && s.pf.phase == Clear(f))
  }

  ghost predicate OwedAt(start: seq<Word>, schedule: seq<Action>, f: Flag, k: nat)
    requires k < |schedule|
  {
    Owes(Run(start, schedule[..k]), schedule[k], f)
  }

  ghost predicate TakenAt(start: seq<Word>, schedule: seq<Action>, f: Flag, k: nat)
    requires k < |schedule|
  {
    Takes(Run(start, schedule[..k]), schedule[k], f)
  }

  ghost predicate DueSince(start: seq<Word>, schedule: seq<Action>, f: Flag, k: nat)
    requires k < |schedule|
  {
    && OwedAt(start, schedule, f, k)
    && forall i: nat :: k < i < |schedule| ==> !TakenAt(start, schedule, f, i)
  }

  // Some step owed the notification and no step after it has taken it.
  ghost predicate Due(start: seq<Word>, schedule: seq<Action>, f: Flag) {
    exists k: nat :: k < |schedule| && DueSince(start, schedule, f, k)
  }

  // The reset indication that was set last.
  predicate Indicating(schedule: seq<Action>) {
    schedule != [] &&
    var a := schedule[|schedule| - 1];
    if a.Indicate? then a.on else Indicating(schedule[..|schedule| - 1])
  }

  lemma SameBefore(start: seq<Word>, schedule: seq<Action>, f: Flag, k: nat)
    requires k + 1 < |schedule|
    ensures OwedAt(start, schedule, f, k) == OwedAt(start, schedule[..|schedule| - 1], f, k)
    ensures TakenAt(start, schedule, f, k) == TakenAt(start, schedule[..|schedule| - 1], f, k)
  {
    assert schedule[..|schedule| - 1][..k] == schedule[..k];
  }

  lemma DueWas(start: seq<Word>, schedule: seq<Action>, f: Flag, k: nat)
    requires k + 1 < |schedule| && DueSince(start, schedule, f, k)
    ensures DueSince(start, schedule[..|schedule| - 1], f, k)
  {
    var before := schedule[..|schedule| - 1];
    SameBefore(start, schedule, f, k);
    forall i: nat | k < i < |schedule| - 1
      ensures !TakenAt(start, before, f, i)
    {
      SameBefore(start, schedule, f, i);
    }
  }

  lemma DueStays(start: seq<Word>, schedule: seq<Action>, f: Flag, k: nat)
    requires k + 1 < |schedule| && DueSince(start, schedule[..|schedule| - 1], f, k)
    requires !TakenAt(start, schedule, f, |schedule| - 1)
    ensures DueSince(start, schedule, f, k)
  {
    SameBefore(start, schedule, f, k);
    forall i: nat | k < i < |schedule|
      ensures !TakenAt(start, schedule, f, i)
    {
      if i + 1 < |schedule| { SameBefore(start, schedule, f, i); }
    }
  }

  // One step more.
  lemma DueStep(start: seq<Word>, schedule: seq<Action>, f: Flag)
    requires schedule != []
    ensures var n := |schedule| - 1;
      Due(start, schedule, f) <==>
      OwedAt(start, schedule, f, n) || (!TakenAt(start, schedule, f, n) && Due(start, schedule[..n], f))
  {
    var n := |schedule| - 1;
    if OwedAt(start, schedule, f, n) {
      assert DueSince(start, schedule, f, n);
    } else if Due(start, schedule, f) {
      var k: nat :| k < |schedule| && DueSince(start, schedule, f, k);
      assert k < n;
      DueWas(start, schedule, f, k);
    } else if !TakenAt(start, schedule, f, n) && Due(start, schedule[..n], f) {
      var k: nat :| k < n && DueSince(start, schedule[..n], f, k);
      DueStays(start, schedule, f, k);
    }
  }

  // The flag is up: the VF's in its register or its copy, the PF's in its own register.
  predicate Up(s: State, f: Flag) {
    if f in WRITE_TO_CLEAR then f in s.icr else f in s.reg || f in s.cache
  }

  lemma UpPf(start: seq<Word>, s: State, f: Flag)
    requires Inv(start, s) && f in NOTICES && !s.pf.phase.Copy?
    ensures Up(PfStep(s), f) <==> Owes(s, PfGo, f) || (!Takes(s, PfGo, f) && Up(s, f))
  {
  }

  lemma UpPfCopy(start: seq<Word>, s: State, f: Flag)
    requires Inv(start, s) && f in NOTICES && s.pf.phase.Copy?
    ensures Up(PfStep(s), f) <==> Owes(s, PfGo, f) || Up(s, f)
  {
  }

  lemma UpVf(start: seq<Word>, s: State, f: Flag)
    requires Inv(start, s) && f in NOTICES && !s.vf.phase.Copy?
    ensures Up(VfStep(s), f) <==> Owes(s, VfGo, f) || (!Takes(s, VfGo, f) && Up(s, f))
  {
  }

  lemma UpVfCopy(start: seq<Word>, s: State, f: Flag)
    requires Inv(start, s) && f in NOTICES && s.vf.phase.Copy?
    ensures Up(VfStep(s), f) <==> Owes(s, VfGo, f) || Up(s, f)
  {
  }

  lemma UpGo(start: seq<Word>, s: State, a: Action, f: Flag)
    requires Inv(start, s) && f in NOTICES && (a == PfGo || a == VfGo)
    ensures Up(Step(s, a), f) <==> Owes(s, a, f) || (!Takes(s, a, f) && Up(s, f))
  {
    if a == PfGo {
      if s.pf.phase.Copy? { UpPfCopy(start, s, f); } else { UpPf(start, s, f); }
    } else {
      if s.vf.phase.Copy? { UpVfCopy(start, s, f); } else { UpVf(start, s, f); }
    }
  }

  lemma UpStep(start: seq<Word>, s: State, a: Action, f: Flag)
    requires Inv(start, s) && f in NOTICES
    ensures Up(Step(s, a), f) <==> Owes(s, a, f) || (!Takes(s, a, f) && Up(s, f))
  {
    if a == PfGo || a == VfGo { UpGo(start, s, a, f); }
  }

  // In every run a flag is up exactly when its notification is due, and the reset
  // indication when it was set last.
  lemma {:induction false} UpIsDue(start: seq<Word>, schedule: seq<Action>, f: Flag)
    requires |start| == SIZE && f in NOTICES
    ensures Up(Run(start, schedule), f) <==> Due(start, schedule, f)
    decreases |schedule|
  {
    if schedule != [] {
      var n := |schedule| - 1;
      UpIsDue(start, schedule[..n], f);
      RunInv(start, schedule[..n]);
      UpStep(start, Run(start, schedule[..n]), schedule[n], f);
      DueStep(start, schedule, f);
    }
  }

  lemma {:induction false} LevelIsLast(start: seq<Word>, schedule: seq<Action>)
    requires |start| == SIZE
    ensures RSTI in Run(start, schedule).reg <==> Indicating(schedule)
    decreases |schedule|
  {
    if schedule != [] {
      LevelIsLast(start, schedule[..|schedule| - 1]);
    }
  }

  // An idle VF that checks for a message, or for an acknowledgement, is told that the PF
  // has finished a write, or a read, exactly when it has since the VF last asked.
  lemma VfLearns(start: seq<Word>, schedule: seq<Action>, f: Flag)
    requires |start| == SIZE && (f == PFSTS || f == PFACK) && Run(start, schedule).vf.phase == Idle
    ensures var s := Run(start, schedule);
      Step(s, VfCheck({f})).log == s.log + [Checked({f}, Due(start, schedule, f))]
  {
    UpIsDue(start, schedule, f);
    var word := Run(start, schedule).reg + Run(start, schedule).cache;
    assert word * {f} != {} <==> f in word;
  }

  // A check for a reset: one is over since the VF last asked, or one is indicated.
  lemma VfLearnsReset(start: seq<Word>, schedule: seq<Action>)
    requires |start| == SIZE && Run(start, schedule).vf.phase == Idle
    ensures var s := Run(start, schedule);
      Step(s, VfCheck({RSTD, RSTI})).log ==
      s.log + [Checked({RSTD, RSTI}, Due(start, schedule, RSTD) || Indicating(schedule))]
  {
    UpIsDue(start, schedule, RSTD);
    LevelIsLast(start, schedule);
    RunInv(start, schedule);
    var word, mask := Run(start, schedule).reg + Run(start, schedule).cache, {RSTD, RSTI};
    assert word * mask != {} <==> RSTD in word || RSTI in word;
  }

  // An idle PF that checks: the first access finds the flag of the VF's write, or read,
  // exactly when one was finished since the PF last cleared the flag.
  lemma PfLearns(start: seq<Word>, schedule: seq<Action>, f: Flag)
    requires |start| == SIZE && f in WRITE_TO_CLEAR && Run(start, schedule).pf.phase == Idle
    ensures var s := Run(start, schedule);
      Step(s, PfCheck(f)) ==
      if Due(start, schedule, f) then s.(pf := s.pf.(phase := Clear(f)))
      else s.(log := s.log + [Checked({f}, false)])
  {
    UpIsDue(start, schedule, f);
  }

  // ----- calls

  // The state after more steps.
  function After(s: State, rest: seq<Action>): State
    decreases |rest|
  {
    if rest == [] then s else Step(After(s, rest[..|rest| - 1]), rest[|rest| - 1])
  }

  function Turns(rest: seq<Action>, a: Action): nat
    decreases |rest|
  {
    if rest == [] then 0
    else Turns(rest[..|rest| - 1], a) + if rest[|rest| - 1] == a then 1 else 0
  }

  lemma {:induction false} AfterInv(start: seq<Word>, s: State, rest: seq<Action>)
    requires Inv(start, s)
    ensures Inv(start, After(s, rest))
    decreases |rest|
  {
    if rest != [] {
      AfterInv(start, s, rest[..|rest| - 1]);
      StepInv(start, After(s, rest[..|rest| - 1]), rest[|rest| - 1]);
    }
  }

  // Only a message that is too long is refused.
  predicate Fits(job: Job) { job.Send? ==> |job.msg| <= SIZE }

  function Words(job: Job): nat { if job.Send? then |job.msg| else Cut(job.size) }

  // The turns a side that holds the mailbox needs at most.
  function Left(side: Side): int {
    match side.phase
    case Confirm => Words(side.job) + 6
    case FlushMsg => Words(side.job) + 5
    case ClearMsg => Words(side.job) + 4
    case FlushAck => Words(side.job) + 3
    case ClearAck => Words(side.job) + 2
    case Copy(i) => Words(side.job) - i + 1
    case _ => 0
  }

  // What a PF leaves behind when it finishes: the whole message in the log and the
  // buffer, or the whole of what it asked for.
  lemma PfFinished(start: seq<Word>, s: State, a: Action)
    requires Inv(start, s) && PfFinishes(s, a)
    ensures var t, buffer := Step(s, a), Buffer(start, s.log);
      match s.pf.job
      case Send(msg) => t.log == s.log + [Sent(msg), Raised(PFSTS)] && t.mem == msg + buffer[|msg|..]
      case Receive(size) =>
        t.log == s.log + [Received(size, buffer[..Cut(size)]), Raised(PFACK)] && t.mem == s.mem
  {
  }

  lemma VfFinished(start: seq<Word>, s: State, a: Action)
    requires Inv(start, s) && VfFinishes(s, a)
    ensures var t, buffer := Step(s, a), Buffer(start, s.log);
      match s.vf.job
      case Send(msg) => t.log == s.log + [Sent(msg), Raised(VFREQ)] && t.mem == msg + buffer[|msg|..]
      case Receive(size) =>
        t.log == s.log + [Received(size, buffer[..Cut(size)]), Raised(VFACK)] && t.mem == s.mem
  {
  }

  lemma PfHoldsStep(start: seq<Word>, s: State, a: Action)
    requires Inv(start, s) && PFU in s.reg && !PfFinishes(s, a)
    ensures var t := Step(s, a);
      PFU in t.reg && t.pf.job == s.pf.job && Left(t.pf) + (if a == PfGo then 1 else 0) <= Left(s.pf)
  {
  }

  lemma VfHoldsStep(start: seq<Word>, s: State, a: Action)
    requires Inv(start, s) && VFU in s.reg && !VfFinishes(s, a)
    ensures var t := Step(s, a);
      VFU in t.reg && t.vf.job == s.vf.job && Left(t.vf) + (if a == VfGo then 1 else 0) <= Left(s.vf)
  {
  }

  // Step k of the rest of a run finishes the call.
  predicate PfEndsAt(s: State, rest: seq<Action>, job: Job, k: nat)
    requires k < |rest|
  {
    var t := After(s, rest[..k]);
    PfFinishes(t, rest[k]) && t.pf.job == job
  }

  predicate VfEndsAt(s: State, rest: seq<Action>, job: Job, k: nat)
    requires k < |rest|
  {
    var t := After(s, rest[..k]);
    VfFinishes(t, rest[k]) && t.vf.job == job
  }

  ghost predicate PfCompletes(s: State, rest: seq<Action>, job: Job) {
    exists k: nat :: k < |rest| && PfEndsAt(s, rest, job, k)
  }

  lemma {:induction false} PfGoesOn(start: seq<Word>, s: State, rest: seq<Action>)
    requires Inv(start, s) && PFU in s.reg && !PfCompletes(s, rest, s.pf.job)
    ensures var t := After(s, rest);
      PFU in t.reg && t.pf.job == s.pf.job && Left(t.pf) + Turns(rest, PfGo) <= Left(s.pf)
    decreases |rest|
  {
    if rest != [] {
      var n, before := |rest| - 1, rest[..|rest| - 1];
      forall k: nat | k < n
        ensures !PfEndsAt(s, before, s.pf.job, k)
      {
        assert before[..k] == rest[..k];
        assert !PfEndsAt(s, rest, s.pf.job, k);
      }
      PfGoesOn(start, s, before);
      AfterInv(start, s, before);
      assert !PfEndsAt(s, rest, s.pf.job, n);
      PfHoldsStep(start, After(s, before), rest[n]);
    }
  }

  // The holder of the mailbox completes its call within its own turns, whatever the
  // other side does meanwhile.
  lemma PfHolderCompletes(start: seq<Word>, s: State, rest: seq<Action>)
    requires Inv(start, s) && PFU in s.reg && Turns(rest, PfGo) >= Left(s.pf)
    ensures PfCompletes(s, rest, s.pf.job)
  {
    if !PfCompletes(s, rest, s.pf.job) {
      PfGoesOn(start, s, rest);
      AfterInv(start, s, rest);
    }
  }

  // A call that fits and whose first turn does not find the other side in possession
  // completes, within seven turns and one for each word.
  lemma PfCallCompletes(start: seq<Word>, s: State, job: Job, rest: seq<Action>)
    requires Inv(start, s) && s.pf.phase == Idle && VFU !in s.reg && Fits(job)
    requires Turns(rest, PfGo) >= Words(job) + 6
    ensures PfCompletes(Step(Step(s, PfBegin(job)), PfGo), rest, job)
  {
    StepInv(start, s, PfBegin(job));
    StepInv(start, Step(s, PfBegin(job)), PfGo);
    PfHolderCompletes(start, Step(Step(s, PfBegin(job)), PfGo), rest);
  }

  ghost predicate VfCompletes(s: State, rest: seq<Action>, job: Job) {
    exists k: nat :: k < |rest| && VfEndsAt(s, rest, job, k)
  }

  lemma {:induction false} VfGoesOn(start: seq<Word>, s: State, rest: seq<Action>)
    requires Inv(start, s) && VFU in s.reg && !VfCompletes(s, rest, s.vf.job)
    ensures var t := After(s, rest);
      VFU in t.reg && t.vf.job == s.vf.job && Left(t.vf) + Turns(rest, VfGo) <= Left(s.vf)
    decreases |rest|
  {
    if rest != [] {
      var n, before := |rest| - 1, rest[..|rest| - 1];
      forall k: nat | k < n
        ensures !VfEndsAt(s, before, s.vf.job, k)
      {
        assert before[..k] == rest[..k];
        assert !VfEndsAt(s, rest, s.vf.job, k);
      }
      VfGoesOn(start, s, before);
      AfterInv(start, s, before);
      assert !VfEndsAt(s, rest, s.vf.job, n);
      VfHoldsStep(start, After(s, before), rest[n]);
    }
  }

  // The holder of the mailbox completes its call within its own turns, whatever the
  // other side does meanwhile.
  lemma VfHolderCompletes(start: seq<Word>, s: State, rest: seq<Action>)
    requires Inv(start, s) && VFU in s.reg && Turns(rest, VfGo) >= Left(s.vf)
    ensures VfCompletes(s, rest, s.vf.job)
  {
    if !VfCompletes(s, rest, s.vf.job) {
      VfGoesOn(start, s, rest);
      AfterInv(start, s, rest);
    }
  }

  // A call that fits and whose first turn does not find the other side in possession
  // completes, within seven turns and one for each word.
  lemma VfCallCompletes(start: seq<Word>, s: State, job: Job, rest: seq<Action>)
    requires Inv(start, s) && s.vf.phase == Idle && PFU !in s.reg && Fits(job)
    requires Turns(rest, VfGo) >= Words(job) + 6
    ensures VfCompletes(Step(Step(s, VfBegin(job)), VfGo), rest, job)
  {
    StepInv(start, s, VfBegin(job));
    StepInv(start, Step(s, VfBegin(job)), VfGo);
    VfHolderCompletes(start, Step(Step(s, VfBegin(job)), VfGo), rest);
  }

  // A side that waits for its confirmation without the mailbox does not get it from
  // anybody else's steps.
  lemma {:induction false} PfStaysOut(start: seq<Word>, s: State, rest: seq<Action>)
    requires Inv(start, s) && s.pf.phase == Confirm && PFU !in s.reg && Turns(rest, PfGo) == 0
    ensures After(s, rest).pf == s.pf && PFU !in After(s, rest).reg
    decreases |rest|
  {
    if rest != [] { PfStaysOut(start, s, rest[..|rest| - 1]); }
  }

  lemma {:induction false} VfStaysOut(start: seq<Word>, s: State, rest: seq<Action>)
    requires Inv(start, s) && s.vf.phase == Confirm && VFU !in s.reg && Turns(rest, VfGo) == 0
    ensures After(s, rest).vf == s.vf && VFU !in After(s, rest).reg
    decreases |rest|
  {
    if rest != [] { VfStaysOut(start, s, rest[..|rest| - 1]); }
  }

  // A call whose first turn finds the other side in possession is over after its second
  // turn, and neither turn has touched the buffer, the log or anybody's notifications.
  lemma PfCallTurnedAway(start: seq<Word>, s: State, job: Job, between: seq<Action>)
    requires Inv(start, s) && s.pf.phase == Idle && VFU in s.reg && Fits(job) && Turns(between, PfGo) == 0
    ensures var t := Step(Step(s, PfBegin(job)), PfGo);
      var u := After(t, between);
      && t == s.(pf := t.pf) && Step(u, PfGo) == u.(pf := Step(u, PfGo).pf)
      && Step(u, PfGo).pf.phase == Idle
  {
    StepInv(start, s, PfBegin(job));
    StepInv(start, Step(s, PfBegin(job)), PfGo);
    PfStaysOut(start, Step(Step(s, PfBegin(job)), PfGo), between);
  }

  lemma VfCallTurnedAway(start: seq<Word>, s: State, job: Job, between: seq<Action>)
    requires Inv(start, s) && s.vf.phase == Idle && PFU in s.reg && Fits(job) && Turns(between, VfGo) == 0
    ensures var t := Step(Step(s, VfBegin(job)), VfGo);
      var u := After(t, between);
      var v := Step(u, VfGo);
      && t == s.(vf := t.vf) && v.mem == u.mem && v.log == u.log && v.pf == u.pf
      && (forall f :: f in NOTICES ==> Up(v, f) == Up(u, f))
      && v.vf.phase == Idle
  {
    StepInv(start, s, VfBegin(job));
    StepInv(start, Step(s, VfBegin(job)), VfGo);
    VfStaysOut(start, Step(Step(s, VfBegin(job)), VfGo), between);
    AfterInv(start, Step(Step(s, VfBegin(job)), VfGo), between);
  }
}
