/**
 * The mailbox between a physical function and one virtual function: a buffer of
 * sixteen words, an ownership flag for each side, and notification flags.  The VF's
 * are cleared by reading them, so the VF driver keeps them in a software copy; the
 * PF's are cleared by a second access that writes them back.
 *
 * Both drivers are steps of one state machine, one register access at a time; a
 * schedule is any interleaving and a disabled action leaves the state alone.
 * The log is history only: it records what the two drivers completed, and no step
 * looks at it.
 */
module Mailbox {

  const SIZE: nat := 16

  type Word = nat

  datatype Flag = VFU | PFU | PFSTS | PFACK | RSTI | RSTD | VFREQ | VFACK

  const READ_TO_CLEAR: set<Flag> := {PFSTS, PFACK, RSTD}
  const WRITE_TO_CLEAR: set<Flag> := {VFREQ, VFACK}
  const NOTICES: set<Flag> := READ_TO_CLEAR + WRITE_TO_CLEAR

  datatype Job = Send(msg: seq<Word>) | Receive(size: nat)

  // The PF has a phase between the two accesses of a check: in ClearMsg, ClearAck and
  // Clear it has seen the flag and not yet cleared it.
  datatype Phase =
    | Idle
    | Lock | Confirm | FlushMsg | ClearMsg | FlushAck | ClearAck | Copy(i: nat)
    | Clear(flag: Flag)

  datatype Side = Side(phase: Phase, job: Job, got: seq<Word>)

  datatype Event =
    | Sent(msg: seq<Word>)
    | Received(size: nat, got: seq<Word>)   // asked for `size` words
    | Raised(flag: Flag)                    // a notification is set
    | Indicated(on: bool)                   // the reset indication is a level
    | Checked(mask: set<Flag>, reply: bool) // a check for some flags

  // `reg` is the mailbox register, `cache` the VF driver's copy, `icr` the PF's flags.
  datatype State = State(reg: set<Flag>, cache: set<Flag>, icr: set<Flag>, mem: seq<Word>, vf: Side, pf: Side,
                         log: seq<Event>)

  datatype Action =
    | VfBegin(job: Job) | PfBegin(job: Job)
    | VfGo | PfGo
    | VfCheck(mask: set<Flag>) | PfCheck(flag: Flag)
    | Indicate(on: bool)
    | ResetDone

  function Start(mem: seq<Word>): State {
    State({}, {}, {}, mem, Side(Idle, Receive(0), []), Side(Idle, Receive(0), []), [])
  }

  // ----- the drivers

  // A read is cut to the mailbox.
  function Cut(size: nat): nat { if size > SIZE then SIZE else size }

  // A message that is too long is refused.
  function Begin(side: Side, job: Job): Side {
    if side.phase != Idle then side
    else match job
      case Send(msg) => if |msg| > SIZE then side else Side(Lock, job, [])
      case Receive(size) => Side(Lock, job, [])
  }

  // Reading the register clears the notifications in it; they go to the cache.
  function ReadV2p(s: State): (State, set<Flag>) {
    var word := s.reg + s.cache;
    (s.(reg := s.reg - READ_TO_CLEAR, cache := s.cache + word * READ_TO_CLEAR), word)
  }

  function CheckBits(s: State, mask: set<Flag>): State {
    var (t, word) := ReadV2p(s);
    t.(cache := t.cache - mask, log := t.log + [Checked(mask, word * mask != {})])
  }

  function AfterLock(side: Side): Side {
    side.(phase := if side.job.Send? then FlushMsg else Copy(0))
  }

  function VfStep(s: State): State {
    var side := s.vf;
    match side.phase
    case Idle => s
    case ClearMsg => s // the PF only
    case ClearAck => s
    case Clear(_) => s
    case Lock => s.(reg := if PFU in s.reg then s.reg else s.reg + {VFU}, vf := side.(phase := Confirm))
    case Confirm =>
      var (t, word) := ReadV2p(s);
      t.(vf := if VFU in word then AfterLock(side) else side.(phase := Idle))
    case FlushMsg => CheckBits(s, {PFSTS}).(vf := side.(phase := FlushAck))
    case FlushAck => CheckBits(s, {PFACK}).(vf := side.(phase := Copy(0)))
    case Copy(i) =>
      match side.job
      case Send(msg) =>
        if i < |msg| && i < |s.mem| then s.(mem := s.mem[i := msg[i]], vf := side.(phase := Copy(i + 1)))
        else s.(reg := s.reg - {VFU}, icr := s.icr + {VFREQ}, vf := side.(phase := Idle),
                log := s.log + [Sent(msg), Raised(VFREQ)])
      case Receive(size) =>
        if i < Cut(size) && i < |s.mem| then s.(vf := side.(phase := Copy(i + 1), got := side.got + [s.mem[i]]))
        else s.(reg := s.reg - {VFU}, icr := s.icr + {VFACK}, vf := side.(phase := Idle),
                log := s.log + [Received(size, side.got), Raised(VFACK)])
  }

  // The first access of a PF check sees whether the flag is set, the second clears it.
  function PfLook(s: State, f: Flag, seen: Phase, next: Phase): State {
    if f in s.icr then s.(pf := s.pf.(phase := seen))
    else s.(pf := s.pf.(phase := next), log := s.log + [Checked({f}, false)])
  }

  function PfClear(s: State, f: Flag, next: Phase): State {
    s.(icr := s.icr - {f}, pf := s.pf.(phase := next), log := s.log + [Checked({f}, true)])
  }

  // The PF looks at its own register only; finishing raises a notification.
  function PfStep(s: State): State {
    var side := s.pf;
    match side.phase
    case Idle => s
    case Lock => s.(reg := if VFU in s.reg then s.reg else s.reg + {PFU}, pf := side.(phase := Confirm))
    case Confirm => s.(pf := if PFU in s.reg then AfterLock(side) else side.(phase := Idle))
    case FlushMsg => PfLook(s, VFREQ, ClearMsg, FlushAck)
    case ClearMsg => PfClear(s, VFREQ, FlushAck)
    case FlushAck => PfLook(s, VFACK, ClearAck, Copy(0))
    case ClearAck => PfClear(s, VFACK, Copy(0))
    case Clear(f) => PfClear(s, f, Idle)
    case Copy(i) =>
      match side.job
      case Send(msg) =>
        if i < |msg| && i < |s.mem| then s.(mem := s.mem[i := msg[i]], pf := side.(phase := Copy(i + 1)))
        else s.(reg := s.reg - {PFU} + {PFSTS}, pf := side.(phase := Idle), log := s.log + [Sent(msg), Raised(PFSTS)])
      case Receive(size) =>
        if i < Cut(size) && i < |s.mem| then s.(pf := side.(phase := Copy(i + 1), got := side.got + [s.mem[i]]))
        else s.(reg := s.reg - {PFU} + {PFACK}, pf := side.(phase := Idle),
                log := s.log + [Received(size, side.got), Raised(PFACK)])
  }

  function Step(s: State, a: Action): State {
    match a
    case VfBegin(job) => s.(vf := Begin(s.vf, job))
    case PfBegin(job) => s.(pf := Begin(s.pf, job))
    case VfGo => VfStep(s)
    case PfGo => PfStep(s)
    case VfCheck(mask) =>
      if s.vf.phase == Idle && (mask == {PFSTS} || mask == {PFACK} || mask == {RSTD, RSTI})
      then CheckBits(s, mask) else s
    case PfCheck(f) => if s.pf.phase == Idle && f in WRITE_TO_CLEAR then PfLook(s, f, Clear(f), Idle) else s
    case Indicate(on) => s.(reg := if on then s.reg + {RSTI} else s.reg - {RSTI}, log := s.log + [Indicated(on)])
    case ResetDone => s.(reg := s.reg + {RSTD}, log := s.log + [Raised(RSTD)])
  }

  function Run(mem: seq<Word>, schedule: seq<Action>): State
    decreases |schedule|
  {
    if schedule == [] then Start(mem)
    else Step(Run(mem, schedule[..|schedule| - 1]), schedule[|schedule| - 1])
  }

  // ----- what the log should be: one memory, one flag per notification

  // The buffer after the completed writes of the log, each taken at once.
  function Buffer(start: seq<Word>, log: seq<Event>): (r: seq<Word>)
    ensures |r| == |start|
    decreases |log|
  {
    if log == [] then start
    else
      var before, e := Buffer(start, log[..|log| - 1]), log[|log| - 1];
      if e.Sent? && |e.msg| <= |start| then e.msg + before[|e.msg|..] else before
  }

  // Raised after the last check for it.
  predicate Pending(log: seq<Event>, f: Flag)
    decreases |log|
  {
    log != [] &&
    var e := log[|log| - 1];
    (e == Raised(f) || (!(e.Checked? && f in e.mask) && Pending(log[..|log| - 1], f)))
  }

  predicate Level(log: seq<Event>)
    decreases |log|
  {
    log != [] && if log[|log| - 1].Indicated? then log[|log| - 1].on else Level(log[..|log| - 1])
  }

  // The flags a check should see.
  predicate Visible(log: seq<Event>, f: Flag) {
    (f in NOTICES && Pending(log, f)) || (f == RSTI && Level(log))
  }

  ghost predicate Right(start: seq<Word>, log: seq<Event>, e: Event) {
    match e
    case Received(size, got) => |got| == Cut(size) <= |start| && got == Buffer(start, log)[..|got|]
    case Checked(mask, reply) => reply <==> exists f :: f in mask && Visible(log, f)
    case Sent(msg) => |msg| <= |start|
    case Raised(f) => f in NOTICES
    case Indicated(_) => true
  }

  ghost predicate Legal(start: seq<Word>, log: seq<Event>)
    decreases |log|
  {
    log == [] || (Legal(start, log[..|log| - 1]) && Right(start, log[..|log| - 1], log[|log| - 1]))
  }

  // ----- invariant

  predicate Owner(side: Side) {
    || side.phase.FlushMsg? || side.phase.ClearMsg? || side.phase.FlushAck? || side.phase.ClearAck?
    || side.phase.Copy?
  }

  ghost predicate FlagsOk(s: State) {
    && s.cache <= READ_TO_CLEAR
    && (forall f :: f in READ_TO_CLEAR ==> ((f in s.reg || f in s.cache) <==> Pending(s.log, f)))
    && (RSTI in s.reg <==> Level(s.log))
  }

  // The flag a PF that is between the accesses of a check has seen.
  ghost predicate IcrOk(s: State) {
    && s.icr <= WRITE_TO_CLEAR
    && (forall f :: f in WRITE_TO_CLEAR ==> (f in s.icr <==> Pending(s.log, f)))
    && (s.pf.phase == ClearMsg ==> VFREQ in s.icr) && (s.pf.phase == ClearAck ==> VFACK in s.icr)
    && (s.pf.phase.Clear? ==> s.pf.phase.flag in s.icr)
    && !s.vf.phase.ClearMsg? && !s.vf.phase.ClearAck? && !s.vf.phase.Clear?
  }

  ghost predicate LocksOk(s: State) {
    && !(VFU in s.reg && PFU in s.reg)
    && (Owner(s.vf) ==> VFU in s.reg) && (Owner(s.pf) ==> PFU in s.reg)
    && (VFU in s.reg ==> Owner(s.vf) || s.vf.phase == Confirm)
    && (PFU in s.reg ==> Owner(s.pf) || s.pf.phase == Confirm)
  }

  // The words a side has moved so far.
  ghost predicate SideOk(side: Side, mem: seq<Word>, buffer: seq<Word>)
    requires |mem| == |buffer| == SIZE
  {
    side.phase != Idle && !side.phase.Clear? ==>
      match side.job
      case Send(msg) =>
        && |msg| <= SIZE
        && (side.phase.Copy? ==>
              side.phase.i <= |msg| && mem == msg[..side.phase.i] + buffer[side.phase.i..])
      case Receive(size) =>
        if side.phase.Copy? then side.phase.i <= Cut(size) && side.got == buffer[..side.phase.i]
        else side.got == []
  }

  predicate Writing(side: Side) { side.phase.Copy? && side.job.Send? }

  ghost predicate DataOk(start: seq<Word>, s: State) {
    && |start| == |s.mem| == SIZE
    && SideOk(s.vf, s.mem, Buffer(start, s.log)) && SideOk(s.pf, s.mem, Buffer(start, s.log))
    && (!Writing(s.vf) && !Writing(s.pf) ==> s.mem == Buffer(start, s.log))
  }

  ghost predicate Inv(start: seq<Word>, s: State) {
    FlagsOk(s) && IcrOk(s) && LocksOk(s) && DataOk(start, s) && Legal(start, s.log)
  }

  // ----- one event at a time

  lemma LogGrows(start: seq<Word>, log: seq<Event>, e: Event)
    requires Legal(start, log) && Right(start, log, e)
    ensures Legal(start, log + [e])
    ensures e.Sent? ==> Buffer(start, log + [e]) == e.msg + Buffer(start, log)[|e.msg|..]
    ensures !e.Sent? ==> Buffer(start, log + [e]) == Buffer(start, log)
    ensures forall f :: Pending(log + [e], f) == (e == Raised(f) || (!(e.Checked? && f in e.mask) && Pending(log, f)))
    ensures Level(log + [e]) == if e.Indicated? then e.on else Level(log)
  {
    assert (log + [e])[..|log|] == log;
  }

  lemma CheckInv(start: seq<Word>, s: State, mask: set<Flag>)
    requires Inv(start, s) && mask <= READ_TO_CLEAR + {RSTI}
    ensures Inv(start, CheckBits(s, mask))
  {
    var (t, word) := ReadV2p(s);
    var e := Checked(mask, word * mask != {});
    forall f | f in mask
      ensures f in word * mask <==> Visible(s.log, f)
    {
    }
    assert e.reply ==> exists f :: f in word * mask;
    assert Right(start, s.log, e);
    LogGrows(start, s.log, e);
  }

  lemma VfLockInv(start: seq<Word>, s: State)
    requires Inv(start, s) && (s.vf.phase == Lock || s.vf.phase == Confirm)
    ensures Inv(start, VfStep(s))
  {
  }

  lemma Done(start: seq<Word>, s: State, e: Event, f: Flag)
    requires Legal(start, s.log) && Right(start, s.log, e) && (e.Sent? || e.Received?) && f in NOTICES
    ensures Legal(start, s.log + [e, Raised(f)])
    ensures Buffer(start, s.log + [e, Raised(f)]) ==
            if e.Sent? then e.msg + Buffer(start, s.log)[|e.msg|..] else Buffer(start, s.log)
    ensures forall g :: Pending(s.log + [e, Raised(f)], g) == (g == f || Pending(s.log, g))
    ensures Level(s.log + [e, Raised(f)]) == Level(s.log)
  {
    LogGrows(start, s.log, e);
    LogGrows(start, s.log + [e], Raised(f));
    assert s.log + [e] + [Raised(f)] == s.log + [e, Raised(f)];
  }

  // One word more of a message, or of a read.
  lemma SendWord(mem: seq<Word>, buffer: seq<Word>, msg: seq<Word>, i: nat)
    requires |mem| == |buffer| == SIZE && i < |msg| <= SIZE && mem == msg[..i] + buffer[i..]
    ensures mem[i := msg[i]] == msg[..i + 1] + buffer[i + 1..]
  {
  }

  lemma VfSentInv(start: seq<Word>, s: State)
    requires Inv(start, s) && s.vf.phase.Copy? && s.vf.job.Send? && s.vf.phase.i == |s.vf.job.msg|
    ensures Inv(start, VfStep(s))
  {
    Done(start, s, Sent(s.vf.job.msg), VFREQ);
  }

  lemma VfSendInv(start: seq<Word>, s: State)
    requires Inv(start, s) && s.vf.phase.Copy? && s.vf.job.Send?
    ensures Inv(start, VfStep(s))
  {
    if s.vf.phase.i == |s.vf.job.msg| {
      VfSentInv(start, s);
    } else {
      SendWord(s.mem, Buffer(start, s.log), s.vf.job.msg, s.vf.phase.i);
    }
  }

  lemma ReceiveWord(buffer: seq<Word>, got: seq<Word>, i: nat)
    requires i < |buffer| && got == buffer[..i]
    ensures got + [buffer[i]] == buffer[..i + 1]
  {
  }

  lemma VfReceivedInv(start: seq<Word>, s: State)
    requires Inv(start, s) && s.vf.phase.Copy? && s.vf.job.Receive? && s.vf.phase.i == Cut(s.vf.job.size)
    ensures Inv(start, VfStep(s))
  {
    Done(start, s, Received(s.vf.job.size, s.vf.got), VFACK);
  }

  lemma VfReceiveInv(start: seq<Word>, s: State)
    requires Inv(start, s) && s.vf.phase.Copy? && s.vf.job.Receive?
    ensures Inv(start, VfStep(s))
  {
    if s.vf.phase.i == Cut(s.vf.job.size) {
      VfReceivedInv(start, s);
    } else {
      ReceiveWord(s.mem, s.vf.got, s.vf.phase.i);
    }
  }

  lemma VfFlushInv(start: seq<Word>, s: State, f: Flag, next: Phase)
    requires Inv(start, s)
    requires (s.vf.phase == FlushMsg && f == PFSTS && next == FlushAck) ||
             (s.vf.phase == FlushAck && f == PFACK && next == Copy(0))
    ensures Inv(start, CheckBits(s, {f}).(vf := s.vf.(phase := next)))
  {
    CheckInv(start, s, {f});
  }

  lemma VfInv(start: seq<Word>, s: State)
    requires Inv(start, s)
    ensures Inv(start, VfStep(s))
  {
    match s.vf.phase {
      case FlushMsg => VfFlushInv(start, s, PFSTS, FlushAck);
      case FlushAck => VfFlushInv(start, s, PFACK, Copy(0));
      case Copy(i) => if s.vf.job.Send? { VfSendInv(start, s); } else { VfReceiveInv(start, s); }
      case Lock => VfLockInv(start, s);
      case Confirm => VfLockInv(start, s);
      case _ =>
    }
  }

  // The first access of a PF check, and the second.
  lemma FlushInv(start: seq<Word>, s: State)
    requires Inv(start, s) && (s.pf.phase == FlushMsg || s.pf.phase == FlushAck)
    ensures Inv(start, PfStep(s))
  {
    var f := if s.pf.phase == FlushMsg then VFREQ else VFACK;
    if f !in s.icr {
      LogGrows(start, s.log, Checked({f}, false));
    }
  }

  lemma ClearInv(start: seq<Word>, s: State)
    requires Inv(start, s) && (s.pf.phase == ClearMsg || s.pf.phase == ClearAck || s.pf.phase.Clear?)
    ensures Inv(start, PfStep(s))
  {
    var f := if s.pf.phase == ClearMsg then VFREQ else if s.pf.phase == ClearAck then VFACK else s.pf.phase.flag;
    assert Visible(s.log, f);
    LogGrows(start, s.log, Checked({f}, true));
  }

  lemma PfLockInv(start: seq<Word>, s: State)
    requires Inv(start, s) && (s.pf.phase == Idle || s.pf.phase == Lock || s.pf.phase == Confirm)
    ensures Inv(start, PfStep(s))
  {
  }

  lemma PfSentInv(start: seq<Word>, s: State)
    requires Inv(start, s) && s.pf.phase.Copy? && s.pf.job.Send? && s.pf.phase.i == |s.pf.job.msg|
    ensures Inv(start, PfStep(s))
  {
    Done(start, s, Sent(s.pf.job.msg), PFSTS);
  }

  lemma PfSendInv(start: seq<Word>, s: State)
    requires Inv(start, s) && s.pf.phase.Copy? && s.pf.job.Send?
    ensures Inv(start, PfStep(s))
  {
    if s.pf.phase.i == |s.pf.job.msg| {
      PfSentInv(start, s);
    } else {
      SendWord(s.mem, Buffer(start, s.log), s.pf.job.msg, s.pf.phase.i);
    }
  }

  lemma PfReceivedInv(start: seq<Word>, s: State)
    requires Inv(start, s) && s.pf.phase.Copy? && s.pf.job.Receive? && s.pf.phase.i == Cut(s.pf.job.size)
    ensures Inv(start, PfStep(s))
  {
    Done(start, s, Received(s.pf.job.size, s.pf.got), PFACK);
  }

  lemma PfReceiveInv(start: seq<Word>, s: State)
    requires Inv(start, s) && s.pf.phase.Copy? && s.pf.job.Receive?
    ensures Inv(start, PfStep(s))
  {
    if s.pf.phase.i == Cut(s.pf.job.size) {
      PfReceivedInv(start, s);
    } else {
      ReceiveWord(s.mem, s.pf.got, s.pf.phase.i);
    }
  }

  lemma PfInv(start: seq<Word>, s: State)
    requires Inv(start, s)
    ensures Inv(start, PfStep(s))
  {
    match s.pf.phase {
      case FlushMsg => FlushInv(start, s);
      case FlushAck => FlushInv(start, s);
      case Copy(i) => if s.pf.job.Send? { PfSendInv(start, s); } else { PfReceiveInv(start, s); }
      case Idle => PfLockInv(start, s);
      case Lock => PfLockInv(start, s);
      case Confirm => PfLockInv(start, s);
      case _ => ClearInv(start, s);
    }
  }

  lemma BeginInv(start: seq<Word>, s: State, job: Job)
    requires Inv(start, s)
    ensures Inv(start, s.(vf := Begin(s.vf, job))) && Inv(start, s.(pf := Begin(s.pf, job)))
  {
  }

  lemma SignalInv(start: seq<Word>, s: State, a: Action)
    requires Inv(start, s) && (a.Indicate? || a.ResetDone?)
    ensures Inv(start, Step(s, a))
  {
    LogGrows(start, s.log, if a.Indicate? then Indicated(a.on) else Raised(RSTD));
  }

  lemma VfCheckInv(start: seq<Word>, s: State, mask: set<Flag>)
    requires Inv(start, s)
    ensures Inv(start, Step(s, VfCheck(mask)))
  {
    if s.vf.phase == Idle && (mask == {PFSTS} || mask == {PFACK} || mask == {RSTD, RSTI}) {
      CheckInv(start, s, mask);
    }
  }

  lemma PfCheckInv(start: seq<Word>, s: State, f: Flag)
    requires Inv(start, s)
    ensures Inv(start, Step(s, PfCheck(f)))
  {
    if s.pf.phase == Idle && f in WRITE_TO_CLEAR && f !in s.icr {
      LogGrows(start, s.log, Checked({f}, false));
    }
  }

  lemma StepInv(start: seq<Word>, s: State, a: Action)
    requires Inv(start, s)
    ensures Inv(start, Step(s, a))
  {
    match a {
      case VfBegin(job) => BeginInv(start, s, job);
      case PfBegin(job) => BeginInv(start, s, job);
      case VfGo => VfInv(start, s);
      case PfGo => PfInv(start, s);
      case VfCheck(mask) => VfCheckInv(start, s, mask);
      case PfCheck(f) => PfCheckInv(start, s, f);
      case _ => SignalInv(start, s, a);
    }
  }

  lemma {:induction false} RunInv(start: seq<Word>, schedule: seq<Action>)
    requires |start| == SIZE
    ensures Inv(start, Run(start, schedule))
    decreases |schedule|
  {
    if schedule != [] {
      RunInv(start, schedule[..|schedule| - 1]);
      StepInv(start, Run(start, schedule[..|schedule| - 1]), schedule[|schedule| - 1]);
    }
  }

  // ----- theorems

  // Every run behaves as if each message were read and written at once and each
  // check saw exactly the notifications raised since the last check for them.
  lemma RunLegal(start: seq<Word>, schedule: seq<Action>)
    requires |start| == SIZE
    ensures Legal(start, Run(start, schedule).log)
  {
    RunInv(start, schedule);
  }

  // At most one side is past its lock; the cached word never holds an ownership
  // flag; and an idle side leaves the buffer to the other.
  lemma Exclusion(start: seq<Word>, schedule: seq<Action>)
    requires |start| == SIZE
    ensures var s := Run(start, schedule);
      && !(Owner(s.vf) && Owner(s.pf))
      && VFU !in s.cache && PFU !in s.cache
      && (s.vf.phase == Idle ==> VFU !in s.reg) && (s.pf.phase == Idle ==> PFU !in s.reg)
  {
    RunInv(start, schedule);
  }

  lemma {:induction false} LegalAt(start: seq<Word>, log: seq<Event>, m: nat)
    requires Legal(start, log) && m < |log|
    ensures Right(start, log[..m], log[m])
    decreases |log|
  {
    if m < |log| - 1 {
      LegalAt(start, log[..|log| - 1], m);
      assert log[..|log| - 1][..m] == log[..m];
    }
  }

  lemma {:induction false} StaysPending(log: seq<Event>, f: Flag, k: nat, m: nat)
    requires k < m <= |log| && log[k] == Raised(f)
    requires forall i :: k < i < m ==> !(log[i].Checked? && f in log[i].mask)
    ensures Pending(log[..m], f)
    decreases m
  {
    assert log[..m][..m - 1] == log[..m - 1];
    if k + 1 < m {
      StaysPending(log, f, k, m - 1);
    }
  }

  // A notification is reported by the next check for it, whatever is read before.
  lemma NeverLost(start: seq<Word>, schedule: seq<Action>, f: Flag, k: nat, m: nat)
    requires |start| == SIZE
    requires k < m < |Run(start, schedule).log| && f in NOTICES
    requires var log := Run(start, schedule).log;
      log[k] == Raised(f) && log[m].Checked? && f in log[m].mask &&
      (forall i :: k < i < m ==> !(log[i].Checked? && f in log[i].mask))
    ensures Run(start, schedule).log[m].reply
  {
    var log := Run(start, schedule).log;
    RunLegal(start, schedule);
    LegalAt(start, log, m);
    StaysPending(log, f, k, m);
    assert Visible(log[..m], f);
  }

  lemma {:induction false} StaysClear(log: seq<Event>, f: Flag, k: nat, m: nat)
    requires k < m <= |log| && log[k].Checked? && f in log[k].mask
    requires forall i :: k < i < m ==> log[i] != Raised(f)
    ensures !Pending(log[..m], f)
    decreases m
  {
    assert log[..m][..m - 1] == log[..m - 1];
    if k + 1 < m {
      StaysClear(log, f, k, m - 1);
    }
  }

  // It is reported once: the next check for it alone reports only a new one.
  lemma ReportedOnce(start: seq<Word>, schedule: seq<Action>, f: Flag, k: nat, m: nat)
    requires |start| == SIZE
    requires k < m < |Run(start, schedule).log| && f in NOTICES
    requires var log := Run(start, schedule).log;
      log[k].Checked? && f in log[k].mask && log[m].Checked? && log[m].mask == {f} &&
      (forall i :: k < i < m ==> log[i] != Raised(f))
    ensures !Run(start, schedule).log[m].reply
  {
    RunLegal(start, schedule);
    LegalAt(start, Run(start, schedule).log, m);
    StaysClear(Run(start, schedule).log, f, k, m);
  }

  lemma {:induction false} BufferHolds(start: seq<Word>, log: seq<Event>, k: nat, m: nat)
    requires k < m <= |log| && log[k].Sent? && |log[k].msg| <= |start|
    requires forall i :: k < i < m ==> !log[i].Sent?
    ensures Buffer(start, log[..m])[..|log[k].msg|] == log[k].msg
    decreases m
  {
    assert log[..m][..m - 1] == log[..m - 1];
    if k + 1 < m {
      BufferHolds(start, log, k, m - 1);
    }
  }

  // A read of n words, no more than the last message has, returns its first n words.
  lemma ReadsLastMessage(start: seq<Word>, schedule: seq<Action>, k: nat, m: nat)
    requires |start| == SIZE
    requires k < m < |Run(start, schedule).log|
    requires var log := Run(start, schedule).log;
      log[k].Sent? && log[m].Received? && log[m].size <= |log[k].msg| && (forall i :: k < i < m ==> !log[i].Sent?)
    ensures var log := Run(start, schedule).log; log[m].got == log[k].msg[..log[m].size]
  {
    var log := Run(start, schedule).log;
    RunLegal(start, schedule);
    LegalAt(start, log, m);
    LegalAt(start, log, k);
    BufferHolds(start, log, k, m);
    var buffer := Buffer(start, log[..m]);
    assert buffer[..|log[k].msg|][..log[m].size] == buffer[..log[m].size];
  }
}
