/**
 * The two-level software/firmware lock.  SWSM holds two semaphore bits: reading
 * SMBI takes it, and SWESMBI sticks only while the firmware does not hold its
 * own semaphore.  Under both, GSSR is read, changed and written back; it has one
 * software and one firmware bit per resource.
 *
 * Port drivers and the firmware are steps of one state machine; a schedule is
 * any interleaving.  A disabled action leaves the state alone.
 */
module Semaphore {

  const RESOURCES := 5

  // GSSR: software bits r and firmware bits r + 5 of the resources r
  type Bits = set<nat>

  function Shifted(r: nat): nat { r + RESOURCES }

  function FirmwareBits(mask: Bits): Bits { set r | r in mask :: Shifted(r) }

  predicate Mask(mask: Bits) { forall r :: r in mask ==> r < RESOURCES }

  // Seize clears bits that others hold, after an acquisition ran out of tries.
  datatype Job = Acquire | Release | Seize

  datatype Phase =
    | Idle
    | Smbi          // polling for the semaphore between drivers
    | SwesRead      // holding it, reading SWSM
    | SwesWrite     // writing SWSM back with SWESMBI set
    | SwesCheck     // looking whether the bit stuck
    | GssrRead
    | GssrWrite
    | RelRead       // giving both semaphores back
    | RelWrite

  // `snap` is the register value the driver has read; `retry` says that the
  // resource was busy and the acquisition starts over.
  datatype Driver = Driver(phase: Phase, job: Job, mask: Bits, snap: Bits, retry: bool, held: Bits)

  datatype FwPhase = FwIdle | FwRead | FwWrite | FwDone

  datatype Firmware = Firmware(phase: FwPhase, job: Job, mask: Bits, snap: Bits, held: Bits)

  datatype State = State(smbi: bool, swesmbi: bool, fwHolds: bool, gssr: Bits, drivers: seq<Driver>, fw: Firmware)

  datatype Action =
    | Want(i: nat, mask: Bits)       // a driver calls acquire
    | GiveUp(i: nat, mask: Bits)     // a driver calls release for something it holds
    | Go(i: nat)                     // one step of a driver
    | Timeout(i: nat)                // a driver's SMBI poll runs out of tries
    | Fail(i: nat)                   // its last SMBI try or its SWESMBI poll fails
    | Expire(i: nat)                 // a driver's acquisition runs out of tries
    | FwWant(job: Job, mask: Bits)   // the firmware takes its semaphore
    | FwGo                           // one step of the firmware

  function Start(drivers: nat): State {
    State(false, false, false, {}, seq(drivers, _ => Driver(Idle, Acquire, {}, {}, false, {})),
          Firmware(FwIdle, Acquire, {}, {}, {}))
  }

  function Set(s: State, i: nat, d: Driver): State
    requires i < |s.drivers|
  {
    s.(drivers := s.drivers[i := d])
  }

  function Busy(gssr: Bits, mask: Bits): bool {
    gssr * (mask + FirmwareBits(mask)) != {}
  }

  function DriverStep(s: State, i: nat): State
    requires i < |s.drivers|
  {
    var d := s.drivers[i];
    match d.phase
    case Idle => s
    case Smbi => if s.smbi then s else Set(s.(smbi := true), i, d.(phase := SwesRead))
    case SwesRead => Set(s.(smbi := true), i, d.(phase := SwesWrite))
    case SwesWrite => Set(s.(smbi := true, swesmbi := s.swesmbi || !s.fwHolds), i, d.(phase := SwesCheck))
    case SwesCheck => Set(s.(smbi := true), i, d.(phase := if s.swesmbi then GssrRead else SwesRead))
    case GssrRead =>
      if d.job == Acquire && Busy(s.gssr, d.mask) then Set(s, i, d.(phase := RelRead, snap := s.gssr, retry := true))
      else Set(s, i, d.(phase := GssrWrite, snap := s.gssr, retry := false))
    case GssrWrite =>
      if d.job == Acquire
      then Set(s.(gssr := d.snap + d.mask), i, d.(phase := RelRead, held := d.held + d.mask))
      else Set(s.(gssr := d.snap - d.mask), i,
               d.(phase := RelRead, held := if d.job == Release then d.held - d.mask else d.held))
    case RelRead => Set(s.(smbi := true), i, d.(phase := RelWrite))
    case RelWrite => Set(s.(smbi := false, swesmbi := false), i, d.(phase := if d.retry then Smbi else Idle))
  }

  // A release does not look at the result of taking the semaphores.
  function Quit(d: Driver): Driver { d.(phase := if d.job == Acquire then Idle else GssrRead) }

  function FailStep(s: State, i: nat): State
    requires i < |s.drivers|
  {
    var d := s.drivers[i];
    if d.phase == Smbi && s.smbi then Set(s, i, Quit(d))
    else if d.phase == SwesCheck && !s.swesmbi then Set(s.(smbi := false, swesmbi := false), i, Quit(d))
    else s
  }

  function ExpireStep(s: State, i: nat): State
    requires i < |s.drivers|
  {
    var d := s.drivers[i];
    if d.phase == Smbi && d.retry
    then Set(s, i, d.(job := Seize, mask := d.snap * (d.mask + FirmwareBits(d.mask)), retry := false)) else s
  }

  function FwStep(s: State): State {
    var f := s.fw;
    match f.phase
    case FwIdle => s
    case FwRead =>
      if f.job == Acquire && (s.gssr * (f.mask + FirmwareBits(f.mask)) != {})
      then s.(fw := f.(phase := FwDone, snap := s.gssr))
      else s.(fw := f.(phase := FwWrite, snap := s.gssr))
    case FwWrite =>
      if f.job == Acquire
      then s.(gssr := f.snap + FirmwareBits(f.mask), fw := f.(phase := FwDone, held := f.held + f.mask))
      else s.(gssr := f.snap - FirmwareBits(f.mask), fw := f.(phase := FwDone, held := f.held - f.mask))
    case FwDone => s.(fwHolds := false, fw := f.(phase := FwIdle))
  }

  function Step(s: State, a: Action): (t: State)
    ensures |t.drivers| == |s.drivers|
  {
    match a
    case Want(i, mask) =>
      if i < |s.drivers| && s.drivers[i].phase == Idle && Mask(mask)
      then Set(s, i, s.drivers[i].(phase := Smbi, job := Acquire, mask := mask, retry := false)) else s
    case GiveUp(i, mask) =>
      if i < |s.drivers| && s.drivers[i].phase == Idle && mask <= s.drivers[i].held
      then Set(s, i, s.drivers[i].(phase := Smbi, job := Release, mask := mask, retry := false)) else s
    case Go(i) => if i < |s.drivers| then DriverStep(s, i) else s
    case Timeout(i) =>
      if i < |s.drivers| && s.drivers[i].phase == Smbi then s.(smbi := false, swesmbi := false) else s
    case Fail(i) => if i < |s.drivers| then FailStep(s, i) else s
    case Expire(i) => if i < |s.drivers| then ExpireStep(s, i) else s
    case FwWant(job, mask) =>
      if s.fw.phase == FwIdle && !s.swesmbi && Mask(mask) && job != Seize && (job == Release ==> mask <= s.fw.held)
      then s.(fwHolds := true, fw := s.fw.(phase := FwRead, job := job, mask := mask)) else s
    case FwGo => FwStep(s)
  }

  function RunFrom(s: State, schedule: seq<Action>): (t: State)
    ensures |t.drivers| == |s.drivers|
    decreases |schedule|
  {
    if schedule == [] then s else Step(RunFrom(s, schedule[..|schedule| - 1]), schedule[|schedule| - 1])
  }

  function Run(drivers: nat, schedule: seq<Action>): (t: State)
    ensures |t.drivers| == drivers
  {
    RunFrom(Start(drivers), schedule)
  }

  // ----- invariant

  predicate HasSmbi(d: Driver) { d.phase != Idle && d.phase != Smbi }

  predicate Free(s: State) { forall j: nat :: j < |s.drivers| ==> !HasSmbi(s.drivers[j]) }

  // Between the driver's SWESMBI check and its release.
  predicate Critical(d: Driver) {
    d.phase == GssrRead || d.phase == GssrWrite || d.phase == RelRead || d.phase == RelWrite
  }

  // The call has done what it was for.
  predicate Settled(gssr: Bits, d: Driver) {
    && (d.job == Acquire ==> d.mask <= d.held && d.mask <= gssr)
    && (d.job == Release ==> d.mask !! d.held && d.mask !! gssr)
  }

  ghost predicate DriverOk(s: State, d: Driver) {
    && (HasSmbi(d) ==> s.smbi)
    && (Critical(d) ==> s.swesmbi)
    && (d.phase == GssrWrite ==> d.snap == s.gssr && (d.job == Acquire ==> !Busy(s.gssr, d.mask)))
    && Mask(d.held) && (d.phase != Idle && d.job != Seize ==> Mask(d.mask))
    && (d.phase != Idle && d.job == Release && (d.phase != RelRead && d.phase != RelWrite) ==> d.mask <= d.held)
    && (d.retry ==> d.job == Acquire)
    && ((d.phase == RelRead || d.phase == RelWrite) && !d.retry ==> Settled(s.gssr, d))
  }

  ghost predicate FirmwareOk(s: State) {
    && (s.fw.phase != FwIdle <==> s.fwHolds)
    && !(s.fwHolds && s.swesmbi)
    && (s.fw.phase == FwWrite ==>
          s.fw.snap == s.gssr && (s.fw.job == Acquire ==> !Busy(s.gssr, s.fw.mask)))
    && Mask(s.fw.held) && Mask(s.fw.mask)
    && (s.fw.job == Release && (s.fw.phase == FwRead || s.fw.phase == FwWrite) ==> s.fw.mask <= s.fw.held)
  }

  // Every GSSR bit has exactly one owner, and a resource is software's or the
  // firmware's but not both.
  ghost predicate Owned(s: State) {
    && (forall b: nat :: b in s.gssr <==>
          (exists i: nat :: i < |s.drivers| && b in s.drivers[i].held)
          || (b >= RESOURCES && b - RESOURCES in s.fw.held))
    && (forall i: nat, j: nat :: i < j < |s.drivers| ==> s.drivers[i].held !! s.drivers[j].held)
    && (forall i: nat :: i < |s.drivers| ==> s.drivers[i].held !! s.fw.held)
  }

  // SWESMBI is set only by a driver that is on its way through it.
  predicate Entered(d: Driver) { d.phase == SwesCheck || Critical(d) }

  ghost predicate Accounted(s: State) {
    s.swesmbi ==> exists j: nat :: j < |s.drivers| && Entered(s.drivers[j])
  }

  ghost predicate Locked(s: State) {
    && Accounted(s)
    && (forall i: nat :: i < |s.drivers| ==> DriverOk(s, s.drivers[i]))
    && (forall i: nat, j: nat :: i < j < |s.drivers| ==> !(HasSmbi(s.drivers[i]) && HasSmbi(s.drivers[j])))
    && FirmwareOk(s)
  }

  ghost predicate Inv(s: State) { Locked(s) && Owned(s) }

  // A timeout that clears nobody's semaphore, and a failure the driver heeds.
  predicate LockSafe(s: State, a: Action) {
    match a
    case Timeout(i) => i < |s.drivers| && s.drivers[i].phase == Smbi ==> Free(s)
    case Fail(i) => i < |s.drivers| ==> s.drivers[i].job == Acquire
    case _ => true
  }

  // The bits an expired acquisition clears have been given up by then.
  predicate BitSafe(s: State, a: Action) {
    a.Go? && a.i < |s.drivers| && s.drivers[a.i].phase == GssrWrite && s.drivers[a.i].job == Seize ==>
      s.drivers[a.i].mask !! s.gssr
  }

  // Every timeout strikes where it does no harm.
  predicate Harmless(drivers: nat, schedule: seq<Action>) {
    forall k :: 0 <= k < |schedule| ==>
      var s := Run(drivers, schedule[..k]); LockSafe(s, schedule[k]) && BitSafe(s, schedule[k])
  }

  // ----- preservation

  lemma BusyBit(gssr: Bits, mask: Bits, r: nat)
    requires !Busy(gssr, mask) && r in mask
    ensures r !in gssr && r + RESOURCES !in gssr
  {
    assert Shifted(r) in FirmwareBits(mask);
    assert r in gssr ==> r in gssr * (mask + FirmwareBits(mask));
    assert Shifted(r) in gssr ==> Shifted(r) in gssr * (mask + FirmwareBits(mask));
  }

  lemma StartInv(drivers: nat)
    ensures Inv(Start(drivers))
  {
  }

  // A step that leaves GSSR and all holdings alone keeps ownership.
  lemma SameOwners(s: State, t: State)
    requires Owned(s) && t.gssr == s.gssr && t.fw.held == s.fw.held && |t.drivers| == |s.drivers|
    requires forall i: nat :: i < |s.drivers| ==> t.drivers[i].held == s.drivers[i].held
    ensures Owned(t)
  {
  }

  lemma OwnerOf(s: State, i: nat, b: nat)
    requires Inv(s) && i < |s.drivers| && s.drivers[i].phase == GssrWrite && s.drivers[i].job != Seize
    ensures var t := DriverStep(s, i);
            b in t.gssr <==> (exists j: nat :: j < |t.drivers| && b in t.drivers[j].held)
                             || (b >= RESOURCES && b - RESOURCES in t.fw.held)
  {
    var d, t := s.drivers[i], DriverStep(s, i);
    assert DriverOk(s, d);
    assert forall j: nat :: j < |s.drivers| && j != i ==> t.drivers[j] == s.drivers[j];
    assert b in t.drivers[i].held <==>
      if d.job == Acquire then b in d.held || b in d.mask else b in d.held && b !in d.mask;
    if j: nat :| j < |s.drivers| && b in s.drivers[j].held {
      assert b in t.drivers[j].held || (j == i && b in d.mask);
    }
  }

  // Ownership after a driver has written GSSR back.
  lemma DriverOwns(s: State, i: nat)
    requires Inv(s) && i < |s.drivers| && s.drivers[i].phase == GssrWrite && s.drivers[i].job != Seize
    ensures Owned(DriverStep(s, i))
  {
    var d, t := s.drivers[i], DriverStep(s, i);
    assert DriverOk(s, d);
    if d.job == Acquire {
      forall r: nat | r in d.mask
        ensures r !in s.gssr && r !in s.fw.held && forall j: nat :: j < |s.drivers| ==> r !in s.drivers[j].held
      {
        BusyBit(s.gssr, d.mask, r);
      }
    }
    forall b: nat ensures b in t.gssr <==>
      (exists j: nat :: j < |t.drivers| && b in t.drivers[j].held) || (b >= RESOURCES && b - RESOURCES in t.fw.held)
    {
      OwnerOf(s, i, b);
    }
  }

  lemma FirmwareBit(mask: Bits, b: nat)
    ensures b in FirmwareBits(mask) <==> b >= RESOURCES && b - RESOURCES in mask
  {
    if b >= RESOURCES { assert b == Shifted(b - RESOURCES); }
  }

  lemma FirmwareOwns(s: State)
    requires Inv(s) && s.fw.phase == FwWrite
    ensures Owned(FwStep(s))
  {
    var f, t := s.fw, FwStep(s);
    if f.job == Acquire {
      forall r: nat | r in f.mask
        ensures r !in f.held && forall j: nat :: j < |s.drivers| ==> r !in s.drivers[j].held
      {
        BusyBit(s.gssr, f.mask, r);
        assert r + RESOURCES >= RESOURCES && (r + RESOURCES) - RESOURCES == r;
      }
    }
    forall b: nat ensures b in t.gssr <==>
      (exists j: nat :: j < |t.drivers| && b in t.drivers[j].held) || (b >= RESOURCES && b - RESOURCES in t.fw.held)
    {
      FirmwareBit(f.mask, b);
      if j: nat :| j < |s.drivers| && b in s.drivers[j].held { assert DriverOk(s, s.drivers[j]); }
    }
  }

  // What a driver's step does to itself and to the others.
  lemma DriverStepOk(s: State, i: nat, j: nat)
    requires Locked(s) && i < |s.drivers| && j < |s.drivers|
    ensures var t := DriverStep(s, i); DriverOk(t, t.drivers[j])
  {
    assert DriverOk(s, s.drivers[i]);
    assert DriverOk(s, s.drivers[j]);
    if j < i { assert !(HasSmbi(s.drivers[j]) && HasSmbi(s.drivers[i])); }
    if i < j { assert !(HasSmbi(s.drivers[i]) && HasSmbi(s.drivers[j])); }
  }

  // A step that changes one driver at most keeps SWESMBI accounted for.
  lemma StillAccounted(s: State, t: State, i: nat)
    requires Accounted(s) && |t.drivers| == |s.drivers| && i < |s.drivers|
    requires t.swesmbi ==> s.swesmbi || Entered(t.drivers[i])
    requires forall j: nat :: j < |s.drivers| && j != i ==> t.drivers[j] == s.drivers[j]
    requires t.swesmbi && Entered(s.drivers[i]) ==> Entered(t.drivers[i])
    ensures Accounted(t)
  {
    if t.swesmbi && !Entered(t.drivers[i]) {
      var j: nat :| j < |s.drivers| && Entered(s.drivers[j]);
      assert Entered(t.drivers[j]);
    }
  }

  lemma DriverLocked(s: State, i: nat)
    requires Locked(s) && i < |s.drivers|
    ensures Locked(DriverStep(s, i))
  {
    var t := DriverStep(s, i);
    StillAccounted(s, t, i);
    assert DriverOk(s, s.drivers[i]);
    forall j: nat | j < |t.drivers| ensures DriverOk(t, t.drivers[j]) {
      DriverStepOk(s, i, j);
    }
    forall a: nat, b: nat | a < b < |t.drivers| ensures !(HasSmbi(t.drivers[a]) && HasSmbi(t.drivers[b])) {
      assert DriverOk(s, s.drivers[a]) && DriverOk(s, s.drivers[b]);
    }
  }

  lemma FirmwareLocked(s: State)
    requires Locked(s)
    ensures Locked(FwStep(s))
  {
    var t := FwStep(s);
    assert t.drivers == s.drivers;
    forall j: nat | j < |t.drivers| ensures DriverOk(t, t.drivers[j]) {
      assert DriverOk(s, s.drivers[j]);
    }
  }

  lemma ExpireLocked(s: State, i: nat)
    requires Locked(s) && i < |s.drivers|
    ensures Locked(ExpireStep(s, i))
  {
    var t := ExpireStep(s, i);
    StillAccounted(s, t, i);
    forall j: nat | j < |t.drivers| ensures DriverOk(t, t.drivers[j]) {
      assert DriverOk(s, s.drivers[j]);
    }
  }

  lemma RequestLocked(s: State, a: Action)
    requires Locked(s) && (a.Want? || a.GiveUp? || a.FwWant?)
    ensures Locked(Step(s, a))
  {
    var t := Step(s, a);
    if !a.FwWant? && a.i < |s.drivers| { StillAccounted(s, t, a.i); }
    forall j: nat | j < |t.drivers| ensures DriverOk(t, t.drivers[j]) {
      assert DriverOk(s, s.drivers[j]);
    }
  }

  lemma TimeoutLocked(s: State, i: nat)
    requires Locked(s) && LockSafe(s, Timeout(i))
    ensures Locked(Step(s, Timeout(i)))
  {
    var t := Step(s, Timeout(i));
    forall j: nat | j < |t.drivers| ensures DriverOk(t, t.drivers[j]) {
      assert DriverOk(s, s.drivers[j]);
    }
  }

  lemma FailLocked(s: State, i: nat)
    requires Locked(s) && i < |s.drivers| && s.drivers[i].job == Acquire
    ensures Locked(FailStep(s, i))
  {
    var t := FailStep(s, i);
    StillAccounted(s, t, i);
    assert DriverOk(s, s.drivers[i]);
    forall j: nat | j < |t.drivers| ensures DriverOk(t, t.drivers[j]) {
      assert DriverOk(s, s.drivers[j]);
      if j < i { assert !(HasSmbi(s.drivers[j]) && HasSmbi(s.drivers[i])); }
      if i < j { assert !(HasSmbi(s.drivers[i]) && HasSmbi(s.drivers[j])); }
    }
  }

  lemma StepLocked(s: State, a: Action)
    requires Locked(s) && LockSafe(s, a)
    ensures Locked(Step(s, a))
  {
    match a {
      case Go(i) => if i < |s.drivers| { DriverLocked(s, i); }
      case FwGo => FirmwareLocked(s);
      case Timeout(i) => TimeoutLocked(s, i);
      case Fail(i) => if i < |s.drivers| { FailLocked(s, i); }
      case Expire(i) => if i < |s.drivers| { ExpireLocked(s, i); }
      case _ => RequestLocked(s, a);
    }
  }

  lemma GoKeepsHeld(s: State, i: nat)
    requires Locked(s) && BitSafe(s, Go(i)) && i < |s.drivers|
    requires s.drivers[i].phase == GssrWrite ==> s.drivers[i].job == Seize
    ensures var t := DriverStep(s, i);
            && t.gssr == s.gssr && t.fw == s.fw
            && forall j: nat :: j < |s.drivers| ==> t.drivers[j].held == s.drivers[j].held
  {
    assert DriverOk(s, s.drivers[i]);
    if s.drivers[i].phase == GssrWrite { assert s.gssr - s.drivers[i].mask == s.gssr; }
  }

  // Only a GSSR write changes GSSR or a holding.
  lemma SameHeld(s: State, a: Action)
    requires Locked(s) && BitSafe(s, a)
    requires a.Go? && a.i < |s.drivers| && s.drivers[a.i].phase == GssrWrite ==> s.drivers[a.i].job == Seize
    requires a.FwGo? ==> s.fw.phase != FwWrite
    ensures var t := Step(s, a);
            && t.gssr == s.gssr && t.fw.held == s.fw.held
            && forall i: nat :: i < |s.drivers| ==> t.drivers[i].held == s.drivers[i].held
  {
    if a.Go? {
      if a.i < |s.drivers| { GoKeepsHeld(s, a.i); }
    }
  }

  lemma StepOwned(s: State, a: Action)
    requires Inv(s) && BitSafe(s, a)
    ensures Owned(Step(s, a))
  {
    if a.Go? && a.i < |s.drivers| && s.drivers[a.i].phase == GssrWrite && s.drivers[a.i].job != Seize {
      DriverOwns(s, a.i);
    } else if a.FwGo? && s.fw.phase == FwWrite {
      FirmwareOwns(s);
    } else {
      SameHeld(s, a);
      SameOwners(s, Step(s, a));
    }
  }

  lemma HarmlessPrefix(drivers: nat, schedule: seq<Action>)
    requires Harmless(drivers, schedule) && schedule != []
    ensures var n := |schedule| - 1;
            && Harmless(drivers, schedule[..n])
            && LockSafe(Run(drivers, schedule[..n]), schedule[n]) && BitSafe(Run(drivers, schedule[..n]), schedule[n])
  {
    var n := |schedule| - 1;
    forall k | 0 <= k < n ensures schedule[..n][..k] == schedule[..k] {
    }
  }

  lemma {:induction false} RunInv(drivers: nat, schedule: seq<Action>)
    requires Harmless(drivers, schedule)
    ensures Inv(Run(drivers, schedule))
    decreases |schedule|
  {
    if schedule == [] {
      StartInv(drivers);
    } else {
      var n := |schedule| - 1;
      HarmlessPrefix(drivers, schedule);
      RunInv(drivers, schedule[..n]);
      StepLocked(Run(drivers, schedule[..n]), schedule[n]);
      StepOwned(Run(drivers, schedule[..n]), schedule[n]);
    }
  }

  // ----- what the lock guarantees

  predicate FwCritical(f: Firmware) { f.phase != FwIdle }

  // At most one agent is between taking and releasing GSSR.
  ghost predicate Exclusive(s: State) {
    && (forall i: nat, j: nat :: i < j < |s.drivers| ==> !(Critical(s.drivers[i]) && Critical(s.drivers[j])))
    && (forall i: nat :: i < |s.drivers| ==> !(Critical(s.drivers[i]) && FwCritical(s.fw)))
  }

  lemma LockedExcludes(s: State)
    requires Locked(s)
    ensures Exclusive(s)
  {
    forall i: nat | i < |s.drivers| ensures !(Critical(s.drivers[i]) && FwCritical(s.fw)) {
      assert DriverOk(s, s.drivers[i]);
    }
  }

  // In every interleaving in which every timeout strikes where it does no harm.
  lemma Exclusion(drivers: nat, schedule: seq<Action>)
    requires Harmless(drivers, schedule)
    ensures Exclusive(Run(drivers, schedule))
  {
    RunInv(drivers, schedule);
    LockedExcludes(Run(drivers, schedule));
  }

  // A value written back to GSSR is computed from its current value.
  lemma NoLostUpdate(drivers: nat, schedule: seq<Action>, i: nat)
    requires Harmless(drivers, schedule) && i < drivers
    ensures var s := Run(drivers, schedule);
            && (s.drivers[i].phase == GssrWrite ==> s.drivers[i].snap == s.gssr)
            && (s.fw.phase == FwWrite ==> s.fw.snap == s.gssr)
  {
    RunInv(drivers, schedule);
    var s := Run(drivers, schedule);
    assert DriverOk(s, s.drivers[i]);
  }

  // Every resource has at most one owner, and its two bits are never both set.
  lemma OneOwner(drivers: nat, schedule: seq<Action>, r: nat)
    requires Harmless(drivers, schedule) && r < RESOURCES
    ensures var s := Run(drivers, schedule);
            && !(r in s.gssr && r + RESOURCES in s.gssr)
            && (r in s.gssr <==> exists i: nat :: i < drivers && r in s.drivers[i].held)
            && (forall i: nat, j: nat :: i < drivers && j < drivers && r in s.drivers[i].held && r in s.drivers[j].held
                  ==> i == j)
            && (r + RESOURCES in s.gssr <==> r in s.fw.held)
  {
    RunInv(drivers, schedule);
    var s := Run(drivers, schedule);
    forall i: nat, j: nat | i < drivers && j < drivers && r in s.drivers[i].held && r in s.drivers[j].held
      ensures i == j
    {
    }
    forall i: nat | i < drivers ensures r + RESOURCES !in s.drivers[i].held {
      assert DriverOk(s, s.drivers[i]);
    }
    assert (r + RESOURCES) - RESOURCES == r;
  }

  // ----- exactly which timeouts do harm

  // No poll and no acquisition runs out of tries.
  predicate Patient(schedule: seq<Action>) {
    forall k :: 0 <= k < |schedule| ==> !schedule[k].Timeout? && !schedule[k].Fail? && !schedule[k].Expire?
  }

  // However the run goes on without another timeout, exclusion holds.
  ghost predicate StaysExclusive(s: State) {
    forall rest :: Patient(rest) ==> Exclusive(RunFrom(s, rest))
  }

  lemma {:induction false} LockedStays(s: State, rest: seq<Action>)
    requires Locked(s) && Patient(rest)
    ensures Locked(RunFrom(s, rest))
    decreases |rest|
  {
    if rest != [] {
      LockedStays(s, rest[..|rest| - 1]);
      StepLocked(RunFrom(s, rest[..|rest| - 1]), rest[|rest| - 1]);
    }
  }

  lemma LockedStaysExclusive(s: State)
    requires Locked(s)
    ensures StaysExclusive(s)
  {
    forall rest | Patient(rest) ensures Exclusive(RunFrom(s, rest)) {
      LockedStays(s, rest);
      LockedExcludes(RunFrom(s, rest));
    }
  }

  ghost predicate Leads(s: State, t: State) {
    exists rest :: Patient(rest) && t == RunFrom(s, rest)
  }

  lemma LeadsNowhere(s: State)
    ensures Leads(s, s)
  {
    assert s == RunFrom(s, []);
  }

  lemma RunOneMore(s: State, rest: seq<Action>, a: Action)
    ensures RunFrom(s, rest + [a]) == Step(RunFrom(s, rest), a)
  {
    assert (rest + [a])[..|rest|] == rest;
  }

  lemma LeadsOn(s: State, t: State, a: Action)
    requires Leads(s, t) && !a.Timeout? && !a.Fail? && !a.Expire?
    ensures Leads(s, Step(t, a))
  {
    var rest :| Patient(rest) && t == RunFrom(s, rest);
    RunOneMore(s, rest, a);
    assert Patient(rest + [a]);
  }

  function FwLeft(f: Firmware): nat {
    match f.phase
    case FwIdle => 0
    case FwRead => 3
    case FwWrite => 2
    case FwDone => 1
  }

  // The firmware finishes; nothing else changes but GSSR.
  lemma {:induction false} FirmwareLeaves(s: State, t: State) returns (u: State)
    requires Leads(s, t) && (t.fwHolds <==> t.fw.phase != FwIdle)
    ensures Leads(s, u) && u == t.(fwHolds := false, gssr := u.gssr, fw := u.fw) && u.fw.phase == FwIdle
    decreases FwLeft(t.fw)
  {
    if t.fw.phase == FwIdle {
      u := t;
    } else {
      LeadsOn(s, t, FwGo);
      u := FirmwareLeaves(s, FwStep(t));
    }
  }

  lemma LeadsTwice(s: State, t: State, i: nat)
    requires Leads(s, t) && i < |t.drivers|
    ensures Leads(s, DriverStep(DriverStep(t, i), i))
  {
    LeadsOn(s, t, Go(i));
    LeadsOn(s, DriverStep(t, i), Go(i));
  }

  // A driver walks from its poll to GSSR when both bits are clear.
  lemma DriverEnters(s: State, t: State, i: nat) returns (u: State)
    requires Leads(s, t) && i < |t.drivers| && t.drivers[i].phase == Smbi && !t.smbi && !t.fwHolds
    ensures Leads(s, u) && u.swesmbi && |u.drivers| == |t.drivers|
    ensures u.drivers == t.drivers[i := t.drivers[i].(phase := GssrRead)]
  {
    LeadsTwice(s, t, i);
    u := DriverStep(DriverStep(t, i), i);
    LeadsTwice(s, u, i);
    u := DriverStep(DriverStep(u, i), i);
  }

  function WayToGssr(d: Driver): nat {
    match d.phase
    case SwesRead => 3
    case SwesWrite => 2
    case SwesCheck => 1
    case _ => 0
  }

  // A driver that believes to have SMBI follows once SWESMBI is set.
  lemma {:induction false} HolderEnters(s: State, t: State, j: nat) returns (u: State)
    requires Leads(s, t) && j < |t.drivers| && HasSmbi(t.drivers[j]) && t.swesmbi
    ensures Leads(s, u) && |u.drivers| == |t.drivers| && Critical(u.drivers[j])
    ensures forall k: nat :: k < |t.drivers| && k != j ==> u.drivers[k] == t.drivers[k]
    decreases WayToGssr(t.drivers[j])
  {
    if Critical(t.drivers[j]) {
      u := t;
    } else {
      LeadsOn(s, t, Go(j));
      u := HolderEnters(s, DriverStep(t, j), j);
    }
  }

  lemma Clash(s: State, t: State, i: nat, j: nat)
    requires Leads(s, t) && i < |t.drivers| && Critical(t.drivers[i])
    requires (j < |t.drivers| && j != i && Critical(t.drivers[j])) || FwCritical(t.fw)
    ensures !StaysExclusive(s)
  {
    assert !Exclusive(t) by {
      if !FwCritical(t.fw) && j < i { assert Critical(t.drivers[j]) && Critical(t.drivers[i]); }
    }
    var rest :| Patient(rest) && t == RunFrom(s, rest);
    assert !Exclusive(RunFrom(s, rest));
  }

  // A timeout while some driver has SMBI lets two drivers in.
  lemma TimeoutLetsTwoIn(s: State, i: nat, j: nat)
    requires Locked(s) && i < |s.drivers| && j < |s.drivers| && s.drivers[i].phase == Smbi && HasSmbi(s.drivers[j])
    ensures !StaysExclusive(Step(s, Timeout(i)))
  {
    var t := Step(s, Timeout(i));
    LeadsNowhere(t);
    var u := FirmwareLeaves(t, t);
    u := DriverEnters(t, u, i);
    u := HolderEnters(t, u, j);
    Clash(t, u, i, j);
  }

  // The timeout of an SMBI poll does no harm exactly when no driver has SMBI.
  lemma TimeoutHarmless(s: State, i: nat)
    requires Locked(s) && i < |s.drivers| && s.drivers[i].phase == Smbi
    ensures StaysExclusive(Step(s, Timeout(i))) <==> Free(s)
    ensures var t := Step(s, Timeout(i)); !t.smbi && !t.swesmbi && t.drivers == s.drivers && t.gssr == s.gssr
  {
    if Free(s) {
      TimeoutLocked(s, i);
      LockedStaysExclusive(Step(s, Timeout(i)));
    } else {
      var j: nat :| j < |s.drivers| && HasSmbi(s.drivers[j]);
      TimeoutLetsTwoIn(s, i, j);
    }
  }

  // Somebody else gets to GSSR beside a driver without the semaphores.
  lemma UnlockedMeets(s: State, t: State, i: nat)
    requires Locked(s) && i < |s.drivers| && t == Step(s, Fail(i)) && s.drivers[i].job != Acquire
    requires (s.drivers[i].phase == Smbi && s.smbi) || (s.drivers[i].phase == SwesCheck && !s.swesmbi)
    ensures !StaysExclusive(t)
  {
    LeadsNowhere(t);
    if t.fwHolds {
      Clash(t, t, i, i);
    } else if !t.swesmbi {
      LeadsOn(t, t, FwWant(Acquire, {}));
      Clash(t, Step(t, FwWant(Acquire, {})), i, i);
    } else {
      var j: nat :| j < |s.drivers| && Entered(s.drivers[j]);
      var u := HolderEnters(t, t, j);
      Clash(t, u, i, j);
    }
  }

  // A failed poll does no harm exactly when the driver was acquiring: a release
  // goes on to GSSR without the semaphores.
  lemma FailHarmless(s: State, i: nat)
    requires Locked(s) && i < |s.drivers|
    requires (s.drivers[i].phase == Smbi && s.smbi) || (s.drivers[i].phase == SwesCheck && !s.swesmbi)
    ensures StaysExclusive(Step(s, Fail(i))) <==> s.drivers[i].job == Acquire
    ensures var t := Step(s, Fail(i));
            && (s.drivers[i].job == Acquire ==> t.drivers[i] == s.drivers[i].(phase := Idle))
            && t.gssr == s.gssr && (s.drivers[i].phase == SwesCheck ==> !t.smbi && !t.swesmbi)
  {
    var t := Step(s, Fail(i));
    if s.drivers[i].job == Acquire {
      FailLocked(s, i);
      LockedStaysExclusive(t);
    } else {
      UnlockedMeets(s, t, i);
    }
  }

  // Clearing the bits of an expired acquisition keeps the books exactly when the
  // bits had been given up.
  lemma SeizeHarmless(s: State, i: nat)
    requires Inv(s) && i < |s.drivers| && s.drivers[i].phase == GssrWrite && s.drivers[i].job == Seize
    ensures Owned(Step(s, Go(i))) <==> s.drivers[i].mask !! s.gssr
  {
    var d, t := s.drivers[i], Step(s, Go(i));
    assert DriverOk(s, d);
    forall j: nat | j < |s.drivers| ensures t.drivers[j].held == s.drivers[j].held {
    }
    if d.mask !! s.gssr {
      SameOwners(s, t);
    } else {
      var b :| b in d.mask && b in s.gssr;
      assert b !in t.gssr;
    }
  }

  // Driver i takes n steps while the others stand still.
  function Solo(s: State, i: nat, n: nat): (t: State)
    requires i < |s.drivers|
    ensures |t.drivers| == |s.drivers|
  {
    if n == 0 then s else DriverStep(Solo(s, i, n - 1), i)
  }

  // An expired acquisition on its way to bits that have been given up.
  ghost predicate Seizing(s: State, i: nat) {
    Inv(s) && i < |s.drivers| && s.drivers[i].job == Seize && s.drivers[i].mask !! s.gssr
  }

  lemma {:induction false} SeizingStays(s: State, i: nat, n: nat)
    requires Seizing(s, i)
    ensures Seizing(Solo(s, i, n), i)
  {
    if n > 0 {
      SeizingStays(s, i, n - 1);
      var t := Solo(s, i, n - 1);
      StepLocked(t, Go(i));
      StepOwned(t, Go(i));
      GoKeepsHeld(t, i);
    }
  }

  lemma SeizeStep(s: State, i: nat) returns (t: State)
    requires Inv(s) && i < |s.drivers| && s.drivers[i].phase != GssrWrite
    ensures t == DriverStep(s, i) && Inv(t) && t.gssr == s.gssr
  {
    t := Step(s, Go(i));
    StepLocked(s, Go(i));
    StepOwned(s, Go(i));
    GoKeepsHeld(s, i);
  }

  // Where it stands after n steps when both bits are clear.
  function WayTo(n: nat): Phase {
    match n
    case 0 => Smbi
    case 1 => SwesRead
    case 2 => SwesWrite
    case 3 => SwesCheck
    case 4 => GssrRead
    case _ => GssrWrite
  }

  lemma SeizeWalksOne(s: State, i: nat, n: nat)
    requires Inv(s) && i < |s.drivers| && 0 < n <= 5 && s.drivers[i].phase == WayTo(n - 1) && s.drivers[i].job == Seize
    requires !s.fwHolds && (n == 1 ==> !s.smbi) && (n > 3 ==> s.swesmbi)
    ensures var t := DriverStep(s, i);
            && Inv(t) && t.gssr == s.gssr && t.fwHolds == s.fwHolds && (n >= 3 ==> t.swesmbi)
            && t.drivers[i].phase == WayTo(n) && t.drivers[i].job == Seize && t.drivers[i].mask == s.drivers[i].mask
  {
    var t := SeizeStep(s, i);
  }

  lemma {:induction false} SeizeWalks(s: State, i: nat, n: nat)
    requires Inv(s) && i < |s.drivers| && s.drivers[i].phase == Smbi && s.drivers[i].job == Seize
    requires !s.smbi && !s.fwHolds
    requires n <= 5
    ensures var t := Solo(s, i, n);
            && Inv(t) && t.gssr == s.gssr && t.fwHolds == s.fwHolds && (n >= 3 ==> t.swesmbi)
            && t.drivers[i].phase == WayTo(n) && t.drivers[i].job == Seize && t.drivers[i].mask == s.drivers[i].mask
  {
    if n > 0 {
      SeizeWalks(s, i, n - 1);
      SeizeWalksOne(Solo(s, i, n - 1), i, n);
    }
  }

  // The bits an expired acquisition is after: those of its resources that were set
  // when it last looked.  Only a driver that has looked and is about to try again expires.
  lemma ExpireMask(s: State, i: nat, b: nat)
    requires i < |s.drivers|
    ensures var d, t := s.drivers[i], Step(s, Expire(i));
            if d.phase == Smbi && d.retry then
              b in t.drivers[i].mask <==> b in d.snap && (b in d.mask || (b >= RESOURCES && b - RESOURCES in d.mask))
            else t == s
  {
    FirmwareBit(s.drivers[i].mask, b);
  }

  lemma SeizeHarms(s: State, i: nat, n: nat)
    requires Inv(s) && i < |s.drivers| && s.drivers[i].phase == Smbi && s.drivers[i].job == Seize
    requires !s.smbi && !s.fwHolds && !(s.drivers[i].mask !! s.gssr) && n == 5
    ensures !Owned(Solo(s, i, n + 1))
  {
    SeizeWalks(s, i, n);
    SeizeHarmless(Solo(s, i, n), i);
  }

  // From its expiry on, with the others standing still and both semaphores free, an
  // acquisition keeps every bit with its owner exactly when the bits that were in
  // its way have been given up.
  lemma ExpireHarmless(s: State, i: nat)
    requires Inv(s) && i < |s.drivers| && s.drivers[i].phase == Smbi && s.drivers[i].retry && !s.smbi && !s.fwHolds
    ensures var t := Step(s, Expire(i));
            (forall n: nat :: Owned(Solo(t, i, n))) <==> t.drivers[i].mask !! s.gssr
  {
    var t := Step(s, Expire(i));
    StepLocked(s, Expire(i));
    StepOwned(s, Expire(i));
    if t.drivers[i].mask !! s.gssr {
      forall n: nat ensures Owned(Solo(t, i, n)) {
        SeizingStays(t, i, n);
      }
    } else {
      SeizeHarms(t, i, 5);
    }
  }

  lemma {:induction false} RunJoin(s: State, a: seq<Action>, b: seq<Action>)
    ensures RunFrom(s, a + b) == RunFrom(RunFrom(s, a), b)
    decreases |b|
  {
    if b == [] {
      assert a + b == a;
    } else {
      assert (a + b)[..|a + b| - 1] == a + b[..|b| - 1];
      RunJoin(s, a, b[..|b| - 1]);
    }
  }

  lemma OpeningIs(drivers: nat, opening: seq<Action>)
    requires drivers >= 2 && opening == [Want(0, {}), Want(1, {}), Go(0)]
    ensures var s := Run(drivers, opening); s.drivers[0].phase == SwesRead && s.drivers[1].phase == Smbi
  {
    var s0 := Start(drivers);
    assert opening[..2] == [Want(0, {}), Want(1, {})] && opening[..2][..1] == [Want(0, {})];
    assert opening[..2][..1][..0] == [];
    assert RunFrom(s0, opening[..2][..1]) == Step(s0, Want(0, {}));
    assert RunFrom(s0, opening[..2]) == Step(Step(s0, Want(0, {})), Want(1, {}));
  }

  // With two drivers or more such a run exists from the start: the second driver's
  // poll runs out while the first has SMBI.
  lemma TimeoutBreaksExclusion(drivers: nat) returns (schedule: seq<Action>)
    requires drivers >= 2
    ensures !Exclusive(Run(drivers, schedule))
  {
    var opening := [Want(0, {}), Want(1, {}), Go(0)];
    var s := Run(drivers, opening);
    StartInv(drivers);
    LockedStays(Start(drivers), opening);
    OpeningIs(drivers, opening);
    TimeoutHarmless(s, 1);
    assert HasSmbi(s.drivers[0]);
    var rest :| Patient(rest) && !Exclusive(RunFrom(Step(s, Timeout(1)), rest));
    RunJoin(Start(drivers), opening, [Timeout(1)]);
    assert RunFrom(s, [Timeout(1)]) == Step(s, Timeout(1)) by { assert s == RunFrom(s, []); }
    RunJoin(Start(drivers), opening + [Timeout(1)], rest);
    schedule := opening + [Timeout(1)] + rest;
  }
}
