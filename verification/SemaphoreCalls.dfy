/**
 * What the calls on the lock do: an acquisition that finds both semaphores free
 * gets its resources exactly when neither half of them is set, and a release gives
 * back what it names and nothing else.
 */
module SemaphoreCalls {
  import opened Semaphore

  // Steps of a driver from its first poll to the read of GSSR, from there to the end
  // of a call, and from there to the next poll.
  const WAY_IN: nat := 4
  const WAY_OUT: nat := 4
  const WAY_BACK: nat := 3

  // Neither the software nor the firmware holds a resource of the mask.
  predicate Available(gssr: Bits, mask: Bits) {
    forall r :: r in mask ==> r !in gssr && r + RESOURCES !in gssr
  }

  lemma BusyIff(gssr: Bits, mask: Bits)
    ensures Busy(gssr, mask) <==> !Available(gssr, mask)
  {
    if !Busy(gssr, mask) {
      forall r | r in mask ensures r !in gssr && r + RESOURCES !in gssr {
        BusyBit(gssr, mask, r);
      }
    } else {
      var b :| b in gssr * (mask + FirmwareBits(mask));
      FirmwareBit(mask, b);
      if b !in mask { assert (b - RESOURCES) + RESOURCES in gssr; }
    }
  }

  // Nobody but driver i has changed, and both semaphores are free.
  ghost predicate Quiet(s: State, t: State, i: nat) {
    && |t.drivers| == |s.drivers| && i < |s.drivers|
    && (forall j: nat :: j < |s.drivers| && j != i ==> t.drivers[j] == s.drivers[j])
    && t.fw == s.fw && t.fwHolds == s.fwHolds && !t.smbi && !t.swesmbi
  }

  // ----- the way to GSSR

  // Driver i in some phase of a call that began in s.
  ghost predicate Underway(s: State, t: State, i: nat, phase: Phase) {
    && i < |s.drivers| && phase != Idle && !s.fwHolds
    && t == s.(smbi := t.smbi, swesmbi := t.swesmbi, drivers := s.drivers[i := s.drivers[i].(phase := phase)])
    && (phase == Smbi ==> !t.smbi)
    && (phase == SwesCheck || phase == GssrRead ==> t.swesmbi)
  }

  lemma {:induction false} WayIn(s: State, i: nat, n: nat)
    requires i < |s.drivers| && s.drivers[i].phase == Smbi && !s.smbi && !s.fwHolds && n <= WAY_IN
    ensures Underway(s, Solo(s, i, n), i, WayTo(n))
  {
    if n > 0 {
      WayIn(s, i, n - 1);
    } else {
      assert s.drivers[i := s.drivers[i]] == s.drivers;
    }
  }

  lemma SoloMore(s: State, i: nat, n: nat, m: nat)
    requires i < |s.drivers|
    ensures Solo(s, i, n + m) == Solo(Solo(s, i, n), i, m)
  {
    if m > 0 { SoloMore(s, i, n, m - 1); }
  }

  // From the read of GSSR to the release of both semaphores.
  lemma Transacts(s: State, i: nat)
    requires i < |s.drivers| && s.drivers[i].phase == GssrRead
    requires s.drivers[i].job == Acquire ==> !Busy(s.gssr, s.drivers[i].mask)
    ensures var t, d := Solo(s, i, WAY_OUT), s.drivers[i];
            && Quiet(s, t, i) && t.drivers[i].phase == Idle
            && t.gssr == (if d.job == Acquire then s.gssr + d.mask else s.gssr - d.mask)
            && t.drivers[i].held == match d.job
                 case Acquire => d.held + d.mask
                 case Release => d.held - d.mask
                 case Seize => d.held
  {
    var t1 := DriverStep(s, i);
    var t2 := DriverStep(t1, i);
    var t3 := DriverStep(t2, i);
    assert Solo(s, i, 1) == t1 by { assert Solo(s, i, 0) == s; }
    assert Solo(s, i, 2) == t2;
    assert Solo(s, i, 3) == t3;
  }

  lemma TurnedAway(s: State, i: nat)
    requires i < |s.drivers| && s.drivers[i].phase == GssrRead
    requires s.drivers[i].job == Acquire && Busy(s.gssr, s.drivers[i].mask)
    ensures var t, d := Solo(s, i, WAY_BACK), s.drivers[i];
            && Quiet(s, t, i) && t.gssr == s.gssr
            && t.drivers[i] == d.(phase := Smbi, snap := s.gssr, retry := true)
  {
    var t1 := DriverStep(s, i);
    var t2 := DriverStep(t1, i);
    assert Solo(s, i, 1) == t1 by { assert Solo(s, i, 0) == s; }
    assert Solo(s, i, 2) == t2;
  }

  // An acquisition whose resources are taken never ends by itself.
  ghost predicate Waits(s: State, i: nat) {
    && i < |s.drivers| && s.drivers[i].job == Acquire && Busy(s.gssr, s.drivers[i].mask)
    && s.drivers[i].phase != Idle && s.drivers[i].phase != GssrWrite
    && (s.drivers[i].phase == RelRead || s.drivers[i].phase == RelWrite ==> s.drivers[i].retry)
  }

  lemma WaitsOne(s: State, i: nat)
    requires Waits(s, i)
    ensures var t := DriverStep(s, i);
            Waits(t, i) && t.gssr == s.gssr && t.drivers[i].held == s.drivers[i].held
  {
  }

  lemma {:induction false} StillWaits(s: State, i: nat, n: nat)
    requires Waits(s, i)
    ensures Waits(Solo(s, i, n), i) && Solo(s, i, n).gssr == s.gssr
    ensures Solo(s, i, n).drivers[i].held == s.drivers[i].held
  {
    if n > 0 {
      StillWaits(s, i, n - 1);
      WaitsOne(Solo(s, i, n - 1), i);
    }
  }

  // ----- the calls

  // The whole call of driver i, from its first poll in t on.
  lemma CallSucceeds(t: State, i: nat)
    requires i < |t.drivers| && t.drivers[i].phase == Smbi && !t.smbi && !t.fwHolds && t.drivers[i].job != Seize
    requires t.drivers[i].job == Acquire ==> !Busy(t.gssr, t.drivers[i].mask)
    ensures var u, d := Solo(t, i, WAY_IN + WAY_OUT), t.drivers[i];
            && Quiet(t, u, i) && u.drivers[i].phase == Idle
            && u.gssr == (if d.job == Acquire then t.gssr + d.mask else t.gssr - d.mask)
            && u.drivers[i].held == (if d.job == Acquire then d.held + d.mask else d.held - d.mask)
  {
    WayIn(t, i, WAY_IN);
    SoloMore(t, i, WAY_IN, WAY_OUT);
    Transacts(Solo(t, i, WAY_IN), i);
  }

  lemma CallTurnedAway(t: State, i: nat)
    requires i < |t.drivers| && t.drivers[i].phase == Smbi && !t.smbi && !t.fwHolds
    requires t.drivers[i].job == Acquire && Busy(t.gssr, t.drivers[i].mask)
    ensures var u, d := Solo(t, i, WAY_IN + WAY_BACK), t.drivers[i];
            && Quiet(t, u, i) && u.gssr == t.gssr
            && u.drivers[i] == d.(phase := Smbi, snap := t.gssr, retry := true)
  {
    WayIn(t, i, WAY_IN);
    SoloMore(t, i, WAY_IN, WAY_BACK);
    TurnedAway(Solo(t, i, WAY_IN), i);
  }

  // A driver asks for the resources of `mask` while both semaphores are free.
  lemma Acquires(s: State, i: nat, mask: Bits)
    requires i < |s.drivers| && s.drivers[i].phase == Idle && Mask(mask) && !s.smbi && !s.fwHolds
    requires Available(s.gssr, mask)
    ensures var u := Solo(Step(s, Want(i, mask)), i, WAY_IN + WAY_OUT);
            && Quiet(s, u, i) && u.drivers[i].phase == Idle
            && u.gssr == s.gssr + mask && u.drivers[i].held == s.drivers[i].held + mask
  {
    BusyIff(s.gssr, mask);
    CallSucceeds(Step(s, Want(i, mask)), i);
  }

  lemma PollsAgain(s: State, i: nat, mask: Bits)
    requires i < |s.drivers| && s.drivers[i].phase == Idle && Mask(mask) && !s.smbi && !s.fwHolds
    requires !Available(s.gssr, mask)
    ensures var u := Solo(Step(s, Want(i, mask)), i, WAY_IN + WAY_BACK);
            && Quiet(s, u, i) && u.drivers[i].phase == Smbi && u.drivers[i].retry
            && u.gssr == s.gssr && u.drivers[i].held == s.drivers[i].held
  {
    BusyIff(s.gssr, mask);
    CallTurnedAway(Step(s, Want(i, mask)), i);
  }

  // Some number of its own steps ends the call with the resources in hand exactly
  // when they were available.
  lemma AcquiresIff(s: State, i: nat, mask: Bits)
    requires i < |s.drivers| && s.drivers[i].phase == Idle && Mask(mask) && !s.smbi && !s.fwHolds
    ensures var t := Step(s, Want(i, mask));
            (exists n: nat :: var u := Solo(t, i, n);
               u.drivers[i].phase == Idle && mask <= u.gssr && mask <= u.drivers[i].held)
            <==> Available(s.gssr, mask)
  {
    var t := Step(s, Want(i, mask));
    if Available(s.gssr, mask) {
      Acquires(s, i, mask);
      assert Solo(t, i, WAY_IN + WAY_OUT).drivers[i].phase == Idle;
    } else {
      BusyIff(s.gssr, mask);
      forall n: nat ensures Solo(t, i, n).drivers[i].phase != Idle {
        StillWaits(t, i, n);
      }
    }
  }

  // A driver gives back resources it holds.
  lemma Releases(s: State, i: nat, mask: Bits)
    requires i < |s.drivers| && s.drivers[i].phase == Idle && mask <= s.drivers[i].held && !s.smbi && !s.fwHolds
    ensures var u := Solo(Step(s, GiveUp(i, mask)), i, WAY_IN + WAY_OUT);
            && Quiet(s, u, i) && u.drivers[i].phase == Idle
            && (forall b :: b in u.gssr <==> b in s.gssr && b !in mask)
            && u.drivers[i].held == s.drivers[i].held - mask
  {
    CallSucceeds(Step(s, GiveUp(i, mask)), i);
  }

  // Acquiring and giving back restores GSSR.
  lemma AcquireRelease(s: State, i: nat, mask: Bits)
    requires i < |s.drivers| && s.drivers[i].phase == Idle && Mask(mask) && !s.smbi && !s.fwHolds
    requires Available(s.gssr, mask)
    ensures var u := Solo(Step(s, Want(i, mask)), i, WAY_IN + WAY_OUT);
            mask <= u.drivers[i].held && Solo(Step(u, GiveUp(i, mask)), i, WAY_IN + WAY_OUT).gssr == s.gssr
  {
    Acquires(s, i, mask);
    Releases(Solo(Step(s, Want(i, mask)), i, WAY_IN + WAY_OUT), i, mask);
  }

  // In every run: a driver on its way out of a call that is not starting over has
  // what it acquired, set in GSSR, or no longer has what it released.
  lemma CallsSettle(drivers: nat, schedule: seq<Action>, i: nat)
    requires Harmless(drivers, schedule) && i < drivers
    requires var d := Run(drivers, schedule).drivers[i]; (d.phase == RelRead || d.phase == RelWrite) && !d.retry
    ensures var s := Run(drivers, schedule);
            var d := s.drivers[i];
            && (d.job == Acquire ==> d.mask <= d.held && d.mask <= s.gssr)
            && (d.job == Release ==> d.mask !! d.held && d.mask !! s.gssr)
  {
    RunInv(drivers, schedule);
    var s := Run(drivers, schedule);
    assert DriverOk(s, s.drivers[i]);
  }

  // A driver that tries again has found its resources taken in this call.
  predicate HasLooked(d: Driver) {
    d.phase != Idle && d.retry ==> d.job == Acquire && Busy(d.snap, d.mask)
  }

  lemma LookedGo(s: State, i: nat)
    requires i < |s.drivers| && HasLooked(s.drivers[i])
    ensures HasLooked(DriverStep(s, i).drivers[i])
  {
  }

  lemma LookedStep(s: State, a: Action, i: nat)
    requires i < |s.drivers| && HasLooked(s.drivers[i])
    ensures HasLooked(Step(s, a).drivers[i])
  {
    if a == Go(i) {
      LookedGo(s, i);
    } else if a.Go? {
      assert Step(s, a).drivers[i] == s.drivers[i];
    }
  }

  // In every run, whatever its timeouts: an acquisition expires only after it has seen a
  // bit of its resources set, and then clears at least one.
  lemma {:induction false} ExpiresOverTaken(drivers: nat, schedule: seq<Action>, i: nat)
    requires i < drivers
    ensures var d := Run(drivers, schedule).drivers[i];
            HasLooked(d) && (d.phase == Smbi && d.retry ==> !Available(d.snap, d.mask))
    decreases |schedule|
  {
    if schedule != [] {
      var before := schedule[..|schedule| - 1];
      ExpiresOverTaken(drivers, before, i);
      LookedStep(Run(drivers, before), schedule[|schedule| - 1], i);
    }
    var d := Run(drivers, schedule).drivers[i];
    BusyIff(d.snap, d.mask);
  }

  // ----- the firmware

  // The firmware takes its semaphore, does its job and gives the semaphore back.
  function FirmwareCall(s: State, job: Job, mask: Bits): State {
    Step(Step(Step(Step(s, FwWant(job, mask)), FwGo), FwGo), FwGo)
  }

  // It gets the firmware bits of its resources exactly when these are available.
  lemma FirmwareAcquires(s: State, mask: Bits)
    requires s.fw.phase == FwIdle && !s.swesmbi && Mask(mask) && mask != {}
    ensures var t, open := FirmwareCall(s, Acquire, mask), Available(s.gssr, mask);
            && t.gssr == (if open then s.gssr + FirmwareBits(mask) else s.gssr)
            && t.fw.held == (if open then s.fw.held + mask else s.fw.held)
            && (open ==> t.fw.phase == FwIdle && !t.fwHolds)
  {
    BusyIff(s.gssr, mask);
  }

  lemma FirmwareReleases(s: State, mask: Bits)
    requires s.fw.phase == FwIdle && !s.swesmbi && Mask(mask) && mask <= s.fw.held
    ensures var t := FirmwareCall(s, Release, mask);
            && t.gssr == s.gssr - FirmwareBits(mask) && t.fw.held == s.fw.held - mask
            && t.fw.phase == FwIdle && !t.fwHolds
  {
  }
}
