/** The clock object of driver/PTP.c. Every method updates the fields step by step, as the source
    does, and is proved to do what the step function of PtpModel says. */
module PtpClock {
  import opened CInt
  import opened WakeUp
  import opened PtpModel
  import PtpSafety

  class ClockPtp {
    var started: bool
    var frameSize: U32
    var samplingRate: U32
    var servo: Servo
    var wake: Wake
    var times: Times
    var master: Master
    var config: Config
    var watchdog: Watchdog
    var counter: Counter

    ghost function State(): Clock
      reads this
    {
      Clock(started, frameSize, samplingRate, servo, wake, times, master, config, watchdog, counter)
    }

    /** The invariant of every reachable clock: it holds after construction and every public method keeps
        it. */
    ghost predicate Valid()
      reads this
    {
      PtpSafety.ClockInv(State())
    }

    constructor ()
      ensures State() == Initial() && Valid()
    {
      var base := NominalPeriod(64, 48000);
      started, frameSize, samplingRate := false, 64, 48000;
      servo := Servo(PTP_LOCK_HYSTERESIS, 0, 0, base, base);
      wake := Wake(0, 0);
      times := Times(0, 0, 0, 0, 0, 0, 0);
      master := Master(0, 0, 0, 0);
      config := Config(0, 0, 0, 0);
      watchdog := Watchdog(0, 0);
      counter := Counter(0, 0);
    }

    method GetLockStatus() returns (s: LockStatus)
      ensures s == Locked <==> servo.ptpLock == 0 && servo.ticLock == 0
      ensures s == Unlocked <==> servo.ptpLock != 0
      ensures s == Status(servo)
    {
      if servo.ptpLock != 0 { return Unlocked; }
      if servo.ticLock != 0 { return Locking; }
      return Locked;
    }

    method ResetPTPLock()
      modifies `servo
      ensures servo == ResetServo(old(servo))
    {
      servo := servo.(ptpLock := PTP_LOCK_HYSTERESIS);
      servo := servo.(igr := 0);
      servo := servo.(ticLock := TIC_LOCK_HYSTERESIS);
    }

    method ResetPTPMaster()
      modifies `master
      ensures master == Master(0, 0, 0, 0)
    {
      master := Master(0, 0, 0, 0);
    }

    method ComputeNextAbsoluteTime(n: U32)
      modifies `wake
      ensures wake == Advance(old(wake), servo.currentPeriod, n)
    {
      AddToWake(servo.currentPeriod / U * n, servo.currentPeriod % U * n);
    }

    method AddToWake(units: nat, ps: nat)
      modifies `wake
      ensures wake == Shift(old(wake), units, ps)
    {
      var next := W64(wake.next + W64(units));
      var frac := W64(wake.frac + W64(ps));
      if frac > U {
        var epsilon := W32(frac) / U;
        frac := frac - U * epsilon;
        next := W64(next + epsilon);
      }
      wake := Wake(next, frac);
    }

    method DeltaTicFrame(origin: U64) returns (delta: int)
      requires samplingRate > 0 && frameSize > 0
      ensures delta == RawDelta(State(), origin)
    {
      var a := W64(origin * samplingRate) / 10000 % frameSize;
      var fraction := a * 10000 / samplingRate;
      delta := I32(times.t2 - fraction - times.lastRtxAtT2);
    }

    method FoldDelta(delta: int) returns (folded: int)
      ensures folded == Fold(delta, servo.basePeriod)
    {
      folded := delta;
      var mid := I32(servo.basePeriod / (U * 2));
      if folded > mid {
        folded := I32(folded - I32(servo.basePeriod / U));
      } else if folded < -mid {
        folded := I32(folded + I32(servo.basePeriod / U));
      }
    }

    /** The branch of ProcessT1 taken when the lock counter reaches 1. */
    method PrimeWakeUp(origin: U64)
      requires samplingRate > 0 && frameSize > 0 && origin != times.t1
      modifies `servo, `wake
      ensures State() == Prime(old(State()), origin)
    {
      var delta := DeltaTicFrame(origin);
      delta := FoldDelta(delta);
      var period := RatioPeriod(servo.basePeriod, times.deltaT2, W64(origin - times.t1));
      RestartWakeUp(delta, period);
    }

    method RestartWakeUp(delta: int, period: U64)
      modifies `servo, `wake
      ensures State() == PrimeWith(old(State()), delta, period)
    {
      servo := servo.(currentPeriod := period);
      wake := Wake(W64(times.lastRtxAtT2 + delta + W64(5 * period) / U), 0);
    }

    /** The branch of ProcessT1 taken while the lock counter is 0. */
    method CorrectPeriod(delta: int)
      modifies `servo
      ensures servo == Correct(old(servo), delta)
    {
      servo := servo.(currentPeriod := servo.basePeriod);
      var mid := I32(servo.basePeriod / (U * 2));
      if delta > 3 * mid || delta < -3 * mid {
        return;
      }
      var folded := FoldDelta(delta);
      var proportional := I64(folded * servo.basePeriod);
      proportional := TruncDiv(proportional, 5_000_000);
      var igr := TruncDiv((servo.igr + proportional) * 95, 100);
      servo := servo.(igr := Max(Min(igr, 4_000_000), -4_000_000));
      var adjust := TruncDiv(servo.igr, 10);
      adjust := Max(Min(adjust, 4_000_000), -4_000_000);
      servo := servo.(currentPeriod := W64(servo.currentPeriod + adjust * 1000));
      if Abs(adjust) < 800_000 && servo.ticLock > 0 {
        servo := servo.(ticLock := servo.ticLock - 1);
      } else if Abs(adjust) > 1_000_000 {
        servo := servo.(ticLock := TIC_LOCK_HYSTERESIS);
      }
    }

    method ProcessTimestamp(origin: U64)
      requires samplingRate > 0 && frameSize > 0
      modifies `servo, `wake, `times
      ensures State() == ProcessT1(old(State()), origin)
    {
      if origin == times.t1 {
        return;
      }
      if servo.ptpLock > 0 {
        servo := servo.(ptpLock := servo.ptpLock - 1);
        if servo.ptpLock == 1 {
          PrimeWakeUp(origin);
        }
      }
      assert State() == CountDown(old(State()), origin);
      if servo.ptpLock == 0 {
        var delta := DeltaTicFrame(origin);
        times := times.(offset := I64(times.t2 - origin));
        CorrectPeriod(delta);
      }
      times := times.(t1 := origin);
    }

    method ProcessAnnounce(id: U64, gmid: U64, priority: Byte, dom: Byte, now: U64)
      modifies `servo, `master, `config
      ensures State() == if started then AnnounceStep(old(State()), id, gmid, priority, dom, now)
                         else old(State())
      ensures old(Valid()) ==> Valid()
    {
      if Valid() { PtpSafety.StepKeeps(State(), Announce(id, gmid, priority, dom, now)); }
      if !started {
        return;
      }
      if config.changed != config.seen {
        config := config.(seen := config.changed);
        ResetPTPLock();
        ResetPTPMaster();
      }
      if id == master.clockId && dom != config.domain {
        ResetPTPLock();
        ResetPTPMaster();
      }
      if dom == config.domain {
        var time := now / 100;
        var elect := false;
        if master.clockId == 0 { elect := true; }
        if master.announceTime != 0 && W64(time - master.announceTime) > ANNOUNCE_TIMEOUT { elect := true; }
        if elect {
          ResetPTPLock();
          ResetPTPMaster();
          master := master.(clockId := id);
        }
        if id == master.clockId {
          master := master.(priority := priority, gmid := gmid, announceTime := time);
        }
      }
    }

    method ProcessSync(id: U64, seqId: U16, twoStep: bool, origin: U64, now: U64)
      requires samplingRate > 0 && frameSize > 0
      modifies `servo, `wake, `times
      ensures State() == if started then SyncStep(old(State()), id, seqId, twoStep, origin, now)
                         else old(State())
      ensures old(Valid()) ==> Valid()
    {
      if Valid() { PtpSafety.StepKeeps(State(), Sync(id, seqId, twoStep, origin, now)); }
      if !started || id != master.clockId {
        return;
      }
      var arrival := now / NS_PER_UNIT;
      if W16(seqId - times.lastSyncSeq) > PTP_LOCK_HYSTERESIS {
        times := times.(deltaT2 := 0);
        ResetPTPLock();
      } else {
        times := times.(deltaT2 := W64(arrival - times.t2));
        times := times.(t2 := arrival, lastRtxAtT2 := times.lastRtx);
        if !twoStep {
          ProcessTimestamp(origin);
        }
      }
      times := times.(lastSyncSeq := seqId);
    }

    method ProcessFollowUp(id: U64, seqId: U16, origin: U64)
      requires samplingRate > 0 && frameSize > 0
      modifies `servo, `wake, `times
      ensures State() == if started then FollowUpStep(old(State()), id, seqId, origin) else old(State())
      ensures old(Valid()) ==> Valid()
    {
      if Valid() { PtpSafety.StepKeeps(State(), FollowUp(id, seqId, origin)); }
      if !started || id != master.clockId {
        return;
      }
      if seqId == times.lastSyncSeq {
        ProcessTimestamp(origin);
      }
    }

    method CountFrames(time: U64) returns (count: U64)
      requires frameSize > 0
      ensures count == FrameCount(State(), time)
    {
      var x := W64(W64(time - times.offset) * (samplingRate / 100)) / 100;
      var q, r := x / frameSize, x % frameSize;
      if r < W32(4 * samplingRate) / 44100 {
        count := W64(q + 1);
      } else if r > W32(frameSize - W32(4 * samplingRate) / 44100) {
        count := W64(q + 1 + 1);
      } else {
        count := W64(counter.lastCount + 1);
      }
    }

    method LinkAndWatchdog(time: U64, linkUp: bool)
      modifies `servo, `watchdog
      ensures State() == CheckWatchdog(CheckLink(old(State()), linkUp), time)
    {
      var status := GetLockStatus();
      if !linkUp && status != Unlocked {
        ResetPTPLock();
      }
      if W64(time - watchdog.time) >= WATCHDOG_ELAPSE {
        status := GetLockStatus();
        if watchdog.seqId == times.lastSyncSeq && status != Unlocked {
          ResetPTPLock();
        }
        watchdog := Watchdog(time, times.lastSyncSeq);
      }
    }

    method LateDetection(time: U64)
      modifies `wake
      ensures State() == CheckLate(old(State()), time)
    {
      if wake.next <= time {
        var status := GetLockStatus();
        if time - wake.next >= servo.currentPeriod / 2 / U && status != Locked {
          wake := wake.(next := W64(time + servo.basePeriod / U));
        }
      }
    }

    /** timerProcess: returns the next wake-up in nanoseconds. */
    method TimerProcess(now: U64, later: U64, linkUp: bool) returns (next: U64)
      requires frameSize > 0
      modifies `servo, `wake, `times, `watchdog, `counter
      ensures State() == if started then TickStep(old(State()), now, later, linkUp) else old(State())
      ensures started ==> next == W64(wake.next * NS_PER_UNIT)
      ensures old(Valid()) ==> Valid()
    {
      ghost var was := State();
      next := 0;
      if !started {
        return;
      }
      next := RunTick(now, later, linkUp);
      if old(Valid()) {
        PtpSafety.StepKeeps(was, Tick(now, later, linkUp));
      }
    }

    method RunTick(now: U64, later: U64, linkUp: bool) returns (next: U64)
      requires frameSize > 0
      modifies `servo, `wake, `times, `watchdog, `counter
      ensures State() == TickStep(old(State()), now, later, linkUp) && next == W64(wake.next * NS_PER_UNIT)
    {
      var time := now / NS_PER_UNIT;
      TakeTick(time);
      LinkAndWatchdog(time, linkUp);
      LateDetection(later / NS_PER_UNIT);
      next := W64(wake.next * NS_PER_UNIT);
    }

    method TakeTick(time: U64)
      requires frameSize > 0
      modifies `wake, `times, `counter
      ensures State() == CountTick(old(State()), time)
    {
      var count := CountFrames(time);
      times := times.(lastRtx := time);
      ComputeNextAbsoluteTime(1);
      counter := Counter(count, W64((count - 1) * frameSize));
    }

    method SetNextAbsoluteTime(time: U64)
      modifies `wake
      ensures wake == old(wake).(next := time / NS_PER_UNIT)
      ensures old(Valid()) ==> Valid()
    {
      if Valid() { PtpSafety.StepKeeps(State(), SetNext(time)); }
      wake := wake.(next := time / NS_PER_UNIT);
    }

    method StartTimer(frames: U32, rate: U32)
      requires Defined(frames, rate)
      modifies `servo, `started, `frameSize, `samplingRate
      ensures State() == StartStep(old(State()), frames, rate)
      ensures old(Valid()) ==> Valid()
    {
      StopTimer();
      frameSize, samplingRate, started := frames, rate, true;
      var base := NominalPeriod(frames, rate);
      servo := servo.(basePeriod := base, currentPeriod := base);
      ResetPTPLock();
    }

    method StopTimer()
      modifies `servo, `started
      ensures State() == StopStep(old(State()))
      ensures old(Valid()) ==> Valid()
    {
      if Valid() { PtpSafety.StepKeeps(State(), Stop); }
      started := false;
      ResetPTPLock();
    }

    method SetPTPConfig(dom: Byte, dscp: Byte)
      modifies `config
      ensures State() == ConfigStep(old(State()), dom, dscp)
      ensures old(Valid()) ==> Valid()
    {
      if Valid() { PtpSafety.StepKeeps(State(), SetConfig(dom, dscp)); }
      if config.domain != dom || config.dscp != dscp {
        config := config.(domain := dom, dscp := dscp);
        config := config.(changed := W32(config.changed + 1));
      }
    }
  }
}
