/** What every run of the PTP clock keeps: integrator and period bounds, honest lock reports,
    one-way status changes, and frame-aligned sample counts. */
module PtpSafety {
  import opened CInt
  import opened WakeUp
  import opened PtpModel
  import Arith

  // -- The bounds of the leaky integrator

  /** Largest proportional term a folded phase error can produce. */
  function PropMax(base: nat): nat { base / (2 * U) * base / 5_000_000 }

  function IgrBound(base: nat): nat { Min(IGR_LIMIT, 19 * PropMax(base)) }

  function PeriodBound(base: nat): nat { Min(400_000_000, 1900 * PropMax(base)) }

  /** The proportional term is computed in 64 bits; this holds up to about 43 seconds. Beyond it the
      product wraps, and the clamp of the integrator alone gives the bounds. */
  predicate NoOverflow(base: nat) { base / (2 * U) * base < TWO63 }

  lemma FoldWithinHalfPeriod(delta: int, base: nat)
    requires DefinedBase(base)
    requires !OutOfRange(delta, base)
    ensures Abs(Fold(delta, base)) <= base / (2 * U)
  {
    var mid, whole := base / (2 * U), base / U;
    assert whole == 2 * mid || whole == 2 * mid + 1;
    assert MidPeriod(base) == mid && I32(whole) == whole;
  }

  lemma TruncDivBound(a: int, m: nat, d: int)
    requires d > 0 && Abs(a) <= m
    ensures Abs(TruncDiv(a, d)) <= m / d
  {
    Arith.DivMono(Abs(a), m, d);
    Arith.DivAtMost(Abs(a), d);
  }

  lemma ProductBound(delta: int, mid: nat, base: nat)
    requires Abs(delta) <= mid
    ensures Abs(delta * base) <= mid * base
  {
    Arith.MulMono(delta, mid, base);
    Arith.MulMono(0 - mid, delta, base);
    assert (0 - mid) * base == -(mid * base);
  }

  lemma ProportionalBound(delta: int, base: nat)
    requires Abs(delta) <= base / (2 * U) && NoOverflow(base)
    ensures Abs(Proportional(delta, base)) <= PropMax(base)
  {
    var mid := base / (2 * U);
    ProductBound(delta, mid, base);
    assert I64(delta * base) == delta * base;
    TruncDivBound(delta * base, mid * base, 5_000_000);
  }

  /** (19 m + m) * 95 / 100 is 19 m again: the leak absorbs the largest input. */
  lemma IgrStaysBounded(igr: int, proportional: int, m: nat)
    requires Abs(igr) <= Min(IGR_LIMIT, 19 * m) && Abs(proportional) <= m
    ensures Abs(NextIgr(igr, proportional)) <= Min(IGR_LIMIT, 19 * m)
  {}

  lemma PeriodStaysPositive(base: nat)
    requires DefinedBase(base)
    ensures PeriodBound(base) < base
  {
    var mid := base / (2 * U);
    if base <= 2 * U * 2 {
      assert mid <= 2;
      Arith.MulMono(mid, 2, base);
      assert mid * base <= 2 * base;
      assert PropMax(base) <= 160;
      if mid == 0 {
        assert mid * base == 0;
      }
    }
  }

  lemma AdjustBounds(igr: int, base: nat)
    requires DefinedBase(base) && Abs(igr) <= IgrBound(base)
    ensures Abs(PhaseAdjust(igr)) <= 400_000
    ensures Abs(PhaseAdjust(igr) * 1000) <= PeriodBound(base)
  {
    var m := PropMax(base);
    assert Abs(TruncDiv(igr, 10)) * 10 <= Abs(igr);
  }

  // -- The invariant of every reachable clock

  predicate ServoInv(v: Servo)
  {
    && DefinedBase(v.basePeriod)
    && v.ptpLock <= PTP_LOCK_HYSTERESIS
    && v.ticLock <= TIC_LOCK_HYSTERESIS
    && (v.ptpLock > 0 ==> v.igr == 0)
    && Abs(v.igr) <= IgrBound(v.basePeriod)
    && (v.ptpLock == 0 ==> Abs(v.currentPeriod - v.basePeriod) <= PeriodBound(v.basePeriod))
  }

  predicate ClockInv(c: Clock)
  {
    && Defined(c.frameSize, c.samplingRate)
    && c.servo.basePeriod == NominalPeriod(c.frameSize, c.samplingRate)
    && ServoInv(c.servo)
    && (c.started && c.servo.ptpLock > 0 ==> c.servo.ticLock == TIC_LOCK_HYSTERESIS)
    && (!c.started ==> c.servo.ptpLock == PTP_LOCK_HYSTERESIS)
  }

  /** Timestamps still missing before LOCKED can be reported. */
  function Remaining(v: Servo): nat
  {
    if v.ptpLock > 0 then v.ptpLock + TIC_LOCK_HYSTERESIS - 1 else v.ticLock
  }

  lemma CorrectKeeps(v: Servo, delta: int)
    requires DefinedBase(v.basePeriod) && v.ptpLock == 0 && v.ticLock <= TIC_LOCK_HYSTERESIS
    requires Abs(v.igr) <= IgrBound(v.basePeriod)
    ensures ServoInv(Correct(v, delta))
    ensures Correct(v, delta).ptpLock == 0 && Correct(v, delta).basePeriod == v.basePeriod
    ensures Correct(v, delta).ticLock ==
            if OutOfRange(delta, v.basePeriod) || v.ticLock == 0 then v.ticLock else v.ticLock - 1
  {
    if !OutOfRange(delta, v.basePeriod) {
      InRangeIgr(v.igr, delta, v.basePeriod);
      ApplyIgr(v, NextIgr(v.igr, Proportional(Fold(delta, v.basePeriod), v.basePeriod)));
    }
  }

  lemma InRangeIgr(igr: int, delta: int, base: nat)
    requires DefinedBase(base) && Abs(igr) <= IgrBound(base) && !OutOfRange(delta, base)
    ensures Abs(NextIgr(igr, Proportional(Fold(delta, base), base))) <= IgrBound(base)
  {
    if NoOverflow(base) {
      FoldWithinHalfPeriod(delta, base);
      ProportionalBound(Fold(delta, base), base);
      IgrStaysBounded(igr, Proportional(Fold(delta, base), base), PropMax(base));
    } else {
      assert PropMax(base) >= IGR_LIMIT;
    }
  }

  lemma ApplyIgr(v: Servo, igr: int)
    requires DefinedBase(v.basePeriod) && v.ptpLock == 0 && v.ticLock <= TIC_LOCK_HYSTERESIS
    requires Abs(igr) <= IgrBound(v.basePeriod)
    ensures var adjust := PhaseAdjust(igr);
            && NextTic(v.ticLock, adjust) == Max(v.ticLock - 1, 0)
            && ServoInv(v.(igr := igr, currentPeriod := W64(v.basePeriod + adjust * 1000),
                           ticLock := NextTic(v.ticLock, adjust)))
  {
    AdjustBounds(igr, v.basePeriod);
    PeriodStaysPositive(v.basePeriod);
    PeriodClose(v.basePeriod, PhaseAdjust(igr) * 1000, PeriodBound(v.basePeriod));
    TicGoesDown(v.ticLock, PhaseAdjust(igr));
  }

  lemma PeriodClose(base: nat, shift: int, bound: nat)
    requires base < TWO63 && Abs(shift) <= bound < base
    ensures Abs(W64(base + shift) - base) <= bound
  {}

  lemma TicGoesDown(tic: nat, adjust: int)
    requires Abs(adjust) <= 400_000
    ensures NextTic(tic, adjust) == Max(tic - 1, 0)
  {}

  lemma ProcessT1Keeps(c: Clock, t1: U64)
    requires ClockInv(c) && c.started
    ensures ClockInv(ProcessT1(c, t1)) && ProcessT1(c, t1).started
    ensures ProcessT1(c, t1).master == c.master
  {
    if t1 != c.times.t1 {
      var c1 := CountDown(c, t1);
      if c1.servo.ptpLock == 0 {
        CorrectKeeps(c1.servo, RawDelta(c1, t1));
      }
    }
  }

  /** An accepted timestamp takes at most one off the distance to LOCKED; one in range takes
      exactly one. */
  lemma ProcessT1Progress(c: Clock, t1: U64)
    requires ClockInv(c) && c.started && t1 != c.times.t1
    ensures var v, v' := c.servo, ProcessT1(c, t1).servo;
            && v'.ptpLock == Max(v.ptpLock - 1, 0)
            && Remaining(v') >= Remaining(v) - 1
            && (v.ptpLock > 1 || !OutOfRange(RawDelta(c, t1), v.basePeriod) ==>
                  Remaining(v') == Max(Remaining(v) - 1, 0))
  {
    var c1 := CountDown(c, t1);
    assert RawDelta(c1, t1) == RawDelta(c, t1);
    if c1.servo.ptpLock == 0 {
      CorrectKeeps(c1.servo, RawDelta(c1, t1));
    }
  }

  /** Announces, ticks and settings leave the servo alone or reset it, and any change of the
      elected identity comes with a reset in the same step. */
  predicate QuietOrReset(c: Clock, c': Clock)
  {
    && c'.frameSize == c.frameSize && c'.samplingRate == c.samplingRate && c'.started == c.started
    && (c'.servo == c.servo || c'.servo == ResetServo(c.servo))
    && (c'.master.clockId != c.master.clockId ==> c'.servo == ResetServo(c.servo))
  }

  lemma AnnounceEffect(c: Clock, id: U64, gmid: U64, priority: Byte, dom: Byte, now: U64)
    ensures QuietOrReset(c, AnnounceStep(c, id, gmid, priority, dom, now))
  {}

  lemma TickEffect(c: Clock, now: U64, later: U64, linkUp: bool)
    requires c.frameSize > 0
    ensures QuietOrReset(c, TickStep(c, now, later, linkUp))
  {}

  predicate IsQuiet(e: Event) { e.Announce? || e.Tick? || e.SetNext? || e.SetConfig? }

  lemma QuietEffect(c: Clock, e: Event)
    requires c.samplingRate > 0 && c.frameSize > 0 && IsQuiet(e)
    ensures QuietOrReset(c, Step(c, e))
    ensures !c.started ==> Step(c, e).servo == c.servo
  {
    match e
    case Announce(id, gmid, priority, dom, now) =>
      if c.started { AnnounceEffect(c, id, gmid, priority, dom, now); }
    case Tick(now, later, linkUp) =>
      if c.started { TickEffect(c, now, later, linkUp); }
    case _ =>
  }

  lemma SyncEffect(c: Clock, e: Event)
    requires c.samplingRate > 0 && c.frameSize > 0 && e.Sync? && c.started
    ensures var c' := Step(c, e);
            if AcceptsTimestamp(c, e)
            then var c1 := ProcessT1(AtSync(c, e.now), e.origin);
                 c' == c1.(times := c1.times.(lastSyncSeq := e.seqId))
            else QuietOrReset(c, c')
  {}

  lemma FollowUpEffect(c: Clock, e: Event)
    requires c.samplingRate > 0 && c.frameSize > 0 && e.FollowUp? && c.started
    ensures Step(c, e) == if AcceptsTimestamp(c, e) then ProcessT1(c, e.origin) else c
  {}

  lemma QuietKeeps(c: Clock, c': Clock)
    requires ClockInv(c) && QuietOrReset(c, c')
    requires !c.started ==> c'.servo == c.servo
    ensures ClockInv(c')
  {}

  lemma StepKeeps(c: Clock, e: Event)
    requires ClockInv(c) && Allowed(e)
    ensures ClockInv(Step(c, e))
  {
    if IsQuiet(e) {
      QuietEffect(c, e);
      QuietKeeps(c, Step(c, e));
    } else if e.Sync? && c.started {
      SyncEffect(c, e);
      if AcceptsTimestamp(c, e) {
        ProcessT1Keeps(AtSync(c, e.now), e.origin);
      } else {
        QuietKeeps(c, Step(c, e));
      }
    } else if e.FollowUp? && c.started {
      FollowUpEffect(c, e);
      ProcessT1Keeps(c, e.origin);
    }
  }

  ghost predicate AllAllowed(es: seq<Event>) { forall i :: 0 <= i < |es| ==> Allowed(es[i]) }

  /** The clock after a run of events from power-up. */
  ghost function Run(es: seq<Event>): (c: Clock)
    requires AllAllowed(es)
    ensures ClockInv(c)
  {
    if es == [] then Initial()
    else
      var c := Run(es[..|es| - 1]);
      StepKeeps(c, es[|es| - 1]);
      Step(c, es[|es| - 1])
  }

  /** Integrator and phase correction are bounded, and with the PTP lock acquired the corrected period is
      positive and close to the base period. */
  predicate InBounds(v: Servo)
  {
    && Abs(v.igr) <= IgrBound(v.basePeriod)
    && Abs(PhaseAdjust(v.igr)) <= 400_000
    && (v.ptpLock == 0 ==> 0 < v.currentPeriod && Abs(v.currentPeriod - v.basePeriod) <= PeriodBound(v.basePeriod))
  }

  lemma ServoBounds(v: Servo)
    requires ServoInv(v)
    ensures InBounds(v)
  {
    AdjustBounds(v.igr, v.basePeriod);
    PeriodStaysPositive(v.basePeriod);
  }

  /** In every reachable state. */
  lemma PeriodBoundedOnEveryRun(es: seq<Event>)
    requires AllAllowed(es)
    ensures InBounds(Run(es).servo)
  {
    ServoBounds(Run(es).servo);
  }

  /** The period of f samples at the given rate, in picoseconds, cut to an integer. */
  predicate PeriodOf(frames: nat, rate: nat, period: nat)
  {
    period * rate <= frames * 1_000_000_000_000 < period * rate + rate
  }

  lemma NominalIs(frames: nat, rate: nat)
    requires rate > 0
    ensures 0 <= NominalPeriod(frames, rate) && PeriodOf(frames, rate, NominalPeriod(frames, rate))
  {
    Arith.DivModOf(frames * 1_000_000_000_000, rate);
    Arith.DivAtMost(frames * 1_000_000_000_000, rate);
  }

  /** On every run the base period is the duration of a frame. */
  lemma BaseIsFrameDuration(es: seq<Event>)
    requires AllAllowed(es)
    ensures PeriodOf(Run(es).frameSize, Run(es).samplingRate, Run(es).servo.basePeriod)
  {
    NominalIs(Run(es).frameSize, Run(es).samplingRate);
  }

  /** A start takes over frame size and rate, runs on the duration of that frame and starts the lock over; a stop
      only starts the lock over. */
  lemma StartAndStop(c: Clock, frames: U32, rate: U32)
    requires Defined(frames, rate)
    ensures var c' := StartStep(c, frames, rate);
            var v := c'.servo;
            && PeriodOf(frames, rate, v.basePeriod) && v == Servo(4, 5, 0, v.basePeriod, v.basePeriod)
            && c' == c.(started := true, frameSize := frames, samplingRate := rate, servo := v)
    ensures StopStep(c) == c.(started := false, servo := c.servo.(ptpLock := 4, ticLock := 5, igr := 0))
  {
    NominalIs(frames, rate);
  }

  // -- LOCKED is earned

  /** The step hands a new timestamp of the elected master to the servo. */
  predicate AcceptsTimestamp(c: Clock, e: Event)
  {
    match e
    case Sync(id, seqId, twoStep, origin, _) =>
      && c.started && id == c.master.clockId && !twoStep && origin != c.times.t1
      && W16(seqId - c.times.lastSyncSeq) <= PTP_LOCK_HYSTERESIS
    case FollowUp(id, seqId, origin) =>
      c.started && id == c.master.clockId && seqId == c.times.lastSyncSeq && origin != c.times.t1
    case _ => false
  }

  /** Clock identities of the timestamps accepted since the lock counter last stood at its
      reset value. */
  ghost function Accepted(es: seq<Event>): seq<U64>
    requires AllAllowed(es)
  {
    if es == [] then []
    else
      var before, e := es[..|es| - 1], es[|es| - 1];
      if Run(es).servo.ptpLock == PTP_LOCK_HYSTERESIS then []
      else if AcceptsTimestamp(Run(before), e) then Accepted(before) + [e.id]
      else Accepted(before)
  }

  /** One step: unless the lock counter is at its reset value afterwards, the elected identity is
      unchanged and only an accepted timestamp brings LOCKED nearer, by one. */
  lemma StepTowardsLock(c: Clock, e: Event)
    requires ClockInv(c) && Allowed(e)
    ensures var c' := Step(c, e);
            c'.servo.ptpLock == PTP_LOCK_HYSTERESIS
            || (c'.master.clockId == c.master.clockId &&
                if AcceptsTimestamp(c, e) then Remaining(c'.servo) >= Remaining(c.servo) - 1
                else c'.servo.ptpLock == c.servo.ptpLock && c'.servo.ticLock == c.servo.ticLock)
  {
    if IsQuiet(e) {
      QuietEffect(c, e);
    } else if e.Sync? && c.started {
      SyncEffect(c, e);
      if AcceptsTimestamp(c, e) {
        ProcessT1Progress(AtSync(c, e.now), e.origin);
        ProcessT1Keeps(AtSync(c, e.now), e.origin);
      }
    } else if e.FollowUp? && c.started {
      FollowUpEffect(c, e);
      if AcceptsTimestamp(c, e) {
        ProcessT1Progress(c, e.origin);
        ProcessT1Keeps(c, e.origin);
      }
    }
  }

  lemma {:induction false} AcceptedCounts(es: seq<Event>)
    requires AllAllowed(es)
    ensures |Accepted(es)| + Remaining(Run(es).servo) >= 8 || Run(es).servo.ptpLock == PTP_LOCK_HYSTERESIS
    ensures forall x :: x in Accepted(es) ==> x == Run(es).master.clockId
  {
    if es != [] {
      var before, e := es[..|es| - 1], es[|es| - 1];
      AcceptedCounts(before);
      StepTowardsLock(Run(before), e);
      if Run(before).servo.ptpLock == PTP_LOCK_HYSTERESIS && AcceptsTimestamp(Run(before), e) {
        assert Remaining(Run(before).servo) == 8;
      }
    }
  }

  /** LOCKED is reported only after at least eight accepted timestamps, all of which carried the
      identity that is still elected. */
  lemma LockedNeedsEightTimestamps(es: seq<Event>)
    requires AllAllowed(es) && Status(Run(es).servo) == Locked
    ensures |Accepted(es)| >= 8
    ensures forall x :: x in Accepted(es) ==> x == Run(es).master.clockId
  {
    AcceptedCounts(es);
  }

  /** And eight are enough: feeding timestamps that are new and in range reaches LOCKED. */
  function FeedAll(c: Clock, ts: seq<U64>): Clock
    requires c.samplingRate > 0 && c.frameSize > 0
    decreases |ts|
  {
    if ts == [] then c else FeedAll(ProcessT1(c, ts[0]), ts[1..])
  }

  predicate AllInRange(c: Clock, ts: seq<U64>)
    requires c.samplingRate > 0 && c.frameSize > 0
    decreases |ts|
  {
    ts == [] ||
    (&& ts[0] != c.times.t1
     && (c.servo.ptpLock > 1 || !OutOfRange(RawDelta(c, ts[0]), c.servo.basePeriod))
     && AllInRange(ProcessT1(c, ts[0]), ts[1..]))
  }

  lemma {:induction false} EightTimestampsLock(c: Clock, ts: seq<U64>)
    requires ClockInv(c) && c.started && AllInRange(c, ts)
    ensures Remaining(FeedAll(c, ts).servo) == Max(Remaining(c.servo) - |ts|, 0)
    ensures |ts| >= 8 ==> Status(FeedAll(c, ts).servo) == Locked
    decreases |ts|
  {
    if ts != [] {
      ProcessT1Keeps(c, ts[0]);
      ProcessT1Progress(c, ts[0]);
      EightTimestampsLock(ProcessT1(c, ts[0]), ts[1..]);
    }
  }

  // -- Status changes

  predicate StatusMove(a: LockStatus, b: LockStatus)
  {
    a == b || (a == Unlocked && b == Locking) || (a == Locking && b == Locked) || b == Unlocked
  }

  /** The status climbs one rung at a time and falls only through a full reset; the re-arm
      branch of the lock detection is never taken. */
  lemma StatusOnlyClimbs(c: Clock, e: Event)
    requires ClockInv(c) && Allowed(e)
    ensures StatusMove(Status(c.servo), Status(Step(c, e).servo))
    ensures Status(c.servo) != Unlocked && Status(Step(c, e).servo) == Unlocked ==>
              Step(c, e).servo == ResetServo(Step(c, e).servo)
    ensures Step(c, e).servo.ptpLock == 0 && c.servo.ptpLock == 0 ==>
              Step(c, e).servo.ticLock <= c.servo.ticLock
  {
    if IsQuiet(e) {
      QuietEffect(c, e);
    } else if e.Sync? && c.started {
      SyncEffect(c, e);
      StatusAcrossT1(AtSync(c, e.now), e.origin);
    } else if e.FollowUp? && c.started {
      FollowUpEffect(c, e);
      StatusAcrossT1(c, e.origin);
    }
  }

  lemma StatusAcrossT1(c: Clock, t1: U64)
    requires ClockInv(c)
    ensures c.started ==>
              var v, v' := c.servo, ProcessT1(c, t1).servo;
              && StatusMove(Status(v), Status(v'))
              && (Status(v) != Unlocked ==> Status(v') != Unlocked && v'.ticLock <= v.ticLock)
  {
    if c.started && t1 != c.times.t1 {
      var c1 := CountDown(c, t1);
      if c1.servo.ptpLock == 0 {
        CorrectKeeps(c1.servo, RawDelta(c1, t1));
      }
    }
  }

  // -- What the servo does to a phase error

  /** Without phase error the integrator strictly decays, so the period returns to the base. */
  lemma ZeroErrorDecays(igr: int)
    requires Abs(igr) <= IGR_LIMIT && igr != 0
    ensures Abs(NextIgr(igr, 0)) < Abs(igr)
    ensures igr > 0 ==> NextIgr(igr, 0) >= 0
    ensures igr < 0 ==> NextIgr(igr, 0) <= 0
  {}

  /** The correction has the sign of the folded error: a positive error never shortens the period
      of a clock whose integrator is not negative, and lengthens it once error times period is at least
      55000000; and the other way round. */
  lemma CorrectionHasSignOfError(v: Servo, delta: int)
    requires DefinedBase(v.basePeriod) && v.ptpLock == 0 && v.ticLock <= TIC_LOCK_HYSTERESIS
    requires Abs(v.igr) <= IgrBound(v.basePeriod) && !OutOfRange(delta, v.basePeriod) && NoOverflow(v.basePeriod)
    ensures v.igr >= 0 && Fold(delta, v.basePeriod) >= 0 ==> Correct(v, delta).currentPeriod >= v.basePeriod
    ensures v.igr <= 0 && Fold(delta, v.basePeriod) <= 0 ==> Correct(v, delta).currentPeriod <= v.basePeriod
    ensures v.igr >= 0 && Fold(delta, v.basePeriod) * v.basePeriod >= 55_000_000 ==>
              Correct(v, delta).currentPeriod > v.basePeriod
    ensures v.igr <= 0 && Fold(delta, v.basePeriod) * v.basePeriod <= -55_000_000 ==>
              Correct(v, delta).currentPeriod < v.basePeriod
  {
    CorrectedPeriod(v, delta);
    FoldWithinHalfPeriod(delta, v.basePeriod);
    ProductSign(Fold(delta, v.basePeriod), v.basePeriod);
    SignsCarry(v.igr, Proportional(Fold(delta, v.basePeriod), v.basePeriod));
  }

  lemma CorrectedPeriod(v: Servo, delta: int)
    requires DefinedBase(v.basePeriod) && v.ptpLock == 0 && v.ticLock <= TIC_LOCK_HYSTERESIS
    requires Abs(v.igr) <= IgrBound(v.basePeriod) && !OutOfRange(delta, v.basePeriod)
    ensures Correct(v, delta).currentPeriod
            == v.basePeriod + PhaseAdjust(NextIgr(v.igr, Proportional(Fold(delta, v.basePeriod), v.basePeriod))) * 1000
  {
    var base := v.basePeriod;
    var igr := NextIgr(v.igr, Proportional(Fold(delta, base), base));
    InRangeIgr(v.igr, delta, base);
    AdjustBounds(igr, base);
    PeriodStaysPositive(base);
    ShiftedPeriod(base, PhaseAdjust(igr) * 1000, PeriodBound(base));
  }

  lemma ProductSign(folded: int, base: nat)
    requires Abs(folded) <= base / (2 * U) && NoOverflow(base)
    ensures folded >= 0 ==> Proportional(folded, base) >= 0
    ensures folded <= 0 ==> Proportional(folded, base) <= 0
    ensures folded * base >= 55_000_000 ==> Proportional(folded, base) >= 11
    ensures folded * base <= -55_000_000 ==> Proportional(folded, base) <= -11
  {
    var mid := base / (2 * U);
    ProductBound(folded, mid, base);
    assert I64(folded * base) == folded * base;
    if folded >= 0 {
      Arith.MulNonNeg(folded, base);
    } else {
      Arith.MulNonNeg(-folded, base);
      assert (-folded) * base == -(folded * base);
    }
  }

  lemma SignsCarry(igr: int, p: int)
    ensures igr >= 0 && p >= 0 ==> PhaseAdjust(NextIgr(igr, p)) >= 0
    ensures igr <= 0 && p <= 0 ==> PhaseAdjust(NextIgr(igr, p)) <= 0
    ensures igr >= 0 && p >= 11 ==> PhaseAdjust(NextIgr(igr, p)) >= 1
    ensures igr <= 0 && p <= -11 ==> PhaseAdjust(NextIgr(igr, p)) <= -1
  {}

  lemma ShiftedPeriod(base: nat, shift: int, bound: nat)
    requires base < TWO63 && Abs(shift) <= bound < base
    ensures W64(base + shift) == base + shift
  {}

  // -- The sample counter

  /** Once the PTP lock is held, the tick counts PTP time: at local time t2 + d the elapsed
      samples are those of master time t1 + d. */
  lemma OffsetFollowsMaster(c: Clock, t1: U64, d: nat)
    requires c.samplingRate > 0 && c.frameSize > 0 && t1 != c.times.t1
    requires ProcessT1(c, t1).servo.ptpLock == 0
    requires t1 + d < TWO64
    ensures PtpSamples(ProcessT1(c, t1), W64(c.times.t2 + d)) ==
            W64((t1 + d) * (c.samplingRate / 100)) / 100
  {
    OffsetTaken(c, t1);
    ModCancels(c.times.t2, t1, d);
    SamplesSince(ProcessT1(c, t1), W64(c.times.t2 + d), t1 + d);
  }

  lemma OffsetTaken(c: Clock, t1: U64)
    requires c.samplingRate > 0 && c.frameSize > 0 && t1 != c.times.t1
    ensures var c' := ProcessT1(c, t1);
            c'.samplingRate == c.samplingRate && (c'.servo.ptpLock == 0 ==> c'.times.offset == I64(c.times.t2 - t1))
  {}

  lemma SamplesSince(c: Clock, time: U64, t: nat)
    requires W64(time - c.times.offset) == t
    ensures PtpSamples(c, time) == W64(t * (c.samplingRate / 100)) / 100
  {}

  lemma ModCancels(t2: U64, t1: U64, d: nat)
    requires t1 + d < TWO64
    ensures W64(W64(t2 + d) - I64(t2 - t1)) == t1 + d
  {}

  /** The counter stands one frame before the count of the next tick. */
  predicate Aligned(c: Clock) { c.counter.lastCount * c.frameSize == c.counter.globalSac + c.frameSize }

  lemma AlignedIsMultiple(c: Clock)
    requires Aligned(c) && c.frameSize > 0
    ensures c.counter.globalSac % c.frameSize == 0
  {
    Arith.MulDist(c.counter.lastCount - 1, 1, c.frameSize);
    Arith.MultipleMod(c.counter.lastCount - 1, c.frameSize);
  }

  /** Each tick puts the sample counter on a frame boundary: the one PTP time points to, within
      the tolerance, or the one after the previous tick. */
  lemma TickSac(c: Clock, now: U64, later: U64, linkUp: bool)
    requires c.frameSize > 0
    requires c.counter.lastCount * c.frameSize + c.frameSize < TWO64
    ensures var c' := TickStep(c, now, later, linkUp);
            && Aligned(c')
            && (|| c'.counter.globalSac == c.counter.lastCount * c.frameSize
                || Abs(c'.counter.globalSac - PtpSamples(c, now / NS_PER_UNIT)) <= Tolerance(c.samplingRate))
  {
    var time := now / NS_PER_UNIT;
    SacOfCount(PtpSamples(c, time), c.frameSize, Tolerance(c.samplingRate), c.counter.lastCount);
    var c' := TickStep(c, now, later, linkUp);
    assert c'.counter.lastCount == FrameCount(c, time) && c'.frameSize == c.frameSize;
    assert c'.counter.globalSac == W64((FrameCount(c, time) - 1) * c.frameSize);
  }

  lemma SacOfCount(x: U64, f: U32, tol: nat, last: U64)
    requires f > 0 && x < TWO63 && last * f + f < TWO64
    ensures var count := CountAt(x, f, tol, last);
            var sac := W64((count - 1) * f);
            && count * f == sac + f
            && (sac == last * f || Abs(sac - x) <= tol)
  {
    Arith.DivModOf(x, f);
    SacInFrame(x, f, tol, last, x / f, x % f, x / f * f);
  }

  lemma SacInFrame(x: U64, f: U32, tol: nat, last: U64, n: int, r: int, start: int)
    requires f > 0 && x < TWO63 && last * f + f < TWO64
    requires n == x / f && r == x % f && start == n * f && x == start + r && 0 <= r < f
    ensures var count := CountAt(x, f, tol, last);
            var sac := W64((count - 1) * f);
            && count * f == sac + f
            && (sac == last * f || Abs(sac - x) <= tol)
  {
    if r < tol {
      Arith.DivAtMost(x, f);
      Arith.MulNonNeg(n, f);
      SacIs(n, f, start);
    } else if r > W32(f - tol) {
      Arith.DivAtMost(x, f);
      Arith.MulNonNeg(n, f);
      Arith.MulDist(n, 1, f);
      SacIs(n + 1, f, start + f);
    } else {
      Arith.MulNonNeg(last, f);
      SacIs(last, f, last * f);
    }
  }

  lemma SacIs(n: int, f: U32, sac: nat)
    requires f > 0 && n * f == sac && sac + f < TWO64
    ensures 0 <= n && W64(n + 1) == n + 1
    ensures W64((n + 1 - 1) * f) == sac && (n + 1) * f == sac + f
  {
    Arith.MulDist(n, 1, f);
    if n < 0 {
      Arith.MulMono(n, -1, f);
    } else {
      Arith.MulMono(1, f, n + 1);
    }
  }

  /** Alignment survives every event until the clock is reconfigured, for as long as the counter
      stays below its 64-bit end. */
  lemma StepKeepsAligned(c: Clock, e: Event)
    requires c.samplingRate > 0 && c.frameSize > 0 && Allowed(e) && !e.Start?
    requires Aligned(c) && c.counter.globalSac + 2 * c.frameSize < TWO64
    ensures Aligned(Step(c, e))
  {
    match e
    case Tick(now, later, linkUp) =>
      if c.started { TickSac(c, now, later, linkUp); }
    case Announce(id, gmid, priority, dom, now) =>
    case _ =>
  }
}
