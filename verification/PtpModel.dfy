/** State and steps of one PTP clock (TClock_PTP in driver/PTP.c), as values.
    The object in PtpClock.dfy is proved against these functions and PtpSafety.dfy proves what
    every run keeps. The kernel clock reading and the link state are inputs of the steps. */
module PtpModel {
  import opened CInt
  import opened WakeUp
  import Arith

  const PTP_LOCK_HYSTERESIS: int := 4
  const TIC_LOCK_HYSTERESIS: int := 5
  const WATCHDOG_ELAPSE: int := 20000            // [100 us]
  const ANNOUNCE_TIMEOUT: int := 50_000_000      // [100 ns]
  const NS_PER_UNIT: int := 100_000              // NS_2_REF_UNIT
  const IGR_LIMIT: int := 4_000_000

  datatype LockStatus = Unlocked | Locking | Locked

  /** The part of the clock that decides lock and period. */
  datatype Servo = Servo(ptpLock: nat, ticLock: nat, igr: int, basePeriod: U64, currentPeriod: U64)

  datatype Master = Master(clockId: U64, gmid: U64, announceTime: U64, priority: Byte)

  /** Master and local times of the last Sync, and the offset between the two clocks. */
  datatype Times = Times(t1: U64, t2: U64, deltaT2: U64, lastRtx: U64, lastRtxAtT2: U64, offset: int,
                         lastSyncSeq: U16)

  datatype Config = Config(domain: Byte, dscp: Byte, changed: U32, seen: U32)

  datatype Watchdog = Watchdog(time: U64, seqId: U16)

  datatype Counter = Counter(lastCount: U64, globalSac: U64)

  datatype Clock = Clock(
    started: bool, frameSize: U32, samplingRate: U32,
    servo: Servo, wake: Wake, times: Times, master: Master,
    config: Config, watchdog: Watchdog, counter: Counter)

  datatype Event =
    | Announce(id: U64, gmid: U64, priority: Byte, dom: Byte, now: U64)
    | Sync(id: U64, seqId: U16, twoStep: bool, origin: U64, now: U64)
    | FollowUp(id: U64, seqId: U16, origin: U64)
    | Tick(now: U64, later: U64, linkUp: bool)
    | SetNext(time: U64)
    | Start(frames: U32, rate: U32)
    | Stop
    | SetConfig(dom: Byte, cfgDscp: Byte)

  function NominalPeriod(frames: nat, rate: nat): nat
    requires rate > 0
  {
    frames * 1_000_000_000_000 / rate
  }

  /** Settings for which every C operation on them is defined: no division by zero in the start, the tick
      or the ratio test of ProcessT1, no signed overflow in the period or in three half periods. */
  predicate Defined(frames: nat, rate: nat)
  {
    && 0 < frames < TWO32 && 0 < rate < TWO32 && frames * 1_000_000_000_000 < TWO63
    && DefinedBase(NominalPeriod(frames, rate))
  }

  predicate DefinedBase(base: nat) { base % TWO32 != 0 && 3 * (base / (2 * U)) < TWO31 }

  /** Status of the two hysteresis counters. */
  function Status(v: Servo): LockStatus
  {
    if v.ptpLock != 0 then Unlocked else if v.ticLock != 0 then Locking else Locked
  }

  function ResetServo(v: Servo): Servo
  {
    v.(ptpLock := PTP_LOCK_HYSTERESIS, igr := 0, ticLock := TIC_LOCK_HYSTERESIS)
  }

  function ResetLock(c: Clock): Clock { c.(servo := ResetServo(c.servo)) }

  function ResetMaster(c: Clock): Clock { c.(master := Master(0, 0, 0, 0)) }

  // -- ProcessT1

  /** Time since the last frame boundary of the PTP time line, in units. */
  function FrameFraction(t1: U64, rate: nat, frames: nat): nat
    requires rate > 0 && frames > 0
  {
    W64(t1 * rate) / 10000 % frames * 10000 / rate
  }

  /** Distance between the last tick and the frame boundary. */
  function RawDelta(c: Clock, t1: U64): int
    requires c.samplingRate > 0 && c.frameSize > 0
  {
    I32(c.times.t2 - FrameFraction(t1, c.samplingRate, c.frameSize) - c.times.lastRtxAtT2)
  }

  function MidPeriod(base: nat): int { I32(base / (2 * U)) }

  function Fold(delta: int, base: nat): int
  {
    if delta > MidPeriod(base) then I32(delta - I32(base / U))
    else if delta < -MidPeriod(base) then I32(delta + I32(base / U))
    else delta
  }

  function Proportional(delta: int, base: nat): int
  {
    TruncDiv(I64(delta * base), 5_000_000)
  }

  function NextIgr(igr: int, proportional: int): int
  {
    Clamp(TruncDiv((igr + proportional) * 95, 100), -IGR_LIMIT, IGR_LIMIT)
  }

  function PhaseAdjust(igr: int): int
  {
    Clamp(TruncDiv(igr, 10), -4_000_000, 4_000_000)
  }

  function NextTic(tic: nat, adjust: int): nat
  {
    if Abs(adjust) < 800_000 && tic > 0 then tic - 1
    else if Abs(adjust) > 1_000_000 then TIC_LOCK_HYSTERESIS
    else tic
  }

  predicate OutOfRange(delta: int, base: nat)
  {
    delta > 3 * MidPeriod(base) || delta < -3 * MidPeriod(base)
  }

  /** One phase error through the leaky integrator. The period restarts from the base period. */
  function Correct(v: Servo, delta: int): Servo
  {
    if OutOfRange(delta, v.basePeriod) then v.(currentPeriod := v.basePeriod)
    else
      var igr := NextIgr(v.igr, Proportional(Fold(delta, v.basePeriod), v.basePeriod));
      var adjust := PhaseAdjust(igr);
      v.(igr := igr,
         currentPeriod := W64(v.basePeriod + adjust * 1000),
         ticLock := NextTic(v.ticLock, adjust))
  }

  /** Ratio of the last two local and master intervals, applied to the base period. */
  function RatioPeriod(base: U64, deltaT2: U64, deltaT1: U64): U64
    requires deltaT1 > 0
  {
    Arith.DivAtMost(W64(base * deltaT2), deltaT1);
    W64(base * deltaT2) / deltaT1
  }

  lemma DeltaPositive(a: U64, b: U64)
    requires a != b
    ensures W64(a - b) > 0
  {}

  /** The first wake-up computed from PTP time, one timestamp before the lock. */
  function Prime(c: Clock, t1: U64): Clock
    requires c.samplingRate > 0 && c.frameSize > 0 && t1 != c.times.t1
  {
    DeltaPositive(t1, c.times.t1);
    PrimeWith(c, Fold(RawDelta(c, t1), c.servo.basePeriod),
              RatioPeriod(c.servo.basePeriod, c.times.deltaT2, W64(t1 - c.times.t1)))
  }

  function PrimeWith(c: Clock, delta: int, period: U64): Clock
  {
    c.(servo := c.servo.(currentPeriod := period),
       wake := Wake(W64(c.times.lastRtxAtT2 + delta + W64(5 * period) / U), 0))
  }

  function CountDown(c: Clock, t1: U64): Clock
    requires c.samplingRate > 0 && c.frameSize > 0 && t1 != c.times.t1
  {
    if c.servo.ptpLock == 0 then c
    else
      var c1 := c.(servo := c.servo.(ptpLock := c.servo.ptpLock - 1));
      if c1.servo.ptpLock == 1 then Prime(c1, t1) else c1
  }

  function ProcessT1(c: Clock, t1: U64): Clock
    requires c.samplingRate > 0 && c.frameSize > 0
  {
    if t1 == c.times.t1 then c
    else
      var c1 := CountDown(c, t1);
      var c2 := if c1.servo.ptpLock == 0
                then c1.(times := c1.times.(offset := I64(c1.times.t2 - t1)), servo := Correct(c1.servo, RawDelta(c1, t1)))
                else c1;
      c2.(times := c2.times.(t1 := t1))
  }

  // -- Messages

  function AnnounceStep(c: Clock, id: U64, gmid: U64, priority: Byte, dom: Byte, now: U64): Clock
  {
    var c1 := if c.config.changed != c.config.seen
              then ResetMaster(ResetLock(c.(config := c.config.(seen := c.config.changed)))) else c;
    var c2 := if id == c1.master.clockId && dom != c1.config.domain
              then ResetMaster(ResetLock(c1)) else c1;
    if dom != c2.config.domain then c2
    else
      var c3 := if Elects(c2.master, now / 100)
                then ResetLock(c2).(master := Master(id, 0, 0, 0)) else c2;
      if id == c3.master.clockId then c3.(master := Master(id, gmid, now / 100, priority)) else c3
  }

  /** No master yet, or the elected one has been silent for too long. */
  predicate Elects(m: Master, time: U64)
  {
    m.clockId == 0 || (m.announceTime != 0 && W64(time - m.announceTime) > ANNOUNCE_TIMEOUT)
  }

  function SyncStep(c: Clock, id: U64, seqId: U16, twoStep: bool, origin: U64, now: U64): Clock
    requires c.samplingRate > 0 && c.frameSize > 0
  {
    if id != c.master.clockId then c
    else if W16(seqId - c.times.lastSyncSeq) > PTP_LOCK_HYSTERESIS then
      ResetLock(c).(times := c.times.(deltaT2 := 0, lastSyncSeq := seqId))
    else
      var c1 := AtSync(c, now);
      var c2 := if twoStep then c1 else ProcessT1(c1, origin);
      c2.(times := c2.times.(lastSyncSeq := seqId))
  }

  /** The clock as a Sync that arrives at local time now hands it to the servo. */
  function AtSync(c: Clock, now: U64): Clock
  {
    var t2 := now / NS_PER_UNIT;
    c.(times := c.times.(deltaT2 := W64(t2 - c.times.t2), t2 := t2, lastRtxAtT2 := c.times.lastRtx))
  }

  function FollowUpStep(c: Clock, id: U64, seqId: U16, origin: U64): Clock
    requires c.samplingRate > 0 && c.frameSize > 0
  {
    if id == c.master.clockId && seqId == c.times.lastSyncSeq then ProcessT1(c, origin) else c
  }

  // -- The tick

  /** Samples of PTP time elapsed at local time now (in units). */
  function PtpSamples(c: Clock, now: U64): U64
  {
    W64(W64(now - c.times.offset) * (c.samplingRate / 100)) / 100
  }

  function Tolerance(rate: U32): nat { W32(4 * rate) / 44100 }

  /** The frame count of a tick at sample x: that of PTP time when x is close to a frame
      boundary, else the previous count plus one. */
  function CountAt(x: U64, frames: U32, tolerance: nat, last: U64): U64
    requires frames > 0
  {
    if x % frames < tolerance then W64(x / frames + 1)
    else if x % frames > W32(frames - tolerance) then W64(x / frames + 2)
    else W64(last + 1)
  }

  function FrameCount(c: Clock, now: U64): U64
    requires c.frameSize > 0
  {
    CountAt(PtpSamples(c, now), c.frameSize, Tolerance(c.samplingRate), c.counter.lastCount)
  }

  predicate LinkLost(c: Clock, linkUp: bool) { !linkUp && Status(c.servo) != Unlocked }

  function CheckLink(c: Clock, linkUp: bool): Clock
  {
    if LinkLost(c, linkUp) then ResetLock(c) else c
  }

  function CheckWatchdog(c: Clock, time: U64): Clock
  {
    if W64(time - c.watchdog.time) < WATCHDOG_ELAPSE then c
    else
      var c1 := if c.watchdog.seqId == c.times.lastSyncSeq && Status(c.servo) != Unlocked then ResetLock(c) else c;
      c1.(watchdog := Watchdog(time, c.times.lastSyncSeq))
  }

  /** When the wake-up is more than half a period late and the clock is not locked, it restarts
      from the current time. */
  function CheckLate(c: Clock, time: U64): Clock
  {
    if c.wake.next <= time && time - c.wake.next >= c.servo.currentPeriod / 2 / U && Status(c.servo) != Locked
    then c.(wake := c.wake.(next := W64(time + c.servo.basePeriod / U)))
    else c
  }

  /** The tick itself: local time, next wake-up, frame and sample count. */
  function CountTick(c: Clock, time: U64): Clock
    requires c.frameSize > 0
  {
    var count := FrameCount(c, time);
    c.(times := c.times.(lastRtx := time),
       wake := Advance(c.wake, c.servo.currentPeriod, 1),
       counter := Counter(count, W64((count - 1) * c.frameSize)))
  }

  function TickStep(c: Clock, now: U64, later: U64, linkUp: bool): Clock
    requires c.frameSize > 0
  {
    var time := now / NS_PER_UNIT;
    CheckLate(CheckWatchdog(CheckLink(CountTick(c, time), linkUp), time), later / NS_PER_UNIT)
  }

  // -- Control

  function StartStep(c: Clock, frames: U32, rate: U32): Clock
    requires Defined(frames, rate)
  {
    var base := NominalPeriod(frames, rate);
    ResetLock(c.(started := true, frameSize := frames, samplingRate := rate,
                 servo := c.servo.(basePeriod := base, currentPeriod := base)))
  }

  function StopStep(c: Clock): Clock { ResetLock(c.(started := false)) }

  function ConfigStep(c: Clock, dom: Byte, dscp: Byte): Clock
  {
    if c.config.domain != dom || c.config.dscp != dscp
    then c.(config := Config(dom, dscp, W32(c.config.changed + 1), c.config.seen)) else c
  }

  predicate Allowed(e: Event) { e.Start? ==> Defined(e.frames, e.rate) }

  function Step(c: Clock, e: Event): Clock
    requires c.samplingRate > 0 && c.frameSize > 0 && Allowed(e)
  {
    match e
    case Start(frames, rate) => StartStep(c, frames, rate)
    case Stop => StopStep(c)
    case SetConfig(dom, dscp) => ConfigStep(c, dom, dscp)
    case SetNext(time) => c.(wake := c.wake.(next := time / NS_PER_UNIT))
    case Announce(id, gmid, priority, dom, now) =>
      if c.started then AnnounceStep(c, id, gmid, priority, dom, now) else c
    case Sync(id, seqId, twoStep, origin, now) =>
      if c.started then SyncStep(c, id, seqId, twoStep, origin, now) else c
    case FollowUp(id, seqId, origin) =>
      if c.started then FollowUpStep(c, id, seqId, origin) else c
    case Tick(now, later, linkUp) =>
      if c.started then TickStep(c, now, later, linkUp) else c
  }

  /** The state init_ptp leaves behind in a zeroed manager. */
  function Initial(): Clock
  {
    var base := NominalPeriod(64, 48000);
    Clock(false, 64, 48000, Servo(PTP_LOCK_HYSTERESIS, 0, 0, base, base), Wake(0, 0),
          Times(0, 0, 0, 0, 0, 0, 0), Master(0, 0, 0, 0), Config(0, 0, 0, 0), Watchdog(0, 0), Counter(0, 0))
  }
}
