/** What one timestamp does to the servo, in terms of the two clocks: where the last frame boundary of the
    master lies, how the error goes into the integrator, and how the integrator steers the period. */
module PtpServo {
  import opened CInt
  import opened WakeUp
  import opened PtpModel
  import opened PtpSafety
  import Arith

  // -- The phase error

  /** Master time t1 lies in sample a of frame n, and that sample begins ff units after the frame. */
  predicate Phase(t1: nat, rate: nat, frames: nat, n: int, a: int, ff: int)
  {
    && 0 <= n && 0 <= a < frames && 0 <= ff
    && 10000 * (n * frames + a) <= t1 * rate < 10000 * (n * frames + a + 1)
    && ff * rate <= 10000 * a < ff * rate + rate
  }

  lemma FractionOf(a: nat, rate: nat)
    requires rate > 0
    ensures 0 <= a * 10000 / rate && a * 10000 / rate * rate <= 10000 * a < a * 10000 / rate * rate + rate
  {
    Arith.DivModOf(a * 10000, rate);
    Arith.DivAtMost(a * 10000, rate);
  }

  lemma SampleOf(s: nat, frames: nat)
    requires frames > 0
    ensures 0 <= s / frames && 0 <= s % frames < frames && s / frames * frames + s % frames == s
  {
    Arith.DivModOf(s, frames);
    Arith.DivAtMost(s, frames);
  }

  lemma PhaseOf(t1: nat, x: nat, rate: nat, frames: nat) returns (n: int, a: int, ff: int)
    requires rate > 0 && frames > 0 && x == t1 * rate
    ensures ff == x / 10000 % frames * 10000 / rate && Phase(t1, rate, frames, n, a, ff)
  {
    var s := x / 10000;
    SampleOf(s, frames);
    n, a := s / frames, s % frames;
    FractionOf(a, rate);
    ff := a * 10000 / rate;
  }

  lemma SmallWord(x: nat)
    requires x < TWO64
    ensures W64(x) == x
  {}

  lemma FractionValue(t1: U64, x: nat, rate: nat, frames: nat, ff: int)
    requires rate > 0 && frames > 0 && x == t1 * rate && W64(x) == x && ff == x / 10000 % frames * 10000 / rate
    ensures FrameFraction(t1, rate, frames) == ff
  {}

  lemma FractionIs(t1: U64, rate: nat, frames: nat, x: nat) returns (n: int, a: int)
    requires rate > 0 && frames > 0 && x == t1 * rate < TWO64
    ensures Phase(t1, rate, frames, n, a, FrameFraction(t1, rate, frames))
  {
    var ff;
    n, a, ff := PhaseOf(t1, x, rate, frames);
    SmallWord(x);
    FractionValue(t1, x, rate, frames, ff);
  }

  /** folded is delta, moved by one period if it is more than half a period away from 0. */
  predicate Folded(delta: int, base: nat, folded: int)
  {
    && Abs(folded) <= base / (2 * U)
    && (if Abs(delta) <= base / (2 * U) then folded == delta
        else if delta > 0 then folded == delta - base / U else folded == delta + base / U)
  }

  lemma FoldIs(delta: int, base: nat)
    requires DefinedBase(base) && Abs(delta) <= 3 * (base / (2 * U))
    ensures Folded(delta, base, Fold(delta, base)) && !OutOfRange(delta, base)
  {
    FoldWithinHalfPeriod(delta, base);
  }

  // -- Integrator and period

  /** The new integrator is 95 percent of the old one plus error times period, the product scaled down by
      5000000, up to rounding and cut at the limit. */
  predicate Integrates(igr: int, product: int, igr': int)
  {
    var want := 95 * (5_000_000 * igr + product);
    && -IGR_LIMIT <= igr' <= IGR_LIMIT
    && (igr' > -IGR_LIMIT ==> 500_000_000 * igr' < want + 975_000_000)
    && (igr' < IGR_LIMIT ==> want < 500_000_000 * igr' + 975_000_000)
  }

  /** The period differs from its base by a hundred times the integrator, up to rounding, and on its side. */
  predicate Steered(base: nat, igr: int, period: nat)
  {
    && Abs(10 * (period - base) - 1000 * igr) < 10_000
    && (igr >= 10 ==> period > base) && (igr <= -10 ==> period < base)
  }

  lemma TruncClose(a: int, d: int)
    requires d > 0
    ensures Abs(d * TruncDiv(a, d) - a) < d
  {
    Arith.DivModOf(Abs(a), d);
  }

  lemma IntegratorIs(igr: int, product: int)
    ensures Integrates(igr, product, NextIgr(igr, TruncDiv(product, 5_000_000)))
  {
    var p := TruncDiv(product, 5_000_000);
    TruncClose(product, 5_000_000);
    TruncClose((igr + p) * 95, 100);
  }

  lemma SteeredIs(v: Servo, igr: int)
    requires DefinedBase(v.basePeriod) && v.ptpLock == 0 && v.ticLock <= TIC_LOCK_HYSTERESIS
    requires Abs(igr) <= IgrBound(v.basePeriod)
    ensures Steered(v.basePeriod, igr, W64(v.basePeriod + PhaseAdjust(igr) * 1000))
  {
    AdjustBounds(igr, v.basePeriod);
    PeriodStaysPositive(v.basePeriod);
    ShiftedPeriod(v.basePeriod, PhaseAdjust(igr) * 1000, PeriodBound(v.basePeriod));
    TruncClose(igr, 10);
  }

  /** What the servo makes of an error in range. */
  predicate TakesIn(v: Servo, error: int, folded: int, v': Servo)
  {
    && Folded(error, v.basePeriod, folded)
    && (NoOverflow(v.basePeriod) ==> Integrates(v.igr, folded * v.basePeriod, v'.igr))
    && Steered(v.basePeriod, v'.igr, v'.currentPeriod)
    && v'.ticLock == Max(v.ticLock - 1, 0)
  }

  /** One error in range: the integrator takes it in, the period follows the integrator, and the lock comes
      one step nearer. */
  lemma InRangeStep(v: Servo, delta: int)
    requires ServoInv(v) && v.ptpLock == 0 && Abs(delta) <= 3 * (v.basePeriod / (2 * U))
    ensures TakesIn(v, delta, Fold(delta, v.basePeriod), Correct(v, delta))
  {
    var base := v.basePeriod;
    FoldIs(delta, base);
    CorrectKeeps(v, delta);
    InRangeIgr(v.igr, delta, base);
    SteeredIs(v, NextIgr(v.igr, Proportional(Fold(delta, base), base)));
    if NoOverflow(base) {
      ProductBound(Fold(delta, base), base / (2 * U), base);
      IntegratorIs(v.igr, Fold(delta, base) * base);
    }
  }

  /** One error out of range: back to the base period, everything else as it was. */
  lemma OutOfRangeStep(v: Servo, delta: int)
    requires DefinedBase(v.basePeriod) && Abs(delta) > 3 * (v.basePeriod / (2 * U))
    ensures Correct(v, delta) == v.(currentPeriod := v.basePeriod)
  {}

  // -- A timestamp

  /** The error is the local time of the last frame boundary of the master, t2 - ff, less that of the last tick. */
  function Error(c: Clock, ff: int): int { c.times.t2 - ff - c.times.lastRtxAtT2 }

  lemma ErrorIs(c: Clock, t1: U64, ff: int)
    requires c.samplingRate > 0 && c.frameSize > 0 && ff == FrameFraction(t1, c.samplingRate, c.frameSize)
    requires Abs(Error(c, ff)) < TWO31
    ensures RawDelta(c, t1) == Error(c, ff)
  {}

  lemma ErrorStep(v: Servo, delta: int)
    requires ServoInv(v.(currentPeriod := v.basePeriod)) && v.ptpLock == 0
    ensures if Abs(delta) <= 3 * (v.basePeriod / (2 * U)) then TakesIn(v, delta, Fold(delta, v.basePeriod), Correct(v, delta))
            else Correct(v, delta) == v.(currentPeriod := v.basePeriod)
  {
    if Abs(delta) <= 3 * (v.basePeriod / (2 * U)) {
      var w := v.(currentPeriod := v.basePeriod);
      assert Correct(w, delta) == Correct(v, delta);
      InRangeStep(w, delta);
    } else {
      OutOfRangeStep(v, delta);
    }
  }

  /** A new timestamp with the PTP lock held, or about to be: the clock takes over the offset to the master,
      and an error in range is folded into half a period and fed to the integrator, which steers the period. */
  lemma TimestampSteers(c: Clock, t1: U64) returns (n: int, a: int, ff: int, folded: int)
    requires ClockInv(c) && c.started && c.servo.ptpLock <= 1 && t1 != c.times.t1 && t1 * c.samplingRate < TWO64
    ensures Phase(t1, c.samplingRate, c.frameSize, n, a, ff)
    ensures var v, c' := c.servo, ProcessT1(c, t1);
            && c'.servo.ptpLock == 0 && c'.times.t1 == t1 && c'.wake == c.wake
            && c'.times.offset == I64(c.times.t2 - t1)
            && (Abs(Error(c, ff)) <= 3 * (v.basePeriod / (2 * U)) ==> TakesIn(v, Error(c, ff), folded, c'.servo))
            && (3 * (v.basePeriod / (2 * U)) < Abs(Error(c, ff)) < TWO31 ==>
                  c'.servo == v.(ptpLock := 0, currentPeriod := v.basePeriod))
  {
    Arith.MulNonNeg(t1, c.samplingRate);
    n, a := FractionIs(t1, c.samplingRate, c.frameSize, t1 * c.samplingRate);
    ff := FrameFraction(t1, c.samplingRate, c.frameSize);
    folded := Steer(c, t1, ff);
  }

  lemma Steer(c: Clock, t1: U64, ff: int) returns (folded: int)
    requires ClockInv(c) && c.started && c.servo.ptpLock <= 1 && t1 != c.times.t1
    requires ff == FrameFraction(t1, c.samplingRate, c.frameSize)
    ensures var v, c' := c.servo, ProcessT1(c, t1);
            && c'.servo.ptpLock == 0 && c'.times.t1 == t1 && c'.wake == c.wake
            && c'.times.offset == I64(c.times.t2 - t1)
            && (Abs(Error(c, ff)) <= 3 * (v.basePeriod / (2 * U)) ==> TakesIn(v, Error(c, ff), folded, c'.servo))
            && (3 * (v.basePeriod / (2 * U)) < Abs(Error(c, ff)) < TWO31 ==>
                  c'.servo == v.(ptpLock := 0, currentPeriod := v.basePeriod))
  {
    folded := Fold(RawDelta(c, t1), c.servo.basePeriod);
    LockedTimestamp(c, t1);
    ErrorStep(c.servo.(ptpLock := 0), RawDelta(c, t1));
    if Abs(Error(c, ff)) < TWO31 {
      ErrorIs(c, t1, ff);
    }
  }

  lemma LockedTimestamp(c: Clock, t1: U64)
    requires ClockInv(c) && c.started && c.servo.ptpLock <= 1 && t1 != c.times.t1
    ensures ServoInv(c.servo.(ptpLock := 0, currentPeriod := c.servo.basePeriod))
    ensures var c' := ProcessT1(c, t1);
            && c'.servo == Correct(c.servo.(ptpLock := 0), RawDelta(c, t1)) && c'.wake == c.wake
            && c'.times.t1 == t1 && c'.times.offset == I64(c.times.t2 - t1)
  {
    PeriodStaysPositive(c.servo.basePeriod);
  }

  /** The timestamps before that only count down. */
  lemma TimestampCountsDown(c: Clock, t1: U64)
    requires c.samplingRate > 0 && c.frameSize > 0 && c.servo.ptpLock > 2 && t1 != c.times.t1
    ensures ProcessT1(c, t1) == c.(servo := c.servo.(ptpLock := c.servo.ptpLock - 1), times := c.times.(t1 := t1))
  {}

  // -- The first wake-up on PTP time

  /** The timestamp before the lock: the period is the base period times the ratio of the last two local and
      master intervals, and the next wake-up is five such periods after the folded frame boundary. */
  lemma TimestampPrimes(c: Clock, t1: U64) returns (n: int, a: int, ff: int, folded: int)
    requires ClockInv(c) && c.started && c.servo.ptpLock == 2 && c.times.t1 < t1 && t1 * c.samplingRate < TWO64
    requires c.servo.basePeriod * c.times.deltaT2 < TWO64
    ensures Phase(t1, c.samplingRate, c.frameSize, n, a, ff)
    ensures var c' := ProcessT1(c, t1);
            && c'.servo.ptpLock == 1 && c'.times.t1 == t1 && c'.times.offset == c.times.offset && c'.wake.frac == 0
            && Ratio(c.servo.basePeriod * c.times.deltaT2, t1 - c.times.t1, c'.servo.currentPeriod)
            && (Abs(Error(c, ff)) <= 3 * (c.servo.basePeriod / (2 * U)) ==>
                  && Folded(Error(c, ff), c.servo.basePeriod, folded)
                  && Aims(c.times.lastRtxAtT2, folded, c'.servo.currentPeriod, c'.wake.next))
  {
    ff := FrameFraction(t1, c.samplingRate, c.frameSize);
    Arith.MulNonNeg(t1, c.samplingRate);
    n, a := FractionIs(t1, c.samplingRate, c.frameSize, t1 * c.samplingRate);
    var delta := RawDelta(c, t1);
    folded := Fold(delta, c.servo.basePeriod);
    var period := RatioPeriod(c.servo.basePeriod, c.times.deltaT2, t1 - c.times.t1);
    RatioIs(c.servo.basePeriod, c.times.deltaT2, t1 - c.times.t1);
    PrimedTimestamp(c, t1, folded, period);
    if Abs(Error(c, ff)) <= 3 * (c.servo.basePeriod / (2 * U)) {
      ErrorIs(c, t1, ff);
      FoldIs(delta, c.servo.basePeriod);
    }
  }

  /** q is x / d. */
  predicate Ratio(x: int, d: int, q: int) { q * d <= x < q * d + d }

  lemma RatioIs(base: U64, d2: U64, d1: U64)
    requires d1 > 0 && base * d2 < TWO64
    ensures Ratio(base * d2, d1, RatioPeriod(base, d2, d1))
  {
    Arith.MulNonNeg(base, d2);
    Arith.DivModOf(base * d2, d1);
  }

  /** The wake-up is five periods after the frame boundary, which is folded away from the last tick. */
  predicate Aims(last: U64, folded: int, period: U64, next: U64)
  {
    var lead := next - last - folded;
    5 * period < TWO64 && 0 <= last + folded && last + folded + 5 * period / U < TWO64 ==>
      U * lead <= 5 * period < U * (lead + 1)
  }

  lemma PrimeStep(c: Clock, t1: U64)
    requires c.samplingRate > 0 && c.frameSize > 0 && c.servo.ptpLock == 2 && t1 != c.times.t1
    ensures W64(t1 - c.times.t1) > 0
    ensures var c1 := c.(servo := c.servo.(ptpLock := 1));
            ProcessT1(c, t1) == PrimeWith(c1, Fold(RawDelta(c1, t1), c.servo.basePeriod),
                                          RatioPeriod(c.servo.basePeriod, c.times.deltaT2, W64(t1 - c.times.t1)))
                                .(times := c.times.(t1 := t1))
  {
    DeltaPositive(t1, c.times.t1);
  }

  lemma PrimedTimestamp(c: Clock, t1: U64, folded: int, period: U64)
    requires c.samplingRate > 0 && c.frameSize > 0 && c.servo.ptpLock == 2 && c.times.t1 < t1
    requires folded == Fold(RawDelta(c, t1), c.servo.basePeriod)
    requires period == RatioPeriod(c.servo.basePeriod, c.times.deltaT2, t1 - c.times.t1)
    ensures var c' := ProcessT1(c, t1);
            && c'.servo.ptpLock == 1 && c'.times.t1 == t1 && c'.times.offset == c.times.offset
            && c'.wake.frac == 0 && c'.servo.currentPeriod == period
            && Aims(c.times.lastRtxAtT2, folded, period, c'.wake.next)
  {
    PrimeStep(c, t1);
    SmallWord(t1 - c.times.t1);
    var c1 := c.(servo := c.servo.(ptpLock := 1));
    SameError(c, c1, t1);
    PrimeAims(c1, folded, period);
  }

  lemma SameError(c: Clock, c1: Clock, t1: U64)
    requires c.samplingRate > 0 && c.frameSize > 0
    requires c1.times == c.times && c1.samplingRate == c.samplingRate && c1.frameSize == c.frameSize
    ensures RawDelta(c1, t1) == RawDelta(c, t1)
  {}

  lemma PrimeAims(c: Clock, folded: int, period: U64)
    ensures Aims(c.times.lastRtxAtT2, folded, period, PrimeWith(c, folded, period).wake.next)
  {}
}
