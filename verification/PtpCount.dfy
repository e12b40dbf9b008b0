/** The sample count of a tick: when it is the count of the master and when it runs on by itself. */
module PtpCount {
  import opened CInt
  import opened PtpModel
  import opened PtpSafety
  import opened PtpServo
  import Arith

  /** The sample count that a tick leaves at x samples of PTP time, in frame n of f samples; last is the frame
      count of the tick before. */
  predicate CountsAt(x: int, n: int, f: nat, tol: nat, last: nat, sac: int)
  {
    if x - n * f < tol then sac == n * f
    else if n * f + f - x < tol then sac == n * f + f
    else sac == last * f
  }

  lemma CountIs(x: U64, f: U32, tol: nat, last: U64, n: int)
    requires f > 0 && x < TWO63 && last * f + f < TWO64 && n * f <= x < n * f + f
    ensures var count := CountAt(x, f, tol, last); CountsAt(x, n, f, tol, last, W64((count - 1) * f))
  {
    Arith.QuotientUnique(x, f, n, x - n * f);
    CountIn(x, f, tol, last, n, x - n * f, n * f);
  }

  lemma CountIn(x: U64, f: U32, tol: nat, last: U64, n: int, r: int, start: int)
    requires f > 0 && x < TWO63 && last * f + f < TWO64
    requires n == x / f && r == x % f && start == n * f && x == start + r && 0 <= r < f
    ensures var sac := W64((CountAt(x, f, tol, last) - 1) * f);
            sac == if r < tol then start else if f - r < tol then start + f else last * f
  {
    Arith.DivAtMost(x, f);
    Arith.MulNonNeg(n, f);
    if r < tol {
      SacIs(n, f, start);
    } else if r > W32(f - tol) {
      Arith.MulDist(n, 1, f);
      SacIs(n + 1, f, start + f);
    } else {
      Arith.MulNonNeg(last, f);
      SacIs(last, f, last * f);
    }
  }

  /** The tick in frame n of PTP time puts the count on the start of the frame when that was less than the
      tolerance ago, on its end when that is less than the tolerance away, and else one frame on. */
  lemma TickCounts(c: Clock, now: U64, later: U64, linkUp: bool, n: int)
    requires c.frameSize > 0 && c.counter.lastCount * c.frameSize + c.frameSize < TWO64
    requires var x := PtpSamples(c, now / NS_PER_UNIT); n * c.frameSize <= x < n * c.frameSize + c.frameSize
    ensures CountsAt(PtpSamples(c, now / NS_PER_UNIT), n, c.frameSize, Tolerance(c.samplingRate), c.counter.lastCount,
                     TickStep(c, now, later, linkUp).counter.globalSac)
  {
    var time := now / NS_PER_UNIT;
    CountIs(PtpSamples(c, time), c.frameSize, Tolerance(c.samplingRate), c.counter.lastCount, n);
    var c' := TickStep(c, now, later, linkUp);
    assert c'.counter.globalSac == W64((FrameCount(c, time) - 1) * c.frameSize);
  }

  /** Frame boundary n is less than the tolerance away from x. */
  predicate Near(x: int, n: int, f: nat, tol: nat) { Abs(x - n * f) < tol }

  lemma NearIs(x: int, n: int, q: int, f: nat, tol: nat, last: nat, sac: int)
    requires q * f <= x < q * f + f && 2 * tol <= f && CountsAt(x, q, f, tol, last, sac) && Near(x, n, f, tol)
    ensures sac == n * f
  {
    Arith.MulDist(q, 1, f);
    if n < q {
      Arith.MulMono(n + 1, q, f);
      Arith.MulDist(n, 1, f);
    } else if n > q + 1 {
      Arith.MulMono(q + 2, n, f);
      Arith.MulDist(q, 2, f);
    }
  }

  lemma NotNear(x: int, q: int, f: nat, tol: nat, last: nat, sac: int)
    requires q * f <= x < q * f + f && CountsAt(x, q, f, tol, last, sac)
    requires !Near(x, q, f, tol) && !Near(x, q + 1, f, tol)
    ensures sac == last * f
  {
    Arith.MulDist(q, 1, f);
  }

  /** With frames of at least two tolerances: a tick near a frame boundary of PTP time takes the count of that
      boundary, and a tick near none runs on by one frame. */
  lemma TickFollowsPtpTime(c: Clock, now: U64, later: U64, linkUp: bool)
    requires c.frameSize > 0 && c.counter.lastCount * c.frameSize + c.frameSize < TWO64
    requires 2 * Tolerance(c.samplingRate) <= c.frameSize
    ensures var x, f, tol := PtpSamples(c, now / NS_PER_UNIT), c.frameSize, Tolerance(c.samplingRate);
            var sac := TickStep(c, now, later, linkUp).counter.globalSac;
            && (forall n: int :: Near(x, n, f, tol) ==> sac == n * f)
            && ((forall n: int :: !Near(x, n, f, tol)) ==> sac == c.counter.lastCount * f)
  {
    var x, f, tol := PtpSamples(c, now / NS_PER_UNIT), c.frameSize, Tolerance(c.samplingRate);
    var sac := TickStep(c, now, later, linkUp).counter.globalSac;
    Arith.DivModOf(x, f);
    TickCounts(c, now, later, linkUp, x / f);
    forall n: int | Near(x, n, f, tol) ensures sac == n * f {
      NearIs(x, n, x / f, f, tol, c.counter.lastCount, sac);
    }
    if forall n: int :: !Near(x, n, f, tol) {
      NotNear(x, x / f, f, tol, c.counter.lastCount, sac);
    }
  }

  // -- The count of the master

  /** The master has sent x whole samples at master time t. */
  predicate MasterSamples(t: int, rate: nat, x: int) { 10000 * x <= t * rate < 10000 * x + 10000 }

  lemma Scaled(p: nat, q: int, x: int)
    requires q == 100 * p && q < TWO64 && 10000 * x <= q < 10000 * x + 10000
    ensures W64(p) / 100 == x
  {}

  lemma SamplesAt(c: Clock, time: U64, t: nat, x: int)
    requires c.samplingRate % 100 == 0 && W64(time - c.times.offset) == t
    requires t * c.samplingRate < TWO64 && MasterSamples(t, c.samplingRate, x)
    ensures PtpSamples(c, time) == x
  {
    var k := c.samplingRate / 100;
    HundredTimes(t, k, c.samplingRate);
    Scaled(t * k, t * c.samplingRate, x);
  }

  lemma SamplesOfMaster(c: Clock, t1: U64, t2: U64, d: nat, x: int)
    requires c.times.offset == I64(t2 - t1) && c.samplingRate % 100 == 0 && t2 + d < TWO64
    requires t1 + d < TWO64 && (t1 + d) * c.samplingRate < TWO64 && MasterSamples(t1 + d, c.samplingRate, x)
    ensures PtpSamples(c, t2 + d) == x
  {
    ModCancels(t2, t1, d);
    SmallWord(t2 + d);
    SamplesAt(c, t2 + d, t1 + d, x);
  }

  lemma HundredTimes(t: nat, k: nat, rate: nat)
    requires rate == 100 * k
    ensures t * rate == 100 * (t * k) && 0 <= t * k
  {
    Arith.MulAssoc(t, 100, k);
    Arith.MulAssoc(100, t, k);
    Arith.MulNonNeg(t, k);
  }

  lemma TickNear(c: Clock, now: U64, later: U64, linkUp: bool, x: int, n: int)
    requires c.frameSize > 0 && c.counter.lastCount * c.frameSize + c.frameSize < TWO64
    requires 2 * Tolerance(c.samplingRate) <= c.frameSize
    requires PtpSamples(c, now / NS_PER_UNIT) == x && Near(x, n, c.frameSize, Tolerance(c.samplingRate))
    ensures TickStep(c, now, later, linkUp).counter.globalSac == n * c.frameSize
  {
    TickFollowsPtpTime(c, now, later, linkUp);
  }

  /** With the offset taken over from timestamp (t1, t2), a tick at local time t2 + d has exactly the sample
      count of the master at t1 + d, when that is a frame boundary or less than the tolerance away from one. */
  lemma TickAtMasterTime(c: Clock, t1: U64, t2: U64, d: nat, x: int, n: int, now: U64, later: U64, linkUp: bool)
    requires c.times.offset == I64(t2 - t1) && c.frameSize > 0 && c.samplingRate % 100 == 0
    requires 2 * Tolerance(c.samplingRate) <= c.frameSize && c.counter.lastCount * c.frameSize + c.frameSize < TWO64
    requires now / NS_PER_UNIT == t2 + d && t1 + d < TWO64 && (t1 + d) * c.samplingRate < TWO64
    requires MasterSamples(t1 + d, c.samplingRate, x) && Near(x, n, c.frameSize, Tolerance(c.samplingRate))
    ensures TickStep(c, now, later, linkUp).counter.globalSac == n * c.frameSize
  {
    SamplesOfMaster(c, t1, t2, d, x);
    TickNear(c, now, later, linkUp, x, n);
  }

  /** Tolerance: four samples at 44.1 kHz, in proportion at other rates. */
  lemma ToleranceIs(rate: U32)
    requires rate < 0x4000_0000
    ensures 44100 * Tolerance(rate) <= 4 * rate < 44100 * (Tolerance(rate) + 1)
  {}
}
