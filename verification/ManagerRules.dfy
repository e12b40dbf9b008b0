/** What the manager decides: the frame size of a rate, the clock that is followed, when audio moves, and what
    a rate change and the I/O switches do. */
module ManagerRules {
  import opened CInt
  import opened ManagerModel
  import opened ManagerSafety
  import Ptp = PtpModel
  import PtpSafety
  import Arith

  // -- Frame size

  /** The rates of the two families; the DSD rates run at eight times 44100 Hz. */
  predicate OfFamily(rate: U32, base: nat)
  {
    if base == 44100 then
      rate == 44100 || rate == 88200 || rate == 176400 || rate == 352800
      || rate == 2822400 || rate == 5644800 || rate == 11289600
    else base == 48000 && (rate == 48000 || rate == 96000 || rate == 192000 || rate == 384000)
  }

  /** The clock of a rate is its base rate times the multiple that the frame size is computed with. */
  lemma MultipleOfBase(rate: U32, base: nat)
    requires OfFamily(rate, base)
    ensures ClockRate(rate) == MultipleOf1FS(rate) * base
  {}

  lemma AnyOtherIsSingle(rate: U32)
    requires !OfFamily(rate, 44100) && !OfFamily(rate, 48000)
    ensures MultipleOf1FS(rate) == 1 && ClockRate(rate) == rate
  {}

  /** A frame lasts as long at every rate of a family: as long as the configured number of samples at the base
      rate, unless that is more than the maximum. */
  lemma FrameDuration(a: Audio, base: nat, rate: nat)
    requires OfFamily(a.rate, base) && a.ticAt1FS < 0x2000_0000 && rate == ClockRate(a.rate)
    ensures var a' := UpdateFrameSize(a);
            && a' == a.(frameSize := a'.frameSize) && a'.frameSize <= a.maxFrame
            && (a'.frameSize < a.maxFrame ==> a'.frameSize * base == a.ticAt1FS * rate)
            && (a'.frameSize == a.maxFrame ==> a.maxFrame * base <= a.ticAt1FS * rate)
  {
    var k := MultipleOf1FS(a.rate);
    MultipleOfBase(a.rate, base);
    SmallProduct(a.ticAt1FS, k);
    Arith.MulAssoc(a.ticAt1FS, k, base);
    Arith.MulMono(a.maxFrame, Max(a.ticAt1FS * k, a.maxFrame), base);
  }

  lemma SmallProduct(tic: U64, k: nat)
    requires tic < 0x2000_0000 && (k == 1 || k == 2 || k == 4 || k == 8)
    ensures 0 <= tic * k && W32(W32(tic) * k) == tic * k
  {}

  // -- The clock that is followed

  predicate LockedClock(c: Ptp.Clock) { c.servo.ptpLock == 0 && c.servo.ticLock == 0 }

  /** Of two locked clocks the one whose master has the smaller priority value is followed, on a tie that of
      NIC 0; of one locked clock that one; without any, that of NIC 0. */
  lemma FollowsTheBetter(m: Manager, r: Reading)
    requires Inv(m)
    ensures var i, p0, p1 := Tick(m, r).nics.selected, m.clock0.master.priority, m.clock1.master.priority;
            && (i == 0 || i == 1)
            && (LockedClock(m.clock0) && LockedClock(m.clock1) ==> (i == 1 <==> p1 < p0))
            && (LockedClock(m.clock0) && !LockedClock(m.clock1) ==> i == 0)
            && (!LockedClock(m.clock0) ==> (i == 1 <==> LockedClock(m.clock1)))
  {}

  /** Audio moves at a tick exactly when I/O runs and at least one clock was locked: losing one NIC does not stop
      it. */
  lemma AudioMovesIff(m: Manager, r: Reading)
    requires Inv(m)
    ensures MovesAudio(Tick(m, r)) <==> m.io.running && (LockedClock(m.clock0) || LockedClock(m.clock1))
  {}

  /** Both clocks tick at every tick of the timer, whichever is followed. */
  lemma BothTick(m: Manager, r: Reading)
    requires Inv(m)
    ensures var m', one := Tick(m, r), Tick(m, r).nics.selected == 1;
            && TickedClock(m.clock0, m'.clock0, r.now0, r.later0, r.up0, !one)
            && TickedClock(m.clock1, m'.clock1, r.now1, r.later1, r.up1, one)
            && m'.audio == m.audio && m'.io == m.io
            && m'.nics == m.nics.(selected := m'.nics.selected, last0 := Ptp.Status(m.clock0.servo),
                                  last1 := Ptp.Status(m.clock1.servo))
  {
    var c0, c1 := TickClock(m.clock0, r.now0, r.later0, r.up0), TickClock(m.clock1, r.now1, r.later1, r.up1);
    ChainedClocks(m, Select(m), c0, c1, r.stale);
  }

  lemma ChainedClocks(m: Manager, nics: Nics, c0: Ptp.Clock, c1: Ptp.Clock, stale: U64)
    ensures var m', one := Chain(m, nics, c0, c1, stale), nics.selected == 1;
            && m' == m.(nics := nics, clock0 := m'.clock0, clock1 := m'.clock1)
            && m'.clock0 == (if one then c0.(wake := c0.wake.(next := m'.clock0.wake.next)) else c0)
            && m'.clock1 == (if one then c1 else c1.(wake := c1.wake.(next := m'.clock1.wake.next)))
  {}

  lemma SameUnits(next: U64)
    ensures next * 100_000 < TWO64 ==> W64(next * 100_000) / 100_000 == next
  {}

  /** The clock that is not followed wakes up with the one that is. */
  lemma WakesTogether(m: Manager, r: Reading)
    requires Inv(m)
    ensures var m', one := Tick(m, r), Tick(m, r).nics.selected == 1;
            && (one && m.clock1.started && m'.clock1.wake.next * 100_000 < TWO64 ==>
                  m'.clock0.wake.next == m'.clock1.wake.next)
            && (!one && m.clock0.started && m'.clock0.wake.next * 100_000 < TWO64 ==>
                  m'.clock1.wake.next == m'.clock0.wake.next)
  {
    var c0, c1 := TickClock(m.clock0, r.now0, r.later0, r.up0), TickClock(m.clock1, r.now1, r.later1, r.up1);
    TickKeepsSetup(m.clock0, r.now0, r.later0, r.up0);
    TickKeepsSetup(m.clock1, r.now1, r.later1, r.up1);
    ChainedWakes(m, Select(m), c0, c1, r.stale);
  }

  lemma ChainedWakes(m: Manager, nics: Nics, c0: Ptp.Clock, c1: Ptp.Clock, stale: U64)
    ensures var m', one := Chain(m, nics, c0, c1, stale), nics.selected == 1;
            && m'.nics.selected == nics.selected
            && (one && c1.started && m'.clock1.wake.next * 100_000 < TWO64 ==> m'.clock0.wake.next == m'.clock1.wake.next)
            && (!one && c0.started && m'.clock0.wake.next * 100_000 < TWO64 ==> m'.clock1.wake.next == m'.clock0.wake.next)
  {
    SameUnits(c0.wake.next);
    SameUnits(c1.wake.next);
  }

  /** The clock has taken its own tick if it runs, and nothing else has changed in it but, when it is not the
      one that is followed, the next wake-up. */
  predicate TickedClock(c: Ptp.Clock, c': Ptp.Clock, now: U64, later: U64, up: bool, followed: bool)
    requires c.frameSize > 0
  {
    var t := if c.started then Ptp.TickStep(c, now, later, up) else c;
    c' == if followed then t else t.(wake := t.wake.(next := c'.wake.next))
  }

  // -- Rate changes

  /** A rate change is refused while I/O runs. Otherwise the new rate and its frame size are in force, and the
      clocks of all NICs in use run on them, with the lock to be acquired again. */
  lemma RateChanged(m: Manager, rate: U32)
    requires Inv(m) && Startable(UpdateFrameSize(m.audio.(rate := rate)))
    ensures var m' := SetRate(m, rate);
            && (m.io.running || rate == m.audio.rate ==> m' == m)
            && (!m.io.running ==> m'.audio.rate == rate)
            && (!m.io.running && rate != m.audio.rate ==> m'.audio == UpdateFrameSize(m.audio.(rate := rate)))
            && (m.io.started && !m.io.running && rate != m.audio.rate ==>
                  && (m.nics.active0 ==> Restarted(m.clock0, m'.clock0, m'.audio))
                  && (m.nics.active1 ==> Restarted(m.clock1, m'.clock1, m'.audio)))
            && m'.io == m.io && m'.nics == m.nics
  {
    var a := UpdateFrameSize(m.audio.(rate := rate));
    PtpSafety.StartAndStop(m.clock0, a.frameSize, ClockRate(rate));
    PtpSafety.StartAndStop(m.clock1, a.frameSize, ClockRate(rate));
  }

  predicate Restarted(c: Ptp.Clock, c': Ptp.Clock, a: Audio)
  {
    var v := c'.servo;
    && c' == c.(started := true, frameSize := a.frameSize, samplingRate := ClockRate(a.rate), servo := v)
    && PtpSafety.PeriodOf(a.frameSize, ClockRate(a.rate), v.basePeriod)
    && v == Ptp.Servo(4, 5, 0, v.basePeriod, v.basePeriod)
  }

  /** New frame settings while started: I/O is off afterwards, and the clocks run on the new frame size. */
  lemma Reframed(m: Manager, audio: Audio)
    requires Inv(m) && Startable(UpdateFrameSize(audio))
    ensures var m' := Reframe(m, audio);
            && m'.audio == UpdateFrameSize(audio) && m'.io.started == m.io.started && m'.nics == m.nics
            && (m.io.started ==>
                  && !m'.io.recording && !m'.io.playing && !m'.io.running
                  && (m.nics.active0 ==> Restarted(m.clock0, m'.clock0, m'.audio))
                  && (m.nics.active1 ==> Restarted(m.clock1, m'.clock1, m'.audio)))
            && (!m.io.started ==> m'.io == m.io && m'.clock0 == m.clock0 && m'.clock1 == m.clock1)
  {
    var a := UpdateFrameSize(audio);
    PtpSafety.StartAndStop(Ptp.StopStep(m.clock0), a.frameSize, ClockRate(a.rate));
    PtpSafety.StartAndStop(Ptp.StopStep(m.clock1), a.frameSize, ClockRate(a.rate));
  }

  // -- I/O

  /** Starting a direction switches on that direction and no other, only while started. */
  lemma StartsOneDirection(io: Io, playback: bool)
    requires IoOk(io)
    ensures StartIO(io, playback)
            == if !io.started then io
               else Io(true, true, io.recording || !playback, io.playing || playback)
  {}

  /** Stopping it switches off that direction and no other; I/O runs on while the other direction does. */
  lemma StopsOneDirection(io: Io, playback: bool)
    requires IoOk(io)
    ensures var rec, play := io.recording && playback, io.playing && !playback;
            StopIO(io, playback) == Io(io.started, rec || play, rec, play)
  {}

  /** A direction that was off: stopping undoes starting. */
  lemma StopUndoesStart(io: Io, playback: bool)
    requires IoOk(io) && !(if playback then io.playing else io.recording)
    ensures StopIO(StartIO(io, playback), playback) == io
  {}

  /** A stop leaves nothing running: no direction, no clock, no lock. */
  lemma StopsAll(m: Manager)
    requires Inv(m)
    ensures var m' := Stop(m);
            && m'.io == Io(false, false, false, false) && m'.audio == m.audio && m'.nics == m.nics
            && m'.clock0 == m.clock0.(started := false, servo := m.clock0.servo.(ptpLock := 4, ticLock := 5, igr := 0))
            && m'.clock1 == m.clock1.(started := false, servo := m.clock1.servo.(ptpLock := 4, ticLock := 5, igr := 0))
  {}
}
