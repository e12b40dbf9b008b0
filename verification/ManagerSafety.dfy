/** What every run of the manager keeps: I/O only while started, a frame size that stands still under
    I/O, clocks that run on it, and sample counts on frame boundaries whenever audio is moved. */
module ManagerSafety {
  import opened CInt
  import opened Rings
  import opened ManagerModel
  import Ptp = PtpModel
  import PtpSafety
  import Mute
  import Arith

  predicate IoOk(io: Io) { io.running == (io.recording || io.playing) && (io.running ==> io.started) }

  /** A clock keeps its own invariant; a running one belongs to a started manager and runs on its frame
      size and its rate. */
  predicate ClockOk(c: Ptp.Clock, active: bool, started: bool, a: Audio)
  {
    PtpSafety.ClockInv(c)
    && (c.started ==> started && active && c.frameSize == a.frameSize && c.samplingRate == ClockRate(a.rate))
  }

  predicate ClocksOk(m: Manager)
  {
    && ClockOk(m.clock0, m.nics.active0, m.io.started, m.audio)
    && ClockOk(m.clock1, m.nics.active1, m.io.started, m.audio)
  }

  predicate Inv(m: Manager) { IoOk(m.io) && ClocksOk(m) }

  // -- Clocks

  /** Packets, settings and ticks leave started, frame size and sampling rate of a clock alone. */
  predicate SameSetup(c: Ptp.Clock, c': Ptp.Clock)
  {
    c'.started == c.started && c'.frameSize == c.frameSize && c'.samplingRate == c.samplingRate
  }

  lemma ProcessKeepsSetup(c: Ptp.Clock, t1: U64)
    requires Positive(c)
    ensures SameSetup(c, Ptp.ProcessT1(c, t1))
  {}

  lemma PacketKeepsSetup(c: Ptp.Clock, e: Ptp.Event)
    requires Positive(c) && (e.Announce? || e.Sync? || e.FollowUp? || e.SetConfig?)
    ensures SameSetup(c, Ptp.Step(c, e))
    ensures !c.started ==> Ptp.Step(c, e).servo == c.servo
  {
    match e
    case FollowUp(id, seqId, origin) => ProcessKeepsSetup(c, origin);
    case Sync(id, seqId, twoStep, origin, now) => SyncKeepsSetup(c, id, seqId, twoStep, origin, now);
    case _ =>
  }

  lemma SyncKeepsSetup(c: Ptp.Clock, id: U64, seqId: U16, twoStep: bool, origin: U64, now: U64)
    requires Positive(c)
    ensures SameSetup(c, Ptp.SyncStep(c, id, seqId, twoStep, origin, now))
  {}

  lemma TickKeepsSetup(c: Ptp.Clock, now: U64, later: U64, up: bool)
    requires Positive(c)
    ensures SameSetup(c, TickClock(c, now, later, up))
    ensures !c.started ==> TickClock(c, now, later, up) == c
  {}

  lemma PacketKeepsOk(c: Ptp.Clock, e: Ptp.Event, active: bool, started: bool, a: Audio)
    requires ClockOk(c, active, started, a) && (e.Announce? || e.Sync? || e.FollowUp? || e.SetConfig?)
    ensures ClockOk(Ptp.Step(c, e), active, started, a)
  {
    PtpSafety.StepKeeps(c, e);
    PacketKeepsSetup(c, e);
  }

  // -- Steps of the manager

  lemma StartClockKeeps(c: Ptp.Clock, active: bool, a: Audio)
    requires Startable(a) && PtpSafety.ClockInv(c) && (c.started ==> active)
    ensures ClockOk(StartClock(c, active, a), active, true, a)
  {
    PtpSafety.StepKeeps(c, Ptp.Start(a.frameSize, ClockRate(a.rate)));
  }

  lemma StartKeeps(m: Manager)
    requires IoOk(m.io) && Startable(m.audio) && PtpSafety.ClockInv(m.clock0) && PtpSafety.ClockInv(m.clock1)
    requires m.clock0.started ==> m.nics.active0
    requires m.clock1.started ==> m.nics.active1
    ensures ClocksOk(StartClocks(m).(io := m.io.(started := true))) && IoOk(Start(m).io)
  {
    StartClockKeeps(m.clock0, m.nics.active0, m.audio);
    StartClockKeeps(m.clock1, m.nics.active1, m.audio);
  }

  lemma StopKeeps(m: Manager)
    requires Inv(m)
    ensures Inv(Stop(m)) && !Stop(m).io.running && !Stop(m).clock0.started && !Stop(m).clock1.started
  {
    PtpSafety.StepKeeps(m.clock0, Ptp.Stop);
    PtpSafety.StepKeeps(m.clock1, Ptp.Stop);
  }

  lemma ReframeKeeps(m: Manager, audio: Audio)
    requires Inv(m) && Startable(UpdateFrameSize(audio))
    ensures Inv(Reframe(m, audio)) && (m.io.started ==> !Reframe(m, audio).io.running)
  {
    if m.io.started {
      StopKeeps(m);
      StartKeeps(Stop(m).(audio := UpdateFrameSize(audio)));
    }
  }

  lemma SetRateKeeps(m: Manager, rate: U32)
    requires Inv(m) && Startable(UpdateFrameSize(m.audio.(rate := rate)))
    ensures Inv(SetRate(m, rate))
  {
    if m.audio.rate != rate && !m.io.running && m.io.started {
      StartKeeps(m.(audio := UpdateFrameSize(m.audio.(rate := rate))));
    }
  }

  lemma TickKeepsOk(c: Ptp.Clock, now: U64, later: U64, up: bool, active: bool, started: bool, a: Audio)
    requires ClockOk(c, active, started, a)
    ensures ClockOk(TickClock(c, now, later, up), active, started, a)
  {
    TickKeepsSetup(c, now, later, up);
    PtpSafety.StepKeeps(c, Ptp.Tick(now, later, up));
  }

  lemma TickKeeps(m: Manager, r: Reading)
    requires Inv(m)
    ensures Inv(Tick(m, r))
  {
    TickKeepsOk(m.clock0, r.now0, r.later0, r.up0, m.nics.active0, m.io.started, m.audio);
    TickKeepsOk(m.clock1, r.now1, r.later1, r.up1, m.nics.active1, m.io.started, m.audio);
    ChainKeeps(m, Select(m), TickClock(m.clock0, r.now0, r.later0, r.up0),
               TickClock(m.clock1, r.now1, r.later1, r.up1), r.stale);
  }

  lemma ChainKeeps(m: Manager, nics: Nics, c0: Ptp.Clock, c1: Ptp.Clock, stale: U64)
    requires IoOk(m.io) && nics.active0 == m.nics.active0 && nics.active1 == m.nics.active1
    requires ClockOk(c0, nics.active0, m.io.started, m.audio)
    requires ClockOk(c1, nics.active1, m.io.started, m.audio)
    ensures Inv(Chain(m, nics, c0, c1, stale))
  {}

  lemma StepKeeps(m: Manager, e: Event)
    requires Inv(m) && Allowed(m, e)
    ensures Inv(Step(m, e))
  {
    match e
    case DoStart => StartKeeps(m);
    case DoStop => StopKeeps(m);
    case DoSetRate(rate) => SetRateKeeps(m, rate);
    case DoSetTic(tic) => ReframeKeeps(m, m.audio.(ticAt1FS := tic));
    case DoSetMax(max) => ReframeKeeps(m, m.audio.(maxFrame := W32(max)));
    case DoClock(second, e) =>
      if second { PacketKeepsOk(m.clock1, e, m.nics.active1, m.io.started, m.audio); }
      else { PacketKeepsOk(m.clock0, e, m.nics.active0, m.io.started, m.audio); }
    case DoTick(r) => TickKeeps(m, r);
    case _ =>
  }

  /** The frame size stands still while I/O runs: no step that ends with I/O running has changed it. */
  lemma FrameSizeFixedUnderIo(m: Manager, e: Event)
    requires Inv(m) && Allowed(m, e) && Step(m, e).io.running
    ensures Step(m, e).audio == m.audio
  {
    match e
    case DoSetTic(tic) => ReframeKeeps(m, m.audio.(ticAt1FS := tic));
    case DoSetMax(max) => ReframeKeeps(m, m.audio.(maxFrame := W32(max)));
    case _ =>
  }

  // -- The wait for the lock

  predicate BothLocked(m: Manager)
  {
    Ptp.Status(m.clock0.servo) == Ptp.Locked && Ptp.Status(m.clock1.servo) == Ptp.Locked
  }

  /** With one NIC in use the condition that a rate change waits for never holds, so that every rate change
      while started runs into its time-out. */
  lemma OneNicNeverBothLocked(m: Manager)
    requires Inv(m) && !(m.nics.active0 && m.nics.active1)
    ensures !BothLocked(m)
  {}

  // -- Runs

  predicate AllowedRun(m: Manager, es: seq<Event>)
    requires Inv(m)
    decreases |es|
  {
    es == [] || (Allowed(m, es[0]) && (StepKeeps(m, es[0]); AllowedRun(Step(m, es[0]), es[1..])))
  }

  function Run(m: Manager, es: seq<Event>): (r: Manager)
    requires Inv(m) && AllowedRun(m, es)
    ensures Inv(r)
    decreases |es|
  {
    if es == [] then m else StepKeeps(m, es[0]); Run(Step(m, es[0]), es[1..])
  }

  /** init leaves everything stopped and the clocks as init_ptp sets them up. */
  function Initial(audio: Audio): (m: Manager)
    ensures Inv(m)
  {
    assert PtpSafety.Run([]) == Ptp.Initial();
    Manager(audio, Io(false, false, false, false), Nics(true, false, 0, Ptp.Unlocked, Ptp.Unlocked),
            Ptp.Initial(), Ptp.Initial())
  }

  // -- Sample counts at the tick

  /** The 64-bit frame counter of a clock is not at its end. */
  predicate CounterFits(c: Ptp.Clock) { c.counter.lastCount * c.frameSize + c.frameSize < TWO64 }

  lemma TickAligns(c: Ptp.Clock, now: U64, later: U64, up: bool)
    requires c.frameSize > 0 && c.started && CounterFits(c)
    ensures TickClock(c, now, later, up).counter.globalSac % c.frameSize == 0
  {
    PtpSafety.TickSac(c, now, later, up);
    var c' := Ptp.TickStep(c, now, later, up);
    assert c'.frameSize == c.frameSize;
    PtpSafety.AlignedIsMultiple(c');
  }

  /** After every tick whose selected clock runs, the global sample count is a multiple of the manager's
      frame size. */
  lemma SelectedIsAligned(m: Manager, r: Reading)
    requires Inv(m) && Selected(Tick(m, r)).started && CounterFits(if Select(m).selected == 1 then m.clock1 else m.clock0)
    ensures m.audio.frameSize > 0 && GlobalSac(Tick(m, r)) % m.audio.frameSize == 0
  {
    if Select(m).selected == 1 {
      TickKeepsSetup(m.clock1, r.now1, r.later1, r.up1);
      TickAligns(m.clock1, r.now1, r.later1, r.up1);
    } else {
      TickKeepsSetup(m.clock0, r.now0, r.later0, r.up0);
      TickAligns(m.clock0, r.now0, r.later0, r.up0);
    }
  }

  /** Audio is moved only on a running clock. */
  lemma MovesOnRunningClock(m: Manager, r: Reading)
    requires Inv(m) && MovesAudio(Tick(m, r))
    ensures Selected(Tick(m, r)).started && m.io.started
  {
    TickKeepsSetup(m.clock0, r.now0, r.later0, r.up0);
    TickKeepsSetup(m.clock1, r.now1, r.later1, r.up1);
  }

  /** On every run, at every tick that moves audio: the count is a multiple of the frame size, and with
      whole frames in the ring the span at that count does not cross the end of the ring. */
  lemma AudioOnFrameBoundaries(audio: Audio, es: seq<Event>, r: Reading, len: nat)
    requires AllowedRun(Initial(audio), es)
    requires var m := Run(Initial(audio), es);
             MovesAudio(Tick(m, r)) && CounterFits(if Select(m).selected == 1 then m.clock1 else m.clock0)
    requires var f := Run(Initial(audio), es).audio.frameSize;
             len > 0 && (f > 0 ==> len % f == 0)
    ensures var m := Run(Initial(audio), es);
            var f, sac := m.audio.frameSize, GlobalSac(Tick(m, r));
            f > 0 && sac % f == 0 && sac % len + f <= len
  {
    var m := Run(Initial(audio), es);
    MovesOnRunningClock(m, r);
    SelectedIsAligned(m, r);
    Mute.FrameInside(GlobalSac(Tick(m, r)), m.audio.frameSize, len);
  }

  /** The capture position k interrupts after it was prepared at a sample count. */
  function CapturePos(sac: nat, f: nat, len: nat, k: nat): (p: nat)
    requires 0 < f <= len
    ensures p < len
  {
    if k == 0 then Arith.DivModOf(sac, len); sac % len else Wrap(CapturePos(sac, f, len, k - 1), f, len)
  }

  /** Prepared on a frame boundary, capture reads whole frames of the ring ever after. */
  lemma {:induction false} CaptureInside(sac: nat, f: nat, len: nat, k: nat)
    requires 0 < f <= len && sac % f == 0 && len % f == 0
    ensures CapturePos(sac, f, len, k) % f == 0 && CapturePos(sac, f, len, k) + f <= len
  {
    if k == 0 {
      Arith.ModKeepsMultiple(sac, f, len);
    } else {
      CaptureInside(sac, f, len, k - 1);
      var p := CapturePos(sac, f, len, k - 1);
      Arith.ModAddMultiple(p, 1, f);
      Arith.SmallMod(0, f);
    }
    Arith.MultiplesApart(CapturePos(sac, f, len, k), len, f);
  }

  /** On every run: capture that is prepared after a tick of the running clock, at the count of that tick,
      reads whole frames of the ring at every later interrupt. */
  lemma CaptureOnEveryRun(audio: Audio, es: seq<Event>, r: Reading, len: nat, k: nat)
    requires AllowedRun(Initial(audio), es)
    requires var m := Run(Initial(audio), es);
             && Selected(Tick(m, r)).started && CounterFits(if Select(m).selected == 1 then m.clock1 else m.clock0)
             && 0 < m.audio.frameSize <= len && len % m.audio.frameSize == 0
    ensures var m := Run(Initial(audio), es);
            var f, p := m.audio.frameSize, CapturePos(GlobalSac(Tick(m, r)), m.audio.frameSize, len, k);
            p % f == 0 && p + f <= len
  {
    var m := Run(Initial(audio), es);
    SelectedIsAligned(m, r);
    CaptureInside(GlobalSac(Tick(m, r)), m.audio.frameSize, len, k);
  }
}
