/** The audio manager of driver/manager.c with the two PTP clocks it owns, and the tick of
    driver/module_main.c: start, stop, I/O, frame size and what every run keeps. */
module ManagerModel {
  import opened CInt
  import Ptp = PtpModel

  datatype Audio = Audio(rate: U32, ticAt1FS: U64, maxFrame: U32, frameSize: U32)

  datatype Io = Io(started: bool, running: bool, recording: bool, playing: bool)

  /** Which NICs are in use, the one whose clock is followed, and the lock states seen at the last tick. */
  datatype Nics = Nics(active0: bool, active1: bool, selected: nat, last0: Ptp.LockStatus, last1: Ptp.LockStatus)

  datatype Manager = Manager(audio: Audio, io: Io, nics: Nics, clock0: Ptp.Clock, clock1: Ptp.Clock)

  // -- Frame size

  predicate IsDsdRate(rate: U32) { rate == 2822400 || rate == 5644800 || rate == 11289600 }

  function ClockRate(rate: U32): U32 { if IsDsdRate(rate) then 352800 else rate }

  /** Multiple of the base sampling rate. */
  function MultipleOf1FS(rate: U32): nat
  {
    if IsDsdRate(rate) || rate == 384000 || rate == 352800 then 8
    else if rate == 192000 || rate == 176400 then 4
    else if rate == 96000 || rate == 88200 then 2
    else 1
  }

  /** UpdateFrameSize, with its 32-bit product. */
  function UpdateFrameSize(a: Audio): Audio
  {
    a.(frameSize := Min(W32(W32(a.ticAt1FS) * MultipleOf1FS(a.rate)), a.maxFrame))
  }

  predicate Startable(a: Audio) { Ptp.Defined(a.frameSize, ClockRate(a.rate)) }

  // -- Start and stop

  function StartClock(c: Ptp.Clock, active: bool, a: Audio): Ptp.Clock
    requires Startable(a)
  {
    if active then Ptp.StartStep(c, a.frameSize, ClockRate(a.rate)) else c
  }

  function StartClocks(m: Manager): Manager
    requires Startable(m.audio)
  {
    m.(clock0 := StartClock(m.clock0, m.nics.active0, m.audio), clock1 := StartClock(m.clock1, m.nics.active1, m.audio))
  }

  function Start(m: Manager): Manager
    requires Startable(m.audio)
  {
    StartClocks(m).(io := m.io.(started := true))
  }

  function StopIO(io: Io, playback: bool): Io
  {
    if playback then
      if !io.playing then io else io.(playing := false, running := io.recording)
    else
      if !io.recording then io else io.(recording := false, running := io.playing)
  }

  function Stop(m: Manager): Manager
  {
    var io := if m.io.running then StopIO(StopIO(m.io, false), true) else m.io;
    m.(io := io.(started := false), clock0 := Ptp.StopStep(m.clock0), clock1 := Ptp.StopStep(m.clock1))
  }

  function StartIO(io: Io, playback: bool): Io
  {
    if !io.started then io
    else if playback then io.(playing := true, running := true)
    else io.(recording := true, running := true)
  }

  // -- Settings

  /** SetSamplingRate, up to the wait for the lock. */
  function SetRate(m: Manager, rate: U32): Manager
    requires Startable(UpdateFrameSize(m.audio.(rate := rate)))
  {
    if m.audio.rate == rate || m.io.running then m
    else
      var m1 := m.(audio := UpdateFrameSize(m.audio.(rate := rate)));
      if m.io.started then StartClocks(m1) else m1
  }

  /** SetTICFrameSizeAt1FS and SetMaxTICFrameSize: stop, change, start again. */
  function Reframe(m: Manager, audio: Audio): Manager
    requires Startable(UpdateFrameSize(audio))
  {
    var m1 := if m.io.started then Stop(m) else m;
    var m2 := m1.(audio := UpdateFrameSize(audio));
    if m.io.started then Start(m2) else m2
  }

  // -- The tick

  function Select(m: Manager): Nics
  {
    var s0, s1 := Ptp.Status(m.clock0.servo), Ptp.Status(m.clock1.servo);
    var follow := if s0 == Ptp.Locked && m.clock0.master.priority <= m.clock1.master.priority then 0
                  else if s1 == Ptp.Locked then 1 else 0;
    m.nics.(selected := follow, last0 := s0, last1 := s1)
  }

  /** Clock readings and link states of one tick, and the wake-up handed on when the selected clock is
      stopped. */
  datatype Reading = Reading(now0: U64, later0: U64, up0: bool, now1: U64, later1: U64, up1: bool, stale: U64)

  function TickClock(c: Ptp.Clock, now: U64, later: U64, up: bool): Ptp.Clock
    requires c.frameSize > 0
  {
    if c.started then Ptp.TickStep(c, now, later, up) else c
  }

  function NextOf(c: Ptp.Clock, stale: U64): U64 { if c.started then W64(c.wake.next * Ptp.NS_PER_UNIT) else stale }

  function Follow(c: Ptp.Clock, next: U64): Ptp.Clock { c.(wake := c.wake.(next := next / Ptp.NS_PER_UNIT)) }

  /** The clock that is not followed takes over the next wake-up of the one that is. */
  function Chain(m: Manager, nics: Nics, c0: Ptp.Clock, c1: Ptp.Clock, stale: U64): Manager
  {
    if nics.selected == 1 then m.(nics := nics, clock0 := Follow(c0, NextOf(c1, stale)), clock1 := c1)
    else m.(nics := nics, clock0 := c0, clock1 := Follow(c1, NextOf(c0, stale)))
  }

  /** t_clock_timer: choose the clock, run both, let the other one follow. AudioFrameTIC comes next. */
  function Tick(m: Manager, r: Reading): Manager
    requires m.clock0.frameSize > 0 && m.clock1.frameSize > 0
  {
    Chain(m, Select(m), TickClock(m.clock0, r.now0, r.later0, r.up0), TickClock(m.clock1, r.now1, r.later1, r.up1),
          r.stale)
  }

  function Selected(m: Manager): Ptp.Clock { if m.nics.selected == 1 then m.clock1 else m.clock0 }

  function GlobalSac(m: Manager): U64 { Selected(m).counter.globalSac }

  /** AudioFrameTIC moves audio: I/O runs and the selected clock was locked. */
  predicate MovesAudio(m: Manager)
  {
    m.io.running && (if m.nics.selected == 1 then m.nics.last1 else m.nics.last0) == Ptp.Locked
  }

  // -- Runs

  datatype Event =
    | DoStart | DoStop | DoStartIO(playback: bool) | DoStopIO(playback: bool)
    | DoSetRate(rate: U32) | DoSetTic(tic: U64) | DoSetMax(max: U64) | DoActivate(second: bool)
    | DoClock(onSecond: bool, e: Ptp.Event) | DoTick(r: Reading)

  /** The frame sizes a caller may ask for, and the packets a clock is given between ticks. */
  predicate Allowed(m: Manager, e: Event)
  {
    match e
    case DoStart => Startable(m.audio)
    case DoSetRate(rate) => Startable(UpdateFrameSize(m.audio.(rate := rate)))
    case DoSetTic(tic) => Startable(UpdateFrameSize(m.audio.(ticAt1FS := tic)))
    case DoSetMax(max) => Startable(UpdateFrameSize(m.audio.(maxFrame := W32(max))))
    case DoClock(_, e) => e.Announce? || e.Sync? || e.FollowUp? || e.SetConfig?
    case _ => true
  }

  predicate Positive(c: Ptp.Clock) { c.frameSize > 0 && c.samplingRate > 0 }

  function Step(m: Manager, e: Event): Manager
    requires Allowed(m, e) && Positive(m.clock0) && Positive(m.clock1)
  {
    match e
    case DoStart => Start(m)
    case DoStop => Stop(m)
    case DoStartIO(p) => m.(io := StartIO(m.io, p))
    case DoStopIO(p) => m.(io := StopIO(m.io, p))
    case DoSetRate(rate) => SetRate(m, rate)
    case DoSetTic(tic) => Reframe(m, m.audio.(ticAt1FS := tic))
    case DoSetMax(max) => Reframe(m, m.audio.(maxFrame := W32(max)))
    case DoActivate(second) => m.(nics := if second then m.nics.(active1 := true) else m.nics.(active0 := true))
    case DoClock(second, e) =>
      if second then m.(clock1 := Ptp.Step(m.clock1, e)) else m.(clock0 := Ptp.Step(m.clock0, e))
    case DoTick(r) => Tick(m, r)
  }
}
