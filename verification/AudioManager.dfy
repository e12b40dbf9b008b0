/** The manager object of driver/manager.c, with its two clock objects. */
module AudioManager {
  import opened CInt
  import opened ManagerModel
  import ManagerSafety
  import opened LockWait
  import opened PtpClock
  import Ptp = PtpModel

  /** A message or a setting for one clock. */
  method Receive(c: ClockPtp, e: Ptp.Event)
    requires Positive(c.State()) && (e.Announce? || e.Sync? || e.FollowUp? || e.SetConfig?)
    modifies c
    ensures c.State() == Ptp.Step(old(c.State()), e)
  {
    match e
    case Announce(id, gmid, priority, dom, now) => c.ProcessAnnounce(id, gmid, priority, dom, now);
    case Sync(id, seqId, twoStep, origin, now) => c.ProcessSync(id, seqId, twoStep, origin, now);
    case FollowUp(id, seqId, origin) => c.ProcessFollowUp(id, seqId, origin);
    case SetConfig(dom, dscp) => c.SetPTPConfig(dom, dscp);
  }

  class AudioManager {
    const clock0: ClockPtp
    const clock1: ClockPtp
    var audio: Audio
    var io: Io
    var nics: Nics

    /** The invariant of every run of the manager; the constructor establishes it and every public method
        keeps it. */
    ghost predicate Valid()
      reads this, clock0, clock1
    {
      clock0 != clock1 && ManagerSafety.Inv(State())
    }

    constructor (audio: Audio)
      ensures Valid()
      ensures fresh(clock0) && fresh(clock1) && clock0 != clock1
      ensures State() == Manager(audio, Io(false, false, false, false),
                                 Nics(true, false, 0, Ptp.Unlocked, Ptp.Unlocked), Ptp.Initial(), Ptp.Initial())
    {
      clock0 := new ClockPtp();
      clock1 := new ClockPtp();
      this.audio, io := audio, Io(false, false, false, false);
      nics := Nics(true, false, 0, Ptp.Unlocked, Ptp.Unlocked);
    }

    ghost function State(): Manager
      reads this, clock0, clock1
    {
      Manager(audio, io, nics, clock0.State(), clock1.State())
    }

    method RefreshFrameSize()
      modifies `audio
      ensures audio == UpdateFrameSize(old(audio))
    {
      var fs := 1;
      if IsDsdRate(audio.rate) {
        fs := 8;
      } else {
        match audio.rate
        case 384000 => fs := 8;
        case 352800 => fs := 8;
        case 192000 => fs := 4;
        case 176400 => fs := 4;
        case 96000 => fs := 2;
        case 88200 => fs := 2;
        case _ => fs := 1;
      }
      audio := audio.(frameSize := W32(W32(audio.ticAt1FS) * fs));
      if audio.frameSize > audio.maxFrame {
        audio := audio.(frameSize := audio.maxFrame);
      }
    }

    method StartTimers()
      requires clock0 != clock1 && Startable(audio)
      modifies clock0, clock1
      ensures State() == StartClocks(old(State()))
    {
      if nics.active0 {
        clock0.StartTimer(audio.frameSize, ClockRate(audio.rate));
      }
      if nics.active1 {
        clock1.StartTimer(audio.frameSize, ClockRate(audio.rate));
      }
    }

    method Start()
      requires clock0 != clock1 && Startable(audio)
      modifies `io, clock0, clock1
      ensures State() == ManagerModel.Start(old(State()))
      ensures old(Valid()) ==> Valid()
    {
      if Valid() { ManagerSafety.StepKeeps(State(), DoStart); }
      StartTimers();
      io := io.(started := true);
    }

    method Stop()
      requires clock0 != clock1
      modifies `io, clock0, clock1
      ensures State() == ManagerModel.Stop(old(State()))
      ensures old(Valid()) ==> Valid()
    {
      if Valid() { ManagerSafety.StepKeeps(State(), DoStop); }
      if io.running {
        StopIO(false);
        StopIO(true);
      }
      clock0.StopTimer();
      clock1.StopTimer();
      io := io.(started := false);
    }

    method StartIO(playback: bool) returns (ok: bool)
      modifies `io
      ensures io == ManagerModel.StartIO(old(io), playback) && ok == old(io).started
      ensures old(Valid()) ==> Valid()
    {
      if Valid() { ManagerSafety.StepKeeps(State(), DoStartIO(playback)); }
      if !io.started {
        return false;
      }
      if playback {
        io := io.(playing := true);
      } else {
        io := io.(recording := true);
      }
      io := io.(running := true);
      ok := true;
    }

    method StopIO(playback: bool)
      modifies `io
      ensures io == ManagerModel.StopIO(old(io), playback)
      ensures old(Valid()) ==> Valid()
    {
      if Valid() { ManagerSafety.StepKeeps(State(), DoStopIO(playback)); }
      if (playback && !io.playing) || (!playback && !io.recording) {
        return;
      }
      if playback {
        io := io.(playing := false);
      } else {
        io := io.(recording := false);
      }
      io := io.(running := io.recording || io.playing);
    }

    /** Refused while I/O runs. While started it restarts the clocks and polls them, a millisecond apart;
        what happens in the sleep before each poll is a parameter. It succeeds only if one of the first
        3999 polls sees both clocks locked, which never happens with one NIC in use. */
    method SetSamplingRate(rate: U32, polls: seq<seq<Event>>) returns (ok: bool, ghost k: nat)
      requires Valid() && Startable(UpdateFrameSize(audio.(rate := rate))) && |polls| == 4000 && AllWaits(polls)
      modifies `audio, `nics, clock0, clock1
      ensures Valid() && ManagerSafety.Inv(SetRate(old(State()), rate)) && k <= 4000
      ensures State() == AtPoll(SetRate(old(State()), rate), polls, k)
      ensures if old(audio).rate == rate then ok && k == 0
              else if io.running then !ok && k == 0
              else if !io.started then ok && k == 0
              else if ok then k < 4000 && FirstLocked(SetRate(old(State()), rate), polls, k)
              else k == 4000 && NeverLocked(SetRate(old(State()), rate), polls, 4000)
      ensures ok && k > 0 ==> nics.active0 && nics.active1
    {
      ManagerSafety.StepKeeps(State(), DoSetRate(rate));
      k := 0;
      if audio.rate == rate {
        return true, 0;
      }
      if io.running {
        return false, 0;
      }
      audio := audio.(rate := rate);
      RefreshFrameSize();
      ok := true;
      if io.started {
        StartTimers();
        ok, k := WaitForLock(polls);
      }
    }

    method WaitForLock(polls: seq<seq<Event>>) returns (ok: bool, k: nat)
      requires Valid() && |polls| == 4000 && AllWaits(polls)
      modifies `nics, clock0, clock1
      ensures Valid() && 0 < k <= 4000 && State() == AtPoll(old(State()), polls, k)
      ensures if ok then k < 4000 && FirstLocked(old(State()), polls, k)
              else k == 4000 && NeverLocked(old(State()), polls, 4000)
    {
      k := 0;
      ok := false;
      while !ok && k < 4000
        invariant 0 <= k <= 4000 && Valid() && State() == AtPoll(old(State()), polls, k)
        invariant NeverLocked(old(State()), polls, k)
        invariant ok ==> 0 < k < 4000
        invariant 0 < k < 4000 ==> (ok <==> ManagerSafety.BothLocked(State()))
        decreases 4000 - k, !ok
      {
        Sleep(polls[k]);
        k := k + 1;
        if k < 4000 {
          var s0 := clock0.GetLockStatus();
          var s1 := clock1.GetLockStatus();
          ok := s0 == Ptp.Locked && s1 == Ptp.Locked;
        }
      }
    }

    /** The events of one sleep. */
    method Sleep(es: seq<Event>)
      requires Valid() && Waits(es)
      modifies `nics, clock0, clock1
      ensures Valid() && State() == Waited(old(State()), es)
    {
      var i := 0;
      while i < |es|
        invariant 0 <= i <= |es| && Valid() && Waits(es[i..])
        invariant Waited(State(), es[i..]) == Waited(old(State()), es)
      {
        assert es[i..][0] == es[i] && es[i..][1..] == es[i + 1..];
        Happen(es[i]);
        i := i + 1;
      }
    }

    method Happen(e: Event)
      requires Valid() && IsWait(e)
      modifies `nics, clock0, clock1
      ensures Valid() && State() == Step(old(State()), e)
    {
      match e
      case DoTick(r) =>
        var next := ClockTimer(r);
      case DoClock(second, e) =>
        ManagerSafety.StepKeeps(State(), DoClock(second, e));
        if second {
          Receive(clock1, e);
        } else {
          Receive(clock0, e);
        }
    }

    method SetTICFrameSizeAt1FS(size: U64)
      requires clock0 != clock1 && Startable(UpdateFrameSize(audio.(ticAt1FS := size)))
      modifies this, clock0, clock1
      ensures State() == Reframe(old(State()), old(audio).(ticAt1FS := size))
      ensures old(Valid()) ==> Valid()
    {
      if Valid() { ManagerSafety.StepKeeps(State(), DoSetTic(size)); }
      var restart := io.started;
      if restart {
        Stop();
      }
      audio := audio.(ticAt1FS := size);
      RefreshFrameSize();
      if restart {
        Start();
      }
    }

    method SetMaxTICFrameSize(size: U64)
      requires clock0 != clock1 && Startable(UpdateFrameSize(audio.(maxFrame := W32(size))))
      modifies this, clock0, clock1
      ensures State() == Reframe(old(State()), old(audio).(maxFrame := W32(size)))
      ensures old(Valid()) ==> Valid()
    {
      if Valid() { ManagerSafety.StepKeeps(State(), DoSetMax(size)); }
      var restart := io.started;
      if restart {
        Stop();
      }
      audio := audio.(maxFrame := W32(size));
      RefreshFrameSize();
      if restart {
        Start();
      }
    }

    method SelectPtpNic()
      modifies `nics
      ensures nics == Select(old(State()))
    {
      var s0 := clock0.GetLockStatus();
      var s1 := clock1.GetLockStatus();
      nics := nics.(last0 := s0, last1 := s1);
      if s0 == Ptp.Locked && clock0.master.priority <= clock1.master.priority {
        nics := nics.(selected := 0);
      } else if s1 == Ptp.Locked {
        nics := nics.(selected := 1);
      } else {
        nics := nics.(selected := 0);
      }
    }

    /** t_clock_timer up to AudioFrameTIC. */
    method ClockTimer(r: Reading) returns (next: U64)
      requires clock0 != clock1 && clock0.frameSize > 0 && clock1.frameSize > 0
      modifies `nics, clock0, clock1
      ensures State() == Tick(old(State()), r)
      ensures old(Valid()) ==> Valid()
    {
      if Valid() { ManagerSafety.StepKeeps(State(), DoTick(r)); }
      SelectPtpNic();
      var next0 := clock0.TimerProcess(r.now0, r.later0, r.up0);
      var next1 := clock1.TimerProcess(r.now1, r.later1, r.up1);
      if nics.selected == 1 {
        next := if clock1.started then next1 else r.stale;
        clock0.SetNextAbsoluteTime(next);
      } else {
        next := if clock0.started then next0 else r.stale;
        clock1.SetNextAbsoluteTime(next);
      }
    }
  }
}
