/** The wait for the lock at the end of SetSamplingRate in driver/manager.c: it can end in success exactly
    when both NICs are in use. */
module LockWait {
  import opened CInt
  import opened ManagerModel
  import opened ManagerSafety
  import opened PtpLock
  import PtpSafety
  import Ptp = PtpModel

  /** What happens while the caller waits: ticks, and messages and settings for the clocks. */
  predicate IsWait(e: Event) { e.DoTick? || (e.DoClock? && (e.e.Announce? || e.e.Sync? || e.e.FollowUp? || e.e.SetConfig?)) }

  ghost predicate Waits(es: seq<Event>) { forall i :: 0 <= i < |es| ==> IsWait(es[i]) }

  lemma WaitStep(m: Manager, e: Event)
    requires Inv(m) && IsWait(e)
    ensures Allowed(m, e) && Inv(Step(m, e))
    ensures Step(m, e).audio == m.audio && Step(m, e).io == m.io
    ensures Step(m, e).nics.active0 == m.nics.active0 && Step(m, e).nics.active1 == m.nics.active1
  {
    StepKeeps(m, e);
  }

  /** The manager after the events of a wait. */
  ghost function Waited(m: Manager, es: seq<Event>): (r: Manager)
    requires Inv(m) && Waits(es)
    ensures Inv(r) && r.audio == m.audio && r.io == m.io
    ensures r.nics.active0 == m.nics.active0 && r.nics.active1 == m.nics.active1
    decreases |es|
  {
    if es == [] then m
    else
      WaitStep(m, es[0]);
      Waited(Step(m, es[0]), es[1..])
  }

  /** A wait is a run of the manager. */
  lemma {:induction false} WaitIsRun(m: Manager, es: seq<Event>)
    requires Inv(m) && Waits(es)
    ensures AllowedRun(m, es) && Run(m, es) == Waited(m, es)
    decreases |es|
  {
    if es != [] {
      WaitStep(m, es[0]);
      WaitIsRun(Step(m, es[0]), es[1..]);
    }
  }

  ghost predicate AllWaits(polls: seq<seq<Event>>) { forall i :: 0 <= i < |polls| ==> Waits(polls[i]) }

  /** The manager at the k-th poll; polls[i] is what happens in the sleep before poll i + 1. */
  ghost function AtPoll(m: Manager, polls: seq<seq<Event>>, k: nat): (r: Manager)
    requires Inv(m) && AllWaits(polls) && k <= |polls|
    ensures Inv(r) && r.nics.active0 == m.nics.active0 && r.nics.active1 == m.nics.active1
  {
    if k == 0 then m else Waited(AtPoll(m, polls, k - 1), polls[k - 1])
  }

  /** No poll before the n-th sees both clocks locked. */
  ghost predicate NeverLocked(m: Manager, polls: seq<seq<Event>>, n: nat)
    requires Inv(m) && AllWaits(polls) && n <= |polls|
  {
    forall j :: 0 < j < n ==> !BothLocked(AtPoll(m, polls, j))
  }

  /** Poll k is the first one to see both clocks locked. */
  ghost predicate FirstLocked(m: Manager, polls: seq<seq<Event>>, k: nat)
    requires Inv(m) && AllWaits(polls)
  {
    0 < k <= |polls| && BothLocked(AtPoll(m, polls, k)) && NeverLocked(m, polls, k)
  }

  // -- A wait that succeeds

  function ClockOf(m: Manager, second: bool): Ptp.Clock { if second then m.clock1 else m.clock0 }

  /** Tick both clocks at local time zero. */
  const ZeroReading := Reading(0, 0, true, 0, 0, true, 0)

  lemma Ticked(m: Manager)
    requires Inv(m) && m.clock0.started && m.clock1.started
    ensures var m' := Step(m, DoTick(ZeroReading));
            && Inv(m')
            && m'.clock0.started && m'.clock0.times.lastRtx == 0
            && m'.clock1.started && m'.clock1.times.lastRtx == 0
  {
    StepKeeps(m, DoTick(ZeroReading));
    TickedAt(m.clock0);
    TickedAt(m.clock1);
  }

  /** One message for one of the clocks, the other one is left alone. */
  lemma OneMessage(m: Manager, second: bool, e: Ptp.Event)
    requires Inv(m) && IsWait(DoClock(second, e))
    ensures var m' := Step(m, DoClock(second, e));
            && Inv(m') && ClockOf(m', second) == Ptp.Step(ClockOf(m, second), e)
            && ClockOf(m', !second) == ClockOf(m, !second)
  {
    WaitStep(m, DoClock(second, e));
  }

  /** Syncs for one clock until it is locked. */
  lemma {:induction false} SyncsLockOne(m: Manager, second: bool, n: nat) returns (es: seq<Event>)
    requires Inv(m) && Ready(ClockOf(m, second)) && PtpSafety.Remaining(ClockOf(m, second).servo) <= n
    ensures Waits(es) && |es| == n && Ptp.Status(ClockOf(Waited(m, es), second).servo) == Ptp.Locked
    ensures ClockOf(Waited(m, es), !second) == ClockOf(m, !second)
    decreases n
  {
    var c := ClockOf(m, second);
    if n == 0 {
      es := [];
      AtMostEight(c);
    } else {
      var e := DoClock(second, GoodSync(c));
      GoodSyncCounts(c);
      OneMessage(m, second, GoodSync(c));
      var rest := SyncsLockOne(Step(m, e), second, n - 1);
      es := [e] + rest;
      assert es[1..] == rest;
    }
  }

  /** An Announce, then eight Syncs. */
  lemma LockOne(m: Manager, second: bool) returns (es: seq<Event>)
    requires Inv(m) && ClockOf(m, second).started && ClockOf(m, second).times.lastRtx == 0
    ensures Waits(es) && |es| == 9 && Ptp.Status(ClockOf(Waited(m, es), second).servo) == Ptp.Locked
    ensures ClockOf(Waited(m, es), !second) == ClockOf(m, !second)
  {
    var c := ClockOf(m, second);
    var e := DoClock(second, Candidate(c));
    Elected(c);
    OneMessage(m, second, Candidate(c));
    AtMostEight(Ptp.Step(c, Candidate(c)));
    var rest := SyncsLockOne(Step(m, e), second, 8);
    es := [e] + rest;
    assert es[1..] == rest;
  }

  lemma {:induction false} WaitedAppend(m: Manager, xs: seq<Event>, ys: seq<Event>)
    requires Inv(m) && Waits(xs) && Waits(ys)
    ensures Waited(m, xs + ys) == Waited(Waited(m, xs), ys)
    decreases |xs|
  {
    if xs == [] {
      assert xs + ys == ys;
    } else {
      WaitStep(m, xs[0]);
      assert (xs + ys)[1..] == xs[1..] + ys;
      WaitedAppend(Step(m, xs[0]), xs[1..], ys);
    }
  }

  /** First the one clock, then the other. */
  lemma LockInTurn(m: Manager) returns (es: seq<Event>)
    requires Inv(m)
    requires m.clock0.started && m.clock0.times.lastRtx == 0 && m.clock1.started && m.clock1.times.lastRtx == 0
    ensures Waits(es) && |es| == 18 && BothLocked(Waited(m, es))
  {
    var es0 := LockOne(m, false);
    var es1 := LockOne(Waited(m, es0), true);
    WaitedAppend(m, es0, es1);
    es := es0 + es1;
  }

  lemma LockBoth(m: Manager) returns (es: seq<Event>)
    requires Inv(m) && m.clock0.started && m.clock1.started
    ensures Waits(es) && |es| == 19 && BothLocked(Waited(m, es))
  {
    Ticked(m);
    var rest := LockInTurn(Step(m, DoTick(ZeroReading)));
    es := [DoTick(ZeroReading)] + rest;
    assert es[1..] == rest;
  }

  /** The clock of every NIC in use runs, as after every start and every rate change while started. */
  predicate InUseRun(m: Manager) { (m.nics.active0 ==> m.clock0.started) && (m.nics.active1 ==> m.clock1.started) }

  /** Some course of the 4000 sleeps lets one of the 3999 polls see both clocks locked. */
  ghost predicate CanSucceed(m: Manager)
    requires Inv(m)
  {
    exists polls: seq<seq<Event>>, k: nat :: |polls| == 4000 && AllWaits(polls) && k < 4000 && FirstLocked(m, polls, k)
  }

  /** All events of the wait in its first sleep. */
  lemma AtFirstPoll(m: Manager, es: seq<Event>) returns (polls: seq<seq<Event>>)
    requires Inv(m) && Waits(es) && BothLocked(Waited(m, es))
    ensures |polls| == 4000 && AllWaits(polls) && FirstLocked(m, polls, 1)
  {
    var idle: seq<Event> := [];
    polls := [es] + seq(3999, i => idle);
    assert AtPoll(m, polls, 0) == m;
  }

  lemma CanSucceedIff(m: Manager)
    requires Inv(m) && InUseRun(m)
    ensures CanSucceed(m) <==> m.nics.active0 && m.nics.active1
  {
    if m.nics.active0 && m.nics.active1 {
      var es := LockBoth(m);
      var polls := AtFirstPoll(m, es);
    } else {
      forall polls: seq<seq<Event>>, k: nat | |polls| == 4000 && AllWaits(polls) && k < 4000
        ensures !FirstLocked(m, polls, k)
      {
        if FirstLocked(m, polls, k) {
          OneNicNeverBothLocked(AtPoll(m, polls, k));
        }
      }
    }
  }

  /** A rate change while started can succeed if and only if both NICs are in use. */
  lemma RateChangeCanSucceedIff(m: Manager, rate: U32)
    requires Inv(m) && m.io.started && !m.io.running && m.audio.rate != rate
    requires Startable(UpdateFrameSize(m.audio.(rate := rate)))
    ensures Inv(SetRate(m, rate)) && (CanSucceed(SetRate(m, rate)) <==> m.nics.active0 && m.nics.active1)
  {
    SetRateKeeps(m, rate);
    CanSucceedIff(SetRate(m, rate));
  }
}
