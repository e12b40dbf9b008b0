/** LOCKED can be reached: from every state of a started clock a tick, an Announce and eight Syncs lead
    to it. */
module PtpLock {
  import opened CInt
  import opened PtpModel
  import opened PtpSafety
  import Arith

  /** A started clock with an elected master whose last tick was at local time zero. */
  predicate Ready(c: Clock) { ClockInv(c) && c.started && c.times.lastRtx == 0 && c.master.clockId != 0 }

  const ZeroTick := Tick(0, 0, true)

  /** The Announce of a master in the clock's own domain. */
  function Candidate(c: Clock): Event { Announce(1, 1, 0, c.config.domain, 0) }

  lemma TickedAt(c: Clock)
    requires ClockInv(c) && c.started
    ensures var c' := Step(c, ZeroTick); ClockInv(c') && c'.started && c'.times.lastRtx == 0
  {
    StepKeeps(c, ZeroTick);
  }

  lemma Elected(c: Clock)
    requires ClockInv(c) && c.started && c.times.lastRtx == 0
    ensures Ready(Step(c, Candidate(c)))
  {
    StepKeeps(c, Candidate(c));
  }

  /** A new master time. */
  function NextOrigin(c: Clock): U64 { if c.times.t1 == 0 then 1 else 0 }

  lemma FractionBound(c: Clock, t1: U64)
    requires ClockInv(c)
    ensures 0 <= FrameFraction(t1, c.samplingRate, c.frameSize) * NS_PER_UNIT < TWO63
  {
    var x := W64(t1 * c.samplingRate) / 10000 % c.frameSize * 10000;
    Arith.DivAtMost(x, c.samplingRate);
  }

  /** A one-step Sync of the elected master that arrives exactly when the last tick says it should. */
  function GoodSync(c: Clock): Event
    requires ClockInv(c)
  {
    FractionBound(c, NextOrigin(c));
    Sync(c.master.clockId, c.times.lastSyncSeq, false, NextOrigin(c),
         FrameFraction(NextOrigin(c), c.samplingRate, c.frameSize) * NS_PER_UNIT)
  }

  lemma OnTime(c: Clock)
    requires Ready(c)
    ensures var e := GoodSync(c); AcceptsTimestamp(c, e) && RawDelta(AtSync(c, e.now), e.origin) == 0
  {
    var ff := FrameFraction(NextOrigin(c), c.samplingRate, c.frameSize);
    assert ff * NS_PER_UNIT / NS_PER_UNIT == ff;
  }

  lemma ProcessKeepsRest(c: Clock, t1: U64)
    requires c.samplingRate > 0 && c.frameSize > 0
    ensures var c' := ProcessT1(c, t1); c'.times.lastRtx == c.times.lastRtx && c'.master == c.master
  {}

  /** Such a Sync brings LOCKED one step nearer. */
  lemma GoodSyncCounts(c: Clock)
    requires Ready(c)
    ensures var c' := Step(c, GoodSync(c)); Ready(c') && Remaining(c'.servo) == Max(Remaining(c.servo) - 1, 0)
  {
    var e := GoodSync(c);
    OnTime(c);
    SyncEffect(c, e);
    StepKeeps(c, e);
    ProcessT1Keeps(AtSync(c, e.now), e.origin);
    ProcessT1Progress(AtSync(c, e.now), e.origin);
    ProcessKeepsRest(AtSync(c, e.now), e.origin);
  }

  lemma AtMostEight(c: Clock)
    requires ClockInv(c) && c.started
    ensures Remaining(c.servo) <= 8
    ensures Remaining(c.servo) == 0 ==> Status(c.servo) == Locked
  {}

  lemma After(es: seq<Event>, e: Event)
    requires AllAllowed(es) && Allowed(e)
    ensures AllAllowed(es + [e]) && Run(es + [e]) == Step(Run(es), e)
  {
    assert (es + [e])[..|es|] == es;
  }

  lemma TickOn(es: seq<Event>) returns (on: seq<Event>)
    requires AllAllowed(es) && Run(es).started
    ensures AllAllowed(on) && es <= on && |on| == |es| + 1 && Run(on).started && Run(on).times.lastRtx == 0
  {
    TickedAt(Run(es));
    After(es, ZeroTick);
    on := es + [ZeroTick];
  }

  lemma ElectOn(es: seq<Event>) returns (on: seq<Event>)
    requires AllAllowed(es) && Run(es).started && Run(es).times.lastRtx == 0
    ensures AllAllowed(on) && es <= on && |on| == |es| + 1 && Ready(Run(on)) && Remaining(Run(on).servo) <= 8
  {
    var e := Candidate(Run(es));
    Elected(Run(es));
    After(es, e);
    AtMostEight(Step(Run(es), e));
    on := es + [e];
  }

  lemma SyncOn(es: seq<Event>) returns (on: seq<Event>)
    requires AllAllowed(es) && Ready(Run(es))
    ensures AllAllowed(on) && es <= on && |on| == |es| + 1 && Ready(Run(on))
    ensures Remaining(Run(on).servo) == Max(Remaining(Run(es).servo) - 1, 0)
  {
    var e := GoodSync(Run(es));
    GoodSyncCounts(Run(es));
    After(es, e);
    on := es + [e];
  }

  lemma {:induction false} SyncsLock(es: seq<Event>, n: nat) returns (on: seq<Event>)
    requires AllAllowed(es) && Ready(Run(es)) && Remaining(Run(es).servo) <= n
    ensures AllAllowed(on) && es <= on && |on| == |es| + n && Status(Run(on).servo) == Locked
    decreases n
  {
    if n == 0 {
      on := es;
      AtMostEight(Run(es));
    } else {
      var es1 := SyncOn(es);
      on := SyncsLock(es1, n - 1);
    }
  }

  /** Every run that ends with a started clock goes on to LOCKED, within ten more events. */
  lemma LockReachable(es: seq<Event>) returns (on: seq<Event>)
    requires AllAllowed(es) && Run(es).started
    ensures AllAllowed(on) && es <= on && |on| == |es| + 10 && Status(Run(on).servo) == Locked
  {
    var es1 := TickOn(es);
    var es2 := ElectOn(es1);
    on := SyncsLock(es2, 8);
  }
}
