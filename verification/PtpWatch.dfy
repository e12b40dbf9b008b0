/** What a tick does besides counting: it starts the lock over when the link is down or the master has fallen
    silent, and catches up with a wake-up that is too late. */
module PtpWatch {
  import opened CInt
  import opened WakeUp
  import opened PtpModel
  import opened PtpSafety

  // -- Link and watchdog

  /** No Sync came in since the watchdog last looked, two seconds ago or more. */
  predicate Silent(c: Clock, time: U64)
  {
    W64(time - c.watchdog.time) >= 20_000 && c.watchdog.seqId == c.times.lastSyncSeq
  }

  /** A tick starts the lock over exactly when the link is down or the watchdog finds the master silent, and
      leaves the servo alone otherwise. */
  lemma TickResetsIff(c: Clock, now: U64, later: U64, linkUp: bool)
    requires c.frameSize > 0
    ensures var c', time := TickStep(c, now, later, linkUp), now / 100_000;
            && c'.servo == (if c.servo.ptpLock == 0 && (!linkUp || Silent(c, time))
                            then c.servo.(ptpLock := 4, ticLock := 5, igr := 0) else c.servo)
            && c'.watchdog == (if W64(time - c.watchdog.time) >= 20_000 then Watchdog(time, c.times.lastSyncSeq)
                               else c.watchdog)
            && c'.times == c.times.(lastRtx := time)
            && c'.master == c.master && c'.config == c.config
  {}

  /** Ticks at the given local times [100 us], without a message in between. */
  function Ticks(c: Clock, times: seq<U64>): Clock
    requires c.frameSize > 0
    decreases |times|
  {
    if times == [] then c else Ticks(TickAt(c, times[0]), times[1..])
  }

  function TickAt(c: Clock, time: U64): (c': Clock)
    requires c.frameSize > 0
    ensures c'.frameSize == c.frameSize
  {
    TickFrame(c, W64(time * 100_000));
    TickStep(c, W64(time * 100_000), W64(time * 100_000), true)
  }

  lemma TickFrame(c: Clock, now: U64)
    requires c.frameSize > 0
    ensures TickStep(c, now, now, true).frameSize == c.frameSize
  {}

  /** Local times that never run backwards and have not reached the end of the 64-bit nanosecond count. */
  predicate Ordered(start: nat, times: seq<U64>)
  {
    && (forall i :: 0 <= i < |times| ==> start <= times[i] && times[i] * 100_000 < TWO64)
    && forall i, j :: 0 <= i < j < |times| ==> times[i] <= times[j]
  }

  lemma TickIs(c: Clock, time: U64)
    requires c.frameSize > 0 && c.watchdog.time <= time && time * 100_000 < TWO64
    ensures var c' := TickAt(c, time);
            && c'.servo.ptpLock == (if c.servo.ptpLock == 0 && Silent(c, time) then 4 else c.servo.ptpLock)
            && c'.watchdog == (if time - c.watchdog.time >= 20_000 then Watchdog(time, c.times.lastSyncSeq) else c.watchdog)
            && c'.times.lastSyncSeq == c.times.lastSyncSeq
  {
    var now := time * 100_000;
    assert W64(now) == now && now / 100_000 == time && W64(time - c.watchdog.time) == time - c.watchdog.time;
    TickResetsIff(c, now, now, true);
  }

  lemma {:induction false} StaysUnlocked(c: Clock, times: seq<U64>)
    requires c.frameSize > 0 && c.servo.ptpLock > 0 && Ordered(c.watchdog.time, times)
    ensures Ticks(c, times).servo.ptpLock > 0
    decreases |times|
  {
    if times != [] {
      TickIs(c, times[0]);
      StaysUnlocked(TickAt(c, times[0]), times[1..]);
    }
  }

  lemma {:induction false} SecondLook(c: Clock, times: seq<U64>, j: nat)
    requires c.frameSize > 0 && Ordered(c.watchdog.time, times) && c.watchdog.seqId == c.times.lastSyncSeq
    requires j < |times| && times[j] - c.watchdog.time >= 20_000
    ensures Ticks(c, times).servo.ptpLock > 0
    decreases |times|
  {
    var c' := TickAt(c, times[0]);
    TickIs(c, times[0]);
    if times[0] - c.watchdog.time >= 20_000 {
      StaysUnlocked(c', times[1..]);
    } else {
      SecondLook(c', times[1..], j - 1);
    }
  }

  /** A master that sends no Sync is noticed: once two ticks i < j are two seconds apart, and i two seconds from
      the last look of the watchdog, the clock is unlocked. */
  lemma {:induction false} SilenceUnlocks(c: Clock, times: seq<U64>, i: nat, j: nat)
    requires c.frameSize > 0 && Ordered(c.watchdog.time, times) && i < j < |times|
    requires times[i] - c.watchdog.time >= 20_000 && times[j] - times[i] >= 20_000
    ensures Status(Ticks(c, times).servo) == Unlocked
    decreases |times|
  {
    var c' := TickAt(c, times[0]);
    TickIs(c, times[0]);
    if times[0] - c.watchdog.time >= 20_000 {
      SecondLook(c', times[1..], j - 1);
    } else {
      SilenceUnlocks(c', times[1..], i - 1, j - 1);
    }
  }

  // -- The wake-up

  /** The wake-up is at or before the time and half a period or more late. */
  predicate Late(next: U64, period: U64, time: U64) { next <= time && time - next >= period / 2 / U }

  /** Every tick moves the wake-up on by one period; only a clock that is not locked and comes half a period or
      more late restarts one base period from the time it is. */
  lemma TickWakes(c: Clock, now: U64, later: U64, linkUp: bool)
    requires c.frameSize > 0
    ensures var c', w, time := TickStep(c, now, later, linkUp), Advance(c.wake, c.servo.currentPeriod, 1), later / 100_000;
            c'.wake == if Late(w.next, c.servo.currentPeriod, time) && !(c'.servo.ptpLock == 0 && c'.servo.ticLock == 0)
                       then Wake(W64(time + c.servo.basePeriod / U), w.frac) else w
  {}

  lemma RestartIsAhead(time: U64, base: nat, q: nat)
    requires q == base / U && base >= U && time + q < TWO64
    ensures W64(time + q) > time
  {}

  /** After a tick that leaves the clock unlocked, the wake-up is not half a period late any more. */
  lemma NeverLate(c: Clock, now: U64, later: U64, linkUp: bool, q: nat)
    requires c.frameSize > 0 && c.servo.basePeriod >= U
    requires q == c.servo.basePeriod / U && later / 100_000 + q < TWO64
    ensures var c' := TickStep(c, now, later, linkUp);
            Status(c'.servo) != Locked ==> !Late(c'.wake.next, c.servo.currentPeriod, later / 100_000)
  {
    TickWakes(c, now, later, linkUp);
    RestartIsAhead(later / 100_000, c.servo.basePeriod, q);
  }
}
