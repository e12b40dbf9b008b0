/** Which messages a clock listens to: the election of a master by Announce, and Sync with Follow_Up. */
module PtpMessages {
  import opened CInt
  import opened PtpModel
  import opened PtpSafety

  // -- The election

  /** Settings unchanged since the last Announce, and an Announce in the clock's own domain. */
  predicate Plain(c: Clock, dom: Byte) { c.config.changed == c.config.seen && dom == c.config.domain }

  /** Time since the last Announce of the elected master [100 ns]. */
  function Age(c: Clock, now: U64): U64 { W64(now / 100 - c.master.announceTime) }

  /** An elected master that was heard within the last five seconds stays, whoever announces; only its own
      Announce is taken in, and the lock is left alone. */
  lemma LiveMasterStays(c: Clock, id: U64, gmid: U64, priority: Byte, dom: Byte, now: U64)
    requires Plain(c, dom) && c.master.clockId != 0 && c.master.announceTime != 0 && Age(c, now) <= 50_000_000
    ensures AnnounceStep(c, id, gmid, priority, dom, now)
            == if id == c.master.clockId then c.(master := Master(id, gmid, now / 100, priority)) else c
  {}

  /** Without a master, or with one that has been silent for more than five seconds, the sender of the next
      Announce is elected and the lock starts over. */
  lemma SilentMasterReplaced(c: Clock, id: U64, gmid: U64, priority: Byte, dom: Byte, now: U64)
    requires Plain(c, dom)
    requires c.master.clockId == 0 || (c.master.announceTime != 0 && Age(c, now) > 50_000_000)
    ensures AnnounceStep(c, id, gmid, priority, dom, now)
            == c.(master := Master(id, gmid, now / 100, priority),
                  servo := c.servo.(ptpLock := 4, ticLock := 5, igr := 0))
  {}

  /** A master whose last Announce carries time 0 is kept for ever. */
  lemma TimelessMasterStays(c: Clock, id: U64, gmid: U64, priority: Byte, dom: Byte, now: U64)
    requires Plain(c, dom) && c.master.clockId != 0 && c.master.announceTime == 0
    ensures AnnounceStep(c, id, gmid, priority, dom, now)
            == if id == c.master.clockId then c.(master := Master(id, gmid, now / 100, priority)) else c
  {}

  /** In a foreign domain an Announce changes nothing, unless it comes from the elected master, which is then
      given up. */
  lemma ForeignDomain(c: Clock, id: U64, gmid: U64, priority: Byte, dom: Byte, now: U64)
    requires c.config.changed == c.config.seen && dom != c.config.domain
    ensures AnnounceStep(c, id, gmid, priority, dom, now)
            == if id != c.master.clockId then c
               else c.(master := Master(0, 0, 0, 0), servo := c.servo.(ptpLock := 4, ticLock := 5, igr := 0))
  {}

  /** After a change of the settings the next Announce starts the election over: its sender is elected if it is
      in the new domain, and nobody otherwise. */
  lemma NewSettings(c: Clock, id: U64, gmid: U64, priority: Byte, dom: Byte, now: U64)
    requires c.config.changed != c.config.seen
    ensures var m := if dom == c.config.domain then Master(id, gmid, now / 100, priority) else Master(0, 0, 0, 0);
            AnnounceStep(c, id, gmid, priority, dom, now)
            == c.(config := c.config.(seen := c.config.changed), master := m,
                  servo := c.servo.(ptpLock := 4, ticLock := 5, igr := 0))
  {}

  /** Other settings start the election over with the next Announce: the sender is elected if it is in the new
      domain, even against a live master. The same settings change nothing. */
  lemma SettingsRestartElection(c: Clock, newDom: Byte, dscp: Byte, id: U64, gmid: U64, priority: Byte, dom: Byte, now: U64)
    requires c.config.changed == c.config.seen
    ensures var c1 := ConfigStep(c, newDom, dscp);
            var c2 := AnnounceStep(c1, id, gmid, priority, dom, now);
            if newDom == c.config.domain && dscp == c.config.dscp then c1 == c
            else
              && c1 == c.(config := c1.config) && c1.config.domain == newDom && c1.config.dscp == dscp
              && c2.master == (if dom == newDom then Master(id, gmid, now / 100, priority) else Master(0, 0, 0, 0))
              && c2.servo == c.servo.(ptpLock := 4, ticLock := 5, igr := 0)
              && c2.config.changed == c2.config.seen
  {
    var c1 := ConfigStep(c, newDom, dscp);
    if c1 != c {
      CountsOn(c.config.changed);
      NewSettings(c1, id, gmid, priority, dom, now);
    }
  }

  lemma CountsOn(n: U32)
    ensures W32(n + 1) != n
  {}

  // -- A live master over a run

  /** No event gives a reason to elect another master: the settings stand still, nothing restarts, the master
      stays in its domain, and whenever an Announce in the domain comes in, the last one of the master, at
      heard, is at most five seconds back. */
  predicate KeepsAlive(es: seq<Event>, id: U64, dom: Byte, heard: U64)
    decreases |es|
  {
    es == [] ||
    match es[0]
    case SetConfig(_, _) => false
    case Announce(id', _, _, dom', now) =>
      if dom' != dom then id' != id && KeepsAlive(es[1..], id, dom, heard)
      else heard != 0 && W64(now / 100 - heard) <= 50_000_000
           && KeepsAlive(es[1..], id, dom, if id' == id then now / 100 else heard)
    case _ => KeepsAlive(es[1..], id, dom, heard)
  }

  /** A clock after further events. */
  ghost function Onward(c: Clock, es: seq<Event>): (r: Clock)
    requires ClockInv(c) && AllAllowed(es)
    ensures ClockInv(r)
    decreases |es|
  {
    if es == [] then c
    else
      StepKeeps(c, es[0]);
      Onward(Step(c, es[0]), es[1..])
  }

  /** What the election works on. */
  predicate SameElection(c: Clock, c': Clock) { c'.master == c.master && c'.config == c.config }

  lemma ProcessKeepsElection(c: Clock, t1: U64)
    requires c.samplingRate > 0 && c.frameSize > 0
    ensures SameElection(c, ProcessT1(c, t1))
  {}

  lemma OtherKeepsElection(c: Clock, e: Event)
    requires ClockInv(c) && Allowed(e) && !e.SetConfig? && !e.Announce?
    ensures SameElection(c, Step(c, e))
  {
    if e.Sync? {
      ProcessKeepsElection(AtSync(c, e.now), e.origin);
    } else if e.FollowUp? {
      ProcessKeepsElection(c, e.origin);
    }
  }

  lemma AnnounceKeepsLive(c: Clock, e: Event)
    requires c.samplingRate > 0 && c.frameSize > 0 && e.Announce? && c.config.changed == c.config.seen
    requires c.master.clockId != 0
    requires if e.dom != c.config.domain then e.id != c.master.clockId
             else c.master.announceTime != 0 && Age(c, e.now) <= 50_000_000
    ensures var c' := Step(c, e);
            && c'.master.clockId == c.master.clockId && c'.config == c.config && c'.servo == c.servo
            && c'.master.announceTime ==
               if c.started && e.dom == c.config.domain && e.id == c.master.clockId then e.now / 100
               else c.master.announceTime
  {
    if e.dom != c.config.domain {
      ForeignDomain(c, e.id, e.gmid, e.priority, e.dom, e.now);
    } else {
      LiveMasterStays(c, e.id, e.gmid, e.priority, e.dom, e.now);
    }
  }

  /** An elected master that is heard every five seconds is never replaced, whatever other masters announce. */
  lemma {:induction false} LiveMasterElected(c: Clock, es: seq<Event>)
    requires ClockInv(c) && AllAllowed(es) && c.started && c.config.changed == c.config.seen && c.master.clockId != 0
    requires forall i :: 0 <= i < |es| ==> !es[i].Stop?
    requires KeepsAlive(es, c.master.clockId, c.config.domain, c.master.announceTime)
    ensures Onward(c, es).master.clockId == c.master.clockId
    decreases |es|
  {
    if es != [] {
      StepKeeps(c, es[0]);
      LiveStep(c, es[0]);
      LiveMasterElected(Step(c, es[0]), es[1..]);
    }
  }

  lemma LiveStep(c: Clock, e: Event)
    requires ClockInv(c) && Allowed(e) && c.started && !e.Stop? && !e.SetConfig?
    requires c.config.changed == c.config.seen && c.master.clockId != 0
    requires e.Announce? ==> if e.dom != c.config.domain then e.id != c.master.clockId
                             else c.master.announceTime != 0 && Age(c, e.now) <= 50_000_000
    ensures var c' := Step(c, e);
            && c'.started && c'.config == c.config && c'.master.clockId == c.master.clockId
            && c'.master.announceTime ==
               if e.Announce? && e.dom == c.config.domain && e.id == c.master.clockId then e.now / 100
               else c.master.announceTime
  {
    if e.Announce? {
      AnnounceKeepsLive(c, e);
      AnnounceEffect(c, e.id, e.gmid, e.priority, e.dom, e.now);
    } else {
      OtherKeepsElection(c, e);
      if e.Sync? {
        SyncEffect(c, e);
        ProcessT1Keeps(AtSync(c, e.now), e.origin);
      } else if e.FollowUp? {
        FollowUpEffect(c, e);
        ProcessT1Keeps(c, e.origin);
      }
    }
  }

  // -- Sync and Follow_Up

  /** Messages of anyone but the elected master are ignored. */
  lemma ForeignSync(c: Clock, id: U64, seqId: U16, twoStep: bool, origin: U64, now: U64)
    requires c.samplingRate > 0 && c.frameSize > 0 && id != c.master.clockId
    ensures SyncStep(c, id, seqId, twoStep, origin, now) == c && FollowUpStep(c, id, seqId, origin) == c
  {}

  /** A Sync whose number is not among the last one and the four after it starts the lock over, and none of its
      times is used. */
  lemma SyncGap(c: Clock, seqId: U16, twoStep: bool, origin: U64, now: U64)
    requires c.samplingRate > 0 && c.frameSize > 0 && W16(seqId - c.times.lastSyncSeq) > 4
    ensures SyncStep(c, c.master.clockId, seqId, twoStep, origin, now)
            == c.(servo := c.servo.(ptpLock := 4, ticLock := 5, igr := 0),
                  times := c.times.(deltaT2 := 0, lastSyncSeq := seqId))
  {}

  /** The first half of a two-step Sync notes its arrival and the time of the last tick, and nothing else. */
  lemma TwoStepSync(c: Clock, seqId: U16, origin: U64, now: U64)
    requires c.samplingRate > 0 && c.frameSize > 0 && W16(seqId - c.times.lastSyncSeq) <= 4
    ensures var t2 := now / 100_000;
            SyncStep(c, c.master.clockId, seqId, true, origin, now)
            == c.(times := c.times.(t2 := t2, deltaT2 := W64(t2 - c.times.t2), lastRtxAtT2 := c.times.lastRtx,
                                    lastSyncSeq := seqId))
  {}

  lemma ProcessCommutes(c: Clock, t1: U64, seqId: U16)
    requires c.samplingRate > 0 && c.frameSize > 0
    ensures var c' := ProcessT1(c, t1);
            ProcessT1(c.(times := c.times.(lastSyncSeq := seqId)), t1) == c'.(times := c'.times.(lastSyncSeq := seqId))
  {
    var d := c.(times := c.times.(lastSyncSeq := seqId));
    if t1 != c.times.t1 {
      CountDownCommutes(c, d, t1, seqId);
    }
  }

  lemma CountDownCommutes(c: Clock, d: Clock, t1: U64, seqId: U16)
    requires c.samplingRate > 0 && c.frameSize > 0 && t1 != c.times.t1 && d == c.(times := c.times.(lastSyncSeq := seqId))
    ensures var c1, d1 := CountDown(c, t1), CountDown(d, t1);
            d1 == c1.(times := d.times) && c1.times == c.times && RawDelta(d1, t1) == RawDelta(c1, t1)
  {
    PrimeCommutes(c.(servo := c.servo.(ptpLock := 1)), d.(servo := c.servo.(ptpLock := 1)), t1, seqId);
  }

  lemma PrimeCommutes(c: Clock, d: Clock, t1: U64, seqId: U16)
    requires c.samplingRate > 0 && c.frameSize > 0 && t1 != c.times.t1 && d == c.(times := c.times.(lastSyncSeq := seqId))
    ensures RawDelta(d, t1) == RawDelta(c, t1)
    ensures Prime(d, t1) == Prime(c, t1).(times := d.times) && Prime(c, t1).times == c.times
  {}

  /** A two-step Sync and its Follow_Up do together what a one-step Sync with the same time does. */
  lemma TwoStepsAreOne(c: Clock, seqId: U16, unused: U64, origin: U64, now: U64)
    requires c.samplingRate > 0 && c.frameSize > 0 && W16(seqId - c.times.lastSyncSeq) <= 4
    ensures var id := c.master.clockId;
            FollowUpStep(SyncStep(c, id, seqId, true, unused, now), id, seqId, origin)
            == SyncStep(c, id, seqId, false, origin, now)
  {
    ProcessCommutes(AtSync(c, now), origin, seqId);
  }

  /** A Follow_Up with the number of any other Sync is ignored. */
  lemma LateFollowUp(c: Clock, seqId: U16, origin: U64)
    requires c.samplingRate > 0 && c.frameSize > 0 && seqId != c.times.lastSyncSeq
    ensures FollowUpStep(c, c.master.clockId, seqId, origin) == c
  {}

  /** A repeated time of the master is ignored. */
  lemma RepeatedTime(c: Clock)
    requires c.samplingRate > 0 && c.frameSize > 0
    ensures ProcessT1(c, c.times.t1) == c
  {}
}
