/** Runs of the stream pool from its initial state, and why a pool of twice the list size suffices. */
module PoolRuns {
  import opened PoolModel
  import opened PoolSafety

  /** Lock regions as they interleave; a leave names the outstanding snapshot it ends. */
  datatype Event =
    | AddStream(nic: nat, channels: nat, createSucceeds: bool)
    | RemoveStream(handle: nat)
    | RemoveAllStreams
    | TakeSnapshot
    | LeaveSnapshot(k: nat)

  function Step(p: Pool, e: Event): Pool
  {
    if !Indices(p.slots, p.ordered) then p
    else
      match e
      case AddStream(nic, channels, ok) => Add(p, nic, channels, ok).0
      case RemoveStream(h) => Remove(p, h).0
      case RemoveAllStreams => RemoveAll(p)
      case TakeSnapshot => Take(p)
      case LeaveSnapshot(k) => if k < |p.snapshots| then Leave(p, k) else p
  }

  function Run(p: Pool, es: seq<Event>): Pool
    decreases |es|
  {
    if es == [] then p else Step(Run(p, es[..|es| - 1]), es[|es| - 1])
  }

  function NicOf(i: nat): nat { if i < 128 then 0 else 1 }

  /** init_: twice MAX_SOURCE_STREAMS slots for each of the two NICs. */
  function FreshSlots(n: nat): (r: seq<Slot>)
    ensures |r| == n && forall i :: 0 <= i < n ==> r[i] == Slot(NicOf(i), false, 0, false, 0, 0, 0)
  {
    if n == 0 then [] else FreshSlots(n - 1) + [Slot(NicOf(n - 1), false, 0, false, 0, 0, 0)]
  }

  function Start(): Pool { Pool(FreshSlots(256), [], []) }

  lemma StepKeeps(p: Pool, e: Event)
    requires Inv(p)
    ensures Inv(Step(p, e))
  {
    match e
    case AddStream(nic, channels, ok) => AddKeeps(p, nic, channels, ok);
    case RemoveStream(h) => RemoveKeeps(p, h);
    case RemoveAllStreams => RemoveAllKeeps(p);
    case TakeSnapshot => TakeKeeps(p);
    case LeaveSnapshot(k) => if k < |p.snapshots| { LeaveKeeps(p, k); }
  }

  /** Reader safety on every run: reader counts are the outstanding snapshots, the streams of a snapshot
      stay alive and in place until it is left, nothing is torn down twice, the list is in order. */
  lemma {:induction false} SafeOnEveryRun(es: seq<Event>)
    ensures Inv(Run(Start(), es))
    decreases |es|
  {
    if es != [] {
      SafeOnEveryRun(es[..|es| - 1]);
      StepKeeps(Run(Start(), es[..|es| - 1]), es[|es| - 1]);
    }
  }

  // -- The doubled pool

  predicate NicsInPlace(slots: seq<Slot>) { |slots| == 256 && forall i :: 0 <= i < 256 ==> slots[i].nic == NicOf(i) }

  /** Every acquired slot is on the list. */
  predicate NoLeak(p: Pool) { forall i :: 0 <= i < |p.slots| && p.slots[i].active ==> i in p.ordered }

  /** What a caller can see before an add: no free slot on the NIC at all, or a stream that can be
      created and room on the list. */
  predicate AddGuard(p: Pool, nic: nat, createSucceeds: bool)
  {
    FirstFree(p.slots, nic, 0) == |p.slots| || (createSucceeds && |p.ordered| < MAX_SOURCE_STREAMS)
  }

  predicate Clean(p: Pool, e: Event) { e.AddStream? ==> AddGuard(p, e.nic, e.createSucceeds) }

  predicate AllClean(p: Pool, es: seq<Event>)
    decreases |es|
  {
    es == [] || (AllClean(p, es[..|es| - 1]) && Clean(Run(p, es[..|es| - 1]), es[|es| - 1]))
  }

  lemma InsertedHolds(ordered: seq<nat>, at: nat, i: nat)
    requires at <= |ordered|
    ensures i in ordered[..at] + [i] + ordered[at..]
    ensures forall j :: j in ordered ==> j in ordered[..at] + [i] + ordered[at..]
  {
    assert ordered == ordered[..at] + ordered[at..];
  }

  lemma WithoutHolds(ordered: seq<nat>, at: nat)
    requires at < |ordered|
    ensures forall j :: j in ordered && j != ordered[at] ==> j in ordered[..at] + ordered[at + 1..]
  {
    assert ordered == ordered[..at] + [ordered[at]] + ordered[at + 1..];
  }

  lemma AddNoLeak(p: Pool, nic: nat, channels: nat, ok: bool)
    requires Inv(p) && NoLeak(p) && Clean(p, AddStream(nic, channels, ok))
    ensures NoLeak(Add(p, nic, channels, ok).0)
  {
    var i := FirstFree(p.slots, nic, 0);
    if i < |p.slots| {
      var slots := p.slots[i := Create(p.slots[i], channels)];
      InsertedHolds(p.ordered, InsertAt(slots, p.ordered, channels, 0), i);
    }
  }

  lemma RemoveNoLeak(p: Pool, h: nat)
    requires Inv(p) && NoLeak(p)
    ensures NoLeak(Remove(p, h).0)
  {
    var k := IndexOf(p.ordered, h, 0);
    if k < |p.ordered| { WithoutHolds(p.ordered, k); }
  }

  lemma StepNoLeak(p: Pool, e: Event)
    requires Inv(p) && NoLeak(p) && Clean(p, e)
    ensures NoLeak(Step(p, e))
  {
    match e
    case AddStream(nic, channels, ok) => AddNoLeak(p, nic, channels, ok);
    case RemoveStream(h) => RemoveNoLeak(p, h);
    case _ =>
  }

  lemma StepKeepsNics(p: Pool, e: Event)
    requires NicsInPlace(p.slots)
    ensures NicsInPlace(Step(p, e).slots)
  {}

  /** Removing everything ends every leak. */
  lemma RemoveAllEndsLeaks(p: Pool)
    ensures NoLeak(RemoveAll(p))
  {}

  function ToSet(s: seq<nat>): set<nat> { set i | i in s }

  lemma {:induction false} SetAtMost(s: seq<nat>)
    ensures |ToSet(s)| <= |s|
    decreases |s|
  {
    if s != [] {
      var t := s[..|s| - 1];
      SetAtMost(t);
      assert s == t + [s[|s| - 1]];
      assert ToSet(s) == ToSet(t) + {s[|s| - 1]};
    }
  }

  function Range(a: nat, n: nat): (r: set<nat>)
    ensures forall i :: i in r <==> a <= i < a + n
  {
    if n == 0 then {} else Range(a, n - 1) + {a + n - 1}
  }

  lemma {:induction false} RangeSize(a: nat, n: nat)
    ensures |Range(a, n)| == n
  {
    if n > 0 { RangeSize(a, n - 1); }
  }

  lemma Pigeonhole(a: nat, n: nat, s: seq<nat>, t: seq<nat>)
    requires forall i :: a <= i < a + n ==> i in s || i in t
    ensures n <= |s| + |t|
  {
    RangeSize(a, n);
    SetAtMost(s);
    SetAtMost(t);
    SubsetSize(Range(a, n), ToSet(s) + ToSet(t));
  }

  lemma SubsetSize(a: set<nat>, b: set<nat>)
    requires a <= b
    ensures |a| <= |b|
  {
    assert b == a + (b - a);
  }

  /** The slots a snapshot list holds, when at most one is outstanding. */
  function HeldBy(snapshots: seq<Snapshot>): seq<nat> { if snapshots == [] then [] else snapshots[0].slots }

  lemma ReadIsHeld(p: Pool, i: nat)
    requires Inv(p) && |p.snapshots| <= 1 && i < |p.slots| && p.slots[i].readers != 0
    ensures i in HeldBy(p.snapshots)
  {
    assert p.slots[i].readers == Holders(p.snapshots, i);
    assert |p.snapshots| == 1 ==> Holders(p.snapshots[..0], i) == 0;
  }

  lemma HeldAtMost(p: Pool)
    requires Inv(p) && |p.snapshots| <= 1
    ensures |HeldBy(p.snapshots)| <= MAX_SOURCE_STREAMS
  {}

  /** Of the 128 slots of a NIC at most 63 are listed and at most 64 are held by the one snapshot. */
  lemma FreeSlotExists(p: Pool, nic: nat)
    requires Inv(p) && NicsInPlace(p.slots) && NoLeak(p) && |p.snapshots| <= 1
    requires |p.ordered| < MAX_SOURCE_STREAMS && nic < 2
    ensures FirstFree(p.slots, nic, 0) < |p.slots|
  {
    if FirstFree(p.slots, nic, 0) == |p.slots| {
      forall i | nic * 128 <= i < nic * 128 + 128 ensures i in p.ordered || i in HeldBy(p.snapshots) {
        assert p.slots[i].nic == nic;
        if !p.slots[i].active { ReadIsHeld(p, i); }
      }
      HeldAtMost(p);
      Pigeonhole(nic * 128, 128, p.ordered, HeldBy(p.snapshots));
    }
  }

  lemma {:induction false} CleanRunKeeps(es: seq<Event>)
    requires AllClean(Start(), es)
    ensures Inv(Run(Start(), es)) && NoLeak(Run(Start(), es)) && NicsInPlace(Run(Start(), es).slots)
    decreases |es|
  {
    SafeOnEveryRun(es);
    if es != [] {
      var before := Run(Start(), es[..|es| - 1]);
      CleanRunKeeps(es[..|es| - 1]);
      StepNoLeak(before, es[|es| - 1]);
      StepKeepsNics(before, es[|es| - 1]);
    }
  }

  /** The doubled pool suffices: after every run in which no add failed once it had a slot, with at most
      one snapshot outstanding and room on the list, an add to either NIC succeeds. */
  lemma AddSucceeds(es: seq<Event>, nic: nat, channels: nat)
    requires AllClean(Start(), es) && nic < 2
    requires var p := Run(Start(), es);
             |p.snapshots| <= 1 && |p.ordered| < MAX_SOURCE_STREAMS
    ensures Indices(Run(Start(), es).slots, Run(Start(), es).ordered)
    ensures Add(Run(Start(), es), nic, channels, true).1
  {
    CleanRunKeeps(es);
    FreeSlotExists(Run(Start(), es), nic);
  }

  /** An add leaks its slot exactly when it finds one but the stream cannot be created or the list is
      full: the slot stays acquired and on no list. */
  lemma AddLeaksIff(p: Pool, nic: nat, channels: nat, createSucceeds: bool)
    requires Inv(p) && NoLeak(p)
    ensures NoLeak(Add(p, nic, channels, createSucceeds).0) <==> AddGuard(p, nic, createSucceeds)
  {
    var i, q := FirstFree(p.slots, nic, 0), Add(p, nic, channels, createSucceeds).0;
    if AddGuard(p, nic, createSucceeds) {
      AddNoLeak(p, nic, channels, createSucceeds);
    } else {
      FreeIsUnlisted(p, i);
      assert q.slots[i].active && i !in q.ordered;
    }
  }

  /** An add succeeds exactly when it finds a slot, the stream can be created and the list has room. */
  lemma AddSucceedsIff(p: Pool, nic: nat, channels: nat, createSucceeds: bool)
    requires Inv(p)
    ensures Add(p, nic, channels, createSucceeds).1 <==>
            FirstFree(p.slots, nic, 0) < |p.slots| && AddGuard(p, nic, createSucceeds)
  {}

  /** The two failing cases: on a fresh pool a stream that cannot be created, ... */
  lemma FailedCreateLeaks(nic: nat, channels: nat)
    requires nic < 2
    ensures !NoLeak(Step(Start(), AddStream(nic, channels, false)))
  {
    SafeOnEveryRun([]);
    FreeSlotExists(Start(), nic);
    AddLeaksIff(Start(), nic, channels, false);
  }

  /** ... and on any pool a stream for which the list has no room. */
  lemma FullListLeaks(p: Pool, nic: nat, channels: nat)
    requires Inv(p) && |p.ordered| == MAX_SOURCE_STREAMS
    ensures var i, q := FirstFree(p.slots, nic, 0), Add(p, nic, channels, true).0;
            i < |p.slots| ==> !Add(p, nic, channels, true).1 && q.slots[i].active && q.slots[i].live && i !in q.ordered
  {
    var i := FirstFree(p.slots, nic, 0);
    if i < |p.slots| { FreeIsUnlisted(p, i); }
  }

  /** Slot i is acquired and on no list. */
  predicate Leaked(p: Pool, i: nat) { i < |p.slots| && p.slots[i].active && i !in p.ordered }

  lemma OtherStepKeepsLeak(p: Pool, e: Event, i: nat)
    requires Inv(p) && !e.RemoveAllStreams? && Leaked(p, i)
    ensures Leaked(Step(p, e), i)
  {
    match e
    case AddStream(nic, channels, ok) => AddKeepsLeak(p, nic, channels, ok, i);
    case RemoveStream(h) =>
      var k := IndexOf(p.ordered, h, 0);
      if k < |p.ordered| { assert h in p.ordered; }
    case _ =>
  }

  lemma AddKeepsLeak(p: Pool, nic: nat, channels: nat, ok: bool, i: nat)
    requires Inv(p) && Leaked(p, i)
    ensures Leaked(Add(p, nic, channels, ok).0, i)
  {
    var k := FirstFree(p.slots, nic, 0);
    assert k < |p.slots| ==> k != i;
  }

  /** A leaked slot stays leaked in every step but a remove-all, which takes it back. */
  lemma LeakStaysIff(p: Pool, e: Event, i: nat)
    requires Inv(p) && Leaked(p, i)
    ensures Leaked(Step(p, e), i) <==> !e.RemoveAllStreams?
  {
    if e.RemoveAllStreams? {
      RemoveAllEndsLeaks(p);
    } else {
      OtherStepKeepsLeak(p, e, i);
    }
  }
}
