/** What every interleaving of add, remove, remove-all, snapshot and leave keeps of the stream pool. */
module PoolSafety {
  import opened PoolModel

  // -- The invariant

  /** A free slot holds no stream, and every stream created in a slot but the present one was torn
      down exactly once. */
  predicate SlotOk(s: Slot)
  {
    s.readers >= 0 && (IsFree(s) ==> !s.live) && s.created == s.torn + (if s.live then 1 else 0)
  }

  predicate SlotsOk(slots: seq<Slot>) { forall i :: 0 <= i < |slots| ==> SlotOk(slots[i]) }

  predicate Distinct(s: seq<nat>) { forall j, k :: 0 <= j < k < |s| ==> s[j] != s[k] }

  predicate ListedActive(slots: seq<Slot>, ordered: seq<nat>)
    requires Indices(slots, ordered)
  {
    forall k :: 0 <= k < |ordered| ==> slots[ordered[k]].active && slots[ordered[k]].live
  }

  predicate ByChannels(slots: seq<Slot>, ordered: seq<nat>)
    requires Indices(slots, ordered)
  {
    forall j, k :: 0 <= j < k < |ordered| ==> slots[ordered[j]].channels >= slots[ordered[k]].channels
  }

  /** The ordered list: active streams, each once, by falling number of channels. */
  predicate ListOk(slots: seq<Slot>, ordered: seq<nat>)
  {
    && |ordered| <= MAX_SOURCE_STREAMS && Indices(slots, ordered) && Distinct(ordered)
    && ListedActive(slots, ordered) && ByChannels(slots, ordered)
  }

  /** Outstanding snapshots that hold slot i. */
  function Holders(snapshots: seq<Snapshot>, i: nat): nat
  {
    if snapshots == [] then 0
    else Holders(snapshots[..|snapshots| - 1], i) + (if i in snapshots[|snapshots| - 1].slots then 1 else 0)
  }

  predicate Counted(slots: seq<Slot>, snapshots: seq<Snapshot>)
  {
    forall i :: 0 <= i < |slots| ==> slots[i].readers == Holders(snapshots, i)
  }

  /** The streams of a snapshot are alive and still the ones it was taken of. */
  predicate SnapshotOk(slots: seq<Slot>, s: Snapshot)
  {
    && |s.streams| == |s.slots| <= MAX_SOURCE_STREAMS && Indices(slots, s.slots) && Distinct(s.slots)
    && forall k :: 0 <= k < |s.slots| ==> slots[s.slots[k]].live && slots[s.slots[k]].created == s.streams[k]
  }

  predicate SnapshotsOk(slots: seq<Slot>, snapshots: seq<Snapshot>)
  {
    forall k :: 0 <= k < |snapshots| ==> SnapshotOk(slots, snapshots[k])
  }

  predicate Inv(p: Pool)
  {
    SlotsOk(p.slots) && ListOk(p.slots, p.ordered) && Counted(p.slots, p.snapshots) && SnapshotsOk(p.slots, p.snapshots)
  }

  // -- Readers

  lemma {:induction false} HolderCounts(snapshots: seq<Snapshot>, k: nat, i: nat)
    requires k < |snapshots| && i in snapshots[k].slots
    ensures Holders(snapshots, i) >= 1
    decreases |snapshots|
  {
    if k < |snapshots| - 1 { HolderCounts(snapshots[..|snapshots| - 1], k, i); }
  }

  lemma {:induction false} HoldersWithout(snapshots: seq<Snapshot>, k: nat, i: nat)
    requires k < |snapshots|
    ensures Holders(snapshots, i)
            == Holders(snapshots[..k] + snapshots[k + 1..], i) + (if i in snapshots[k].slots then 1 else 0)
    decreases |snapshots|
  {
    var m := |snapshots| - 1;
    var rest := snapshots[..k] + snapshots[k + 1..];
    if k == m {
      assert rest == snapshots[..m];
    } else {
      HoldersWithout(snapshots[..m], k, i);
      assert snapshots[..m][..k] + snapshots[..m][k + 1..] == rest[..|rest| - 1];
    }
  }

  /** A change that leaves the streams of read slots alone keeps every snapshot good. */
  lemma SnapshotsKept(slots: seq<Slot>, slots': seq<Slot>, snapshots: seq<Snapshot>)
    requires Counted(slots, snapshots) && SnapshotsOk(slots, snapshots) && |slots'| == |slots|
    requires forall i :: 0 <= i < |slots| && slots[i].readers > 0 ==>
               slots'[i].live == slots[i].live && slots'[i].created == slots[i].created
    ensures SnapshotsOk(slots', snapshots)
  {
    forall k, j | 0 <= k < |snapshots| && 0 <= j < |snapshots[k].slots|
      ensures snapshots[k].slots[j] < |slots|
      ensures slots'[snapshots[k].slots[j]].live && slots'[snapshots[k].slots[j]].created == snapshots[k].streams[j]
    {
      var i := snapshots[k].slots[j];
      assert SnapshotOk(slots, snapshots[k]);
      HolderCounts(snapshots, k, i);
    }
    forall k | 0 <= k < |snapshots| ensures SnapshotOk(slots', snapshots[k]) {
      assert SnapshotOk(slots, snapshots[k]);
    }
  }

  lemma CountedKept(slots: seq<Slot>, slots': seq<Slot>, snapshots: seq<Snapshot>)
    requires Counted(slots, snapshots) && |slots'| == |slots|
    requires forall i :: 0 <= i < |slots| ==> slots'[i].readers == slots[i].readers
    ensures Counted(slots', snapshots)
  {}

  // -- The list

  /** The slots of the list keep what the list is about. */
  lemma ListKept(slots: seq<Slot>, slots': seq<Slot>, ordered: seq<nat>)
    requires ListOk(slots, ordered) && |slots'| == |slots|
    requires forall k :: 0 <= k < |ordered| ==>
               var i := ordered[k]; slots'[i].active && slots'[i].live && slots'[i].channels == slots[i].channels
    ensures ListOk(slots', ordered)
  {}

  function Inserted(ordered: seq<nat>, at: nat, i: nat): (r: seq<nat>)
    requires at <= |ordered|
    ensures |r| == |ordered| + 1 && r[at] == i
    ensures forall k :: 0 <= k < |r| && k != at ==> r[k] == ordered[if k < at then k else k - 1]
  {
    ordered[..at] + [i] + ordered[at..]
  }

  function Without(ordered: seq<nat>, at: nat): (r: seq<nat>)
    requires at < |ordered|
    ensures |r| == |ordered| - 1
    ensures forall k :: 0 <= k < |r| ==> r[k] == ordered[if k < at then k else k + 1]
  {
    ordered[..at] + ordered[at + 1..]
  }

  lemma InsertOk(slots: seq<Slot>, ordered: seq<nat>, at: nat, i: nat)
    requires ListOk(slots, ordered) && |ordered| < MAX_SOURCE_STREAMS && at <= |ordered|
    requires i < |slots| && i !in ordered && slots[i].active && slots[i].live
    requires forall k :: 0 <= k < at ==> slots[i].channels <= slots[ordered[k]].channels
    requires at < |ordered| ==> slots[i].channels > slots[ordered[at]].channels
    ensures ListOk(slots, Inserted(ordered, at, i))
  {
    var r := Inserted(ordered, at, i);
    forall k | 0 <= k < |r| ensures r[k] < |slots| && slots[r[k]].active && slots[r[k]].live {}
    forall j, k | 0 <= j < k < |r| ensures r[j] != r[k] && slots[r[j]].channels >= slots[r[k]].channels {
      if j == at {
        assert ordered[k - 1] in ordered;
      } else if k == at {
        assert ordered[j] in ordered;
      }
    }
  }

  lemma WithoutOk(slots: seq<Slot>, ordered: seq<nat>, at: nat)
    requires ListOk(slots, ordered) && at < |ordered|
    ensures ListOk(slots, Without(ordered, at)) && ordered[at] !in Without(ordered, at)
  {}

  // -- Every step keeps the invariant

  lemma FreeIsUnlisted(p: Pool, i: nat)
    requires Inv(p) && i < |p.slots| && IsFree(p.slots[i])
    ensures i !in p.ordered
  {}

  /** Only a free slot changes, and only its stream. */
  lemma AcquireKeeps(p: Pool, i: nat, s: Slot)
    requires Inv(p) && i < |p.slots| && IsFree(p.slots[i]) && SlotOk(s) && s.readers == 0
    ensures Inv(p.(slots := p.slots[i := s])) && i !in p.ordered
  {
    var slots := p.slots[i := s];
    FreeIsUnlisted(p, i);
    assert forall k :: 0 <= k < |p.ordered| ==> p.ordered[k] in p.ordered;
    ListKept(p.slots, slots, p.ordered);
    CountedKept(p.slots, slots, p.snapshots);
    SnapshotsKept(p.slots, slots, p.snapshots);
  }

  lemma AddKeeps(p: Pool, nic: nat, channels: nat, createSucceeds: bool)
    requires Inv(p)
    ensures Inv(Add(p, nic, channels, createSucceeds).0)
  {
    var i := FirstFree(p.slots, nic, 0);
    if i < |p.slots| {
      if !createSucceeds {
        AcquireKeeps(p, i, p.slots[i].(active := true));
      } else {
        AcquireKeeps(p, i, Create(p.slots[i], channels));
        var slots := p.slots[i := Create(p.slots[i], channels)];
        if |p.ordered| < MAX_SOURCE_STREAMS {
          var at := InsertAt(slots, p.ordered, channels, 0);
          InsertOk(slots, p.ordered, at, i);
        }
      }
    }
  }

  lemma ReleaseOneKeeps(p: Pool, h: nat)
    requires Inv(p) && h < |p.slots| && h !in p.ordered
    ensures Inv(p.(slots := p.slots[h := Release(p.slots[h])]))
  {
    var slots := p.slots[h := Release(p.slots[h])];
    assert forall k :: 0 <= k < |p.ordered| ==> p.ordered[k] in p.ordered;
    ListKept(p.slots, slots, p.ordered);
    CountedKept(p.slots, slots, p.snapshots);
    SnapshotsKept(p.slots, slots, p.snapshots);
  }

  /** Removing a listed stream always succeeds. */
  lemma RemoveKeeps(p: Pool, h: nat)
    requires Inv(p)
    ensures Inv(Remove(p, h).0)
    ensures Remove(p, h).1 <==> h in p.ordered
    ensures h !in Remove(p, h).0.ordered
  {
    var k := IndexOf(p.ordered, h, 0);
    if k < |p.ordered| {
      WithoutOk(p.slots, p.ordered, k);
      ReleaseOneKeeps(p.(ordered := Without(p.ordered, k)), h);
    }
  }

  lemma RemoveAllKeeps(p: Pool)
    requires Inv(p)
    ensures Inv(RemoveAll(p))
  {
    CountedKept(p.slots, ReleaseAll(p.slots), p.snapshots);
    SnapshotsKept(p.slots, ReleaseAll(p.slots), p.snapshots);
  }

  lemma TakeKeeps(p: Pool)
    requires Inv(p)
    ensures Inv(Take(p))
  {
    var slots, taken := EnterAll(p.slots, p.ordered), Snapshot(p.ordered, Streams(p.slots, p.ordered));
    ListKept(p.slots, slots, p.ordered);
    SnapshotsKept(p.slots, slots, p.snapshots);
    assert SnapshotOk(slots, taken);
    assert (p.snapshots + [taken])[..|p.snapshots|] == p.snapshots;
  }

  lemma LeaveKeeps(p: Pool, k: nat)
    requires Inv(p) && k < |p.snapshots|
    ensures Inv(Leave(p, k))
  {
    var rest := p.snapshots[..k] + p.snapshots[k + 1..];
    var who := p.snapshots[k].slots;
    var slots := LeaveAll(p.slots, who);
    forall i | 0 <= i < |slots| ensures slots[i].readers == Holders(rest, i) && SlotOk(slots[i]) {
      HoldersWithout(p.snapshots, k, i);
      assert SlotOk(p.slots[i]);
    }
    ListKept(p.slots, slots, p.ordered);
    RestKept(p, k, rest, slots);
  }

  /** The streams that other snapshots hold survive the leave. */
  lemma RestKept(p: Pool, k: nat, rest: seq<Snapshot>, slots: seq<Slot>)
    requires Inv(p) && k < |p.snapshots| && rest == p.snapshots[..k] + p.snapshots[k + 1..]
    requires slots == LeaveAll(p.slots, p.snapshots[k].slots) && Counted(slots, rest)
    ensures SnapshotsOk(slots, rest)
  {
    forall j | 0 <= j < |rest| ensures SnapshotOk(slots, rest[j]) {
      assert SnapshotOk(p.slots, rest[j]);
      forall x | 0 <= x < |rest[j].slots|
        ensures slots[rest[j].slots[x]].live && slots[rest[j].slots[x]].created == rest[j].streams[x]
      {
        HolderCounts(rest, j, rest[j].slots[x]);
      }
    }
  }
}
