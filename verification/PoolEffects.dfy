/** What each step of the stream pool changes and what it leaves alone, slot by slot, and which steps undo each
    other. */
module PoolEffects {
  import opened PoolModel
  import opened PoolSafety

  /** Nobody sends from the slot and nobody reads it. */
  predicate Unused(s: Slot, nic: nat) { s.nic == nic && !s.active && s.readers == 0 }

  /** All slots but i are as they were. */
  predicate OnlySlot(slots: seq<Slot>, slots': seq<Slot>, i: nat)
  {
    |slots'| == |slots| && forall k :: 0 <= k < |slots| && k != i ==> slots'[k] == slots[k]
  }

  /** i has been inserted at a position, behind all streams with as many channels or more. */
  predicate InsertedAt(slots: seq<Slot>, ordered: seq<nat>, ordered': seq<nat>, at: nat, i: nat, channels: nat)
    requires Indices(slots, ordered)
  {
    && at <= |ordered| && ordered' == ordered[..at] + [i] + ordered[at..]
    && (forall k :: 0 <= k < at ==> slots[ordered[k]].channels >= channels)
    && (forall k :: at <= k < |ordered| ==> slots[ordered[k]].channels < channels)
  }

  /** An add takes the first unused slot of the NIC, if there is one. When the stream can be created it lives
      there with its channels, and with room on the list it is listed in order; nothing else changes. */
  lemma AddEffect(p: Pool, nic: nat, channels: nat, createSucceeds: bool) returns (i: nat, at: nat)
    requires Inv(p)
    ensures var (q, ok) := Add(p, nic, channels, createSucceeds);
            if forall k :: 0 <= k < |p.slots| ==> !Unused(p.slots[k], nic) then q == p && !ok
            else
              && i < |p.slots| && Unused(p.slots[i], nic) && (forall k :: 0 <= k < i ==> !Unused(p.slots[k], nic))
              && OnlySlot(p.slots, q.slots, i) && q.snapshots == p.snapshots
              && ok == (createSucceeds && |p.ordered| < 64)
              && q.slots[i] == (if createSucceeds then Slot(nic, true, 0, true, channels, p.slots[i].created + 1, p.slots[i].torn)
                                else p.slots[i].(active := true))
              && if ok then InsertedAt(p.slots, p.ordered, q.ordered, at, i, channels) else q.ordered == p.ordered
  {
    i, at := FirstFree(p.slots, nic, 0), 0;
    if i < |p.slots| {
      assert Unused(p.slots[i], nic);
      FreeIsUnlisted(p, i);
      var slots := p.slots[i := Create(p.slots[i], channels)];
      SameChannels(p, slots, i);
      at := InsertAt(slots, p.ordered, channels, 0);
    }
  }

  lemma SameChannels(p: Pool, slots: seq<Slot>, i: nat)
    requires Inv(p) && i !in p.ordered && OnlySlot(p.slots, slots, i)
    ensures forall k :: 0 <= k < |p.ordered| ==> slots[p.ordered[k]] == p.slots[p.ordered[k]]
  {
    assert forall k :: 0 <= k < |p.ordered| ==> p.ordered[k] in p.ordered;
  }

  /** A slot nobody uses any more: the stream is torn down unless a snapshot still holds it. */
  function Freed(s: Slot): Slot
  {
    if s.readers == 0 && s.live then s.(active := false, live := false, torn := s.torn + 1) else s.(active := false)
  }

  /** A remove takes a listed stream off the list and frees its slot; nothing else changes. */
  lemma RemoveEffect(p: Pool, h: nat) returns (at: nat)
    requires Inv(p)
    ensures var (q, ok) := Remove(p, h);
            if h !in p.ordered then q == p && !ok
            else
              && ok && at < |p.ordered| && p.ordered[at] == h && q.ordered == p.ordered[..at] + p.ordered[at + 1..]
              && h < |p.slots| && OnlySlot(p.slots, q.slots, h) && q.slots[h] == Freed(p.slots[h])
              && q.snapshots == p.snapshots
  {
    at := IndexOf(p.ordered, h, 0);
  }

  /** Removing everything empties the list and frees every slot. */
  lemma RemoveAllEffect(p: Pool)
    ensures var q := RemoveAll(p);
            && q.ordered == [] && q.snapshots == p.snapshots && |q.slots| == |p.slots|
            && forall i :: 0 <= i < |p.slots| ==> q.slots[i] == Freed(p.slots[i])
  {}

  /** A snapshot is the list as it is, and each of its streams gets one more reader. */
  lemma TakeEffect(p: Pool)
    requires Inv(p)
    ensures var q := Take(p);
            && q.ordered == p.ordered && |q.slots| == |p.slots| && |q.snapshots| == |p.snapshots| + 1
            && q.snapshots[..|p.snapshots|] == p.snapshots && q.snapshots[|p.snapshots|].slots == p.ordered
            && forall i :: 0 <= i < |p.slots| ==>
                 q.slots[i] == p.slots[i].(readers := p.slots[i].readers + if i in p.ordered then 1 else 0)
  {}

  /** Leaving takes one reader off each stream of the snapshot; a stream that was removed in the meantime is torn
      down by its last reader. */
  lemma LeaveEffect(p: Pool, k: nat)
    requires Inv(p) && k < |p.snapshots|
    ensures var q, who := Leave(p, k), p.snapshots[k].slots;
            && q.ordered == p.ordered && |q.slots| == |p.slots|
            && q.snapshots == p.snapshots[..k] + p.snapshots[k + 1..]
            && forall i :: 0 <= i < |p.slots| ==>
                 q.slots[i] == if i !in who then p.slots[i]
                               else if p.slots[i].active || p.slots[i].readers > 1
                               then p.slots[i].(readers := p.slots[i].readers - 1)
                               else p.slots[i].(readers := 0, live := false, torn := p.slots[i].torn + 1)
  {
    var who := p.snapshots[k].slots;
    forall i | 0 <= i < |p.slots| && i in who ensures p.slots[i].readers >= 1 && p.slots[i].live {
      HolderCounts(p.snapshots, k, i);
      HeldIsLive(p, k, i);
    }
  }

  lemma HeldIsLive(p: Pool, k: nat, i: nat)
    requires Inv(p) && k < |p.snapshots| && i in p.snapshots[k].slots
    ensures i < |p.slots| && p.slots[i].live
  {
    assert SnapshotOk(p.slots, p.snapshots[k]);
    var x :| 0 <= x < |p.snapshots[k].slots| && p.snapshots[k].slots[x] == i;
  }

  // -- Steps that undo each other

  /** A snapshot that is taken and left at once has no effect at all. */
  lemma LeaveUndoesTake(p: Pool)
    requires Inv(p)
    ensures Leave(Take(p), |p.snapshots|) == p
  {
    var q := Take(p);
    var r := Leave(q, |p.snapshots|);
    assert q.snapshots[..|p.snapshots|] + q.snapshots[|p.snapshots| + 1..] == p.snapshots;
    forall i | 0 <= i < |p.slots| ensures r.slots[i] == p.slots[i] {
      if i in p.ordered { assert p.slots[i].active; }
    }
    assert r.slots == p.slots;
  }

  lemma WithoutInserted(ordered: seq<nat>, longer: seq<nat>, at: nat, i: nat)
    requires at <= |ordered| && longer == ordered[..at] + [i] + ordered[at..] && i !in ordered
    ensures i in longer
    ensures forall from :: 0 <= from < |longer| && longer[from] == i ==> longer[..from] + longer[from + 1..] == ordered
  {
    assert longer[at] == i;
    forall from | 0 <= from < |longer| && longer[from] == i
      ensures longer[..from] + longer[from + 1..] == ordered
    {
      assert forall k :: 0 <= k < |ordered| ==> ordered[k] in ordered;
      assert from == at;
    }
  }

  lemma RemoveNew(p: Pool, a: Pool, i: nat, at: nat, s: Slot)
    requires Inv(p) && Inv(a) && i < |p.slots| && i !in p.ordered && OnlySlot(p.slots, a.slots, i)
    requires at <= |p.ordered| && a.ordered == p.ordered[..at] + [i] + p.ordered[at..]
    requires a.snapshots == p.snapshots && a.slots[i] == s && s.readers == 0 && s.live
    ensures var q := Remove(a, i).0;
            && q.ordered == p.ordered && q.snapshots == p.snapshots && OnlySlot(p.slots, q.slots, i)
            && q.slots[i] == s.(active := false, live := false, torn := s.torn + 1)
  {
    WithoutInserted(p.ordered, a.ordered, at, i);
    var from := RemoveEffect(a, i);
  }

  /** Removing a stream that was just added restores the list and every slot but its own, which has been used once
      more. */
  lemma RemoveUndoesAdd(p: Pool, nic: nat, channels: nat) returns (i: nat)
    requires Inv(p) && Add(p, nic, channels, true).1
    ensures var q := Remove(Add(p, nic, channels, true).0, i).0;
            && q.ordered == p.ordered && q.snapshots == p.snapshots && i < |p.slots| && OnlySlot(p.slots, q.slots, i)
            && q.slots[i] == Slot(nic, false, 0, false, channels, p.slots[i].created + 1, p.slots[i].torn + 1)
  {
    var at;
    i, at := AddEffect(p, nic, channels, true);
    FreeIsUnlisted(p, i);
    AddKeeps(p, nic, channels, true);
    RemoveNew(p, Add(p, nic, channels, true).0, i, at,
              Slot(nic, true, 0, true, channels, p.slots[i].created + 1, p.slots[i].torn));
  }
}
