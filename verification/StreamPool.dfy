/** The source side of driver/RTP_streams_manager.c as it works on its arrays. */
module StreamPool {
  import opened PoolModel
  import opened PoolSafety
  import PoolRuns

  // -- Loops over the slots and the ordered list

  method FindFree(slots: array<Slot>, nic: nat) returns (i: nat)
    ensures i == FirstFree(slots[..], nic, 0)
  {
    ghost var s := slots[..];
    i := 0;
    while i < slots.Length && !(IsFree(slots[i]) && slots[i].nic == nic)
      invariant 0 <= i <= slots.Length && FirstFree(s, nic, 0) == FirstFree(s, nic, i)
    {
      i := i + 1;
    }
  }

  method FindPlace(slots: array<Slot>, ordered: array<nat>, count: nat, channels: nat) returns (at: nat)
    requires count <= ordered.Length && Indices(slots[..], ordered[..count])
    ensures at == InsertAt(slots[..], ordered[..count], channels, 0)
  {
    ghost var s, o := slots[..], ordered[..count];
    at := 0;
    while at < count && channels <= slots[ordered[at]].channels
      invariant 0 <= at <= count && InsertAt(s, o, channels, 0) == InsertAt(s, o, channels, at)
    {
      at := at + 1;
    }
  }

  method FindHandle(ordered: array<nat>, count: nat, h: nat) returns (at: nat)
    requires count <= ordered.Length
    ensures at == IndexOf(ordered[..count], h, 0)
  {
    ghost var o := ordered[..count];
    at := 0;
    while at < count && ordered[at] != h
      invariant 0 <= at <= count && IndexOf(o, h, 0) == IndexOf(o, h, at)
    {
      at := at + 1;
    }
  }

  /** Moves the tail up by one, from the end, and puts x into the gap. */
  method InsertInto(a: array<nat>, n: nat, at: nat, x: nat)
    requires at <= n < a.Length
    modifies a
    ensures a[..n + 1] == old(a[..n])[..at] + [x] + old(a[..n])[at..]
  {
    var k := n;
    while k > at
      invariant at <= k <= n
      invariant forall j :: 0 <= j < k ==> a[j] == old(a[j])
      invariant forall j :: k < j <= n ==> a[j] == old(a[j - 1])
    {
      a[k] := a[k - 1];
      k := k - 1;
    }
    a[at] := x;
  }

  /** Moves the tail down by one over position at. */
  method RemoveFrom(a: array<nat>, n: nat, at: nat)
    requires at < n <= a.Length
    modifies a
    ensures a[..n - 1] == old(a[..n])[..at] + old(a[..n])[at + 1..]
  {
    var k := at;
    while k < n - 1
      invariant at <= k <= n - 1
      invariant forall j :: 0 <= j < at ==> a[j] == old(a[j])
      invariant forall j :: at <= j < k ==> a[j] == old(a[j + 1])
      invariant forall j :: k <= j < n ==> a[j] == old(a[j])
    {
      a[k] := a[k + 1];
      k := k + 1;
    }
  }

  method ReleaseEach(slots: array<Slot>)
    modifies slots
    ensures slots[..] == ReleaseAll(old(slots[..]))
  {
    var i := 0;
    while i < slots.Length
      invariant 0 <= i <= slots.Length
      invariant forall j :: 0 <= j < slots.Length ==> slots[j] == if j < i then Release(old(slots[j])) else old(slots[j])
    {
      slots[i] := Release(slots[i]);
      i := i + 1;
    }
  }

  method EnterEach(slots: array<Slot>, who: seq<nat>)
    requires Indices(slots[..], who) && Distinct(who)
    modifies slots
    ensures slots[..] == EnterAll(old(slots[..]), who)
  {
    var k := 0;
    while k < |who|
      invariant 0 <= k <= |who|
      invariant forall j :: 0 <= j < slots.Length ==>
                  slots[j] == if j in who[..k] then ReaderEnter(old(slots[j])) else old(slots[j])
    {
      assert who[k] !in who[..k];
      slots[who[k]] := ReaderEnter(slots[who[k]]);
      assert who[..k + 1] == who[..k] + [who[k]];
      k := k + 1;
    }
    assert who[..k] == who;
  }

  method LeaveEach(slots: array<Slot>, who: seq<nat>)
    requires Indices(slots[..], who) && Distinct(who)
    modifies slots
    ensures slots[..] == LeaveAll(old(slots[..]), who)
  {
    var k := 0;
    while k < |who|
      invariant 0 <= k <= |who|
      invariant forall j :: 0 <= j < slots.Length ==>
                  slots[j] == if j in who[..k] then ReaderLeave(old(slots[j])) else old(slots[j])
    {
      assert who[k] !in who[..k];
      slots[who[k]] := ReaderLeave(slots[who[k]]);
      assert who[..k + 1] == who[..k] + [who[k]];
      k := k + 1;
    }
    assert who[..k] == who;
  }

  // -- The pool

  class SourcePool {
    const slots: array<Slot>
    const ordered: array<nat>
    var count: nat
    ghost var snapshots: seq<Snapshot>

    ghost predicate InBounds()
      reads this
    {
      count <= MAX_SOURCE_STREAMS < ordered.Length
    }

    ghost function Value(): Pool
      requires InBounds()
      reads this, slots, ordered
    {
      Pool(slots[..], ordered[..count], snapshots)
    }

    ghost predicate Valid()
      reads this, slots, ordered
    {
      InBounds() && Inv(Value())
    }

    /** init_ */
    constructor ()
      ensures Valid() && Value() == PoolRuns.Start() && fresh(slots) && fresh(ordered)
    {
      var slots := new Slot[256](_ => Slot(0, false, 0, false, 0, 0, 0));
      var i := 0;
      while i < 256
        invariant 0 <= i <= 256
        invariant forall j :: 0 <= j < i ==> slots[j] == Slot(PoolRuns.NicOf(j), false, 0, false, 0, 0, 0)
      {
        slots[i] := Slot(if i < 128 then 0 else 1, false, 0, false, 0, 0, 0);
        i := i + 1;
      }
      PoolRuns.SafeOnEveryRun([]);
      this.slots, ordered, count, snapshots := slots, new nat[128](_ => 0), 0, [];
      assert slots[..] == PoolRuns.FreshSlots(256);
    }

    method Add(nic: nat, channels: nat, createSucceeds: bool) returns (ok: bool, handle: nat)
      requires Valid()
      modifies this`count, slots, ordered
      ensures Valid()
      ensures (Value(), ok) == PoolModel.Add(old(Value()), nic, channels, createSucceeds)
      ensures ok ==> handle in Value().ordered && Value().slots[handle].created == old(Value()).slots[handle].created + 1
    {
      ghost var was := Value();
      AddKeeps(was, nic, channels, createSucceeds);
      ok, handle := false, 0;
      var i := FindFree(slots, nic);
      if i < slots.Length {
        handle := i;
        Acquire(was.slots, i, channels, createSucceeds);
        if createSucceeds {
          if count != MAX_SOURCE_STREAMS {
            Insert(was.ordered, i, channels);
            ok := true;
          }
        }
      }
    }

    method Acquire(ghost was: seq<Slot>, i: nat, channels: nat, createSucceeds: bool)
      requires was == slots[..] && i < slots.Length
      modifies slots
      ensures slots[..] == was[i := if createSucceeds then Create(was[i], channels) else was[i].(active := true)]
    {
      slots[i] := slots[i].(active := true);
      if createSucceeds {
        slots[i] := Create(slots[i], channels);
      }
    }

    method Insert(ghost list: seq<nat>, i: nat, channels: nat)
      requires InBounds() && count < MAX_SOURCE_STREAMS && list == ordered[..count] && Indices(slots[..], list)
      modifies this`count, ordered
      ensures InBounds()
      ensures var at := InsertAt(slots[..], list, channels, 0);
              ordered[..count] == list[..at] + [i] + list[at..]
    {
      var at := FindPlace(slots, ordered, count, channels);
      InsertInto(ordered, count, at, i);
      count := count + 1;
    }

    method Remove(h: nat) returns (ok: bool)
      requires Valid()
      modifies this`count, slots, ordered
      ensures Valid()
      ensures (Value(), ok) == PoolModel.Remove(old(Value()), h)
    {
      ghost var was := Value();
      RemoveKeeps(was, h);
      ok := false;
      var at := FindHandle(ordered, count, h);
      if at < count {
        RemoveFrom(ordered, count, at);
        count := count - 1;
        if slots[h].active {
          slots[h] := Release(slots[h]);
          assert slots[..] == was.slots[h := Release(was.slots[h])];
          ok := true;
        }
      }
    }

    method RemoveAll()
      requires Valid()
      modifies this`count, slots
      ensures Valid() && Value() == PoolModel.RemoveAll(old(Value()))
    {
      RemoveAllKeeps(Value());
      count := 0;
      ReleaseEach(slots);
    }

    /** Copies the list and enters every stream of it. */
    method Take() returns (who: seq<nat>)
      requires Valid()
      modifies this`snapshots, slots
      ensures Valid() && Value() == PoolModel.Take(old(Value())) && who == old(Value()).ordered
    {
      TakeKeeps(Value());
      who := ordered[..count];
      snapshots := snapshots + [Snapshot(who, Streams(slots[..], who))];
      EnterEach(slots, who);
    }

    /** Leaves every stream of an outstanding snapshot. */
    method Leave(ghost k: nat, who: seq<nat>)
      requires Valid() && k < |snapshots| && snapshots[k].slots == who
      modifies this`snapshots, slots
      ensures Valid() && Value() == PoolModel.Leave(old(Value()), k)
    {
      LeaveKeeps(Value(), k);
      assert SnapshotOk(slots[..], snapshots[k]);
      snapshots := snapshots[..k] + snapshots[k + 1..];
      LeaveEach(slots, who);
    }
  }
}
