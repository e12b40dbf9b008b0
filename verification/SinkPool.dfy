/** The sink side of driver/RTP_streams_manager.c as it works on its arrays. */
module SinkPool {
  import opened SinkPairs
  import StreamPool

  class SinkPool {
    const slots: array<Sink>
    const list0: array<nat>
    const list1: array<nat>
    var count0: nat
    var count1: nat

    ghost predicate InBounds()
      reads this
    {
      list0 != list1 && count0 <= MAX_SINK_STREAMS == list0.Length && count1 <= MAX_SINK_STREAMS == list1.Length
    }

    ghost function Value(): Sinks
      requires InBounds()
      reads this, slots, list0, list1
    {
      Sinks(slots[..], list0[..count0], list1[..count1])
    }

    ghost predicate Valid()
      reads this, slots, list0, list1
    {
      InBounds() && Indices(slots[..], list0[..count0]) && Indices(slots[..], list1[..count1])
    }

    /** init_ for two NICs. */
    constructor ()
      ensures Valid() && Inv(Value())
      ensures Fresh(Value()) && |Value().slots| == 256 && fresh(slots) && fresh(list0) && fresh(list1)
      ensures forall i :: 0 <= i < 256 ==> Value().slots[i].nic == if i < 128 then 0 else 1
    {
      var all := new Sink[256](_ => Sink(0, false, 0, Alone));
      var i := 0;
      while i < 256
        invariant 0 <= i <= 256
        invariant forall j :: 0 <= j < i ==> all[j] == Sink(if j < 128 then 0 else 1, false, 0, Alone)
      {
        all[i] := Sink(if i < 128 then 0 else 1, false, 0, Alone);
        i := i + 1;
      }
      slots, list0, list1 := all, new nat[64](_ => 0), new nat[64](_ => 0);
      count0, count1 := 0, 0;
      new;
      MatchedOnEveryRun(Value(), []);
    }

    /** Whatever is added, the arrays follow the step; with an id that is new on its NIC and room on the
        list the links stay a symmetric matching. */
    method Add(nic: nat, id: nat, createSucceeds: bool) returns (ok: bool, handle: nat)
      requires Valid()
      modifies this`count0, this`count1, slots, list0, list1
      ensures Valid() && (Value(), ok) == SinkPairs.Add(old(Value()), nic, id, createSucceeds)
      ensures ok ==> handle in Value().list0 || handle in Value().list1
      ensures old(Inv(Value()) && Fits(Value(), AddSink(nic, id, createSucceeds))) ==> Inv(Value())
    {
      if Inv(Value()) && Fits(Value(), AddSink(nic, id, createSucceeds)) {
        AddKeeps(Value(), nic, id, createSucceeds);
      }
      ok, handle := AddTo(nic, id, createSucceeds);
    }

    method AddTo(nic: nat, id: nat, createSucceeds: bool) returns (ok: bool, handle: nat)
      requires Valid()
      modifies this`count0, this`count1, slots, list0, list1
      ensures Valid() && (Value(), ok) == SinkPairs.Add(old(Value()), nic, id, createSucceeds)
      ensures ok ==> handle in Value().list0 || handle in Value().list1
    {
      ok, handle := false, 0;
      if nic >= 2 {
        return;
      }
      var i := FindFree(nic);
      if i < slots.Length {
        handle := i;
        if !createSucceeds {
          slots[i] := slots[i].(active := true, id := id);
          assert slots[..] == Acquired(old(slots[..]), i, id);
        } else if nic == 0 {
          JoinIn(list1, count1, i, id);
          ok := Append0(i);
        } else {
          JoinIn(list0, count0, i, id);
          ok := Append1(i);
        }
      }
    }

    method FindFree(nic: nat) returns (i: nat)
      ensures i == FirstFree(slots[..], nic, 0)
    {
      ghost var s := slots[..];
      i := 0;
      while i < slots.Length && (slots[i].active || slots[i].nic != nic)
        invariant 0 <= i <= slots.Length && FirstFree(s, nic, 0) == FirstFree(s, nic, i)
      {
        i := i + 1;
      }
    }

    method JoinIn(other: array<nat>, n: nat, i: nat, id: nat)
      requires i < slots.Length && n <= other.Length && Indices(slots[..], other[..n])
      modifies slots
      ensures slots[..] == Join(old(slots[..]), other[..n], i, id)
    {
      ghost var was := slots[..];
      slots[i] := slots[i].(active := true, id := id);
      assert slots[..] == was[i := was[i].(active := true, id := id)];
      AttachIn(slots, other, n, i);
    }

    method Append0(i: nat) returns (ok: bool)
      requires InBounds()
      modifies this`count0, list0
      ensures InBounds() && ok == (old(count0) < MAX_SINK_STREAMS)
      ensures list0[..count0] == if ok then old(list0[..count0]) + [i] else old(list0[..count0])
    {
      ok := count0 != MAX_SINK_STREAMS;
      if ok {
        list0[count0] := i;
        count0 := count0 + 1;
      }
    }

    method Append1(i: nat) returns (ok: bool)
      requires InBounds()
      modifies this`count1, list1
      ensures InBounds() && ok == (old(count1) < MAX_SINK_STREAMS)
      ensures list1[..count1] == if ok then old(list1[..count1]) + [i] else old(list1[..count1])
    {
      ok := count1 != MAX_SINK_STREAMS;
      if ok {
        list1[count1] := i;
        count1 := count1 + 1;
      }
    }

    method Remove(h: nat) returns (ok: bool)
      requires Valid()
      modifies this`count0, this`count1, slots, list0, list1
      ensures Valid() && (Value(), ok) == SinkPairs.Remove(old(Value()), h)
      ensures old(Inv(Value())) ==> Inv(Value())
    {
      if Inv(Value()) {
        RemoveKeeps(Value(), h);
      }
      var j := Find(list0, count0, h);
      if j < count0 {
        RemoveAt0(j, h);
        return true;
      }
      var k := Find(list1, count1, h);
      if k < count1 {
        RemoveAt1(k, h);
        return true;
      }
      ok := false;
    }

    method RemoveAt0(at: nat, h: nat)
      requires Valid() && at < count0 && list0[at] == h
      modifies this`count0, slots, list0
      ensures InBounds() && list0[..count0] == Without(old(list0[..count0]), at)
      ensures slots[..] == Part(old(slots[..]), list1[..count1], h)
    {
      assert list0[..count0][at] == h;
      StreamPool.RemoveFrom(list0, count0, at);
      count0 := count0 - 1;
      PartIn(list1, count1, h);
    }

    method RemoveAt1(at: nat, h: nat)
      requires Valid() && at < count1 && list1[at] == h
      modifies this`count1, slots, list1
      ensures InBounds() && list1[..count1] == Without(old(list1[..count1]), at)
      ensures slots[..] == Part(old(slots[..]), list0[..count0], h)
    {
      assert list1[..count1][at] == h;
      StreamPool.RemoveFrom(list1, count1, at);
      count1 := count1 - 1;
      PartIn(list0, count0, h);
    }

    method Find(list: array<nat>, n: nat, h: nat) returns (at: nat)
      requires n <= list.Length
      ensures at == IndexOf(list[..n], h, 0)
    {
      ghost var l := list[..n];
      at := 0;
      while at < n && list[at] != h
        invariant 0 <= at <= n && IndexOf(l, h, 0) == IndexOf(l, h, at)
      {
        at := at + 1;
      }
    }

    method PartIn(other: array<nat>, n: nat, h: nat)
      requires h < slots.Length && n <= other.Length && Indices(slots[..], other[..n])
      modifies slots
      ensures slots[..] == Part(old(slots[..]), other[..n], h)
    {
      DetachIn(slots, other, n, h);
      slots[h] := slots[h].(active := false, id := 0);
    }
  }
}
