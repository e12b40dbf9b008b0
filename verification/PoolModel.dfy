/** The pool of source streams of driver/RTP_streams_manager.c: slots with reader counts, the ordered
    list of streams that send, and the snapshots that readers work on outside the lock. Each lock
    region is one step. */
module PoolModel {

  const MAX_SOURCE_STREAMS: nat := 64

  /** A stream handler. created and torn count the streams that lived in it so far. */
  datatype Slot = Slot(nic: nat, active: bool, readers: int, live: bool, channels: nat, created: nat, torn: nat)

  predicate IsFree(s: Slot) { !s.active && s.readers == 0 }

  /** Cleanup: the stream is torn down once nobody uses it. */
  function Cleanup(s: Slot): Slot
  {
    if IsFree(s) && s.live then s.(live := false, torn := s.torn + 1) else s
  }

  function Release(s: Slot): Slot { Cleanup(s.(active := false)) }
  function ReaderEnter(s: Slot): Slot { s.(readers := s.readers + 1) }
  function ReaderLeave(s: Slot): Slot { Cleanup(s.(readers := s.readers - 1)) }

  /** Create in an acquired slot; it can fail and leaves the slot acquired then. */
  function Create(s: Slot, channels: nat): Slot { s.(active := true, live := true, channels := channels, created := s.created + 1) }

  /** A copy of the ordered list, with the stream each slot held when it was taken. */
  datatype Snapshot = Snapshot(slots: seq<nat>, streams: seq<nat>)

  datatype Pool = Pool(slots: seq<Slot>, ordered: seq<nat>, snapshots: seq<Snapshot>)

  // -- Searching

  /** The first free slot of a NIC at index i or after, or the number of slots. */
  function FirstFree(slots: seq<Slot>, nic: nat, i: nat): (r: nat)
    requires i <= |slots|
    ensures i <= r <= |slots|
    ensures r < |slots| ==> IsFree(slots[r]) && slots[r].nic == nic
    ensures forall k :: i <= k < r ==> !(IsFree(slots[k]) && slots[k].nic == nic)
    decreases |slots| - i
  {
    if i == |slots| || (IsFree(slots[i]) && slots[i].nic == nic) then i else FirstFree(slots, nic, i + 1)
  }

  /** Every entry of the list is a slot. */
  predicate Indices(slots: seq<Slot>, ordered: seq<nat>) { forall k :: 0 <= k < |ordered| ==> ordered[k] < |slots| }

  /** Before the first stream with fewer channels. */
  function InsertAt(slots: seq<Slot>, ordered: seq<nat>, channels: nat, i: nat): (r: nat)
    requires i <= |ordered| && Indices(slots, ordered)
    ensures i <= r <= |ordered|
    ensures r < |ordered| ==> channels > slots[ordered[r]].channels
    ensures forall k :: i <= k < r ==> channels <= slots[ordered[k]].channels
    decreases |ordered| - i
  {
    if i == |ordered| || channels > slots[ordered[i]].channels then i else InsertAt(slots, ordered, channels, i + 1)
  }

  function IndexOf(ordered: seq<nat>, h: nat, i: nat): (r: nat)
    requires i <= |ordered|
    ensures i <= r <= |ordered|
    ensures r < |ordered| ==> ordered[r] == h
    ensures forall k :: i <= k < r ==> ordered[k] != h
    decreases |ordered| - i
  {
    if i == |ordered| || ordered[i] == h then i else IndexOf(ordered, h, i + 1)
  }

  // -- Steps on all slots

  function ReleaseAll(slots: seq<Slot>): (r: seq<Slot>)
    ensures |r| == |slots| && forall i :: 0 <= i < |r| ==> r[i] == Release(slots[i])
  {
    if slots == [] then [] else ReleaseAll(slots[..|slots| - 1]) + [Release(slots[|slots| - 1])]
  }

  function EnterAll(slots: seq<Slot>, who: seq<nat>): (r: seq<Slot>)
    ensures |r| == |slots| && forall i :: 0 <= i < |r| ==> r[i] == if i in who then ReaderEnter(slots[i]) else slots[i]
    decreases |slots|
  {
    if slots == [] then []
    else
      var m := |slots| - 1;
      EnterAll(slots[..m], who) + [if m in who then ReaderEnter(slots[m]) else slots[m]]
  }

  function LeaveAll(slots: seq<Slot>, who: seq<nat>): (r: seq<Slot>)
    ensures |r| == |slots| && forall i :: 0 <= i < |r| ==> r[i] == if i in who then ReaderLeave(slots[i]) else slots[i]
    decreases |slots|
  {
    if slots == [] then []
    else
      var m := |slots| - 1;
      LeaveAll(slots[..m], who) + [if m in who then ReaderLeave(slots[m]) else slots[m]]
  }

  function Streams(slots: seq<Slot>, ordered: seq<nat>): (r: seq<nat>)
    requires Indices(slots, ordered)
    ensures |r| == |ordered| && forall k :: 0 <= k < |r| ==> r[k] == slots[ordered[k]].created
    decreases |ordered|
  {
    if ordered == [] then []
    else
      var m := |ordered| - 1;
      Streams(slots, ordered[..m]) + [slots[ordered[m]].created]
  }

  // -- The steps

  /** The source branch of add_RTP_stream_. */
  function Add(p: Pool, nic: nat, channels: nat, createSucceeds: bool): (r: (Pool, bool))
    requires Indices(p.slots, p.ordered)
  {
    var i := FirstFree(p.slots, nic, 0);
    if i == |p.slots| then (p, false)
    else if !createSucceeds then (p.(slots := p.slots[i := p.slots[i].(active := true)]), false)
    else
      var slots := p.slots[i := Create(p.slots[i], channels)];
      if |p.ordered| == MAX_SOURCE_STREAMS then (p.(slots := slots), false)
      else
        var at := InsertAt(slots, p.ordered, channels, 0);
        (p.(slots := slots, ordered := p.ordered[..at] + [i] + p.ordered[at..]), true)
  }

  /** The source part of remove_RTP_stream_. */
  function Remove(p: Pool, h: nat): (r: (Pool, bool))
    requires Indices(p.slots, p.ordered)
  {
    var k := IndexOf(p.ordered, h, 0);
    if k == |p.ordered| then (p, false)
    else
      var ordered := p.ordered[..k] + p.ordered[k + 1..];
      if p.slots[h].active then (p.(slots := p.slots[h := Release(p.slots[h])], ordered := ordered), true)
      else (p.(ordered := ordered), false)
  }

  /** The source part of remove_all_RTP_streams; it also frees slots that no list holds. */
  function RemoveAll(p: Pool): Pool { p.(slots := ReleaseAll(p.slots), ordered := []) }

  /** The first lock region of send_outgoing_packets. */
  function Take(p: Pool): Pool
    requires Indices(p.slots, p.ordered)
  {
    p.(slots := EnterAll(p.slots, p.ordered), snapshots := p.snapshots + [Snapshot(p.ordered, Streams(p.slots, p.ordered))])
  }

  /** The second lock region, for outstanding snapshot k. */
  function Leave(p: Pool, k: nat): Pool
    requires k < |p.snapshots|
  {
    p.(slots := LeaveAll(p.slots, p.snapshots[k].slots), snapshots := p.snapshots[..k] + p.snapshots[k + 1..])
  }
}
