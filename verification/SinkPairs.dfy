/** ST 2022-7 pairing of sinks in driver/RTP_streams_manager.c: attached_stream and detached_stream link
    the sinks of the two NICs that share a stream id. */
module SinkPairs {

  const MAX_SINK_STREAMS: nat := 64

  datatype Link = Alone | To(slot: nat)

  datatype Sink = Sink(nic: nat, active: bool, id: nat, link: Link)

  /** The slots of both NICs and the list of sinks of each. */
  datatype Sinks = Sinks(slots: seq<Sink>, list0: seq<nat>, list1: seq<nat>)

  predicate Indices(slots: seq<Sink>, list: seq<nat>) { forall k :: 0 <= k < |list| ==> list[k] < |slots| }

  function FirstFree(slots: seq<Sink>, nic: nat, i: nat): (r: nat)
    requires i <= |slots|
    ensures i <= r <= |slots| && (r < |slots| ==> !slots[r].active && slots[r].nic == nic)
    ensures forall k :: i <= k < r ==> slots[k].active || slots[k].nic != nic
    decreases |slots| - i
  {
    if i == |slots| || (!slots[i].active && slots[i].nic == nic) then i else FirstFree(slots, nic, i + 1)
  }

  /** Position of the first listed sink with the id, or the length of the list. */
  function FindId(slots: seq<Sink>, list: seq<nat>, id: nat, i: nat): (r: nat)
    requires i <= |list| && Indices(slots, list)
    ensures i <= r <= |list| && (r < |list| ==> slots[list[r]].id == id)
    ensures forall k :: i <= k < r ==> slots[list[k]].id != id
    decreases |list| - i
  {
    if i == |list| || slots[list[i]].id == id then i else FindId(slots, list, id, i + 1)
  }

  function IndexOf(list: seq<nat>, h: nat, i: nat): (r: nat)
    requires i <= |list|
    ensures i <= r <= |list| && (r < |list| ==> list[r] == h)
    ensures forall k :: i <= k < r ==> list[k] != h
    decreases |list| - i
  {
    if i == |list| || list[i] == h then i else IndexOf(list, h, i + 1)
  }

  /** attached_stream for slot i, against the list of the other NIC. */
  function Attach(slots: seq<Sink>, other: seq<nat>, i: nat): (r: seq<Sink>)
    requires i < |slots| && Indices(slots, other)
    ensures |r| == |slots|
  {
    var k := FindId(slots, other, slots[i].id, 0);
    if k == |other| then slots
    else
      var t := other[k];
      var linked := slots[i := slots[i].(link := To(t))];
      linked[t := linked[t].(link := To(i))]
  }

  /** detached_stream for slot h; without a twin nothing changes. */
  function Detach(slots: seq<Sink>, other: seq<nat>, h: nat): (r: seq<Sink>)
    requires h < |slots| && Indices(slots, other)
    ensures |r| == |slots|
  {
    var k := FindId(slots, other, slots[h].id, 0);
    if k == |other| then slots
    else
      var t := other[k];
      var apart := slots[h := slots[h].(link := Alone)];
      apart[t := apart[t].(link := Alone)]
  }

  // -- The matching

  /** Listed on the two NICs under one id. */
  predicate Twins(slots: seq<Sink>, a: seq<nat>, b: seq<nat>, p: nat, q: nat)
  {
    && p < |slots| && q < |slots| && slots[p].id == slots[q].id
    && ((p in a && q in b) || (p in b && q in a))
  }

  predicate Linked(slots: seq<Sink>, p: nat, q: nat) { p < |slots| && slots[p].link == To(q) }

  /** A sink links to another exactly when they are twins; so links are mutual, between the NICs, within
      one id, and never lead to a removed sink. */
  ghost predicate Matched(slots: seq<Sink>, a: seq<nat>, b: seq<nat>)
  {
    forall p: nat, q: nat :: Linked(slots, p, q) <==> Twins(slots, a, b, p, q)
  }

  predicate UniqueIds(slots: seq<Sink>, list: seq<nat>)
    requires Indices(slots, list)
  {
    forall j, k :: 0 <= j < k < |list| ==> slots[list[j]].id != slots[list[k]].id
  }

  predicate Placed(slots: seq<Sink>, list: seq<nat>, nic: nat)
    requires Indices(slots, list)
  {
    forall k :: 0 <= k < |list| ==> slots[list[k]].nic == nic && slots[list[k]].active
  }

  ghost predicate ListOk(slots: seq<Sink>, list: seq<nat>, nic: nat)
  {
    Indices(slots, list) && UniqueIds(slots, list) && Placed(slots, list, nic)
  }

  ghost predicate Ok(slots: seq<Sink>, a: seq<nat>, b: seq<nat>, nicA: nat, nicB: nat)
  {
    nicA != nicB && ListOk(slots, a, nicA) && ListOk(slots, b, nicB) && Matched(slots, a, b)
  }

  predicate IdUsed(slots: seq<Sink>, list: seq<nat>, id: nat)
  {
    exists k :: 0 <= k < |list| && list[k] < |slots| && slots[list[k]].id == id
  }

  lemma Swapped(slots: seq<Sink>, a: seq<nat>, b: seq<nat>, nicA: nat, nicB: nat)
    requires Ok(slots, a, b, nicA, nicB)
    ensures Ok(slots, b, a, nicB, nicA)
  {
    forall p: nat, q: nat ensures Linked(slots, p, q) <==> Twins(slots, b, a, p, q) {
      assert Twins(slots, b, a, p, q) == Twins(slots, a, b, p, q);
    }
  }

  /** One sink per id on a list. */
  lemma SameId(slots: seq<Sink>, list: seq<nat>, nic: nat, p: nat, q: nat)
    requires ListOk(slots, list, nic) && p in list && q in list && slots[p].id == slots[q].id
    ensures p == q
  {
    var j :| 0 <= j < |list| && list[j] == p;
    var k :| 0 <= k < |list| && list[k] == q;
  }

  /** An inactive slot is on no list and has no link. */
  lemma FreeIsAlone(slots: seq<Sink>, a: seq<nat>, b: seq<nat>, nicA: nat, nicB: nat, i: nat)
    requires Ok(slots, a, b, nicA, nicB) && i < |slots| && !slots[i].active
    ensures i !in a && i !in b && slots[i].link == Alone
  {
    if slots[i].link != Alone { assert Linked(slots, i, slots[i].link.slot); }
  }

  /** Listed sinks keep their place when only other slots or links change. */
  lemma ListKept(slots: seq<Sink>, slots': seq<Sink>, list: seq<nat>, nic: nat)
    requires ListOk(slots, list, nic) && |slots'| == |slots|
    requires forall k :: 0 <= k < |list| ==>
               slots'[list[k]].id == slots[list[k]].id && slots'[list[k]].nic == slots[list[k]].nic
               && slots'[list[k]].active
    ensures ListOk(slots', list, nic)
  {}

  // -- Adding

  /** A free slot becomes a sink with the id and is attached. */
  function Join(slots: seq<Sink>, other: seq<nat>, i: nat, id: nat): (r: seq<Sink>)
    requires i < |slots| && Indices(slots, other)
    ensures |r| == |slots|
  {
    Attach(slots[i := slots[i].(active := true, id := id)], other, i)
  }

  lemma JoinFields(slots: seq<Sink>, other: seq<nat>, i: nat, id: nat, j: nat)
    requires i < |slots| && Indices(slots, other) && j < |slots|
    ensures var r := Join(slots, other, i, id);
            && r[j].nic == slots[j].nic
            && r[j].active == (j == i || slots[j].active)
            && r[j].id == (if j == i then id else slots[j].id)
  {}

  lemma JoinLists(slots: seq<Sink>, a: seq<nat>, b: seq<nat>, nicA: nat, nicB: nat, i: nat, id: nat)
    requires Ok(slots, a, b, nicA, nicB) && i < |slots| && !slots[i].active && slots[i].nic == nicA
    requires !IdUsed(slots, a, id)
    ensures ListOk(Join(slots, b, i, id), a + [i], nicA) && ListOk(Join(slots, b, i, id), b, nicB)
  {
    var r := Join(slots, b, i, id);
    forall j | 0 <= j < |slots|
      ensures r[j].nic == slots[j].nic && r[j].active == (j == i || slots[j].active)
              && r[j].id == (if j == i then id else slots[j].id)
    {
      JoinFields(slots, b, i, id, j);
    }
    FreeIsAlone(slots, a, b, nicA, nicB, i);
    assert forall k :: 0 <= k < |b| ==> b[k] in b;
    assert forall k :: 0 <= k < |a| ==> a[k] in a;
    ListKept(slots, r, b, nicB);
    ListKept(slots, r, a, nicA);
  }

  /** No twin on the other NIC: no link changes. */
  lemma JoinAlone(slots: seq<Sink>, a: seq<nat>, b: seq<nat>, nicA: nat, nicB: nat, i: nat, id: nat, p: nat, q: nat)
    requires Ok(slots, a, b, nicA, nicB) && i < |slots| && !slots[i].active
    requires !IdUsed(slots, b, id)
    ensures var r := Join(slots, b, i, id);
            Linked(r, p, q) <==> Twins(r, a + [i], b, p, q)
  {
    FreeIsAlone(slots, a, b, nicA, nicB, i);
    var r := slots[i := slots[i].(active := true, id := id)];
    assert FindId(r, b, id, 0) == |b|;
    assert Linked(slots, p, q) <==> Twins(slots, a, b, p, q);
  }

  /** A twin t on the other NIC: both link to each other, and to nobody else. */
  lemma JoinTwin(slots: seq<Sink>, a: seq<nat>, b: seq<nat>, nicA: nat, nicB: nat, i: nat, id: nat, t: nat, p: nat, q: nat)
    requires Ok(slots, a, b, nicA, nicB) && i < |slots| && !slots[i].active
    requires !IdUsed(slots, a, id) && t in b && slots[t].id == id
    ensures var r := Join(slots, b, i, id);
            Linked(r, p, q) <==> Twins(r, a + [i], b, p, q)
  {
    FreeIsAlone(slots, a, b, nicA, nicB, i);
    var r := Join(slots, b, i, id);
    JoinTwinIs(slots, b, nicB, i, id, t);
    assert Linked(slots, p, q) <==> Twins(slots, a, b, p, q);
    if Twins(r, a + [i], b, p, q) && p == i { SameId(slots, b, nicB, q, t); }
    if Twins(r, a + [i], b, p, q) && q == i { SameId(slots, b, nicB, p, t); }
    UnusedId(slots, a, id, p);
    UnusedId(slots, a, id, q);
  }

  lemma UnusedId(slots: seq<Sink>, list: seq<nat>, id: nat, p: nat)
    requires Indices(slots, list) && !IdUsed(slots, list, id)
    ensures p in list ==> p < |slots| && slots[p].id != id
  {}

  lemma JoinTwinIs(slots: seq<Sink>, b: seq<nat>, nicB: nat, i: nat, id: nat, t: nat)
    requires ListOk(slots, b, nicB) && i < |slots| && !slots[i].active && t in b && slots[t].id == id
    ensures t < |slots| && i != t && i !in b
    ensures Join(slots, b, i, id)
            == slots[i := slots[i].(active := true, id := id, link := To(t))][t := slots[t].(link := To(i))]
  {
    var slots1 := slots[i := slots[i].(active := true, id := id)];
    var k := FindId(slots1, b, id, 0);
    var j :| 0 <= j < |b| && b[j] == t;
    if k < |b| {
      assert b[k] in b;
      SameId(slots, b, nicB, b[k], t);
    }
  }

  lemma JoinKeeps(slots: seq<Sink>, a: seq<nat>, b: seq<nat>, nicA: nat, nicB: nat, i: nat, id: nat)
    requires Ok(slots, a, b, nicA, nicB) && i < |slots| && !slots[i].active && slots[i].nic == nicA
    requires !IdUsed(slots, a, id)
    ensures Ok(Join(slots, b, i, id), a + [i], b, nicA, nicB)
  {
    var r := Join(slots, b, i, id);
    JoinLists(slots, a, b, nicA, nicB, i, id);
    forall p: nat, q: nat ensures Linked(r, p, q) <==> Twins(r, a + [i], b, p, q) {
      if IdUsed(slots, b, id) {
        var k :| 0 <= k < |b| && b[k] < |slots| && slots[b[k]].id == id;
        JoinTwin(slots, a, b, nicA, nicB, i, id, b[k], p, q);
      } else {
        JoinAlone(slots, a, b, nicA, nicB, i, id, p, q);
      }
    }
  }

  // -- Removing

  /** Detached and freed; destroying the stream clears its id. */
  function Part(slots: seq<Sink>, other: seq<nat>, h: nat): (r: seq<Sink>)
    requires h < |slots| && Indices(slots, other)
    ensures |r| == |slots|
  {
    var apart := Detach(slots, other, h);
    apart[h := apart[h].(active := false, id := 0)]
  }

  function Without(list: seq<nat>, at: nat): (r: seq<nat>)
    requires at < |list|
    ensures |r| == |list| - 1 && forall k :: 0 <= k < |r| ==> r[k] == list[if k < at then k else k + 1]
  {
    list[..at] + list[at + 1..]
  }

  lemma WithoutHolds(list: seq<nat>, at: nat, j: nat)
    requires at < |list|
    ensures j in list && j != list[at] ==> j in Without(list, at)
    ensures j in Without(list, at) ==> j in list
  {
    assert list == list[..at] + [list[at]] + list[at + 1..];
  }

  /** A sink is on one list only, once. */
  lemma OnOneList(slots: seq<Sink>, a: seq<nat>, b: seq<nat>, nicA: nat, nicB: nat, at: nat)
    requires Ok(slots, a, b, nicA, nicB) && at < |a|
    ensures a[at] < |slots| && a[at] !in b && a[at] !in Without(a, at)
  {}

  lemma PartFields(slots: seq<Sink>, other: seq<nat>, h: nat, j: nat)
    requires h < |slots| && Indices(slots, other) && j < |slots|
    ensures var r := Part(slots, other, h);
            r[j].nic == slots[j].nic && (j != h ==> r[j].active == slots[j].active && r[j].id == slots[j].id)
  {}

  lemma PartLists(slots: seq<Sink>, a: seq<nat>, b: seq<nat>, nicA: nat, nicB: nat, at: nat)
    requires Ok(slots, a, b, nicA, nicB) && at < |a|
    ensures ListOk(Part(slots, b, a[at]), Without(a, at), nicA) && ListOk(Part(slots, b, a[at]), b, nicB)
  {
    var h := a[at];
    var r := Part(slots, b, h);
    OnOneList(slots, a, b, nicA, nicB, at);
    forall j | 0 <= j < |slots| && j != h
      ensures r[j].nic == slots[j].nic && r[j].active == slots[j].active && r[j].id == slots[j].id
    {
      PartFields(slots, b, h, j);
    }
    var a' := Without(a, at);
    assert forall k :: 0 <= k < |b| ==> b[k] in b;
    assert forall k :: 0 <= k < |a'| ==> a'[k] in a';
    ListKept(slots, r, b, nicB);
    assert ListOk(slots, a', nicA);
    ListKept(slots, r, a', nicA);
  }

  /** Only the sink and its twin lose their links. */
  lemma PartLinks(slots: seq<Sink>, a: seq<nat>, b: seq<nat>, nicA: nat, nicB: nat, h: nat, j: nat)
    requires Ok(slots, a, b, nicA, nicB) && h in a && j < |slots|
    ensures Part(slots, b, h)[j].link == if j == h || Twins(slots, a, b, h, j) then Alone else slots[j].link
  {
    var k := FindId(slots, b, slots[h].id, 0);
    if k < |b| {
      assert b[k] in b;
      if Twins(slots, a, b, h, j) && j in b { SameId(slots, b, nicB, j, b[k]); }
      if j == b[k] { assert Twins(slots, a, b, h, j); }
    } else {
      assert j in b ==> exists x :: 0 <= x < |b| && b[x] == j;
      if slots[h].link != Alone { assert Linked(slots, h, slots[h].link.slot); }
    }
  }

  lemma PartKeeps(slots: seq<Sink>, a: seq<nat>, b: seq<nat>, nicA: nat, nicB: nat, at: nat)
    requires Ok(slots, a, b, nicA, nicB) && at < |a|
    ensures Ok(Part(slots, b, a[at]), Without(a, at), b, nicA, nicB)
  {
    PartLists(slots, a, b, nicA, nicB, at);
    var r := Part(slots, b, a[at]);
    forall p: nat, q: nat ensures Linked(r, p, q) <==> Twins(r, Without(a, at), b, p, q) {
      PartMatched(slots, a, b, nicA, nicB, at, p, q);
    }
  }

  lemma PartMatched(slots: seq<Sink>, a: seq<nat>, b: seq<nat>, nicA: nat, nicB: nat, at: nat, p: nat, q: nat)
    requires Ok(slots, a, b, nicA, nicB) && at < |a|
    ensures var r := Part(slots, b, a[at]);
            Linked(r, p, q) <==> Twins(r, Without(a, at), b, p, q)
  {
    var h := a[at];
    OnOneList(slots, a, b, nicA, nicB, at);
    WithoutHolds(a, at, p);
    WithoutHolds(a, at, q);
    assert Linked(slots, p, q) <==> Twins(slots, a, b, p, q);
    if p < |slots| {
      PartFields(slots, b, h, p);
      PartLinks(slots, a, b, nicA, nicB, h, p);
    }
    if q < |slots| { PartFields(slots, b, h, q); }
    if Twins(slots, a, b, p, q) && Twins(slots, a, b, h, p) && q in a { SameId(slots, a, nicA, q, h); }
  }

  // -- Runs

  ghost predicate Inv(s: Sinks) { Ok(s.slots, s.list0, s.list1, 0, 1) }

  /** A slot acquired for a stream that could not be created. */
  function Acquired(slots: seq<Sink>, i: nat, id: nat): (r: seq<Sink>)
    requires i < |slots|
    ensures |r| == |slots|
  {
    slots[i := slots[i].(active := true, id := id)]
  }

  lemma AcquiredKeeps(slots: seq<Sink>, a: seq<nat>, b: seq<nat>, nicA: nat, nicB: nat, i: nat, id: nat)
    requires Ok(slots, a, b, nicA, nicB) && i < |slots| && !slots[i].active
    ensures Ok(Acquired(slots, i, id), a, b, nicA, nicB)
  {
    FreeIsAlone(slots, a, b, nicA, nicB, i);
    var r := Acquired(slots, i, id);
    assert forall k :: 0 <= k < |b| ==> b[k] in b;
    assert forall k :: 0 <= k < |a| ==> a[k] in a;
    ListKept(slots, r, a, nicA);
    ListKept(slots, r, b, nicB);
    forall p: nat, q: nat ensures Linked(r, p, q) <==> Twins(r, a, b, p, q) {
      assert Linked(slots, p, q) <==> Twins(slots, a, b, p, q);
    }
  }

  /** The sink branch of add_RTP_stream_: acquire, create, attach, append. */
  function Add(s: Sinks, nic: nat, id: nat, createSucceeds: bool): (Sinks, bool)
    requires Indices(s.slots, s.list0) && Indices(s.slots, s.list1)
  {
    var i := FirstFree(s.slots, nic, 0);
    if nic >= 2 || i == |s.slots| then (s, false)
    else if !createSucceeds then (s.(slots := Acquired(s.slots, i, id)), false)
    else if nic == 0 then
      var slots := Join(s.slots, s.list1, i, id);
      if |s.list0| == MAX_SINK_STREAMS then (s.(slots := slots), false)
      else (s.(slots := slots, list0 := s.list0 + [i]), true)
    else
      var slots := Join(s.slots, s.list0, i, id);
      if |s.list1| == MAX_SINK_STREAMS then (s.(slots := slots), false)
      else (s.(slots := slots, list1 := s.list1 + [i]), true)
  }

  /** The sink part of remove_RTP_stream_. */
  function Remove(s: Sinks, h: nat): (Sinks, bool)
    requires Indices(s.slots, s.list0) && Indices(s.slots, s.list1)
  {
    var j, k := IndexOf(s.list0, h, 0), IndexOf(s.list1, h, 0);
    if j < |s.list0| then (s.(slots := Part(s.slots, s.list1, h), list0 := Without(s.list0, j)), true)
    else if k < |s.list1| then (s.(slots := Part(s.slots, s.list0, h), list1 := Without(s.list1, k)), true)
    else (s, false)
  }

  datatype Event = AddSink(nic: nat, id: nat, createSucceeds: bool) | RemoveSink(handle: nat)

  function Step(s: Sinks, e: Event): Sinks
  {
    if !(Indices(s.slots, s.list0) && Indices(s.slots, s.list1)) then s
    else
      match e
      case AddSink(nic, id, ok) => Add(s, nic, id, ok).0
      case RemoveSink(h) => Remove(s, h).0
  }

  /** An add of a stream that can be created has an id that is new on its NIC and room on the list. */
  predicate Fits(s: Sinks, e: Event)
  {
    match e
    case AddSink(nic, id, ok) => var list := if nic == 0 then s.list0 else s.list1;
                                 ok ==> !IdUsed(s.slots, list, id) && |list| < MAX_SINK_STREAMS
    case RemoveSink(_) => true
  }

  lemma AddKeeps(s: Sinks, nic: nat, id: nat, ok: bool)
    requires Inv(s) && Fits(s, AddSink(nic, id, ok))
    ensures Inv(Add(s, nic, id, ok).0)
  {
    var i := FirstFree(s.slots, nic, 0);
    if nic < 2 && i < |s.slots| {
      if !ok {
        AcquiredKeeps(s.slots, s.list0, s.list1, 0, 1, i, id);
      } else {
        AddCreatedKeeps(s, nic, id);
      }
    }
  }

  lemma AddCreatedKeeps(s: Sinks, nic: nat, id: nat)
    requires Inv(s) && Fits(s, AddSink(nic, id, true)) && nic < 2 && FirstFree(s.slots, nic, 0) < |s.slots|
    ensures Inv(Add(s, nic, id, true).0)
  {
    var i := FirstFree(s.slots, nic, 0);
    if nic == 0 {
      JoinKeeps(s.slots, s.list0, s.list1, 0, 1, i, id);
      assert Add(s, nic, id, true).0 == Sinks(Join(s.slots, s.list1, i, id), s.list0 + [i], s.list1);
    } else {
      JoinSecond(s.slots, s.list0, s.list1, i, id);
      assert Add(s, nic, id, true).0 == Sinks(Join(s.slots, s.list0, i, id), s.list0, s.list1 + [i]);
    }
  }

  lemma JoinSecond(slots: seq<Sink>, list0: seq<nat>, list1: seq<nat>, i: nat, id: nat)
    requires Ok(slots, list0, list1, 0, 1) && i < |slots| && !slots[i].active && slots[i].nic == 1
    requires !IdUsed(slots, list1, id)
    ensures Ok(Join(slots, list0, i, id), list0, list1 + [i], 0, 1)
  {
    Swapped(slots, list0, list1, 0, 1);
    JoinKeeps(slots, list1, list0, 1, 0, i, id);
    Swapped(Join(slots, list0, i, id), list1 + [i], list0, 1, 0);
  }

  lemma RemoveKeeps(s: Sinks, h: nat)
    requires Inv(s)
    ensures Inv(Remove(s, h).0)
  {
    var j, k := IndexOf(s.list0, h, 0), IndexOf(s.list1, h, 0);
    if j < |s.list0| {
      PartKeeps(s.slots, s.list0, s.list1, 0, 1, j);
    } else if k < |s.list1| {
      Swapped(s.slots, s.list0, s.list1, 0, 1);
      PartKeeps(s.slots, s.list1, s.list0, 1, 0, k);
      Swapped(Part(s.slots, s.list0, h), Without(s.list1, k), s.list0, 1, 0);
    }
  }

  function Run(s: Sinks, es: seq<Event>): Sinks
    decreases |es|
  {
    if es == [] then s else Step(Run(s, es[..|es| - 1]), es[|es| - 1])
  }

  predicate AllFit(s: Sinks, es: seq<Event>)
    decreases |es|
  {
    es == [] || (AllFit(s, es[..|es| - 1]) && Fits(Run(s, es[..|es| - 1]), es[|es| - 1]))
  }

  /** All slots free and unlinked, as init_ leaves them. */
  predicate Fresh(s: Sinks)
  {
    s.list0 == [] && s.list1 == [] && forall i :: 0 <= i < |s.slots| ==> !s.slots[i].active && s.slots[i].link == Alone
  }

  /** Attachment is a symmetric matching on every run: sinks link exactly when they are listed on the two
      NICs under one id. */
  lemma {:induction false} MatchedOnEveryRun(s: Sinks, es: seq<Event>)
    requires Fresh(s) && AllFit(s, es)
    ensures Inv(Run(s, es))
    decreases |es|
  {
    if es != [] {
      var before, e := Run(s, es[..|es| - 1]), es[|es| - 1];
      MatchedOnEveryRun(s, es[..|es| - 1]);
      match e
      case AddSink(nic, id, ok) => AddKeeps(before, nic, id, ok);
      case RemoveSink(h) => RemoveKeeps(before, h);
    }
  }

  // -- Why ids have to be unique

  ghost predicate Symmetric(slots: seq<Sink>) { forall p: nat, q: nat :: Linked(slots, p, q) ==> Linked(slots, q, p) }

  lemma MatchedIsSymmetric(slots: seq<Sink>, a: seq<nat>, b: seq<nat>)
    requires Matched(slots, a, b)
    ensures Symmetric(slots)
  {
    forall p: nat, q: nat | Linked(slots, p, q) ensures Linked(slots, q, p) {
      assert Twins(slots, a, b, p, q);
      assert Twins(slots, a, b, q, p);
    }
  }

  /** An add keeps links mutual exactly when its id is not already paired up; otherwise the old partner
      goes on pointing to a sink that now points to the new one. */
  lemma AddSymmetricIff(slots: seq<Sink>, a: seq<nat>, b: seq<nat>, nicA: nat, nicB: nat, i: nat, id: nat)
    requires Ok(slots, a, b, nicA, nicB) && i < |slots| && !slots[i].active && slots[i].nic == nicA
    ensures Symmetric(Join(slots, b, i, id)) <==> !(IdUsed(slots, a, id) && IdUsed(slots, b, id))
  {
    if !IdUsed(slots, a, id) {
      JoinKeeps(slots, a, b, nicA, nicB, i, id);
      MatchedIsSymmetric(Join(slots, b, i, id), a + [i], b);
    } else if !IdUsed(slots, b, id) {
      forall p: nat, q: nat ensures Linked(Join(slots, b, i, id), p, q) <==> Twins(Join(slots, b, i, id), a + [i], b, p, q) {
        JoinAlone(slots, a, b, nicA, nicB, i, id, p, q);
      }
      MatchedIsSymmetric(Join(slots, b, i, id), a + [i], b);
    } else {
      DuplicateIdOneSided(slots, a, b, nicA, nicB, i, id);
    }
  }

  lemma DuplicateIdOneSided(slots: seq<Sink>, a: seq<nat>, b: seq<nat>, nicA: nat, nicB: nat, i: nat, id: nat)
    requires Ok(slots, a, b, nicA, nicB) && i < |slots| && !slots[i].active
    requires IdUsed(slots, a, id) && IdUsed(slots, b, id)
    ensures !Symmetric(Join(slots, b, i, id))
  {
    var j :| 0 <= j < |a| && a[j] < |slots| && slots[a[j]].id == id;
    var k :| 0 <= k < |b| && b[k] < |slots| && slots[b[k]].id == id;
    var p, t := a[j], b[k];
    FreeIsAlone(slots, a, b, nicA, nicB, i);
    assert p in a && t in b;
    assert Twins(slots, a, b, p, t);
    assert Linked(slots, p, t);
    JoinTwinIs(slots, b, nicB, i, id, t);
    assert p != t;
    assert Linked(Join(slots, b, i, id), p, t) && !Linked(Join(slots, b, i, id), t, p);
  }

  // -- The same on the arrays

  method AttachIn(slots: array<Sink>, other: array<nat>, n: nat, i: nat)
    requires i < slots.Length && n <= other.Length && Indices(slots[..], other[..n])
    modifies slots
    ensures slots[..] == Attach(old(slots[..]), other[..n], i)
  {
    var k := FindIn(slots, other, n, slots[i].id);
    if k < n {
      slots[i] := slots[i].(link := To(other[k]));
      slots[other[k]] := slots[other[k]].(link := To(i));
    }
  }

  method DetachIn(slots: array<Sink>, other: array<nat>, n: nat, h: nat)
    requires h < slots.Length && n <= other.Length && Indices(slots[..], other[..n])
    modifies slots
    ensures slots[..] == Detach(old(slots[..]), other[..n], h)
  {
    var k := FindIn(slots, other, n, slots[h].id);
    if k < n {
      slots[h] := slots[h].(link := Alone);
      slots[other[k]] := slots[other[k]].(link := Alone);
    }
  }

  method FindIn(slots: array<Sink>, list: array<nat>, n: nat, id: nat) returns (k: nat)
    requires n <= list.Length && Indices(slots[..], list[..n])
    ensures k == FindId(slots[..], list[..n], id, 0)
  {
    ghost var s, l := slots[..], list[..n];
    k := 0;
    while k < n && slots[list[k]].id != id
      invariant 0 <= k <= n && FindId(s, l, id, 0) == FindId(s, l, id, k)
    {
      k := k + 1;
    }
  }
}
