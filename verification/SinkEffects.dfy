/** What adding and removing a sink changes and what it leaves alone. */
module SinkEffects {
  import opened SinkPairs

  predicate Unused(s: Sink, nic: nat) { s.nic == nic && !s.active }

  /** All sinks but i keep NIC, use and id; links may change. */
  predicate SameSinks(slots: seq<Sink>, slots': seq<Sink>, i: nat)
  {
    && |slots'| == |slots|
    && forall k :: 0 <= k < |slots| && k != i ==>
         slots'[k].nic == slots[k].nic && slots'[k].active == slots[k].active && slots'[k].id == slots[k].id
  }

  /** All sinks but i and j are as they were. */
  predicate OnlySinks(slots: seq<Sink>, slots': seq<Sink>, i: nat, j: nat)
  {
    |slots'| == |slots| && forall k :: 0 <= k < |slots| && k != i && k != j ==> slots'[k] == slots[k]
  }

  /** The sink takes its place and is linked with the first sink of its id on the other list, if there is one. */
  lemma JoinEffect(slots: seq<Sink>, other: seq<nat>, i: nat, id: nat) returns (t: nat)
    requires i < |slots| && Indices(slots, other) && i !in other
    ensures var slots' := Join(slots, other, i, id);
            && SameSinks(slots, slots', i) && OnlySinks(slots, slots', i, t)
            && slots'[i].nic == slots[i].nic && slots'[i].active && slots'[i].id == id
            && (if IdUsed(slots, other, id)
                then t in other && t < |slots| && slots[t].id == id && slots'[i].link == To(t) && slots'[t].link == To(i)
                else t == i && slots'[i].link == slots[i].link)
  {
    var slots1 := slots[i := slots[i].(active := true, id := id)];
    forall k | 0 <= k < |other| ensures slots1[other[k]] == slots[other[k]] {
      assert other[k] in other;
    }
    var k := FindId(slots1, other, id, 0);
    t := if k < |other| then other[k] else i;
  }

  /** An add takes the first unused slot of the NIC, if there is one. When the stream can be created, it is there
      under its id, linked with its twin, and with room on the list of its NIC it comes last on it. Nothing else
      changes but the link of the twin. */
  lemma AddEffect(s: Sinks, nic: nat, id: nat, createSucceeds: bool) returns (i: nat, t: nat)
    requires Inv(s) && nic < 2
    ensures var (q, ok) := Add(s, nic, id, createSucceeds);
            var list, other := if nic == 0 then s.list0 else s.list1, if nic == 0 then s.list1 else s.list0;
            if forall k :: 0 <= k < |s.slots| ==> !Unused(s.slots[k], nic) then q == s && !ok
            else
              && i < |s.slots| && Unused(s.slots[i], nic) && (forall k :: 0 <= k < i ==> !Unused(s.slots[k], nic))
              && ok == (createSucceeds && |list| != 64)
              && q.list0 == (if ok && nic == 0 then s.list0 + [i] else s.list0)
              && q.list1 == (if ok && nic == 1 then s.list1 + [i] else s.list1)
              && SameSinks(s.slots, q.slots, i) && OnlySinks(s.slots, q.slots, i, t)
              && q.slots[i].nic == nic && q.slots[i].active && q.slots[i].id == id
              && (if createSucceeds && IdUsed(s.slots, other, id)
                  then t in other && t < |s.slots| && s.slots[t].id == id && q.slots[i].link == To(t) && q.slots[t].link == To(i)
                  else q.slots[i].link == Alone && OnlySinks(s.slots, q.slots, i, i))
  {
    i, t := FirstFree(s.slots, nic, 0), 0;
    if i < |s.slots| {
      assert Unused(s.slots[i], nic);
      FreeIsAlone(s.slots, s.list0, s.list1, 0, 1, i);
      if createSucceeds {
        t := JoinEffect(s.slots, if nic == 0 then s.list1 else s.list0, i, id);
      }
    }
  }

  /** A remove takes the sink off its list and frees its slot; its twin, if it has one, is alone again. Nothing
      else changes. */
  lemma RemoveEffect(s: Sinks, h: nat)
    requires Inv(s)
    ensures var (q, ok) := Remove(s, h);
            if h !in s.list0 && h !in s.list1 then q == s && !ok
            else
              && ok && h < |s.slots| && h !in q.list0 && h !in q.list1
              && (h !in s.list0 ==> q.list0 == s.list0) && (h !in s.list1 ==> q.list1 == s.list1)
              && (forall k: nat :: k != h ==> (k in q.list0 <==> k in s.list0) && (k in q.list1 <==> k in s.list1))
              && SameSinks(s.slots, q.slots, h) && !q.slots[h].active
              && forall k :: 0 <= k < |s.slots| ==>
                   q.slots[k].link == if k == h || Twins(s.slots, s.list0, s.list1, h, k) then Alone else s.slots[k].link
  {
    var j, k := IndexOf(s.list0, h, 0), IndexOf(s.list1, h, 0);
    if j < |s.list0| {
      assert s.list0[j] in s.list0;
      RemovedFrom(s.slots, s.list0, s.list1, 0, 1, j);
    } else if k < |s.list1| {
      assert s.list1[k] in s.list1;
      Swapped(s.slots, s.list0, s.list1, 0, 1);
      RemovedFrom(s.slots, s.list1, s.list0, 1, 0, k);
    }
  }

  lemma RemovedFrom(slots: seq<Sink>, a: seq<nat>, b: seq<nat>, nicA: nat, nicB: nat, at: nat)
    requires Ok(slots, a, b, nicA, nicB) && at < |a|
    ensures var h, slots' := a[at], Part(slots, b, a[at]);
            && h < |slots| && h !in b && h !in Without(a, at) && SameSinks(slots, slots', h) && !slots'[h].active
            && (forall k: nat :: k != h ==> (k in Without(a, at) <==> k in a))
            && forall k :: 0 <= k < |slots| ==>
                 slots'[k].link == if k == h || Twins(slots, a, b, h, k) then Alone else slots[k].link
  {
    var h := a[at];
    OnOneList(slots, a, b, nicA, nicB, at);
    forall k | 0 <= k < |slots|
      ensures var slots' := Part(slots, b, h);
              && slots'[k].link == (if k == h || Twins(slots, a, b, h, k) then Alone else slots[k].link)
              && (k != h ==> slots'[k].nic == slots[k].nic && slots'[k].active == slots[k].active && slots'[k].id == slots[k].id)
    {
      PartLinks(slots, a, b, nicA, nicB, h, k);
      PartFields(slots, b, h, k);
    }
    forall k: nat | k != h ensures k in Without(a, at) <==> k in a {
      WithoutHolds(a, at, k);
    }
  }

  /** The lists never grow beyond their 64 places. */
  lemma {:induction false} ListsBounded(s: Sinks, es: seq<Event>)
    requires Fresh(s)
    ensures |Run(s, es).list0| <= 64 && |Run(s, es).list1| <= 64
    decreases |es|
  {
    if es != [] {
      ListsBounded(s, es[..|es| - 1]);
    }
  }
}
