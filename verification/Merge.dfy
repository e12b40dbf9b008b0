/** The SMPTE ST 2022-7 merge of driver/RTP_audio_stream.c: two attached sinks, one per NIC, receive
    the same packets and write the same rings. Each skips what the other has already received. */
module Merge {
  import opened CInt
  import opened Timestamp
  import opened RtpReceive

  /** A packet as both legs carry it: first sample count and number of frames. */
  datatype Sent = Sent(sac: U64, frames: nat)

  /** The common stream and the description of each leg, with the SSRC its sender uses. Payload type,
      SSRC and timestamp offset may differ; the playout delay does not. */
  datatype Link = Link(sent: seq<Sent>, first: Format, second: Format, ssrc1: U32, ssrc2: U32)

  function EndOf(l: Link, k: nat): int
    requires k < |l.sent|
  {
    l.sent[k].sac + l.first.playOut + l.sent[k].frames
  }

  /** Consecutive packets without a gap, none of them past the last 64-bit count. */
  predicate GapFree(l: Link)
  {
    && l.first.playOut == l.second.playOut
    && (forall k :: 0 <= k < |l.sent| ==> l.sent[k].frames > 0 && EndOf(l, k) < TWO64)
    && (forall j, k :: 0 <= j < |l.sent| && 0 <= k < |l.sent| && k == j + 1 ==> l.sent[k].sac == l.sent[j].sac + l.sent[j].frames)
  }

  lemma {:induction false} EndsIncrease(l: Link, j: nat, k: nat)
    requires GapFree(l) && j < k < |l.sent|
    ensures EndOf(l, j) < EndOf(l, k)
    decreases k - j
  {
    if j + 1 < k { EndsIncrease(l, j, k - 1); }
  }

  /** Packet index arrives on one leg while the receiver stands at globalSac. */
  datatype Arrival = Arrival(onSecond: bool, index: nat, seqNum: U16, skip: nat, body: seq<Byte>, globalSac: U64)

  function Rx(f: Format, ssrc: U32, s: Sent, e: Arrival): RxPacket
  {
    RxPacket(2, false, f.payloadType, ssrc, e.seqNum, OnWire(s.sac, f.tsOffset), e.skip, e.body)
  }

  /** Both sinks, the index after the one last received on each leg (0 before the first packet), and
      the packets copied so far. */
  datatype Pair = Pair(first: Received, second: Received, next1: nat, next2: nat, copied: seq<nat>)

  predicate Timely(l: Link, e: Arrival)
  {
    e.index < |l.sent| && Abs(l.sent[e.index].sac - e.globalSac) <= RADIUS
  }

  function Outcome(l: Link, s: Pair, e: Arrival): (Received, Verdict)
    requires e.index < |l.sent|
  {
    var p := l.sent[e.index];
    if e.onSecond
    then Judge(l.second, s.second, Leg(s.first.last), Rx(l.second, l.ssrc2, p, e), p.frames, e.globalSac)
    else Judge(l.first, s.first, Leg(s.second.last), Rx(l.first, l.ssrc1, p, e), p.frames, e.globalSac)
  }

  function Step(l: Link, s: Pair, e: Arrival): Pair
  {
    if e.index >= |l.sent| then s else
    var (r, v) := Outcome(l, s, e);
    var copied := if v.Copied? then s.copied + [e.index] else s.copied;
    if e.onSecond then s.(second := r, next2 := e.index + 1, copied := copied)
    else s.(first := r, next1 := e.index + 1, copied := copied)
  }

  /** The marks the two sinks start with. A sink that reuses a stream slot starts with the mark that the
      last stream in it left, wherever that lies. */
  datatype Marks = Marks(first: U64, second: U64)

  /** A leg knows no SSRC but its own, and its mark is the end of its last packet, or the one it started
      with. */
  predicate LegInv(l: Link, r: Received, next: nat, ssrc: U32, start: U64)
  {
    && (r.ssrc == Unknown || r.ssrc == Known(ssrc)) && next <= |l.sent|
    && r.last == if next == 0 then start else EndOf(l, next - 1)
  }

  predicate PairInv(l: Link, s: Pair, m: Marks)
  {
    LegInv(l, s.first, s.next1, l.ssrc1, m.first) && LegInv(l, s.second, s.next2, l.ssrc2, m.second)
  }

  /** A leg is before packet k: it last received an earlier one, or nothing yet and started below its end. */
  predicate IsBefore(l: Link, next: nat, start: U64, k: nat)
    requires k < |l.sent|
  {
    if next == 0 then start < EndOf(l, k) else next <= k
  }

  lemma MarkOrdersPackets(l: Link, r: Received, next: nat, ssrc: U32, start: U64, k: nat)
    requires GapFree(l) && LegInv(l, r, next, ssrc, start) && k < |l.sent|
    ensures r.last < EndOf(l, k) <==> IsBefore(l, next, start, k)
  {
    if next > 0 {
      if next - 1 < k {
        EndsIncrease(l, next - 1, k);
      } else if k < next - 1 {
        EndsIncrease(l, k, next - 1);
      }
    }
  }

  /** The leg other than the one of the arrival is before its packet. */
  predicate IsFresh(l: Link, s: Pair, m: Marks, e: Arrival)
    requires e.index < |l.sent|
  {
    if e.onSecond then IsBefore(l, s.next1, m.first, e.index) else IsBefore(l, s.next2, m.second, e.index)
  }

  lemma LegJudged(l: Link, f: Format, ssrc: U32, r: Received, last: U64, e: Arrival)
    requires GapFree(l) && Timely(l, e) && f.playOut == l.first.playOut
    requires r.ssrc == Unknown || r.ssrc == Known(ssrc)
    ensures var p, end := l.sent[e.index], EndOf(l, e.index);
            Judge(f, r, Leg(last), Rx(f, ssrc, p, e), p.frames, e.globalSac)
            == (Received(Known(ssrc), e.seqNum, end), if last < end then Copied(p.sac + f.playOut) else Skipped)
  {
    var p := l.sent[e.index];
    assert p.frames > 0 && EndOf(l, e.index) < TWO64;
    TimelyJudged(f, r, Leg(last), Rx(f, ssrc, p, e), p.frames, p.sac, p.sac + f.playOut, e.globalSac);
  }

  /** Whatever arrived before, on either leg and in any order, and whatever the marks were at the start:
      a packet is copied, at its playout position, exactly when the other leg is before it. */
  lemma Merges(l: Link, s: Pair, m: Marks, e: Arrival)
    requires GapFree(l) && PairInv(l, s, m) && Timely(l, e)
    ensures Outcome(l, s, e).1 == if IsFresh(l, s, m, e) then Copied(l.sent[e.index].sac + l.first.playOut) else Skipped
    ensures LegInv(l, Outcome(l, s, e).0, e.index + 1, if e.onSecond then l.ssrc2 else l.ssrc1, 0)
  {
    if e.onSecond {
      LegJudged(l, l.second, l.ssrc2, s.second, s.first.last, e);
      MarkOrdersPackets(l, s.first, s.next1, l.ssrc1, m.first, e.index);
    } else {
      LegJudged(l, l.first, l.ssrc1, s.first, s.second.last, e);
      MarkOrdersPackets(l, s.second, s.next2, l.ssrc2, m.second, e.index);
    }
  }

  lemma StepKeeps(l: Link, s: Pair, m: Marks, e: Arrival)
    requires GapFree(l) && PairInv(l, s, m) && Timely(l, e)
    ensures PairInv(l, Step(l, s, e), m)
    ensures Step(l, s, e).copied == if IsFresh(l, s, m, e) then s.copied + [e.index] else s.copied
  {
    Merges(l, s, m, e);
  }

  // -- Whole runs

  predicate AllTimely(l: Link, es: seq<Arrival>) { forall i :: 0 <= i < |es| ==> Timely(l, es[i]) }

  function Run(l: Link, s: Pair, es: seq<Arrival>): Pair
    decreases |es|
  {
    if es == [] then s else Step(l, Run(l, s, es[..|es| - 1]), es[|es| - 1])
  }

  lemma {:induction false} RunKeeps(l: Link, s: Pair, m: Marks, es: seq<Arrival>)
    requires GapFree(l) && PairInv(l, s, m) && AllTimely(l, es)
    ensures PairInv(l, Run(l, s, es), m)
    decreases |es|
  {
    if es != [] {
      RunKeeps(l, s, m, es[..|es| - 1]);
      StepKeeps(l, Run(l, s, es[..|es| - 1]), m, es[|es| - 1]);
    }
  }

  /** For each arrival of a run, whether the other leg was before its packet at that moment. */
  function FreshAt(l: Link, s: Pair, m: Marks, es: seq<Arrival>): (h: seq<bool>)
    ensures |h| == |es|
    decreases |es|
  {
    if es == [] then []
    else
      var k, e := |es| - 1, es[|es| - 1];
      FreshAt(l, s, m, es[..k]) + [e.index < |l.sent| && IsFresh(l, Run(l, s, es[..k]), m, e)]
  }

  /** One of the arrivals of packet k finds the other leg before it. */
  ghost predicate ArrivesFresh(es: seq<Arrival>, seen: seq<bool>, k: nat)
    requires |seen| == |es|
  {
    exists i :: 0 <= i < |es| && es[i].index == k && seen[i]
  }

  lemma FreshSplits(es: seq<Arrival>, n: nat, seen: seq<bool>, last: bool, k: nat)
    requires |seen| == n && |es| == n + 1
    ensures ArrivesFresh(es, seen + [last], k) <==> ArrivesFresh(es[..n], seen, k) || (es[n].index == k && last)
  {
    var seen' := seen + [last];
    if i :| 0 <= i < n && es[..n][i].index == k && seen[i] {
      assert es[i].index == k && seen'[i];
    }
    if es[n].index == k && last {
      assert es[n].index == k && seen'[n];
    }
    if i :| 0 <= i < n && es[i].index == k && seen'[i] {
      assert es[..n][i].index == k && seen[i];
    }
  }

  lemma StepWrites(l: Link, s: Pair, m: Marks, e: Arrival, k: nat)
    requires GapFree(l) && PairInv(l, s, m) && Timely(l, e)
    ensures k in Step(l, s, e).copied <==> k in s.copied || (e.index == k && IsFresh(l, s, m, e))
  {
    StepKeeps(l, s, m, e);
  }

  /** For every pair of arrival sequences, lossy or out of order, and every pair of starting marks: packet
      k is written exactly when one of its arrivals finds the other leg before it. A packet lost on one
      leg is therefore repaired only if its twin comes before the next packet of the leg that lost it. */
  lemma {:induction false} WrittenExactlyWhenFresh(l: Link, s: Pair, m: Marks, es: seq<Arrival>, k: nat)
    requires GapFree(l) && PairInv(l, s, m) && AllTimely(l, es) && s.copied == []
    ensures k in Run(l, s, es).copied <==> ArrivesFresh(es, FreshAt(l, s, m, es), k)
    decreases |es|
  {
    if es != [] {
      var n := |es| - 1;
      WrittenExactlyWhenFresh(l, s, m, es[..n], k);
      RunKeeps(l, s, m, es[..n]);
      StepWrites(l, Run(l, s, es[..n]), m, es[n], k);
      FreshSplits(es, n, FreshAt(l, s, m, es[..n]), IsFresh(l, Run(l, s, es[..n]), m, es[n]), k);
    }
  }

  /** Each leg delivers its packets in order from the first one on, without a loss. */
  predicate InOrder(l: Link, s: Pair, es: seq<Arrival>)
    decreases |es|
  {
    es == [] ||
    var n := |es| - 1;
    var before := Run(l, s, es[..n]);
    InOrder(l, s, es[..n]) && es[n].index == (if es[n].onSecond then before.next2 else before.next1)
  }

  function UpTo(n: nat): (s: seq<nat>)
    ensures |s| == n && forall i :: 0 <= i < n ==> s[i] == i
  {
    if n == 0 then [] else UpTo(n - 1) + [n - 1]
  }

  /** Both legs start below the end of the first packet. */
  predicate StartsBefore(l: Link, m: Marks) { |l.sent| > 0 ==> m.first < EndOf(l, 0) && m.second < EndOf(l, 0) }

  predicate IsStart(l: Link, s: Pair, m: Marks)
  {
    PairInv(l, s, m) && s.next1 == 0 && s.next2 == 0 && s.copied == []
  }

  /** Under every interleaving of two loss-free legs that start below the first packet, each packet is
      copied once, in order, by the leg that delivers it first. */
  lemma {:induction false} EachPacketOnce(l: Link, s: Pair, m: Marks, es: seq<Arrival>)
    requires GapFree(l) && IsStart(l, s, m) && AllTimely(l, es) && InOrder(l, s, es) && StartsBefore(l, m)
    ensures var r := Run(l, s, es);
            r.copied == UpTo(Max(r.next1, r.next2))
    decreases |es|
  {
    if es != [] {
      var n := |es| - 1;
      EachPacketOnce(l, s, m, es[..n]);
      RunKeeps(l, s, m, es[..n]);
      NextInOrder(l, Run(l, s, es[..n]), m, es[n]);
    }
  }

  lemma StartIsBefore(l: Link, m: Marks, k: nat)
    requires GapFree(l) && StartsBefore(l, m) && k < |l.sent|
    ensures m.first < EndOf(l, k) && m.second < EndOf(l, k)
  {
    if k > 0 { EndsIncrease(l, 0, k); }
  }

  lemma NextInOrder(l: Link, s: Pair, m: Marks, e: Arrival)
    requires GapFree(l) && PairInv(l, s, m) && Timely(l, e) && s.copied == UpTo(Max(s.next1, s.next2))
    requires e.index == (if e.onSecond then s.next2 else s.next1) && StartsBefore(l, m)
    ensures var r := Step(l, s, e);
            r.copied == UpTo(Max(r.next1, r.next2))
  {
    StepKeeps(l, s, m, e);
    StartIsBefore(l, m, e.index);
  }

  /** The run that shows a mark ahead of the first packet: the leg whose twin has it delivers packet 0. */
  function FirstArrival(l: Link, onSecond: bool): Arrival
    requires |l.sent| > 0
  {
    Arrival(onSecond, 0, 0, 0, [], l.sent[0].sac)
  }

  lemma OneArrival(l: Link, s: Pair, m: Marks, onSecond: bool)
    requires GapFree(l) && IsStart(l, s, m) && |l.sent| > 0
    ensures var es := [FirstArrival(l, onSecond)];
            && AllTimely(l, es) && InOrder(l, s, es)
            && Max(Run(l, s, es).next1, Run(l, s, es).next2) == 1
            && Run(l, s, es).copied == if (if onSecond then m.first else m.second) < EndOf(l, 0) then [0] else []
  {
    var e := FirstArrival(l, onSecond);
    var es := [e];
    assert es[..0] == [] && Run(l, s, es[..0]) == s;
    StepKeeps(l, s, m, e);
  }

  /** Loss-free legs are merged without a loss under every interleaving if and only if both legs start
      below the end of the first packet. */
  lemma EachPacketOnceIff(l: Link, s: Pair, m: Marks)
    requires GapFree(l) && IsStart(l, s, m)
    ensures StartsBefore(l, m) <==>
            forall es :: AllTimely(l, es) && InOrder(l, s, es) ==>
              Run(l, s, es).copied == UpTo(Max(Run(l, s, es).next1, Run(l, s, es).next2))
  {
    if StartsBefore(l, m) {
      forall es | AllTimely(l, es) && InOrder(l, s, es)
        ensures Run(l, s, es).copied == UpTo(Max(Run(l, s, es).next1, Run(l, s, es).next2))
      {
        EachPacketOnce(l, s, m, es);
      }
    } else {
      var onSecond := m.first >= EndOf(l, 0);
      OneArrival(l, s, m, onSecond);
      var es := [FirstArrival(l, onSecond)];
      assert Run(l, s, es).copied == [] && |UpTo(1)| == 1;
    }
  }

  /** A stale mark: the second sink reuses a slot whose mark lies ahead. Both loss-free legs deliver packet
      0, and neither writes it. */
  lemma StaleMarkLosesPackets(l: Link, s: Pair, m: Marks, e: Arrival, e': Arrival)
    requires GapFree(l) && IsStart(l, s, m) && |l.sent| > 0 && m.second >= EndOf(l, 0)
    requires Timely(l, e) && Timely(l, e') && !e.onSecond && e'.onSecond && e.index == 0 && e'.index == 0
    ensures InOrder(l, s, [e, e']) && Run(l, s, [e, e']).copied == []
  {
    RunOfTwo(l, s, e, e');
    StepKeeps(l, s, m, e);
    StepKeeps(l, Step(l, s, e), m, e');
    OrderOfTwo(l, s, e, e');
  }

  lemma RunOfTwo(l: Link, s: Pair, e: Arrival, e': Arrival)
    ensures Run(l, s, [e]) == Step(l, s, e) && Run(l, s, [e, e']) == Step(l, Step(l, s, e), e')
  {
    assert [e][..0] == [] && Run(l, s, [e][..0]) == s;
    assert [e, e'][..1] == [e];
  }

  lemma OrderOfTwo(l: Link, s: Pair, e: Arrival, e': Arrival)
    requires e.index == (if e.onSecond then s.next2 else s.next1)
    requires e'.index == (if e'.onSecond then Step(l, s, e).next2 else Step(l, s, e).next1)
    ensures InOrder(l, s, [e, e'])
  {
    RunOfTwo(l, s, e, e');
    assert [e][..0] == [] && InOrder(l, s, [e][..0]);
    assert [e, e'][..1] == [e] && InOrder(l, s, [e]);
  }

  /** The repair can fail: the first leg loses packet 0, and its packet 1 comes before the twin of 0,
      which is then skipped. */
  lemma LossNotRepaired(l: Link, s: Pair, m: Marks, e1: Arrival, e0: Arrival)
    requires GapFree(l) && IsStart(l, s, m) && StartsBefore(l, m) && |l.sent| >= 2
    requires Timely(l, e1) && Timely(l, e0) && !e1.onSecond && e1.index == 1 && e0.onSecond && e0.index == 0
    ensures Run(l, s, [e1, e0]).copied == [1]
  {
    StartIsBefore(l, m, 1);
    RunOfTwo(l, s, e1, e0);
    StepKeeps(l, s, m, e1);
    StepKeeps(l, Step(l, s, e1), m, e0);
  }
}
