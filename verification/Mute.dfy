/** Muting of sinks that stopped receiving: IsLivesInMustBeMuted and PrepareBufferLives of
    driver/RTP_audio_stream.c. */
module Mute {
  import opened CInt
  import opened Convert
  import opened Rings
  import opened RtpReceive
  import Arith

  // -- The mute test

  /** The frame of f samples at globalSac is judged missing; both sides are cut to 32 bits, signed. */
  predicate MustMute(last: U64, globalSac: U64, f: U32) { I32(W64(last - globalSac)) < I32(f) }

  lemma LowWord(x: int)
    ensures W32(W64(x)) == W32(x)
  {
    assert x == x / TWO64 * TWO64 + W64(x);
    assert x / TWO64 * TWO64 == x / TWO64 * TWO32 * TWO32;
    Arith.ModAddMultiple(W64(x), x / TWO64 * TWO32, TWO32);
  }

  /** What the truncated test decides, for every pair of counts. */
  lemma MustMuteIff(last: U64, globalSac: U64, f: U32)
    requires f < TWO31
    ensures MustMute(last, globalSac, f) <==> !(f <= W32(last - globalSac) < TWO31)
  {
    LowWord(last - globalSac);
  }

  /** Within 2^31 samples of the newest audio the test is exact: mute when the frame is incomplete. */
  lemma MuteTestExact(last: U64, globalSac: U64, f: U32)
    requires f < TWO31 && -TWO31 <= last - globalSac < TWO31
    ensures MustMute(last, globalSac, f) <==> last < globalSac + f
  {
    MustMuteIff(last, globalSac, f);
  }

  /** A stream that stays silent for 2^32 samples less one frame is taken to be alive again. */
  lemma StaleStreamPassesTheTest(last: U64, f: U32)
    requires 0 < f < TWO31 && last + TWO32 - f < TWO64
    ensures last < last + TWO32 - f && !MustMute(last, last + TWO32 - f, f)
  {
    MustMuteIff(last, last + TWO32 - f, f);
    assert W32(f - TWO32) == f;
  }

  /** With an attached leg the frame is muted only when neither leg covers it. */
  predicate AllMuted(last: U64, other: Mark, globalSac: U64, f: U32)
  {
    MustMute(last, globalSac, f) && (other.Leg? ==> MustMute(other.last, globalSac, f))
  }

  /** The leg has audio up to the end of the frame at globalSac; the newest is less than 2^31 samples ahead. */
  predicate Covers(last: U64, globalSac: U64, f: U32) { globalSac + f <= last < globalSac + TWO31 }

  /** The mark of the leg is within 2^31 samples of globalSac. */
  predicate Nearby(last: U64, globalSac: U64) { -TWO31 <= last - globalSac < TWO31 }

  /** With both marks nearby the frame is muted exactly when neither leg covers it; and one leg that covers it
      is enough to keep it, wherever the other one is. */
  lemma AllMutedIff(last: U64, other: Mark, globalSac: U64, f: U32)
    requires f < TWO31
    ensures Nearby(last, globalSac) && (other.Leg? ==> Nearby(other.last, globalSac)) ==>
              (AllMuted(last, other, globalSac, f) <==>
               last < globalSac + f && (other.Leg? ==> other.last < globalSac + f))
    ensures Covers(last, globalSac, f) || (other.Leg? && Covers(other.last, globalSac, f)) ==>
              !AllMuted(last, other, globalSac, f)
  {
    if Nearby(last, globalSac) { MuteTestExact(last, globalSac, f); }
    if other.Leg? && Nearby(other.last, globalSac) { MuteTestExact(other.last, globalSac, f); }
  }

  // -- What a muted tick does to one ring

  function MutedWord(pattern: Byte): Word { Word(pattern, pattern, pattern, pattern) }

  /** The words off..off+f replaced. */
  function Fill(ring: Ring, off: nat, f: nat, w: Word): (r: Ring)
    ensures |r| == |ring|
    ensures forall j :: 0 <= j < |r| ==> r[j] == if off <= j < off + f then w else ring[j]
    decreases |ring|
  {
    if ring == [] then []
    else
      var m := |ring| - 1;
      Fill(ring[..m], off, f, w) + [if off <= m < off + f then w else ring[m]]
  }

  datatype MuteState = MuteState(counter: nat, ring: Ring)

  /** Writes stop once the counter has reached a whole ring. */
  function MuteTick(s: MuteState, off: nat, f: nat, limit: nat, w: Word): MuteState
  {
    if s.counter < limit then MuteState(s.counter + 1, Fill(s.ring, off, f, w)) else s
  }

  /** n muted ticks in a row from globalSac on, one frame apart, without a packet copied. */
  function MutedRun(s: MuteState, globalSac: nat, f: nat, len: nat, w: Word, n: nat): MuteState
    requires f > 0 && len > 0
  {
    if n == 0 then s
    else MuteTick(MutedRun(s, globalSac, f, len, w, n - 1), Offset(globalSac, f, len, n - 1), f, Limit(len, f), w)
  }

  function Offset(globalSac: nat, f: nat, len: nat, i: nat): nat
    requires len > 0
  {
    Arith.MulNonNeg(i, f);
    Arith.DivModOf(globalSac + i * f, len);
    (globalSac + i * f) % len
  }

  function Limit(len: nat, f: nat): nat
    requires f > 0
  {
    Arith.DivAtMost(len, f);
    len / f
  }

  /** A frame that starts on a multiple of the frame size does not cross the end of the ring. */
  lemma FrameInside(globalSac: nat, f: nat, len: nat)
    requires f > 0 && len > 0 && globalSac % f == 0 && len % f == 0
    ensures globalSac % len + f <= len
  {
    Arith.ModKeepsMultiple(globalSac, f, len);
    Arith.DivModOf(globalSac, len);
    Arith.MultiplesApart(globalSac % len, len, f);
  }

  lemma OffsetOf(globalSac: nat, f: nat, len: nat, i: nat, d: nat)
    requires f > 0 && len > 0 && d == i * f && d < len && globalSac % f == 0 && len % f == 0
    ensures var base, off := globalSac % len, Offset(globalSac, f, len, i);
            0 <= base < len && off + f <= len && (off == base + d || off == base + d - len)
  {
    Arith.DivModOf(globalSac, len);
    var q, base := globalSac / len, globalSac % len;
    Arith.ModAddMultiple(globalSac, i, f);
    FrameInside(globalSac + d, f, len);
    if base + d < len {
      Arith.QuotientUnique(globalSac + d, len, q, base + d);
    } else {
      Arith.MulDist(q, 1, len);
      Arith.QuotientUnique(globalSac + d, len, q + 1, base + d - len);
    }
  }

  /** The words within d samples after base, around the ring, are w, all others those of was. */
  predicate MutedExactly(ring: Ring, was: Ring, base: nat, d: nat, len: nat, w: Word)
    requires base < len <= |was|
  {
    |ring| == |was| && forall j :: 0 <= j < |was| ==> ring[j] == if j < len && Back(j, base, len) < d then w else was[j]
  }

  lemma FillExtends(ring: Ring, was: Ring, base: nat, d: nat, off: nat, f: nat, len: nat, w: Word)
    requires base < len <= |was| && d + f <= len && MutedExactly(ring, was, base, d, len, w)
    requires off + f <= len && (off == base + d || off == base + d - len)
    ensures MutedExactly(Fill(ring, off, f, w), was, base, d + f, len, w)
  {}

  /** Frames that are still written from counter value c on. */
  function Room(c: nat, len: nat, f: nat): nat
    requires f > 0
  {
    if c < Limit(len, f) then Limit(len, f) - c else 0
  }

  lemma RoomInRing(len: nat, f: nat, k: nat, d: nat)
    requires f > 0 && k <= Limit(len, f) && d == k * f
    ensures d <= len
  {
    Arith.DivModOf(len, f);
    Arith.MulMono(k, len / f, f);
  }

  lemma OneMore(k: nat, f: nat, d: nat)
    requires d == k * f
    ensures d + f == (k + 1) * f
  {
    Arith.MulDist(k, 1, f);
  }

  lemma OneLess(k: nat, f: nat, d: nat)
    requires k > 0 && d == k * f
    ensures d >= f && d - f == (k - 1) * f
  {
    Arith.MulDist(k - 1, 1, f);
    Arith.MulNonNeg(k - 1, f);
  }

  /** The state r is that of s after k written frames of d samples together. */
  predicate Wrote(r: MuteState, s: MuteState, base: nat, k: nat, d: nat, len: nat, w: Word)
  {
    r.counter == s.counter + k && base < len <= |s.ring| && MutedExactly(r.ring, s.ring, base, d, len, w)
  }

  lemma WriteStep(r: MuteState, s: MuteState, globalSac: nat, f: nat, len: nat, w: Word, i: nat, d: nat)
    requires f > 0 && 0 < len && globalSac % f == 0 && len % f == 0 && 0 <= globalSac % len
    requires i < Room(s.counter, len, f) && d == i * f && Wrote(r, s, globalSac % len, i, d, len, w)
    ensures Wrote(MuteTick(r, Offset(globalSac, f, len, i), f, Limit(len, f), w), s, globalSac % len, i + 1, d + f, len, w)
  {
    OneMore(i, f, d);
    RoomInRing(len, f, i + 1, d + f);
    OffsetOf(globalSac, f, len, i, d);
    FillExtends(r.ring, s.ring, globalSac % len, d, Offset(globalSac, f, len, i), f, len, w);
  }

  /** What n muted ticks do, from every counter value: the first k frames of the run are muted, as many as
      the counter has room for, and no other word changes. */
  lemma {:induction false} RunExact(s: MuteState, globalSac: nat, f: nat, len: nat, w: Word, n: nat, k: nat, d: nat)
    requires f > 0 && 0 < len <= |s.ring| && globalSac % f == 0 && len % f == 0
    requires k == Min(n, Room(s.counter, len, f)) && d == k * f
    ensures 0 <= globalSac % len && Wrote(MutedRun(s, globalSac, f, len, w, n), s, globalSac % len, k, d, len, w)
    decreases n
  {
    Arith.DivModOf(globalSac, len);
    if n > 0 && k == n {
      OneLess(n, f, d);
      RunExact(s, globalSac, f, len, w, n - 1, n - 1, d - f);
      WriteStep(MutedRun(s, globalSac, f, len, w, n - 1), s, globalSac, f, len, w, n - 1, d - f);
    } else if n > 0 {
      RunExact(s, globalSac, f, len, w, n - 1, k, d);
    }
  }

  lemma WholeRing(len: nat, f: nat)
    requires f > 0 && len % f == 0
    ensures Limit(len, f) * f == len
  {
    Arith.DivModOf(len, f);
  }

  /** After a whole ring of muted ticks every word is the pattern, and stays so although nothing is
      written any more. */
  lemma Saturates(s: MuteState, globalSac: nat, f: nat, len: nat, w: Word, n: nat)
    requires f > 0 && 0 < len <= |s.ring| && globalSac % f == 0 && len % f == 0
    requires s.counter == 0 && n >= Limit(len, f)
    ensures var r := MutedRun(s, globalSac, f, len, w, n);
            && r.counter == Limit(len, f) && |r.ring| == |s.ring|
            && forall j :: 0 <= j < len ==> r.ring[j] == w
  {
    WholeRing(len, f);
    RunExact(s, globalSac, f, len, w, n, Limit(len, f), len);
  }

  /** At every tick of a muted run the frame at the current count, which is captured next, is mute. */
  lemma CurrentFrameMute(s: MuteState, globalSac: nat, f: nat, len: nat, w: Word, n: nat, j: nat)
    requires f > 0 && 0 < len <= |s.ring| && globalSac % f == 0 && len % f == 0 && s.counter == 0 && n > 0
    requires Offset(globalSac, f, len, n - 1) <= j < Offset(globalSac, f, len, n - 1) + f && j < len
    ensures |MutedRun(s, globalSac, f, len, w, n).ring| == |s.ring| && MutedRun(s, globalSac, f, len, w, n).ring[j] == w
  {
    if n <= Limit(len, f) {
      Arith.MulNonNeg(n - 1, f);
      RunExact(s, globalSac, f, len, w, n - 1, n - 1, (n - 1) * f);
    } else {
      Saturates(s, globalSac, f, len, w, n);
    }
  }

  /** A ring without a mute word is muted by a whole ring of ticks if and only if the counter stands at
      zero at the start. */
  lemma SaturatesIff(s: MuteState, globalSac: nat, f: nat, len: nat, w: Word, n: nat)
    requires f > 0 && 0 < len <= |s.ring| && globalSac % f == 0 && len % f == 0 && n >= Limit(len, f)
    requires forall j :: 0 <= j < len ==> s.ring[j] != w
    ensures |MutedRun(s, globalSac, f, len, w, n).ring| == |s.ring|
    ensures (forall j :: 0 <= j < len ==> MutedRun(s, globalSac, f, len, w, n).ring[j] == w) <==> s.counter == 0
  {
    var k := Room(s.counter, len, f);
    WholeRing(len, f);
    Arith.MulNonNeg(k, f);
    RunExact(s, globalSac, f, len, w, n, k, k * f);
    if s.counter > 0 {
      Arith.MulMono(k, Limit(len, f) - 1, f);
      Arith.MulDist(Limit(len, f) - 1, 1, f);
      var last := Wrap(globalSac % len, len - 1, len);
      assert Back(last, globalSac % len, len) == len - 1;
    }
  }

  // -- The operation on the rings themselves

  method MuteSpan(ring: array<Word>, off: nat, f: nat, w: Word)
    requires off + f <= ring.Length
    modifies ring
    ensures forall k :: 0 <= k < ring.Length ==> ring[k] == if off <= k < off + f then w else old(ring[k])
  {
    var j := off;
    while j < off + f
      invariant off <= j <= off + f
      invariant forall k :: 0 <= k < ring.Length ==> ring[k] == if off <= k < j then w else old(ring[k])
    {
      ring[j] := w;
      j := j + 1;
    }
  }

  /** Same span in every ring, each with the pattern of its channel; of several channels on one ring the
      last one stays. */
  method MuteRings(rings: seq<array<Word>>, off: nat, f: nat, patterns: seq<Byte>)
    requires |patterns| == |rings|
    requires forall c :: 0 <= c < |rings| ==> off + f <= rings[c].Length
    modifies rings
    ensures forall c :: 0 <= c < |rings| && LastUse(rings, c) ==>
              rings[c][..] == Fill(old(rings[c][..]), off, f, MutedWord(patterns[c]))
  {
    var ch := 0;
    while ch < |rings|
      invariant 0 <= ch <= |rings|
      invariant forall c, j :: 0 <= c < |rings| && 0 <= j < rings[c].Length && !(off <= j < off + f) ==>
                  rings[c][j] == old(rings[c][j])
      invariant forall c, j :: 0 <= c < ch && LastUse(rings, c) && off <= j < off + f ==>
                  rings[c][j] == MutedWord(patterns[c])
    {
      MuteSpan(rings[ch], off, f, MutedWord(patterns[ch]));
      ch := ch + 1;
    }
  }

  /** The mute flags of the stream status; they stay set until the status is reset. */
  datatype Status = Status(muted: bool, allMuted: bool)

  /** PrepareBufferLives for a sink. The stream on NIC 0 does the writing for both legs. The flag
      muted of the status is never raised: the variable it is taken from is shadowed and stays false. */
  method PrepareBufferLives(sink: SinkStream, nic: nat, globalSac: U64, f: U32, len: nat, patterns: seq<Byte>,
                            status: Status, reset: bool)
    returns (allMuted: bool, status': Status)
    requires f > 0 && len > 0 && |patterns| == |sink.rings|
    requires forall c :: 0 <= c < |sink.rings| ==> Offset(globalSac, f, len, 0) + f <= sink.rings[c].Length
    modifies sink`mutedFrames, sink.rings
    ensures allMuted == AllMuted(sink.received.last, sink.OtherLeg(), globalSac, f)
    ensures f < TWO31 && Nearby(sink.received.last, globalSac)
            && (sink.attached != null ==> Nearby(sink.attached.received.last, globalSac)) ==>
              (allMuted <==> sink.received.last < globalSac + f
                             && (sink.attached != null ==> sink.attached.received.last < globalSac + f))
    ensures f < TWO31 && (Covers(sink.received.last, globalSac, f)
                          || (sink.attached != null && Covers(sink.attached.received.last, globalSac, f))) ==>
              !allMuted && sink.mutedFrames == 0
              && forall c :: 0 <= c < |sink.rings| ==> sink.rings[c][..] == old(sink.rings[c][..])
    ensures allMuted && nic == 0 ==>
              && sink.mutedFrames == old(sink.mutedFrames) + (if old(sink.mutedFrames) < Limit(len, f) then 1 else 0)
              && forall c :: 0 <= c < |sink.rings| && LastUse(sink.rings, c) ==>
                   MuteState(sink.mutedFrames, sink.rings[c][..])
                   == MuteTick(MuteState(old(sink.mutedFrames), old(sink.rings[c][..])), Offset(globalSac, f, len, 0),
                               f, Limit(len, f), MutedWord(patterns[c]))
    ensures !(allMuted && nic == 0) ==>
              && sink.mutedFrames == (if allMuted then old(sink.mutedFrames) else 0)
              && forall c :: 0 <= c < |sink.rings| ==> sink.rings[c][..] == old(sink.rings[c][..])
    ensures status' == if reset then Status(false, allMuted) else Status(status.muted, status.allMuted || allMuted)
  {
    if f < TWO31 { AllMutedIff(sink.received.last, sink.OtherLeg(), globalSac, f); }
    var muted := false;
    {
      var muted := MustMute(sink.received.last, globalSac, f);
      allMuted := muted;
      if sink.attached != null {
        allMuted := allMuted && MustMute(sink.attached.received.last, globalSac, f);
      }
    }
    if allMuted {
      if nic == 0 && sink.mutedFrames < Limit(len, f) {
        sink.mutedFrames := sink.mutedFrames + 1;
        MuteRings(sink.rings, Offset(globalSac, f, len, 0), f, patterns);
      }
    } else {
      sink.mutedFrames := 0;
    }
    status' := if reset then Status(muted, allMuted) else Status(status.muted || muted, status.allMuted || allMuted);
  }

  // -- Runs on a sink

  /** Count at tick i of a run. */
  function CountAt(globalSac: nat, f: nat, i: nat): int { globalSac + i * f }

  lemma OffsetAt(globalSac: nat, f: nat, len: nat, i: nat, count: nat)
    requires len > 0 && count == CountAt(globalSac, f, i)
    ensures Offset(count, f, len, 0) == Offset(globalSac, f, len, i)
  {
    assert 0 * f == 0;
  }

  /** The mute test of marks last and other holds at each of the n ticks from globalSac on. */
  ghost predicate MutedThroughout(last: U64, other: Mark, globalSac: nat, f: U32, n: nat)
  {
    forall i :: 0 <= i < n ==> 0 <= CountAt(globalSac, f, i) < TWO64 && AllMuted(last, other, CountAt(globalSac, f, i), f)
  }

  /** No leg of the sink covers any of the n frames from globalSac on. */
  ghost predicate Silent(sink: SinkStream, globalSac: nat, f: U32, n: nat)
    reads sink, sink.attached
  {
    MutedThroughout(sink.received.last, sink.OtherLeg(), globalSac, f, n)
  }

  /** Audio that ends at or before globalSac on both legs leaves every tick of the next 2^31 samples muted. */
  lemma LateIsMuted(last: U64, other: Mark, globalSac: U64, f: U32, n: nat, d: nat)
    requires 0 < f < TWO31 && d == n * f && globalSac + d < TWO64
    requires last <= globalSac && globalSac + d - last <= TWO31
    requires other.Leg? ==> other.last <= globalSac && globalSac + d - other.last <= TWO31
    ensures MutedThroughout(last, other, globalSac, f, n)
  {
    forall i | 0 <= i < n
      ensures 0 <= CountAt(globalSac, f, i) < TWO64 && AllMuted(last, other, CountAt(globalSac, f, i), f)
    {
      Arith.MulNonNeg(i, f);
      Arith.MulMono(i, n, f);
      MuteTestExact(last, CountAt(globalSac, f, i), f);
      if other.Leg? {
        MuteTestExact(other.last, CountAt(globalSac, f, i), f);
      }
    }
  }

  /** Every ring has room for len words. */
  ghost predicate RoomToMute(sink: SinkStream, len: nat)
  {
    forall c :: 0 <= c < |sink.rings| ==> len <= sink.rings[c].Length
  }

  /** The rings of the sink after n muted ticks, as MutedRun has them. */
  ghost predicate RanMuted(sink: SinkStream, was: seq<Ring>, counter: nat, globalSac: nat, f: nat, len: nat,
                           patterns: seq<Byte>, n: nat)
    reads sink, sink.rings
    requires f > 0 && len > 0 && |patterns| == |sink.rings| == |was|
  {
    forall c :: 0 <= c < |sink.rings| && LastUse(sink.rings, c) ==>
      MuteState(sink.mutedFrames, sink.rings[c][..])
      == MutedRun(MuteState(counter, was[c]), globalSac, f, len, MutedWord(patterns[c]), n)
  }

  /** Samples written by n muted ticks from counter value c on. */
  function Covered(n: nat, c: nat, len: nat, f: nat): nat
    requires f > 0
  {
    Arith.MulNonNeg(Min(n, Room(c, len, f)), f);
    Min(n, Room(c, len, f)) * f
  }

  lemma CoveredAll(n: nat, len: nat, f: nat)
    requires f > 0 && len % f == 0 && n >= Limit(len, f)
    ensures Covered(n, 0, len, f) == len
  {
    WholeRing(len, f);
  }

  lemma CoveredNone(n: nat, c: nat, len: nat, f: nat)
    requires f > 0
    ensures c >= Limit(len, f) ==> Covered(n, c, len, f) == 0
  {
    assert 0 * f == 0;
  }

  /** Every ring of the sink is muted within d samples after base and otherwise as it was. */
  ghost predicate RingsMuted(sink: SinkStream, was: seq<Ring>, base: nat, d: nat, len: nat, patterns: seq<Byte>)
    reads sink.rings
    requires |patterns| == |sink.rings| == |was|
  {
    forall c :: 0 <= c < |sink.rings| && LastUse(sink.rings, c) ==>
      base < len <= |was[c]| && MutedExactly(sink.rings[c][..], was[c], base, d, len, MutedWord(patterns[c]))
  }

  lemma RanExactly(sink: SinkStream, was: seq<Ring>, counter: nat, globalSac: nat, f: nat, len: nat, patterns: seq<Byte>,
                   n: nat)
    requires f > 0 && len > 0 && globalSac % f == 0 && len % f == 0 && |patterns| == |sink.rings| == |was|
    requires forall c :: 0 <= c < |was| ==> len <= |was[c]|
    requires RanMuted(sink, was, counter, globalSac, f, len, patterns, n)
    ensures RingsMuted(sink, was, Offset(globalSac, f, len, 0), Covered(n, counter, len, f), len, patterns)
    ensures forall c :: 0 <= c < |was| && LastUse(sink.rings, c) ==>
              sink.mutedFrames == counter + Min(n, Room(counter, len, f))
  {
    assert 0 * f == 0;
    forall c | 0 <= c < |was| && LastUse(sink.rings, c)
      ensures Wrote(MuteState(sink.mutedFrames, sink.rings[c][..]), MuteState(counter, was[c]), Offset(globalSac, f, len, 0),
                    Min(n, Room(counter, len, f)), Covered(n, counter, len, f), len, MutedWord(patterns[c]))
    {
      RunExact(MuteState(counter, was[c]), globalSac, f, len, MutedWord(patterns[c]), n, Min(n, Room(counter, len, f)),
               Covered(n, counter, len, f));
    }
  }

  /** n silent ticks on a sink of NIC 0. They mute as many frames as the counter has room for and change
      no other word; so when they make up a whole ring and the counter started at zero, every word of
      every ring is its mute pattern. */
  method MuteTicks(sink: SinkStream, globalSac: U64, f: U32, len: nat, patterns: seq<Byte>, n: nat, ghost was: seq<Ring>)
    requires f > 0 && len > 0 && |patterns| == |sink.rings| == |was| && RoomToMute(sink, len)
    requires globalSac % f == 0 && len % f == 0 && Silent(sink, globalSac, f, n)
    requires forall c :: 0 <= c < |was| ==> was[c] == sink.rings[c][..]
    modifies sink`mutedFrames, sink.rings
    ensures RanMuted(sink, was, old(sink.mutedFrames), globalSac, f, len, patterns, n)
    ensures RingsMuted(sink, was, Offset(globalSac, f, len, 0), Covered(n, old(sink.mutedFrames), len, f), len, patterns)
    ensures old(sink.mutedFrames) == 0 && n >= Limit(len, f) ==>
              RingsMuted(sink, was, Offset(globalSac, f, len, 0), len, len, patterns)
    ensures sink.mutedFrames == old(sink.mutedFrames) + Min(n, Room(old(sink.mutedFrames), len, f))
  {
    MuteRun(sink, globalSac, f, len, patterns, n, was);
    RanExactly(sink, was, old(sink.mutedFrames), globalSac, f, len, patterns, n);
    if old(sink.mutedFrames) == 0 && n >= Limit(len, f) {
      CoveredAll(n, len, f);
    }
  }

  /** The sink after i of n silent ticks. */
  ghost predicate Under(sink: SinkStream, was: seq<Ring>, counter: nat, globalSac: nat, f: U32, len: nat, patterns: seq<Byte>,
                        i: nat, n: nat)
    reads sink, sink.attached, sink.rings
  {
    && f > 0 && len > 0 && |patterns| == |sink.rings| == |was| && i <= n
    && Silent(sink, globalSac, f, n) && RanMuted(sink, was, counter, globalSac, f, len, patterns, i)
    && sink.mutedFrames == counter + Min(i, Room(counter, len, f))
  }

  method MuteRun(sink: SinkStream, globalSac: U64, f: U32, len: nat, patterns: seq<Byte>, n: nat, ghost was: seq<Ring>)
    requires f > 0 && len > 0 && |patterns| == |sink.rings| == |was| && RoomToMute(sink, len)
    requires globalSac % f == 0 && len % f == 0 && Silent(sink, globalSac, f, n)
    requires forall c :: 0 <= c < |was| ==> was[c] == sink.rings[c][..]
    modifies sink`mutedFrames, sink.rings
    ensures Under(sink, was, old(sink.mutedFrames), globalSac, f, len, patterns, n, n)
  {
    var i := 0;
    ghost var counter := sink.mutedFrames;
    while i < n
      invariant Under(sink, was, counter, globalSac, f, len, patterns, i, n)
    {
      MuteOn(sink, globalSac, f, len, patterns, i, n, was, counter);
      i := i + 1;
    }
  }

  method MuteOn(sink: SinkStream, globalSac: U64, f: U32, len: nat, patterns: seq<Byte>, i: nat, n: nat,
                ghost was: seq<Ring>, ghost counter: nat)
    requires RoomToMute(sink, len) && f > 0 && globalSac % f == 0 && len % f == 0 && i < n
    requires Under(sink, was, counter, globalSac, f, len, patterns, i, n)
    modifies sink`mutedFrames, sink.rings
    ensures Under(sink, was, counter, globalSac, f, len, patterns, i + 1, n)
  {
    MuteNext(sink, globalSac, f, len, patterns, i, was, counter);
  }

  method MuteNext(sink: SinkStream, globalSac: U64, f: U32, len: nat, patterns: seq<Byte>, i: nat, ghost was: seq<Ring>,
                  ghost counter: nat)
    requires f > 0 && len > 0 && |patterns| == |sink.rings| == |was| && RoomToMute(sink, len)
    requires globalSac % f == 0 && len % f == 0 && 0 <= CountAt(globalSac, f, i) < TWO64
    requires AllMuted(sink.received.last, sink.OtherLeg(), CountAt(globalSac, f, i), f)
    requires RanMuted(sink, was, counter, globalSac, f, len, patterns, i)
    modifies sink`mutedFrames, sink.rings
    ensures RanMuted(sink, was, counter, globalSac, f, len, patterns, i + 1)
    ensures sink.mutedFrames == old(sink.mutedFrames) + if old(sink.mutedFrames) < Limit(len, f) then 1 else 0
  {
    var count := CountAt(globalSac, f, i);
    OffsetAt(globalSac, f, len, i, count);
    Arith.ModAddMultiple(globalSac, i, f);
    FrameInside(count, f, len);
    var muted, status := PrepareBufferLives(sink, 0, count, f, len, patterns, Status(false, false), false);
  }
}
