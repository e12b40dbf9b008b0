/** Packets that arrive too late for their place: ProcessRTPAudioPacket has no in-time test, so their audio
    is copied behind the point that is captured next, and PrepareBufferLives decides how long it stays. */
module LateAudio {
  import opened CInt
  import opened Convert
  import opened Rings
  import opened RtpReceive
  import opened Mute
  import Arith

  /** Every ring has room for len words. */
  ghost predicate Long(words: seq<Ring>, len: nat) { forall c :: 0 <= c < |words| ==> len <= |words[c]| }

  /** Every ring holds the audio of the packet over the words before. */
  ghost predicate Overlaid(sink: SinkStream, words: seq<Ring>, was: seq<Ring>, v: Verdict, len: nat, p: RxPacket)
    requires len > 0 && |words| == |was| == |sink.rings| && sink.WellFormed(p) && Long(was, len) && Long(words, len)
  {
    forall c, j :: 0 <= c < |was| && LastUse(sink.rings, c) && 0 <= j < len ==>
      words[c][j] == sink.WordAfter(v, was[c][j], j, len, p, c)
  }

  /** What the rings hold d samples of muting later: the first d words from base on are mute, all others
      still the audio of the packet over the words before. */
  ghost predicate Stayed(sink: SinkStream, words: seq<Ring>, was: seq<Ring>, v: Verdict, base: nat, d: nat, len: nat,
                         p: RxPacket, patterns: seq<Byte>)
    requires base < len && |words| == |was| == |sink.rings| == |patterns| && sink.WellFormed(p)
    requires Long(was, len) && Long(words, len)
  {
    forall c, j :: 0 <= c < |was| && LastUse(sink.rings, c) && 0 <= j < len ==>
      words[c][j] == if Back(j, base, len) < d then MutedWord(patterns[c]) else sink.WordAfter(v, was[c][j], j, len, p, c)
  }

  lemma Stays(sink: SinkStream, mid: seq<Ring>, was: seq<Ring>, v: Verdict, base: nat, d: nat, len: nat, p: RxPacket,
              patterns: seq<Byte>)
    requires base < len && |mid| == |was| == |sink.rings| == |patterns| && sink.WellFormed(p)
    requires Long(was, len) && Long(mid, len) && RoomToMute(sink, len)
    requires Overlaid(sink, mid, was, v, len, p) && RingsMuted(sink, mid, base, d, len, patterns)
    ensures Stayed(sink, sink.Words(), was, v, base, d, len, p, patterns)
  {
    forall c, j | 0 <= c < |was| && LastUse(sink.rings, c) && 0 <= j < len
      ensures sink.Words()[c][j]
              == if Back(j, base, len) < d then MutedWord(patterns[c]) else sink.WordAfter(v, was[c][j], j, len, p, c)
    {
      assert mid[c][j] == sink.WordAfter(v, was[c][j], j, len, p, c);
      assert MutedExactly(sink.rings[c][..], mid[c], base, d, len, MutedWord(patterns[c]));
    }
  }

  lemma NothingMuted(sink: SinkStream, words: seq<Ring>, was: seq<Ring>, v: Verdict, base: nat, d: nat, len: nat,
                     p: RxPacket, patterns: seq<Byte>)
    requires base < len && |words| == |was| == |sink.rings| == |patterns| && sink.WellFormed(p)
    requires Long(was, len) && Long(words, len) && Stayed(sink, words, was, v, base, d, len, p, patterns)
    ensures d == 0 ==> Overlaid(sink, words, was, v, len, p)
  {
    forall c, j | d == 0 && 0 <= c < |was| && LastUse(sink.rings, c) && 0 <= j < len
      ensures words[c][j] == sink.WordAfter(v, was[c][j], j, len, p, c)
    {
      assert !(Back(j, base, len) < 0);
    }
  }

  ghost predicate Fits(sink: SinkStream, p: RxPacket, f: U32, len: nat, patterns: seq<Byte>)
  {
    && sink.WellFormed(p) && sink.FrameCount(p) <= len && 0 < len && 0 < f && len % f == 0
    && |patterns| == |sink.rings| && RoomToMute(sink, len)
  }

  /** The packet arrives at globalSac: mark and verdict. */
  ghost function Judged(sink: SinkStream, p: RxPacket, globalSac: U64): (Received, Verdict)
    reads sink, sink.attached
    requires sink.WellFormed(p)
  {
    Judge(sink.format, sink.received, sink.OtherLeg(), p, sink.FrameCount(p), globalSac)
  }

  /** A packet that is copied although it covers none of the n frames from globalSac on. */
  ghost predicate Late(sink: SinkStream, p: RxPacket, globalSac: U64, f: U32, n: nat)
    reads sink, sink.attached
  {
    && sink.attached != sink && sink.WellFormed(p) && Judged(sink, p, globalSac).1.Copied?
    && MutedThroughout(Judged(sink, p, globalSac).0.last, sink.OtherLeg(), globalSac, f, n)
  }

  /** The packet is taken as it is, with no test of its time. */
  method Arrive(sink: SinkStream, p: RxPacket, globalSac: U64, f: U32, len: nat, patterns: seq<Byte>, n: nat)
    returns (ghost v: Verdict)
    requires Fits(sink, p, f, len, patterns) && Late(sink, p, globalSac, f, n)
    modifies sink`received, sink.rings
    ensures v == old(Judged(sink, p, globalSac)).1 && Silent(sink, globalSac, f, n)
    ensures Overlaid(sink, sink.Words(), old(sink.Words()), v, len, p)
  {
    v := Judged(sink, p, globalSac).1;
    var used := sink.ProcessPacket(p, globalSac, len);
  }

  method Fade(sink: SinkStream, p: RxPacket, globalSac: U64, f: U32, len: nat, patterns: seq<Byte>, n: nat,
              ghost was: seq<Ring>, ghost v: Verdict)
    requires Fits(sink, p, f, len, patterns) && globalSac % f == 0 && Silent(sink, globalSac, f, n)
    requires |was| == |sink.rings| && Long(was, len) && Overlaid(sink, sink.Words(), was, v, len, p)
    modifies sink`mutedFrames, sink.rings
    ensures Offset(globalSac, f, len, 0) < len
    ensures Stayed(sink, sink.Words(), was, v, Offset(globalSac, f, len, 0),
                   Covered(n, old(sink.mutedFrames), len, f), len, p, patterns)
    ensures old(sink.mutedFrames) >= Limit(len, f) ==> Overlaid(sink, sink.Words(), was, v, len, p)
    ensures sink.mutedFrames == old(sink.mutedFrames) + Min(n, Room(old(sink.mutedFrames), len, f))
  {
    ghost var mid := sink.Words();
    MuteTicks(sink, globalSac, f, len, patterns, n, mid);
    Arith.DivModOf(globalSac, len);
    ghost var base, d := Offset(globalSac, f, len, 0), Covered(n, old(sink.mutedFrames), len, f);
    Stays(sink, mid, was, v, base, d, len, p, patterns);
    NothingMuted(sink, sink.Words(), was, v, base, d, len, p, patterns);
    CoveredNone(n, old(sink.mutedFrames), len, f);
  }

  /** A late packet, then the ticks of the n frames. Of its audio exactly the words in the frames the mute
      counter has room for are overwritten; at the limit of the counter none is. */
  method LateAudioStays(sink: SinkStream, p: RxPacket, globalSac: U64, f: U32, len: nat, patterns: seq<Byte>, n: nat)
    returns (ghost v: Verdict)
    requires Fits(sink, p, f, len, patterns) && globalSac % f == 0 && Late(sink, p, globalSac, f, n)
    modifies sink`received, sink`mutedFrames, sink.rings
    ensures v == old(Judged(sink, p, globalSac)).1 && Offset(globalSac, f, len, 0) < len
    ensures Stayed(sink, sink.Words(), old(sink.Words()), v, Offset(globalSac, f, len, 0),
                   Covered(n, old(sink.mutedFrames), len, f), len, p, patterns)
    ensures old(sink.mutedFrames) >= Limit(len, f) ==> Overlaid(sink, sink.Words(), old(sink.Words()), v, len, p)
    ensures sink.mutedFrames == old(sink.mutedFrames) + Min(n, Room(old(sink.mutedFrames), len, f))
  {
    v := Arrive(sink, p, globalSac, f, len, patterns, n);
    Fade(sink, p, globalSac, f, len, patterns, n, old(sink.Words()), v);
  }

  /** Every word is the mute pattern of its channel. */
  ghost predicate AllMute(rings: seq<array<Word>>, words: seq<Ring>, len: nat, patterns: seq<Byte>)
    requires |patterns| == |rings| == |words| && Long(words, len)
  {
    forall c, j :: 0 <= c < |rings| && LastUse(rings, c) && 0 <= j < len ==> words[c][j] == MutedWord(patterns[c])
  }

  /** A whole ring of silent ticks on a sink that was not muted before. */
  method Silence(sink: SinkStream, globalSac: U64, f: U32, len: nat, patterns: seq<Byte>, n: nat)
    requires 0 < f && 0 < len && len % f == 0 && |patterns| == |sink.rings| && RoomToMute(sink, len)
    requires globalSac % f == 0 && sink.mutedFrames == 0 && n >= Limit(len, f) && Silent(sink, globalSac, f, n)
    modifies sink`mutedFrames, sink.rings
    ensures sink.mutedFrames == Limit(len, f) && AllMute(sink.rings, sink.Words(), len, patterns)
  {
    MuteTicks(sink, globalSac, f, len, patterns, n, sink.Words());
  }

  /** The words of the packet are in the rings and everything else is mute. */
  ghost predicate OnlyPacket(sink: SinkStream, v: Verdict, len: nat, p: RxPacket, patterns: seq<Byte>)
    reads sink.rings
    requires len > 0 && |patterns| == |sink.rings| && sink.WellFormed(p) && RoomToMute(sink, len)
  {
    forall c, j :: 0 <= c < |sink.rings| && LastUse(sink.rings, c) && 0 <= j < len ==>
      sink.rings[c][j] == sink.WordAfter(v, MutedWord(patterns[c]), j, len, p, c)
  }

  lemma CopyOverMute(sink: SinkStream, was: seq<Ring>, v: Verdict, len: nat, p: RxPacket, patterns: seq<Byte>)
    requires len > 0 && |patterns| == |sink.rings| == |was| && sink.WellFormed(p) && Long(was, len) && RoomToMute(sink, len)
    requires Overlaid(sink, sink.Words(), was, v, len, p) && AllMute(sink.rings, was, len, patterns)
    ensures OnlyPacket(sink, v, len, p, patterns)
  {
    forall c, j | 0 <= c < |sink.rings| && LastUse(sink.rings, c) && 0 <= j < len
      ensures sink.rings[c][j] == sink.WordAfter(v, MutedWord(patterns[c]), j, len, p, c)
    {
      assert was[c][j] == MutedWord(patterns[c]);
    }
  }

  /** A sink that has been silent for a whole ring and then gets a packet that is too late: the words of
      the packet stay in the rings over any number of muted ticks. */
  method LateAfterSilence(sink: SinkStream, p: RxPacket, globalSac: U64, later: U64, f: U32, len: nat, patterns: seq<Byte>,
                          n0: nat, n: nat)
    returns (ghost v: Verdict)
    requires Fits(sink, p, f, len, patterns) && globalSac % f == 0
    requires sink.mutedFrames == 0 && n0 >= Limit(len, f) && Silent(sink, globalSac, f, n0)
    requires later == CountAt(globalSac, f, n0) && Late(sink, p, later, f, n)
    modifies sink`received, sink`mutedFrames, sink.rings
    ensures v == old(Judged(sink, p, later)).1 && v.Copied?
    ensures sink.mutedFrames == Limit(len, f) && OnlyPacket(sink, v, len, p, patterns)
  {
    Silence(sink, globalSac, f, len, patterns, n0);
    Arith.ModAddMultiple(globalSac, n0, f);
    ghost var was := sink.Words();
    v := LateAudioStays(sink, p, later, f, len, patterns, n);
    CopyOverMute(sink, was, v, len, p, patterns);
  }
}
