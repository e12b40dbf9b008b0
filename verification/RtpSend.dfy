/** The send side of driver/RTP_audio_stream.c on the playback rings themselves. */
module RtpSend {
  import opened CInt
  import opened Timestamp
  import opened Convert
  import opened Rings
  import opened Packetise
  import Arith

  /** One source stream: what SendRTPAudioPackets reads, and the sequence number it keeps. */
  class SourceStream {
    const maxSamples: nat
    const tsOffset: U32
    const layout: Layout
    const big: bool
    var outgoingSeqNum: U16

    constructor (maxSamples: nat, tsOffset: U32, layout: Layout, big: bool)
      ensures this.maxSamples == maxSamples && this.tsOffset == tsOffset && this.layout == layout
      ensures this.big == big && outgoingSeqNum == 0
    {
      this.maxSamples, this.tsOffset, this.layout, this.big := maxSamples, tsOffset, layout, big;
      outgoingSeqNum := 0;
    }

    /** The ring set as this stream sends it, m samples to a packet. */
    ghost function On(rings: seq<Ring>, cap: nat, len: nat, m: nat): Source
      requires Uniform(rings, cap)
    {
      Source(Frames(rings, cap, layout, big), len, m, tsOffset)
    }

    ghost predicate Sees(s: Source, rings: seq<Ring>, cap: nat)
      requires Uniform(rings, cap)
    {
      ValidSource(s) && s.frames == Frames(rings, cap, layout, big) && s.tsOffset == tsOffset
    }

    /** SendRTPAudioPacket: two copies around the end of the ring into the packet buffer. */
    method SendPacket(ghost s: Source, rings: seq<Ring>, cap: nat, len: nat, sac: U64, off: nat, n: nat, seqNum: U16)
      returns (p: Packet)
      requires Uniform(rings, cap) && Sees(s, rings, cap) && s.len == len && off < len && n <= len
      ensures p == Packet(seqNum, OnWire(sac, s.tsOffset), Payload(s, off, n))
    {
      var len1 := Min(len - off, n);
      var payload := CopySegments(rings, cap, off, len1, n - len1);
      TwoSegments(s, off, n, len1);
      p := Packet(seqNum, OnWire(sac, tsOffset), payload);
    }

    method CopySegments(rings: seq<Ring>, cap: nat, off: nat, len1: nat, len2: nat) returns (payload: seq<Byte>)
      requires Uniform(rings, cap) && off + len1 <= cap && len2 <= cap
      ensures var f := Frames(rings, cap, layout, big);
              payload == Interleaved(f, off, len1) + Interleaved(f, 0, len2)
    {
      ghost var f := Frames(rings, cap, layout, big);
      FramesLength(rings, cap, layout, big);
      InterleavedLength(f, off, len1, |rings| * Width(layout));
      InterleavedLength(f, 0, len2, |rings| * Width(layout));
      Arith.MulDist(len1, len2, |rings| * Width(layout));
      var buffer := new Byte[(len1 + len2) * (|rings| * Width(layout))];
      var pos := Interleave(rings, cap, off, buffer, 0, len1, layout, big);
      assert buffer[..pos] == Interleaved(f, off, len1);
      pos := Interleave(rings, cap, 0, buffer, pos, len2, layout, big);
      assert buffer[..] == buffer[..pos];
      payload := buffer[..];
    }

    /** The packet at cursor c goes out when the link of this NIC is up. */
    method Emit(ghost s: Source, ghost c: Cursor, on: bool, sent: seq<Packet>, rings: seq<Ring>, cap: nat, len: nat,
                sac: U64, off: nat, n: nat, seqNum: U16)
      returns (sent': seq<Packet>)
      requires Uniform(rings, cap) && Sees(s, rings, cap) && s.len == len && ValidCursor(s, c) && c.remaining > 0
      requires c == Cursor(c.remaining, off, sac, seqNum) && n == Min(s.maxSamples, c.remaining)
      ensures on ==> sent' + Packets(s, Step(s, c)) == sent + Packets(s, c)
      ensures !on ==> sent' == sent
    {
      sent' := sent;
      if on {
        var p := SendPacket(s, rings, cap, len, sac, off, n, seqNum);
        sent' := sent + [p];
      }
    }
  }

  /** SendRTPAudioPackets for the stream on NIC 0 and, when present, the attached leg on NIC 1: the
      packets handed to each NIC. Each leg reads the rings of its own channel map. A NIC whose link is
      down gets none, and the sequence number advances all the same; both legs carry the sequence
      numbers and packet sizes of the first one. */
  method SendPackets(stream: SourceStream, leg: SourceStream?, rings: seq<Ring>, legRings: seq<Ring>, cap: nat, len: nat,
                     off: nat, total: nat, sac: U64, up: bool, legUp: bool)
    returns (sent: seq<Packet>, legSent: seq<Packet>)
    requires Uniform(rings, cap) && Uniform(legRings, cap) && 0 < len <= cap && off < len && total <= len
    requires stream.maxSamples > 0
    modifies stream`outgoingSeqNum
    ensures var c := Cursor(total, off, sac, old(stream.outgoingSeqNum));
            var s := stream.On(rings, cap, len, stream.maxSamples);
            var t := if leg != null then leg.On(legRings, cap, len, stream.maxSamples) else s;
            && stream.outgoingSeqNum == End(s, c).seqNum
            && sent == (if up then Packets(s, c) else [])
            && legSent == (if leg != null && legUp then Packets(t, c) else [])
    ensures up && legUp && leg != null && SameFormat(stream, leg) && SameWords(rings, legRings, cap, off, total, len)
            ==> sent == legSent
  {
    ghost var s := stream.On(rings, cap, len, stream.maxSamples);
    ghost var t := if leg != null then leg.On(legRings, cap, len, stream.maxSamples) else s;
    ghost var c := Cursor(total, off, sac, stream.outgoingSeqNum);
    sent, legSent := SendLoop(stream, leg, s, t, rings, legRings, cap, len, off, total, sac, up, legUp);
    if leg != null && SameFormat(stream, leg) && SameWords(rings, legRings, cap, off, total, len) {
      LegsIdentical(stream, leg, rings, legRings, cap, len, c);
    }
  }

  method SendLoop(stream: SourceStream, leg: SourceStream?, ghost s: Source, ghost t: Source,
                  rings: seq<Ring>, legRings: seq<Ring>, cap: nat, len: nat, off: nat, total: nat, sac: U64,
                  up: bool, legUp: bool)
    returns (sent: seq<Packet>, legSent: seq<Packet>)
    requires Uniform(rings, cap) && Uniform(legRings, cap)
    requires stream.Sees(s, rings, cap) && (leg != null ==> leg.Sees(t, legRings, cap))
    requires ValidSource(t) && s.len == t.len == len && s.maxSamples == t.maxSamples == stream.maxSamples
    requires off < len && total <= len
    modifies stream`outgoingSeqNum
    ensures var c := Cursor(total, off, sac, old(stream.outgoingSeqNum));
            && stream.outgoingSeqNum == End(s, c).seqNum
            && sent == (if up then Packets(s, c) else [])
            && legSent == (if leg != null && legUp then Packets(t, c) else [])
  {
    sent, legSent := [], [];
    var remaining: nat, currentSac: U64, offset: nat, seqNum: U16 := total, sac, off, stream.outgoingSeqNum;
    ghost var start := Cursor(total, off, sac, seqNum);
    ghost var c := start;
    while remaining > 0
      invariant c == Cursor(remaining, offset, currentSac, seqNum) && ValidCursor(s, c)
      invariant End(s, c) == End(s, start)
      invariant if up then sent + Packets(s, c) == Packets(s, start) else sent == []
      invariant if leg != null && legUp then legSent + Packets(t, c) == Packets(t, start) else legSent == []
    {
      var n := Min(stream.maxSamples, remaining);
      sent := stream.Emit(s, c, up, sent, rings, cap, len, currentSac, offset, n, seqNum);
      if leg != null {
        legSent := leg.Emit(t, c, legUp, legSent, legRings, cap, len, currentSac, offset, n, seqNum);
      }
      SameStep(s, t, c);
      remaining, offset, currentSac, seqNum := Advance(s, c, len, remaining, offset, currentSac, seqNum, n);
      c := Step(s, c);
    }
    stream.outgoingSeqNum := seqNum;
  }

  method Advance(ghost s: Source, ghost c: Cursor, len: nat, remaining: nat, offset: nat, sac: U64, seqNum: U16, n: nat)
    returns (remaining': nat, offset': nat, sac': U64, seqNum': U16)
    requires ValidSource(s) && s.len == len && c == Cursor(remaining, offset, sac, seqNum) && ValidCursor(s, c)
    requires n == Min(s.maxSamples, remaining)
    ensures Cursor(remaining', offset', sac', seqNum') == Step(s, c)
  {
    remaining' := remaining - n;
    sac' := W64(sac + n);
    seqNum' := W16(seqNum + 1);
    offset' := offset + n;
    if offset' >= len {
      offset' := offset' - len;
    }
  }

  lemma SameStep(s: Source, t: Source, c: Cursor)
    requires ValidSource(s) && ValidSource(t) && s.len == t.len && s.maxSamples == t.maxSamples && ValidCursor(s, c)
    ensures Step(s, c) == Step(t, c)
  {}

  // -- The two legs of an ST 2022-7 pair

  predicate SameFormat(stream: SourceStream, leg: SourceStream)
  {
    stream.layout == leg.layout && stream.big == leg.big && stream.tsOffset == leg.tsOffset
  }

  /** The channel maps of the legs show the same n samples from off on, around the ring. */
  predicate SameWords(a: seq<Ring>, b: seq<Ring>, cap: nat, off: nat, n: nat, len: nat)
    requires Uniform(a, cap) && Uniform(b, cap) && off < len <= cap && n <= len
  {
    |a| == |b| && forall ch, i :: 0 <= ch < |a| && 0 <= i < n ==> a[ch][Wrap(off, i, len)] == b[ch][Wrap(off, i, len)]
  }

  lemma {:induction false} SameBytes(a: seq<Ring>, b: seq<Ring>, cap: nat, i: nat, m: nat, l: Layout, big: bool)
    requires Uniform(a, cap) && Uniform(b, cap) && i < cap && m <= |a| == |b|
    requires forall ch :: 0 <= ch < m ==> a[ch][i] == b[ch][i]
    ensures FrameBytes(a, cap, i, m, l, big) == FrameBytes(b, cap, i, m, l, big)
    decreases m
  {
    if m > 0 { SameBytes(a, b, cap, i, m - 1, l, big); }
  }

  lemma SameFrameOn(a: seq<Ring>, b: seq<Ring>, cap: nat, i: nat, l: Layout, big: bool)
    requires Uniform(a, cap) && Uniform(b, cap) && i < cap && |a| == |b|
    requires forall ch :: 0 <= ch < |a| ==> a[ch][i] == b[ch][i]
    ensures Frames(a, cap, l, big)[i] == Frames(b, cap, l, big)[i]
  {
    FrameSeqAt(a, cap, cap, l, big, i);
    FrameSeqAt(b, cap, cap, l, big, i);
    SameBytes(a, b, cap, i, |a|, l, big);
  }

  /** The sources show the same n frames from off on. */
  predicate SameAhead(s: Source, t: Source, off: nat, n: nat)
    requires ValidSource(s) && ValidSource(t) && s.len == t.len && off < s.len && n <= s.len
  {
    forall i :: 0 <= i < n ==> s.frames[Wrap(off, i, s.len)] == t.frames[Wrap(off, i, s.len)]
  }

  lemma Further(s: Source, t: Source, off: nat, n: nat, d: nat)
    requires ValidSource(s) && ValidSource(t) && s.len == t.len && off < s.len && d <= n <= s.len
    requires SameAhead(s, t, off, n)
    ensures SameAhead(s, t, Wrap(off, d, s.len), n - d)
  {
    forall i | 0 <= i < n - d
      ensures s.frames[Wrap(Wrap(off, d, s.len), i, s.len)] == t.frames[Wrap(Wrap(off, d, s.len), i, s.len)]
    {
      assert Wrap(Wrap(off, d, s.len), i, s.len) == Wrap(off, d + i, s.len);
    }
  }

  lemma {:induction false} SamePayload(s: Source, t: Source, off: nat, n: nat, more: nat)
    requires ValidSource(s) && ValidSource(t) && s.len == t.len && off < s.len && n <= more <= s.len
    requires SameAhead(s, t, off, more)
    ensures Payload(s, off, n) == Payload(t, off, n)
    decreases n
  {
    if n > 0 {
      assert Wrap(off, 0, s.len) == off;
      Further(s, t, off, more, 1);
      SamePayload(s, t, Wrap(off, 1, s.len), n - 1, more - 1);
    }
  }

  lemma {:induction false} SamePackets(s: Source, t: Source, c: Cursor)
    requires ValidSource(s) && ValidSource(t) && s.len == t.len && s.maxSamples == t.maxSamples
    requires s.tsOffset == t.tsOffset && ValidCursor(s, c) && SameAhead(s, t, c.offset, c.remaining)
    ensures Packets(s, c) == Packets(t, c)
    decreases c.remaining
  {
    if c.remaining > 0 {
      var n := Min(s.maxSamples, c.remaining);
      SamePayload(s, t, c.offset, n, c.remaining);
      Further(s, t, c.offset, c.remaining, n);
      SameStep(s, t, c);
      SamePackets(s, t, Step(s, c));
    }
  }

  /** Legs of equal format and timestamp offset, whose channel maps show the same words of the frame,
      carry identical packets, whatever else their rings hold. */
  lemma LegsIdentical(stream: SourceStream, leg: SourceStream, rings: seq<Ring>, legRings: seq<Ring>, cap: nat, len: nat,
                      c: Cursor)
    requires Uniform(rings, cap) && Uniform(legRings, cap) && 0 < len <= cap && stream.maxSamples > 0
    requires c.offset < len && c.remaining <= len
    requires SameFormat(stream, leg) && SameWords(rings, legRings, cap, c.offset, c.remaining, len)
    ensures Packets(stream.On(rings, cap, len, stream.maxSamples), c)
            == Packets(leg.On(legRings, cap, len, stream.maxSamples), c)
  {
    var s, t := stream.On(rings, cap, len, stream.maxSamples), leg.On(legRings, cap, len, stream.maxSamples);
    forall i | 0 <= i < c.remaining ensures s.frames[Wrap(c.offset, i, len)] == t.frames[Wrap(c.offset, i, len)] {
      SameFrameOn(rings, legRings, cap, Wrap(c.offset, i, len), stream.layout, stream.big);
    }
    SamePackets(s, t, c);
  }
}
