/** Splitting one audio frame into RTP packets, as SendRTPAudioPackets of driver/RTP_audio_stream.c
    does. A ring set is seen here as the sequence of its interleaved frames. */
module Packetise {
  import opened CInt
  import opened Timestamp
  import opened Convert
  import opened Rings
  import Arith

  const RTP_MAX_PAYLOAD_SIZE: int := 1460

  datatype Packet = Packet(seqNum: U16, timestamp: U32, payload: seq<Byte>)

  /** The source ring as interleaved frames, its length in use, and the stream parameters. */
  datatype Source = Source(frames: seq<seq<Byte>>, len: nat, maxSamples: nat, tsOffset: U32)

  predicate ValidSource(s: Source) { 0 < s.len <= |s.frames| && s.maxSamples > 0 }

  /** The payload of n frames from ring position off on, wrapping at len. */
  function Payload(s: Source, off: nat, n: nat): seq<Byte>
    requires ValidSource(s) && off < s.len && n <= s.len
    decreases n
  {
    if n == 0 then [] else s.frames[off] + Payload(s, Wrap(off, 1, s.len), n - 1)
  }

  lemma {:induction false} PayloadConcat(s: Source, off: nat, a: nat, b: nat)
    requires ValidSource(s) && off < s.len && a + b <= s.len
    ensures Payload(s, off, a + b) == Payload(s, off, a) + Payload(s, Wrap(off, a, s.len), b)
    decreases a
  {
    if a == 0 {
      assert [] + Payload(s, off, b) == Payload(s, off, b);
    } else {
      var next := Wrap(off, 1, s.len);
      PayloadConcat(s, next, a - 1, b);
      assert Wrap(next, a - 1, s.len) == Wrap(off, a, s.len);
      Reassociate(s.frames[off], Payload(s, next, a - 1), Payload(s, Wrap(off, a, s.len), b));
    }
  }

  lemma AtHead(s: Source, off: nat, n: nat)
    requires ValidSource(s) && off < s.len && 0 < n <= s.len
    ensures At(Payload(s, off, n), 0, s.frames[off])
  {
    AtPrefix(s.frames[off], Payload(s, Wrap(off, 1, s.len), n - 1), 0, s.frames[off]);
  }

  lemma FrameInPayload(s: Source, off: nat, n: nat, i: nat)
    requires ValidSource(s) && off < s.len && i < n <= s.len
    ensures At(Payload(s, off, n), |Payload(s, off, i)|, s.frames[Wrap(off, i, s.len)])
  {
    var here := Wrap(off, i, s.len);
    PayloadConcat(s, off, i, n - i);
    AtHead(s, here, n - i);
    AtBehind(Payload(s, off, i), Payload(s, here, n - i), s.frames[here], Payload(s, off, n));
  }

  lemma AtBehind(a: seq<Byte>, b: seq<Byte>, c: seq<Byte>, whole: seq<Byte>)
    requires At(b, 0, c) && whole == a + b
    ensures At(whole, |a|, c)
  {
    AtSuffix(a, b, 0, c);
  }

  lemma PayloadGrows(s: Source, off: nat, i: nat)
    requires ValidSource(s) && off < s.len && i < s.len
    ensures |Payload(s, off, i + 1)| == |Payload(s, off, i)| + |s.frames[Wrap(off, i, s.len)]|
  {
    PayloadConcat(s, off, i, 1);
  }

  /** The payload is the modular slice of the ring: frame i of it is ring frame (off + i) mod len, and
      nothing follows the last one. */
  lemma ModularSlice(s: Source, off: nat, n: nat, i: nat)
    requires ValidSource(s) && off < s.len && i < n <= s.len
    ensures 0 <= (off + i) % s.len < s.len
    ensures At(Payload(s, off, n), |Payload(s, off, i)|, s.frames[(off + i) % s.len])
    ensures |Payload(s, off, i + 1)| == |Payload(s, off, i)| + |s.frames[(off + i) % s.len]|
  {
    WrapIsMod(off, i, s.len);
    FrameInPayload(s, off, n, i);
    PayloadGrows(s, off, i);
  }

  /** Before the end of the ring the payload is a plain run of frames. */
  lemma {:induction false} BeforeTheEnd(s: Source, off: nat, n: nat)
    requires ValidSource(s) && off < s.len && off + n <= s.len
    ensures Interleaved(s.frames, off, n) == Payload(s, off, n)
    decreases n
  {
    if n > 0 {
      BeforeTheEnd(s, off, n - 1);
      PayloadConcat(s, off, n - 1, 1);
      assert Payload(s, off + n - 1, 1) == s.frames[off + n - 1] + [];
    }
  }

  /** Around the end it is the two segments the driver copies. */
  lemma TwoSegments(s: Source, off: nat, n: nat, len1: nat)
    requires ValidSource(s) && off < s.len && n <= s.len && len1 == Min(s.len - off, n)
    ensures Interleaved(s.frames, off, len1) + Interleaved(s.frames, 0, n - len1) == Payload(s, off, n)
  {
    if len1 == n {
      BeforeTheEnd(s, off, n);
      EmptyTail(Interleaved(s.frames, off, n), Interleaved(s.frames, 0, 0));
    } else {
      AcrossTheEnd(s, off, len1, n - len1);
    }
  }

  lemma EmptyTail(a: seq<Byte>, b: seq<Byte>)
    requires b == []
    ensures a + b == a
  {}

  lemma AcrossTheEnd(s: Source, off: nat, a: nat, b: nat)
    requires ValidSource(s) && off < s.len && off + a == s.len && a + b <= s.len
    ensures Interleaved(s.frames, off, a) + Interleaved(s.frames, 0, b) == Payload(s, off, a + b)
  {
    BeforeTheEnd(s, off, a);
    BeforeTheEnd(s, 0, b);
    PayloadConcat(s, off, a, b);
  }

  // -- The packets of a frame

  /** Where the send loop stands: samples left, ring offset, 64-bit count, sequence number. */
  datatype Cursor = Cursor(remaining: nat, offset: nat, sac: U64, seqNum: U16)

  predicate ValidCursor(s: Source, c: Cursor) { c.offset < s.len && c.remaining <= s.len }

  function Step(s: Source, c: Cursor): (c': Cursor)
    requires ValidSource(s) && ValidCursor(s, c)
    ensures ValidCursor(s, c') && (c.remaining > 0 ==> c'.remaining < c.remaining)
  {
    var n := Min(s.maxSamples, c.remaining);
    Cursor(c.remaining - n, Wrap(c.offset, n, s.len), W64(c.sac + n), W16(c.seqNum + 1))
  }

  function PacketOf(s: Source, c: Cursor): Packet
    requires ValidSource(s) && ValidCursor(s, c)
  {
    Packet(c.seqNum, OnWire(c.sac, s.tsOffset), Payload(s, c.offset, Min(s.maxSamples, c.remaining)))
  }

  /** The packets the loop still sends from c on. */
  function Packets(s: Source, c: Cursor): seq<Packet>
    requires ValidSource(s) && ValidCursor(s, c)
    decreases c.remaining
  {
    if c.remaining == 0 then [] else [PacketOf(s, c)] + Packets(s, Step(s, c))
  }

  /** Where the loop stands when the frame is sent. */
  function End(s: Source, c: Cursor): Cursor
    requires ValidSource(s) && ValidCursor(s, c)
    decreases c.remaining
  {
    if c.remaining == 0 then c else End(s, Step(s, c))
  }

  /** The next frame starts with the sequence number after the last packet, whether or not the
      packets could be handed to the NIC. */
  lemma {:induction false} EndSeqNum(s: Source, c: Cursor)
    requires ValidSource(s) && ValidCursor(s, c)
    ensures End(s, c).seqNum == W16(c.seqNum + |Packets(s, c)|)
    decreases c.remaining
  {
    if c.remaining > 0 {
      EndSeqNum(s, Step(s, c));
      OneMore(s, c);
      SeqAdds(c.seqNum, |Packets(s, Step(s, c))|);
    }
  }

  lemma OneMore(s: Source, c: Cursor)
    requires ValidSource(s) && ValidCursor(s, c) && c.remaining > 0
    ensures |Packets(s, c)| == |Packets(s, Step(s, c))| + 1
  {}

  /** Packets in a frame of the given length. */
  function PacketsIn(maxSamples: nat, remaining: nat): nat
    decreases remaining
  {
    if remaining == 0 || maxSamples == 0 then 0 else 1 + PacketsIn(maxSamples, remaining - Min(maxSamples, remaining))
  }

  /** The sequence number that follows a frame. */
  function NumberAfter(maxSamples: nat, remaining: nat, seqNum: U16): U16 { W16(seqNum + PacketsIn(maxSamples, remaining)) }

  lemma {:induction false} PacketsInFrame(s: Source, c: Cursor)
    requires ValidSource(s) && ValidCursor(s, c)
    ensures |Packets(s, c)| == PacketsIn(s.maxSamples, c.remaining)
    decreases c.remaining
  {
    if c.remaining > 0 {
      PacketsInFrame(s, Step(s, c));
      OneMore(s, c);
    }
  }

  lemma {:induction false} EndNumber(s: Source, c: Cursor)
    requires ValidSource(s) && ValidCursor(s, c)
    ensures End(s, c).seqNum == NumberAfter(s.maxSamples, c.remaining, c.seqNum)
    decreases c.remaining
  {
    if c.remaining > 0 {
      EndNumber(s, Step(s, c));
      SeqAdds(c.seqNum, PacketsIn(s.maxSamples, Step(s, c).remaining));
    }
  }

  lemma {:induction false} NumberOf(s: Source, c: Cursor, k: nat)
    requires ValidSource(s) && ValidCursor(s, c) && k < |Packets(s, c)|
    ensures Packets(s, c)[k].seqNum == W16(c.seqNum + k)
    decreases k
  {
    if k == 0 {
      FirstOfPackets(s, c);
      SmallSeq(c.seqNum);
    } else {
      PacketTail(s, c, k);
      NumberOf(s, Step(s, c), k - 1);
      NumberFromTail(s, c, k, Packets(s, c)[k].seqNum);
    }
  }

  lemma NumberFromTail(s: Source, c: Cursor, k: nat, num: U16)
    requires ValidSource(s) && ValidCursor(s, c) && k > 0 && s.maxSamples < c.remaining
    requires num == W16(Step(s, c).seqNum + (k - 1))
    ensures num == W16(c.seqNum + k)
  {
    StepFields(s, c);
    SeqAdds(c.seqNum, k - 1);
  }

  function Payloads(ps: seq<Packet>): seq<Byte>
  {
    if ps == [] then [] else ps[0].payload + Payloads(ps[1..])
  }

  lemma PayloadsCons(p: Packet, ps: seq<Packet>)
    ensures Payloads([p] + ps) == p.payload + Payloads(ps)
  {
    assert ([p] + ps)[1..] == ps;
  }

  /** Conservation: the payloads of a frame, one after the other, are the modular ring slice of that
      frame, as ModularSlice spells it out. */
  lemma {:induction false} PayloadsAreTheFrame(s: Source, c: Cursor)
    requires ValidSource(s) && ValidCursor(s, c)
    ensures Payloads(Packets(s, c)) == Payload(s, c.offset, c.remaining)
    decreases c.remaining
  {
    if c.remaining > 0 {
      PayloadsAreTheFrame(s, Step(s, c));
      PayloadsCons(PacketOf(s, c), Packets(s, Step(s, c)));
      var n := Min(s.maxSamples, c.remaining);
      PayloadConcat(s, c.offset, n, c.remaining - n);
    }
  }

  /** Packet k, x = k * maxSamples samples into the frame, with the ring position stepped. */
  function PacketAfter(s: Source, c: Cursor, k: nat, x: nat): Packet
    requires ValidSource(s) && ValidCursor(s, c) && x < c.remaining
  {
    Packet(W16(c.seqNum + k), W32(c.sac + x + s.tsOffset),
           Payload(s, Wrap(c.offset, x, s.len), Min(s.maxSamples, c.remaining - x)))
  }

  lemma {:induction false} PacketIsAfter(s: Source, c: Cursor, k: nat, x: nat)
    requires ValidSource(s) && ValidCursor(s, c) && k < |Packets(s, c)| && x == k * s.maxSamples
    ensures x < c.remaining && Packets(s, c)[k] == PacketAfter(s, c, k, x)
    decreases k
  {
    if k == 0 {
      assert x == 0;
      FirstPacket(s, c);
    } else {
      PacketLess(s, k, x);
      PacketTail(s, c, k);
      PacketIsAfter(s, Step(s, c), k - 1, x - s.maxSamples);
      PacketFromTail(s, c, k, x);
    }
  }

  lemma PacketFromTail(s: Source, c: Cursor, k: nat, x: nat)
    requires ValidSource(s) && ValidCursor(s, c) && 0 < k < |Packets(s, c)| && s.maxSamples <= x
    requires s.maxSamples < c.remaining && k - 1 < |Packets(s, Step(s, c))| && x - s.maxSamples < Step(s, c).remaining
    requires Packets(s, Step(s, c))[k - 1] == PacketAfter(s, Step(s, c), k - 1, x - s.maxSamples)
    ensures x < c.remaining && Packets(s, c)[k] == PacketAfter(s, c, k, x)
  {
    PacketTail(s, c, k);
    StepFields(s, c);
    PacketShift(s, c, k, x);
  }

  lemma PacketLess(s: Source, k: nat, x: nat)
    requires k > 0 && x == k * s.maxSamples
    ensures x - s.maxSamples == (k - 1) * s.maxSamples && x - s.maxSamples >= 0
  {
    Arith.MulDist(k - 1, 1, s.maxSamples);
    Arith.MulNonNeg(k - 1, s.maxSamples);
  }

  /** Packet k in closed form: sequence numbers step by one modulo 2^16, the timestamps tile the frame,
      and the payload is the modular slice k * maxSamples samples into it. */
  lemma PacketAt(s: Source, c: Cursor, k: nat, x: nat)
    requires ValidSource(s) && ValidCursor(s, c) && k < |Packets(s, c)| && x == k * s.maxSamples
    ensures x < c.remaining && 0 <= (c.offset + x) % s.len < s.len
    ensures Packets(s, c)[k] == Packet(W16(c.seqNum + k), W32(c.sac + x + s.tsOffset),
                                       Payload(s, (c.offset + x) % s.len, Min(s.maxSamples, c.remaining - x)))
  {
    PacketIsAfter(s, c, k, x);
    WrapIsMod(c.offset, x, s.len);
  }

  lemma FirstPacket(s: Source, c: Cursor)
    requires ValidSource(s) && ValidCursor(s, c) && |Packets(s, c)| > 0
    ensures c.remaining > 0 && Packets(s, c)[0] == PacketAfter(s, c, 0, 0)
  {
    FirstOfPackets(s, c);
    AtStart(s, c);
  }

  lemma FirstOfPackets(s: Source, c: Cursor)
    requires ValidSource(s) && ValidCursor(s, c) && |Packets(s, c)| > 0
    ensures c.remaining > 0 && Packets(s, c)[0] == PacketOf(s, c)
  {}

  lemma AtStart(s: Source, c: Cursor)
    requires ValidSource(s) && ValidCursor(s, c) && c.remaining > 0
    ensures PacketAfter(s, c, 0, 0) == PacketOf(s, c)
  {
    assert Wrap(c.offset, 0, s.len) == c.offset;
    SmallSeq(c.seqNum);
  }

  lemma SmallSeq(a: U16)
    ensures W16(a + 0) == a
  {}

  lemma PacketTail(s: Source, c: Cursor, k: nat)
    requires ValidSource(s) && ValidCursor(s, c) && 0 < k < |Packets(s, c)|
    ensures s.maxSamples < c.remaining
    ensures k - 1 < |Packets(s, Step(s, c))| && Packets(s, c)[k] == Packets(s, Step(s, c))[k - 1]
  {}

  /** Counting from the second packet is counting from the first. */
  lemma PacketShift(s: Source, c: Cursor, k: nat, x: nat)
    requires ValidSource(s) && ValidCursor(s, c) && k > 0 && s.maxSamples <= x < c.remaining
    ensures PacketAfter(s, Step(s, c), k - 1, x - s.maxSamples) == PacketAfter(s, c, k, x)
  {
    StepFields(s, c);
    WrapTwice(c.offset, s.maxSamples, x, s.len);
    SeqAdds(c.seqNum, k - 1);
    TimestampTiles(c.sac, s.maxSamples, x - s.maxSamples + s.tsOffset);
  }

  lemma StepFields(s: Source, c: Cursor)
    requires ValidSource(s) && ValidCursor(s, c) && s.maxSamples < c.remaining
    ensures Step(s, c) == Cursor(c.remaining - s.maxSamples, Wrap(c.offset, s.maxSamples, s.len),
                                 W64(c.sac + s.maxSamples), W16(c.seqNum + 1))
  {}

  lemma WrapTwice(off: nat, m: nat, x: nat, len: nat)
    requires off < len && m <= x <= len
    ensures Wrap(Wrap(off, m, len), x - m, len) == Wrap(off, x, len)
  {}

  lemma SeqAdds(a: U16, b: nat)
    ensures W16(W16(a + 1) + b) == W16(a + (b + 1))
  {}

  lemma TimestampTiles(sac: U64, m: nat, y: nat)
    ensures W32(W64(sac + m) + y) == W32(sac + m + y)
  {
    var q := (sac + m) / TWO64;
    assert W64(sac + m) == sac + m - q * TWO64;
    assert sac + m + y == W64(sac + m) + y + q * TWO32 * TWO32;
    Arith.ModAddMultiple(W64(sac + m) + y, q * TWO32, TWO32);
  }

  /** The loop stops after the frame size divided by the packet size, rounded up. */
  lemma {:induction false} PacketCount(s: Source, c: Cursor)
    requires ValidSource(s) && ValidCursor(s, c)
    ensures c.remaining <= |Packets(s, c)| * s.maxSamples < c.remaining + s.maxSamples
    decreases c.remaining
  {
    if c.remaining > 0 {
      PacketCount(s, Step(s, c));
      Arith.MulDist(|Packets(s, Step(s, c))|, 1, s.maxSamples);
      if s.maxSamples >= c.remaining {
        assert |Packets(s, Step(s, c))| == 0;
      }
    }
  }

  /** Every packet carries at least one sample. */
  lemma {:induction false} AtMostOnePerSample(s: Source, c: Cursor)
    requires ValidSource(s) && ValidCursor(s, c)
    ensures |Packets(s, c)| <= c.remaining
    decreases c.remaining
  {
    if c.remaining > 0 {
      AtMostOnePerSample(s, Step(s, c));
      OneMore(s, c);
    }
  }

  // -- Size limits

  /** The size test of is_valid, with its 32-bit products. */
  predicate SizeAccepted(maxSamples: U32, channels: Byte, wordLength: Byte)
  {
    maxSamples != 0 && W32(W32(maxSamples * channels) * wordLength) <= RTP_MAX_PAYLOAD_SIZE
  }

  lemma {:induction false} PayloadLength(s: Source, off: nat, n: nat, b: nat)
    requires ValidSource(s) && off < s.len && n <= s.len && FramesAre(s.frames, b)
    ensures |Payload(s, off, n)| == n * b
    decreases n
  {
    if n > 0 {
      PayloadLength(s, Wrap(off, 1, s.len), n - 1, b);
      Arith.MulDist(n - 1, 1, b);
    }
  }

  /** Every payload of a frame is within the limit. */
  ghost predicate AllFit(s: Source, c: Cursor)
    requires ValidSource(s) && ValidCursor(s, c)
  {
    forall k :: 0 <= k < |Packets(s, c)| ==> |Packets(s, c)[k].payload| <= RTP_MAX_PAYLOAD_SIZE
  }

  lemma PacketSize(s: Source, c: Cursor, b: nat, k: nat, x: nat)
    requires ValidSource(s) && ValidCursor(s, c) && FramesAre(s.frames, b) && k < |Packets(s, c)| && x == k * s.maxSamples
    ensures x < c.remaining && |Packets(s, c)[k].payload| == Min(s.maxSamples, c.remaining - x) * b
  {
    PacketIsAfter(s, c, k, x);
    SizeAfter(s, c, b, k, x);
  }

  lemma SizeAfter(s: Source, c: Cursor, b: nat, k: nat, x: nat)
    requires ValidSource(s) && ValidCursor(s, c) && FramesAre(s.frames, b) && x < c.remaining
    ensures |PacketAfter(s, c, k, x).payload| == Min(s.maxSamples, c.remaining - x) * b
  {
    PayloadLength(s, Wrap(c.offset, x, s.len), Min(s.maxSamples, c.remaining - x), b);
  }

  /** The packets of a frame, b bytes to a sample of all channels, fit if and only if the first one does:
      the packet size cut to the frame size. */
  lemma AllFitIff(s: Source, c: Cursor, b: nat)
    requires ValidSource(s) && ValidCursor(s, c) && FramesAre(s.frames, b) && c.remaining > 0
    ensures AllFit(s, c) <==> Min(s.maxSamples, c.remaining) * b <= RTP_MAX_PAYLOAD_SIZE
  {
    assert 0 * s.maxSamples == 0;
    OneMore(s, c);
    PacketSize(s, c, b, 0, 0);
    if Min(s.maxSamples, c.remaining) * b <= RTP_MAX_PAYLOAD_SIZE {
      forall k | 0 <= k < |Packets(s, c)| ensures |Packets(s, c)[k].payload| <= RTP_MAX_PAYLOAD_SIZE {
        Arith.MulNonNeg(k, s.maxSamples);
        PacketSize(s, c, b, k, k * s.maxSamples);
        Arith.MulMono(Min(s.maxSamples, c.remaining - k * s.maxSamples), Min(s.maxSamples, c.remaining), b);
      }
    }
  }

  /** What the test is worth: the packets of an accepted source fit if its size product did not wrap, and
      with a wrapped product if and only if the frame itself is short enough. */
  lemma AcceptedSourceFits(s: Source, c: Cursor, channels: Byte, wordLength: Byte, b: nat)
    requires ValidSource(s) && ValidCursor(s, c) && FramesAre(s.frames, b) && c.remaining > 0
    requires s.maxSamples < TWO32 && SizeAccepted(s.maxSamples, channels, wordLength) && b == channels * wordLength
    ensures AllFit(s, c) <==> s.maxSamples * b < TWO32 || Min(s.maxSamples, c.remaining) * b <= RTP_MAX_PAYLOAD_SIZE
  {
    AllFitIff(s, c, b);
    Arith.MulAssoc(s.maxSamples, channels, wordLength);
    AcceptedSizeFits(s.maxSamples, channels, wordLength);
    Arith.MulMono(Min(s.maxSamples, c.remaining), s.maxSamples, b);
  }

  /** An accepted size product is within the limit exactly when it did not wrap. */
  lemma AcceptedSizeFits(maxSamples: U32, channels: Byte, wordLength: Byte)
    requires SizeAccepted(maxSamples, channels, wordLength)
    ensures maxSamples * channels * wordLength <= RTP_MAX_PAYLOAD_SIZE
            <==> maxSamples * channels * wordLength < TWO32
  {
    var p, q := maxSamples * channels, maxSamples * channels * wordLength;
    Arith.MulNonNeg(maxSamples, channels);
    Arith.MulNonNeg(p, wordLength);
    if q < TWO32 {
      if wordLength == 0 {
        assert q == 0;
      } else {
        Arith.MulMono(1, wordLength, p);
        assert p <= q;
        assert W32(p) == p;
      }
    }
  }

  lemma WrappedProduct()
    ensures SizeAccepted(0x0100_0000, 64, 4)
  {}

  /** The wrap is reachable: this source, 64 channels of 4 bytes, is accepted, and its first packet exceeds
      the limit in every frame of six samples or more. */
  lemma AcceptedSizeCanWrap(s: Source, c: Cursor)
    requires ValidSource(s) && ValidCursor(s, c) && FramesAre(s.frames, 256) && c.remaining >= 6
    requires s.maxSamples == 0x0100_0000
    ensures SizeAccepted(s.maxSamples, 64, 4) && !AllFit(s, c)
  {
    WrappedProduct();
    AllFitIff(s, c, 256);
    Arith.MulMono(6, Min(s.maxSamples, c.remaining), 256);
  }
}
