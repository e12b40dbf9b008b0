/** Send and receive composed: what a sink stores of a packet that a source sent. */
module Transport {
  import opened CInt
  import opened Rings
  import opened Timestamp
  import opened Convert
  import opened Packetise
  import opened RtpReceive
  import opened AlsaRing
  import Arith

  /** A sender: its rings, the source they form, and how it lays samples out. */
  datatype Sender = Sender(rings: seq<Ring>, cap: nat, layout: Layout, big: bool, source: Source)

  predicate ValidSender(t: Sender)
  {
    && Uniform(t.rings, t.cap) && |t.rings| > 0 && IsWire(t.layout) && ValidSource(t.source)
    && t.source.frames == Frames(t.rings, t.cap, t.layout, t.big)
  }

  lemma SampleInPayload(t: Sender, off: nat, n: nat, i: nat, ch: nat)
    requires ValidSender(t) && off < t.source.len && i < n <= t.source.len && ch < |t.rings|
    ensures At(Payload(t.source, off, n), Slot(i, ch, |t.rings|, Width(t.layout)),
               Pack(t.layout, t.big, t.rings[ch][Wrap(off, i, t.source.len)]))
  {
    var here := Wrap(off, i, t.source.len);
    WrapIsMod(off, i, t.source.len);
    ModularSlice(t.source, off, n, i);
    SampleInFrame(t.rings, t.cap, t.layout, t.big, here, ch);
    AtTransitive(Payload(t.source, off, n), |Payload(t.source, off, i)|, t.source.frames[here],
                 |FrameBytes(t.rings, t.cap, here, ch, t.layout, t.big)|, Pack(t.layout, t.big, t.rings[ch][here]));
    FramesLength(t.rings, t.cap, t.layout, t.big);
    PayloadLength(t.source, off, i, |t.rings| * Width(t.layout));
    FrameLength(t.rings, t.cap, here, ch, t.layout, t.big);
  }

  /** The receiver counts exactly the frames that were sent. */
  lemma FrameCountRecovered(t: Sender, off: nat, n: nat)
    requires ValidSender(t) && off < t.source.len && n <= t.source.len
    ensures |t.rings| * Width(t.layout) > 0
    ensures |Payload(t.source, off, n)| == n * (|t.rings| * Width(t.layout))
    ensures FramesIn(|Payload(t.source, off, n)|, |t.rings| * Width(t.layout)) == n
  {
    var b := |t.rings| * Width(t.layout);
    Arith.MulAtLeast(|t.rings|, Width(t.layout));
    FramesLength(t.rings, t.cap, t.layout, t.big);
    PayloadLength(t.source, off, n, b);
    Arith.MultipleMod(n, b);
  }

  /** The word a sink reads for sample (i, ch) keeps the bytes the payload format has room for. */
  lemma SampleRecovered(t: Sender, off: nat, n: nat, i: nat, ch: nat, big: bool)
    requires ValidSender(t) && off < t.source.len && i < n <= t.source.len && ch < |t.rings|
    ensures Carries(Payload(t.source, off, n), n, |t.rings|, Width(t.layout))
    ensures MsbFirst(big, WireSample(Payload(t.source, off, n), i, n, ch, |t.rings|, t.layout, big))
            == Kept(t.layout, MsbFirst(t.big, t.rings[ch][Wrap(off, i, t.source.len)]))
  {
    FrameCountRecovered(t, off, n);
    SampleInPayload(t, off, n, i, ch);
    var w := t.rings[ch][Wrap(off, i, t.source.len)];
    AtSlice(Payload(t.source, off, n), Slot(i, ch, |t.rings|, Width(t.layout)), Pack(t.layout, t.big, w));
    PackUnpack(t.layout, t.big, big, w);
  }

  // -- A sent packet at the receiver

  /** A packet on the network, as a sink of the given format takes it in. */
  function Arrived(p: Packet, f: Format, ssrc: U32): RxPacket
  {
    RxPacket(2, false, f.payloadType, ssrc, p.seqNum, p.timestamp, 0, p.payload)
  }

  /** Packet k starts x samples into the frame and carries n of them. */
  predicate CutAt(s: Source, c: Cursor, k: nat, x: nat, n: nat)
    requires ValidSource(s) && ValidCursor(s, c)
  {
    k < |Packets(s, c)| && x == k * s.maxSamples && n == Min(s.maxSamples, c.remaining - x)
  }

  lemma CutPacket(s: Source, c: Cursor, k: nat, x: nat, n: nat, p: Packet)
    requires ValidSource(s) && ValidCursor(s, c) && CutAt(s, c, k, x, n) && p == Packets(s, c)[k]
    ensures 0 < n && x + n <= c.remaining && p.timestamp == W32(c.sac + x + s.tsOffset)
    ensures p.payload == Payload(s, Wrap(c.offset, x, s.len), n)
  {
    PacketIsAfter(s, c, k, x);
  }

  /** A sink counts the frames that were put into the packet. */
  lemma FramesRecovered(t: Sender, c: Cursor, k: nat, x: nat, n: nat, p: Packet)
    requires ValidSender(t) && ValidCursor(t.source, c) && CutAt(t.source, c, k, x, n) && p == Packets(t.source, c)[k]
    ensures |t.rings| * Width(t.layout) > 0 && FramesIn(|p.payload|, |t.rings| * Width(t.layout)) == n
  {
    CutPacket(t.source, c, k, x, n, p);
    FrameCountRecovered(t, Wrap(c.offset, x, t.source.len), n);
  }

  lemma StampOf(s: Source, c: Cursor, k: nat, x: nat, n: nat, sac: U64)
    requires ValidSource(s) && ValidCursor(s, c) && CutAt(s, c, k, x, n) && sac == c.sac + x
    ensures n > 0 && Packets(s, c)[k].timestamp == OnWire(sac, s.tsOffset)
  {
    CutPacket(s, c, k, x, n, Packets(s, c)[k]);
  }

  lemma SampleWord(t: Sender, c: Cursor, k: nat, x: nat, n: nat, p: Packet, i: nat, ch: nat, big: bool)
    requires ValidSender(t) && ValidCursor(t.source, c) && CutAt(t.source, c, k, x, n) && p == Packets(t.source, c)[k]
    requires i < n && ch < |t.rings|
    ensures Carries(p.payload, n, |t.rings|, Width(t.layout)) && x + i < c.remaining
    ensures MsbFirst(big, WireSample(p.payload, i, n, ch, |t.rings|, t.layout, big))
            == Kept(t.layout, MsbFirst(t.big, t.rings[ch][Wrap(c.offset, x + i, t.source.len)]))
  {
    CutPacket(t.source, c, k, x, n, p);
    var off := Wrap(c.offset, x, t.source.len);
    SampleRecovered(t, off, n, i, ch, big);
    assert Wrap(off, i, t.source.len) == Wrap(c.offset, x + i, t.source.len);
  }

  // -- From ALSA playback to ALSA capture

  /** The capture format with the layout of a playback format. */
  function CaptureOf(f: PcmFormat): Layout
  {
    match f case Pcm16 => S16LE case Pcm24in3 => S24in3LE case Pcm24in4 => S24in4LE case Pcm32 => S32LE
  }

  /** What a receiver of the given byte order captures of one playback sample. */
  function Captured(f: PcmFormat, l: Layout, big: bool, s: seq<Byte>): seq<Byte>
    requires IsWire(l) && |s| == Stride(f)
  {
    Pack(CaptureOf(f), big, Unpack(l, big, Pack(l, false, Widen(f, s))))
  }

  /** Sound bytes in a sample of the format. */
  function SampleBytes(f: PcmFormat): nat { match f case Pcm16 => 2 case Pcm32 => 4 case _ => 3 }

  /** A payload format carries every sample of a PCM format unchanged exactly when it has room for its
      bytes: L16 for 16 bits, L24 for 16 and 24 bits, AM824 for all. The padding byte of 24 bits in 4
      comes back as zero. */
  lemma BitExactIff(f: PcmFormat, l: Layout, big: bool)
    requires IsWire(l)
    ensures SampleBytes(f) <= Width(l) <==>
            forall s: seq<Byte> :: |s| == Stride(f) ==> Captured(f, l, big, s)[..SampleBytes(f)] == s[..SampleBytes(f)]
  {
    if SampleBytes(f) > Width(l) {
      var s := SampleLost(f, l, big);
      assert Captured(f, l, big, s)[..SampleBytes(f)] != s[..SampleBytes(f)];
    } else {
      forall s: seq<Byte> | |s| == Stride(f)
        ensures Captured(f, l, big, s)[..SampleBytes(f)] == s[..SampleBytes(f)]
      {
        SampleComesBack(f, l, big, s);
      }
    }
  }

  lemma SampleLost(f: PcmFormat, l: Layout, big: bool) returns (s: seq<Byte>)
    requires IsWire(l) && SampleBytes(f) > Width(l)
    ensures |s| == Stride(f) && Captured(f, l, big, s)[..SampleBytes(f)] != s[..SampleBytes(f)]
  {
    s := if f.Pcm24in3? then [1, 1, 1] else [1, 1, 1, 1];
    assert Captured(f, l, big, s)[0] == 0;
    assert Captured(f, l, big, s)[..SampleBytes(f)][0] == 0 && s[..SampleBytes(f)][0] == 1;
  }

  lemma SampleComesBack(f: PcmFormat, l: Layout, big: bool, s: seq<Byte>)
    requires IsWire(l) && |s| == Stride(f) && SampleBytes(f) <= Width(l)
    ensures Captured(f, l, big, s)[..SampleBytes(f)] == s[..SampleBytes(f)]
    ensures |Captured(f, l, big, s)| == |s| && (f.Pcm24in4? ==> Captured(f, l, big, s)[3] == 0)
  {}

  lemma SameBytesSameWord(big: bool, a: Word, b: Word)
    requires MsbFirst(big, a) == MsbFirst(big, b)
    ensures a == b
  {}

  /** A word that kept what the payload format carries of a played sample is captured as that sample. */
  lemma KeptIsCaptured(f: PcmFormat, l: Layout, big: bool, s: seq<Byte>, w: Word)
    requires IsWire(l) && |s| == Stride(f) && SampleBytes(f) <= Width(l)
    requires MsbFirst(big, w) == Kept(l, MsbFirst(false, Widen(f, s)))
    ensures Pack(CaptureOf(f), big, w)[..SampleBytes(f)] == s[..SampleBytes(f)]
  {
    SampleComesBack(f, l, big, s);
    PackUnpack(l, false, big, Widen(f, s));
    SameBytesSameWord(big, w, Unpack(l, big, Pack(l, false, Widen(f, s))));
  }
}
