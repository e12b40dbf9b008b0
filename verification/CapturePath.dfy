/** From ALSA playback at one end to ALSA capture at the other: ticks of the sender, the packets of one
    tick at a sink, and the capture loop of the receiver. */
module CapturePath {
  import opened CInt
  import opened Rings
  import opened Timestamp
  import opened Convert
  import opened Packetise
  import opened RtpSend
  import opened RtpReceive
  import opened AlsaRing
  import opened DelayLine
  import opened Transport
  import opened AudioTick
  import opened EndToEnd
  import Arith

  /** The sender's rings are the routed playback rings of a little-endian host, and hold at the cursor the
      frame the ALSA buffer delivered as src. */
  ghost predicate SendsPlayed(t: Sender, c: Cursor, g: Geometry, played: seq<Ring>, routing: seq<nat>, src: seq<Byte>)
  {
    && ValidSender(t) && ValidCursor(t.source, c) && ValidGeometry(g) && Routes(routing, |played|)
    && t.rings == Routed(played, routing) && !t.big && t.source.len == g.len
    && c.remaining == g.frame && c.offset + g.frame <= g.len && Holds(g, played, c.offset, src)
  }

  /** A sent sample is the played one with its low bytes cleared. */
  lemma SentIsPlayed(t: Sender, c: Cursor, g: Geometry, played: seq<Ring>, routing: seq<nat>, src: seq<Byte>, u: nat, y: nat)
    requires SendsPlayed(t, c, g, played, routing, src) && u < |routing| && y < g.frame
    ensures SentSample(t, c, u, y)
            == Kept(t.layout, MsbFirst(false, Played(src, y, g.frame, routing[u], |played|, g.format)))
  {
    assert Wrap(c.offset, y, g.len) == c.offset + y;
    assert played[routing[u]][c.offset + y] == Played(src, y, g.frame, routing[u], |played|, g.format);
  }

  /** The rings of the receiver hold the frame from place b0 on, and off..off+n is a stretch of it, y0
      samples in, that does not cross the end of the ring. */
  ghost predicate Captures(t: Sender, c: Cursor, now: seq<Ring>, cap: nat, b0: nat, len: nat, big: bool, off: nat, n: nat,
                           y0: nat)
    requires ValidSender(t) && ValidCursor(t.source, c) && c.remaining <= len
  {
    && Roomy(now, |t.rings|, len) && Uniform(now, cap) && b0 < len && y0 + n <= c.remaining
    && off == Wrap(b0, y0, len) && off + n <= len <= cap
    && Stored(t, c, now, b0, len, big, 0, c.remaining)
  }

  lemma CapturedWord(t: Sender, c: Cursor, now: seq<Ring>, cap: nat, b0: nat, len: nat, big: bool, off: nat, n: nat,
                     y0: nat, u: nat, i: nat)
    requires ValidSender(t) && ValidCursor(t.source, c) && c.remaining <= len
    requires Captures(t, c, now, cap, b0, len, big, off, n, y0) && u < |now| && i < n
    ensures MsbFirst(big, now[u][off + i]) == SentSample(t, c, u, y0 + i)
  {
    assert Wrap(b0, y0 + i, len) == off + i;
  }

  lemma CapturedSample(t: Sender, c: Cursor, g: Geometry, played: seq<Ring>, routing: seq<nat>, src: seq<Byte>, u: nat,
                       y: nat, big: bool, w: Word, q: int)
    requires SendsPlayed(t, c, g, played, routing, src) && SampleBytes(g.format) <= Width(t.layout)
    requires u < |routing| && y < g.frame && MsbFirst(big, w) == SentSample(t, c, u, y)
    requires q == Slot(y, routing[u], |played|, Stride(g.format))
    ensures 0 <= q && q + Stride(g.format) <= |src|
    ensures Pack(CaptureOf(g.format), big, w)[..SampleBytes(g.format)] == src[q..q + SampleBytes(g.format)]
  {
    SentIsPlayed(t, c, g, played, routing, src, u, y);
    SlotInside(src, y, g.frame, routing[u], |played|, Stride(g.format));
    var s := src[q..q + Stride(g.format)];
    KeptIsCaptured(g.format, t.layout, big, s, w);
    assert s[..SampleBytes(g.format)] == src[q..q + SampleBytes(g.format)];
  }

  /** The k bytes of a at p are the k bytes of b at q. */
  predicate SameSample(a: seq<Byte>, p: int, b: seq<Byte>, q: int, k: nat)
  {
    0 <= p && p + k <= |a| && 0 <= q && q + k <= |b| && a[p..p + k] == b[q..q + k]
  }

  lemma SliceAgrees(a: seq<Byte>, p: int, x: seq<Byte>, b: seq<Byte>, q: int, k: nat)
    requires At(a, p, x) && 0 <= q && q + k <= |b| && k <= |x| && x[..k] == b[q..q + k]
    ensures SameSample(a, p, b, q, k)
  {
    AtSlice(a, p, x);
    assert a[p..p + |x|][..k] == a[p..p + k];
  }

  /** The rings of the sink are capture channels: its channel u is capture channel map[u]. */
  predicate Mapped(now: seq<Ring>, all: seq<Ring>, map_: seq<nat>)
  {
    |map_| == |now| && forall u :: 0 <= u < |now| ==> map_[u] < |all| && all[map_[u]] == now[u]
  }

  /** What an application played as sample (y0 + i, routing[u]) is found, byte for byte, as sample
      (i, map[u]) of the captured stretch. */
  lemma PlayedIsCaptured(t: Sender, c: Cursor, g: Geometry, played: seq<Ring>, routing: seq<nat>, src: seq<Byte>,
                         now: seq<Ring>, all: seq<Ring>, map_: seq<nat>, cap: nat, b0: nat, len: nat, big: bool, off: nat,
                         n: nat, y0: nat, u: nat, i: nat, out: seq<Byte>, p: int, q: int)
    requires SendsPlayed(t, c, g, played, routing, src) && SampleBytes(g.format) <= Width(t.layout) && c.remaining <= len
    requires Captures(t, c, now, cap, b0, len, big, off, n, y0) && u < |routing| && i < n
    requires Mapped(now, all, map_) && Uniform(all, cap)
    requires out == Interleaved(Frames(all, cap, CaptureOf(g.format), big), off, n)
    requires p == Slot(i, map_[u], |all|, Stride(g.format)) && q == Slot(y0 + i, routing[u], |played|, Stride(g.format))
    ensures SameSample(out, p, src, q, SampleBytes(g.format))
  {
    WordIsPlayed(t, c, g, played, routing, src, now, cap, b0, len, big, off, n, y0, u, i, q);
    WordIsOut(all, cap, off, n, g.format, big, i, map_[u], out, p, now[u][off + i], src, q);
  }

  lemma WordIsPlayed(t: Sender, c: Cursor, g: Geometry, played: seq<Ring>, routing: seq<nat>, src: seq<Byte>,
                     now: seq<Ring>, cap: nat, b0: nat, len: nat, big: bool, off: nat, n: nat, y0: nat, u: nat, i: nat, q: int)
    requires SendsPlayed(t, c, g, played, routing, src) && SampleBytes(g.format) <= Width(t.layout) && c.remaining <= len
    requires Captures(t, c, now, cap, b0, len, big, off, n, y0) && u < |routing| && i < n
    requires q == Slot(y0 + i, routing[u], |played|, Stride(g.format))
    ensures 0 <= q && q + SampleBytes(g.format) <= |src|
    ensures Pack(CaptureOf(g.format), big, now[u][off + i])[..SampleBytes(g.format)] == src[q..q + SampleBytes(g.format)]
  {
    CapturedWord(t, c, now, cap, b0, len, big, off, n, y0, u, i);
    CapturedSample(t, c, g, played, routing, src, u, y0 + i, big, now[u][off + i], q);
  }

  lemma WordIsOut(all: seq<Ring>, cap: nat, off: nat, n: nat, f: PcmFormat, big: bool, i: nat, ch: nat, out: seq<Byte>, p: int,
                  w: Word, src: seq<Byte>, q: int)
    requires Uniform(all, cap) && off + n <= cap && i < n && ch < |all| && w == all[ch][off + i]
    requires out == Interleaved(Frames(all, cap, CaptureOf(f), big), off, n) && p == Slot(i, ch, |all|, Stride(f))
    requires 0 <= q && q + SampleBytes(f) <= |src|
    requires Pack(CaptureOf(f), big, w)[..SampleBytes(f)] == src[q..q + SampleBytes(f)]
    ensures SameSample(out, p, src, q, SampleBytes(f))
  {
    CapturedAt(all, cap, off, n, f, big, i, ch, out, p, w);
    SliceAgrees(out, p, Pack(CaptureOf(f), big, w), src, q, SampleBytes(f));
  }

  lemma CapturedAt(all: seq<Ring>, cap: nat, off: nat, n: nat, f: PcmFormat, big: bool, i: nat, ch: nat, out: seq<Byte>, p: int,
                   w: Word)
    requires Uniform(all, cap) && off + n <= cap && i < n && ch < |all| && w == all[ch][off + i]
    requires out == Interleaved(Frames(all, cap, CaptureOf(f), big), off, n) && p == Slot(i, ch, |all|, Stride(f))
    ensures At(out, p, Pack(CaptureOf(f), big, w))
  {
    InterleavedAt(all, cap, off, n, CaptureOf(f), big, i, ch);
  }

  /** Every sample of the routed channels is captured as it was played. */
  ghost predicate CapturedFrame(out: seq<Byte>, g: Geometry, routing: seq<nat>, m: nat, map_: seq<nat>, channels: nat,
                                src: seq<Byte>, n: nat, y0: nat)
    requires Routes(routing, m) && Routes(map_, channels) && |map_| == |routing|
  {
    forall u, i :: 0 <= u < |routing| && 0 <= i < n ==>
      SameSample(out, Slot(i, map_[u], channels, Stride(g.format)), src, Slot(y0 + i, routing[u], m, Stride(g.format)),
                 SampleBytes(g.format))
  }

  lemma CaptureRoom(all: seq<Ring>, cap: nat, off: nat, n: nat, l: Layout, big: bool)
    requires Uniform(all, cap) && off + n <= cap
    ensures |Interleaved(Frames(all, cap, l, big), off, n)| == n * (|all| * Width(l))
  {
    FramesLength(all, cap, l, big);
    InterleavedLength(Frames(all, cap, l, big), off, n, |all| * Width(l));
  }

  /** The capture loop over all capture channels, some of which hold the frame. */
  method Capture(ghost t: Sender, ghost c: Cursor, ghost g: Geometry, ghost played: seq<Ring>, ghost routing: seq<nat>,
                 ghost src: seq<Byte>, ghost now: seq<Ring>, all: seq<Ring>, ghost map_: seq<nat>, cap: nat, ghost b0: nat,
                 ghost len: nat, big: bool, off: nat, n: nat, ghost y0: nat, format: PcmFormat, out: array<Byte>)
    returns (end: nat)
    requires SendsPlayed(t, c, g, played, routing, src) && SampleBytes(g.format) <= Width(t.layout) && c.remaining <= len
    requires Captures(t, c, now, cap, b0, len, big, off, n, y0) && Mapped(now, all, map_) && Uniform(all, cap)
    requires n * (|all| * Stride(format)) <= out.Length && format == g.format && |routing| == |now|
    modifies out
    ensures end <= out.Length && CapturedFrame(out[..end], g, routing, |played|, map_, |all|, src, n, y0)
  {
    CaptureRoom(all, cap, off, n, CaptureOf(format), big);
    end := Interleave(all, cap, off, out, 0, n, CaptureOf(format), big);
    ghost var o := out[..end];
    assert o == Interleaved(Frames(all, cap, CaptureOf(format), big), off, n);
    forall u, i | 0 <= u < |routing| && 0 <= i < n
      ensures SameSample(o, Slot(i, map_[u], |all|, Stride(g.format)), src,
                         Slot(y0 + i, routing[u], |played|, Stride(g.format)), SampleBytes(g.format))
    {
      PlayedIsCaptured(t, c, g, played, routing, src, now, all, map_, cap, b0, len, big, off, n, y0, u, i, o,
                       Slot(i, map_[u], |all|, Stride(g.format)), Slot(y0 + i, routing[u], |played|, Stride(g.format)));
    }
  }

  // -- The whole way on the objects

  /** The source a stream forms over the routed playback rings. */
  ghost function SenderOf(stream: SourceStream, g: Geometry, played: seq<Ring>, routing: seq<nat>): Sender
    requires Uniform(played, g.capacity) && Routes(routing, |played|)
  {
    Sender(Routed(played, routing), g.capacity, stream.layout, stream.big,
           SourceOf(stream, played, routing, g.capacity, g.len))
  }

  /** Where the send loop of tick j starts. */
  ghost function CursorAt(g: Geometry, count: U64, j: nat, seqNum: U16): Cursor
    requires ValidGeometry(g)
  {
    Cursor(g.frame, PosAt(g, j), W64(count - g.frame), seqNum)
  }

  lemma FrameHeld(g: Geometry, states: seq<seq<Ring>>, input: seq<seq<Byte>>, k: nat, j: nat, delay: nat)
    requires ValidGeometry(g) && Trace(g, states, input) && delay == g.len / g.frame && j == k + delay && j < |states|
    ensures k < |input| && Holds(g, states[j], PosAt(g, j), input[k]) && PosAt(g, j) + g.frame <= g.len
  {
    DelayPositive(g);
    ReturnsAfterOneRing(g, states, input, k, delay);
    PosAligned(g, j);
  }

  lemma HeldSends(stream: SourceStream, g: Geometry, played: seq<Ring>, routing: seq<nat>, src: seq<Byte>, c: Cursor)
    requires ValidGeometry(g) && Holds(g, played, c.offset, src) && Routes(routing, |played|) && stream.maxSamples > 0
    requires |routing| > 0 && IsWire(stream.layout) && !stream.big && c.remaining == g.frame && c.offset + g.frame <= g.len
    ensures SendsPlayed(SenderOf(stream, g, played, routing), c, g, played, routing, src)
  {}

  /** In a run, tick j sends on stream u the frame that the ALSA buffer delivered one ring length before, at
      tick k. */
  lemma TickSends(streams: seq<SourceStream>, g: Geometry, routings: seq<seq<nat>>, m: nat, feeds: seq<Feed>, h: History,
                  k: nat, j: nat, u: nat, delay: nat)
    requires Ran(streams, g, routings, m, feeds, h) && delay == g.len / g.frame && j == k + delay && j < |h.sent|
    requires |routings| == |streams| && u < |streams| && feeds[j].up
    requires |routings[u]| > 0 && IsWire(streams[u].layout) && !streams[u].big
    ensures Uniform(h.states[j], g.capacity) && |h.states[j]| == m && Routes(routings[u], m) && k < |h.input|
    ensures |h.seqs[j]| == |h.sent[j]| == |streams|
    ensures var t, c := SenderOf(streams[u], g, h.states[j], routings[u]), CursorAt(g, feeds[j].count, j, h.seqs[j][u]);
            SendsPlayed(t, c, g, h.states[j], routings[u], h.input[k]) && h.sent[j][u] == Packets(t.source, c)
  {
    assert AllSentAt(streams, g, h.states[j], routings, m, j, feeds[j], h.seqs[j], h.sent[j]);
    assert SentAt(streams[u], g, h.states[j], routings[u], m, j, feeds[j].count, true, h.seqs[j][u], h.sent[j][u]);
    FrameHeld(g, h.states, h.input, k, j, delay);
    HeldSends(streams[u], g, h.states[j], routings[u], h.input[k], CursorAt(g, feeds[j].count, j, h.seqs[j][u]));
  }

  /** The capture channels of a receiver, some of which the sink writes. */
  ghost predicate Receiver(sink: SinkStream, capture: seq<array<Word>>, map_: seq<nat>, cap: nat)
  {
    && |map_| == |sink.rings| && (forall ch :: 0 <= ch < |capture| ==> capture[ch].Length == cap)
    && forall u :: 0 <= u < |map_| ==> map_[u] < |capture| && sink.rings[u] == capture[map_[u]]
  }

  /** The packets of a played frame taken in and captured. */
  method DeliverAndCapture(ps: seq<Packet>, ghost t: Sender, ghost c: Cursor, ghost g: Geometry, ghost played: seq<Ring>,
                           ghost routing: seq<nat>, ghost src: seq<Byte>, ghost base: U64, ghost b0: nat, sink: SinkStream,
                           ssrc: U32, clock: seq<U64>, len: nat, capture: seq<array<Word>>, ghost map_: seq<nat>, cap: nat,
                           off: nat, n: nat, ghost y0: nat, format: PcmFormat, out: array<Byte>)
    returns (end: nat)
    requires SendsPlayed(t, c, g, played, routing, src) && ps == Packets(t.source, c) && |clock| == |ps|
    requires Bound(t, c, base, b0, sink, len) && Listens(sink, t, ssrc) && Receiver(sink, capture, map_, cap) && len <= cap
    requires forall k :: 0 <= k < |clock| ==> Abs(StartOf(t.source, c, k) - clock[k]) <= RADIUS
    requires sink.OtherLeg().NoLeg? || sink.OtherLeg().last <= base
    requires SampleBytes(g.format) <= Width(t.layout) && format == g.format
    requires y0 + n <= g.frame && off + n <= len && off == Wrap(b0, y0, len)
    requires n * (|capture| * Stride(format)) <= out.Length
    modifies sink`received, sink.rings, out
    ensures sink.received.last == base + g.frame && end <= out.Length
    ensures |map_| == |routing| && Routes(map_, |capture|)
    ensures CapturedFrame(out[..end], g, routing, |played|, map_, |capture|, src, n, y0)
  {
    TakeFrame(ps, t, c, base, b0, sink, ssrc, clock, len);
    ghost var now := Contents(sink.rings);
    var all := Contents(capture);
    end := Capture(t, c, g, played, routing, src, now, all, map_, cap, b0, len, sink.format.big, off, n, y0, format, out);
  }

  /** The receiver's readings while the frame of count sac arrives: as many as there can be packets, all
      within the radius of the whole frame. */
  predicate ReadingsNear(clock: seq<U64>, sac: U64, f: nat)
  {
    |clock| >= f && forall i :: 0 <= i < |clock| ==> Abs(sac - clock[i]) + f <= RADIUS
  }

  lemma ReadingsFit(s: Source, c: Cursor, clock: seq<U64>)
    requires ValidSource(s) && ValidCursor(s, c) && ReadingsNear(clock, c.sac, c.remaining)
    ensures |Packets(s, c)| <= |clock|
    ensures forall k :: 0 <= k < |Packets(s, c)| ==> Abs(StartOf(s, c, k) - clock[k]) <= RADIUS
  {
    AtMostOnePerSample(s, c);
    forall k | 0 <= k < |Packets(s, c)| ensures Abs(StartOf(s, c, k) - clock[k]) <= RADIUS {
      StartsInFrame(s, c, k);
    }
  }

  lemma StartsInFrame(s: Source, c: Cursor, k: nat)
    requires ValidSource(s) && ValidCursor(s, c) && k < |Packets(s, c)|
    ensures c.sac <= StartOf(s, c, k) < c.sac + c.remaining
  {
    BeginIs(s, k);
    PacketIsAfter(s, c, k, Begin(s, k));
  }

  lemma CountOfTick(g: Geometry, count: U64, j: nat, seqNum: U16, f: U32)
    requires ValidGeometry(g) && f == g.frame <= count
    ensures CursorAt(g, count, j, seqNum).sac == count - f && CursorAt(g, count, j, seqNum).remaining == f
  {}

  lemma FrameBound(sink: SinkStream, stream: SourceStream, routing: seq<nat>, ssrc: U32, sac: U64, f: nat, base: U64, b0: nat,
                   len: nat, t: Sender, c: Cursor)
    requires SinkFor(sink, stream, routing, ssrc, sac, f, base, b0, len) && ValidSender(t) && ValidCursor(t.source, c)
    requires t.layout == stream.layout && t.source.tsOffset == stream.tsOffset && |t.rings| == |routing|
    requires c.sac == sac && c.remaining == f
    ensures Bound(t, c, base, b0, sink, len) && Listens(sink, t, ssrc)
  {}

  /** What stream u sends at tick j of a run. */
  method Ticks(streams: seq<SourceStream>, p: Playback, routings: seq<seq<nat>>, feeds: seq<Feed>, f: U32, ghost g: Geometry,
               ghost delay: nat, ghost k: nat, j: nat, u: nat)
    returns (sent: seq<Packet>, ghost h: History)
    requires p.Valid() && p.pos == 0 && g == GeometryOf(p, f) && ValidGeometry(g) && p.len < TWO32 && delay == p.len / f
    requires Supply(p, f, feeds) && Sources(streams, routings, |p.rings|) && u < |streams| && |routings[u]| > 0
    requires IsWire(streams[u].layout) && !streams[u].big && j == k + delay && j < |feeds| && feeds[j].up
    modifies streams, p`pos, p`dmaOffset, p.rings
    ensures |h.input| == |feeds| && |h.states| == |h.seqs| == |feeds| + 1 && |h.seqs[j]| == |streams|
    ensures TakenFrom(h, feeds, g, p.FrameBytes())
    ensures Uniform(h.states[j], g.capacity) && |h.states[j]| == |p.rings| && Routes(routings[u], |p.rings|)
    ensures var t, c := SenderOf(streams[u], g, h.states[j], routings[u]), CursorAt(g, feeds[j].count, j, h.seqs[j][u]);
            SendsPlayed(t, c, g, h.states[j], routings[u], h.input[k]) && sent == Packets(t.source, c)
  {
    var all;
    all, h := TickRun(streams, p, routings, feeds, f, g, delay);
    TickSends(streams, g, routings, |p.rings|, feeds, h, k, j, u, delay);
    sent := all[j][u];
  }

  /** From playback to capture: ticks of the sender from prepare on, the packets of stream u at tick j taken
      in by a sink, and a stretch of the frame captured. The captured bytes of the routed channels are
      those the ALSA buffer held at tick j - L/F. */
  method PlayToCapture(streams: seq<SourceStream>, p: Playback, routings: seq<seq<nat>>, feeds: seq<Feed>, f: U32,
                       ghost g: Geometry, ghost delay: nat, ghost k: nat, j: nat, u: nat, ghost base: U64, ghost b0: nat,
                       sink: SinkStream, ssrc: U32, clock: seq<U64>, len: nat, capture: seq<array<Word>>,
                       ghost map_: seq<nat>, cap: nat, off: nat, n: nat, ghost y0: nat, out: array<Byte>)
    returns (end: nat, ghost h: History)
    requires p.Valid() && p.pos == 0 && g == GeometryOf(p, f) && ValidGeometry(g) && p.len < TWO32 && delay == p.len / f
    requires Supply(p, f, feeds) && Sources(streams, routings, |p.rings|) && u < |streams| && |routings[u]| > 0
    requires IsWire(streams[u].layout) && !streams[u].big && SampleBytes(p.format) <= Width(streams[u].layout)
    requires j == k + delay && j < |feeds| && feeds[j].up && ReadingsNear(clock, feeds[j].count - f, f)
    requires SinkFor(sink, streams[u], routings[u], ssrc, feeds[j].count - f, f, base, b0, len)
    requires Receiver(sink, capture, map_, cap) && len <= cap
    requires y0 + n <= f && off + n <= len && off == Wrap(b0, y0, len)
    requires n * (|capture| * Stride(p.format)) <= out.Length
    modifies streams, p`pos, p`dmaOffset, p.rings, sink`received, sink.rings, out
    ensures |h.input| == |feeds| && TakenFrom(h, feeds, g, p.FrameBytes())
    ensures sink.received.last == base + f && end <= out.Length && |map_| == |routings[u]| && Routes(map_, |capture|)
    ensures CapturedFrame(out[..end], g, routings[u], |p.rings|, map_, |capture|, h.input[k], n, y0)
  {
    var sent;
    sent, h := Ticks(streams, p, routings, feeds, f, g, delay, k, j, u);
    end := CaptureTick(streams[u], g, h.states[j], routings[u], h.input[k], feeds[j].count, f, j, h.seqs[j][u], sent, base, b0, sink, ssrc, clock, len, capture, map_, cap, off, n, y0, p.format, out);
  }

  /** What one stream sent at one tick, taken in and captured. */
  method CaptureTick(ghost stream: SourceStream, ghost g: Geometry, ghost played: seq<Ring>, ghost routing: seq<nat>,
                     ghost src: seq<Byte>, ghost count: U64, ghost f: U32, ghost j: nat, ghost seqNum: U16, sent: seq<Packet>,
                     ghost base: U64, ghost b0: nat, sink: SinkStream, ssrc: U32, clock: seq<U64>, len: nat,
                     capture: seq<array<Word>>, ghost map_: seq<nat>, cap: nat, off: nat, n: nat, ghost y0: nat,
                     format: PcmFormat, out: array<Byte>)
    returns (end: nat)
    requires ValidGeometry(g) && f == g.frame <= count && Uniform(played, g.capacity) && Routes(routing, |played|)
    requires var t, c := SenderOf(stream, g, played, routing), CursorAt(g, count, j, seqNum);
             SendsPlayed(t, c, g, played, routing, src) && sent == Packets(t.source, c)
    requires SampleBytes(format) <= Width(stream.layout) && format == g.format && ReadingsNear(clock, count - f, f)
    requires SinkFor(sink, stream, routing, ssrc, count - f, f, base, b0, len) && Receiver(sink, capture, map_, cap) && len <= cap
    requires y0 + n <= f && off + n <= len && off == Wrap(b0, y0, len)
    requires n * (|capture| * Stride(format)) <= out.Length
    modifies sink`received, sink.rings, out
    ensures sink.received.last == base + f && end <= out.Length && |map_| == |routing| && Routes(map_, |capture|)
    ensures CapturedFrame(out[..end], g, routing, |played|, map_, |capture|, src, n, y0)
  {
    ghost var t, c := SenderOf(stream, g, played, routing), CursorAt(g, count, j, seqNum);
    CountOfTick(g, count, j, seqNum, f);
    FrameBound(sink, stream, routing, ssrc, count - f, f, base, b0, len, t, c);
    ReadingsFit(t.source, c, clock);
    end := DeliverAndCapture(sent, t, c, g, played, routing, src, base, b0, sink, ssrc, clock[..|sent|], len, capture, map_,
                             cap, off, n, y0, format, out);
  }

  /** The sink is set up for the stream and has room for the frame of count sac; its twin, if any, has
      delivered none of it. */
  ghost predicate SinkFor(sink: SinkStream, stream: SourceStream, routing: seq<nat>, ssrc: U32, sac: U64, f: nat, base: U64,
                          b0: nat, len: nat)
    reads sink, sink.attached
  {
    && OwnRings(sink, len) && 0 < f <= len && |sink.rings| == |routing|
    && sink.format.layout == stream.layout && sink.format.tsOffset == stream.tsOffset
    && (sink.received.ssrc == Unknown || sink.received.ssrc == Known(ssrc))
    && base == sac + sink.format.playOut && base + f < TWO64 && b0 == Place(base, 0, len)
    && sink.attached != sink && (sink.OtherLeg().NoLeg? || sink.OtherLeg().last <= base)
  }
}
