/** Send and receive on the objects: a sink takes in the packets of a source, and what an application
    played at one end is captured at the other. */
module EndToEnd {
  import opened CInt
  import opened Rings
  import opened Timestamp
  import opened Convert
  import opened Packetise
  import opened RtpSend
  import opened RtpReceive
  import opened AlsaRing
  import opened DelayLine
  import opened Transport
  import opened AudioTick
  import Arith

  /** What is left of the sent sample y of channel ch. */
  function SentSample(t: Sender, c: Cursor, ch: nat, y: nat): Word
    requires ValidSender(t) && ValidCursor(t.source, c) && ch < |t.rings| && y < c.remaining
  {
    Kept(t.layout, MsbFirst(t.big, t.rings[ch][Wrap(c.offset, y, t.source.len)]))
  }

  /** Rings of at least len words, one for each channel. */
  predicate Roomy(rings: seq<Ring>, m: nat, len: nat) { |rings| == m && forall ch :: 0 <= ch < m ==> len <= |rings[ch]| }

  /** Samples lo..hi of the sent frame stand in the rings from position b0 on, around the ring. */
  ghost predicate Stored(t: Sender, c: Cursor, now: seq<Ring>, b0: nat, len: nat, big: bool, lo: nat, hi: nat)
    requires ValidSender(t) && ValidCursor(t.source, c) && hi <= c.remaining && hi <= len && b0 < len
    requires Roomy(now, |t.rings|, len)
  {
    forall ch, y :: 0 <= ch < |now| && lo <= y < hi ==> MsbFirst(big, now[ch][Wrap(b0, y, len)]) == SentSample(t, c, ch, y)
  }

  /** The rings after n frames of a payload were stored from position first on. */
  ghost predicate AfterPacket(was: seq<Ring>, now: seq<Ring>, first: nat, len: nat, payload: seq<Byte>, n: nat, l: Layout,
                              big: bool)
  {
    && |now| == |was| && first < len && IsWire(l) && Carries(payload, n, |was|, Width(l))
    && forall ch, j :: 0 <= ch < |was| && 0 <= j < |was[ch]| ==>
         |now[ch]| == |was[ch]| && now[ch][j] == RingAfter(was[ch][j], j, first, len, payload, n, ch, |was|, l, big)
  }

  /** The payload carries samples x..x+n of the sent frame. */
  ghost predicate Bears(t: Sender, c: Cursor, x: nat, n: nat, payload: seq<Byte>, big: bool)
    requires ValidSender(t) && ValidCursor(t.source, c)
  {
    && x + n <= c.remaining && Carries(payload, n, |t.rings|, Width(t.layout))
    && forall ch, i :: 0 <= ch < |t.rings| && 0 <= i < n ==>
         MsbFirst(big, WireSample(payload, i, n, ch, |t.rings|, t.layout, big)) == SentSample(t, c, ch, x + i)
  }

  lemma PacketBears(t: Sender, c: Cursor, k: nat, x: nat, n: nat, p: Packet, big: bool)
    requires ValidSender(t) && ValidCursor(t.source, c) && CutAt(t.source, c, k, x, n) && p == Packets(t.source, c)[k]
    ensures 0 < n && Bears(t, c, x, n, p.payload, big)
  {
    CutPacket(t.source, c, k, x, n, p);
    FrameCountRecovered(t, Wrap(c.offset, x, t.source.len), n);
    forall ch, i | 0 <= ch < |t.rings| && 0 <= i < n
      ensures MsbFirst(big, WireSample(p.payload, i, n, ch, |t.rings|, t.layout, big)) == SentSample(t, c, ch, x + i)
    {
      SampleWord(t, c, k, x, n, p, i, ch, big);
    }
  }

  /** The samples of the packet are there. */
  lemma PacketStored(t: Sender, c: Cursor, x: nat, n: nat, payload: seq<Byte>, was: seq<Ring>, now: seq<Ring>, b0: nat,
                     len: nat, big: bool)
    requires ValidSender(t) && ValidCursor(t.source, c) && Bears(t, c, x, n, payload, big)
    requires c.remaining <= len && b0 < len && Roomy(was, |t.rings|, len) && Roomy(now, |t.rings|, len)
    requires AfterPacket(was, now, Wrap(b0, x, len), len, payload, n, t.layout, big)
    ensures Stored(t, c, now, b0, len, big, x, x + n)
  {
    forall ch, y | 0 <= ch < |now| && x <= y < x + n
      ensures MsbFirst(big, now[ch][Wrap(b0, y, len)]) == SentSample(t, c, ch, y)
    {
      WrapBack(b0, x, y, len);
      var at := Wrap(b0, y, len);
      assert now[ch][at] == WireSample(payload, y - x, n, ch, |t.rings|, t.layout, big);
      assert SentSample(t, c, ch, x + (y - x)) == SentSample(t, c, ch, y);
    }
  }

  lemma WrapBack(b0: nat, x: nat, y: nat, len: nat)
    requires b0 < len && x <= y < len
    ensures Back(Wrap(b0, y, len), Wrap(b0, x, len), len) == y - x
  {}

  /** Earlier samples of the frame stay. */
  lemma EarlierKept(t: Sender, c: Cursor, x: nat, n: nat, payload: seq<Byte>, was: seq<Ring>, now: seq<Ring>, b0: nat,
                    len: nat, big: bool)
    requires ValidSender(t) && ValidCursor(t.source, c)
    requires x + n <= c.remaining <= len && b0 < len && Roomy(was, |t.rings|, len) && Roomy(now, |t.rings|, len)
    requires AfterPacket(was, now, Wrap(b0, x, len), len, payload, n, t.layout, big)
    requires Stored(t, c, was, b0, len, big, 0, x)
    ensures Stored(t, c, now, b0, len, big, 0, x)
  {
    forall ch, y | 0 <= ch < |now| && 0 <= y < x
      ensures MsbFirst(big, now[ch][Wrap(b0, y, len)]) == SentSample(t, c, ch, y)
    {
      var at, first := Wrap(b0, y, len), Wrap(b0, x, len);
      assert Back(at, first, len) == len - (x - y);
      assert now[ch][at] == was[ch][at];
    }
  }

  lemma StoredJoins(t: Sender, c: Cursor, now: seq<Ring>, b0: nat, len: nat, big: bool, x: nat, hi: nat)
    requires ValidSender(t) && ValidCursor(t.source, c) && x <= hi <= c.remaining <= len && b0 < len
    requires Roomy(now, |t.rings|, len)
    requires Stored(t, c, now, b0, len, big, 0, x) && Stored(t, c, now, b0, len, big, x, hi)
    ensures Stored(t, c, now, b0, len, big, 0, hi)
  {}

  // -- One packet at a sink

  /** Every channel of the sink has a ring of its own with room for len words. */
  ghost predicate OwnRings(sink: SinkStream, len: nat)
  {
    && |sink.rings| > 0 && IsWire(sink.format.layout)
    && (forall ch :: 0 <= ch < |sink.rings| ==> len <= sink.rings[ch].Length)
    && (forall a, b :: 0 <= a < b < |sink.rings| ==> sink.rings[a] != sink.rings[b])
  }

  /** What ProcessRTPAudioPacket decides about a packet whose audio starts at base on the playout time
      line and ends at end. */
  ghost predicate JudgedAs(sink: SinkStream, p: Packet, ssrc: U32, globalSac: U64, n: nat, base: U64, end: U64)
    reads sink, sink.attached
  {
    Judge(sink.format, sink.received, sink.OtherLeg(), Arrived(p, sink.format, ssrc), n, globalSac)
    == (Received(Known(ssrc), p.seqNum, end), if CopyNeeded(sink.OtherLeg(), end) then Copied(base) else Skipped)
  }

  method TakeIn(sink: SinkStream, p: Packet, ssrc: U32, globalSac: U64, len: nat, ghost n: nat, ghost base: U64,
                ghost end: U64)
    requires OwnRings(sink, len) && n <= len && len > 0 && JudgedAs(sink, p, ssrc, globalSac, n, base, end)
    requires |sink.rings| * Width(sink.format.layout) > 0
    requires FramesIn(|p.payload|, |sink.rings| * Width(sink.format.layout)) == n
    modifies sink`received, sink.rings
    ensures sink.received == Received(Known(ssrc), p.seqNum, end)
    ensures CopyNeeded(old(sink.OtherLeg()), end) ==>
              AfterPacket(old(Contents(sink.rings)), Contents(sink.rings), Place(base, 0, len), len, p.payload, n,
                          sink.format.layout, sink.format.big)
    ensures !CopyNeeded(old(sink.OtherLeg()), end) ==> Contents(sink.rings) == old(Contents(sink.rings))
  {
    ghost var was, skip := Contents(sink.rings), !CopyNeeded(sink.OtherLeg(), end);
    var rx := Arrived(p, sink.format, ssrc);
    assert Audio(rx) == p.payload;
    assert sink.FrameCount(rx) == n;
    var used := sink.ProcessPacket(rx, globalSac, len);
    assert forall ch :: 0 <= ch < |sink.rings| ==> LastUse(sink.rings, ch);
    if skip {
      forall ch | 0 <= ch < |sink.rings| ensures Contents(sink.rings)[ch] == was[ch] {
        assert forall j :: 0 <= j < |was[ch]| ==> sink.rings[ch][j] == was[ch][j];
      }
    }
  }

  /** The sink is set up for the sender's stream. */
  ghost predicate Listens(sink: SinkStream, t: Sender, ssrc: U32)
    reads sink
  {
    && sink.format.layout == t.layout && sink.format.tsOffset == t.source.tsOffset && |sink.rings| == |t.rings|
    && (sink.received.ssrc == Unknown || sink.received.ssrc == Known(ssrc))
  }

  method ReceivePacket(p: Packet, ghost t: Sender, ghost c: Cursor, ghost k: nat, ghost x: nat, ghost n: nat,
                       ghost sac: U64, ghost base: U64, ghost first: nat, sink: SinkStream, ssrc: U32, globalSac: U64,
                       len: nat)
    requires ValidSender(t) && ValidCursor(t.source, c) && CutAt(t.source, c, k, x, n) && p == Packets(t.source, c)[k]
    requires OwnRings(sink, len) && Listens(sink, t, ssrc) && n <= len
    requires sac == c.sac + x && base == sac + sink.format.playOut && base + n < TWO64
    requires Abs(sac - globalSac) <= RADIUS && len > 0 && first == Place(base, 0, len)
    modifies sink`received, sink.rings
    ensures sink.received == Received(Known(ssrc), p.seqNum, base + n)
    ensures CopyNeeded(old(sink.OtherLeg()), base + n) ==>
              AfterPacket(old(Contents(sink.rings)), Contents(sink.rings), first, len, p.payload, n, t.layout,
                          sink.format.big)
    ensures !CopyNeeded(old(sink.OtherLeg()), base + n) ==> Contents(sink.rings) == old(Contents(sink.rings))
  {
    StampOf(t.source, c, k, x, n, sac);
    TimelyJudged(sink.format, sink.received, sink.OtherLeg(), Arrived(p, sink.format, ssrc), n, sac, base, globalSac);
    FramesRecovered(t, c, k, x, n, p);
    TakeIn(sink, p, ssrc, globalSac, len, n, base, base + n);
  }

  /** A sent packet arrives within the timestamp radius. Unless the other leg has already delivered it,
      its n samples are stored from their 64-bit count plus the playout delay on, modulo the ring
      length, and no other word changes; the end of the audio is recorded in either case. */
  method DeliverPacket(p: Packet, ghost t: Sender, ghost c: Cursor, ghost k: nat, ghost x: nat, ghost n: nat,
                       ghost sac: U64, ghost base: U64, sink: SinkStream, ssrc: U32, globalSac: U64, len: nat)
    requires ValidSender(t) && ValidCursor(t.source, c) && CutAt(t.source, c, k, x, n) && p == Packets(t.source, c)[k]
    requires OwnRings(sink, len) && Listens(sink, t, ssrc) && n <= len
    requires sac == c.sac + x && base == sac + sink.format.playOut && base + n < TWO64
    requires Abs(sac - globalSac) <= RADIUS && len > 0
    modifies sink`received, sink.rings
    ensures sink.received == Received(Known(ssrc), p.seqNum, base + n) && x + n <= c.remaining
    ensures CopyNeeded(old(sink.OtherLeg()), base + n) ==>
              && (forall ch, i :: 0 <= ch < |sink.rings| && 0 <= i < n ==>
                    MsbFirst(sink.format.big, sink.rings[ch][Place(base, i, len)]) == SentSample(t, c, ch, x + i))
              && (forall ch, j :: 0 <= ch < |sink.rings| && 0 <= j < sink.rings[ch].Length
                                  && (j < len ==> Back(j, Place(base, 0, len), len) >= n) ==>
                    sink.rings[ch][j] == old(sink.rings[ch][j]))
    ensures !CopyNeeded(old(sink.OtherLeg()), base + n) ==> Contents(sink.rings) == old(Contents(sink.rings))
  {
    ghost var was := Contents(sink.rings);
    PacketBears(t, c, k, x, n, p, sink.format.big);
    ReceivePacket(p, t, c, k, x, n, sac, base, Place(base, 0, len), sink, ssrc, globalSac, len);
    if CopyNeeded(old(sink.OtherLeg()), base + n) {
      ghost var now := Contents(sink.rings);
      forall ch, i | 0 <= ch < |sink.rings| && 0 <= i < n
        ensures MsbFirst(sink.format.big, sink.rings[ch][Place(base, i, len)]) == SentSample(t, c, ch, x + i)
      {
        SampleLands(t, c, x, n, p.payload, was, now, base, len, sink.format.big, ch, i);
      }
    }
  }

  lemma SampleLands(t: Sender, c: Cursor, x: nat, n: nat, payload: seq<Byte>, was: seq<Ring>, now: seq<Ring>, base: nat,
                    len: nat, big: bool, ch: nat, i: nat)
    requires ValidSender(t) && ValidCursor(t.source, c) && Bears(t, c, x, n, payload, big)
    requires n <= len && Roomy(was, |t.rings|, len) && Roomy(now, |t.rings|, len) && ch < |now| && i < n
    requires AfterPacket(was, now, Place(base, 0, len), len, payload, n, t.layout, big)
    ensures MsbFirst(big, now[ch][Place(base, i, len)]) == SentSample(t, c, ch, x + i)
  {
    PlaceBack(base, i, len);
    var at := Place(base, i, len);
    assert now[ch][at] == WireSample(payload, i, n, ch, |t.rings|, t.layout, big);
  }

  // -- All packets of a frame

  /** Samples of the frame before packet k, all packets before it being full. */
  function Begin(s: Source, k: nat): nat { if k == 0 then 0 else Begin(s, k - 1) + s.maxSamples }

  lemma {:induction false} BeginIs(s: Source, k: nat)
    ensures Begin(s, k) == k * s.maxSamples
  {
    if k > 0 {
      BeginIs(s, k - 1);
      Arith.MulDist(k - 1, 1, s.maxSamples);
    }
  }

  /** Sample count of packet k. */
  function StartOf(s: Source, c: Cursor, k: nat): int { c.sac + Begin(s, k) }

  /** How far into the frame packet k starts; after the last one, the whole frame. */
  ghost predicate Reached(s: Source, c: Cursor, k: nat, x: nat)
    requires ValidSource(s) && ValidCursor(s, c)
  {
    k <= |Packets(s, c)| && x <= c.remaining && if k < |Packets(s, c)| then x == Begin(s, k) else x == c.remaining
  }

  lemma NextPacket(s: Source, c: Cursor, k: nat, x: nat) returns (n: nat)
    requires ValidSource(s) && ValidCursor(s, c) && Reached(s, c, k, x) && k < |Packets(s, c)|
    ensures CutAt(s, c, k, x, n) && Reached(s, c, k + 1, x + n) && n > 0 && StartOf(s, c, k) == c.sac + x
  {
    BeginIs(s, k);
    BeginIs(s, k + 1);
    PacketIsAfter(s, c, k, x);
    n := Min(s.maxSamples, c.remaining - x);
    Arith.MulDist(k, 1, s.maxSamples);
    if k + 1 < |Packets(s, c)| {
      PacketIsAfter(s, c, k + 1, Begin(s, k + 1));
    } else {
      PacketCount(s, c);
    }
  }

  lemma FirstPacketReached(s: Source, c: Cursor)
    requires ValidSource(s) && ValidCursor(s, c)
    ensures Reached(s, c, 0, 0)
  {
    PacketCount(s, c);
    assert 0 * s.maxSamples == 0;
  }

  /** The rings after the next packet of the frame. */
  lemma StoredGrows(t: Sender, c: Cursor, x: nat, n: nat, payload: seq<Byte>, was: seq<Ring>, now: seq<Ring>, b0: nat,
                   len: nat, big: bool)
    requires ValidSender(t) && ValidCursor(t.source, c) && Bears(t, c, x, n, payload, big)
    requires 0 < c.remaining <= len && b0 < len && Roomy(was, |t.rings|, len) && Roomy(now, |t.rings|, len)
    requires AfterPacket(was, now, Wrap(b0, x, len), len, payload, n, t.layout, big)
    requires Stored(t, c, was, b0, len, big, 0, x)
    ensures Stored(t, c, now, b0, len, big, 0, x + n)
  {
    EarlierKept(t, c, x, n, payload, was, now, b0, len, big);
    PacketStored(t, c, x, n, payload, was, now, b0, len, big);
    StoredJoins(t, c, now, b0, len, big, x, x + n);
  }

  lemma FirstPlace(base: nat, x: nat, len: nat)
    requires x <= len && len > 0
    ensures Place(base + x, 0, len) == Wrap(Place(base, 0, len), x, len)
  {
    PlaceSteps(base, x, len);
  }

  /** A frame on its way to a sink: base is the count of its first sample on the playout time line, b0
      its place in the rings. */
  ghost predicate Bound(t: Sender, c: Cursor, base: U64, b0: nat, sink: SinkStream, len: nat)
    reads sink`attached
  {
    && ValidSender(t) && ValidCursor(t.source, c) && OwnRings(sink, len) && 0 < c.remaining <= len
    && base == c.sac + sink.format.playOut && base + c.remaining < TWO64 && sink.attached != sink
    && b0 == Place(base, 0, len)
  }

  /** The first x samples have arrived, and the other leg has delivered none of the frame. */
  ghost predicate Arriving(t: Sender, c: Cursor, base: U64, b0: nat, sink: SinkStream, ssrc: U32, len: nat, x: nat)
    reads sink, sink.attached, sink.rings
    requires ValidSender(t) && ValidCursor(t.source, c) && x <= c.remaining <= len && b0 < len
  {
    && Listens(sink, t, ssrc) && (sink.OtherLeg().NoLeg? || sink.OtherLeg().last <= base)
    && Roomy(Contents(sink.rings), |t.rings|, len)
    && Stored(t, c, Contents(sink.rings), b0, len, sink.format.big, 0, x)
  }

  method DeliverNext(p: Packet, ghost t: Sender, ghost c: Cursor, ghost base: U64, ghost b0: nat, ghost k: nat, ghost x: nat,
                     ghost n: nat, sink: SinkStream, ssrc: U32, globalSac: U64, len: nat)
    requires Bound(t, c, base, b0, sink, len) && CutAt(t.source, c, k, x, n) && p == Packets(t.source, c)[k]
    requires x + n <= c.remaining && n > 0 && Abs(c.sac + x - globalSac) <= RADIUS
    requires Arriving(t, c, base, b0, sink, ssrc, len, x)
    modifies sink`received, sink.rings
    ensures Arriving(t, c, base, b0, sink, ssrc, len, x + n)
    ensures sink.received.last == base + x + n
  {
    ghost var was := Contents(sink.rings);
    PacketBears(t, c, k, x, n, p, sink.format.big);
    FirstPlace(base, x, len);
    ReceivePacket(p, t, c, k, x, n, c.sac + x, base + x, Wrap(b0, x, len), sink, ssrc, globalSac, len);
    StoredGrows(t, c, x, n, p.payload, was, Contents(sink.rings), b0, len, sink.format.big);
  }

  /** Transparency: a sink that takes in the packets of a frame, each within the timestamp radius, ends
      with every sample of the frame in place, its low bytes cleared, and with the end of the frame
      recorded. */
  method DeliverFrame(ps: seq<Packet>, ghost t: Sender, ghost c: Cursor, ghost base: U64, ghost b0: nat, sink: SinkStream,
                      ssrc: U32, clock: seq<U64>, len: nat)
    requires Bound(t, c, base, b0, sink, len) && ps == Packets(t.source, c) && |clock| == |ps|
    requires forall k :: 0 <= k < |clock| ==> Abs(StartOf(t.source, c, k) - clock[k]) <= RADIUS
    requires Listens(sink, t, ssrc) && (sink.OtherLeg().NoLeg? || sink.OtherLeg().last <= base)
    modifies sink`received, sink.rings
    ensures sink.received.last == base + c.remaining && Arriving(t, c, base, b0, sink, ssrc, len, c.remaining)
    ensures forall ch, y :: 0 <= ch < |sink.rings| && 0 <= y < c.remaining ==>
              MsbFirst(sink.format.big, sink.rings[ch][Place(base, y, len)]) == SentSample(t, c, ch, y)
  {
    TakeFrame(ps, t, c, base, b0, sink, ssrc, clock, len);
    forall ch, y | 0 <= ch < |sink.rings| && 0 <= y < c.remaining
      ensures MsbFirst(sink.format.big, sink.rings[ch][Place(base, y, len)]) == SentSample(t, c, ch, y)
    {
      PlaceSteps(base, y, len);
      assert Contents(sink.rings)[ch][Wrap(b0, y, len)] == sink.rings[ch][Place(base, y, len)];
    }
  }

  /** A sink in the middle of a frame: k packets, x samples. */
  ghost predicate Taking(ps: seq<Packet>, t: Sender, c: Cursor, base: U64, b0: nat, sink: SinkStream, ssrc: U32, len: nat,
                         k: nat, x: nat)
    reads sink, sink.attached, sink.rings
  {
    && Bound(t, c, base, b0, sink, len) && ps == Packets(t.source, c) && Reached(t.source, c, k, x)
    && Arriving(t, c, base, b0, sink, ssrc, len, x) && (k > 0 ==> sink.received.last == base + x)
  }

  lemma StartTaking(ps: seq<Packet>, t: Sender, c: Cursor, base: U64, b0: nat, sink: SinkStream, ssrc: U32, len: nat)
    requires Bound(t, c, base, b0, sink, len) && ps == Packets(t.source, c)
    requires Listens(sink, t, ssrc) && (sink.OtherLeg().NoLeg? || sink.OtherLeg().last <= base)
    ensures Taking(ps, t, c, base, b0, sink, ssrc, len, 0, 0)
  {
    FirstPacketReached(t.source, c);
  }

  lemma DoneTaking(ps: seq<Packet>, t: Sender, c: Cursor, base: U64, b0: nat, sink: SinkStream, ssrc: U32, len: nat, x: nat)
    requires Taking(ps, t, c, base, b0, sink, ssrc, len, |ps|, x)
    ensures x == c.remaining && Arriving(t, c, base, b0, sink, ssrc, len, x) && sink.received.last == base + x
  {
    SomePacket(t.source, c);
  }

  method TakeFrame(ps: seq<Packet>, ghost t: Sender, ghost c: Cursor, ghost base: U64, ghost b0: nat, sink: SinkStream,
                   ssrc: U32, clock: seq<U64>, len: nat)
    requires Bound(t, c, base, b0, sink, len) && ps == Packets(t.source, c) && |clock| == |ps|
    requires forall k :: 0 <= k < |clock| ==> Abs(StartOf(t.source, c, k) - clock[k]) <= RADIUS
    requires Listens(sink, t, ssrc) && (sink.OtherLeg().NoLeg? || sink.OtherLeg().last <= base)
    modifies sink`received, sink.rings
    ensures sink.received.last == base + c.remaining && Arriving(t, c, base, b0, sink, ssrc, len, c.remaining)
  {
    var k := 0;
    ghost var x: nat := 0;
    StartTaking(ps, t, c, base, b0, sink, ssrc, len);
    while k < |ps|
      invariant 0 <= k <= |ps| && Taking(ps, t, c, base, b0, sink, ssrc, len, k, x)
    {
      x := TakeNext(ps, t, c, base, b0, k, x, sink, ssrc, clock[k], len);
      k := k + 1;
    }
    DoneTaking(ps, t, c, base, b0, sink, ssrc, len, x);
  }

  lemma SomePacket(s: Source, c: Cursor)
    requires ValidSource(s) && ValidCursor(s, c) && c.remaining > 0
    ensures |Packets(s, c)| > 0
  {
    OneMore(s, c);
  }

  method TakeNext(ps: seq<Packet>, ghost t: Sender, ghost c: Cursor, ghost base: U64, ghost b0: nat, k: nat, ghost x: nat,
                  sink: SinkStream, ssrc: U32, globalSac: U64, len: nat)
    returns (ghost x': nat)
    requires Taking(ps, t, c, base, b0, sink, ssrc, len, k, x) && k < |ps|
    requires Abs(StartOf(t.source, c, k) - globalSac) <= RADIUS
    modifies sink`received, sink.rings
    ensures Taking(ps, t, c, base, b0, sink, ssrc, len, k + 1, x')
  {
    ghost var n := NextPacket(t.source, c, k, x);
    DeliverNext(ps[k], t, c, base, b0, k, x, n, sink, ssrc, globalSac, len);
    x' := x + n;
  }
}
