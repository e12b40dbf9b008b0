/** One tick of driver/manager.c on the rings: AudioFrameTIC with the listed source streams and the
    playback substream, and runs of it. The send comes first, the playback interrupt after it. */
module AudioTick {
  import opened CInt
  import opened Rings
  import opened Convert
  import opened Packetise
  import opened RtpSend
  import opened AlsaRing
  import opened DelayLine
  import Arith

  /** The words of every ring. */
  function Contents(rings: seq<array<Word>>): (r: seq<Ring>)
    reads rings
    ensures |r| == |rings| && forall c :: 0 <= c < |r| ==> r[c] == rings[c][..]
    decreases |rings|
  {
    if rings == [] then [] else Contents(rings[..|rings| - 1]) + [rings[|rings| - 1][..]]
  }

  ghost function SourceOf(stream: SourceStream, rings: seq<Ring>, routing: seq<nat>, capacity: nat, len: nat): Source
    requires Routes(routing, |rings|) && Uniform(rings, capacity)
  {
    Source(Frames(Routed(rings, routing), capacity, stream.layout, stream.big), len, stream.maxSamples, stream.tsOffset)
  }

  /** What one stream sends at a tick that finds the rings at pos. */
  ghost function SentOf(stream: SourceStream, rings: seq<Ring>, routing: seq<nat>, capacity: nat, len: nat, pos: nat,
                        globalSac: U64, f: U32, up: bool, seqNum: U16): seq<Packet>
    requires Uniform(rings, capacity) && Routes(routing, |rings|) && 0 < len <= capacity && len < TWO32
    requires pos < len && 0 < f <= len && stream.maxSamples > 0
  {
    OffsetInRing(pos, globalSac, f, len);
    if !up then []
    else Packets(SourceOf(stream, rings, routing, capacity, len),
                 Cursor(f, LiveOutOffset(pos, globalSac, f, W64(globalSac - f), len), W64(globalSac - f), seqNum))
  }

  /** The source streams of a tick, in list order, each with its channel routing. */
  ghost predicate Sources(streams: seq<SourceStream>, routings: seq<seq<nat>>, m: nat)
  {
    && |routings| == |streams| && (forall u, v :: 0 <= u < v < |streams| ==> streams[u] != streams[v])
    && forall u :: 0 <= u < |streams| ==> streams[u].maxSamples > 0 && Routes(routings[u], m)
  }

  /** The sequence numbers the streams send next. */
  ghost function Numbers(streams: seq<SourceStream>): (r: seq<U16>)
    reads streams
    ensures |r| == |streams| && forall u :: 0 <= u < |r| ==> r[u] == streams[u].outgoingSeqNum
    decreases |streams|
  {
    if streams == [] then [] else Numbers(streams[..|streams| - 1]) + [streams[|streams| - 1].outgoingSeqNum]
  }

  /** Every stream goes on with the number after its last packet of the frame, sent or, with the link
      down, not. */
  ghost predicate CountOn(streams: seq<SourceStream>, f: nat, nums: seq<U16>, nums': seq<U16>)
  {
    |nums| == |nums'| == |streams| && forall u :: 0 <= u < |streams| ==> nums'[u] == NumberAfter(streams[u].maxSamples, f, nums[u])
  }

  /** A tick while I/O runs and the clock is locked. What the streams send is read before anything is
      overwritten; the rings then take the next frame of the ALSA buffer. */
  method AudioFrameTIC(streams: seq<SourceStream>, p: Playback, routings: seq<seq<nat>>, dma: seq<Byte>, globalSac: U64,
                       f: U32, up: bool, playing: bool)
    returns (sent: seq<seq<Packet>>)
    requires p.Valid() && p.pos + f <= p.len < TWO32 && f > 0 && |dma| == p.len * p.FrameBytes()
    requires Sources(streams, routings, |p.rings|)
    modifies streams, p`pos, p`dmaOffset, p.rings
    ensures p.Valid() && |sent| == |streams|
    ensures forall u :: 0 <= u < |streams| ==>
              sent[u] == SentOf(streams[u], old(Contents(p.rings)), routings[u], p.capacity, p.len, old(p.pos), globalSac, f,
                                up, old(streams[u].outgoingSeqNum))
    ensures CountOn(streams, f, old(Numbers(streams)), Numbers(streams))
    ensures playing ==> p.pos == Wrap(old(p.pos), f, p.len) && old(p.dmaOffset) <= |dma|
                        && Plays(old(Contents(p.rings)), Contents(p.rings), old(p.pos), p.capacity,
                                 dma[old(p.dmaOffset)..], f, p.format)
    ensures !playing ==> p.pos == old(p.pos) && Contents(p.rings) == old(Contents(p.rings))
  {
    var rings := Contents(p.rings);
    sent := SendAll(streams, rings, routings, p.capacity, p.len, p.pos, globalSac, f, up);
    if playing {
      Play(p, rings, dma, f);
    }
  }

  /** The first k streams have sent their frame, the packets starting at the numbers nums. */
  ghost predicate SentByFirst(streams: seq<SourceStream>, rings: seq<Ring>, routings: seq<seq<nat>>, capacity: nat, len: nat,
                              pos: nat, globalSac: U64, f: U32, up: bool, nums: seq<U16>, sent: seq<seq<Packet>>, k: nat)
    requires Uniform(rings, capacity) && Sources(streams, routings, |rings|) && 0 < len <= capacity && len < TWO32
    requires pos < len && 0 < f <= len && k <= |streams|
  {
    && |sent| == k && |nums| == |streams|
    && forall u :: 0 <= u < k ==>
         sent[u] == SentOf(streams[u], rings, routings[u], capacity, len, pos, globalSac, f, up, nums[u])
  }

  lemma SentOn(streams: seq<SourceStream>, rings: seq<Ring>, routings: seq<seq<nat>>, capacity: nat, len: nat, pos: nat,
               globalSac: U64, f: U32, up: bool, nums: seq<U16>, sent: seq<seq<Packet>>, k: nat, ps: seq<Packet>)
    requires Uniform(rings, capacity) && Sources(streams, routings, |rings|) && 0 < len <= capacity && len < TWO32
    requires pos < len && 0 < f <= len && k < |streams|
    requires SentByFirst(streams, rings, routings, capacity, len, pos, globalSac, f, up, nums, sent, k)
    requires ps == SentOf(streams[k], rings, routings[k], capacity, len, pos, globalSac, f, up, nums[k])
    ensures SentByFirst(streams, rings, routings, capacity, len, pos, globalSac, f, up, nums, sent + [ps], k + 1)
  {}

  /** The first k streams have gone on with their numbers, the others not yet. */
  ghost predicate CountedFirst(streams: seq<SourceStream>, f: nat, nums: seq<U16>, k: nat)
    reads streams
  {
    && |nums| == |streams|
    && forall u :: 0 <= u < |streams| ==>
         streams[u].outgoingSeqNum == if u < k then NumberAfter(streams[u].maxSamples, f, nums[u]) else nums[u]
  }

  /** send_outgoing_packets: every listed source sends its frame. */
  method SendAll(streams: seq<SourceStream>, rings: seq<Ring>, routings: seq<seq<nat>>, capacity: nat, len: nat, pos: nat,
                 globalSac: U64, f: U32, up: bool)
    returns (sent: seq<seq<Packet>>)
    requires Uniform(rings, capacity) && Sources(streams, routings, |rings|) && 0 < len <= capacity && len < TWO32
    requires pos < len && 0 < f <= len
    modifies streams
    ensures SentByFirst(streams, rings, routings, capacity, len, pos, globalSac, f, up, old(Numbers(streams)), sent, |streams|)
    ensures CountOn(streams, f, old(Numbers(streams)), Numbers(streams))
  {
    sent := [];
    ghost var nums := Numbers(streams);
    var k := 0;
    while k < |streams|
      invariant 0 <= k <= |streams| && CountedFirst(streams, f, nums, k)
      invariant SentByFirst(streams, rings, routings, capacity, len, pos, globalSac, f, up, nums, sent, k)
    {
      var ps := SendNext(streams, rings, routings, capacity, len, pos, globalSac, f, up, nums, k);
      SentOn(streams, rings, routings, capacity, len, pos, globalSac, f, up, nums, sent, k, ps);
      sent := sent + [ps];
      k := k + 1;
    }
  }

  method SendNext(streams: seq<SourceStream>, rings: seq<Ring>, routings: seq<seq<nat>>, capacity: nat, len: nat, pos: nat,
                  globalSac: U64, f: U32, up: bool, ghost nums: seq<U16>, k: nat)
    returns (ps: seq<Packet>)
    requires Uniform(rings, capacity) && Sources(streams, routings, |rings|) && 0 < len <= capacity && len < TWO32
    requires pos < len && 0 < f <= len && k < |streams| && CountedFirst(streams, f, nums, k)
    modifies streams[k]
    ensures CountedFirst(streams, f, nums, k + 1)
    ensures ps == SentOf(streams[k], rings, routings[k], capacity, len, pos, globalSac, f, up, nums[k])
  {
    ps := Send(streams[k], rings, routings[k], capacity, len, pos, globalSac, f, up);
  }

  method Send(stream: SourceStream, rings: seq<Ring>, routing: seq<nat>, capacity: nat, len: nat, pos: nat,
              globalSac: U64, f: U32, up: bool)
    returns (sent: seq<Packet>)
    requires Uniform(rings, capacity) && Routes(routing, |rings|) && 0 < len <= capacity && len < TWO32
    requires pos < len && 0 < f <= len && stream.maxSamples > 0
    modifies stream`outgoingSeqNum
    ensures sent == SentOf(stream, rings, routing, capacity, len, pos, globalSac, f, up, old(stream.outgoingSeqNum))
    ensures stream.outgoingSeqNum == NumberAfter(stream.maxSamples, f, old(stream.outgoingSeqNum))
  {
    var sac := W64(globalSac - f);
    OffsetInRing(pos, globalSac, f, len);
    var off := LiveOutOffset(pos, globalSac, f, sac, len);
    ghost var c := Cursor(f, off, sac, stream.outgoingSeqNum);
    var legSent;
    sent, legSent := SendPackets(stream, null, Routed(rings, routing), [], capacity, len, off, f, sac, up, false);
    EndNumber(stream.On(Routed(rings, routing), capacity, len, stream.maxSamples), c);
  }

  lemma OffsetInRing(pos: nat, globalSac: U64, f: U32, len: U32)
    requires 0 < f && pos < len
    ensures 0 <= LiveOutOffset(pos, globalSac, f, W64(globalSac - f), len) < len
  {
    SentFromPosition(pos, globalSac, f, len);
  }

  method Play(p: Playback, ghost was: seq<Ring>, dma: seq<Byte>, f: nat)
    requires p.Valid() && p.pos + f <= p.len && |dma| == p.len * p.FrameBytes() && was == Contents(p.rings)
    modifies p`pos, p`dmaOffset, p.rings
    ensures p.Valid() && p.pos == Wrap(old(p.pos), f, p.len) && old(p.dmaOffset) <= |dma|
    ensures Plays(was, Contents(p.rings), old(p.pos), p.capacity, dma[old(p.dmaOffset)..], f, p.format)
  {
    p.Interrupt(dma, f);
  }

  // -- Runs of the tick

  function GeometryOf(p: Playback, f: nat): Geometry { Geometry(p.capacity, p.len, f, p.format) }

  lemma TraceExtends(g: Geometry, states: seq<seq<Ring>>, input: seq<seq<Byte>>, next: seq<Ring>, src: seq<Byte>)
    requires ValidGeometry(g) && Trace(g, states, input)
    requires Plays(states[|input|], next, PosAt(g, |input|), g.capacity, src, g.frame, g.format)
    ensures Trace(g, states + [next], input + [src])
  {}

  /** What a tick is given: the ALSA buffer, the sample count and the state of the link. */
  datatype Feed = Feed(dma: seq<Byte>, count: U64, up: bool)

  /** What one stream put on the network at tick j, given the rings the tick found. */
  ghost predicate SentAt(stream: SourceStream, g: Geometry, rings: seq<Ring>, routing: seq<nat>, m: nat, j: nat, count: U64,
                         up: bool, seqNum: U16, sent: seq<Packet>)
  {
    && ValidGeometry(g) && g.len < TWO32 && g.frame <= count && |rings| == m && Uniform(rings, g.capacity)
    && Routes(routing, m) && stream.maxSamples > 0
    && var c := Cursor(g.frame, PosAt(g, j), W64(count - g.frame), seqNum);
       sent == if up then Packets(SourceOf(stream, rings, routing, g.capacity, g.len), c) else []
  }

  ghost predicate AllSentAt(streams: seq<SourceStream>, g: Geometry, rings: seq<Ring>, routings: seq<seq<nat>>, m: nat, j: nat,
                            feed: Feed, nums: seq<U16>, sent: seq<seq<Packet>>)
  {
    && |routings| == |nums| == |sent| == |streams|
    && forall u :: 0 <= u < |streams| ==> SentAt(streams[u], g, rings, routings[u], m, j, feed.count, feed.up, nums[u], sent[u])
  }

  /** Past the first frame a stream sends from the ring position. */
  lemma SentFromPos(stream: SourceStream, rings: seq<Ring>, routing: seq<nat>, capacity: nat, len: nat, pos: nat,
                    globalSac: U64, f: U32, up: bool, seqNum: U16, sac: U64)
    requires Uniform(rings, capacity) && Routes(routing, |rings|) && 0 < len <= capacity && len < TWO32
    requires pos < len && 0 < f <= len && stream.maxSamples > 0 && f <= globalSac && sac == W64(globalSac - f)
    ensures SentOf(stream, rings, routing, capacity, len, pos, globalSac, f, up, seqNum)
            == if up then Packets(SourceOf(stream, rings, routing, capacity, len), Cursor(f, pos, sac, seqNum)) else []
  {
    SentFromPosition(pos, globalSac, f, len);
  }

  lemma SentOfAt(stream: SourceStream, g: Geometry, rings: seq<Ring>, routing: seq<nat>, m: nat, k: nat, count: U64, f: U32,
                 up: bool, seqNum: U16, sent: seq<Packet>)
    requires ValidGeometry(g) && g.len < TWO32 && f == g.frame <= count && |rings| == m && Uniform(rings, g.capacity)
    requires Routes(routing, m) && stream.maxSamples > 0
    requires sent == SentOf(stream, rings, routing, g.capacity, g.len, PosAt(g, k), count, f, up, seqNum)
    ensures SentAt(stream, g, rings, routing, m, k, count, up, seqNum, sent)
  {
    SentFromPos(stream, rings, routing, g.capacity, g.len, PosAt(g, k), count, f, up, seqNum, W64(count - f));
  }

  method TickOnce(streams: seq<SourceStream>, p: Playback, routings: seq<seq<nat>>, feed: Feed, f: U32, ghost g: Geometry,
                  ghost k: nat)
    returns (sent: seq<seq<Packet>>)
    requires p.Valid() && 0 < f && g == GeometryOf(p, f) && ValidGeometry(g) && p.len < TWO32
    requires |feed.dma| == p.len * p.FrameBytes() && f <= feed.count && Sources(streams, routings, |p.rings|)
    requires p.pos == PosAt(g, k)
    modifies streams, p`pos, p`dmaOffset, p.rings
    ensures p.Valid() && p.pos == PosAt(g, k + 1) && old(p.dmaOffset) <= |feed.dma|
    ensures Plays(old(Contents(p.rings)), Contents(p.rings), PosAt(g, k), g.capacity, feed.dma[old(p.dmaOffset)..], g.frame,
                  g.format)
    ensures AllSentAt(streams, g, old(Contents(p.rings)), routings, |p.rings|, k, feed, old(Numbers(streams)), sent)
    ensures CountOn(streams, f, old(Numbers(streams)), Numbers(streams))
  {
    PosAligned(g, k);
    ghost var was, nums := Contents(p.rings), Numbers(streams);
    sent := AudioFrameTIC(streams, p, routings, feed.dma, feed.count, f, feed.up, true);
    forall u | 0 <= u < |streams|
      ensures SentAt(streams[u], g, was, routings[u], |p.rings|, k, feed.count, feed.up, nums[u], sent[u])
    {
      SentOfAt(streams[u], g, was, routings[u], |p.rings|, k, feed.count, f, feed.up, nums[u], sent[u]);
    }
  }

  /** A run so far: the rings and, by stream, the next sequence numbers before each tick and after the
      last, and for each tick the frame the ALSA buffer delivered and, by stream, the packets sent. */
  datatype History = History(states: seq<seq<Ring>>, input: seq<seq<Byte>>, seqs: seq<seq<U16>>, sent: seq<seq<seq<Packet>>>)

  ghost predicate Ran(streams: seq<SourceStream>, g: Geometry, routings: seq<seq<nat>>, m: nat, feeds: seq<Feed>, h: History)
  {
    && ValidGeometry(g) && Trace(g, h.states, h.input) && |h.sent| == |h.input| <= |feeds|
    && Counted(streams, g.frame, h.seqs) && |h.seqs| == |h.input| + 1
    && forall j :: 0 <= j < |h.sent| ==>
         AllSentAt(streams, g, h.states[j], routings, m, j, feeds[j], h.seqs[j], h.sent[j])
  }

  /** The numbers go on from each tick to the next. */
  ghost predicate Counted(streams: seq<SourceStream>, f: nat, seqs: seq<seq<U16>>)
  {
    forall j, k :: 0 <= j < |seqs| && 0 <= k < |seqs| && k == j + 1 ==> CountOn(streams, f, seqs[j], seqs[k])
  }

  function Extend(h: History, next: seq<Ring>, src: seq<Byte>, nums: seq<U16>, ps: seq<seq<Packet>>): History
  {
    History(h.states + [next], h.input + [src], h.seqs + [nums], h.sent + [ps])
  }

  lemma RanOn(streams: seq<SourceStream>, g: Geometry, routings: seq<seq<nat>>, m: nat, feeds: seq<Feed>, h: History,
              next: seq<Ring>, src: seq<Byte>, nums: seq<U16>, ps: seq<seq<Packet>>)
    requires Ran(streams, g, routings, m, feeds, h) && |h.sent| < |feeds|
    requires Plays(h.states[|h.input|], next, PosAt(g, |h.input|), g.capacity, src, g.frame, g.format)
    requires AllSentAt(streams, g, h.states[|h.sent|], routings, m, |h.sent|, feeds[|h.sent|], h.seqs[|h.sent|], ps)
    requires CountOn(streams, g.frame, h.seqs[|h.sent|], nums)
    ensures Ran(streams, g, routings, m, feeds, Extend(h, next, src, nums, ps))
  {
    TraceExtends(g, h.states, h.input, next, src);
    CountedOn(streams, g.frame, h.seqs, nums);
  }

  lemma CountedOn(streams: seq<SourceStream>, f: nat, seqs: seq<seq<U16>>, nums: seq<U16>)
    requires Counted(streams, f, seqs) && |seqs| > 0 && CountOn(streams, f, seqs[|seqs| - 1], nums)
    ensures Counted(streams, f, seqs + [nums])
  {}

  /** The number of stream u before tick j, n packets to a frame. */
  lemma {:induction false} NumberBefore(streams: seq<SourceStream>, f: nat, seqs: seq<seq<U16>>, j: nat, u: nat, n: nat, x: nat)
    requires Counted(streams, f, seqs) && 0 < j < |seqs| && u < |streams| && streams[u].maxSamples > 0
    requires n == PacketsIn(streams[u].maxSamples, f) && x == j * n
    ensures |seqs[0]| == |seqs[j]| == |streams| && seqs[j][u] == W16(seqs[0][u] + x)
  {
    assert CountOn(streams, f, seqs[j - 1], seqs[j]);
    if j > 1 {
      Arith.MulDist(j - 1, 1, n);
      NumberBefore(streams, f, seqs, j - 1, u, n, x - n);
      SeqSum(seqs[0][u], x - n, n);
    }
  }

  lemma SeqSum(a: U16, x: int, n: int)
    ensures W16(W16(a + x) + n) == W16(a + x + n)
  {}

  /** Over a whole run the sequence numbers of a stream are consecutive modulo 2^16: packet i of tick j has
      the first number plus j frames of n packets plus i. */
  lemma NumbersConsecutive(streams: seq<SourceStream>, g: Geometry, routings: seq<seq<nat>>, m: nat, feeds: seq<Feed>,
                           h: History, j: nat, u: nat, i: nat, n: nat, x: nat)
    requires Ran(streams, g, routings, m, feeds, h) && j < |h.sent| && u < |streams| && streams[u].maxSamples > 0
    requires n == PacketsIn(streams[u].maxSamples, g.frame) && x == j * n && i < n
    ensures |h.seqs[0]| == |h.sent[j]| == |streams| && |h.sent[j][u]| == if feeds[j].up then n else 0
    ensures feeds[j].up ==> h.sent[j][u][i].seqNum == W16(h.seqs[0][u] + x + i)
  {
    SentAtTick(streams, g, routings, m, feeds, h, j, u);
    NumberAtTick(streams, g.frame, h.seqs, j, u, n, x);
    NumbersOfTick(streams[u], g, h.states[j], routings[u], m, j, feeds[j].count, feeds[j].up, h.seqs[j][u], h.sent[j][u], i, n,
                  h.seqs[0][u], x);
  }

  lemma SentAtTick(streams: seq<SourceStream>, g: Geometry, routings: seq<seq<nat>>, m: nat, feeds: seq<Feed>, h: History,
                   j: nat, u: nat)
    requires Ran(streams, g, routings, m, feeds, h) && j < |h.sent| && u < |streams|
    ensures |h.seqs[0]| == |h.seqs[j]| == |h.sent[j]| == |routings| == |streams|
    ensures SentAt(streams[u], g, h.states[j], routings[u], m, j, feeds[j].count, feeds[j].up, h.seqs[j][u], h.sent[j][u])
  {
    assert AllSentAt(streams, g, h.states[0], routings, m, 0, feeds[0], h.seqs[0], h.sent[0]);
    assert AllSentAt(streams, g, h.states[j], routings, m, j, feeds[j], h.seqs[j], h.sent[j]);
  }

  lemma NumberAtTick(streams: seq<SourceStream>, f: nat, seqs: seq<seq<U16>>, j: nat, u: nat, n: nat, x: nat)
    requires Counted(streams, f, seqs) && j < |seqs| && u < |streams| == |seqs[0]| == |seqs[j]| && streams[u].maxSamples > 0
    requires n == PacketsIn(streams[u].maxSamples, f) && x == j * n
    ensures seqs[j][u] == W16(seqs[0][u] + x)
  {
    if j > 0 {
      NumberBefore(streams, f, seqs, j, u, n, x);
    } else {
      SmallSeq(seqs[0][u]);
    }
  }

  lemma NumbersOfTick(stream: SourceStream, g: Geometry, rings: seq<Ring>, routing: seq<nat>, m: nat, j: nat, count: U64,
                      up: bool, seqNum: U16, sent: seq<Packet>, i: nat, n: nat, first: U16, x: nat)
    requires SentAt(stream, g, rings, routing, m, j, count, up, seqNum, sent) && seqNum == W16(first + x)
    requires n == PacketsIn(stream.maxSamples, g.frame) && i < n
    ensures |sent| == (if up then n else 0) && (up ==> sent[i].seqNum == W16(first + x + i))
  {
    var s := SourceOf(stream, rings, routing, g.capacity, g.len);
    var c := Cursor(g.frame, PosAt(g, j), W64(count - g.frame), seqNum);
    PacketsInFrame(s, c);
    if up {
      NumberOf(s, c, i);
      SeqSum(first, x, i);
    }
  }

  /** A frame that tick k played is what tick j, one ring length later, has sent. */
  lemma SentAtDelays(stream: SourceStream, g: Geometry, routing: seq<nat>, m: nat, states: seq<seq<Ring>>,
                     input: seq<seq<Byte>>, k: nat, j: nat, delay: nat, count: U64, seqNum: U16, sent: seq<Packet>)
    requires ValidGeometry(g) && Trace(g, states, input) && delay == g.len / g.frame && j == k + delay && j < |states|
    requires delay > 0 && SentAt(stream, g, states[j], routing, m, j, count, true, seqNum, sent)
    ensures CarriesFrame(stream, g, routing, m, input[k], sent)
  {
    var s := SourceOf(stream, states[j], routing, g.capacity, g.len);
    var c := Cursor(g.frame, PosAt(g, j), W64(count - g.frame), seqNum);
    ReturnedFrameIsSent(g, states, input, k, delay, states[j], routing, stream.layout, stream.big, s, c);
  }

  lemma DelayPositive(g: Geometry)
    requires ValidGeometry(g)
    ensures g.len / g.frame > 0
  {
    Arith.DivModOf(g.len, g.frame);
    if g.len / g.frame <= 0 { Arith.MulMono(g.len / g.frame, 0, g.frame); }
  }

  /** The packets of a stream carry the routed channels of the frame src, one after the other. */
  ghost predicate CarriesFrame(stream: SourceStream, g: Geometry, routing: seq<nat>, m: nat, src: seq<Byte>, sent: seq<Packet>)
  {
    && Carries(src, g.frame, m, Stride(g.format)) && Routes(routing, m)
    && Payloads(sent) == OnTheWire(g, src, routing, m, stream.layout, stream.big)
  }

  ghost predicate AllCarry(streams: seq<SourceStream>, g: Geometry, routings: seq<seq<nat>>, m: nat, src: seq<Byte>,
                           sent: seq<seq<Packet>>)
  {
    && |routings| == |sent| == |streams|
    && forall u :: 0 <= u < |streams| ==> CarriesFrame(streams[u], g, routings[u], m, src, sent[u])
  }

  /** Every tick past the first ring length, with the link up, has sent on every stream the frame of one
      ring length before. */
  ghost predicate Delayed(streams: seq<SourceStream>, g: Geometry, routings: seq<seq<nat>>, m: nat, feeds: seq<Feed>,
                          h: History, delay: nat)
    requires |h.sent| <= |feeds|
  {
    forall k, j :: 0 <= k < |h.input| && 0 <= j < |h.sent| && j == k + delay && feeds[j].up ==>
      AllCarry(streams, g, routings, m, h.input[k], h.sent[j])
  }

  lemma TickCarries(streams: seq<SourceStream>, g: Geometry, routings: seq<seq<nat>>, m: nat, feeds: seq<Feed>, h: History,
                    delay: nat, k: nat, j: nat)
    requires Ran(streams, g, routings, m, feeds, h) && delay == g.len / g.frame && delay > 0
    requires j == k + delay && j < |h.sent| && feeds[j].up
    ensures AllCarry(streams, g, routings, m, h.input[k], h.sent[j])
  {
    assert AllSentAt(streams, g, h.states[j], routings, m, j, feeds[j], h.seqs[j], h.sent[j]);
    forall u | 0 <= u < |streams| ensures CarriesFrame(streams[u], g, routings[u], m, h.input[k], h.sent[j][u]) {
      SentAtDelays(streams[u], g, routings[u], m, h.states, h.input, k, j, delay, feeds[j].count, h.seqs[j][u], h.sent[j][u]);
    }
  }

  lemma RanDelays(streams: seq<SourceStream>, g: Geometry, routings: seq<seq<nat>>, m: nat, feeds: seq<Feed>, h: History,
                  delay: nat)
    requires Ran(streams, g, routings, m, feeds, h) && delay == g.len / g.frame
    ensures Delayed(streams, g, routings, m, feeds, h, delay)
  {
    DelayPositive(g);
    forall k, j | 0 <= k < |h.input| && 0 <= j < |h.sent| && j == k + delay && feeds[j].up
      ensures AllCarry(streams, g, routings, m, h.input[k], h.sent[j])
    {
      TickCarries(streams, g, routings, m, feeds, h, delay, k, j);
    }
  }

  /** The frame of tick k was taken from the ALSA buffer at the ring position of that tick. */
  ghost predicate TakenFrom(h: History, feeds: seq<Feed>, g: Geometry, b: nat)
    requires ValidGeometry(g)
  {
    |h.input| <= |feeds| && forall i :: 0 <= i < |h.input| ==> IsSlice(h.input[i], feeds[i].dma, PosAt(g, i) * b)
  }

  /** s is what buffer holds from offset on. */
  ghost predicate IsSlice(s: seq<Byte>, buffer: seq<Byte>, offset: int)
  {
    0 <= offset <= |buffer| && s == buffer[offset..]
  }

  /** A playback substream in the middle of a run. */
  ghost predicate Going(streams: seq<SourceStream>, p: Playback, g: Geometry, routings: seq<seq<nat>>, feeds: seq<Feed>,
                        h: History)
    reads p, p.rings, streams
  {
    && p.Valid() && Ran(streams, g, routings, |p.rings|, feeds, h) && p.pos == PosAt(g, |h.input|)
    && h.states[|h.input|] == Contents(p.rings) && h.seqs[|h.input|] == Numbers(streams)
    && TakenFrom(h, feeds, g, p.FrameBytes())
  }

  /** Each tick has a whole ALSA buffer and a count past the first frame. */
  ghost predicate Supply(p: Playback, f: U32, feeds: seq<Feed>)
  {
    forall k :: 0 <= k < |feeds| ==> |feeds[k].dma| == p.len * p.FrameBytes() && f <= feeds[k].count
  }

  method TickNext(streams: seq<SourceStream>, p: Playback, routings: seq<seq<nat>>, feeds: seq<Feed>, f: U32,
                  ghost g: Geometry, k: nat, ghost h: History)
    returns (ps: seq<seq<Packet>>, ghost h': History)
    requires g == GeometryOf(p, f) && Going(streams, p, g, routings, feeds, h) && p.len < TWO32
    requires Supply(p, f, feeds) && k == |h.input| < |feeds| && Sources(streams, routings, |p.rings|)
    modifies streams, p`pos, p`dmaOffset, p.rings
    ensures Going(streams, p, g, routings, feeds, h') && |h'.input| == k + 1 && h'.sent == h.sent + [ps]
    ensures h'.states[0] == h.states[0] && h'.seqs[0] == h.seqs[0]
  {
    ghost var offset := p.dmaOffset;
    ps := TickOnce(streams, p, routings, feeds[k], f, g, k);
    ghost var src := feeds[k].dma[offset..];
    RanOn(streams, g, routings, |p.rings|, feeds, h, Contents(p.rings), src, Numbers(streams), ps);
    h' := Extend(h, Contents(p.rings), src, Numbers(streams), ps);
    TakenOn(h, h', feeds, g, p.FrameBytes(), src, k);
  }

  lemma TakenOn(h: History, h': History, feeds: seq<Feed>, g: Geometry, b: nat, src: seq<Byte>, k: nat)
    requires ValidGeometry(g) && TakenFrom(h, feeds, g, b) && k == |h.input| < |feeds| && h'.input == h.input + [src]
    requires IsSlice(src, feeds[k].dma, PosAt(g, k) * b)
    ensures TakenFrom(h', feeds, g, b)
  {}

  /** The delay line on the objects: ticks from prepare on, while I/O runs, with any number of sources and
      the link going up and down. Whatever the ALSA buffer holds at each tick, the packets that tick j
      sends carry the frame it delivered at tick j - L/F. */
  method TickRun(streams: seq<SourceStream>, p: Playback, routings: seq<seq<nat>>, feeds: seq<Feed>, f: U32,
                 ghost g: Geometry, ghost delay: nat)
    returns (sent: seq<seq<seq<Packet>>>, ghost h: History)
    requires p.Valid() && p.pos == 0 && g == GeometryOf(p, f) && ValidGeometry(g) && p.len < TWO32 && delay == p.len / f
    requires Supply(p, f, feeds) && Sources(streams, routings, |p.rings|)
    modifies streams, p`pos, p`dmaOffset, p.rings
    ensures h.sent == sent && |h.sent| == |h.input| == |feeds|
    ensures p.Valid() && Ran(streams, g, routings, |p.rings|, feeds, h) && TakenFrom(h, feeds, g, p.FrameBytes())
    ensures h.states[0] == old(Contents(p.rings)) && h.states[|feeds|] == Contents(p.rings)
    ensures h.seqs[0] == old(Numbers(streams)) && h.seqs[|feeds|] == Numbers(streams)
    ensures Delayed(streams, g, routings, |p.rings|, feeds, h, delay)
  {
    sent := [];
    h := History([Contents(p.rings)], [], [Numbers(streams)], []);
    var k := 0;
    while k < |feeds|
      invariant 0 <= k <= |feeds| && |h.input| == k && h.sent == sent
      invariant Going(streams, p, g, routings, feeds, h)
      invariant h.states[0] == old(Contents(p.rings)) && h.seqs[0] == old(Numbers(streams))
    {
      var ps;
      ps, h := TickNext(streams, p, routings, feeds, f, g, k, h);
      sent := sent + [ps];
      k := k + 1;
    }
    RanDelays(streams, g, routings, |p.rings|, feeds, h, delay);
  }
}
