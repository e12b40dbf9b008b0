/** The ST 2022-7 merge on the objects: two attached sinks share their rings, and each takes in the packets
    of the same frame from its own NIC. */
module MergedDelivery {
  import opened CInt
  import opened Rings
  import opened Timestamp
  import opened Convert
  import opened Packetise
  import opened RtpReceive
  import opened Transport
  import opened AudioTick
  import opened EndToEnd
  import Arith

  // -- Progress of one leg

  /** The leg has received k packets of the frame, x samples; before the first one its mark is the one it
      started with. */
  ghost predicate LegAt(s: SinkStream, t: Sender, c: Cursor, base: U64, ssrc: U32, start: U64, k: nat, x: nat)
    requires ValidSender(t) && ValidCursor(t.source, c)
    reads s
  {
    Listens(s, t, ssrc) && Reached(t.source, c, k, x) && s.received.last == if k == 0 then start else base + x
  }

  /** Samples in the first packet. */
  function FirstSize(s: Source, c: Cursor): int { Min(s.maxSamples, c.remaining) }

  /** Packets received and samples received go together. */
  lemma ProgressOrdered(s: Source, c: Cursor, k: nat, x: nat, n: nat, k': nat, x': nat)
    requires ValidSource(s) && ValidCursor(s, c) && Reached(s, c, k, x) && CutAt(s, c, k, x, n) && Reached(s, c, k', x')
    ensures if k' <= k then x' <= x else x + n <= x'
    ensures n > 0 && FirstSize(s, c) <= x + n
  {
    BeginIs(s, k');
    BeginIs(s, k);
    PacketIsAfter(s, c, k, x);
    PacketCount(s, c);
    if k' <= k {
      Arith.MulMono(k', k, s.maxSamples);
    } else {
      Arith.MulMono(k + 1, k', s.maxSamples);
      Arith.MulDist(k, 1, s.maxSamples);
    }
    if k > 0 { Arith.MulAtLeast(k, s.maxSamples); } else { assert 0 * s.maxSamples == 0; }
  }

  /** The next packet of a leg is copied exactly when the other leg has not got as far. */
  lemma CopiedWhenAhead(s: Source, c: Cursor, base: nat, k: nat, x: nat, n: nat, k': nat, x': nat, start: U64, last: U64)
    requires ValidSource(s) && ValidCursor(s, c) && Reached(s, c, k, x) && CutAt(s, c, k, x, n) && Reached(s, c, k', x')
    requires last == (if k' == 0 then start else base + x') && start < base + FirstSize(s, c)
    ensures last < base + x + n <==> k' <= k
    ensures if k' <= k then x' <= x else x + n <= x'
  {
    ProgressOrdered(s, c, k, x, n, k', x');
  }

  // -- The pair

  /** Two attached sinks on the same rings, set up for the same stream; neither starts ahead of the first
      packet. */
  ghost predicate Paired(t: Sender, c: Cursor, base: U64, b0: nat, a: SinkStream, b: SinkStream, len: nat,
                         start1: U64, start2: U64)
    reads a`attached, b`attached
  {
    && Bound(t, c, base, b0, a, len) && Bound(t, c, base, b0, b, len) && a != b
    && a.attached == b && b.attached == a && a.rings == b.rings && a.format.big == b.format.big
    && start1 < base + FirstSize(t.source, c) && start2 < base + FirstSize(t.source, c)
  }

  /** The rings hold what either leg has received. */
  ghost predicate Merged(t: Sender, c: Cursor, b0: nat, a: SinkStream, len: nat, x: nat)
    reads a, a.rings
    requires ValidSender(t) && ValidCursor(t.source, c) && x <= c.remaining <= len && b0 < len
  {
    Roomy(Contents(a.rings), |t.rings|, len) && Stored(t, c, Contents(a.rings), b0, len, a.format.big, 0, x)
  }

  /** What the next packet on leg s does to the rings while the other leg, o, stands at (k', x'). */
  method ReceiveOn(p: Packet, ghost t: Sender, ghost c: Cursor, ghost base: U64, ghost b0: nat, s: SinkStream,
                   ghost o: SinkStream, ssrc: U32, ghost start': U64, ghost k: nat, ghost x: nat, ghost n: nat,
                   ghost k': nat, ghost x': nat, globalSac: U64, len: nat)
    requires Bound(t, c, base, b0, s, len) && Listens(s, t, ssrc) && s.attached == o
    requires CutAt(t.source, c, k, x, n) && p == Packets(t.source, c)[k] && x + n <= c.remaining
    requires Reached(t.source, c, k, x) && Reached(t.source, c, k', x') && start' < base + FirstSize(t.source, c)
    requires o.received.last == (if k' == 0 then start' else base + x') && Abs(c.sac + x - globalSac) <= RADIUS
    modifies s`received, s.rings
    ensures s.received == Received(Known(ssrc), p.seqNum, base + x + n)
    ensures k' <= k ==> x' <= x && AfterPacket(old(Contents(s.rings)), Contents(s.rings), Wrap(b0, x, len), len, p.payload, n,
                                               t.layout, s.format.big)
    ensures k' > k ==> x + n <= x' && Contents(s.rings) == old(Contents(s.rings))
  {
    CopiedWhenAhead(t.source, c, base, k, x, n, k', x', start', o.received.last);
    FirstPlace(base, x, len);
    ReceivePacket(p, t, c, k, x, n, c.sac + x, base + x, Wrap(b0, x, len), s, ssrc, globalSac, len);
  }

  /** One leg, s, receives its next packet; the rings then hold what either leg has delivered. */
  method DeliverOn(p: Packet, ghost t: Sender, ghost c: Cursor, ghost base: U64, ghost b0: nat, s: SinkStream,
                   ghost o: SinkStream, ssrc: U32, ghost start: U64, ghost start': U64, ghost k: nat, ghost x: nat,
                   ghost n: nat, ghost k': nat, ghost x': nat, globalSac: U64, len: nat)
    requires Paired(t, c, base, b0, s, o, len, start, start') && CutAt(t.source, c, k, x, n) && p == Packets(t.source, c)[k]
    requires LegAt(s, t, c, base, ssrc, start, k, x) && Reached(t.source, c, k', x')
    requires o.received.last == (if k' == 0 then start' else base + x') && Abs(c.sac + x - globalSac) <= RADIUS
    requires x + n <= c.remaining && n > 0 && Merged(t, c, b0, s, len, Max(x, x'))
    modifies s`received, s.rings
    ensures s.received == Received(Known(ssrc), p.seqNum, base + x + n)
    ensures Merged(t, c, b0, s, len, Max(x + n, x'))
  {
    ghost var was := Contents(s.rings);
    PacketBears(t, c, k, x, n, p, s.format.big);
    ReceiveOn(p, t, c, base, b0, s, o, ssrc, start', k, x, n, k', x', globalSac, len);
    if k' <= k {
      StoredGrows(t, c, x, n, p.payload, was, Contents(s.rings), b0, len, s.format.big);
    }
  }

  /** How far the two legs are: packets and samples of each. */
  datatype Progress = Progress(k1: nat, x1: nat, k2: nat, x2: nat)

  ghost predicate Merging(t: Sender, c: Cursor, base: U64, b0: nat, a: SinkStream, b: SinkStream, ssrc1: U32, ssrc2: U32,
                          len: nat, start1: U64, start2: U64, g: Progress)
    reads a, b, a.rings
  {
    && Paired(t, c, base, b0, a, b, len, start1, start2)
    && LegAt(a, t, c, base, ssrc1, start1, g.k1, g.x1) && LegAt(b, t, c, base, ssrc2, start2, g.k2, g.x2)
    && Merged(t, c, b0, a, len, Max(g.x1, g.x2))
  }

  /** The receiver stands within the radius of every packet of the frame. */
  ghost predicate InReach(s: Source, c: Cursor, globalSac: U64)
    requires ValidSource(s) && ValidCursor(s, c)
  {
    forall k :: 0 <= k < |Packets(s, c)| ==> Abs(StartOf(s, c, k) - globalSac) <= RADIUS
  }

  /** The next packet of the first leg, if it has not had all of them. */
  method DeliverFirst(ps: seq<Packet>, ghost t: Sender, ghost c: Cursor, ghost base: U64, ghost b0: nat,
                      a: SinkStream, ghost b: SinkStream, ssrc1: U32, ghost ssrc2: U32, ghost start1: U64, ghost start2: U64,
                      k1: nat, ghost g: Progress, globalSac: U64, len: nat)
    returns (ghost g': Progress)
    requires Merging(t, c, base, b0, a, b, ssrc1, ssrc2, len, start1, start2, g) && ps == Packets(t.source, c)
    requires k1 == g.k1 < |ps| && InReach(t.source, c, globalSac)
    modifies a`received, a.rings
    ensures Merging(t, c, base, b0, a, b, ssrc1, ssrc2, len, start1, start2, g')
    ensures g'.k1 == k1 + 1 && g'.k2 == g.k2
  {
    ghost var n := NextPacket(t.source, c, g.k1, g.x1);
    DeliverCut(ps[k1], t, c, base, b0, a, b, ssrc1, start1, start2, n, g, globalSac, len);
    g' := g.(k1 := g.k1 + 1, x1 := g.x1 + n);
  }

  /** The same for a packet of n samples. */
  method DeliverCut(p: Packet, ghost t: Sender, ghost c: Cursor, ghost base: U64, ghost b0: nat, a: SinkStream,
                    ghost b: SinkStream, ssrc1: U32, ghost start1: U64, ghost start2: U64, ghost n: nat,
                    ghost g: Progress, globalSac: U64, len: nat)
    requires Paired(t, c, base, b0, a, b, len, start1, start2) && LegAt(a, t, c, base, ssrc1, start1, g.k1, g.x1)
    requires Reached(t.source, c, g.k2, g.x2) && b.received.last == (if g.k2 == 0 then start2 else base + g.x2)
    requires Merged(t, c, b0, a, len, Max(g.x1, g.x2)) && CutAt(t.source, c, g.k1, g.x1, n)
    requires p == Packets(t.source, c)[g.k1] && Reached(t.source, c, g.k1 + 1, g.x1 + n) && n > 0
    requires Abs(c.sac + g.x1 - globalSac) <= RADIUS
    modifies a`received, a.rings
    ensures LegAt(a, t, c, base, ssrc1, start1, g.k1 + 1, g.x1 + n) && Merged(t, c, b0, a, len, Max(g.x1 + n, g.x2))
  {
    DeliverOn(p, t, c, base, b0, a, b, ssrc1, start1, start2, g.k1, g.x1, n, g.k2, g.x2, globalSac, len);
  }

  lemma Exchanged(t: Sender, c: Cursor, base: U64, b0: nat, a: SinkStream, b: SinkStream, ssrc1: U32, ssrc2: U32, len: nat,
                  start1: U64, start2: U64, g: Progress)
    requires Merging(t, c, base, b0, a, b, ssrc1, ssrc2, len, start1, start2, g)
    ensures Merging(t, c, base, b0, b, a, ssrc2, ssrc1, len, start2, start1, Progress(g.k2, g.x2, g.k1, g.x1))
  {}

  /** How many of the first i arrivals are on the given leg. */
  function CountOf(legs: seq<bool>, leg: bool, i: nat): nat
    requires i <= |legs|
  {
    if i == 0 then 0 else CountOf(legs, leg, i - 1) + (if legs[i - 1] == leg then 1 else 0)
  }

  /** After i arrivals each leg has had as many packets as it had arrivals, up to all n of the frame. */
  predicate Delivered(legs: seq<bool>, i: nat, n: nat, k1: nat, k2: nat)
  {
    i <= |legs| && k1 == Min(CountOf(legs, false, i), n) && k2 == Min(CountOf(legs, true, i), n)
  }

  lemma DeliveredOn(legs: seq<bool>, i: nat, n: nat, k1: nat, k2: nat)
    requires i < |legs| && Delivered(legs, i, n, k1, k2)
    ensures Delivered(legs, i + 1, n, if legs[i] then k1 else Min(k1 + 1, n), if legs[i] then Min(k2 + 1, n) else k2)
  {}

  /** An arrival on one of the legs: its next packet, if it has not had all of them. */
  method DeliverEither(ps: seq<Packet>, onSecond: bool, ghost t: Sender, ghost c: Cursor, ghost base: U64, ghost b0: nat,
                       a: SinkStream, b: SinkStream, ssrc1: U32, ssrc2: U32, ghost start1: U64, ghost start2: U64,
                       k1: nat, k2: nat, ghost g: Progress, globalSac: U64, len: nat)
    returns (k1': nat, k2': nat, ghost g': Progress)
    requires Merging(t, c, base, b0, a, b, ssrc1, ssrc2, len, start1, start2, g) && ps == Packets(t.source, c)
    requires k1 == g.k1 <= |ps| && k2 == g.k2 <= |ps| && InReach(t.source, c, globalSac)
    modifies a`received, b`received, a.rings
    ensures Merging(t, c, base, b0, a, b, ssrc1, ssrc2, len, start1, start2, g') && k1' == g'.k1 && k2' == g'.k2
    ensures k1' == if onSecond then k1 else Min(k1 + 1, |ps|)
    ensures k2' == if onSecond then Min(k2 + 1, |ps|) else k2
  {
    k1', k2', g' := k1, k2, g;
    if onSecond && k2 < |ps| {
      Exchanged(t, c, base, b0, a, b, ssrc1, ssrc2, len, start1, start2, g);
      ghost var h := DeliverFirst(ps, t, c, base, b0, b, a, ssrc2, ssrc1, start2, start1, k2,
                                  Progress(g.k2, g.x2, g.k1, g.x1), globalSac, len);
      Exchanged(t, c, base, b0, b, a, ssrc2, ssrc1, len, start2, start1, h);
      k2', g' := k2 + 1, Progress(h.k2, h.x2, h.k1, h.x1);
    } else if !onSecond && k1 < |ps| {
      g' := DeliverFirst(ps, t, c, base, b0, a, b, ssrc1, ssrc2, start1, start2, k1, g, globalSac, len);
      k1' := k1 + 1;
    }
  }

  /** Under every interleaving of the packets of both legs each leg takes in its packets one by one, the
      mark of each is the end of what it has had, and the rings hold all samples that either leg has
      delivered: with n packets on the leg that is ahead, those of the first n packets, and of the whole
      frame once one leg has had every packet. */
  method DeliverMerged(ps: seq<Packet>, legs: seq<bool>, ghost t: Sender, ghost c: Cursor, ghost base: U64, ghost b0: nat,
                       a: SinkStream, b: SinkStream, ssrc1: U32, ssrc2: U32, clock: seq<U64>, len: nat)
    returns (k1: nat, k2: nat, ghost g: Progress)
    requires Paired(t, c, base, b0, a, b, len, a.received.last, b.received.last) && ps == Packets(t.source, c)
    requires Listens(a, t, ssrc1) && Listens(b, t, ssrc2) && |clock| == |legs|
    requires forall i :: 0 <= i < |clock| ==> InReach(t.source, c, clock[i])
    modifies a`received, b`received, a.rings
    ensures Delivered(legs, |legs|, |ps|, k1, k2) && g.k1 == k1 && g.k2 == k2
    ensures Merging(t, c, base, b0, a, b, ssrc1, ssrc2, len, old(a.received.last), old(b.received.last), g)
    ensures CountOf(legs, false, |legs|) >= |ps| || CountOf(legs, true, |legs|) >= |ps| ==>
              forall ch, y :: 0 <= ch < |a.rings| && 0 <= y < c.remaining ==>
                MsbFirst(a.format.big, a.rings[ch][Place(base, y, len)]) == SentSample(t, c, ch, y)
  {
    StartMerging(t, c, base, b0, a, b, ssrc1, ssrc2, len);
    k1, k2, g := MergeAll(ps, legs, t, c, base, b0, a, b, ssrc1, ssrc2, a.received.last, b.received.last, clock, len);
    if k1 == |ps| || k2 == |ps| {
      DoneMerging(ps, t, c, base, b0, a, b, ssrc1, ssrc2, len, old(a.received.last), old(b.received.last), g);
    }
  }

  lemma StartMerging(t: Sender, c: Cursor, base: U64, b0: nat, a: SinkStream, b: SinkStream, ssrc1: U32, ssrc2: U32, len: nat)
    requires Paired(t, c, base, b0, a, b, len, a.received.last, b.received.last)
    requires Listens(a, t, ssrc1) && Listens(b, t, ssrc2)
    ensures Merging(t, c, base, b0, a, b, ssrc1, ssrc2, len, a.received.last, b.received.last, Progress(0, 0, 0, 0))
  {
    FirstPacketReached(t.source, c);
  }

  lemma DoneMerging(ps: seq<Packet>, t: Sender, c: Cursor, base: U64, b0: nat, a: SinkStream, b: SinkStream, ssrc1: U32,
                    ssrc2: U32, len: nat, start1: U64, start2: U64, g: Progress)
    requires Merging(t, c, base, b0, a, b, ssrc1, ssrc2, len, start1, start2, g) && ps == Packets(t.source, c)
    requires g.k1 == |ps| || g.k2 == |ps|
    ensures forall ch, y :: 0 <= ch < |a.rings| && 0 <= y < c.remaining ==>
              MsbFirst(a.format.big, a.rings[ch][Place(base, y, len)]) == SentSample(t, c, ch, y)
  {
    assert Max(g.x1, g.x2) == c.remaining;
    InPlace(t, c, base, b0, a, len);
  }

  method MergeAll(ps: seq<Packet>, legs: seq<bool>, ghost t: Sender, ghost c: Cursor, ghost base: U64, ghost b0: nat,
                  a: SinkStream, b: SinkStream, ssrc1: U32, ssrc2: U32, ghost start1: U64, ghost start2: U64,
                  clock: seq<U64>, len: nat)
    returns (k1: nat, k2: nat, ghost g: Progress)
    requires Merging(t, c, base, b0, a, b, ssrc1, ssrc2, len, start1, start2, Progress(0, 0, 0, 0)) && |clock| == |legs|
    requires ps == Packets(t.source, c) && forall i :: 0 <= i < |clock| ==> InReach(t.source, c, clock[i])
    modifies a`received, b`received, a.rings
    ensures Delivered(legs, |legs|, |ps|, k1, k2) && g.k1 == k1 && g.k2 == k2
    ensures Merging(t, c, base, b0, a, b, ssrc1, ssrc2, len, start1, start2, g)
  {
    k1, k2 := 0, 0;
    g := Progress(0, 0, 0, 0);
    var i := 0;
    while i < |legs|
      invariant 0 <= i <= |legs| && Delivered(legs, i, |ps|, k1, k2) && k1 == g.k1 <= |ps| && k2 == g.k2 <= |ps|
      invariant Merging(t, c, base, b0, a, b, ssrc1, ssrc2, len, start1, start2, g)
    {
      DeliveredOn(legs, i, |ps|, k1, k2);
      k1, k2, g := DeliverEither(ps, legs[i], t, c, base, b0, a, b, ssrc1, ssrc2, start1, start2, k1, k2, g, clock[i], len);
      i := i + 1;
    }
  }

  lemma InPlace(t: Sender, c: Cursor, base: U64, b0: nat, a: SinkStream, len: nat)
    requires Bound(t, c, base, b0, a, len) && |a.rings| == |t.rings| && Merged(t, c, b0, a, len, c.remaining)
    ensures forall ch, y :: 0 <= ch < |a.rings| && 0 <= y < c.remaining ==>
              MsbFirst(a.format.big, a.rings[ch][Place(base, y, len)]) == SentSample(t, c, ch, y)
  {
    forall ch, y | 0 <= ch < |a.rings| && 0 <= y < c.remaining
      ensures MsbFirst(a.format.big, a.rings[ch][Place(base, y, len)]) == SentSample(t, c, ch, y)
    {
      PlaceSteps(base, y, len);
      assert Contents(a.rings)[ch][Wrap(b0, y, len)] == a.rings[ch][Place(base, y, len)];
    }
  }
}
