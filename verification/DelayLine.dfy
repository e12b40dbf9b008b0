/** Playback as a delay line: the tick of driver/manager.c sends the frame at the ring position and
    then lets the playback interrupt overwrite it, so a frame leaves one ring length later. */
module DelayLine {
  import opened CInt
  import opened Rings
  import opened Convert
  import opened Packetise
  import opened AlsaRing
  import Arith

  /** get_live_out_jitter_buffer_offset: pos is the ring position of the playback substream. */
  function LiveOutOffset(pos: nat, globalSac: U64, f: U32, sac: U64, len: U32): int
  {
    var back := W32(globalSac - f - sac);
    if sac > globalSac then 0
    else if back == 0 then pos
    else if back <= pos then pos - back
    else pos + len - back
  }

  /** For the frame a tick sends, the offset is the ring position exactly when the count has passed one
      frame; before that the driver answers 0. */
  lemma SentFromPosition(pos: nat, globalSac: U64, f: U32, len: U32)
    requires f > 0
    ensures LiveOutOffset(pos, globalSac, f, W64(globalSac - f), len) == pos <==> f <= globalSac || pos == 0
  {
    if f <= globalSac {
      assert W64(globalSac - f) == globalSac - f;
    } else {
      assert W64(globalSac - f) == globalSac - f + TWO64;
    }
  }

  /** In the first frame of the count the driver sends from the start of the ring, wherever it plays. */
  lemma FirstFrameSentFromStart(pos: nat, globalSac: U64, f: U32, len: U32)
    requires globalSac < f && pos > 0
    ensures LiveOutOffset(pos, globalSac, f, W64(globalSac - f), len) == 0 != pos
  {
    assert W64(globalSac - f) == globalSac - f + TWO64;
  }

  /** An older count lies behind: stepping on from its offset by its distance leads to the ring position. */
  lemma OlderCountBehind(pos: nat, globalSac: U64, f: U32, sac: U64, len: U32, back: nat)
    requires pos < len && back <= len && sac + back + f == globalSac
    ensures 0 <= LiveOutOffset(pos, globalSac, f, sac, len) < len
    ensures Wrap(LiveOutOffset(pos, globalSac, f, sac, len), back, len) == pos
  {
    assert W32(globalSac - f - sac) == back;
  }

  // -- Runs

  /** Geometry of a playback run: ring capacity and ALSA buffer in frames, frame size, sample format. */
  datatype Geometry = Geometry(capacity: nat, len: nat, frame: nat, format: PcmFormat)

  predicate ValidGeometry(g: Geometry) { 0 < g.frame <= g.len <= g.capacity && g.len % g.frame == 0 }

  /** Ring position at tick k after prepare. */
  function PosAt(g: Geometry, k: nat): (p: nat)
    requires ValidGeometry(g)
    ensures p < g.len
  {
    if k == 0 then 0 else Wrap(PosAt(g, k - 1), g.frame, g.len)
  }

  /** Ring contents over a run: tick k turns states[k] into states[k + 1] by playing input[k]. */
  ghost predicate Trace(g: Geometry, states: seq<seq<Ring>>, input: seq<seq<Byte>>)
    requires ValidGeometry(g)
  {
    && |states| == |input| + 1
    && forall k, k' :: 0 <= k < |states| && 0 <= k' < |states| && k' == k + 1 ==>
         Plays(states[k], states[k'], PosAt(g, k), g.capacity, input[k], g.frame, g.format)
  }

  lemma {:induction false} PosAligned(g: Geometry, k: nat)
    requires ValidGeometry(g)
    ensures PosAt(g, k) % g.frame == 0 && PosAt(g, k) + g.frame <= g.len
  {
    if k > 0 {
      PosAligned(g, k - 1);
      var p := PosAt(g, k - 1) + g.frame;
      Arith.ModAddMultiple(PosAt(g, k - 1), 1, g.frame);
      if p >= g.len { Arith.SmallMod(0, g.frame); }
    } else {
      Arith.SmallMod(0, g.frame);
    }
    Arith.MultiplesApart(PosAt(g, k), g.len, g.frame);
  }

  /** x = d frames after tick k, up to a whole ring. */
  lemma {:induction false} PosAfter(g: Geometry, k: nat, d: nat, x: nat)
    requires ValidGeometry(g) && x == d * g.frame && x <= g.len
    ensures PosAt(g, k + d) == Wrap(PosAt(g, k), x, g.len)
    decreases d
  {
    if d > 0 {
      FramesBefore(d, g.frame, x);
      PosAfter(g, k, d - 1, x - g.frame);
    }
  }

  lemma FramesBefore(d: nat, f: nat, x: nat)
    requires d > 0 && x == d * f
    ensures x - f == (d - 1) * f && 0 <= x - f
  {
    Arith.MulDist(d - 1, 1, f);
    Arith.MulNonNeg(d - 1, f);
  }

  /** The frame at pos holds what was played from src. */
  ghost predicate Holds(g: Geometry, rings: seq<Ring>, pos: nat, src: seq<Byte>)
  {
    && Uniform(rings, g.capacity) && pos + g.frame <= g.capacity && Carries(src, g.frame, |rings|, Stride(g.format))
    && forall c, i :: 0 <= c < |rings| && 0 <= i < g.frame ==>
         rings[c][pos + i] == Played(src, i, g.frame, c, |rings|, g.format)
  }

  lemma PlayHolds(g: Geometry, was: seq<Ring>, now: seq<Ring>, pos: nat, src: seq<Byte>)
    requires ValidGeometry(g) && pos + g.frame <= g.len
    requires Plays(was, now, pos, g.capacity, src, g.frame, g.format)
    ensures Holds(g, now, pos, src)
  {
    forall c, i | 0 <= c < |now| && 0 <= i < g.frame
      ensures now[c][pos + i] == Played(src, i, g.frame, c, |now|, g.format)
    {
      assert Back(pos + i, pos, g.capacity) == i;
    }
  }

  /** Playing another frame leaves this one alone. */
  lemma PlayKeeps(g: Geometry, was: seq<Ring>, now: seq<Ring>, pos: nat, src: seq<Byte>, at: nat, kept: seq<Byte>)
    requires ValidGeometry(g) && pos + g.frame <= g.len && at + g.frame <= g.len
    requires at + g.frame <= pos || pos + g.frame <= at
    requires Plays(was, now, pos, g.capacity, src, g.frame, g.format) && Holds(g, was, at, kept)
    ensures Holds(g, now, at, kept)
  {
    forall c, i | 0 <= c < |now| && 0 <= i < g.frame
      ensures now[c][at + i] == Played(kept, i, g.frame, c, |now|, g.format)
    {
      assert now[c][at + i] == was[c][at + i];
    }
  }

  /** A frame survives until the ring comes round to it. */
  lemma {:induction false} FrameSurvives(g: Geometry, states: seq<seq<Ring>>, input: seq<seq<Byte>>, k: nat, d: nat, x: nat)
    requires ValidGeometry(g) && Trace(g, states, input)
    requires d > 0 && k + d < |states| && x == d * g.frame && x <= g.len
    ensures Holds(g, states[k + d], PosAt(g, k), input[k])
    decreases d
  {
    PosAligned(g, k);
    PosAligned(g, k + d - 1);
    FramesBefore(d, g.frame, x);
    if d == 1 {
      PlayHolds(g, states[k], states[k + 1], PosAt(g, k), input[k]);
    } else {
      FramesBefore(d - 1, g.frame, x - g.frame);
      FrameSurvives(g, states, input, k, d - 1, x - g.frame);
      PosAfter(g, k, d - 1, x - g.frame);
      PlayKeeps(g, states[k + d - 1], states[k + d], PosAt(g, k + d - 1), input[k + d - 1], PosAt(g, k), input[k]);
    }
  }

  /** One ring length after tick k the position is the same and the frame is still there, to be sent
      before the interrupt of that tick replaces it. */
  lemma ReturnsAfterOneRing(g: Geometry, states: seq<seq<Ring>>, input: seq<seq<Byte>>, k: nat, delay: nat)
    requires ValidGeometry(g) && Trace(g, states, input) && delay == g.len / g.frame && k + delay < |states|
    ensures PosAt(g, k + delay) == PosAt(g, k) && Holds(g, states[k + delay], PosAt(g, k), input[k])
  {
    Arith.DivModOf(g.len, g.frame);
    PosAfter(g, k, delay, g.len);
    FrameSurvives(g, states, input, k, delay, g.len);
  }

  // -- What the packets of a tick carry

  /** The rings a stream sends, by channel routing. */
  function Routed(rings: seq<Ring>, routing: seq<nat>): (r: seq<Ring>)
    requires forall u :: 0 <= u < |routing| ==> routing[u] < |rings|
    ensures |r| == |routing| && forall u :: 0 <= u < |r| ==> r[u] == rings[routing[u]]
    decreases |routing|
  {
    if routing == [] then []
    else Routed(rings, routing[..|routing| - 1]) + [rings[routing[|routing| - 1]]]
  }

  /** The first k samples of channel ch in an ALSA frame. */
  function InputRing(src: seq<Byte>, k: nat, n: nat, ch: nat, m: nat, f: PcmFormat): (r: Ring)
    requires k <= n && ch < m && Carries(src, n, m, Stride(f))
    ensures |r| == k && forall i :: 0 <= i < k ==> r[i] == Played(src, i, n, ch, m, f)
  {
    if k == 0 then [] else InputRing(src, k - 1, n, ch, m, f) + [Played(src, k - 1, n, ch, m, f)]
  }

  /** The routed channels of an ALSA frame. */
  function InputRings(src: seq<Byte>, n: nat, routing: seq<nat>, m: nat, f: PcmFormat): (r: seq<Ring>)
    requires Carries(src, n, m, Stride(f)) && forall u :: 0 <= u < |routing| ==> routing[u] < m
    ensures |r| == |routing| && Uniform(r, n)
    ensures forall u :: 0 <= u < |r| ==> r[u] == InputRing(src, n, n, routing[u], m, f)
    decreases |routing|
  {
    if routing == [] then []
    else InputRings(src, n, routing[..|routing| - 1], m, f)
         + [InputRing(src, n, n, routing[|routing| - 1], m, f)]
  }

  /** Ring set a from off on shows the same n samples as ring set b. */
  predicate SameSamples(a: seq<Ring>, capA: nat, off: nat, b: seq<Ring>, n: nat)
  {
    && |a| == |b| && Uniform(a, capA) && Uniform(b, n) && off + n <= capA
    && forall c, i :: 0 <= c < |a| && 0 <= i < n ==> a[c][off + i] == b[c][i]
  }

  lemma {:induction false} SameFrameBytes(a: seq<Ring>, capA: nat, off: nat, b: seq<Ring>, n: nat, i: nat, m: nat,
                                          l: Layout, big: bool)
    requires SameSamples(a, capA, off, b, n) && i < n && m <= |a|
    ensures FrameBytes(a, capA, off + i, m, l, big) == FrameBytes(b, n, i, m, l, big)
    decreases m
  {
    if m > 0 { SameFrameBytes(a, capA, off, b, n, i, m - 1, l, big); }
  }

  lemma SameFrame(a: seq<Ring>, capA: nat, off: nat, b: seq<Ring>, n: nat, i: nat, l: Layout, big: bool)
    requires SameSamples(a, capA, off, b, n) && i < n
    ensures Frames(a, capA, l, big)[off + i] == Frames(b, n, l, big)[i]
  {
    FrameSeqAt(a, capA, capA, l, big, off + i);
    FrameSeqAt(b, n, n, l, big, i);
    SameFrameBytes(a, capA, off, b, n, i, |a|, l, big);
  }

  lemma {:induction false} SameInterleaved(a: seq<Ring>, capA: nat, off: nat, b: seq<Ring>, n: nat, k: nat,
                                           l: Layout, big: bool)
    requires SameSamples(a, capA, off, b, n) && k <= n
    ensures Interleaved(Frames(a, capA, l, big), off, k) == Interleaved(Frames(b, n, l, big), 0, k)
    decreases k
  {
    if k > 0 {
      SameInterleaved(a, capA, off, b, n, k - 1, l, big);
      SameFrame(a, capA, off, b, n, k - 1, l, big);
    }
  }

  lemma HeldSamples(g: Geometry, rings: seq<Ring>, pos: nat, src: seq<Byte>, routing: seq<nat>)
    requires Holds(g, rings, pos, src) && forall u :: 0 <= u < |routing| ==> routing[u] < |rings|
    ensures SameSamples(Routed(rings, routing), g.capacity, pos,
                        InputRings(src, g.frame, routing, |rings|, g.format), g.frame)
  {}

  predicate Routes(routing: seq<nat>, m: nat) { forall u :: 0 <= u < |routing| ==> routing[u] < m }

  /** The payload bytes of the frame that the ALSA buffer delivered as src. */
  function OnTheWire(g: Geometry, src: seq<Byte>, routing: seq<nat>, m: nat, l: Layout, big: bool): seq<Byte>
    requires Carries(src, g.frame, m, Stride(g.format)) && Routes(routing, m)
  {
    Interleaved(Frames(InputRings(src, g.frame, routing, m, g.format), g.frame, l, big), 0, g.frame)
  }

  lemma HeldFrameIsSent(g: Geometry, rings: seq<Ring>, pos: nat, src: seq<Byte>, routing: seq<nat>,
                        l: Layout, big: bool, s: Source, c: Cursor)
    requires ValidGeometry(g) && Holds(g, rings, pos, src) && Routes(routing, |rings|) && pos + g.frame <= g.len
    requires s.frames == Frames(Routed(rings, routing), g.capacity, l, big) && s.len == g.len && s.maxSamples > 0
    requires c.remaining == g.frame && c.offset == pos
    ensures ValidCursor(s, c) && Payloads(Packets(s, c)) == OnTheWire(g, src, routing, |rings|, l, big)
  {
    PayloadsAreTheFrame(s, c);
    BeforeTheEnd(s, pos, g.frame);
    HeldSamples(g, rings, pos, src, routing);
    SameInterleaved(Routed(rings, routing), g.capacity, pos,
                    InputRings(src, g.frame, routing, |rings|, g.format), g.frame, g.frame, l, big);
  }

  /** What is sent from the ring position one ring length later. */
  lemma ReturnedFrameIsSent(g: Geometry, states: seq<seq<Ring>>, input: seq<seq<Byte>>, k: nat, delay: nat,
                            rings: seq<Ring>, routing: seq<nat>, l: Layout, big: bool, s: Source, c: Cursor)
    requires ValidGeometry(g) && Trace(g, states, input) && delay == g.len / g.frame && k + delay < |states|
    requires rings == states[k + delay] && Uniform(rings, g.capacity) && Routes(routing, |rings|)
    requires s.frames == Frames(Routed(rings, routing), g.capacity, l, big) && s.len == g.len && s.maxSamples > 0
    requires c.remaining == g.frame && c.offset == PosAt(g, k + delay)
    ensures Carries(input[k], g.frame, |rings|, Stride(g.format))
    ensures ValidCursor(s, c) && Payloads(Packets(s, c)) == OnTheWire(g, input[k], routing, |rings|, l, big)
  {
    ReturnsAfterOneRing(g, states, input, k, delay);
    PosAligned(g, k);
    HeldFrameIsSent(g, rings, PosAt(g, k), input[k], routing, l, big, s, c);
  }

  /** The exact delay line: the packets sent at tick k plus one ring length carry, one after the other,
      the very frame the ALSA buffer delivered at tick k. */
  lemma SentOneRingLater(g: Geometry, states: seq<seq<Ring>>, input: seq<seq<Byte>>, k: nat, delay: nat,
                         rings: seq<Ring>, routing: seq<nat>, l: Layout, big: bool, s: Source, c: Cursor,
                         globalSac: U64)
    requires ValidGeometry(g) && Trace(g, states, input) && delay == g.len / g.frame && k + delay < |states|
    requires rings == states[k + delay] && Uniform(rings, g.capacity) && Routes(routing, |rings|)
    requires s.frames == Frames(Routed(rings, routing), g.capacity, l, big) && s.len == g.len && s.maxSamples > 0
    requires g.len < TWO32 && g.frame <= globalSac && c.remaining == g.frame
    requires c.offset == LiveOutOffset(PosAt(g, k + delay), globalSac, g.frame, W64(globalSac - g.frame), g.len)
    ensures Carries(input[k], g.frame, |rings|, Stride(g.format))
    ensures ValidCursor(s, c) && Payloads(Packets(s, c)) == OnTheWire(g, input[k], routing, |rings|, l, big)
  {
    SentFromPosition(PosAt(g, k + delay), globalSac, g.frame, g.len);
    ReturnedFrameIsSent(g, states, input, k, delay, rings, routing, l, big, s, c);
  }
}
