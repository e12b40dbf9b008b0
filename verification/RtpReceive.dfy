/** The receive side of driver/RTP_audio_stream.c: ProcessRTPAudioPacket. */
module RtpReceive {
  import opened CInt
  import opened Timestamp
  import opened Convert
  import opened Rings
  import Arith

  /** An RTP packet as dispatched to a sink; the audio starts after skip bytes of CSRC list and
      header extension. */
  datatype RxPacket = RxPacket(version: nat, padding: bool, payloadType: Byte, ssrc: U32, seqNum: U16,
                               timestamp: U32, skip: nat, body: seq<Byte>)

  /** What a sink expects: the stream description of one leg. */
  datatype Format = Format(payloadType: Byte, tsOffset: U32, playOut: U32, layout: Layout, big: bool)

  datatype Ssrc = Unknown | Known(value: U32)

  /** What a sink remembers between packets; last is the end of the newest audio received. */
  datatype Received = Received(ssrc: Ssrc, seqNum: U16, last: U64)

  /** The end of the newest audio of the attached leg, if there is one. */
  datatype Mark = NoLeg | Leg(last: U64)

  datatype Verdict = Rejected | Skipped | Copied(sac: U64)

  /** Frames in a payload of the given size, b bytes each. */
  function FramesIn(bytes: nat, b: nat): nat
    requires b > 0
  {
    Arith.DivAtMost(bytes, b);
    bytes / b
  }

  /** First sample count of a packet on the playout time line. */
  function PlayoutSac(timestamp: U32, tsOffset: U32, globalSac: U64, playOut: U32): U64
  {
    W64(Extend(timestamp, tsOffset, globalSac) + playOut)
  }

  lemma PlayoutExact(sac: U64, tsOffset: U32, globalSac: U64, playOut: U32)
    requires Abs(sac - globalSac) <= RADIUS && sac + playOut < TWO64
    ensures PlayoutSac(OnWire(sac, tsOffset), tsOffset, globalSac, playOut) == sac + playOut
  {
    ExtensionExact(sac, globalSac, tsOffset);
    PlayoutFrom(OnWire(sac, tsOffset), tsOffset, globalSac, playOut, sac);
  }

  lemma PlayoutFrom(timestamp: U32, tsOffset: U32, globalSac: U64, playOut: U32, sac: U64)
    requires Extend(timestamp, tsOffset, globalSac) == sac && sac + playOut < TWO64
    ensures PlayoutSac(timestamp, tsOffset, globalSac, playOut) == sac + playOut
  {}

  /** Whether the audio still has to be copied, given the attached leg. */
  predicate CopyNeeded(other: Mark, end: U64) { other.NoLeg? || other.last < end }

  /** The audio bytes of a packet. */
  function Audio(p: RxPacket): seq<Byte>
    requires p.skip <= |p.body|
  {
    p.body[p.skip..]
  }

  predicate HeaderAccepted(f: Format, r: Received, p: RxPacket)
  {
    !p.padding && p.version == 2 && p.payloadType == f.payloadType && (r.ssrc.Unknown? || r.ssrc.value == p.ssrc)
  }

  /** ProcessRTPAudioPacket without its copies: n is the number of frames in the packet. */
  function Judge(f: Format, r: Received, other: Mark, p: RxPacket, n: nat, globalSac: U64): (Received, Verdict)
  {
    JudgeAt(f, r, other, p, n, PlayoutSac(p.timestamp, f.tsOffset, globalSac, f.playOut))
  }

  /** The same for audio that starts at sac on the playout time line. A packet without audio still fixes
      the SSRC and the sequence number. */
  function JudgeAt(f: Format, r: Received, other: Mark, p: RxPacket, n: nat, sac: U64): (Received, Verdict)
  {
    if !HeaderAccepted(f, r, p) then (r, Rejected)
    else
      var r1 := Received(Known(p.ssrc), p.seqNum, r.last);
      if n == 0 then (r1, Rejected)
      else
        var end := W64(sac + n);
        (r1.(last := end), if CopyNeeded(other, end) then Copied(sac) else Skipped)
  }

  /** A packet with an accepted header whose count sac is within the timestamp radius: its audio lies at
      base = sac + playout delay, and it is copied unless the other leg has got as far. */
  lemma TimelyJudged(f: Format, r: Received, other: Mark, p: RxPacket, n: nat, sac: U64, base: U64, globalSac: U64)
    requires HeaderAccepted(f, r, p) && n > 0 && p.timestamp == OnWire(sac, f.tsOffset)
    requires Abs(sac - globalSac) <= RADIUS && base == sac + f.playOut && base + n < TWO64
    ensures Judge(f, r, other, p, n, globalSac)
            == (Received(Known(p.ssrc), p.seqNum, base + n), if CopyNeeded(other, base + n) then Copied(base) else Skipped)
  {
    PlayoutExact(sac, f.tsOffset, globalSac, f.playOut);
    JudgedAt(f, r, other, p, n, base);
  }

  lemma JudgedAt(f: Format, r: Received, other: Mark, p: RxPacket, n: nat, base: U64)
    requires HeaderAccepted(f, r, p) && n > 0 && base + n < TWO64
    ensures JudgeAt(f, r, other, p, n, base)
            == (Received(Known(p.ssrc), p.seqNum, base + n), if CopyNeeded(other, base + n) then Copied(base) else Skipped)
  {
    assert W64(base + n) == base + n;
  }

  /** Word j of the ring of channel ch after n frames were stored from off on. */
  function RingAfter(old_: Word, j: nat, off: nat, len: nat, payload: seq<Byte>, n: nat, ch: nat, m: nat,
                     l: Layout, big: bool): Word
    requires IsWire(l) && ch < m && Carries(payload, n, m, Width(l)) && off < len
  {
    if j < len && Back(j, off, len) < n then WireSample(payload, Back(j, off, len), n, ch, m, l, big) else old_
  }

  lemma ShiftedSample(payload: seq<Byte>, a: nat, i: nat, n: nat, ch: nat, m: nat, l: Layout, big: bool, cut: nat)
    requires IsWire(l) && a + i < n && ch < m && Carries(payload, n, m, Width(l))
    requires cut == a * (m * Width(l)) && cut <= |payload|
    ensures Carries(payload[cut..], n - a, m, Width(l))
    ensures WireSample(payload[cut..], i, n - a, ch, m, l, big) == WireSample(payload, a + i, n, ch, m, l, big)
  {
    var b := m * Width(l);
    Arith.MulDist(n - a, a, b);
    Arith.MulDist(a, i, b);
    SlotInside(payload, a + i, n, ch, m, Width(l));
    SlotInside(payload[cut..], i, n - a, ch, m, Width(l));
    var p := Slot(i, ch, m, Width(l));
    assert payload[cut..][p..p + Width(l)] == payload[cut + p..cut + p + Width(l)];
  }

  lemma PrefixSample(payload: seq<Byte>, a: nat, i: nat, n: nat, ch: nat, m: nat, l: Layout, big: bool)
    requires IsWire(l) && i < a <= n && ch < m && Carries(payload, n, m, Width(l))
    ensures Carries(payload, a, m, Width(l))
    ensures WireSample(payload, i, a, ch, m, l, big) == WireSample(payload, i, n, ch, m, l, big)
  {
    Arith.MulNonNeg(m, Width(l));
    Arith.MulMono(a, n, m * Width(l));
  }

  /** The two segment copies of ProcessRTPAudioPacket: n frames into every ring from off on,
      wrapping at len. */
  method StoreFrames(payload: seq<Byte>, rings: seq<array<Word>>, off: nat, len: nat, n: nat, l: Layout, big: bool)
    requires IsWire(l) && Carries(payload, n, |rings|, Width(l)) && off < len && n <= len
    requires forall c :: 0 <= c < |rings| ==> len <= rings[c].Length
    modifies rings
    ensures forall c, j :: 0 <= c < |rings| && LastUse(rings, c) && 0 <= j < rings[c].Length ==>
              rings[c][j] == RingAfter(old(rings[c][j]), j, off, len, payload, n, c, |rings|, l, big)
  {
    var len1 := Min(len - off, n);
    var len2 := n - len1;
    Arith.MulNonNeg(|rings|, Width(l));
    Arith.MulNonNeg(len1, |rings| * Width(l));
    Arith.MulMono(len1, n, |rings| * Width(l));
    Arith.MulDist(len1, len2, |rings| * Width(l));
    Deinterleave(payload, rings, off, len1, l, big);
    var cut := len1 * (|rings| * Width(l));
    label first:
    Deinterleave(payload[cut..], rings, 0, len2, l, big);
    forall c, j | 0 <= c < |rings| && LastUse(rings, c) && 0 <= j < rings[c].Length
      ensures rings[c][j] == RingAfter(old(rings[c][j]), j, off, len, payload, n, c, |rings|, l, big)
    {
      if j < len2 {
        ShiftedSample(payload, len1, j, n, c, |rings|, l, big, cut);
      } else if off <= j < off + len1 {
        PrefixSample(payload, len1, j - off, n, c, |rings|, l, big);
      }
    }
  }

  class SinkStream {
    const format: Format
    const rings: seq<array<Word>>
    var received: Received
    var attached: SinkStream?
    var mutedFrames: nat     // consecutive frames muted, up to a whole ring

    /** Create: the SSRC is learnt from the first packet; the mark and the mute counter are those the
        reused stream slot was left with. */
    constructor (format: Format, rings: seq<array<Word>>, last: U64, mutedFrames: nat)
      ensures this.format == format && this.rings == rings && attached == null
      ensures received == Received(Unknown, 0, last) && this.mutedFrames == mutedFrames
    {
      this.format, this.rings, attached, this.mutedFrames := format, rings, null, mutedFrames;
      received := Received(Unknown, 0, last);
    }

    function OtherLeg(): Mark
      reads this, attached
    {
      if attached == null then NoLeg else Leg(attached.received.last)
    }

    predicate WellFormed(p: RxPacket) { p.skip <= |p.body| && IsWire(format.layout) && |rings| > 0 }

    /** Number of frames in a packet. */
    function FrameCount(p: RxPacket): (n: nat)
      requires WellFormed(p)
      ensures Carries(Audio(p), n, |rings|, Width(format.layout))
      ensures |Audio(p)| < (n + 1) * (|rings| * Width(format.layout))
    {
      var b := |rings| * Width(format.layout);
      Arith.MulAtLeast(|rings|, Width(format.layout));
      Arith.DivModOf(|Audio(p)|, b);
      Arith.MulDist(|Audio(p)| / b, 1, b);
      FramesIn(|Audio(p)|, b)
    }

    /** One word of a ring after the verdict on a packet. */
    ghost function WordAfter(v: Verdict, old_: Word, j: nat, len: nat, p: RxPacket, ch: nat): Word
      requires len > 0 && ch < |rings| && WellFormed(p)
    {
      var n := FrameCount(p);
      if v.Copied? then
        Arith.DivModOf(v.sac, len);
        RingAfter(old_, j, v.sac % len, len, Audio(p), n, ch, |rings|, format.layout, format.big)
      else old_
    }

    /** The words of every ring. */
    ghost function Words(): (s: seq<Ring>)
      reads rings
      ensures |s| == |rings| && forall c :: 0 <= c < |s| ==> s[c] == rings[c][..]
    {
      seq(|rings|, c requires 0 <= c < |rings| reads rings => rings[c][..])
    }

    ghost predicate Unchanged(was: seq<Ring>)
      reads rings
      requires |was| == |rings|
    {
      forall c :: 0 <= c < |rings| ==> rings[c][..] == was[c]
    }

    /** ProcessRTPAudioPacket, for a packet that fits the jitter buffer. */
    method ProcessPacket(p: RxPacket, globalSac: U64, len: nat) returns (used: bool)
      requires WellFormed(p) && FrameCount(p) <= len && len > 0
      requires forall c :: 0 <= c < |rings| ==> len <= rings[c].Length
      modifies this`received, rings
      ensures var j := Judge(format, old(received), old(OtherLeg()), p, FrameCount(p), globalSac);
              && received == j.0
              && used == !j.1.Rejected?
              && forall c, k :: 0 <= c < |rings| && LastUse(rings, c) && 0 <= k < rings[c].Length ==>
                   rings[c][k] == WordAfter(j.1, old(rings[c][k]), k, len, p, c)
      ensures used ==> p.version == 2 && !p.padding && p.payloadType == format.payloadType
      ensures used ==> old(received).ssrc == Unknown || old(received).ssrc == Known(p.ssrc)
      ensures p.version == 2 && !p.padding && p.payloadType == format.payloadType
              && (old(received).ssrc == Unknown || old(received).ssrc == Known(p.ssrc)) ==>
                received.ssrc == Known(p.ssrc) && received.seqNum == p.seqNum && (used <==> FrameCount(p) > 0)
      ensures p.version != 2 || p.padding || p.payloadType != format.payloadType
              || (old(received).ssrc.Known? && old(received).ssrc.value != p.ssrc) ==>
                received == old(received) && Unchanged(old(Words()))
      ensures !used ==> received.last == old(received.last) && Unchanged(old(Words()))
    {
      if p.padding || p.version != 2 || p.payloadType != format.payloadType {
        return false;
      }
      if received.ssrc.Known? && received.ssrc.value != p.ssrc {
        return false;
      }
      var other, n := OtherLeg(), FrameCount(p);
      received := received.(ssrc := Known(p.ssrc), seqNum := p.seqNum);
      if n == 0 {
        return false;
      }
      var sac := PlayoutSac(p.timestamp, format.tsOffset, globalSac, format.playOut);
      var end := W64(sac + n);
      if CopyNeeded(other, end) {
        Arith.DivModOf(sac, len);
        StoreFrames(Audio(p), rings, sac % len, len, n, format.layout, format.big);
      }
      received := received.(last := end);
      used := true;
    }
  }
}
