/** The playback side of driver/audio_driver.c in PCM mode: the two de-interleaving copies from the
    ALSA buffer into the channel rings, and the positions the interrupt handler steps. */
module AlsaRing {
  import opened CInt
  import opened Convert
  import opened Rings
  import Arith

  /** The little-endian playback formats. */
  datatype PcmFormat = Pcm16 | Pcm24in3 | Pcm24in4 | Pcm32

  function Stride(f: PcmFormat): (w: nat)
    ensures 2 <= w <= 4
  {
    match f case Pcm16 => 2 case Pcm24in3 => 3 case Pcm24in4 => 4 case Pcm32 => 4
  }

  /** Logical width, snd_pcm_format_width. */
  function Bits(f: PcmFormat): nat { match f case Pcm16 => 16 case Pcm24in3 => 24 case Pcm24in4 => 24 case Pcm32 => 32 }

  /** The sample switch of the generic copy, by logical width: out[3] is the most significant byte. */
  function Widen(f: PcmFormat, s: seq<Byte>): Word
    requires |s| == Stride(f)
  {
    match Bits(f)
    case 16 => Word(0, 0, s[0], s[1])
    case 24 => Word(0, s[0], s[1], s[2])
    case _ => Word(s[0], s[1], s[2], s[3])
  }

  /** The bodies of the four optimised copies. */
  function Fast16(s: seq<Byte>): Word
    requires |s| == 2
  {
    var d0, d1, d2, d3 := 0, 0, s[0], s[1];
    Word(d0, d1, d2, d3)
  }

  function Fast24in3(s: seq<Byte>): Word
    requires |s| == 3
  {
    var d0, d1, d2, d3 := 0, s[0], s[1], s[2];
    Word(d0, d1, d2, d3)
  }

  function Fast24in4(s: seq<Byte>): Word
    requires |s| == 4
  {
    var d0, d1, d2, d3 := 0, s[0], s[1], s[2];
    Word(d0, d1, d2, d3)
  }

  /** An aligned 32-bit load and store. */
  function Fast32(s: seq<Byte>): Word
    requires |s| == 4
  {
    Word(s[0], s[1], s[2], s[3])
  }

  /** The optimised copy that prepare selects for a format. */
  function FastWiden(f: PcmFormat, s: seq<Byte>): Word
    requires |s| == Stride(f)
  {
    match f case Pcm16 => Fast16(s) case Pcm24in3 => Fast24in3(s) case Pcm24in4 => Fast24in4(s) case Pcm32 => Fast32(s)
  }

  /** Each optimised sample rule is the generic one for the logical width of its format. */
  lemma FastRuleIsGeneric(f: PcmFormat, s: seq<Byte>)
    requires |s| == Stride(f)
    ensures FastWiden(f, s) == Widen(f, s)
  {
    match f case Pcm16 => case Pcm24in3 => case Pcm24in4 => case Pcm32 =>
  }

  /** Sample i of channel ch in n interleaved frames of m channels. */
  function Played(src: seq<Byte>, i: nat, n: nat, ch: nat, m: nat, f: PcmFormat): Word
    requires i < n && ch < m && Carries(src, n, m, Stride(f))
  {
    SlotInside(src, i, n, ch, m, Stride(f));
    var p := Slot(i, ch, m, Stride(f));
    Widen(f, src[p..p + Stride(f)])
  }

  /** Word j of the ring of channel ch after n frames were played from pos on, around the ring. */
  function PlayedWord(was: Word, j: nat, pos: nat, ring: nat, src: seq<Byte>, n: nat, ch: nat, m: nat,
                      f: PcmFormat): Word
    requires ch < m && Carries(src, n, m, Stride(f)) && pos < ring
  {
    if j < ring && Back(j, pos, ring) < n then Played(src, Back(j, pos, ring), n, ch, m, f) else was
  }

  lemma SampleAddress(i: nat, ch: nat, m: nat, w: nat)
    ensures (i * m + ch) * w == Slot(i, ch, m, w)
  {
    Arith.MulDist(i * m, ch, w);
    Arith.MulAssoc(i, m, w);
  }

  // -- The two copies

  /** playback_deinterleave_*: one channel, the wrap computed ahead of two plain loops. */
  method FastChannel(src: seq<Byte>, out: array<Word>, ring: nat, pos: nat, ch: nat, m: nat, n: nat, f: PcmFormat)
    requires ch < m && Carries(src, n, m, Stride(f)) && pos < ring == out.Length && n <= ring
    modifies out
    ensures forall j :: 0 <= j < ring ==> out[j] == PlayedWord(old(out[j]), j, pos, ring, src, n, ch, m, f)
  {
    var first := Min(n, ring - pos);
    var i := 0;
    while i < first
      invariant 0 <= i <= first
      invariant forall j :: 0 <= j < ring ==>
                  out[j] == if pos <= j < pos + i then Played(src, j - pos, n, ch, m, f) else old(out[j])
    {
      SlotInside(src, i, n, ch, m, Stride(f));
      SampleAddress(i, ch, m, Stride(f));
      var s := (i * m + ch) * Stride(f);
      FastRuleIsGeneric(f, src[s..s + Stride(f)]);
      out[pos + i] := FastWiden(f, src[s..s + Stride(f)]);
      i := i + 1;
    }
    while i < n
      invariant first <= i <= n
      invariant forall j :: 0 <= j < ring ==>
                  out[j] == if pos <= j < pos + first then Played(src, j - pos, n, ch, m, f)
                            else if j < i - first then Played(src, j + first, n, ch, m, f)
                            else old(out[j])
    {
      SlotInside(src, i, n, ch, m, Stride(f));
      SampleAddress(i, ch, m, Stride(f));
      var s := (i * m + ch) * Stride(f);
      FastRuleIsGeneric(f, src[s..s + Stride(f)]);
      out[i - first] := FastWiden(f, src[s..s + Stride(f)]);
      i := i + 1;
    }
  }

  /** The inner loop of mr_alsa_audio_pcm_playback_copy_internal: both pointers are stepped, the
      output pointer wraps. */
  method GenericChannel(src: seq<Byte>, out: array<Word>, ring: nat, pos: nat, ch: nat, m: nat, n: nat, f: PcmFormat)
    requires ch < m && Carries(src, n, m, Stride(f)) && pos < ring == out.Length && n <= ring
    modifies out
    ensures forall j :: 0 <= j < ring ==> out[j] == PlayedWord(old(out[j]), j, pos, ring, src, n, ch, m, f)
  {
    var i, input, output := 0, ch * Stride(f), pos;
    while i < n
      invariant 0 <= i <= n && input == Slot(i, ch, m, Stride(f)) && output == Wrap(pos, i, ring)
      invariant forall j :: 0 <= j < ring ==>
                  out[j] == if Back(j, pos, ring) < i then Played(src, Back(j, pos, ring), n, ch, m, f) else old(out[j])
    {
      SlotInside(src, i, n, ch, m, Stride(f));
      out[output] := Widen(f, src[input..input + Stride(f)]);
      NextSlot(i, ch, m, Stride(f));
      input := input + m * Stride(f);
      output := if output + 1 >= ring then 0 else output + 1;
      i := i + 1;
    }
  }

  /** What both copies leave in the rings. */
  ghost predicate Plays(was: seq<Ring>, now: seq<Ring>, pos: nat, ring: nat, src: seq<Byte>, n: nat, f: PcmFormat)
  {
    && pos < ring && |now| == |was| && Uniform(was, ring) && Uniform(now, ring)
    && Carries(src, n, |was|, Stride(f))
    && forall c, j :: 0 <= c < |was| && 0 <= j < ring ==>
         now[c][j] == PlayedWord(was[c][j], j, pos, ring, src, n, c, |was|, f)
  }

  method FastCopy(src: seq<Byte>, rings: seq<array<Word>>, ring: nat, pos: nat, n: nat, f: PcmFormat)
    requires Carries(src, n, |rings|, Stride(f)) && pos < ring && n <= ring
    requires forall c :: 0 <= c < |rings| ==> rings[c].Length == ring
    requires forall c, d :: 0 <= c < d < |rings| ==> rings[c] != rings[d]
    modifies rings
    ensures forall c, j :: 0 <= c < |rings| && 0 <= j < ring ==>
              rings[c][j] == PlayedWord(old(rings[c][j]), j, pos, ring, src, n, c, |rings|, f)
  {
    var ch := 0;
    while ch < |rings|
      invariant 0 <= ch <= |rings|
      invariant forall c, j :: 0 <= c < ch && 0 <= j < ring ==>
                  rings[c][j] == PlayedWord(old(rings[c][j]), j, pos, ring, src, n, c, |rings|, f)
      invariant forall c, j :: ch <= c < |rings| && 0 <= j < ring ==> rings[c][j] == old(rings[c][j])
    {
      FastChannel(src, rings[ch], ring, pos, ch, |rings|, n, f);
      ch := ch + 1;
    }
  }

  method GenericCopy(src: seq<Byte>, rings: seq<array<Word>>, ring: nat, pos: nat, n: nat, f: PcmFormat)
    requires Carries(src, n, |rings|, Stride(f)) && pos < ring && n <= ring
    requires forall c :: 0 <= c < |rings| ==> rings[c].Length == ring
    requires forall c, d :: 0 <= c < d < |rings| ==> rings[c] != rings[d]
    modifies rings
    ensures forall c, j :: 0 <= c < |rings| && 0 <= j < ring ==>
              rings[c][j] == PlayedWord(old(rings[c][j]), j, pos, ring, src, n, c, |rings|, f)
  {
    var ch := 0;
    while ch < |rings|
      invariant 0 <= ch <= |rings|
      invariant forall c, j :: 0 <= c < ch && 0 <= j < ring ==>
                  rings[c][j] == PlayedWord(old(rings[c][j]), j, pos, ring, src, n, c, |rings|, f)
      invariant forall c, j :: ch <= c < |rings| && 0 <= j < ring ==> rings[c][j] == old(rings[c][j])
    {
      GenericChannel(src, rings[ch], ring, pos, ch, |rings|, n, f);
      ch := ch + 1;
    }
  }

  /** The optimised copy leaves the rings byte for byte as the generic one would, for every format, channel
      count, ring position and frame count. */
  method CopiesAgree(src: seq<Byte>, fast: seq<array<Word>>, generic: seq<array<Word>>, ring: nat, pos: nat, n: nat,
                     f: PcmFormat)
    requires |fast| == |generic| && Carries(src, n, |fast|, Stride(f)) && pos < ring && n <= ring
    requires forall c :: 0 <= c < |fast| ==> fast[c].Length == ring && generic[c].Length == ring
    requires forall c, d :: 0 <= c < d < |fast| ==> fast[c] != fast[d] && generic[c] != generic[d]
    requires forall c, d :: 0 <= c < |fast| && 0 <= d < |fast| ==> fast[c] != generic[d]
    requires forall c, j :: 0 <= c < |fast| && 0 <= j < ring ==> fast[c][j] == generic[c][j]
    modifies fast, generic
    ensures forall c, j :: 0 <= c < |fast| && 0 <= j < ring ==>
              fast[c][j] == generic[c][j] == PlayedWord(old(fast[c][j]), j, pos, ring, src, n, c, |fast|, f)
  {
    FastCopy(src, fast, ring, pos, n, f);
    GenericCopy(src, generic, ring, pos, n, f);
  }

  // -- The playback substream

  /** Playback since the last prepare: the rings, the ring position and the offset into the ALSA buffer. */
  class Playback {
    const rings: seq<array<Word>>
    const capacity: nat      // words in a ring
    const len: nat           // frames of the ALSA buffer: period size times periods
    const format: PcmFormat
    var pos: nat
    var dmaOffset: nat

    function FrameBytes(): (b: nat)
      ensures b >= |rings|
    {
      Arith.MulMono(1, Stride(format), |rings|);
      |rings| * Stride(format)
    }

    /** The offset into the ALSA buffer is the ring position in bytes. */
    ghost predicate Valid()
      reads this
    {
      && pos < len <= capacity && dmaOffset == pos * FrameBytes()
      && (forall c :: 0 <= c < |rings| ==> rings[c].Length == capacity)
      && (forall c, d :: 0 <= c < d < |rings| ==> rings[c] != rings[d])
    }

    /** mr_alsa_audio_pcm_prepare for the playback stream. */
    constructor (rings: seq<array<Word>>, capacity: nat, len: nat, format: PcmFormat)
      requires 0 < len <= capacity
      requires forall c :: 0 <= c < |rings| ==> rings[c].Length == capacity
      requires forall c, d :: 0 <= c < d < |rings| ==> rings[c] != rings[d]
      ensures Valid() && pos == 0
      ensures this.rings == rings && this.capacity == capacity && this.len == len && this.format == format
    {
      this.rings, this.capacity, this.len, this.format := rings, capacity, len, format;
      pos, dmaOffset := 0, 0;
    }

    /** The playback half of mr_alsa_audio_pcm_interrupt: n frames out of the ALSA buffer. */
    method Interrupt(dma: seq<Byte>, n: nat)
      requires Valid() && pos + n <= len && |dma| == len * FrameBytes()
      modifies this`pos, this`dmaOffset, rings
      ensures Valid() && pos == Wrap(old(pos), n, len)
      ensures old(dmaOffset) <= |dma| && Carries(dma[old(dmaOffset)..], n, |rings|, Stride(format))
      ensures forall c, j :: 0 <= c < |rings| && 0 <= j < capacity ==>
                rings[c][j] == PlayedWord(old(rings[c][j]), j, old(pos), capacity, dma[old(dmaOffset)..], n, c, |rings|, format)
    {
      Arith.MulNonNeg(n, FrameBytes());
      Arith.MulMono(pos + n, len, FrameBytes());
      Arith.MulDist(pos, n, FrameBytes());
      FastCopy(dma[dmaOffset..], rings, capacity, pos, n, format);
      StepPositions(|dma|, n);
    }

    method StepPositions(bufferBytes: nat, n: nat)
      requires Valid() && pos + n <= len && bufferBytes == len * FrameBytes()
      modifies this`pos, this`dmaOffset
      ensures Valid() && pos == Wrap(old(pos), n, len)
    {
      OffsetFollows(pos, n, len, FrameBytes());
      dmaOffset := dmaOffset + n * FrameBytes();
      if dmaOffset >= bufferBytes {
        dmaOffset := dmaOffset - bufferBytes;
      }
      pos := pos + n;
      if pos >= len {
        pos := pos - len;
      }
    }

    /** mr_alsa_audio_pcm_pointer. */
    method Pointer() returns (frames: nat)
      requires Valid()
      ensures frames == if |rings| == 0 then 0 else pos
    {
      if FrameBytes() == 0 {
        return 0;
      }
      Arith.MultipleMod(pos, FrameBytes());
      frames := dmaOffset / FrameBytes();
    }
  }

  /** Position and byte offset wrap together; without channels both byte counts are zero. */
  lemma OffsetFollows(pos: nat, n: nat, len: nat, b: nat)
    requires pos < len && pos + n <= len
    ensures pos * b + n * b == (pos + n) * b && 0 <= n * b
    ensures if pos * b + n * b >= len * b then (pos * b + n * b) - len * b == Wrap(pos, n, len) * b
            else pos * b + n * b == Wrap(pos, n, len) * b
  {
    Arith.MulDist(pos, n, b);
    Arith.MulNonNeg(n, b);
    Arith.MulMono(pos + n, len, b);
    if b == 0 {
      assert len * b == 0;
    } else if pos + n < len {
      Arith.MulDist(pos + n, 1, b);
      Arith.MulMono(pos + n + 1, len, b);
    }
  }
}
