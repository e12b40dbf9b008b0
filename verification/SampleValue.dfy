/** What the converters do to the value of a sample: the ring holds it aligned to the top of a 32-bit word,
    the wire formats send its most significant bytes first, the ALSA formats hold theirs last. */
module SampleValue {
  import opened CInt
  import opened Convert
  import opened AlsaRing
  import opened Transport

  /** The value of a 32-bit word in the memory of the host. */
  function ValueOf(big: bool, w: Word): U32
  {
    if big then w.b0 * 0x100_0000 + w.b1 * 0x1_0000 + w.b2 * 0x100 + w.b3
    else w.b3 * 0x100_0000 + w.b2 * 0x1_0000 + w.b1 * 0x100 + w.b0
  }

  /** The value of bytes with the most significant one first. */
  function BigEndian(b: seq<int>): int
  {
    if b == [] then 0 else BigEndian(b[..|b| - 1]) * 0x100 + b[|b| - 1]
  }

  /** The value of bytes with the most significant one last. */
  function LittleEndian(b: seq<int>): int
  {
    if b == [] then 0 else b[0] + LittleEndian(b[1..]) * 0x100
  }

  /** What one unit in the last byte of a k-byte sample is worth in the ring word. */
  function Weight(k: nat): (w: int)
    requires 2 <= k <= 4
    ensures w > 0
  {
    if k == 2 then 0x1_0000 else if k == 3 then 0x100 else 1
  }

  lemma Big2(b: seq<int>)
    requires |b| == 2
    ensures BigEndian(b) == b[0] * 0x100 + b[1]
  {
    var h := b[..1];
    assert h[..0] == [] && h[0] == b[0];
    assert BigEndian(h) == b[0];
  }

  lemma Big3(b: seq<int>)
    requires |b| == 3
    ensures BigEndian(b) == b[0] * 0x1_0000 + b[1] * 0x100 + b[2]
  {
    Big2(b[..2]);
  }

  lemma Big4(b: seq<int>)
    requires |b| == 4
    ensures BigEndian(b) == b[0] * 0x100_0000 + b[1] * 0x1_0000 + b[2] * 0x100 + b[3]
  {
    Big3(b[..3]);
  }

  lemma Little2(b: seq<int>)
    requires |b| == 2
    ensures LittleEndian(b) == b[0] + b[1] * 0x100
  {
    var t := b[1..];
    assert t[1..] == [] && t[0] == b[1];
    assert LittleEndian(t) == b[1];
  }

  lemma Little3(b: seq<int>)
    requires |b| == 3
    ensures LittleEndian(b) == b[0] + b[1] * 0x100 + b[2] * 0x1_0000
  {
    Little2(b[1..]);
  }

  lemma Little4(b: seq<int>)
    requires |b| == 4
    ensures LittleEndian(b) == b[0] + b[1] * 0x100 + b[2] * 0x1_0000 + b[3] * 0x100_0000
  {
    Little3(b[1..]);
  }

  /** L16, L24 and the 32-bit payload carry the top bytes of the value, most significant first. */
  lemma WireBytes(l: Layout, big: bool, w: Word)
    requires IsWire(l)
    ensures BigEndian(Pack(l, big, w)) == ValueOf(big, w) / Weight(Width(l))
  {
    var b := Pack(l, big, w);
    if l.Wire2? { Big2(b); } else if l.Wire3? { Big3(b); } else { Big4(b); }
  }

  /** A received sample is its value, aligned to the top of the word. */
  lemma WireWord(l: Layout, big: bool, b: seq<Byte>)
    requires IsWire(l) && |b| == Width(l)
    ensures ValueOf(big, Unpack(l, big, b)) == BigEndian(b) * Weight(Width(l))
  {
    if l.Wire2? { Big2(b); } else if l.Wire3? { Big3(b); } else { Big4(b); }
  }

  /** A played sample is its little-endian value, aligned to the top of the word. */
  lemma PlayedWordValue(f: PcmFormat, s: seq<Byte>)
    requires |s| == Stride(f)
    ensures ValueOf(false, Widen(f, s)) == LittleEndian(s[..SampleBytes(f)]) * Weight(SampleBytes(f))
  {
    var a := s[..SampleBytes(f)];
    match f
    case Pcm16 => Little2(a);
    case Pcm24in3 => Little3(a);
    case Pcm24in4 => Little3(a);
    case Pcm32 => Little4(a);
  }

  /** A captured sample is the top of the value, least significant byte first. */
  lemma CapturedBytes(l: Layout, big: bool, w: Word)
    requires !IsWire(l)
    ensures LittleEndian(Pack(l, big, w)) == ValueOf(big, w) / (if l.S24in4LE? then 0x100 else Weight(Width(l)))
  {
    var b := Pack(l, big, w);
    if l.S16LE? { Little2(b); } else if l.S24in3LE? { Little3(b); } else { Little4(b); }
  }

  /** Played on a little-endian host, sent in a format with room for it, and received on any host: the value of
      the ring word at the receiver is that of the sample played. */
  lemma ValueArrives(f: PcmFormat, s: seq<Byte>, l: Layout, big: bool)
    requires |s| == Stride(f) && IsWire(l) && SampleBytes(f) <= Width(l)
    ensures ValueOf(big, Unpack(l, big, Pack(l, false, Widen(f, s))))
            == LittleEndian(s[..SampleBytes(f)]) * Weight(SampleBytes(f))
  {
    PlayedWordValue(f, s);
    WireBytes(l, false, Widen(f, s));
    WireWord(l, big, Pack(l, false, Widen(f, s)));
  }
}
