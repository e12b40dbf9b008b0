/** The integer converters of driver/MTConvert.c: per-channel rings of 32-bit host-order samples
    to and from interleaved byte buffers. Interleaving runs sample by sample, de-interleaving
    channel by channel. A ring is a sequence of words, a word its four bytes in memory order. */
module Convert {
  import opened CInt
  import Arith

  datatype Word = Word(b0: Byte, b1: Byte, b2: Byte, b3: Byte)

  type Ring = seq<Word>

  /** The byte layouts of an interleaved sample: the RTP payloads (big-endian, the 2, 3 or 4 most
      significant bytes: L16, L24 and AM824) and the ALSA capture formats (little-endian). */
  datatype Layout = Wire2 | Wire3 | Wire4 | S16LE | S24in3LE | S24in4LE | S32LE

  function Width(l: Layout): (w: nat)
    ensures 2 <= w <= 4
  {
    match l
    case Wire2 => 2 case Wire3 => 3 case Wire4 => 4
    case S16LE => 2 case S24in3LE => 3 case S24in4LE => 4 case S32LE => 4
  }

  predicate IsWire(l: Layout) { l.Wire2? || l.Wire3? || l.Wire4? }

  /** The bytes of a word from the most significant one on; big is the byte order of the host. */
  function MsbFirst(big: bool, s: Word): Word { if big then s else Word(s.b3, s.b2, s.b1, s.b0) }

  function Pack(l: Layout, big: bool, s: Word): (b: seq<Byte>)
    ensures |b| == Width(l)
  {
    var m := MsbFirst(big, s);
    match l
    case Wire2 => [m.b0, m.b1]
    case Wire3 => [m.b0, m.b1, m.b2]
    case Wire4 => [m.b0, m.b1, m.b2, m.b3]
    case S16LE => [m.b1, m.b0]
    case S24in3LE => [m.b2, m.b1, m.b0]
    case S24in4LE => [m.b2, m.b1, m.b0, 0]
    case S32LE => [m.b3, m.b2, m.b1, m.b0]
  }

  function Unpack(l: Layout, big: bool, b: seq<Byte>): Word
    requires IsWire(l) && |b| == Width(l)
  {
    MsbFirst(big, match l
                  case Wire2 => Word(b[0], b[1], 0, 0)
                  case Wire3 => Word(b[0], b[1], b[2], 0)
                  case Wire4 => Word(b[0], b[1], b[2], b[3]))
  }

  /** What is left of a word after the payload: its top bytes, the rest cleared. */
  function Kept(l: Layout, m: Word): Word
  {
    match l
    case Wire2 => Word(m.b0, m.b1, 0, 0)
    case Wire3 => Word(m.b0, m.b1, m.b2, 0)
    case _ => m
  }

  /** Between any two hosts, whatever their byte orders. */
  lemma PackUnpack(l: Layout, big: bool, big': bool, s: Word)
    requires IsWire(l)
    ensures MsbFirst(big', Unpack(l, big', Pack(l, big, s))) == Kept(l, MsbFirst(big, s))
  {}

  /** Every ring holds cap samples. */
  predicate Uniform(rings: seq<Ring>, cap: nat)
  {
    forall c :: 0 <= c < |rings| ==> |rings[c]| == cap
  }

  // -- Interleaving

  /** The first m channels of sample i. */
  function FrameBytes(rings: seq<Ring>, cap: nat, i: nat, m: nat, l: Layout, big: bool): seq<Byte>
    requires Uniform(rings, cap) && i < cap && m <= |rings|
  {
    if m == 0 then []
    else FrameBytes(rings, cap, i, m - 1, l, big) + Pack(l, big, rings[m - 1][i])
  }

  function Frame(rings: seq<Ring>, cap: nat, i: nat, l: Layout, big: bool): seq<Byte>
    requires Uniform(rings, cap) && i < cap
  {
    FrameBytes(rings, cap, i, |rings|, l, big)
  }

  /** The first k frames of a ring set, interleaved. */
  function FrameSeq(rings: seq<Ring>, cap: nat, k: nat, l: Layout, big: bool): (f: seq<seq<Byte>>)
    requires Uniform(rings, cap) && k <= cap
    ensures |f| == k
  {
    if k == 0 then [] else FrameSeq(rings, cap, k - 1, l, big) + [Frame(rings, cap, k - 1, l, big)]
  }

  function Frames(rings: seq<Ring>, cap: nat, l: Layout, big: bool): (f: seq<seq<Byte>>)
    requires Uniform(rings, cap)
    ensures |f| == cap
  {
    FrameSeq(rings, cap, cap, l, big)
  }

  lemma {:induction false} FrameSeqAt(rings: seq<Ring>, cap: nat, k: nat, l: Layout, big: bool, i: nat)
    requires Uniform(rings, cap) && i < k <= cap
    ensures FrameSeq(rings, cap, k, l, big)[i] == Frame(rings, cap, i, l, big)
  {
    if i < k - 1 { FrameSeqAt(rings, cap, k - 1, l, big, i); }
  }

  /** n consecutive frames, one after the other. */
  function Interleaved(f: seq<seq<Byte>>, off: nat, n: nat): seq<Byte>
    requires off + n <= |f|
  {
    if n == 0 then [] else Interleaved(f, off, n - 1) + f[off + n - 1]
  }

  lemma {:induction false} FrameLength(rings: seq<Ring>, cap: nat, i: nat, m: nat, l: Layout, big: bool)
    requires Uniform(rings, cap) && i < cap && m <= |rings|
    ensures |FrameBytes(rings, cap, i, m, l, big)| == m * Width(l)
  {
    if m > 0 {
      FrameLength(rings, cap, i, m - 1, l, big);
      Arith.MulDist(m - 1, 1, Width(l));
    }
  }

  lemma {:induction false} FrameGrows(rings: seq<Ring>, cap: nat, i: nat, m: nat, k: nat, l: Layout, big: bool)
    requires Uniform(rings, cap) && i < cap && m <= k <= |rings|
    ensures |FrameBytes(rings, cap, i, m, l, big)| <= |FrameBytes(rings, cap, i, k, l, big)|
  {
    if m < k { FrameGrows(rings, cap, i, m, k - 1, l, big); }
  }

  /** Every frame takes b bytes. */
  predicate FramesAre(f: seq<seq<Byte>>, b: nat) { forall i :: 0 <= i < |f| ==> |f[i]| == b }

  lemma FramesLength(rings: seq<Ring>, cap: nat, l: Layout, big: bool)
    requires Uniform(rings, cap)
    ensures 0 <= |rings| * Width(l)
    ensures FramesAre(Frames(rings, cap, l, big), |rings| * Width(l))
  {
    Arith.MulNonNeg(|rings|, Width(l));
    forall i | 0 <= i < cap
      ensures |Frames(rings, cap, l, big)[i]| == |rings| * Width(l)
    {
      FrameSeqAt(rings, cap, cap, l, big, i);
      FrameLength(rings, cap, i, |rings|, l, big);
    }
  }

  lemma {:induction false} InterleavedLength(f: seq<seq<Byte>>, off: nat, n: nat, b: nat)
    requires off + n <= |f| && FramesAre(f, b)
    ensures |Interleaved(f, off, n)| == n * b
  {
    if n > 0 {
      InterleavedLength(f, off, n - 1, b);
      Arith.MulDist(n - 1, 1, b);
    }
  }

  lemma {:induction false} InterleavedGrows(f: seq<seq<Byte>>, off: nat, m: nat, n: nat)
    requires m <= n && off + n <= |f|
    ensures |Interleaved(f, off, m)| <= |Interleaved(f, off, n)|
  {
    if m < n { InterleavedGrows(f, off, m, n - 1); }
  }

  /** Writes b at the cursor of an output buffer that holds before and then done. */
  method PutBytes(out: array<Byte>, pos: nat, ghost before: seq<Byte>, ghost done: seq<Byte>, b: seq<Byte>)
    requires pos + |b| <= out.Length && out[..pos] == before + done
    modifies out
    ensures out[..pos + |b|] == before + (done + b)
    ensures forall j :: pos + |b| <= j < out.Length ==> out[j] == old(out[j])
  {
    var k := 0;
    while k < |b|
      invariant 0 <= k <= |b|
      invariant out[..pos + k] == before + (done + b[..k])
      invariant forall j :: pos + k <= j < out.Length ==> out[j] == old(out[j])
    {
      out[pos + k] := b[k];
      k := k + 1;
    }
    assert b[..k] == b;
  }

  method InterleaveFrame(rings: seq<Ring>, cap: nat, i: nat, out: array<Byte>, pos: nat,
                         ghost before: seq<Byte>, ghost done: seq<Byte>, l: Layout, big: bool)
    returns (p: nat)
    requires Uniform(rings, cap) && i < cap
    requires pos + |Frame(rings, cap, i, l, big)| <= out.Length && out[..pos] == before + done
    modifies out
    ensures p == pos + |Frame(rings, cap, i, l, big)|
    ensures out[..p] == before + (done + Frame(rings, cap, i, l, big))
    ensures forall j :: p <= j < out.Length ==> out[j] == old(out[j])
  {
    p := pos;
    var ch := 0;
    while ch < |rings|
      invariant 0 <= ch <= |rings|
      invariant p == pos + |FrameBytes(rings, cap, i, ch, l, big)| <= out.Length
      invariant out[..p] == before + (done + FrameBytes(rings, cap, i, ch, l, big))
      invariant forall j :: p <= j < out.Length ==> out[j] == old(out[j])
    {
      FrameGrows(rings, cap, i, ch + 1, |rings|, l, big);
      p := PutPacked(out, p, before, done, FrameBytes(rings, cap, i, ch, l, big), Pack(l, big, rings[ch][i]));
      ch := ch + 1;
    }
  }

  method PutPacked(out: array<Byte>, pos: nat, ghost before: seq<Byte>, ghost done: seq<Byte>,
                   ghost frame: seq<Byte>, b: seq<Byte>)
    returns (p: nat)
    requires pos + |b| <= out.Length && out[..pos] == before + (done + frame)
    modifies out
    ensures p == pos + |b|
    ensures out[..p] == before + (done + (frame + b))
    ensures forall j :: p <= j < out.Length ==> out[j] == old(out[j])
  {
    PutBytes(out, pos, before, done + frame, b);
    Reassociate(done, frame, b);
    p := pos + |b|;
  }

  lemma Reassociate(a: seq<Byte>, b: seq<Byte>, c: seq<Byte>)
    ensures (a + b) + c == a + (b + c)
  {}

  /** Sample i of the loop below. */
  method InterleaveNext(rings: seq<Ring>, cap: nat, off: nat, i: nat, ghost n: nat, out: array<Byte>, pos: nat,
                        ghost before: seq<Byte>, ghost f: seq<seq<Byte>>, l: Layout, big: bool)
    returns (p: nat)
    requires Uniform(rings, cap) && off + n <= cap && i < n && f == Frames(rings, cap, l, big)
    requires pos + |Interleaved(f, off, n)| - |Interleaved(f, off, i)| <= out.Length
    requires out.Length >= pos && out[..pos] == before + Interleaved(f, off, i)
    modifies out
    ensures p == pos + |f[off + i]| <= out.Length && out[..p] == before + Interleaved(f, off, i + 1)
    ensures forall j :: p <= j < out.Length ==> out[j] == old(out[j])
  {
    InterleavedGrows(f, off, i + 1, n);
    FrameSeqAt(rings, cap, cap, l, big, off + i);
    p := InterleaveFrame(rings, cap, off + i, out, pos, before, Interleaved(f, off, i), l, big);
  }

  /** MTConvertMappedInt32To*Interleave: writes n samples of every channel at out[pos..]. */
  method Interleave(rings: seq<Ring>, cap: nat, off: nat, out: array<Byte>, pos: nat, n: nat, l: Layout, big: bool)
    returns (p: nat)
    requires Uniform(rings, cap) && off + n <= cap
    requires pos + |Interleaved(Frames(rings, cap, l, big), off, n)| <= out.Length
    modifies out
    ensures p == pos + |Interleaved(Frames(rings, cap, l, big), off, n)|
    ensures out[..p] == old(out[..pos]) + Interleaved(Frames(rings, cap, l, big), off, n)
    ensures forall j :: p <= j < out.Length ==> out[j] == old(out[j])
  {
    var i := 0;
    p := pos;
    ghost var before, f := out[..pos], Frames(rings, cap, l, big);
    while i < n
      invariant 0 <= i <= n
      invariant p == pos + |Interleaved(f, off, i)| <= out.Length
      invariant out[..p] == before + Interleaved(f, off, i)
      invariant forall j :: p <= j < out.Length ==> out[j] == old(out[j])
    {
      p := InterleaveNext(rings, cap, off, i, n, out, p, before, f, l, big);
      i := i + 1;
    }
  }

  // -- Where a sample sits in the interleaved buffer

  /** b occurs in a at position p. */
  predicate At(a: seq<Byte>, p: int, b: seq<Byte>)
  {
    0 <= p && p + |b| <= |a| && forall k :: 0 <= k < |b| ==> b[k] == a[p + k]
  }

  lemma AtSlice(a: seq<Byte>, p: int, b: seq<Byte>)
    requires At(a, p, b)
    ensures a[p..p + |b|] == b
  {}

  lemma AtPrefix(a: seq<Byte>, c: seq<Byte>, p: int, b: seq<Byte>)
    requires At(a, p, b)
    ensures At(a + c, p, b)
  {}

  lemma AtSuffix(a: seq<Byte>, c: seq<Byte>, p: int, b: seq<Byte>)
    requires At(c, p, b)
    ensures At(a + c, |a| + p, b)
  {}

  lemma {:induction false} FrameAt(rings: seq<Ring>, cap: nat, i: nat, m: nat, l: Layout, big: bool, ch: nat)
    requires Uniform(rings, cap) && i < cap && ch < m <= |rings|
    ensures At(FrameBytes(rings, cap, i, m, l, big), |FrameBytes(rings, cap, i, ch, l, big)|,
               Pack(l, big, rings[ch][i]))
  {
    var head, tail := FrameBytes(rings, cap, i, m - 1, l, big), Pack(l, big, rings[m - 1][i]);
    if ch < m - 1 {
      FrameAt(rings, cap, i, m - 1, l, big, ch);
      AtPrefix(head, tail, |FrameBytes(rings, cap, i, ch, l, big)|, Pack(l, big, rings[ch][i]));
    } else {
      AtSuffix(head, tail, 0, tail);
    }
  }

  /** Byte position of channel ch of sample i in a buffer of m channels. */
  function Slot(i: nat, ch: nat, m: nat, w: nat): int { i * (m * w) + ch * w }

  lemma {:induction false} FrameFound(f: seq<seq<Byte>>, off: nat, n: nat, i: nat)
    requires i < n && off + n <= |f|
    ensures At(Interleaved(f, off, n), |Interleaved(f, off, i)|, f[off + i])
  {
    var head := Interleaved(f, off, n - 1);
    if i < n - 1 {
      FrameFound(f, off, n - 1, i);
      AtPrefix(head, f[off + n - 1], |Interleaved(f, off, i)|, f[off + i]);
    } else {
      AtSuffix(head, f[off + i], 0, f[off + i]);
    }
  }

  lemma AtTransitive(a: seq<Byte>, p: int, b: seq<Byte>, q: int, c: seq<Byte>)
    requires At(a, p, b) && At(b, q, c)
    ensures At(a, p + q, c)
  {
    forall k | 0 <= k < |c| ensures c[k] == a[p + q + k] {
      assert c[k] == b[q + k];
    }
  }

  /** Interleaving then looking at the slot of (i, ch) finds that very sample. */
  lemma InterleavedAt(rings: seq<Ring>, cap: nat, off: nat, n: nat, l: Layout, big: bool, i: nat, ch: nat)
    requires Uniform(rings, cap) && off + n <= cap && i < n && ch < |rings|
    ensures At(Interleaved(Frames(rings, cap, l, big), off, n), Slot(i, ch, |rings|, Width(l)),
               Pack(l, big, rings[ch][off + i]))
  {
    var f := Frames(rings, cap, l, big);
    FrameFound(f, off, n, i);
    SampleInFrame(rings, cap, l, big, off + i, ch);
    AtTransitive(Interleaved(f, off, n), |Interleaved(f, off, i)|, f[off + i],
                 |FrameBytes(rings, cap, off + i, ch, l, big)|, Pack(l, big, rings[ch][off + i]));
    SlotLength(rings, cap, off, l, big, i, ch);
  }

  lemma SampleInFrame(rings: seq<Ring>, cap: nat, l: Layout, big: bool, i: nat, ch: nat)
    requires Uniform(rings, cap) && i < cap && ch < |rings|
    ensures At(Frames(rings, cap, l, big)[i], |FrameBytes(rings, cap, i, ch, l, big)|, Pack(l, big, rings[ch][i]))
  {
    FrameSeqAt(rings, cap, cap, l, big, i);
    FrameAt(rings, cap, i, |rings|, l, big, ch);
  }

  lemma SlotLength(rings: seq<Ring>, cap: nat, off: nat, l: Layout, big: bool, i: nat, ch: nat)
    requires Uniform(rings, cap) && off + i < cap && ch < |rings|
    ensures |Interleaved(Frames(rings, cap, l, big), off, i)| + |FrameBytes(rings, cap, off + i, ch, l, big)|
            == Slot(i, ch, |rings|, Width(l))
  {
    FramesLength(rings, cap, l, big);
    InterleavedLength(Frames(rings, cap, l, big), off, i, |rings| * Width(l));
    FrameLength(rings, cap, off + i, ch, l, big);
  }

  // -- De-interleaving

  /** The payload is long enough for n frames of m channels. */
  predicate Carries(payload: seq<Byte>, n: nat, m: nat, w: nat) { n * (m * w) <= |payload| }

  lemma SlotInside(payload: seq<Byte>, i: nat, n: nat, ch: nat, m: nat, w: nat)
    requires i < n && ch < m && Carries(payload, n, m, w)
    ensures 0 <= Slot(i, ch, m, w) && Slot(i, ch, m, w) + w <= |payload|
  {
    Arith.MulDist(ch, 1, w);
    Arith.MulMono(ch + 1, m, w);
    Arith.MulNonNeg(ch, w);
    Arith.MulNonNeg(m, w);
    Arith.MulNonNeg(i, m * w);
    Arith.MulDist(i, 1, m * w);
    Arith.MulMono(i + 1, n, m * w);
  }

  /** Sample i of channel ch as the payload carries it. */
  function WireSample(payload: seq<Byte>, i: nat, n: nat, ch: nat, m: nat, l: Layout, big: bool): Word
    requires IsWire(l) && i < n && ch < m && Carries(payload, n, m, Width(l))
  {
    SlotInside(payload, i, n, ch, m, Width(l));
    var p := Slot(i, ch, m, Width(l));
    Unpack(l, big, payload[p..p + Width(l)])
  }

  /** One channel of MTConvertBigEndianInt*ToMappedInt32DeInterleave. */
  method DeinterleaveChannel(payload: seq<Byte>, out: array<Word>, off: nat, ch: nat, m: nat, n: nat,
                             l: Layout, big: bool)
    requires IsWire(l) && ch < m && Carries(payload, n, m, Width(l))
    requires off + n <= out.Length
    modifies out
    ensures forall j :: 0 <= j < out.Length ==>
              out[j] == if off <= j < off + n then WireSample(payload, j - off, n, ch, m, l, big) else old(out[j])
  {
    var i, src := 0, Width(l) * ch;
    while i < n
      invariant 0 <= i <= n
      invariant src == Slot(i, ch, m, Width(l))
      invariant forall j :: 0 <= j < out.Length ==>
                  out[j] == if off <= j < off + i then WireSample(payload, j - off, n, ch, m, l, big) else old(out[j])
    {
      SlotInside(payload, i, n, ch, m, Width(l));
      out[off + i] := Unpack(l, big, payload[src..src + Width(l)]);
      NextSlot(i, ch, m, Width(l));
      src := src + m * Width(l);
      i := i + 1;
    }
  }

  lemma NextSlot(i: nat, ch: nat, m: nat, w: nat)
    ensures Slot(i + 1, ch, m, w) == Slot(i, ch, m, w) + m * w
  {
    Arith.MulDist(i, 1, m * w);
  }

  /** No later channel is mapped to the ring of channel c. */
  ghost predicate LastUse(rings: seq<array<Word>>, c: nat)
    requires c < |rings|
  {
    forall d :: c < d < |rings| ==> rings[d] != rings[c]
  }

  /** MTConvertBigEndianInt*ToMappedInt32DeInterleave: all channels mapped. Of several channels on one
      ring the last one stays. */
  method Deinterleave(payload: seq<Byte>, rings: seq<array<Word>>, off: nat, n: nat, l: Layout, big: bool)
    requires IsWire(l) && Carries(payload, n, |rings|, Width(l))
    requires forall c :: 0 <= c < |rings| ==> off + n <= rings[c].Length
    modifies rings
    ensures forall c, j :: 0 <= c < |rings| && LastUse(rings, c) && 0 <= j < rings[c].Length ==>
              rings[c][j] == if off <= j < off + n then WireSample(payload, j - off, n, c, |rings|, l, big)
                             else old(rings[c][j])
  {
    var ch := 0;
    while ch < |rings|
      invariant 0 <= ch <= |rings|
      invariant forall c, j :: 0 <= c < ch && LastUse(rings, c) && 0 <= j < rings[c].Length ==>
                  rings[c][j] == if off <= j < off + n then WireSample(payload, j - off, n, c, |rings|, l, big)
                                 else old(rings[c][j])
      invariant forall c, j :: 0 <= c < |rings| && 0 <= j < rings[c].Length && !(off <= j < off + n) ==>
                  rings[c][j] == old(rings[c][j])
    {
      DeinterleaveChannel(payload, rings[ch], off, ch, |rings|, n, l, big);
      ch := ch + 1;
    }
  }

  /** De-interleaving undoes interleaving, whatever the order of the two loops: the payload sample
      (i, ch) is the source sample with its low bytes cleared. */
  lemma InterleaveThenDeinterleave(rings: seq<Ring>, cap: nat, off: nat, n: nat, l: Layout,
                                   big: bool, big': bool, i: nat, ch: nat)
    requires Uniform(rings, cap) && off + n <= cap && IsWire(l) && i < n && ch < |rings|
    ensures Carries(Interleaved(Frames(rings, cap, l, big), off, n), n, |rings|, Width(l))
    ensures MsbFirst(big', WireSample(Interleaved(Frames(rings, cap, l, big), off, n), i, n, ch, |rings|, l, big'))
            == Kept(l, MsbFirst(big, rings[ch][off + i]))
  {
    FramesLength(rings, cap, l, big);
    InterleavedLength(Frames(rings, cap, l, big), off, n, |rings| * Width(l));
    InterleavedAt(rings, cap, off, n, l, big, i, ch);
    AtSlice(Interleaved(Frames(rings, cap, l, big), off, n), Slot(i, ch, |rings|, Width(l)),
            Pack(l, big, rings[ch][off + i]));
    PackUnpack(l, big, big', rings[ch][off + i]);
  }
}
