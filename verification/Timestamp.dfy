/** The 32-bit RTP timestamp (section 5.1 of RFC 3550) and its extension to the 64-bit sample
    count of the receiver, as in driver/RTP_audio_stream.c. */
module Timestamp {
  import opened CInt

  /** Half-width of the window around the receiver's count that the extension resolves. */
  const RADIUS: int := 0x3FFF_FFFF

  /** The timestamp a sender writes. */
  function OnWire(sac: U64, offset: U32): U32 { W32(sac + offset) }

  /** A count with its low 32 bits cleared. */
  function HighPart(x: U64): (h: nat)
    ensures h <= TWO64 - TWO32 && h == x - W32(x)
  {
    x - x % 0x1_0000_0000
  }

  /** The 64-bit count a receiver at globalSac reads from it. */
  function Extend(timestamp: U32, offset: U32, globalSac: U64): U64
  {
    var low := W32(timestamp - offset);
    var sac: U64 := HighPart(globalSac) + low;
    if low < 0x3FFF_FFFF && W32(globalSac) >= 0xC000_0000 then W64(sac + TWO32)
    else if low >= 0xC000_0000 && W32(globalSac) < 0x3FFF_FFFF then W64(sac - TWO32)
    else sac
  }

  lemma OffsetCancels(sac: U64, offset: U32)
    ensures W32(OnWire(sac, offset) - offset) == W32(sac)
  {}

  /** Within the radius the sender's count is recovered exactly, whatever the timestamp offset. */
  lemma ExtensionExact(sac: U64, globalSac: U64, offset: U32)
    requires Abs(sac - globalSac) <= RADIUS
    ensures Extend(OnWire(sac, offset), offset, globalSac) == sac
  {
    OffsetCancels(sac, offset);
    SameEpoch(sac, globalSac);
  }

  /** High words of two counts within the radius differ by at most one, and only across a wrap. */
  lemma SameEpoch(sac: U64, globalSac: U64)
    requires Abs(sac - globalSac) <= RADIUS
    ensures var a, b := W32(sac), W32(globalSac);
            var h, g := sac - a, globalSac - b;
            || (h == g && !(a < 0x3FFF_FFFF && b >= 0xC000_0000) && !(a >= 0xC000_0000 && b < 0x3FFF_FFFF))
            || (h == g + TWO32 && a < 0x3FFF_FFFF && b >= 0xC000_0000)
            || (h == g - TWO32 && a >= 0xC000_0000 && b < 0x3FFF_FFFF)
  {
    var a, b := W32(sac), W32(globalSac);
    var x, y := sac / TWO32, globalSac / TWO32;
    assert sac == x * TWO32 + a && globalSac == y * TWO32 + b;
    assert x == y || x == y + 1 || x == y - 1;
  }

  lemma LowPart(epoch: nat, low: U32)
    ensures W32(epoch * TWO32 + low) == low
  {}

  /** One sample beyond the radius the extension fails, ahead of the receiver ... */
  lemma TightAhead(epoch: nat, offset: U32)
    requires epoch < 0xFFFF_FFFE
    ensures var g := epoch * TWO32 + 0xFFFF_FFFF;
            Extend(OnWire(g + RADIUS + 1, offset), offset, g) != g + RADIUS + 1
  {
    var g := epoch * TWO32 + 0xFFFF_FFFF;
    OffsetCancels(g + RADIUS + 1, offset);
    LowPart(epoch, 0xFFFF_FFFF);
    LowPart(epoch + 1, 0x3FFF_FFFF);
  }

  /** ... and behind it ... */
  lemma TightBehind(epoch: nat, offset: U32)
    requires 0 < epoch < 0xFFFF_FFFE
    ensures var g := epoch * TWO32 + 0x3FFF_FFFF;
            Extend(OnWire(g - RADIUS - 1, offset), offset, g) != g - RADIUS - 1
  {
    var g := epoch * TWO32 + 0x3FFF_FFFF;
    OffsetCancels(g - RADIUS - 1, offset);
    LowPart(epoch, 0x3FFF_FFFF);
    LowPart(epoch - 1, 0xFFFF_FFFF);
  }

  /** ... in every epoch. */
  lemma RadiusIsTight(epoch: nat, offset: U32)
    requires 0 < epoch < 0xFFFF_FFFE
    ensures var g := epoch * TWO32 + 0xFFFF_FFFF;
            Extend(OnWire(g + RADIUS + 1, offset), offset, g) != g + RADIUS + 1
    ensures var g := epoch * TWO32 + 0x3FFF_FFFF;
            Extend(OnWire(g - RADIUS - 1, offset), offset, g) != g - RADIUS - 1
  {
    TightAhead(epoch, offset);
    TightBehind(epoch, offset);
  }
}
