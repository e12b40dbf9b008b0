/** Positions in a ring buffer, stepped without a modulus as the driver does. */
module Rings {
  import Arith

  /** Position off plus n in a ring of len, as the driver steps it: at most one wrap. */
  function Wrap(off: nat, n: nat, len: nat): (p: nat)
    requires off < len && n <= len
    ensures p < len
  {
    if off + n >= len then off + n - len else off + n
  }

  lemma WrapIsMod(off: nat, n: nat, len: nat)
    requires off < len && n <= len
    ensures Wrap(off, n, len) == (off + n) % len
  {
    if off + n >= len {
      Arith.QuotientUnique(off + n, len, 1, off + n - len);
    } else {
      Arith.QuotientUnique(off + n, len, 0, off + n);
    }
  }

  /** Distance from off back to j in a ring of len. */
  function Back(j: nat, off: nat, len: nat): (d: nat)
    requires j < len && off < len
    ensures d < len
  {
    if j >= off then j - off else j + len - off
  }

  /** Ring position of sample count base + i. */
  function Place(base: nat, i: nat, len: nat): (p: nat)
    requires len > 0
    ensures p < len
  {
    Arith.DivModOf(base + i, len);
    (base + i) % len
  }

  /** Counting on from base is stepping on from its place. */
  lemma PlaceSteps(base: nat, i: nat, len: nat)
    requires i <= len && len > 0
    ensures Place(base, i, len) == Wrap(Place(base, 0, len), i, len)
  {
    Arith.DivModOf(base, len);
    WrapIsMod(base % len, i, len);
    Arith.ModAddMultiple(base % len + i, base / len, len);
  }

  lemma PlaceBack(base: nat, i: nat, len: nat)
    requires i < len
    ensures Back(Place(base, i, len), Place(base, 0, len), len) == i
  {
    PlaceSteps(base, i, len);
  }
}
