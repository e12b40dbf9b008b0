/** The fractional wake-up accumulator: computeNextAbsoluteTime of driver/PTP.c.
    Times are in units of 100 us; U picoseconds make one unit. */
module WakeUp {
  import opened CInt
  import Arith

  const U: int := 100_000_000  // PS_2_REF_UNIT

  datatype Wake = Wake(next: U64, frac: U64)

  /** The closed form the driver runs. */
  function Advance(w: Wake, period: U64, n: U32): Wake
  {
    Shift(w, period / U * n, period % U * n)
  }

  /** Move by whole units and picoseconds, then carry what fits the 32-bit cast. */
  function Shift(w: Wake, units: nat, ps: nat): Wake
  {
    var next1 := W64(w.next + W64(units));
    var frac1 := W64(w.frac + W64(ps));
    if frac1 > U then
      var epsilon := W32(frac1) / U;
      Wake(W64(next1 + epsilon), frac1 - U * epsilon)
    else
      Wake(next1, frac1)
  }

  /** The loop it replaces, kept in the source as a comment. */
  function AdvanceLoop(w: Wake, period: U64, n: nat): Wake
  {
    Loop(w, period / U, period % U, n)
  }

  function Loop(w: Wake, units: nat, ps: nat, n: nat): Wake
    decreases n
  {
    if n == 0 then w else Loop(LoopStep(w, units, ps), units, ps, n - 1)
  }

  function LoopStep(w: Wake, units: nat, ps: nat): Wake
  {
    var next1 := W64(w.next + units);
    var frac1 := W64(w.frac + ps);
    if frac1 > U then Wake(W64(next1 + 1), frac1 - U) else Wake(next1, frac1)
  }

  /** Position on the time line, in picoseconds. */
  function Phase(w: Wake): int { U * w.next + w.frac }

  const PHASE_MODULUS: int := U * TWO64

  lemma SplitPeriod(period: nat, n: nat)
    ensures n * period == U * (period / U * n) + period % U * n
    ensures 0 <= period / U * n
    ensures 0 <= period % U * n <= (U - 1) * n
  {
    var q, r := period / U, period % U;
    assert period == q * U + r;
    Arith.MulDist(q * U, r, n);
    Arith.MulAssoc(U, q, n);
    Arith.MulNonNeg(q, n);
    Arith.MulNonNeg(r, n);
    Arith.MulMono(r, U - 1, n);
  }

  lemma WrapCount(x: nat) returns (k: int)
    ensures W64(x) == x - k * TWO64
    ensures k >= 0 && (x < TWO64 ==> k == 0)
  {
    k := x / TWO64;
  }

  /** What the carry moves from the fraction to the units. */
  function Carry(f: nat): nat { if f > U then W32(f) / U else 0 }

  lemma ShiftParts(w: Wake, units: nat, ps: nat)
    requires w.frac + ps < TWO64
    ensures var f := w.frac + ps;
            && Shift(w, units, ps).frac == f - U * Carry(f)
            && Shift(w, units, ps).next == W64(W64(w.next + W64(units)) + Carry(f))
            && 0 <= Carry(f) <= f / U
  {
    var f := w.frac + ps;
    assert W64(w.frac + W64(ps)) == f;
    assert W32(f) <= f;
  }

  lemma ShiftPhase(w: Wake, units: nat, ps: nat) returns (k: int)
    requires w.frac + ps < TWO64
    ensures Phase(Shift(w, units, ps)) == Phase(w) + U * units + ps - k * PHASE_MODULUS
    ensures w.next + units + (w.frac + ps) / U < TWO64 ==> k == 0
  {
    ShiftParts(w, units, ps);
    k := WrapThrice(w.next, units, Carry(w.frac + ps));
  }

  lemma WrapThrice(next: U64, units: nat, carry: nat) returns (k: int)
    ensures W64(W64(next + W64(units)) + carry) == next + units + carry - k * TWO64
    ensures next + units + carry < TWO64 ==> k == 0
  {
    var k1 := WrapCount(units);
    var k2 := WrapCount(next + W64(units));
    var k3 := WrapCount(W64(next + W64(units)) + carry);
    k := k1 + k2 + k3;
  }

  /** Whatever the state and the frame count, the wake-up moves by exactly n periods on the
      time line, modulo the 64-bit wrap of the unit counter. */
  lemma PhaseConserved(w: Wake, period: U64, n: U32)
    requires w.frac <= U
    ensures Phase(Advance(w, period, n)) % PHASE_MODULUS == (Phase(w) + n * period) % PHASE_MODULUS
    ensures Phase(w) + n * period < PHASE_MODULUS ==>
              Phase(Advance(w, period, n)) == Phase(w) + n * period
  {
    var units, ps := period / U * n, period % U * n;
    SplitPeriod(period, n);
    var k := ShiftPhase(w, units, ps);
    PhaseModulo(Phase(Advance(w, period, n)), Phase(w) + n * period, k);
    if Phase(w) + n * period < PHASE_MODULUS {
      UnitsFit(w, units, ps);
    }
  }

  lemma PhaseModulo(after: int, expected: int, k: int)
    requires after == expected - k * PHASE_MODULUS
    ensures after % PHASE_MODULUS == expected % PHASE_MODULUS
  {
    Arith.ModAddMultiple(expected, -k, PHASE_MODULUS);
  }

  lemma UnitsFit(w: Wake, units: nat, ps: nat)
    requires Phase(w) + U * units + ps < PHASE_MODULUS
    ensures w.next + units + (w.frac + ps) / U < TWO64
  {}

  /** The fraction stays within one unit exactly when the accumulated fraction fits the 32-bit cast; a
      single tick always does. */
  lemma FracBounded(w: Wake, period: U64, n: U32)
    requires w.frac <= U
    ensures Advance(w, period, n).frac <= U <==> w.frac + period % U * n < TWO32
    ensures Advance(w, period, 1).frac <= U
  {
    SplitPeriod(period, n);
    ShiftCarry(w, period / U * n, period % U * n);
    ShiftCarry(w, period / U * 1, period % U * 1);
  }

  lemma ShiftCarry(w: Wake, units: nat, ps: nat)
    requires w.frac + ps < TWO64
    ensures Shift(w, units, ps).frac <= U <==> w.frac + ps < TWO32
  {
    ShiftParts(w, units, ps);
    BigFraction(w.frac + ps);
  }

  lemma BigFraction(f: nat)
    ensures f - U * Carry(f) <= U <==> f < TWO32
  {
    if f >= TWO32 {
      assert W32(f) <= f - TWO32;
      assert U * (W32(f) / U) <= W32(f);
    }
  }

  /** k ticks at a constant period: no drift accumulates. */
  function Ticks(w: Wake, period: U64, k: nat): Wake
    decreases k
  {
    if k == 0 then w else Advance(Ticks(w, period, k - 1), period, 1)
  }

  lemma {:induction false} NoDrift(w: Wake, period: U64, k: nat)
    requires w.frac <= U
    requires Phase(w) + k * period < PHASE_MODULUS
    ensures Ticks(w, period, k).frac <= U
    ensures Phase(Ticks(w, period, k)) == Phase(w) + k * period
    decreases k
  {
    if k > 0 {
      Arith.MulDist(k - 1, 1, period);
      Arith.MulNonNeg(k - 1, period);
      NoDrift(w, period, k - 1);
      var v := Ticks(w, period, k - 1);
      assert 1 * period == period;
      PhaseConserved(v, period, 1);
      FracBounded(v, period, 1);
    }
  }

  // -- The closed form against the loop

  lemma WrapInner(a: int, b: int)
    ensures W64(W64(a) + b) == W64(a + b) && W64(b + W64(a)) == W64(a + b)
  {
    Arith.ModAddMultiple(W64(a) + b, a / TWO64, TWO64);
    assert a + b == W64(a) + b + a / TWO64 * TWO64;
  }

  lemma LoopStepForm(w: Wake, units: nat, ps: nat) returns (b: nat)
    requires w.frac <= U && ps < U
    ensures b <= 1 && LoopStep(w, units, ps).next == W64(w.next + units + b)
    ensures LoopStep(w, units, ps).frac == w.frac + ps - U * b <= U
    ensures w.frac + ps > 0 <==> LoopStep(w, units, ps).frac > 0
  {
    b := if w.frac + ps > U then 1 else 0;
    if b == 1 { WrapInner(w.next + units, 1); }
  }

  lemma OneFrameLess(n: nat, x: nat, product: nat)
    requires n > 0 && product == x * n
    ensures product - x == x * (n - 1) && product - x >= 0
  {
    Arith.MulDist(n - 1, 1, x);
    Arith.MulNonNeg(n - 1, x);
  }

  /** The loop carries j units in all, and stops in a fraction that is zero only if nothing was ever
      added to it. */
  lemma {:induction false} LoopForm(w: Wake, units: nat, ps: nat, n: nat, whole: nat, added: nat) returns (j: nat)
    requires w.frac <= U && ps < U && whole == units * n && added == ps * n
    ensures Loop(w, units, ps, n).next == W64(w.next + whole + j)
    ensures Loop(w, units, ps, n).frac == w.frac + added - U * j <= U
    ensures w.frac + added > 0 <==> Loop(w, units, ps, n).frac > 0
    decreases n
  {
    if n == 0 {
      j := 0;
      assert units * 0 == 0 && ps * 0 == 0;
    } else {
      OneFrameLess(n, units, whole);
      OneFrameLess(n, ps, added);
      var b := LoopStepForm(w, units, ps);
      var w1 := LoopStep(w, units, ps);
      var j1 := LoopForm(w1, units, ps, n - 1, whole - units, added - ps);
      j := j1 + b;
      LoopGlue(w, w1, Loop(w1, units, ps, n - 1), units, ps, b, whole, added, j1);
    }
  }

  lemma LoopGlue(w: Wake, w1: Wake, r: Wake, units: nat, ps: nat, b: nat, whole: nat, added: nat, j1: nat)
    requires w1.next == W64(w.next + units + b) && w1.frac == w.frac + ps - U * b
    requires w.frac + ps > 0 <==> w1.frac > 0
    requires r.next == W64(w1.next + (whole - units) + j1) && r.frac == w1.frac + (added - ps) - U * j1
    requires units <= whole && ps <= added && (w1.frac + (added - ps) > 0 <==> r.frac > 0)
    ensures r.next == W64(w.next + whole + (j1 + b)) && r.frac == w.frac + added - U * (j1 + b)
    ensures w.frac + added > 0 <==> r.frac > 0
  {
    NextAfter(w.next, units, b, whole, j1);
  }

  lemma NextAfter(next: U64, units: nat, b: nat, whole: nat, j1: nat)
    ensures W64(W64(next + units + b) + (whole - units) + j1) == W64(next + whole + (j1 + b))
  {
    WrapInner(next + units + b, whole - units + j1);
  }

  lemma AdvanceForm(w: Wake, period: U64, n: U32, whole: nat, total: nat)
    requires w.frac <= U && whole == period / U * n && total == w.frac + period % U * n
    ensures Advance(w, period, n).next == W64(w.next + whole + Carry(total))
    ensures Advance(w, period, n).frac == total - U * Carry(total)
  {
    SplitPeriod(period, n);
    ShiftParts(w, whole, period % U * n);
    NextOfShift(w.next, whole, Carry(total));
  }

  lemma NextOfShift(next: U64, whole: nat, carry: nat)
    ensures W64(W64(next + W64(whole)) + carry) == W64(next + whole + carry)
  {
    WrapInner(whole, next);
    WrapInner(next + whole, carry);
  }

  /** The fraction of the closed form is one the loop can stop in exactly when the total does not reach
      the 32-bit cast and is not a multiple of the unit beyond the unit. */
  lemma CarryIsLoops(total: nat, j: nat)
    requires 0 <= total - U * j <= U && (total > 0 <==> total - U * j > 0)
    ensures Carry(total) == j <==> total <= U || (total < TWO32 && total % U != 0)
  {
    if total >= TWO32 {
      assert W32(total) <= total - TWO32;
      assert U * (W32(total) / U) <= W32(total);
    }
  }

  /** The closed form is the loop if and only if the total fraction is at most one unit, or is below 2^32
      and not a multiple of the unit; for every state, period and number of frames. */
  lemma ClosedFormIsLoop(w: Wake, period: U64, n: U32)
    requires w.frac <= U
    ensures var total := w.frac + period % U * n;
            Advance(w, period, n) == AdvanceLoop(w, period, n) <==> total <= U || (total < TWO32 && total % U != 0)
  {
    SplitPeriod(period, n);
    var whole, total := period / U * n, w.frac + period % U * n;
    AdvanceForm(w, period, n, whole, total);
    var j := LoopForm(w, period / U, period % U, n, whole, period % U * n);
    CarryIsLoops(total, j);
  }

  /** One frame, the only number the driver uses, is always the loop. */
  lemma OneTickIsLoop(w: Wake, period: U64)
    requires w.frac <= U
    ensures Advance(w, period, 1) == AdvanceLoop(w, period, 1)
  {
    ClosedFormIsLoop(w, period, 1);
    BelowTwoUnits(w.frac + period % U * 1);
  }

  lemma BelowTwoUnits(total: nat)
    requires total < 2 * U
    ensures total <= U || (total < TWO32 && total % U != 0)
  {}

  /** Two frames at once can differ: from a full fraction, at a period of half a unit, the loop leaves a
      full unit in the fraction where the closed form carries it. */
  lemma ClosedFormCanDiffer(next: U64)
    ensures Advance(Wake(next, U), 50_000_000, 2) != AdvanceLoop(Wake(next, U), 50_000_000, 2)
  {
    ClosedFormIsLoop(Wake(next, U), 50_000_000, 2);
  }

  /** Fifty frames at once overrun the 32-bit cast: the closed form leaves more than a unit behind. */
  lemma CastCanTruncate(next: U64)
    ensures Advance(Wake(next, 0), 99_999_999, 50) != AdvanceLoop(Wake(next, 0), 99_999_999, 50)
  {
    ClosedFormIsLoop(Wake(next, 0), 99_999_999, 50);
  }
}
