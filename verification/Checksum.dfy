/** The internet checksum of driver/MTAL_EthUtils.c (section 1 of RFC 1071, section 3.1 of RFC 791). */
module Checksum {
  import opened CInt

  /** Value of the big-endian 16-bit word at the head of s; an odd trailing octet is a high octet. */
  function WordAt(s: seq<Byte>): nat
    requires s != []
  {
    s[0] as int * 256 + (if |s| > 1 then s[1] as int else 0)
  }

  function WordSum(s: seq<Byte>): nat
    decreases |s|
  {
    if s == [] then 0 else WordAt(s) + WordSum(if |s| > 1 then s[2..] else [])
  }

  /** One deferred-carry fold of the 32-bit accumulator. */
  function FoldCarry(acc: nat): nat { acc / TWO16 + acc % TWO16 }

  function Finish(acc: nat): U16
  {
    var a := FoldCarry(acc);
    0xFFFF - W16(if a / TWO16 != 0 then FoldCarry(a) else a)
  }

  lemma {:induction false} SumBound(s: seq<Byte>)
    ensures WordSum(s) <= (|s| + 1) / 2 * 0xFFFF
    decreases |s|
  {
    if s != [] {
      SumBound(if |s| > 1 then s[2..] else []);
    }
  }

  /** For any 16-bit length the 32-bit accumulator cannot overflow, and one conditional second
      fold always removes the carry. */
  lemma AccumulatorFits(s: seq<Byte>)
    requires |s| < TWO16
    ensures WordSum(s) < TWO32
    ensures FoldCarry(FoldCarry(WordSum(s))) < TWO16
  {
    SumBound(s);
  }

  /** The computed checksum complements the sum modulo 0xFFFF, and is 0 only when the sum is a
      positive multiple of 0xFFFF. */
  lemma FinishMeaning(sum: nat)
    requires sum < TWO32
    ensures (sum + Finish(sum)) % 0xFFFF == 0
    ensures Finish(sum) == 0 <==> sum > 0 && sum % 0xFFFF == 0
    ensures Finish(sum) == 0xFFFF <==> sum == 0
  {
    var a := FoldCarry(sum);
    assert a <= 0x1FFFE;
    assert a % 0xFFFF == sum % 0xFFFF by { assert sum == sum / TWO16 * 0xFFFF + a; }
    var b := if a / TWO16 != 0 then FoldCarry(a) else a;
    assert b < TWO16;
    assert b % 0xFFFF == sum % 0xFFFF;
  }

  /** MTAL_ComputeChecksum. */
  method ComputeChecksum(data: seq<Byte>) returns (sum: U16)
    requires |data| < TWO16
    ensures sum == Finish(WordSum(data))
  {
    var acc: U32 := 0;
    var len, octet := |data|, 0;
    AccumulatorFits(data);
    while len > 1
      invariant 0 <= octet <= |data| && len == |data| - octet
      invariant acc + WordSum(data[octet..]) == WordSum(data)
    {
      assert data[octet..][2..] == data[octet + 2..];
      var src := data[octet] as int * 256;
      octet := octet + 1;
      src := src + data[octet] as int;
      octet := octet + 1;
      acc := acc + src;
      len := len - 2;
    }
    if len > 0 {
      assert data[octet..] == [data[octet]];
      acc := acc + data[octet] as int * 256;
    }
    var folded := acc / TWO16 + acc % TWO16;
    if folded / TWO16 != 0 {
      folded := folded / TWO16 + folded % TWO16;
    }
    sum := 0xFFFF - W16(folded);
  }

  /** Header with the checksum stored in network order at byte position p. */
  function Stored(header: seq<Byte>, p: nat, sum: U16): seq<Byte>
    requires p + 1 < |header|
  {
    header[p := sum / 256][p + 1 := sum % 256]
  }

  lemma {:induction false} StoreAdds(header: seq<Byte>, p: nat, sum: U16)
    requires p + 1 < |header| && p % 2 == 0 && header[p] == 0 && header[p + 1] == 0
    ensures WordSum(Stored(header, p, sum)) == WordSum(header) + sum
    decreases p
  {
    var stored := Stored(header, p, sum);
    if p == 0 {
      assert stored[2..] == header[2..];
    } else {
      StoreAdds(header[2..], p - 2, sum);
      assert stored[2..] == Stored(header[2..], p - 2, sum);
    }
  }

  /** A receiver that recomputes the checksum over the header as stored gets 0. */
  lemma RecomputeIsZero(header: seq<Byte>, p: nat)
    requires |header| < TWO16
    requires p + 1 < |header| && p % 2 == 0 && header[p] == 0 && header[p + 1] == 0
    ensures Finish(WordSum(Stored(header, p, Finish(WordSum(header))))) == 0
  {
    var sum := WordSum(header);
    AccumulatorFits(header);
    AccumulatorFits(Stored(header, p, Finish(sum)));
    StoreAdds(header, p, Finish(sum));
    FinishMeaning(sum);
    FinishMeaning(sum + Finish(sum));
  }

  /** Which values of the checksum field pass a recomputation: those congruent to the computed one. */
  lemma AcceptedExactlyWhenCongruent(header: seq<Byte>, p: nat, other: U16)
    requires |header| < TWO16
    requires p + 1 < |header| && p % 2 == 0 && header[p] == 0 && header[p + 1] == 0
    ensures Finish(WordSum(Stored(header, p, other))) == 0 <==>
            WordSum(header) + other > 0 && (other - Finish(WordSum(header))) % 0xFFFF == 0
  {
    AccumulatorFits(header);
    AccumulatorFits(Stored(header, p, other));
    StoreAdds(header, p, other);
    SumAccepted(WordSum(header), other, Finish(WordSum(header)));
  }

  lemma SumAccepted(sum: nat, other: U16, check: U16)
    requires sum + other < TWO32 && check == Finish(sum)
    ensures Finish(sum + other) == 0 <==> sum + other > 0 && (other - check) % 0xFFFF == 0
  {
    CheckComplements(sum, check);
    ZeroExactlyWhen(sum + other);
    ResidueDifference(sum, other, check);
  }

  lemma CheckComplements(sum: nat, check: U16)
    requires sum < TWO32 && check == Finish(sum)
    ensures (sum + check) % 0xFFFF == 0
  {
    FinishMeaning(sum);
  }

  lemma ZeroExactlyWhen(sum: nat)
    requires sum < TWO32
    ensures Finish(sum) == 0 <==> sum > 0 && sum % 0xFFFF == 0
  {
    FinishMeaning(sum);
  }

  lemma ResidueDifference(sum: nat, other: nat, check: nat)
    requires (sum + check) % 0xFFFF == 0
    ensures (sum + other) % 0xFFFF == 0 <==> (other - check) % 0xFFFF == 0
  {
    assert sum + other == sum + check + (other - check);
  }
}
