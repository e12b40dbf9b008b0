/** Which sink a UDP packet goes to: the key of driver/RTP_stream_info.c and the dispatch loop of
    driver/RTP_streams_manager.c. */
module Dispatch {
  import opened CInt

  function Swap16(x: U16): U16 { x % 256 * 256 + x / 256 }

  function Swap32(x: U32): U32 { Swap16(x % 0x1_0000) * 0x1_0000 + Swap16(x / 0x1_0000) }

  /** The three fields side by side, 8, 32 and 16 bits wide. */
  function MakeKey(nic: Byte, ip: U32, port: U16): U64 { nic * 0x1_0000_0000_0000 + ip * 0x1_0000 + port }

  /** Destination of a sink in host order. */
  datatype Address = Address(nic: Byte, ip: U32, port: U16)

  /** get_key: of a configured stream. */
  function KeyOf(a: Address): U64 { MakeKey(a.nic, Swap32(a.ip), Swap16(a.port)) }

  lemma SwapsTwo(hi: Byte, lo: Byte)
    ensures Swap16(hi * 0x100 + lo) == lo * 0x100 + hi
  {}

  /** The octets in reverse order. */
  lemma SwapReverses(b0: Byte, b1: Byte, b2: Byte, b3: Byte)
    ensures Swap32((b3 * 0x100 + b2) * 0x1_0000 + (b1 * 0x100 + b0)) == (b0 * 0x100 + b1) * 0x1_0000 + (b2 * 0x100 + b3)
  {
    Halves(b3 * 0x100 + b2, b1 * 0x100 + b0);
    SwapsTwo(b3, b2);
    SwapsTwo(b1, b0);
  }

  lemma Halves(hi: U16, lo: U16)
    ensures (hi * 0x1_0000 + lo) % 0x1_0000 == lo && (hi * 0x1_0000 + lo) / 0x1_0000 == hi
  {}

  lemma Swap32Back(x: U32)
    ensures Swap32(Swap32(x)) == x
  {
    Swap16Back(x % 0x1_0000);
    Swap16Back(x / 0x1_0000);
    Halves(Swap16(x % 0x1_0000), Swap16(x / 0x1_0000));
  }

  lemma Swap16Back(y: U16)
    ensures Swap16(Swap16(y)) == y
  {
    assert (y % 256 * 256 + y / 256) % 256 == y / 256;
  }

  lemma FieldsOfKey(nic: Byte, ip: U32, port: U16)
    ensures var k := MakeKey(nic, ip, port);
            k % 0x1_0000 == port && k / 0x1_0000 % 0x1_0000_0000 == ip && k / 0x1_0000 / 0x1_0000_0000 == nic
  {
    var k, high := MakeKey(nic, ip, port), nic * 0x1_0000_0000 + ip;
    assert k == high * 0x1_0000 + port;
  }

  /** A packet with the network-order fields of address p matches a stream configured for address a
      exactly when the two addresses are the same. */
  lemma KeyMatchesAddress(p: Address, a: Address)
    ensures MakeKey(p.nic, Swap32(p.ip), Swap16(p.port)) == KeyOf(a) <==> p == a
  {
    FieldsOfKey(p.nic, Swap32(p.ip), Swap16(p.port));
    FieldsOfKey(a.nic, Swap32(a.ip), Swap16(a.port));
    Swap32Back(p.ip);
    Swap32Back(a.ip);
    Swap16Back(p.port);
    Swap16Back(a.port);
  }

  /** The dispatch loop of process_UDP_packet: every listed sink of the packet's own address is served,
      in list order, and no other. */
  method Serve(p: Address, sinks: seq<Address>) returns (served: seq<nat>)
    ensures forall k :: k in served <==> 0 <= k < |sinks| && sinks[k] == p
    ensures forall i, j :: 0 <= i < j < |served| ==> served[i] < served[j]
  {
    var key := MakeKey(p.nic, Swap32(p.ip), Swap16(p.port));
    served := [];
    var k := 0;
    while k < |sinks|
      invariant 0 <= k <= |sinks|
      invariant forall j :: j in served <==> 0 <= j < k && sinks[j] == p
      invariant forall i, j :: 0 <= i < j < |served| ==> served[i] < served[j]
    {
      KeyMatchesAddress(p, sinks[k]);
      if key == KeyOf(sinks[k]) {
        assert forall i :: 0 <= i < |served| ==> served[i] in served;
        served := served + [k];
      }
      k := k + 1;
    }
  }
}
