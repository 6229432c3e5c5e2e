/** The packets the device sends: IPv4 around ICMP or TCP, each checksum in its field. */
module Packets {
  import opened Bytes
  import opened Checksum

  const PROTO_ICMP := 1
  const PROTO_TCP := 6

  type Addr = a: seq<Byte> | |a| == 4 witness [0, 0, 0, 0]

  /** An IPv4 header before its checksum: no options, not to be fragmented, time to live 64. */
  function BareHeader(src: Addr, dst: Addr, proto: Byte, total: nat): (s: seq<Byte>)
    ensures |s| == 20
  {
    [0x45, 0] + Be16(total) + [0, 0, 0x40, 0, 64, proto, 0, 0] + src + dst
  }

  function HeaderOf(src: Addr, dst: Addr, proto: Byte, total: nat): (s: seq<Byte>)
    ensures |s| == 20
  {
    Sealed(BareHeader(src, dst, proto, total), 10, 0)
  }

  function Ipv4Of(src: Addr, dst: Addr, proto: Byte, l4: seq<Byte>): seq<Byte> {
    HeaderOf(src, dst, proto, 20 + |l4|) + l4
  }

  function BareIcmp(kind: Byte, ident: nat, num: nat, data: seq<Byte>): (s: seq<Byte>)
    ensures |s| == 8 + |data|
  {
    [kind, 0, 0, 0] + Be16(ident) + Be16(num) + data
  }

  function IcmpOf(kind: Byte, ident: nat, num: nat, data: seq<Byte>): (s: seq<Byte>)
    ensures |s| == 8 + |data|
  {
    Sealed(BareIcmp(kind, ident, num, data), 2, 0)
  }

  method Ipv4Packet(src: Addr, dst: Addr, proto: Byte, l4: seq<Byte>) returns (pkt: seq<Byte>)
    ensures pkt == Ipv4Of(src, dst, proto, l4)
  {
    hide Sum, Finished;
    var total := 20 + |l4|;
    pkt := seq(total, _ => 0);
    pkt := pkt[0 := 0x45];
    pkt := Patch(pkt, 2, Be16(total));
    pkt := pkt[6 := 0x40][8 := 64][9 := proto];
    pkt := Patch(pkt, 12, src);
    pkt := Patch(pkt, 16, dst);
    ghost var bare := BareHeader(src, dst, proto, total);
    assert pkt[..20] == bare && Blank(bare, 10) == bare;
    var c := Checksum.Checksum(pkt[..20]);
    pkt := Patch(pkt, 10, Be16(c));
    assert pkt[..20] == Sealed(bare, 10, 0);
    pkt := Patch(pkt, 20, l4);
    assert pkt == Sealed(bare, 10, 0) + l4;
  }

  /** Ping out. */
  method IcmpEchoRequest(src: Addr, dst: Addr, ident: nat, num: nat, payload: seq<Byte>) returns (pkt: seq<Byte>)
    ensures pkt == Ipv4Of(src, dst, PROTO_ICMP, IcmpOf(8, ident, num, payload))
  {
    hide Sum, Finished, Ipv4Of;
    var icmp: seq<Byte> := [8, 0, 0, 0];
    icmp := icmp + Be16(ident);
    icmp := icmp + Be16(num);
    icmp := icmp + payload;
    assert icmp == BareIcmp(8, ident, num, payload);
    assert Blank(icmp, 2) == icmp;
    var c := Checksum.Checksum(icmp);
    icmp := Patch(icmp, 2, Be16(c));
    pkt := Ipv4Packet(src, dst, PROTO_ICMP, icmp);
  }

  // ---- every packet verifies -----------------------------------------------------------------

  /** The header checksum of every IPv4 packet sums to zero. */
  lemma HeaderVerifies(src: Addr, dst: Addr, proto: Byte, l4: seq<Byte>)
    ensures ChecksumOf(Ipv4Of(src, dst, proto, l4)[..20]) == 0
  {
    hide Finished, Sum, Sealed;
    SealedVerifies(BareHeader(src, dst, proto, 20 + |l4|), 10, 0);
    assert Ipv4Of(src, dst, proto, l4)[..20] == HeaderOf(src, dst, proto, 20 + |l4|);
  }

  /** The checksum of every ICMP message sums to zero, for any payload. */
  lemma IcmpVerifies(kind: Byte, ident: nat, num: nat, data: seq<Byte>)
    ensures ChecksumOf(IcmpOf(kind, ident, num, data)) == 0
  {
    hide Finished, Sum, Sealed;
    SealedVerifies(BareIcmp(kind, ident, num, data), 2, 0);
  }
}
