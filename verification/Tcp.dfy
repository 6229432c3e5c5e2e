/** TCP segments inside IPv4 packets: how they are built and how each side reads them. */
module Tcp {
  import opened Values
  import opened Bytes
  import opened Checksum
  import opened Packets

  const FIN := 1
  const SYN := 2
  const RST := 4
  const PSH := 8
  const ACK := 16

  /** Whether a flag is set. */
  predicate Has(flags: nat, flag: nat)
    requires flag > 0
  {
    flags / flag % 2 == 1
  }

  type u32 = n: nat | n < WORD

  type u16 = n: nat | n < 65536

  /** Addition modulo 2^32. */
  function Plus(a: u32, n: nat): (r: u32) { (a + n) % WORD }

  lemma PlusPlus(n: u32, a: nat, b: nat)
    ensures Plus(Plus(n, a), b) == Plus(n, a + b)
  {
  }

  function Be32(n: u32): (s: seq<Byte>)
    ensures |s| == 4
  {
    Be16(n / 65536) + Be16(n % 65536)
  }

  function Word32(s: seq<Byte>, at: nat): (w: u32)
    requires at + 4 <= |s|
  {
    Word(s, at) * 65536 + Word(s, at + 2)
  }

  /** A segment before its checksum: no options, a window of 64240. */
  function BareTcp(sport: u16, dport: u16, num: u32, ack: u32, flags: Byte, payload: seq<Byte>): (s: seq<Byte>)
    ensures |s| == 20 + |payload|
  {
    Be16(sport) + Be16(dport) + Be32(num) + Be32(ack) + [80, flags] + Be16(64240) + [0, 0, 0, 0] + payload
  }

  /** The pseudo-header of section 3.1 of RFC 9293. */
  function PseudoHeader(src: Addr, dst: Addr, len: nat): (s: seq<Byte>)
    ensures |s| == 12
  {
    src + dst + [0, PROTO_TCP] + Be16(len)
  }

  function TcpOf(src: Addr, dst: Addr, sport: u16, dport: u16, num: u32, ack: u32, flags: Byte, payload: seq<Byte>): (s: seq<Byte>)
    ensures |s| == 20 + |payload|
  {
    Sealed(BareTcp(sport, dport, num, ack, flags, payload), 16, Sum(PseudoHeader(src, dst, 20 + |payload|)))
  }

  function SegmentOf(src: Addr, dst: Addr, sport: u16, dport: u16, num: u32, ack: u32, flags: Byte, payload: seq<Byte>): seq<Byte> {
    Ipv4Of(src, dst, PROTO_TCP, TcpOf(src, dst, sport, dport, num, ack, flags, payload))
  }

  /** The TCP checksum of every segment, over its pseudo-header, sums to zero. */
  lemma TcpVerifies(src: Addr, dst: Addr, sport: u16, dport: u16, num: u32, ack: u32, flags: Byte, payload: seq<Byte>)
    ensures var t := TcpOf(src, dst, sport, dport, num, ack, flags, payload);
            Finished(Sum(PseudoHeader(src, dst, |t|)) + Sum(t)) == 0
  {
    hide Sum, Finished, Sealed;
    SealedVerifies(BareTcp(sport, dport, num, ack, flags, payload), 16, Sum(PseudoHeader(src, dst, 20 + |payload|)));
  }

  // ---- building ------------------------------------------------------------------------------

  method L4Checksum(src: Addr, dst: Addr, l4: seq<Byte>) returns (c: nat)
    ensures c == Finished(Sum(PseudoHeader(src, dst, |l4|)) + Sum(l4))
  {
    var sum := Sum16(PseudoHeader(src, dst, |l4|), 0);
    sum := Sum16(l4, sum);
    c := Finish(sum);
  }

  /** The header fields of a segment, written into a blank buffer one by one. */
  method FillTcp(sport: u16, dport: u16, num: u32, ack: u32, flags: Byte, payload: seq<Byte>) returns (tcp: seq<Byte>)
    ensures tcp == BareTcp(sport, dport, num, ack, flags, payload)
  {
    hide Be16, Be32, Patch;
    tcp := seq(20 + |payload|, _ => 0);
    PatchNext(tcp, [], Be16(sport));
    tcp := Patch(tcp, 0, Be16(sport));
    PatchNext(tcp, Be16(sport), Be16(dport));
    tcp := Patch(tcp, 2, Be16(dport));
    PatchNext(tcp, Be16(sport) + Be16(dport), Be32(num));
    tcp := Patch(tcp, 4, Be32(num));
    ghost var head := Be16(sport) + Be16(dport) + Be32(num);
    PatchNext(tcp, head, Be32(ack));
    tcp := Patch(tcp, 8, Be32(ack));
    tcp := tcp[12 := 80][13 := flags];
    head := head + Be32(ack) + [80, flags];
    assert tcp[..14] == head;
    PatchNext(tcp, head, Be16(64240));
    tcp := Patch(tcp, 14, Be16(64240));
    head := head + Be16(64240) + [0, 0, 0, 0];
    assert tcp[..20] == head;
    PatchNext(tcp, head, payload);
    tcp := Patch(tcp, 20, payload);
    assert tcp[..20 + |payload|] == tcp;
  }

  /** Patching the bytes right after a finished prefix extends it and leaves the rest alone. */
  lemma PatchNext(s: seq<Byte>, head: seq<Byte>, b: seq<Byte>)
    requires |head| + |b| <= |s| && s[..|head|] == head
    ensures var r := Patch(s, |head|, b);
            r[..|head| + |b|] == head + b && forall i | |head| + |b| <= i < |s| :: r[i] == s[i]
  {
  }

  method Segment(src: Addr, dst: Addr, sport: u16, dport: u16, num: u32, ack: u32, flags: Byte, payload: seq<Byte>)
    returns (pkt: seq<Byte>)
    ensures pkt == SegmentOf(src, dst, sport, dport, num, ack, flags, payload)
  {
    hide Sum, Finished, Ipv4Of, PseudoHeader;
    var tcp := FillTcp(sport, dport, num, ack, flags, payload);
    assert Blank(tcp, 16) == tcp by { BlankField(sport, dport, num, ack, flags, payload); }
    var c := L4Checksum(src, dst, tcp);
    tcp := Patch(tcp, 16, Be16(c));
    pkt := Ipv4Packet(src, dst, PROTO_TCP, tcp);
  }

  lemma BlankField(sport: u16, dport: u16, num: u32, ack: u32, flags: Byte, payload: seq<Byte>)
    ensures var s := BareTcp(sport, dport, num, ack, flags, payload); Blank(s, 16) == s
  {
    var s := BareTcp(sport, dport, num, ack, flags, payload);
    assert s[16] == 0 && s[17] == 0;
  }

  // ---- reading -------------------------------------------------------------------------------

  datatype Seg = Seg(num: u32, flags: Byte, payload: seq<Byte>)

  /** The segment in a TCP header and what follows it. */
  function SegAt(tcp: seq<Byte>): Option<Seg>
    requires |tcp| >= 20
  {
    var off := tcp[12] / 16 * 4;
    if off < 20 || off > |tcp| then None else Some(Seg(Word32(tcp, 4), tcp[13], tcp[off..]))
  }

  lemma Be16Reads(s: seq<Byte>, at: nat, n: u16)
    requires at + 2 <= |s| && s[at] == Be16(n)[0] && s[at + 1] == Be16(n)[1]
    ensures Word(s, at) == n
  {
  }

  lemma Be32Reads(s: seq<Byte>, at: nat, n: u32)
    requires at + 4 <= |s|
    requires s[at] == Be32(n)[0] && s[at + 1] == Be32(n)[1] && s[at + 2] == Be32(n)[2] && s[at + 3] == Be32(n)[3]
    ensures Word32(s, at) == n
  {
    hide Word, Be16;
    Be16Reads(s, at, n / 65536);
    Be16Reads(s, at + 2, n % 65536);
  }

  /** Ports, number, flags and payload of a built segment read back. */
  lemma TcpReads(src: Addr, dst: Addr, sport: u16, dport: u16, num: u32, ack: u32, flags: Byte, payload: seq<Byte>)
    ensures var t := TcpOf(src, dst, sport, dport, num, ack, flags, payload);
            Word(t, 0) == sport && Word(t, 2) == dport && SegAt(t) == Some(Seg(num, flags, payload))
  {
    hide Sum, Finished, Sealed, Word, Word32, Be16, Be32;
    var s := BareTcp(sport, dport, num, ack, flags, payload);
    var t := TcpOf(src, dst, sport, dport, num, ack, flags, payload);
    SealedElsewhere(s, 16, Sum(PseudoHeader(src, dst, 20 + |payload|)));
    assert s[0] == Be16(sport)[0] && s[1] == Be16(sport)[1];
    assert s[2] == Be16(dport)[0] && s[3] == Be16(dport)[1];
    assert s[4] == Be32(num)[0] && s[5] == Be32(num)[1] && s[6] == Be32(num)[2] && s[7] == Be32(num)[3];
    assert s[12] == 80 && s[13] == flags && s[20..] == payload;
    Be16Reads(t, 0, sport);
    Be16Reads(t, 2, dport);
    Be32Reads(t, 4, num);
    assert t[20..] == s[20..];
  }

  /** The IPv4 fields of a built packet. */
  lemma Ipv4Reads(src: Addr, dst: Addr, proto: Byte, l4: seq<Byte>)
    requires 20 + |l4| <= 65535
    ensures var p := Ipv4Of(src, dst, proto, l4);
            |p| == 20 + |l4| && p[0] == 0x45 && Word(p, 2) == |p| && p[9] == proto
            && p[12..16] == src && p[16..20] == dst && p[20..] == l4
  {
    hide Sum, Finished, Sealed;
    var s, p := BareHeader(src, dst, proto, 20 + |l4|), Ipv4Of(src, dst, proto, l4);
    SealedElsewhere(s, 10, 0);
    assert p[..20] == HeaderOf(src, dst, proto, 20 + |l4|);
    assert s[12..16] == src && s[16..20] == dst && s[9] == proto;
    assert p[12..16] == s[12..16] && p[16..20] == s[16..20];
    Be16Reads(p, 2, 20 + |l4|);
  }
}
