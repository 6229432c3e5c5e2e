/** The packets byte by byte, and their checksums by one's-complement arithmetic alone. */
module WireLaws {
  import opened Bytes
  import opened Checksum
  import opened Packets
  import opened Echo
  import opened Tcp

  // ---- one's-complement sums (section 1 of RFC 1071) -----------------------------------------

  type Half = n: nat | n < 65536

  /** Addition of 16-bit words with the carry brought round. */
  function OnesPlus(a: Half, b: Half): (r: Half) { if a + b < 65536 then a + b else a + b - 65535 }

  /** The one's-complement sum of a message read in pairs of bytes, a lone last byte paired with zero. */
  function OnesSum(s: seq<Byte>): Half
    decreases |s|
  {
    if s == [] then 0
    else
      var hi: nat, lo: nat := s[0], if |s| == 1 then 0 else s[1];
      OnesPlus(256 * hi + lo, OnesSum(if |s| == 1 then [] else s[2..]))
  }

  /** The same residue modulo 65535, and zero together: folded sums are told apart by no more. */
  ghost predicate Alike(sum: nat, half: Half) { sum % 65535 == half % 65535 && (sum == 0 <==> half == 0) }

  lemma AlikePlus(a: nat, x: Half, b: nat, y: Half)
    requires Alike(a, x) && Alike(b, y)
    ensures Alike(a + b, OnesPlus(x, y))
  {
    ResidueSum(a, x, b, y);
    if x + y >= 65536 { AddMultiple(x + y - 65535, 1); }
  }

  lemma ResidueSum(a: nat, x: nat, b: nat, y: nat)
    requires a % 65535 == x % 65535 && b % 65535 == y % 65535
    ensures (a + b) % 65535 == (x + y) % 65535
  {
    var p, q := a % 65535, b % 65535;
    assert a + b == p + q + (a / 65535 + b / 65535) * 65535;
    assert x + y == p + q + (x / 65535 + y / 65535) * 65535;
    AddMultiple(p + q, a / 65535 + b / 65535);
    AddMultiple(p + q, x / 65535 + y / 65535);
  }

  lemma AlikeIsFolded(sum: nat, half: Half)
    requires Alike(sum, half)
    ensures Finished(sum) == 65535 - half
  {
    hide Fold;
    FoldMod(sum);
    assert Fold(sum) < 65536 && (Fold(sum) == 0 <==> sum == 0);
  }

  /** An odd message sums as it would with a zero byte behind it. */
  lemma OddIsPadded(s: seq<Byte>)
    requires |s| % 2 == 1
    ensures Sum(s) == Sum(s + [0])
  {
    var k, t := |s| / 2, s + [0];
    WordSumOfPrefix(s[..2 * k], s[2 * k..] + [0], k);
    WordSumOfPrefix(s[..2 * k], s[2 * k..], k);
    assert t == s[..2 * k] + (s[2 * k..] + [0]) && s == s[..2 * k] + s[2 * k..];
    assert |t| / 2 == k + 1 && Word(t, 2 * k) == LastByte(s);
    assert LastByte(t) == 0;
  }

  lemma OneWord(s: seq<Byte>)
    requires |s| == 2
    ensures var hi: nat, lo: nat := s[0], s[1]; Sum(s) == 256 * hi + lo
  {
    assert WordSum(s, 1) == WordSum(s, 0) + Word(s, 0);
  }

  lemma {:induction false} SumAlike(s: seq<Byte>)
    ensures Alike(Sum(s), OnesSum(s))
  {
    hide Sum, Alike, OnesPlus;
    if s == [] {
      Zero();
    } else if |s| == 1 {
      OddIsPadded(s);
      OneWord(s + [0]);
      HalfAlike(Sum(s));
      Zero();
      AlikePlus(Sum(s), Sum(s), Sum([]), 0);
    } else {
      SumAlike(s[2..]);
      OneWord(s[..2]);
      HalfAlike(Sum(s[..2]));
      AlikePlus(Sum(s[..2]), Sum(s[..2]), Sum(s[2..]), OnesSum(s[2..]));
      assert s == s[..2] + s[2..];
      SumOfParts(s[..2], s[2..]);
    }
  }

  lemma Zero()
    ensures Sum([]) == 0 && Alike(0, 0)
  {
  }

  lemma HalfAlike(n: Half)
    ensures Alike(n, n)
  {
  }

  /** The checksum of a message is the complement of its one's-complement sum. */
  lemma ChecksumIsComplement(s: seq<Byte>)
    ensures ChecksumOf(s) == 65535 - OnesSum(s)
  {
    hide Sum, OnesSum, Finished;
    SumAlike(s);
    AlikeIsFolded(Sum(s), OnesSum(s));
  }

  /** A message that ends a longer one, summed apart. */
  lemma PartsComplement(head: seq<Byte>, s: seq<Byte>)
    requires |head| % 2 == 0
    ensures Finished(Sum(head) + Sum(s)) == 65535 - OnesSum(head + s)
  {
    hide Sum, OnesSum, Finished;
    SumOfParts(head, s);
    ChecksumIsComplement(head + s);
  }

  // ---- what a receiver finds -----------------------------------------------------------------

  /** The header of every IPv4 packet, and the ICMP message of every ping and reply, sum to all ones. */
  lemma PingsSumToOnes(src: Addr, dst: Addr, proto: Byte, l4: seq<Byte>, kind: Byte, ident: nat, num: nat, data: seq<Byte>)
    ensures OnesSum(Ipv4Of(src, dst, proto, l4)[..20]) == 65535
    ensures OnesSum(IcmpOf(kind, ident, num, data)) == 65535
  {
    hide OnesSum, ChecksumOf, Ipv4Of, IcmpOf;
    assert |Ipv4Of(src, dst, proto, l4)| >= 20 by { PacketSize(src, dst, proto, l4); }
    HeaderVerifies(src, dst, proto, l4);
    ChecksumIsComplement(Ipv4Of(src, dst, proto, l4)[..20]);
    IcmpVerifies(kind, ident, num, data);
    ChecksumIsComplement(IcmpOf(kind, ident, num, data));
  }

  lemma PacketSize(src: Addr, dst: Addr, proto: Byte, l4: seq<Byte>)
    ensures |Ipv4Of(src, dst, proto, l4)| == 20 + |l4|
  {
    hide HeaderOf;
  }

  /** A TCP segment behind the pseudo-header of section 3.1 of RFC 9293 (both addresses, a zero, 6, the length) sums to all ones. */
  lemma SegmentsSumToOnes(src: Addr, dst: Addr, sport: u16, dport: u16, num: u32, ack: u32, flags: Byte, payload: seq<Byte>)
    requires 20 + |payload| < 65536
    ensures var t := TcpOf(src, dst, sport, dport, num, ack, flags, payload);
            OnesSum(src + dst + [0, 6] + [|t| / 256, |t| % 256] + t) == 65535
  {
    hide OnesSum, Finished, Sum, TcpOf;
    var t := TcpOf(src, dst, sport, dport, num, ack, flags, payload);
    TcpVerifies(src, dst, sport, dport, num, ack, flags, payload);
    var head := PseudoHeader(src, dst, |t|);
    PartsComplement(head, t);
    assert head == src + dst + [0, 6] + [|t| / 256, |t| % 256];
  }

  /** The eight bytes behind the addresses in an IPv6 pseudo-header: the length in four, three zeros and 58. */
  function Behind6(len: u16): seq<Byte> { [0, 0] + [len / 256, len % 256] + [0, 0, 0, 58] }

  lemma BehindSums(len: u16)
    ensures Sum(Behind6(len)) == len / 65536 % 65536 + len % 65536 + NEXT_HDR_ICMPV6
  {
    hide Sum;
    var a: seq<Byte>, b: seq<Byte>, c: seq<Byte>, d: seq<Byte> := [0, 0], [len / 256, len % 256], [0, 0], [0, 58];
    assert Behind6(len) == a + (b + (c + d));
    SumOfParts(a, b + (c + d));
    SumOfParts(b, c + d);
    SumOfParts(c, d);
    OneWord(a);
    OneWord(b);
    OneWord(d);
  }

  /** The accumulator of the IPv6 checksum holds the sum of the pseudo-header of section 8.1 of RFC 8200. */
  lemma Pseudo6Is(src: seq<Byte>, dst: seq<Byte>, len: u16)
    requires |src| == |dst| == 16
    ensures Pseudo6(src, dst, len) == Sum(src + dst + Behind6(len))
  {
    hide Sum, Behind6;
    SumOfParts(src, dst);
    SumOfParts(src + dst, Behind6(len));
    BehindSums(len);
  }

  /** An IPv6 reply behind its pseudo-header sums to all ones. */
  lemma RepliesSumToOnes(p: seq<Byte>)
    requires IsEchoRequestV6(p)
    ensures var r := ReplyToV6(p); var len := |r| - 40;
            OnesSum(r[8..24] + r[24..40] + [0, 0, len / 256, len % 256] + [0, 0, 0, 58] + r[40..]) == 65535
  {
    hide OnesSum, Finished, Sum, ReplyToV6, Pseudo6;
    var r := ReplyToV6(p);
    var len := |r| - 40;
    ReplyV6Verifies(p);
    Pseudo6Is(r[8..24], r[24..40], len);
    var head := r[8..24] + r[24..40] + Behind6(len);
    assert |head| == 40;
    PartsComplement(head, r[40..]);
    assert head == r[8..24] + r[24..40] + [0, 0, len / 256, len % 256] + [0, 0, 0, 58];
  }

  // ---- the fields ----------------------------------------------------------------------------

  /** An IPv4 packet byte by byte: version 4, five words, don't fragment, 64 hops, and the checksum at 10. */
  lemma HeaderBytes(src: Addr, dst: Addr, proto: Byte, l4: seq<Byte>)
    requires 20 + |l4| < 65536
    ensures var p := Ipv4Of(src, dst, proto, l4);
            && p[..10] == [69, 0, |p| / 256, |p| % 256, 0, 0, 64, 0, 64, proto]
            && p[12..] == src + dst + l4
  {
    hide Sum, Finished, Sealed;
    var s, p := BareHeader(src, dst, proto, 20 + |l4|), Ipv4Of(src, dst, proto, l4);
    SealedElsewhere(s, 10, 0);
    var h := HeaderOf(src, dst, proto, 20 + |l4|);
    assert p[..20] == h && p[20..] == l4;
    assert forall i | 0 <= i < 20 && i != 10 && i != 11 :: h[i] == s[i];
    assert h[..10] == s[..10] && h[12..] == s[12..] == src + dst;
    assert p[..10] == h[..10] && p[12..] == h[12..] + p[20..];
    Associates(src, dst, l4);
  }

  lemma Associates(a: seq<Byte>, b: seq<Byte>, c: seq<Byte>)
    ensures (a + b) + c == a + b + c
  {
  }

  /** An ICMP message byte by byte. */
  lemma IcmpBytes(kind: Byte, ident: u16, num: u16, data: seq<Byte>)
    ensures var m := IcmpOf(kind, ident, num, data);
            m[..2] == [kind, 0] && m[4..8] == [ident / 256, ident % 256, num / 256, num % 256] && m[8..] == data
  {
    hide Sum, Finished, Sealed;
    SealedElsewhere(BareIcmp(kind, ident, num, data), 2, 0);
    assert BareIcmp(kind, ident, num, data)[8..] == data;
  }

  /** A TCP segment byte by byte: five words of header, a window of 64240 and no urgent data. */
  lemma TcpBytes(src: Addr, dst: Addr, sport: u16, dport: u16, num: u32, ack: u32, flags: Byte, payload: seq<Byte>)
    ensures var t := TcpOf(src, dst, sport, dport, num, ack, flags, payload);
            && t[..4] == [sport / 256, sport % 256, dport / 256, dport % 256]
            && t[4..8] == [num / 16777216, num / 65536 % 256, num / 256 % 256, num % 256]
            && t[8..12] == [ack / 16777216, ack / 65536 % 256, ack / 256 % 256, ack % 256]
            && t[12..16] == [80, flags, 250, 240] && t[18..20] == [0, 0] && t[20..] == payload
  {
    hide Sum, Finished, Sealed, Be32, Be16;
    var s := BareTcp(sport, dport, num, ack, flags, payload);
    var t := TcpOf(src, dst, sport, dport, num, ack, flags, payload);
    SealedElsewhere(s, 16, Sum(PseudoHeader(src, dst, 20 + |payload|)));
    assert s[..4] == Be16(sport) + Be16(dport) && s[4..8] == Be32(num) && s[8..12] == Be32(ack);
    assert s[12..16] == [80, flags] + Be16(64240) && s[18..20] == [0, 0] && s[20..] == payload;
    assert t[..4] == s[..4] && t[4..8] == s[4..8] && t[8..12] == s[8..12];
    assert t[12..16] == s[12..16] && t[18..20] == s[18..20] && t[20..] == s[20..];
    TwoBytesAre(sport);
    TwoBytesAre(dport);
    TwoBytesAre(64240);
    FourBytesAre(num);
    FourBytesAre(ack);
  }

  lemma TwoBytesAre(n: u16)
    ensures Be16(n) == [n / 256, n % 256]
  {
  }

  lemma Halves(hi: u16, lo: u16)
    ensures var n := hi * 65536 + lo; n / 16777216 == hi / 256 && n / 65536 == hi && n / 256 == 256 * hi + lo / 256
    ensures (256 * hi + lo / 256) % 256 == lo / 256 && (hi * 65536 + lo) % 256 == lo % 256
  {
  }

  lemma FourBytesAre(n: u32)
    ensures Be32(n) == [n / 16777216, n / 65536 % 256, n / 256 % 256, n % 256]
  {
    var hi, lo := n / 65536, n % 65536;
    Halves(hi, lo);
  }

  /** The flag bits of section 3.1 of RFC 9293, each read by its place. */
  lemma FlagBits(flags: Byte)
    ensures Has(flags, FIN) <==> flags % 2 >= 1
    ensures Has(flags, SYN) <==> flags % 4 >= 2
    ensures Has(flags, RST) <==> flags % 8 >= 4
    ensures Has(flags, ACK) <==> flags % 32 >= 16
  {
    Bit2(flags);
    Bit4(flags);
    Bit16(flags);
  }

  lemma Bit2(flags: nat)
    ensures flags / 2 % 2 == 1 <==> flags % 4 >= 2
  {
    var q, r := flags / 4, flags % 4;
    assert flags / 2 == 2 * q + if r >= 2 then 1 else 0;
  }

  lemma Bit4(flags: nat)
    ensures flags / 4 % 2 == 1 <==> flags % 8 >= 4
  {
    var q, r := flags / 8, flags % 8;
    assert flags / 4 == 2 * q + if r >= 4 then 1 else 0;
  }

  lemma Bit16(flags: nat)
    ensures flags / 16 % 2 == 1 <==> flags % 32 >= 16
  {
    var q, r := flags / 32, flags % 32;
    assert flags / 16 == 2 * q + if r >= 16 then 1 else 0;
  }

  // ---- which packets are pings ---------------------------------------------------------------

  /** A whole IPv4 packet without options is answered exactly when it holds ICMP, of type 8 and at least 8 bytes. */
  lemma PingsAre(p: seq<Byte>)
    requires |p| >= 28 && p[0] == 69 && Word(p, 2) == |p|
    ensures IsEchoRequest(p) <==> p[9] == 1 && p[20] == 8
  {
    hide Word;
  }

  /** An IPv6 packet around an ICMPv6 message of some type. */
  function Packet6(next: Byte, hop: Byte, src: seq<Byte>, dst: seq<Byte>, kind: Byte, check: seq<Byte>, body: seq<Byte>): seq<Byte>
    requires 4 + |body| < 65536
  {
    [96, 0, 0, 0] + [(4 + |body|) / 256, (4 + |body|) % 256] + [next, hop] + src + dst + [kind, 0] + check + body
  }

  /**
   It is answered exactly when that message is of type 128 and at least 8 bytes; the answer is the same packet with the
   addresses swapped, type 129, and a checksum of its own.
   */
  lemma Pings6Are(next: Byte, hop: Byte, src: seq<Byte>, dst: seq<Byte>, kind: Byte, check: seq<Byte>, body: seq<Byte>)
    requires 4 + |body| < 65536 && |src| == |dst| == 16 && |check| == 2
    ensures var p := Packet6(next, hop, src, dst, kind, check, body);
            && (IsEchoRequestV6(p) <==> next == 58 && kind == 128 && |body| >= 4)
            && (IsEchoRequestV6(p) ==>
                 |ReplyToV6(p)| == |p| && ReplyToV6(p) == Packet6(next, hop, dst, src, 129, ReplyToV6(p)[42..44], body))
  {
    hide Sum, Finished, Sealed, Pseudo6;
    var p, m := Packet6(next, hop, src, dst, kind, check, body), [kind, 0] + check + body;
    assert p[6] == next && p[40] == kind && |p| == 44 + |body| && p[40..] == m;
    assert p[4] == (4 + |body|) / 256 && p[5] == (4 + |body|) % 256;
    assert p[8..24] == src && p[24..40] == dst;
    assert p[..8] == [96, 0, 0, 0] + [(4 + |body|) / 256, (4 + |body|) % 256] + [next, hop];
    if IsEchoRequestV6(p) {
      var len, sum, bare := Word(p, 4), Pseudo6(dst, src, 4 + |body|), m[0 := 129];
      assert len == 4 + |body| && p[40..40 + len] == m;
      SealedElsewhere(bare, 2, sum);
      var s, r := Sealed(bare, 2, sum), ReplyToV6(p);
      assert r == p[..8] + dst + src + s;
      assert r[42..44] == s[2..4] && s[..2] == [129, 0] && s[4..] == body;
      assert s == [129, 0] + s[2..4] + body;
      Regroup(p[..8] + dst + src, [129, 0], s[2..4], body);
    }
  }

  lemma Regroup(a: seq<Byte>, b: seq<Byte>, c: seq<Byte>, d: seq<Byte>)
    ensures a + (b + c + d) == a + b + c + d
  {
  }
}
