/** Answering a ping, over IPv4 and IPv6. */
module Echo {
  import opened Values
  import opened Bytes
  import opened Checksum
  import opened Packets

  /** An IPv4 packet that holds a whole ICMP echo request. */
  predicate IsEchoRequest(p: seq<Byte>) {
    && |p| >= 20 && p[0] / 16 == 4
    && var ihl, total := p[0] % 16 * 4, Word(p, 2);
       ihl >= 20 && ihl <= total <= |p| && p[9] == PROTO_ICMP && total - ihl >= 8 && p[ihl] == 8
  }

  function Ihl(p: seq<Byte>): nat
    requires IsEchoRequest(p)
  {
    p[0] % 16 * 4
  }

  /** The header of the reply: the addresses swapped, and its checksum anew. */
  function ReplyHeader(p: seq<Byte>): (h: seq<Byte>)
    requires IsEchoRequest(p)
    ensures |h| == Ihl(p)
  {
    Sealed(Swapped(p[..Ihl(p)]), 10, 0)
  }

  function Swapped(h: seq<Byte>): (r: seq<Byte>)
    requires |h| >= 20
    ensures |r| == |h|
  {
    h[..12] + h[16..20] + h[12..16] + h[20..]
  }

  /** The message of the reply: type 0, everything else as it was, and its checksum anew. */
  function ReplyIcmp(p: seq<Byte>): (m: seq<Byte>)
    requires IsEchoRequest(p)
    ensures |m| == Word(p, 2) - Ihl(p)
  {
    Sealed(p[Ihl(p)..Word(p, 2)][0 := 0], 2, 0)
  }

  function ReplyTo(p: seq<Byte>): (r: seq<Byte>)
    requires IsEchoRequest(p)
    ensures |r| == Word(p, 2)
  {
    ReplyHeader(p) + ReplyIcmp(p)
  }

  /** Swap the addresses of an IPv4 header in place. */
  method SwapAddresses(p: seq<Byte>, ihl: nat) returns (r: seq<Byte>)
    requires 20 <= ihl <= |p|
    ensures |r| == |p| && r[..ihl] == Swapped(p[..ihl]) && r[ihl..] == p[ihl..]
  {
    var src, dst := p[12..16], p[16..20];
    r := Patch(p, 12, dst);
    r := Patch(r, 16, src);
    ghost var h := p[..ihl];
    assert h[..12] == p[..12] && h[12..16] == src && h[16..20] == dst && h[20..] == p[20..ihl];
    assert r[..ihl] == p[..12] + dst + src + p[20..ihl];
  }

  /** Zero a checksum field, sum the part of the packet it covers, and fill it in. */
  method SealPart(p: seq<Byte>, lo: nat, hi: nat, at: nat) returns (r: seq<Byte>)
    requires lo + at + 2 <= hi <= |p|
    ensures |r| == |p| && r[..lo] == p[..lo] && r[lo..hi] == Sealed(p[lo..hi], at, 0) && r[hi..] == p[hi..]
  {
    hide Sum, Finished, Patch;
    r := Patch(p, lo + at, [0, 0]);
    PatchWithin(p, lo, hi, at, [0, 0]);
    var c := Checksum.Checksum(r[lo..hi]);
    PatchWithin(r, lo, hi, at, Be16(c));
    r := Patch(r, lo + at, Be16(c));
    PatchTwice(p[lo..hi], at, [0, 0], Be16(c));
  }

  /** Patching inside a part of a packet. */
  lemma PatchWithin(p: seq<Byte>, lo: nat, hi: nat, at: nat, b: seq<Byte>)
    requires lo + at + |b| <= hi <= |p|
    ensures var r := Patch(p, lo + at, b);
            r[..lo] == p[..lo] && r[lo..hi] == Patch(p[lo..hi], at, b) && r[hi..] == p[hi..]
  {
  }

  lemma PatchTwice(p: seq<Byte>, at: nat, b: seq<Byte>, c: seq<Byte>)
    requires at + |b| <= |p| && |b| == |c|
    ensures Patch(Patch(p, at, b), at, c) == Patch(p, at, c)
  {
  }

  method EchoReply(inner: seq<Byte>) returns (r: Option<seq<Byte>>)
    ensures r == if IsEchoRequest(inner) then Some(ReplyTo(inner)) else None
  {
    hide Sealed, Swapped;
    if |inner| < 20 || inner[0] / 16 != 4 { return None; }
    var ihl := inner[0] % 16 * 4;
    var total := Word(inner, 2);
    if ihl < 20 || total < ihl || total > |inner| { return None; }
    if inner[9] != PROTO_ICMP { return None; }
    if total - ihl < 8 || inner[ihl] != 8 { return None; }
    var pkt := inner[..total];
    assert pkt[..ihl] == inner[..ihl] && pkt[ihl..] == inner[ihl..total];
    pkt := SwapAddresses(pkt, ihl);
    ghost var head := pkt[..ihl];
    pkt := pkt[ihl := 0];
    assert pkt[..ihl] == head && pkt[ihl..total] == inner[ihl..total][0 := 0];
    pkt := SealPart(pkt, ihl, total, 2);
    ghost var body := pkt[ihl..total];
    pkt := SealPart(pkt, 0, ihl, 10);
    assert pkt[0..ihl] == ReplyHeader(inner);
    assert pkt[ihl..] == body;
    assert pkt == pkt[0..ihl] + pkt[ihl..];
    r := Some(pkt);
  }

  // ---- what a reply is -----------------------------------------------------------------------

  /** Both checksums of every reply sum to zero. */
  lemma ReplyVerifies(p: seq<Byte>)
    requires IsEchoRequest(p)
    ensures ChecksumOf(ReplyTo(p)[..Ihl(p)]) == 0 && ChecksumOf(ReplyTo(p)[Ihl(p)..]) == 0
  {
    hide Sum, Finished, Sealed, Swapped;
    SealedVerifies(Swapped(p[..Ihl(p)]), 10, 0);
    SealedVerifies(p[Ihl(p)..Word(p, 2)][0 := 0], 2, 0);
    assert ReplyTo(p)[..Ihl(p)] == ReplyHeader(p) && ReplyTo(p)[Ihl(p)..] == ReplyIcmp(p);
  }

  /** A reply goes back where the request came from. */
  lemma ReplyGoesBack(p: seq<Byte>)
    requires IsEchoRequest(p)
    ensures ReplyTo(p)[12..16] == p[16..20] && ReplyTo(p)[16..20] == p[12..16]
  {
    hide Sum, Finished, Sealed, Swapped;
    var h := p[..Ihl(p)];
    SealedElsewhere(Swapped(h), 10, 0);
    SwappedAt(h);
    assert ReplyTo(p)[12..16] == ReplyHeader(p)[12..16] == Swapped(h)[12..16];
    assert ReplyTo(p)[16..20] == ReplyHeader(p)[16..20] == Swapped(h)[16..20];
  }

  /** Besides the addresses only the type and the two checksums of a reply differ from the request. */
  lemma ReplyKeepsTheRest(p: seq<Byte>, i: nat)
    requires IsEchoRequest(p) && i < Word(p, 2)
    ensures ReplyTo(p)[Ihl(p)] == 0
    ensures i !in {10, 11, Ihl(p), Ihl(p) + 2, Ihl(p) + 3} && !(12 <= i < 20) ==> ReplyTo(p)[i] == p[i]
  {
    hide Sum, Finished, Sealed, Swapped;
    var h, m := p[..Ihl(p)], p[Ihl(p)..Word(p, 2)][0 := 0];
    SealedElsewhere(m, 2, 0);
    assert ReplyTo(p)[Ihl(p)] == ReplyIcmp(p)[0];
    if i < Ihl(p) {
      SealedElsewhere(Swapped(h), 10, 0);
      SwappedAt(h);
      assert ReplyTo(p)[i] == ReplyHeader(p)[i];
    } else {
      assert ReplyTo(p)[i] == ReplyIcmp(p)[i - Ihl(p)];
    }
  }

  lemma SwappedAt(h: seq<Byte>)
    requires |h| >= 20
    ensures Swapped(h)[12..16] == h[16..20] && Swapped(h)[16..20] == h[12..16]
    ensures forall i | 0 <= i < |h| && !(12 <= i < 20) :: Swapped(h)[i] == h[i]
  {
  }

  /** A reply is never answered: pings do not bounce. */
  lemma RepliesAreNotAnswered(p: seq<Byte>)
    requires IsEchoRequest(p)
    ensures !IsEchoRequest(ReplyTo(p))
  {
    hide ReplyTo;
    ReplyKeepsTheRest(p, 0);
  }

  // ---- ping, there and back ------------------------------------------------------------------

  lemma RequestShape(a: Addr, b: Addr, ident: nat, num: nat, data: seq<Byte>)
    requires 28 + |data| <= 65535
    ensures var m := IcmpOf(8, ident, num, data); var p := Ipv4Of(a, b, PROTO_ICMP, m);
            IsEchoRequest(p) && Ihl(p) == 20 && Word(p, 2) == |p| == 28 + |data| &&
            p[..20] == HeaderOf(a, b, PROTO_ICMP, 28 + |data|) && p[20..] == m
  {
    hide Sum, Finished;
    var m := IcmpOf(8, ident, num, data);
    var h := HeaderOf(a, b, PROTO_ICMP, 28 + |data|);
    var p := Ipv4Of(a, b, PROTO_ICMP, m);
    SealedElsewhere(BareHeader(a, b, PROTO_ICMP, 28 + |data|), 10, 0);
    SealedElsewhere(BareIcmp(8, ident, num, data), 2, 0);
    assert p[0] == h[0] && p[2] == h[2] && p[3] == h[3] && p[9] == h[9] && p[20] == m[0];
  }

  lemma SwapBare(a: Addr, b: Addr, total: nat)
    ensures Swapped(BareHeader(a, b, PROTO_ICMP, total)) == BareHeader(b, a, PROTO_ICMP, total)
  {
    var h := BareHeader(a, b, PROTO_ICMP, total);
    assert h[12..16] == a && h[16..20] == b && h[20..] == [];
    assert h[..12] == BareHeader(b, a, PROTO_ICMP, total)[..12];
  }

  /** Blanking a field hides what it held, also when the addresses behind it are swapped. */
  lemma SwapBlank(h: seq<Byte>, g: seq<Byte>)
    requires |h| == |g| >= 20 && forall i | 0 <= i < |h| && i != 10 && i != 11 :: h[i] == g[i]
    ensures Blank(Swapped(h), 10) == Blank(Swapped(g), 10)
  {
    assert h[..10] == g[..10] && h[12..16] == g[12..16] && h[16..20] == g[16..20] && h[20..] == g[20..];
    assert Swapped(h)[..10] == h[..10] && Swapped(g)[..10] == g[..10];
    assert Swapped(h)[12..] == h[16..20] + h[12..16] + h[20..];
    assert Swapped(g)[12..] == g[16..20] + g[12..16] + g[20..];
  }

  lemma SwapBuilt(a: Addr, b: Addr, total: nat)
    ensures Sealed(Swapped(HeaderOf(a, b, PROTO_ICMP, total)), 10, 0) == HeaderOf(b, a, PROTO_ICMP, total)
  {
    hide Sealed, Swapped, BareHeader, Blank;
    var h := HeaderOf(a, b, PROTO_ICMP, total);
    SealedElsewhere(BareHeader(a, b, PROTO_ICMP, total), 10, 0);
    SwapBlank(h, BareHeader(a, b, PROTO_ICMP, total));
    SwapBare(a, b, total);
    SealedAgain(Swapped(h), BareHeader(b, a, PROTO_ICMP, total), 10, 0);
  }

  lemma RetypeBuilt(ident: nat, num: nat, data: seq<Byte>)
    ensures Sealed(IcmpOf(8, ident, num, data)[0 := 0], 2, 0) == IcmpOf(0, ident, num, data)
  {
    hide Sum, Finished;
    var m := IcmpOf(8, ident, num, data)[0 := 0];
    SealedElsewhere(BareIcmp(8, ident, num, data), 2, 0);
    assert Blank(m, 2) == Blank(BareIcmp(0, ident, num, data), 2);
    SealedAgain(m, BareIcmp(0, ident, num, data), 2, 0);
  }

  /** The answer to a ping from `a` to `b` is exactly the reply packet from `b` to `a`, same ident, number and data. */
  lemma PingRoundTrip(a: Addr, b: Addr, ident: nat, num: nat, data: seq<Byte>)
    requires 28 + |data| <= 65535
    ensures var p := Ipv4Of(a, b, PROTO_ICMP, IcmpOf(8, ident, num, data));
            IsEchoRequest(p) && ReplyTo(p) == Ipv4Of(b, a, PROTO_ICMP, IcmpOf(0, ident, num, data))
  {
    hide Sum, Finished, Sealed, IsEchoRequest, Swapped, HeaderOf, IcmpOf;
    RequestShape(a, b, ident, num, data);
    SwapBuilt(a, b, 28 + |data|);
    RetypeBuilt(ident, num, data);
    var p := Ipv4Of(a, b, PROTO_ICMP, IcmpOf(8, ident, num, data));
    assert p[Ihl(p)..Word(p, 2)] == p[20..];
  }

  // ---- IPv6 ----------------------------------------------------------------------------------

  const NEXT_HDR_ICMPV6 := 58

  /** An IPv6 packet that holds a whole ICMPv6 echo request, with no extension headers. */
  predicate IsEchoRequestV6(p: seq<Byte>) {
    && |p| >= 40 && p[0] / 16 == 6 && p[6] == NEXT_HDR_ICMPV6
    && Word(p, 4) >= 8 && 40 + Word(p, 4) <= |p| && p[40] == 128
  }

  /** The sum of the pseudo-header: both addresses, the length in two halves, and the next header. */
  function Pseudo6(src: seq<Byte>, dst: seq<Byte>, len: nat): nat {
    Sum(src) + Sum(dst) + len / 65536 % 65536 + len % 65536 + NEXT_HDR_ICMPV6
  }

  function ReplyToV6(p: seq<Byte>): (r: seq<Byte>)
    requires IsEchoRequestV6(p)
    ensures |r| == 40 + Word(p, 4)
  {
    var len := Word(p, 4);
    p[..8] + p[24..40] + p[8..24] + Sealed(p[40..40 + len][0 := 129], 2, Pseudo6(p[24..40], p[8..24], len))
  }

  method Icmpv6Checksum(src: seq<Byte>, dst: seq<Byte>, msg: seq<Byte>) returns (c: nat)
    ensures c == Finished(Pseudo6(src, dst, |msg|) + Sum(msg))
  {
    var sum := Sum16(src, 0);
    sum := Sum16(dst, sum);
    sum := sum + |msg| / 65536 % 65536;
    sum := sum + |msg| % 65536;
    sum := sum + NEXT_HDR_ICMPV6;
    sum := Sum16(msg, sum);
    c := Finish(sum);
  }

  /** Zero the checksum of the message, sum it with the pseudo-header of the packet's own addresses, and fill it in. */
  method SealV6(p: seq<Byte>, total: nat) returns (r: seq<Byte>)
    requires 48 <= total == |p|
    ensures |r| == |p| && r[..40] == p[..40]
    ensures r[40..total] == Sealed(p[40..total], 2, Pseudo6(p[..40][8..24], p[..40][24..40], total - 40))
  {
    hide Sum, Finished, Patch;
    r := Patch(p, 42, [0, 0]);
    PatchWithin(p, 40, total, 2, [0, 0]);
    assert r[8..24] == r[..40][8..24] && r[24..40] == r[..40][24..40];
    var csum := Icmpv6Checksum(r[8..24], r[24..40], r[40..total]);
    PatchWithin(r, 40, total, 2, Be16(csum));
    r := Patch(r, 42, Be16(csum));
    PatchTwice(p[40..total], 2, [0, 0], Be16(csum));
  }

  method EchoReplyV6(inner: seq<Byte>) returns (r: Option<seq<Byte>>)
    ensures r == if IsEchoRequestV6(inner) then Some(ReplyToV6(inner)) else None
  {
    hide Sum, Finished;
    if |inner| < 40 || inner[0] / 16 != 6 || inner[6] != NEXT_HDR_ICMPV6 { return None; }
    var len := Word(inner, 4);
    var total := 40 + len;
    if len < 8 || total > |inner| { return None; }
    if inner[40] != 128 { return None; }
    var pkt := inner[..total];
    var src, dst := pkt[8..24], pkt[24..40];
    pkt := Patch(pkt, 8, dst);
    pkt := Patch(pkt, 24, src);
    ghost var head, m := inner[..8] + dst + src, inner[40..total][0 := 129];
    assert pkt[..40] == head && pkt[40..] == inner[40..total];
    pkt := pkt[40 := 129];
    assert pkt[..40] == head && pkt[40..total] == m;
    pkt := SealV6(pkt, total);
    assert head[8..24] == dst && head[24..40] == src;
    assert pkt[8..24] == pkt[..40][8..24] && pkt[24..40] == pkt[..40][24..40];
    assert pkt == head + pkt[40..total];
    assert src == inner[8..24] && dst == inner[24..40];
    assert pkt == ReplyToV6(inner);
    r := Some(pkt);
  }

  /** The checksum of every IPv6 reply, over its own pseudo-header, sums to zero. */
  lemma ReplyV6Verifies(p: seq<Byte>)
    requires IsEchoRequestV6(p)
    ensures var r := ReplyToV6(p);
            Finished(Pseudo6(r[8..24], r[24..40], |r| - 40) + Sum(r[40..])) == 0 &&
            r[8..24] == p[24..40] && r[24..40] == p[8..24]
  {
    hide Sum, Finished, Sealed;
    var len, r := Word(p, 4), ReplyToV6(p);
    var m := p[40..40 + len][0 := 129];
    assert r[8..24] == p[24..40] && r[24..40] == p[8..24];
    assert r[40..] == Sealed(m, 2, Pseudo6(p[24..40], p[8..24], len));
    SealedVerifies(m, 2, Pseudo6(p[24..40], p[8..24], len));
  }

  /** No accumulator of the IPv6 checksum overflows 32 bits. */
  lemma Pseudo6Fits(src: seq<Byte>, dst: seq<Byte>, msg: seq<Byte>)
    requires |src| == 16 && |dst| == 16 && |msg| <= 65535
    ensures Pseudo6(src, dst, |msg|) + Sum(msg) < WORD
  {
    SumFits(msg);
    WordSumFits(src, 8);
    WordSumFits(dst, 8);
  }

  /** Either version, by the first nibble. */
  method EchoReplyAny(inner: seq<Byte>) returns (r: Option<seq<Byte>>)
    ensures IsEchoRequest(inner) ==> r == Some(ReplyTo(inner))
    ensures IsEchoRequestV6(inner) ==> r == Some(ReplyToV6(inner))
    ensures !IsEchoRequest(inner) && !IsEchoRequestV6(inner) ==> r == None
  {
    hide ReplyTo, ReplyToV6;
    if inner == [] { return None; }
    if inner[0] / 16 == 4 {
      r := EchoReply(inner);
    } else if inner[0] / 16 == 6 {
      r := EchoReplyV6(inner);
    } else {
      r := None;
    }
  }
}
