/** The conversation as it is on the wire: which numbers, flags and bytes each side sends, and whom it ignores. */
module TunnelLaws {
  import opened Values
  import opened Bytes
  import opened Checksum
  import opened Packets
  import opened Tcp
  import Client
  import Proxy
  import WireLaws

  /** The fields of a packet without options, read where sections 3.1 of RFC 791 and of RFC 9293 put them. */
  datatype Line = Line(src: seq<Byte>, dst: seq<Byte>, sport: nat, dport: nat, num: u32, ack: u32, flags: Byte, data: seq<Byte>)

  function Reads(p: seq<Byte>): Option<Line> {
    if |p| < 40 then None
    else Some(Line(p[12..16], p[16..20], Word(p, 20), Word(p, 22), Word32(p, 24), Word32(p, 28), p[33], p[40..]))
  }

  /** What was written into a packet is what is read. */
  lemma LineOf(src: Addr, dst: Addr, sport: u16, dport: u16, num: u32, ack: u32, flags: Byte, payload: seq<Byte>)
    ensures var p := SegmentOf(src, dst, sport, dport, num, ack, flags, payload);
            |p| == 40 + |payload| && Reads(p) == Some(Line(src, dst, sport, dport, num, ack, flags, payload))
  {
    hide TcpOf, HeaderOf, BareHeader, Word, Word32;
    var t := TcpOf(src, dst, sport, dport, num, ack, flags, payload);
    var p := SegmentOf(src, dst, sport, dport, num, ack, flags, payload);
    assert p == HeaderOf(src, dst, PROTO_TCP, 20 + |t|) + t;
    Addresses(src, dst, t);
    WireLaws.TcpBytes(src, dst, sport, dport, num, ack, flags, payload);
    assert p[20..24] == t[..4] && p[24..28] == t[4..8] && p[28..32] == t[8..12] && p[32..36] == t[12..16] && p[40..] == t[20..];
    TwoAt(p, 20, sport, dport);
    FourAt(p, 24, num);
    FourAt(p, 28, ack);
    assert p[32..36][1] == p[33];
  }

  lemma Addresses(src: Addr, dst: Addr, l4: seq<Byte>)
    ensures var p := Ipv4Of(src, dst, PROTO_TCP, l4); p[12..16] == src && p[16..20] == dst
  {
    hide Sealed;
    var s, h := BareHeader(src, dst, PROTO_TCP, 20 + |l4|), HeaderOf(src, dst, PROTO_TCP, 20 + |l4|);
    SealedElsewhere(s, 10, 0);
    assert s[12..16] == src && s[16..20] == dst;
    assert h[12..16] == s[12..16] && h[16..20] == s[16..20];
  }

  lemma TwoAt(p: seq<Byte>, at: nat, a: u16, b: u16)
    requires at + 4 <= |p| && p[at..at + 4] == [a / 256, a % 256, b / 256, b % 256]
    ensures Word(p, at) == a && Word(p, at + 2) == b
  {
    var q := p[at..at + 4];
    assert q[0] == p[at] && q[1] == p[at + 1] && q[2] == p[at + 2] && q[3] == p[at + 3];
  }

  lemma FourAt(p: seq<Byte>, at: nat, n: u32)
    requires at + 4 <= |p| && p[at..at + 4] == [n / 16777216, n / 65536 % 256, n / 256 % 256, n % 256]
    ensures Word32(p, at) == n
  {
    var hi, lo := n / 65536, n % 65536;
    WireLaws.Halves(hi, lo);
    var q := p[at..at + 4];
    assert q[0] == p[at] && q[1] == p[at + 1] && q[2] == p[at + 2] && q[3] == p[at + 3];
    assert Word(p, at) == hi && Word(p, at + 2) == lo;
  }

  // ---- the client ----------------------------------------------------------------------------

  function FromClient(k: Client.Link, num: u32, ack: u32, flags: Byte, data: seq<Byte>): Option<Line> {
    Some(Line(k.src, k.dst, k.sport, k.dport, num, ack, flags, data))
  }

  lemma ClientSays(k: Client.Link, st: Client.State, flags: Byte, payload: seq<Byte>)
    ensures var p := Client.Say(k, st, flags, payload);
            Reads(p) == FromClient(k, st.sndNxt, st.rcvNxt, flags, payload)
  {
    hide SegmentOf, Reads;
    LineOf(k.src, k.dst, k.sport, k.dport, st.sndNxt, st.rcvNxt, flags, payload);
  }

  /** The handshake: a bare SYN (2), and for the SYN-ACK a bare ACK (16) and the request (ACK and PSH, 24), both acknowledging the server's SYN. */
  lemma Handshake(k: Client.Link, st: Client.State, seg: Seg)
    requires !st.established && seg.flags == 18
    ensures var syn, out := Client.Say(k, st, SYN, []), Client.Answer(k, st, seg);
            && Reads(syn) == FromClient(k, st.sndNxt, st.rcvNxt, 2, [])
            && |out| == 2 && Reads(out[0]) == FromClient(k, st.sndNxt, (seg.num + 1) % WORD, 16, [])
            && Reads(out[1]) == FromClient(k, st.sndNxt, (seg.num + 1) % WORD, 24, k.request)
    ensures Client.After(k, st, seg).sndNxt == (st.sndNxt + |k.request|) % WORD
  {
    hide Client.Say, Reads;
    ClientSays(k, st, SYN, []);
    var st1 := st.(rcvNxt := Plus(seg.num, 1));
    ClientSays(k, st1, ACK, []);
    ClientSays(k, st1, PSH + ACK, k.request);
    WireLaws.FlagBits(seg.flags);
  }

  /**
   In step with the server, the client answers every segment with data in it by acknowledging all it has up to the first
   gap, whether the segment filled one or not; a FIN it acknowledges as one more byte, and then sends its own (17).
   */
  lemma AcknowledgesWhatItHas(s: Client.Stream, k: Client.Link, st: Client.State, seg: Seg, off: nat)
    requires |s.data| < WORD && Client.Synced(s, st) && !st.done && Client.TrueAt(s, seg, off)
    ensures var out, n := Client.Answer(k, st, seg), |Client.After(k, st, seg).response|;
            var fin, data := Has(seg.flags, FIN), seg.payload != [];
            && |out| == (if data then 1 else 0) + (if fin then 2 else 0)
            && (data ==> Reads(out[0]) == FromClient(k, st.sndNxt, (s.isn + 1 + n) % WORD, 16, []))
            && (fin ==> Reads(out[|out| - 2]) == FromClient(k, st.sndNxt, (s.isn + 2 + n) % WORD, 16, []))
            && (fin ==> Reads(out[|out| - 1]) == FromClient(k, st.sndNxt, (s.isn + 2 + n) % WORD, 17, []))
  {
    hide Client.Say, Reads, Has, Client.Synced, Plus;
    var st1 := Client.TakeData(st, seg);
    var st2 := Client.TakeFin(st1, seg);
    Expects(s, st, seg, off);
    PlusIs(s.isn, 1, |st1.response|);
    PlusIs(s.isn, 1, |st1.response| + 1);
    PlusPlus(Plus(s.isn, 1), |st1.response|, 1);
    ClientSays(k, st1, ACK, []);
    ClientSays(k, st2, ACK, []);
    ClientSays(k, st2, FIN + ACK, []);
  }

  lemma PlusIs(a: u32, b: nat, c: nat)
    ensures Plus(Plus(a, b), c) == (a + b + c) % WORD
  {
  }

  /** What the client expects next once it has looked at the data. */
  lemma Expects(s: Client.Stream, st: Client.State, seg: Seg, off: nat)
    requires |s.data| < WORD && Client.Synced(s, st) && !st.done && Client.TrueAt(s, seg, off)
    ensures var st1 := Client.TakeData(st, seg); st1.rcvNxt == Client.NumOf(s, |st1.response|) && st1.sndNxt == st.sndNxt
    ensures st.established && !Has(seg.flags, SYN)
  {
    hide Plus, Has;
    if seg.payload != [] && seg.num == st.rcvNxt {
      PlusPlus(Plus(s.isn, 1), |st.response|, |seg.payload|);
    }
  }

  /** Only a segment with both SYN and ACK opens the connection. */
  lemma OnlySynAckOpens(k: Client.Link, st: Client.State, seg: Seg)
    requires !st.established
    ensures Client.After(k, st, seg).established <==> seg.flags % 4 >= 2 && seg.flags % 32 >= 16
  {
    hide Has;
    WireLaws.FlagBits(seg.flags);
  }

  /** A packet for another port, or of another protocol or version, changes nothing and is not answered. */
  lemma OthersIgnored(k: Client.Link, st: Client.State, p: seq<Byte>)
    requires |p| >= 40 && p[0] % 16 == 5
    requires p[0] / 16 != 4 || p[9] != 6 || Reads(p).value.dport != k.sport
    ensures Client.Fed(k, st, p) == st && Client.Replies(k, st, p) == []
  {
    hide Word, Word32;
  }

  // ---- the proxy -----------------------------------------------------------------------------

  function FromProxy(listen: u16, c: Proxy.Conn, num: u32, ack: u32, flags: Byte, data: seq<Byte>): Option<Line> {
    Some(Line(c.ourIp, c.clientIp, listen, c.clientPort, num, ack, flags, data))
  }

  lemma ProxySays(listen: u16, c: Proxy.Conn, flags: Byte, payload: seq<Byte>)
    ensures var p := Proxy.Say(listen, c, flags, payload);
            Reads(p) == FromProxy(listen, c, c.sndNxt, c.rcvNxt, flags, payload)
  {
    hide SegmentOf, Reads;
    LineOf(c.ourIp, c.clientIp, listen, c.clientPort, c.sndNxt, c.rcvNxt, flags, payload);
  }

  /** The end of the 1024 bytes that begin at `i`, or of the answer. */
  function Until(resp: seq<Byte>, i: nat): nat { if i + 1024 < |resp| then i + 1024 else |resp| }

  /**
   An answer goes out in order, 1024 bytes a packet and the rest in the last one, which alone carries the FIN
   (25 against 24); every packet acknowledges the whole request.
   */
  lemma {:induction false} AnswerInChunks(listen: u16, c: Proxy.Conn, resp: seq<Byte>, i: nat, n: nat)
    requires i < |resp| && n < |Proxy.ChunksFrom(listen, c, resp, i)|
    ensures var out, at := Proxy.ChunksFrom(listen, c, resp, i), i + 1024 * n;
            && at < |resp| && Reads(out[n]) == FromProxy(listen, c, (c.sndNxt + at) % WORD, c.rcvNxt,
                                          if n == |out| - 1 then 25 else 24, resp[at..Until(resp, at)])
            && (n == |out| - 1 <==> Until(resp, at) == |resp|)
    decreases |resp| - i
  {
    hide Reads, Proxy.Chunk;
    var end, rest := Proxy.ChunkEnd(resp, i), Proxy.ChunksFrom(listen, c, resp, Proxy.ChunkEnd(resp, i));
    if n == 0 {
      OneChunk(listen, c, resp, i);
      if end < |resp| { assert rest != []; }
    } else {
      assert end < |resp|;
      AnswerInChunks(listen, c, resp, end, n - 1);
      assert Proxy.ChunksFrom(listen, c, resp, i)[n] == rest[n - 1];
    }
  }

  lemma OneChunk(listen: u16, c: Proxy.Conn, resp: seq<Byte>, i: nat)
    requires i < |resp|
    ensures var p := Proxy.Chunk(listen, c, resp, i);
            Reads(p) == FromProxy(listen, c, (c.sndNxt + i) % WORD, c.rcvNxt,
                                               if Until(resp, i) == |resp| then 25 else 24, resp[i..Until(resp, i)])
  {
    hide Proxy.Say, Reads;
    var end, now := Proxy.ChunkEnd(resp, i), c.(sndNxt := Plus(c.sndNxt, i));
    ProxySays(listen, now, if end == |resp| then PSH + ACK + FIN else PSH + ACK, resp[i..end]);
  }

  /**
   A SYN is answered with SYN and ACK (18) and opens a connection, whatever there was before; the request is
   acknowledged (16) up to its last byte before the answer to it goes out; a FIN is acknowledged as one more byte.
   */
  lemma TurnsOfProxy(listen: u16, lan: seq<Byte> -> seq<Byte>, c: Proxy.Conn, h: Proxy.Heard, iss: u32)
    ensures var r, seg := Proxy.Answer(listen, lan, c, h, iss), h.seg;
            && (Has(seg.flags, SYN) ==>
                 && r.conn.active && r.conn.clientIp == h.src && r.conn.clientPort == h.sport && !r.conn.fetched
                 && |r.out| == 1
                 && Reads(r.out[0]) == Some(Line(h.dst, h.src, listen, h.sport, iss, (seg.num + 1) % WORD, 18, [])))
            && (!Has(seg.flags, SYN) && (!c.active || h.src != c.clientIp || h.sport != c.clientPort) ==>
                 r == Proxy.Turn(c, []))
            && (!Has(seg.flags, SYN) && c.active && h.src == c.clientIp && h.sport == c.clientPort ==>
                 && (Has(seg.flags, RST) ==> !r.conn.active && r.out == [])
                 && (!Has(seg.flags, RST) && seg.payload != [] && !c.fetched ==>
                      var c1 := c.(rcvNxt := (seg.num + |seg.payload|) % WORD, fetched := true);
                      && r.out != [] && Reads(r.out[0]) == FromProxy(listen, c, c.sndNxt, c1.rcvNxt, 16, [])
                      && r.out[1..] == Proxy.Served(listen, c1, lan(seg.payload)))
                 && (!Has(seg.flags, RST) && (seg.payload == [] || c.fetched) && Has(seg.flags, FIN) ==>
                      && !r.conn.active && |r.out| == 1
                      && Reads(r.out[0]) == FromProxy(listen, c, c.sndNxt, (seg.num + 1) % WORD, 16, [])))
  {
    hide Proxy.Say, Reads, Has, Proxy.Served;
    var seg := h.seg;
    ProxySays(listen, Proxy.Opened(h, iss), SYN + ACK, []);
    ProxySays(listen, Proxy.Fetched(c, seg), ACK, []);
    ProxySays(listen, c.(rcvNxt := Plus(seg.num, 1)), ACK, []);
  }

  /** An empty answer is one FIN (17). */
  lemma EmptyAnswer(listen: u16, c: Proxy.Conn)
    ensures var out := Proxy.Served(listen, c, []);
            |out| == 1 && Reads(out[0]) == FromProxy(listen, c, c.sndNxt, c.rcvNxt, 17, [])
  {
    hide Proxy.Say, Reads;
    ProxySays(listen, c, FIN + ACK, []);
  }

  /** A packet for another port, or of another protocol or version, is not heard. */
  lemma OthersUnheard(listen: u16, lan: seq<Byte> -> seq<Byte>, c: Proxy.Conn, p: seq<Byte>, iss: u32)
    requires |p| >= 40 && p[0] % 16 == 5
    requires p[0] / 16 != 4 || p[9] != 6 || Reads(p).value.dport != listen
    ensures Proxy.Handled(listen, lan, c, p, iss) == Proxy.Turn(c, [])
  {
    hide Word, Word32, SegAt;
  }
}
