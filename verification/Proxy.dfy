/** The proxy's side of a connection: it fetches the request from its LAN and streams the answer back in segments. */
module Proxy {
  import opened Values
  import opened Bytes
  import opened Checksum
  import opened Packets
  import opened Tcp

  /** The most payload a segment carries. */
  const MSS := 1024

  const NOWHERE: Addr := [0, 0, 0, 0]

  datatype Conn = Conn(active: bool, clientIp: Addr, ourIp: Addr, clientPort: u16, rcvNxt: u32, sndNxt: u32, fetched: bool)

  const IDLE := Conn(false, NOWHERE, NOWHERE, 0, 0, 0, false)

  function Say(listen: u16, c: Conn, flags: Byte, payload: seq<Byte>): seq<Byte> {
    SegmentOf(c.ourIp, c.clientIp, listen, c.clientPort, c.sndNxt, c.rcvNxt, flags, payload)
  }

  datatype Heard = Heard(src: Addr, dst: Addr, sport: u16, seg: Seg)

  /** The segment the proxy finds in a packet to its port. */
  function Hears(listen: u16, p: seq<Byte>): Option<Heard> {
    if |p| < 20 || p[0] / 16 != 4 || p[9] != PROTO_TCP then None
    else
      var ihl, total := p[0] % 16 * 4, Word(p, 2);
      if ihl < 20 || total < ihl + 20 || total > |p| then None
      else
        match SegAt(p[ihl..total])
        case None => None
        case Some(seg) =>
          if Word(p, ihl + 2) != listen then None else Some(Heard(p[12..16], p[16..20], Word(p, ihl), seg))
  }

  // ---- the answer in segments ----------------------------------------------------------------

  function ChunkEnd(resp: seq<Byte>, i: nat): nat { if i + MSS < |resp| then i + MSS else |resp| }

  /** The segment that carries the answer from byte `i`; the last one carries the FIN. */
  function Chunk(listen: u16, c: Conn, resp: seq<Byte>, i: nat): seq<Byte>
    requires i < |resp|
  {
    var end := ChunkEnd(resp, i);
    Say(listen, c.(sndNxt := Plus(c.sndNxt, i)), if end == |resp| then PSH + ACK + FIN else PSH + ACK, resp[i..end])
  }

  function ChunksFrom(listen: u16, c: Conn, resp: seq<Byte>, i: nat): seq<seq<Byte>>
    decreases |resp| - i
  {
    if i >= |resp| then [] else [Chunk(listen, c, resp, i)] + ChunksFrom(listen, c, resp, ChunkEnd(resp, i))
  }

  // ---- one packet ----------------------------------------------------------------------------

  /** A new connection. */
  function Opened(h: Heard, iss: u32): Conn {
    Conn(true, h.src, h.dst, h.sport, Plus(h.seg.num, 1), iss, false)
  }

  /** The connection once the request is in. */
  function Fetched(c: Conn, seg: Seg): Conn { c.(rcvNxt := Plus(seg.num, |seg.payload|), fetched := true) }

  /** The answer to a request, the FIN on its last segment, or alone when there is nothing to say. */
  function Served(listen: u16, c: Conn, resp: seq<Byte>): seq<seq<Byte>> {
    if resp == [] then [Say(listen, c, FIN + ACK, [])] else ChunksFrom(listen, c, resp, 0)
  }

  datatype Turn = Turn(conn: Conn, out: seq<seq<Byte>>)

  function Answer(listen: u16, lan: seq<Byte> -> seq<Byte>, c: Conn, h: Heard, iss: u32): Turn {
    var seg := h.seg;
    if Has(seg.flags, SYN) then
      Turn(Opened(h, iss).(sndNxt := Plus(iss, 1)), [Say(listen, Opened(h, iss), SYN + ACK, [])])
    else if !c.active || h.src != c.clientIp || h.sport != c.clientPort then Turn(c, [])
    else if Has(seg.flags, RST) then Turn(IDLE, [])
    else if seg.payload != [] && !c.fetched then
      var c1 := Fetched(c, seg);
      var resp := lan(seg.payload);
      Turn(c1.(sndNxt := Plus(c1.sndNxt, |resp| + 1)), [Say(listen, c1, ACK, [])] + Served(listen, c1, resp))
    else if Has(seg.flags, FIN) then
      Turn(IDLE, [Say(listen, c.(rcvNxt := Plus(seg.num, 1)), ACK, [])])
    else Turn(c, [])
  }

  function Handled(listen: u16, lan: seq<Byte> -> seq<Byte>, c: Conn, p: seq<Byte>, iss: u32): Turn {
    match Hears(listen, p) case None => Turn(c, []) case Some(h) => Answer(listen, lan, c, h, iss)
  }

  class TcpProxy {
    const listen: u16
    const lan: seq<Byte> -> seq<Byte>
    var conn: Conn

    constructor (listen: u16, lan: seq<Byte> -> seq<Byte>)
      ensures this.listen == listen && this.lan == lan && conn == IDLE
    {
      this.listen, this.lan, conn := listen, lan, IDLE;
    }

    method Segment(flags: Byte, payload: seq<Byte>) returns (pkt: seq<Byte>)
      ensures pkt == Say(listen, conn, flags, payload)
    {
      var c := conn;
      pkt := Tcp.Segment(c.ourIp, c.clientIp, listen, c.clientPort, c.sndNxt, c.rcvNxt, flags, payload);
    }

    /** Stream an answer that is not empty. */
    method StreamBack(resp: seq<Byte>) returns (out: seq<seq<Byte>>)
      requires resp != []
      modifies this
      ensures out == ChunksFrom(listen, old(conn), resp, 0)
      ensures conn == old(conn).(sndNxt := Plus(old(conn).sndNxt, |resp| + 1))
    {
      hide Say, Plus;
      ghost var c := conn;
      out := [];
      PlusNone(c.sndNxt);
      var i := 0;
      while i < |resp|
        invariant 0 <= i <= |resp|
        invariant out + ChunksFrom(listen, c, resp, i) == ChunksFrom(listen, c, resp, 0)
        invariant conn == c.(sndNxt := Plus(c.sndNxt, if i < |resp| then i else i + 1))
        decreases |resp| - i
      {
        var end := if i + MSS < |resp| then i + MSS else |resp|;
        var last := end == |resp|;
        var fl := if last then PSH + ACK + FIN else PSH + ACK;
        var pkt := Segment(fl, resp[i..end]);
        assert pkt == Chunk(listen, c, resp, i);
        out := out + [pkt];
        PlusPlus(c.sndNxt, i, end - i);
        PlusPlus(c.sndNxt, end, 1);
        conn := conn.(sndNxt := Plus(conn.sndNxt, end - i));
        if last {
          conn := conn.(sndNxt := Plus(conn.sndNxt, 1));
        }
        i := end;
      }
    }

    /** Feed one packet; `iss` is the random number a new connection would begin with. */
    method Handle(inner: seq<Byte>, iss: u32) returns (out: seq<seq<Byte>>)
      modifies this
      ensures Turn(conn, out) == Handled(listen, lan, old(conn), inner, iss)
    {
      hide Say, Answer, SegAt, Plus;
      out := [];
      if |inner| < 20 || inner[0] / 16 != 4 || inner[9] != PROTO_TCP { return; }
      var ihl := inner[0] % 16 * 4;
      var total := Word(inner, 2);
      if ihl < 20 || total < ihl + 20 || total > |inner| { return; }
      var src, dst, sport, dport := inner[12..16], inner[16..20], Word(inner, ihl), Word(inner, ihl + 2);
      var seg := SegAt(inner[ihl..total]);
      if seg.None? { return; }
      if dport != listen { return; }
      out := React(Heard(src, dst, sport, seg.value), iss);
    }

    method React(h: Heard, iss: u32) returns (out: seq<seq<Byte>>)
      modifies this
      ensures Turn(conn, out) == Answer(listen, lan, old(conn), h, iss)
    {
      hide Say, Plus, Has, ChunksFrom;
      out := [];
      var seg := h.seg;
      if Has(seg.flags, SYN) {
        conn := Opened(h, iss);
        var synAck := Segment(SYN + ACK, []);
        out := [synAck];
        conn := conn.(sndNxt := Plus(conn.sndNxt, 1));
        return;
      }
      if !conn.active || h.src != conn.clientIp || h.sport != conn.clientPort { return; }
      if Has(seg.flags, RST) {
        conn := IDLE;
        return;
      }
      if seg.payload != [] && !conn.fetched {
        conn := conn.(rcvNxt := Plus(seg.num, |seg.payload|));
        conn := conn.(fetched := true);
        var ack := Segment(ACK, []);
        out := [ack];
        var resp := lan(seg.payload);
        if resp == [] {
          var fin := Segment(FIN + ACK, []);
          out := out + [fin];
          conn := conn.(sndNxt := Plus(conn.sndNxt, 1));
          return;
        }
        var chunks := StreamBack(resp);
        out := out + chunks;
        return;
      }
      if Has(seg.flags, FIN) {
        conn := conn.(rcvNxt := Plus(seg.num, 1));
        var ack := Segment(ACK, []);
        out := [ack];
        conn := IDLE;
      }
    }
  }

  lemma PlusNone(n: u32)
    ensures Plus(n, 0) == n
  {
  }
}
