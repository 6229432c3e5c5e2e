/** The client and the proxy over a faithful channel: the client ends with exactly what the LAN answered. */
module Tunnel {
  import opened Values
  import opened Bytes
  import opened Checksum
  import opened Packets
  import opened Tcp
  import Client
  import Proxy

  // ---- each side reads what the other builds -------------------------------------------------

  lemma BuiltShape(src: Addr, dst: Addr, sport: u16, dport: u16, num: u32, ack: u32, flags: Byte, payload: seq<Byte>)
    requires 40 + |payload| <= 65535
    ensures var p := SegmentOf(src, dst, sport, dport, num, ack, flags, payload);
            |p| == 40 + |payload| && p[0] == 0x45 && Word(p, 2) == |p| && p[9] == PROTO_TCP
            && p[12..16] == src && p[16..20] == dst && p[20..|p|] == p[20..]
            && Word(p, 20) == sport && Word(p, 22) == dport && SegAt(p[20..]) == Some(Seg(num, flags, payload))
  {
    hide SegAt, TcpOf, Ipv4Of;
    var t := TcpOf(src, dst, sport, dport, num, ack, flags, payload);
    Ipv4Reads(src, dst, PROTO_TCP, t);
    TcpReads(src, dst, sport, dport, num, ack, flags, payload);
    var p := SegmentOf(src, dst, sport, dport, num, ack, flags, payload);
    assert p[20] == t[0] && p[21] == t[1] && p[22] == t[2] && p[23] == t[3];
  }

  lemma ClientReads(k: Client.Link, src: Addr, dst: Addr, sport: u16, num: u32, ack: u32, flags: Byte, payload: seq<Byte>)
    requires 40 + |payload| <= 65535
    ensures Client.Sees(k, SegmentOf(src, dst, sport, k.sport, num, ack, flags, payload)) == Some(Seg(num, flags, payload))
  {
    hide SegmentOf, SegAt, Word;
    BuiltShape(src, dst, sport, k.sport, num, ack, flags, payload);
  }

  lemma ProxyReads(listen: u16, src: Addr, dst: Addr, sport: u16, num: u32, ack: u32, flags: Byte, payload: seq<Byte>)
    requires 40 + |payload| <= 65535
    ensures Proxy.Hears(listen, SegmentOf(src, dst, sport, listen, num, ack, flags, payload)) ==
            Some(Proxy.Heard(src, dst, sport, Seg(num, flags, payload)))
  {
    hide SegmentOf, SegAt, Word;
    BuiltShape(src, dst, sport, listen, num, ack, flags, payload);
  }

  // ---- the answer ----------------------------------------------------------------------------

  /** The client has the first `i` bytes and expects the next. */
  ghost predicate At(k: Client.Link, c: Proxy.Conn, resp: seq<Byte>, st: Client.State, i: nat) {
    && c.clientPort == k.sport && st.established && !st.done && i <= |resp|
    && st.response == resp[..i] && st.rcvNxt == Plus(c.sndNxt, i)
  }

  lemma ChunkTaken(k: Client.Link, c: Proxy.Conn, resp: seq<Byte>, st: Client.State, i: nat)
    requires At(k, c, resp, st, i) && i < |resp|
    ensures var st1 := Client.Fed(k, st, Proxy.Chunk(k.dport, c, resp, i)); var end := Proxy.ChunkEnd(resp, i);
            i < end <= |resp| && st1.response == resp[..end] && st1.established &&
            (if end == |resp| then st1.done else At(k, c, resp, st1, end))
  {
    hide SegmentOf, Client.Sees, Plus;
    var end := Proxy.ChunkEnd(resp, i);
    var flags := if end == |resp| then PSH + ACK + FIN else PSH + ACK;
    ClientReads(k, c.ourIp, c.clientIp, k.dport, Plus(c.sndNxt, i), c.rcvNxt, flags, resp[i..end]);
    PlusPlus(c.sndNxt, i, end - i);
    assert resp[..i] + resp[i..end] == resp[..end];
  }

  /** Feed packets in order. */
  function FedAll(k: Client.Link, st: Client.State, packets: seq<seq<Byte>>): Client.State
    decreases |packets|
  {
    if packets == [] then st else FedAll(k, Client.Fed(k, st, packets[0]), packets[1..])
  }

  lemma {:induction false} ChunksTaken(k: Client.Link, c: Proxy.Conn, resp: seq<Byte>, st: Client.State, i: nat)
    requires At(k, c, resp, st, i) && i < |resp|
    ensures var r := FedAll(k, st, Proxy.ChunksFrom(k.dport, c, resp, i)); r.done && r.response == resp
    decreases |resp| - i
  {
    hide At, Proxy.Chunk, Client.Fed;
    ChunkTaken(k, c, resp, st, i);
    var st1 := Client.Fed(k, st, Proxy.Chunk(k.dport, c, resp, i));
    var end := Proxy.ChunkEnd(resp, i);
    assert Proxy.ChunksFrom(k.dport, c, resp, i)[1..] == Proxy.ChunksFrom(k.dport, c, resp, end);
    if end < |resp| {
      ChunksTaken(k, c, resp, st1, end);
    } else {
      assert Proxy.ChunksFrom(k.dport, c, resp, end) == [];
      assert resp[..end] == resp;
    }
  }

  /** A bare FIN ends an empty answer. */
  lemma BareFinTaken(k: Client.Link, c: Proxy.Conn, st: Client.State)
    requires At(k, c, [], st, 0)
    ensures var r := Client.Fed(k, st, Proxy.Say(k.dport, c, FIN + ACK, [])); r.done && r.response == []
  {
    hide SegmentOf, Client.Sees, Plus;
    ClientReads(k, c.ourIp, c.clientIp, k.dport, c.sndNxt, c.rcvNxt, FIN + ACK, []);
  }

  /** An acknowledgement alone changes nothing for a connected client. */
  lemma AckIgnored(k: Client.Link, c: Proxy.Conn, st: Client.State)
    requires c.clientPort == k.sport && st.established && !st.done
    ensures Client.Fed(k, st, Proxy.Say(k.dport, c, ACK, [])) == st
  {
    hide SegmentOf, Client.Sees, Plus;
    ClientReads(k, c.ourIp, c.clientIp, k.dport, c.sndNxt, c.rcvNxt, ACK, []);
  }

  lemma ServedTaken(k: Client.Link, c: Proxy.Conn, resp: seq<Byte>, st: Client.State)
    requires At(k, c, resp, st, 0)
    ensures var r := FedAll(k, st, Said(k, c, resp));
            r.done && r.response == resp
  {
    hide Proxy.Say, Client.Fed, Proxy.ChunksFrom;
    AckIgnored(k, c, st);
    var out := Said(k, c, resp);
    assert out[1..] == Proxy.Served(k.dport, c, resp);
    if resp == [] {
      BareFinTaken(k, c, st);
      FedOne(k, st, Proxy.Say(k.dport, c, FIN + ACK, []));
    } else {
      ChunksTaken(k, c, resp, st, 0);
    }
  }

  lemma FedOne(k: Client.Link, st: Client.State, p: seq<Byte>)
    ensures FedAll(k, st, [p]) == Client.Fed(k, st, p)
  {
    hide Client.Fed;
    assert FedAll(k, Client.Fed(k, st, p), [p][1..]) == Client.Fed(k, st, p);
  }

  // ---- a lossy channel -----------------------------------------------------------------------

  /** Everything the proxy says about an answer: the acknowledgement of the request and the segments of the answer. */
  function Said(k: Client.Link, c: Proxy.Conn, resp: seq<Byte>): seq<seq<Byte>> {
    [Proxy.Say(k.dport, c, ACK, [])] + Proxy.Served(k.dport, c, resp)
  }

  lemma ChunkIsTrue(k: Client.Link, c: Proxy.Conn, resp: seq<Byte>, isn: u32, i: nat)
    requires c.clientPort == k.sport && c.sndNxt == Plus(isn, 1) && i < |resp|
    ensures var seg := Client.Sees(k, Proxy.Chunk(k.dport, c, resp, i));
            seg.Some? && Client.TrueAt(Client.Stream(isn, resp), seg.value, i)
  {
    hide SegmentOf, Client.Sees, Plus;
    var end := Proxy.ChunkEnd(resp, i);
    var flags := if end == |resp| then PSH + ACK + FIN else PSH + ACK;
    ClientReads(k, c.ourIp, c.clientIp, k.dport, Plus(c.sndNxt, i), c.rcvNxt, flags, resp[i..end]);
  }

  lemma {:induction false} ChunksAreTrue(k: Client.Link, c: Proxy.Conn, resp: seq<Byte>, isn: u32, i: nat, p: seq<Byte>)
    requires c.clientPort == k.sport && c.sndNxt == Plus(isn, 1) && p in Proxy.ChunksFrom(k.dport, c, resp, i)
    ensures Client.Sees(k, p).Some? && Client.IsTrue(Client.Stream(isn, resp), Client.Sees(k, p).value)
    decreases |resp| - i
  {
    hide Proxy.Chunk, Client.Sees, Client.TrueAt, Plus;
    if p == Proxy.Chunk(k.dport, c, resp, i) {
      ChunkIsTrue(k, c, resp, isn, i);
    } else {
      ChunksAreTrue(k, c, resp, isn, Proxy.ChunkEnd(resp, i), p);
    }
  }

  lemma BareIsTrue(k: Client.Link, c: Proxy.Conn, resp: seq<Byte>, isn: u32, fin: bool)
    requires c.clientPort == k.sport && c.sndNxt == Plus(isn, 1) && (fin ==> resp == [])
    ensures var seg := Client.Sees(k, Proxy.Say(k.dport, c, if fin then FIN + ACK else ACK, []));
            seg.Some? && Client.TrueAt(Client.Stream(isn, resp), seg.value, 0)
  {
    hide SegmentOf, Client.Sees;
    ClientReads(k, c.ourIp, c.clientIp, k.dport, c.sndNxt, c.rcvNxt, if fin then FIN + ACK else ACK, []);
    PlusPlus(isn, 1, 0);
  }

  /** Every packet of the proxy's answer is a true segment of it. */
  lemma SaidIsTrue(k: Client.Link, c: Proxy.Conn, resp: seq<Byte>, isn: u32, p: seq<Byte>)
    requires c.clientPort == k.sport && c.sndNxt == Plus(isn, 1) && p in Said(k, c, resp)
    ensures Client.Sees(k, p).Some? && Client.IsTrue(Client.Stream(isn, resp), Client.Sees(k, p).value)
  {
    hide Proxy.Say, Client.Sees, Client.TrueAt, Plus, Proxy.ChunksFrom;
    if p == Proxy.Say(k.dport, c, ACK, []) {
      BareIsTrue(k, c, resp, isn, false);
    } else if resp == [] {
      BareIsTrue(k, c, resp, isn, true);
    } else {
      ChunksAreTrue(k, c, resp, isn, 0, p);
    }
  }

  /** The packet that opened the connection: a SYN-ACK with the sequence number before the answer. */
  function Opening(k: Client.Link, c: Proxy.Conn): seq<Byte> { Proxy.Say(k.dport, c, SYN + ACK, []) }

  lemma OpeningIsTrue(k: Client.Link, c0: Proxy.Conn, resp: seq<Byte>)
    requires c0.clientPort == k.sport
    ensures var p := Opening(k, c0);
            Client.Sees(k, p).Some? && Client.IsTrue(Client.Stream(c0.sndNxt, resp), Client.Sees(k, p).value)
  {
    hide SegmentOf, Client.Sees, Client.TrueAt;
    ClientReads(k, c0.ourIp, c0.clientIp, k.dport, c0.sndNxt, c0.rcvNxt, SYN + ACK, []);
  }

  /**
   Lose, repeat and reorder whatever the proxy sent, its SYN-ACK included: the client never holds anything but a
   prefix of the answer.
   */
  lemma LossyTunnelIsSafe(k: Client.Link, c0: Proxy.Conn, c: Proxy.Conn, resp: seq<Byte>, st: Client.State,
                          packets: seq<seq<Byte>>)
    requires c0.clientPort == c.clientPort == k.sport && c.sndNxt == Plus(c0.sndNxt, 1) && |resp| < WORD
    requires Client.Synced(Client.Stream(c0.sndNxt, resp), st)
    requires forall p | p in packets :: p == Opening(k, c0) || p in Said(k, c, resp)
    ensures Client.Delivered(k, st, packets).response <= resp
  {
    hide Said, Opening, Client.Sees, Client.IsTrue, Client.Delivered, Plus;
    var isn := c0.sndNxt;
    forall i | 0 <= i < |packets| && Client.Sees(k, packets[i]).Some?
      ensures Client.IsTrue(Client.Stream(isn, resp), Client.Sees(k, packets[i]).value)
    {
      if packets[i] == Opening(k, c0) {
        OpeningIsTrue(k, c0, resp);
      } else {
        SaidIsTrue(k, c, resp, isn, packets[i]);
      }
    }
    Client.ResponseIsAlwaysPrefix(Client.Stream(isn, resp), k, st, packets);
  }

  // ---- the whole exchange --------------------------------------------------------------------

  /** The proxy answers the SYN, whatever it was doing before. */
  lemma SynAnswered(k: Client.Link, lan: seq<Byte> -> seq<Byte>, st: Client.State, c: Proxy.Conn, iss: u32)
    ensures var syn := Client.Say(k, st, SYN, []);
            var c1 := Proxy.Conn(true, k.src, k.dst, k.sport, Plus(st.sndNxt, 1), iss, false);
            Proxy.Handled(k.dport, lan, c, syn, iss) ==
            Proxy.Turn(c1.(sndNxt := Plus(iss, 1)), [Proxy.Say(k.dport, c1, SYN + ACK, [])])
  {
    hide SegmentOf, Proxy.Hears, Plus;
    ProxyReads(k.dport, k.src, k.dst, k.sport, st.sndNxt, st.rcvNxt, SYN, []);
  }

  /** The client answers the SYN-ACK with an acknowledgement and its request. */
  lemma SynAckAnswered(k: Client.Link, st: Client.State, c: Proxy.Conn)
    requires c.clientPort == k.sport && !st.established && !st.done
    ensures var p := Proxy.Say(k.dport, c, SYN + ACK, []);
            var st1 := st.(rcvNxt := Plus(c.sndNxt, 1));
            Client.Fed(k, st, p) == st1.(established := true, sndNxt := Plus(st.sndNxt, |k.request|)) &&
            Client.Replies(k, st, p) == [Client.Say(k, st1, ACK, []), Client.Say(k, st1, PSH + ACK, k.request)]
  {
    hide SegmentOf, Client.Sees, Plus;
    ClientReads(k, c.ourIp, c.clientIp, k.dport, c.sndNxt, c.rcvNxt, SYN + ACK, []);
  }

  /** An acknowledgement, or a request with nothing in it, is taken in silence: nothing is fetched. */
  lemma EmptyIgnored(k: Client.Link, lan: seq<Byte> -> seq<Byte>, st: Client.State, c: Proxy.Conn, flags: Byte, iss: u32)
    requires c.active && c.clientIp == k.src && c.clientPort == k.sport && (flags == ACK || flags == PSH + ACK)
    ensures Proxy.Handled(k.dport, lan, c, Client.Say(k, st, flags, []), iss) == Proxy.Turn(c, [])
  {
    hide SegmentOf, Proxy.Hears, Plus, Proxy.Served;
    ProxyReads(k.dport, k.src, k.dst, k.sport, st.sndNxt, st.rcvNxt, flags, []);
  }

  /** A request is fetched and served. */
  lemma RequestServed(k: Client.Link, lan: seq<Byte> -> seq<Byte>, st: Client.State, c: Proxy.Conn, iss: u32)
    requires c.active && c.clientIp == k.src && c.clientPort == k.sport && !c.fetched
    requires k.request != [] && 40 + |k.request| <= 65535
    ensures var c1 := Proxy.Fetched(c, Seg(st.sndNxt, PSH + ACK, k.request));
            Proxy.Handled(k.dport, lan, c, Client.Say(k, st, PSH + ACK, k.request), iss).out == Said(k, c1, lan(k.request))
  {
    hide SegmentOf, Proxy.Hears, Plus, Proxy.Served;
    ProxyReads(k.dport, k.src, k.dst, k.sport, st.sndNxt, st.rcvNxt, PSH + ACK, k.request);
  }

  /**
   A whole fetch over a channel that delivers everything in order. Whatever the proxy was doing before, the
   client ends done, with exactly what the LAN answered to its request; unless the request is empty: then the
   proxy fetches nothing, both sides fall silent, and the client is left connected and waiting.
   */
  method Fetch(client: Client.TcpClient, proxy: Proxy.TcpProxy, iss: u32) returns (answer: seq<seq<Byte>>)
    requires client.Now() == Client.State(client.sndNxt, 0, [], false, false)
    requires proxy.listen == client.link.dport && 40 + |client.link.request| <= 65535
    modifies client, proxy
    ensures client.link.request != [] ==> client.done && client.response == proxy.lan(client.link.request)
    ensures client.link.request == [] ==>
              answer == [] && !proxy.conn.fetched && client.established && !client.done && client.response == []
  {
    hide Proxy.Handled, Client.Fed, Client.Replies, Client.Say, Proxy.Say, Proxy.Served, FedAll, Plus;
    ghost var k, lan := client.link, proxy.lan;
    ghost var st0 := client.Now();
    var syn := client.Open();
    ghost var st1 := client.Now();
    SynAnswered(k, lan, st0, proxy.conn, iss);
    var first := proxy.Handle(syn, iss);
    ghost var c1 := Proxy.Conn(true, k.src, k.dst, k.sport, Plus(st0.sndNxt, 1), iss, false);
    SynAckAnswered(k, st1, c1);
    var request := client.OnInner(first[0]);
    ghost var st2 := st1.(rcvNxt := Plus(iss, 1));
    ghost var c2 := proxy.conn;
    EmptyIgnored(k, lan, st2, c2, ACK, iss);
    var nothing := proxy.Handle(request[0], iss);
    ghost var c3 := Proxy.Fetched(c2, Seg(st2.sndNxt, PSH + ACK, k.request));
    if k.request == [] {
      EmptyIgnored(k, lan, st2, c2, PSH + ACK, iss);
      NothingFed(k, client.Now());
    } else {
      RequestServed(k, lan, st2, c2, iss);
      StartsAt(k, c3, lan(k.request), client.Now());
      ServedTaken(k, c3, lan(k.request), client.Now());
    }
    answer := proxy.Handle(request[1], iss);
    FeedAll(client, answer);
  }

  lemma NothingFed(k: Client.Link, st: Client.State)
    ensures FedAll(k, st, []) == st
  {
  }

  lemma StartsAt(k: Client.Link, c: Proxy.Conn, resp: seq<Byte>, st: Client.State)
    requires c.clientPort == k.sport && st.established && !st.done && st.response == [] && st.rcvNxt == c.sndNxt
    ensures At(k, c, resp, st, 0)
  {
  }

  method FeedAll(client: Client.TcpClient, packets: seq<seq<Byte>>)
    modifies client
    ensures client.Now() == FedAll(client.link, old(client.Now()), packets)
  {
    hide Client.Fed, Client.Replies;
    var i := 0;
    assert packets[0..] == packets;
    while i < |packets|
      invariant 0 <= i <= |packets|
      invariant FedAll(client.link, client.Now(), packets[i..]) == FedAll(client.link, old(client.Now()), packets)
    {
      assert packets[i..][0] == packets[i] && packets[i..][1..] == packets[i + 1..];
      var replies := client.OnInner(packets[i]);
      i := i + 1;
    }
  }
}
