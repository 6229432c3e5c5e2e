/** The single-connection TCP client, and what it makes of lossy, repeated or reordered delivery. */
module Client {
  import opened Values
  import opened Bytes
  import opened Checksum
  import opened Packets
  import opened Tcp

  /** What never changes during a connection. */
  datatype Link = Link(src: Addr, dst: Addr, sport: u16, dport: u16, request: seq<Byte>)

  datatype State = State(sndNxt: u32, rcvNxt: u32, response: seq<Byte>, done: bool, established: bool)

  function Say(k: Link, st: State, flags: Byte, payload: seq<Byte>): seq<Byte> {
    SegmentOf(k.src, k.dst, k.sport, k.dport, st.sndNxt, st.rcvNxt, flags, payload)
  }

  /** An IPv4 TCP packet to this client's port. */
  predicate Owns(k: Link, p: seq<Byte>) {
    && |p| >= 20 && p[0] / 16 == 4 && p[9] == PROTO_TCP
    && |p| >= p[0] % 16 * 4 + 4 && Word(p, p[0] % 16 * 4 + 2) == k.sport
  }

  /** The segment the client finds in a packet. */
  function Sees(k: Link, p: seq<Byte>): Option<Seg> {
    if !Owns(k, p) then None
    else
      var ihl, total := p[0] % 16 * 4, Word(p, 2);
      if total < ihl + 20 || total > |p| then None else SegAt(p[ihl..total])
  }

  predicate IsSynAck(seg: Seg) { Has(seg.flags, SYN) && Has(seg.flags, ACK) }

  /** In-order data is kept; any data is acknowledged. */
  function TakeData(st: State, seg: Seg): State {
    if seg.payload != [] && seg.num == st.rcvNxt then
      st.(response := st.response + seg.payload, rcvNxt := Plus(st.rcvNxt, |seg.payload|))
    else st
  }

  /** A FIN ends the connection, whatever its sequence number. */
  function TakeFin(st: State, seg: Seg): State {
    if Has(seg.flags, FIN) then st.(rcvNxt := Plus(st.rcvNxt, 1), done := true) else st
  }

  function After(k: Link, st: State, seg: Seg): State {
    if IsSynAck(seg) && !st.established then
      st.(rcvNxt := Plus(seg.num, 1), established := true, sndNxt := Plus(st.sndNxt, |k.request|))
    else TakeFin(TakeData(st, seg), seg)
  }

  function Answer(k: Link, st: State, seg: Seg): seq<seq<Byte>> {
    if IsSynAck(seg) && !st.established then
      var st1 := st.(rcvNxt := Plus(seg.num, 1));
      [Say(k, st1, ACK, []), Say(k, st1, PSH + ACK, k.request)]
    else
      var st1 := TakeData(st, seg);
      var st2 := TakeFin(st1, seg);
      (if seg.payload != [] then [Say(k, st1, ACK, [])] else []) +
      if Has(seg.flags, FIN) then [Say(k, st2, ACK, []), Say(k, st2, FIN + ACK, [])] else []
  }

  /** The state after a packet is fed in. */
  function Fed(k: Link, st: State, p: seq<Byte>): State {
    if st.done then st else match Sees(k, p) case None => st case Some(seg) => After(k, st, seg)
  }

  function Replies(k: Link, st: State, p: seq<Byte>): seq<seq<Byte>> {
    if st.done then [] else match Sees(k, p) case None => [] case Some(seg) => Answer(k, st, seg)
  }

  class TcpClient {
    const link: Link
    var sndNxt: u32
    var rcvNxt: u32
    var response: seq<Byte>
    var done: bool
    var established: bool

    constructor (link: Link, iss: u32)
      ensures this.link == link && Now() == State(iss, 0, [], false, false)
    {
      this.link := link;
      sndNxt, rcvNxt, response, done, established := iss, 0, [], false, false;
    }

    function Now(): State
      reads this
    {
      State(sndNxt, rcvNxt, response, done, established)
    }

    method Segment(flags: Byte, payload: seq<Byte>) returns (pkt: seq<Byte>)
      ensures pkt == Say(link, Now(), flags, payload)
    {
      pkt := Tcp.Segment(link.src, link.dst, link.sport, link.dport, sndNxt, rcvNxt, flags, payload);
    }

    /** The first packet: SYN, which takes one sequence number. */
    method Open() returns (pkt: seq<Byte>)
      modifies this
      ensures pkt == Say(link, old(Now()), SYN, []) && Now() == old(Now()).(sndNxt := Plus(old(sndNxt), 1))
    {
      pkt := Segment(SYN, []);
      sndNxt := Plus(sndNxt, 1);
    }

    /** Feed one packet from the server; the packets to send back. */
    method OnInner(inner: seq<Byte>) returns (out: seq<seq<Byte>>)
      modifies this
      ensures Now() == Fed(link, old(Now()), inner) && out == Replies(link, old(Now()), inner)
    {
      hide Say, SegAt, Plus, Has;
      out := [];
      if !Owns(link, inner) || done { return; }
      var ihl := inner[0] % 16 * 4;
      var total := Word(inner, 2);
      if total < ihl + 20 || total > |inner| { return; }
      var seg := SegAt(inner[ihl..total]);
      if seg.None? { return; }
      assert Sees(link, inner) == seg;
      out := React(seg.value);
    }

    method React(seg: Seg) returns (out: seq<seq<Byte>>)
      modifies this
      ensures Now() == After(link, old(Now()), seg) && out == Answer(link, old(Now()), seg)
    {
      hide Say, Plus, Has;
      out := [];
      if Has(seg.flags, SYN) && Has(seg.flags, ACK) && !established {
        rcvNxt := Plus(seg.num, 1);
        var ack := Segment(ACK, []);
        var req := Segment(PSH + ACK, link.request);
        assert Now() == old(Now()).(rcvNxt := Plus(seg.num, 1));
        established := true;
        out := [ack, req];
        sndNxt := Plus(sndNxt, |link.request|);
        return;
      }
      if seg.payload != [] {
        if seg.num == rcvNxt {
          response := response + seg.payload;
          rcvNxt := Plus(rcvNxt, |seg.payload|);
        }
        assert Now() == TakeData(old(Now()), seg);
        var ack := Segment(ACK, []);
        out := [ack];
      }
      assert Now() == TakeData(old(Now()), seg);
      if Has(seg.flags, FIN) {
        rcvNxt := Plus(rcvNxt, 1);
        done := true;
        var ack := Segment(ACK, []);
        var fin := Segment(FIN + ACK, []);
        out := out + [ack, fin];
      }
    }
  }

  // ---- true segments of a stream -------------------------------------------------------------

  /** What the server sends: an initial sequence number and the bytes of its response. */
  datatype Stream = Stream(isn: u32, data: seq<Byte>)

  /** The sequence number of byte `off` of the stream. */
  function NumOf(s: Stream, off: nat): u32 { Plus(Plus(s.isn, 1), off) }

  /** A segment that carries the bytes from `off`; only the last may carry the FIN. */
  ghost predicate TrueAt(s: Stream, seg: Seg, off: nat) {
    && !Has(seg.flags, SYN) && off + |seg.payload| <= |s.data| && seg.num == NumOf(s, off)
    && seg.payload == s.data[off..off + |seg.payload|]
    && (Has(seg.flags, FIN) ==> off + |seg.payload| == |s.data|)
  }

  /** A segment the server sends: its SYN-ACK, or some of its bytes. */
  ghost predicate IsTrue(s: Stream, seg: Seg) {
    || (Has(seg.flags, SYN) && !Has(seg.flags, FIN) && seg.num == s.isn && seg.payload == [])
    || exists off: nat :: TrueAt(s, seg, off)
  }

  /** Connected: what was received is a prefix of the stream, and the next byte expected is the one after it. */
  ghost predicate Synced(s: Stream, st: State) {
    && st.established && st.response <= s.data
    && (!st.done ==> st.rcvNxt == NumOf(s, |st.response|))
  }

  /** Within 2^32 bytes different bytes have different sequence numbers. */
  lemma NumsDiffer(s: Stream, a: nat, b: nat)
    requires a < WORD && b < WORD && NumOf(s, a) == NumOf(s, b)
    ensures a == b
  {
    SameAfterPlus(Plus(s.isn, 1), a, b);
  }

  lemma SameAfterPlus(n: u32, a: nat, b: nat)
    requires a < WORD && b < WORD && Plus(n, a) == Plus(n, b)
    ensures a == b
  {
  }

  /** A true segment, whichever it is, keeps what was received a prefix of the stream. */
  lemma TrueSegmentKeepsPrefix(s: Stream, k: Link, st: State, seg: Seg)
    requires |s.data| < WORD && Synced(s, st) && !st.done && IsTrue(s, seg)
    ensures Synced(s, After(k, st, seg)) && st.response <= After(k, st, seg).response
  {
    hide Plus, Has;
    if !(Has(seg.flags, SYN) && seg.payload == []) {
      var off: nat :| TrueAt(s, seg, off);
      if seg.num == st.rcvNxt {
        NumsDiffer(s, off, |st.response|);
        PlusPlus(Plus(s.isn, 1), off, |seg.payload|);
        assert s.data[..off + |seg.payload|] == s.data[..off] + seg.payload;
      }
    }
  }

  /** Feed packets one after the other. */
  function Delivered(k: Link, st: State, packets: seq<seq<Byte>>): State {
    if packets == [] then st
    else Fed(k, Delivered(k, st, packets[..|packets| - 1]), packets[|packets| - 1])
  }

  /** The packets, as far as the client reads them, are true segments: any of them, in any order, any number of times. */
  ghost predicate AllTrue(s: Stream, k: Link, packets: seq<seq<Byte>>) {
    forall i | 0 <= i < |packets| :: Sees(k, packets[i]).Some? ==> IsTrue(s, Sees(k, packets[i]).value)
  }

  /** Lost, repeated or reordered, true segments never make the response anything but a prefix of the stream. */
  lemma {:induction false} ResponseIsAlwaysPrefix(s: Stream, k: Link, st: State, packets: seq<seq<Byte>>)
    requires |s.data| < WORD && Synced(s, st) && AllTrue(s, k, packets)
    ensures Synced(s, Delivered(k, st, packets)) && st.response <= Delivered(k, st, packets).response
  {
    hide Sees, IsTrue, After;
    if packets != [] {
      var before, p := packets[..|packets| - 1], packets[|packets| - 1];
      assert AllTrue(s, k, before) by {
        forall i | 0 <= i < |before| && Sees(k, before[i]).Some? ensures IsTrue(s, Sees(k, before[i]).value) {
          assert before[i] == packets[i];
        }
      }
      ResponseIsAlwaysPrefix(s, k, st, before);
      var mid := Delivered(k, st, before);
      if !mid.done && Sees(k, p).Some? {
        TrueSegmentKeepsPrefix(s, k, mid, Sees(k, p).value);
      }
    }
  }

  /** The SYN-ACK puts a waiting client in step with the stream. */
  lemma SynAckSyncs(s: Stream, k: Link, st: State, seg: Seg)
    requires !st.established && st.response == [] && IsSynAck(seg) && seg.num == s.isn
    ensures Synced(s, After(k, st, seg))
  {
    PlusPlus(s.isn, 1, 0);
  }

  /**
   The FIN is taken as soon as it comes: the response is complete exactly when nothing was missing then,
   that is, when the FIN's segment came in order or all of its bytes had been received.
   */
  lemma FinCompletesExactly(s: Stream, k: Link, st: State, seg: Seg, off: nat)
    requires |s.data| < WORD && Synced(s, st) && !st.done && TrueAt(s, seg, off) && Has(seg.flags, FIN)
    ensures After(k, st, seg).done
    ensures After(k, st, seg).response == s.data <==> |st.response| == off || |st.response| == |s.data|
  {
    hide Plus, Has;
    if seg.num == st.rcvNxt { NumsDiffer(s, off, |st.response|); }
    if seg.payload == [] { assert off == |s.data|; }
    assert s.data[..off] + s.data[off..] == s.data;
    assert st.response == s.data[..|st.response|];
  }

  /** Before the SYN-ACK a new client takes data exactly when it is numbered zero. */
  lemma EarlyDataTakenExactly(k: Link, iss: u32, seg: Seg)
    ensures After(k, State(iss, 0, [], false, false), seg).response != [] <==>
            !IsSynAck(seg) && seg.payload != [] && seg.num == 0
  {
    hide Has;
  }
}
