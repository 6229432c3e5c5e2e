/**
 The device's streaming HTTP read: header stripping, the body as it grows, and the early abort of
 `fetch_extract`. `chunks` are the successive results of the socket's `read`; an empty one is the end
 of the stream.
 */
module Fetch {
  import opened Bytes
  import opened Utf8
  import opened Values
  import opened Json
  import opened JsonStream
  import opened JsonScan

  const MAX_BODY := 32 * 1024
  const HEADER_END: seq<Byte> := [13, 10, 13, 10]

  type Probe = seq<Byte> -> Option<Value>

  /** The probe of `fetch_json`: the scalar at `path` in the text received so far, up to a character that is cut. */
  function JsonProbe(std: Std, path: string): Probe {
    (buf: seq<Byte>) =>
      var r := GetAt(std, ValidPrefix(buf), path);
      if r.Ok? then Some(r.value) else None
  }

  // ---- finding the end of the header ---------------------------------------------------------

  predicate HeaderEndAt(b: seq<Byte>, i: nat) { i + 4 <= |b| && b[i..i + 4] == HEADER_END }

  ghost predicate NoHeaderEnd(b: seq<Byte>, limit: nat) { forall i: nat | i < limit :: !HeaderEndAt(b, i) }

  method Find(hay: seq<Byte>) returns (r: Option<nat>)
    ensures r.Some? ==> HeaderEndAt(hay, r.value) && NoHeaderEnd(hay, r.value)
    ensures r.None? ==> NoHeaderEnd(hay, |hay|)
  {
    var i := 0;
    while i + 4 <= |hay|
      invariant NoHeaderEnd(hay, i)
    {
      if hay[i..i + 4] == HEADER_END {
        return Some(i);
      }
      i := i + 1;
    }
    return None;
  }

  /** Where the header ends: the first blank line. */
  ghost function HeaderEnd(b: seq<Byte>): (r: Option<nat>)
    ensures r.Some? <==> exists i: nat :: HeaderEndAt(b, i)
    ensures r.Some? ==> HeaderEndAt(b, r.value) && NoHeaderEnd(b, r.value)
  {
    if exists i: nat :: HeaderEndAt(b, i) then
      var i: nat :| HeaderEndAt(b, i);
      Some(Earliest(b, i))
    else None
  }

  ghost function Earliest(b: seq<Byte>, i: nat): (r: nat)
    requires HeaderEndAt(b, i)
    ensures HeaderEndAt(b, r) && NoHeaderEnd(b, r)
  {
    if k: nat :| k < i && HeaderEndAt(b, k) then Earliest(b, k) else i
  }

  lemma HeaderEndUnique(b: seq<Byte>, i: nat)
    requires HeaderEndAt(b, i) && NoHeaderEnd(b, i)
    ensures HeaderEnd(b) == Some(i)
  {
    var j := HeaderEnd(b).value;
    assert !(i < j) && !(j < i);
  }

  lemma HeaderEndStable(b: seq<Byte>, ext: seq<Byte>)
    requires HeaderEnd(b).Some?
    ensures HeaderEnd(b + ext) == HeaderEnd(b)
  {
    var i := HeaderEnd(b).value;
    assert (b + ext)[i..i + 4] == b[i..i + 4];
    forall k: nat | k < i ensures !HeaderEndAt(b + ext, k) {
      assert !HeaderEndAt(b, k);
      assert (b + ext)[k..k + 4] == b[k..k + 4];
    }
    HeaderEndUnique(b + ext, i);
  }

  // ---- the bodies handed to the callback -----------------------------------------------------

  /** The body within everything received so far, once the header is complete. */
  ghost function BodyOf(received: seq<Byte>): Option<seq<Byte>> {
    var h := HeaderEnd(received);
    if h.Some? then Some(received[h.value + 4..]) else None
  }

  /** The bodies `on_body` sees, in order, if it never asks to stop. */
  ghost function Bodies(received: seq<Byte>, chunks: seq<seq<Byte>>): seq<seq<Byte>>
    decreases |chunks|
  {
    if chunks == [] || chunks[0] == [] then []
    else
      var now := received + chunks[0];
      var body := BodyOf(now);
      var handed := if body.Some? then [body.value] else [];
      if body.Some? && |body.value| > MAX_BODY then handed else handed + Bodies(now, chunks[1..])
  }

  /** The first hit of the probe. */
  function FirstHit(probe: Probe, bodies: seq<seq<Byte>>): Option<Value> {
    if bodies == [] then None
    else
      var v := probe(bodies[0]);
      if v.Some? then v else FirstHit(probe, bodies[1..])
  }

  ghost function LastOr(first: seq<Byte>, bodies: seq<seq<Byte>>): seq<Byte>
    decreases |bodies|
  {
    if bodies == [] then first else LastOr(bodies[0], bodies[1..])
  }

  /** One read: what the callback is handed, and what is left to read. */
  lemma BodiesStep(received: seq<Byte>, chunks: seq<seq<Byte>>)
    requires chunks != [] && chunks[0] != []
    ensures var body, rest := BodyOf(received + chunks[0]), Bodies(received + chunks[0], chunks[1..]);
            Bodies(received, chunks) ==
            if body.None? then rest
            else if |body.value| > MAX_BODY then [body.value]
            else [body.value] + rest
  {
    var body := BodyOf(received + chunks[0]);
    if body.None? {
      assert [] + Bodies(received + chunks[0], chunks[1..]) == Bodies(received + chunks[0], chunks[1..]);
    }
  }

  lemma FirstHitStep(probe: Probe, body: seq<Byte>, rest: seq<seq<Byte>>, seen: seq<Byte>)
    ensures FirstHit(probe, [body] + rest) == if probe(body).Some? then probe(body) else FirstHit(probe, rest)
    ensures LastOr(seen, [body] + rest) == LastOr(body, rest)
  {
    assert ([body] + rest)[1..] == rest;
  }

  /** The incremental buffers hold the body of everything received. */
  ghost predicate Buffered(received: seq<Byte>, raw: seq<Byte>, body: seq<Byte>, headerDone: bool) {
    if headerDone then BodyOf(received) == Some(body)
    else raw == received && BodyOf(received).None? && body == []
  }

  lemma BodyGrows(received: seq<Byte>, chunk: seq<Byte>)
    requires BodyOf(received).Some?
    ensures BodyOf(received + chunk) == Some(BodyOf(received).value + chunk)
  {
    HeaderEndStable(received, chunk);
    var i := HeaderEnd(received).value;
    assert (received + chunk)[i + 4..] == received[i + 4..] + chunk;
  }

  lemma BodyFound(raw: seq<Byte>, i: nat)
    requires HeaderEndAt(raw, i) && NoHeaderEnd(raw, i)
    ensures BodyOf(raw) == Some(raw[i + 4..])
  {
    HeaderEndUnique(raw, i);
  }

  lemma BodyMissing(raw: seq<Byte>)
    requires NoHeaderEnd(raw, |raw|)
    ensures BodyOf(raw).None?
  {
  }

  /** What one chunk does to the buffers. */
  method Receive(raw: seq<Byte>, body: seq<Byte>, headerDone: bool, chunk: seq<Byte>, ghost received: seq<Byte>)
    returns (raw': seq<Byte>, body': seq<Byte>, done: bool)
    requires Buffered(received, raw, body, headerDone)
    ensures Buffered(received + chunk, raw', body', done)
  {
    hide HeaderEndAt, HeaderEnd, BodyOf;
    if headerDone {
      BodyGrows(received, chunk);
      return raw, body + chunk, true;
    }
    var all := raw + chunk;
    var pos := Find(all);
    if pos.Some? {
      HeaderEndFits(all, pos.value);
      BodyFound(all, pos.value);
      return [], all[pos.value + 4..], true;
    }
    BodyMissing(all);
    return all, [], false;
  }

  lemma HeaderEndFits(b: seq<Byte>, i: nat)
    requires HeaderEndAt(b, i)
    ensures i + 4 <= |b|
  {
  }

  /**
   `http_get` with the callback of `fetch_extract`: stop at the first hit of the probe. `seen` is the
   last body handed over, which is all that the callback of `fetch` keeps.
   */
  method HttpGet(chunks: seq<seq<Byte>>, probe: Probe) returns (found: Option<Value>, seen: seq<Byte>)
    ensures found == FirstHit(probe, Bodies([], chunks))
    ensures found.None? ==> seen == LastOr([], Bodies([], chunks))
  {
    hide BodyOf, Bodies, FirstHit, LastOr;
    var raw: seq<Byte>, body: seq<Byte>, headerDone := [], [], false;
    found, seen := None, [];
    ghost var received: seq<Byte> := [];
    var n := 0;
    NothingReceived();
    assert chunks[0..] == chunks;
    while n < |chunks| && chunks[n] != []
      invariant 0 <= n <= |chunks|
      invariant found == None
      invariant FirstHit(probe, Bodies([], chunks)) == FirstHit(probe, Bodies(received, chunks[n..]))
      invariant LastOr([], Bodies([], chunks)) == LastOr(seen, Bodies(received, chunks[n..]))
      invariant Buffered(received, raw, body, headerDone)
    {
      BodiesStep(received, chunks[n..]);
      assert chunks[n..][1..] == chunks[n + 1..] && chunks[n..][0] == chunks[n];
      raw, body, headerDone := Receive(raw, body, headerDone, chunks[n], received);
      received := received + chunks[n];
      n := n + 1;
      if headerDone {
        FirstHitStep(probe, body, Bodies(received, chunks[n..]), seen);
        FirstHitStep(probe, body, [], seen);
        assert [body] + [] == [body];
        NoMore(probe, body);
        seen := body;
        found := probe(body);
        if found.Some? || |body| > MAX_BODY {
          return;
        }
      }
    }
    NoChunks(received, chunks[n..]);
    NoMore(probe, seen);
  }

  lemma NothingReceived()
    ensures Buffered([], [], [], false)
  {
    BodyMissing([]);
  }

  lemma NoChunks(received: seq<Byte>, chunks: seq<seq<Byte>>)
    requires chunks == [] || chunks[0] == []
    ensures Bodies(received, chunks) == []
  {
  }

  lemma NoMore(probe: Probe, seen: seq<Byte>)
    ensures FirstHit(probe, []) == None && LastOr(seen, []) == seen
  {
  }

  // ---- the streaming override against the default --------------------------------------------

  /** `fetch` on the device: the last body handed over. */
  method FetchBody(chunks: seq<seq<Byte>>) returns (body: seq<Byte>)
    ensures body == LastOr([], Bodies([], chunks))
  {
    var found, seen := HttpGet(chunks, buf => None);
    NeverHits(Bodies([], chunks));
    body := seen;
  }

  lemma {:induction false} NeverHits(bodies: seq<seq<Byte>>)
    ensures FirstHit(buf => None, bodies) == None
  {
    if bodies != [] { NeverHits(bodies[1..]); }
  }

  /** `fetch_extract` on the device: the early-abort override. */
  method FetchExtract(chunks: seq<seq<Byte>>, std: Std, path: string) returns (r: Result<Value>)
    ensures r == Extracted(FirstHit(JsonProbe(std, path), Bodies([], chunks)))
  {
    var found, seen := HttpGet(chunks, JsonProbe(std, path));
    return if found.Some? then Ok(found.value) else Err(FieldNotFound);
  }

  ghost function Extracted(hit: Option<Value>): Result<Value> {
    if hit.Some? then Ok(hit.value) else Err(FieldNotFound)
  }

  /** The default `fetch_extract`: fetch the whole body as text, then probe it once. `lossy` is what makes text of bytes. */
  ghost function DefaultExtract(std: Std, path: string, lossy: seq<Byte> -> string, chunks: seq<seq<Byte>>): Result<Value> {
    Extracted(JsonProbe(std, path)(TextBytes(lossy(LastOr([], Bodies([], chunks))))))
  }

  /** No body breaks off in a number that the path lands on and `text` goes on with. */
  ghost predicate Uncut(bodies: seq<seq<Byte>>, text: string, path: string) {
    forall i | 0 <= i < |bodies| && ValidPrefix(bodies[i]) <= text :: !Continued(ValidPrefix(bodies[i]), text, path)
  }

  /** Each body continues the one before it. */
  ghost predicate Growing(bodies: seq<seq<Byte>>) {
    forall i | 0 < i < |bodies| :: bodies[i - 1] <= bodies[i]
  }

  lemma {:induction false} BodiesGrow(received: seq<Byte>, chunks: seq<seq<Byte>>)
    ensures Growing(Bodies(received, chunks))
    ensures var bs := Bodies(received, chunks);
            BodyOf(received).Some? && bs != [] ==> BodyOf(received).value <= bs[0]
    decreases |chunks|
  {
    hide BodyOf, Bodies;
    if chunks == [] || chunks[0] == [] {
      NoChunks(received, chunks);
    } else {
      BodiesStep(received, chunks);
      BodiesGrow(received + chunks[0], chunks[1..]);
      if BodyOf(received).Some? { BodyGrows(received, chunks[0]); }
    }
  }

  /** Where the first hit is. */
  function FirstHitAt(probe: Probe, bodies: seq<seq<Byte>>): (k: nat)
    ensures k <= |bodies| && forall i | 0 <= i < k :: probe(bodies[i]) == None
    ensures k < |bodies| ==> probe(bodies[k]).Some?
    ensures FirstHit(probe, bodies) == if k < |bodies| then probe(bodies[k]) else None
  {
    if bodies == [] || probe(bodies[0]).Some? then 0 else 1 + FirstHitAt(probe, bodies[1..])
  }

  lemma LastContinues(bodies: seq<seq<Byte>>, k: nat)
    requires Growing(bodies) && k < |bodies|
    ensures LastOr([], bodies) == bodies[|bodies| - 1] && bodies[k] <= LastOr([], bodies)
  {
    LastIs([], bodies);
    BodyBelow(bodies, k, |bodies| - 1);
  }

  lemma {:induction false} LastIs(first: seq<Byte>, bodies: seq<seq<Byte>>)
    requires bodies != []
    ensures LastOr(first, bodies) == bodies[|bodies| - 1]
    decreases |bodies|
  {
    if |bodies| == 1 {
      assert bodies[1..] == [];
    } else {
      LastIs(bodies[0], bodies[1..]);
    }
  }

  lemma {:induction false} BodyBelow(bodies: seq<seq<Byte>>, i: nat, k: nat)
    requires Growing(bodies) && i <= k < |bodies|
    ensures bodies[i] <= bodies[k]
    decreases k - i
  {
    if i < k { BodyBelow(bodies, i, k - 1); }
  }

  lemma ValidGrows(first: seq<Byte>, next: seq<Byte>)
    requires first <= next
    ensures ValidPrefix(first) <= ValidPrefix(next)
  {
    hide ValidPrefix;
    assert first + next[|first|..] == next;
    PrefixGrows(first, next[|first|..]);
  }

  /** A hit of the probe is the answer for more bytes exactly when they do not go on with its number, or to no effect. */
  lemma HitStaysExactly(std: Std, path: string, first: seq<Byte>, next: seq<Byte>)
    requires first <= next && JsonProbe(std, path)(first).Some?
    ensures ValidPrefix(first) <= ValidPrefix(next)
    ensures JsonProbe(std, path)(next) == JsonProbe(std, path)(first) <==>
            Keeps(std, ValidPrefix(first), ValidPrefix(next), path)
  {
    hide GetAt, Keeps, ValidPrefix;
    ValidGrows(first, next);
    HitKeptExactly(std, ValidPrefix(first), ValidPrefix(next), path);
  }

  /**
   For any bytes and any way of cutting them into chunks: early abort gives what probing the last body once gives
   exactly when there is no hit, or the last body does not go on with the number of the first hit, or goes on to
   no effect.
   */
  lemma EarlyAbortWholeExactly(std: Std, path: string, chunks: seq<seq<Byte>>)
    ensures var bodies := Bodies([], chunks);
            var probe, last := JsonProbe(std, path), LastOr([], bodies); var k := FirstHitAt(probe, bodies);
            && (k < |bodies| ==> ValidPrefix(bodies[k]) <= ValidPrefix(last))
            && (FirstHit(probe, bodies) == probe(last) <==>
                (k < |bodies| ==> Keeps(std, ValidPrefix(bodies[k]), ValidPrefix(last), path)))
  {
    hide Bodies, JsonProbe, ValidPrefix, Keeps, LastOr, FirstHit;
    var bodies := Bodies([], chunks);
    var probe, last := JsonProbe(std, path), LastOr([], bodies);
    var k := FirstHitAt(probe, bodies);
    BodiesGrow([], chunks);
    if k < |bodies| {
      LastContinues(bodies, k);
      HitStaysExactly(std, path, bodies[k], last);
    } else if bodies == [] {
      NothingToFind(std, path);
      NoMore(probe, []);
    } else {
      LastIs([], bodies);
    }
  }

  /** So early abort changes nothing, for every way of cutting that leaves the number the path lands on whole. */
  lemma EarlyAbortIsWhole(std: Std, path: string, chunks: seq<seq<Byte>>)
    requires Uncut(Bodies([], chunks), ValidPrefix(LastOr([], Bodies([], chunks))), path)
    ensures FirstHit(JsonProbe(std, path), Bodies([], chunks)) == JsonProbe(std, path)(LastOr([], Bodies([], chunks)))
  {
    hide Bodies, FirstHit, LastOr, JsonProbe, ValidPrefix, Continued;
    EarlyAbortWholeExactly(std, path, chunks);
  }

  lemma NothingToFind(std: Std, path: string)
    ensures JsonProbe(std, path)([]) == None
  {
    assert ValidPrefix([]) == [];
  }

  /**
   Early abort against the default method, which makes text of the whole body first: `lossy` keeps what is valid
   UTF-8, and a body that is not goes on with replacement characters. A hit is the default's exactly when that text
   does not go on with its number, or to no effect. A miss is, unless the scan ran off the end of the valid part
   and what was put behind it makes it a hit.
   */
  lemma EarlyAbortExactly(std: Std, path: string, lossy: seq<Byte> -> string, chunks: seq<seq<Byte>>)
    requires var last := LastOr([], Bodies([], chunks)); ValidPrefix(last) <= lossy(last)
    ensures var bodies := Bodies([], chunks);
            var probe, last := JsonProbe(std, path), LastOr([], bodies); var k := FirstHitAt(probe, bodies);
            && (k < |bodies| ==> ValidPrefix(bodies[k]) <= lossy(last))
            && (Extracted(FirstHit(probe, bodies)) == DefaultExtract(std, path, lossy, chunks) <==>
                if k < |bodies| then Keeps(std, ValidPrefix(bodies[k]), lossy(last), path)
                else !RanOff(ValidPrefix(last), path) || GetAt(std, lossy(last), path).Err?)
  {
    hide Bodies, FirstHit, LastOr, GetAt, Keeps, ValidPrefix, TextBytes, RanOff;
    var bodies := Bodies([], chunks);
    var probe, last := JsonProbe(std, path), LastOr([], bodies);
    var k := FirstHitAt(probe, bodies);
    var text := lossy(last);
    EncodedIsValid(text);
    BodiesGrow([], chunks);
    if k < |bodies| {
      LastContinues(bodies, k);
      ValidGrows(bodies[k], last);
      HitKeptExactly(std, ValidPrefix(bodies[k]), text, path);
    } else {
      if bodies == [] {
        NothingToFind(std, path);
        NoMore(probe, []);
      } else {
        LastIs([], bodies);
      }
      MissStays(std, path, ValidPrefix(last), text);
    }
  }

  lemma MissStays(std: Std, path: string, valid: string, text: string)
    requires valid <= text
    ensures !RanOff(valid, path) ==> GetAt(std, text, path) == GetAt(std, valid, path)
  {
    hide GetAt, RanOff;
    assert valid + text[|valid|..] == text;
    if !RanOff(valid, path) { ScanDecided(std, valid, path, text[|valid|..]); }
  }

  /** So the two agree if the body is valid UTF-8 and no chunk cuts the number. */
  lemma EarlyAbortIsDefault(std: Std, path: string, lossy: seq<Byte> -> string, chunks: seq<seq<Byte>>, text: string)
    requires Uncut(Bodies([], chunks), text, path)
    requires LastOr([], Bodies([], chunks)) == TextBytes(text) && lossy(TextBytes(text)) == text
    ensures Extracted(FirstHit(JsonProbe(std, path), Bodies([], chunks))) == DefaultExtract(std, path, lossy, chunks)
  {
    hide Bodies, FirstHit, LastOr, JsonProbe, ValidPrefix, Continued, TextBytes;
    EncodedIsValid(text);
    EarlyAbortIsWhole(std, path, chunks);
  }

  ghost function Join(chunks: seq<seq<Byte>>): seq<Byte> {
    if chunks == [] then [] else chunks[0] + Join(chunks[1..])
  }

  /** A response with a body within the cap is handed over in full. */
  lemma {:induction false} WholeBodySeen(received: seq<Byte>, chunks: seq<seq<Byte>>, last: seq<Byte>)
    requires forall i | 0 <= i < |chunks| :: chunks[i] != []
    requires var b := BodyOf(received + Join(chunks)); b.Some? ==> |b.value| <= 32768
    requires if BodyOf(received).Some? then last == BodyOf(received).value else last == []
    ensures var b := BodyOf(received + Join(chunks));
            LastOr(last, Bodies(received, chunks)) == if b.Some? then b.value else []
    decreases |chunks|
  {
    hide BodyOf, Bodies, LastOr;
    if chunks == [] {
      assert received + Join(chunks) == received;
      NoChunks(received, chunks);
      NoMore(buf => None, last);
    } else {
      var now, rest := received + chunks[0], chunks[1..];
      assert received + Join(chunks) == now + Join(rest);
      BodiesStep(received, chunks);
      var b := BodyOf(now);
      if b.Some? {
        BodyGrows(now, Join(rest));
        FirstHitStep(buf => None, b.value, Bodies(now, rest), last);
        WholeBodySeen(now, rest, b.value);
      } else {
        if BodyOf(received).Some? { BodyGrows(received, chunks[0]); }
        WholeBodySeen(now, rest, []);
      }
    }
  }

  /**
   However the bytes of a response with a body within the cap are cut into chunks, inside a character or not,
   extracting while it streams equals extracting from its whole body exactly when the body does not go on with the
   number of the first hit, or goes on to no effect.
   */
  lemma StreamedIsWhole(std: Std, path: string, chunks: seq<seq<Byte>>, body: seq<Byte>)
    requires forall i | 0 <= i < |chunks| :: chunks[i] != []
    requires BodyOf(Join(chunks)) == Some(body) && |body| <= 32768
    ensures var bodies, probe := Bodies([], chunks), JsonProbe(std, path); var k := FirstHitAt(probe, bodies);
            && (k < |bodies| ==> ValidPrefix(bodies[k]) <= ValidPrefix(body))
            && (FirstHit(probe, bodies) == probe(body) <==>
                (k < |bodies| ==> Keeps(std, ValidPrefix(bodies[k]), ValidPrefix(body), path)))
    ensures Uncut(Bodies([], chunks), ValidPrefix(body), path) ==>
              FirstHit(JsonProbe(std, path), Bodies([], chunks)) == JsonProbe(std, path)(body)
  {
    hide Bodies, BodyOf, HeaderEnd, JsonProbe, ValidPrefix, Continued, FirstHit, LastOr;
    assert [] + Join(chunks) == Join(chunks);
    BodyMissing([]);
    WholeBodySeen([], chunks, []);
    EarlyAbortWholeExactly(std, path, chunks);
  }

  // ---- a wrong answer ------------------------------------------------------------------------

  lemma {:induction false} BytesBoth(s: string, t: string)
    ensures TextBytes(s + t) == TextBytes(s) + TextBytes(t)
  {
    hide Encode;
    if t == [] {
      assert s + t == s;
    } else {
      var init := t[..|t| - 1];
      BytesBoth(s, init);
      assert (s + t)[..|s + t| - 1] == s + init;
    }
  }

  /** A header, with nothing of the body yet. */
  ghost predicate IsHead(head: seq<Byte>) { HeaderEnd(head).Some? && HeaderEnd(head).value + 4 == |head| }

  lemma BodyAfter(head: seq<Byte>, body: seq<Byte>)
    requires IsHead(head)
    ensures BodyOf(head + body) == Some(body)
  {
    HeaderEndStable(head, body);
    assert (head + body)[|head|..] == body;
  }

  /** Two chunks, the header and some text and then the rest of it. */
  lemma TwoBodies(head: seq<Byte>, first: seq<Byte>, second: seq<Byte>)
    requires IsHead(head) && second != [] && |first| <= MAX_BODY
    ensures Bodies([], [head + first, second]) == [first, first + second]
  {
    hide HeaderEnd, Bodies;
    var chunks := [head + first, second];
    assert [] + chunks[0] == head + first && chunks[1..] == [second] && [second][1..] == [];
    assert (head + first) + second == head + (first + second);
    BodyAfter(head, first);
    BodyAfter(head, first + second);
    BodiesStep([], chunks);
    BodiesStep(head + first, [second]);
    NoChunks(head + first + second, []);
  }

  /**
   Whenever a chunk ends inside an integer the path lands on and a digit follows, early abort answers with the
   integer it has seen, and not, as the whole body does, with the one that was sent. Neither is an error.
   */
  lemma DigitIsMissed(std: Std, path: string, head: seq<Byte>, text: string, d: char, rest: string)
    requires IsHead(head) && |TextBytes(text)| <= MAX_BODY
    requires CutsNumber(text, path) && GetAt(std, text, path).Ok? && GetAt(std, text, path).value.Int?
    requires IsDigit(d) && (rest == [] || IsDelim(rest[0]))
    ensures NumberTok(text, path) != []
    ensures var n := GetAt(std, text, path).value.n; var m := Appended(NumberTok(text, path), n, d);
            var chunks := [head + TextBytes(text), TextBytes([d] + rest)]; var probe := JsonProbe(std, path);
            && FirstHit(probe, Bodies([], chunks)) == Some(Int(n))
            && BodyOf(Join(chunks)) == Some(TextBytes(text + ([d] + rest)))
            && probe(TextBytes(text + ([d] + rest))) == (if I64_MIN <= m <= I64_MAX then Some(Int(m)) else None)
            && (m == n <==> n == 0 && d == '0')
  {
    hide TextBytes, ValidPrefix, GetAt, CutsNumber, NumberTok, Bodies, HeaderEnd, BodyOf, IsHead;
    var more := [d] + rest;
    var first, second := TextBytes(text), TextBytes(more);
    DigitChangesNumber(std, text, path, d, rest);
    EncodedIsValid(text);
    EncodedIsValid(text + more);
    BytesBoth(text, more);
    SomeBytes(more);
    TwoBodies(head, first, second);
    JoinTwo(head + first, second);
    assert (head + first) + second == head + (first + second);
    BodyAfter(head, first + second);
    FirstHitStep(JsonProbe(std, path), first, [first + second], []);
    assert [first] + [first + second] == [first, first + second];
  }

  lemma JoinTwo(a: seq<Byte>, b: seq<Byte>)
    ensures Join([a, b]) == a + b
  {
    assert [a, b][1..] == [b] && [b][1..] == [] && Join([]) == [] && b + [] == b;
    assert Join([b]) == b;
  }

  lemma SomeBytes(text: string)
    requires text != []
    ensures TextBytes(text) != []
  {
  }

  /** Once a body has outgrown 32768 bytes it is handed over as it is, and nothing more is read. */
  lemma BeyondTheCap(received: seq<Byte>, chunk: seq<Byte>, rest: seq<seq<Byte>>)
    requires chunk != [] && BodyOf(received + chunk).Some? && |BodyOf(received + chunk).value| > 32768
    ensures Bodies(received, [chunk] + rest) == [BodyOf(received + chunk).value]
  {
    hide BodyOf;
  }

  /** CR LF CR LF. */
  ghost predicate BlankLineAt(b: seq<Byte>, i: nat) {
    i + 4 <= |b| && b[i] == 13 && b[i + 1] == 10 && b[i + 2] == 13 && b[i + 3] == 10
  }

  lemma BlankLineIs(b: seq<Byte>, i: nat)
    ensures HeaderEndAt(b, i) <==> BlankLineAt(b, i)
  {
    if i + 4 <= |b| {
      var w := b[i..i + 4];
      assert w[0] == b[i] && w[1] == b[i + 1] && w[2] == b[i + 2] && w[3] == b[i + 3];
    }
  }

  /** A response is cut behind its first blank line; before there is one it has no body. */
  lemma CutAtBlankLine(b: seq<Byte>, i: nat)
    ensures BlankLineAt(b, i) && (forall k: nat | k < i :: !BlankLineAt(b, k)) ==> BodyOf(b) == Some(b[i + 4..])
    ensures (forall k: nat :: !BlankLineAt(b, k)) ==> BodyOf(b) == None
  {
    hide HeaderEndAt, BlankLineAt;
    forall k: nat ensures HeaderEndAt(b, k) <==> BlankLineAt(b, k) { BlankLineIs(b, k); }
    if BlankLineAt(b, i) && forall k: nat | k < i :: !BlankLineAt(b, k) { HeaderEndUnique(b, i); }
  }
}
