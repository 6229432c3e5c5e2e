/**
 How far a scan reads. A scan that answers, or fails, before it looks past the end of the text gives the same
 answer for every longer text; `RanOff` says syntactically which scans looked past the end.
 */
module JsonScan {
  import opened Values
  import opened Json
  import opened JsonStream

  // ---- which scans run off the end -----------------------------------------------------------

  /** Decoding a string literal from inside it. */
  predicate UnquoteOff(b: string, p: nat)
    decreases |b| - p
  {
    if p >= |b| then true
    else if b[p] == '"' then false
    else if b[p] != '\\' then UnquoteOff(b, p + 1)
    else if p + 1 >= |b| then true
    else if b[p + 1] == 'u' then ByteLen(b[p + 2..]) < 4 || (Hex4At(b, p + 2).Ok? && UnquoteOff(b, p + 6))
    else ShortEscape(b[p + 1]).Some? && UnquoteOff(b, p + 2)
  }

  /** Reading a key, its colon and the white space up to its value. */
  predicate EntryOff(b: string, start: nat) {
    var p := SkipWsAt(b, start);
    if p >= |b| then true
    else if b[p] != '"' then false
    else if UnquoteOff(b, p + 1) then true
    else
      var k := UnquoteAt(b, p + 1, "");
      k.Ok? &&
      var colon := SkipWsAt(b, k.value.end);
      colon >= |b| || (b[colon] == ':' && SkipWsAt(b, colon + 1) >= |b|)
  }

  /** Passing a value and the white space behind it; `SkipValueAt` only ever fails at the end of the text. */
  predicate PassOff(b: string, start: nat) {
    var s := SkipValueAt(b, start);
    s.Err? || SkipWsAt(b, s.value) >= |b|
  }

  predicate ObjectOff(b: string, start: nat, key: string)
    decreases |b| - start
  {
    EntryOff(b, start) ||
    (var m := EntryAt(b, start);
     m.Ok? && m.value.key != key &&
     (PassOff(b, m.value.value) ||
      var n := SkipWsAt(b, SkipValueAt(b, m.value.value).value);
      b[n] == ',' && ObjectOff(b, n + 1, key)))
  }

  predicate ArrayOff(b: string, start: nat, i: nat, target: nat)
    decreases |b| - start
  {
    var p := SkipWsAt(b, start);
    p >= |b| ||
    (b[p] != ']' && i != target &&
     (PassOff(b, p) ||
      var n := SkipWsAt(b, SkipValueAt(b, p).value);
      b[n] == ',' && ArrayOff(b, n + 1, i + 1, target)))
  }

  predicate EnterOff(b: string, p: nat, comp: string) {
    if p >= |b| then true
    else if b[p] == '{' then ObjectOff(b, p + 1, comp)
    else b[p] == '[' && ParseUsize(comp).Some? && ArrayOff(b, p + 1, 0, ParseUsize(comp).value)
  }

  predicate ScalarOff(b: string, p: nat) {
    if p >= |b| then true
    else if b[p] == '"' then UnquoteOff(b, p + 1)
    else StartsNumber(b[p]) && TokenEndAt(b, p) == |b|
  }

  predicate DescendOff(b: string, p: nat, comps: seq<string>)
    decreases |comps|
  {
    if comps == [] then ScalarOff(b, p)
    else
      EnterOff(b, p, comps[0]) ||
      (EnterAt(b, p, comps[0]).Ok? && DescendOff(b, SkipWsAt(b, EnterAt(b, p, comps[0]).value), comps[1..]))
  }

  /** The scan for the value at `path` looks past the end of the text. */
  predicate RanOff(b: string, path: string) { DescendOff(b, SkipWsAt(b, 0), Components(path)) }

  // ---- the others are decided ----------------------------------------------------------------

  lemma {:induction false} HexIsAscii(t: string)
    requires HexValue(t).Some?
    ensures ByteLen(t) == |t|
  {
    if t != [] {
      var init := t[..|t| - 1];
      HexIsAscii(init);
      assert t == init + [t[|t| - 1]];
      ByteLenBoth(init, [t[|t| - 1]]);
      assert [t[|t| - 1]][1..] == [];
    }
  }

  lemma {:induction false} ByteLenBoth(s: string, t: string)
    ensures ByteLen(s + t) == ByteLen(s) + ByteLen(t)
  {
    if s == [] {
      assert s + t == t;
    } else {
      ByteLenBoth(s[1..], t);
      assert (s + t)[1..] == s[1..] + t;
    }
  }

  lemma {:induction false} HexPrefix(t: string, n: nat)
    requires n <= |t| && HexValue(t).Some?
    ensures HexValue(t[..n]).Some?
  {
    if n < |t| {
      HexPrefix(t[..|t| - 1], n);
      assert t[..|t| - 1][..n] == t[..n];
    } else {
      assert t[..n] == t;
    }
  }

  /** Four bytes decide a hex escape. */
  lemma HexDecided(b: string, ext: string, p: nat)
    requires p <= |b| && ByteLen(b[p..]) >= 4
    ensures Hex4At(b + ext, p) == Hex4At(b, p)
  {
    hide HexValue, ByteLen;
    var c, t := b + ext, b[p..];
    assert c[p..] == t + ext;
    ByteLenBoth(t, ext);
    if p + 4 <= |b| {
      assert c[p..p + 4] == b[p..p + 4];
    } else if p + 4 <= |c| {
      var h := c[p..p + 4];
      assert h[..|t|] == t;
      if HexValue(h).Some? {
        HexPrefix(h, |t|);
        HexIsAscii(t);
      }
    }
  }

  lemma {:induction false} UnquoteDecided(b: string, ext: string, p: nat, out: string)
    requires !UnquoteOff(b, p)
    ensures UnquoteAt(b + ext, p, out) == UnquoteAt(b, p, out)
    decreases |b| - p
  {
    hide Hex4At, ShortEscape, ByteLen;
    var c := b + ext;
    assert c[p] == b[p];
    if b[p] != '"' {
      if b[p] != '\\' {
        UnquoteDecided(b, ext, p + 1, out + [b[p]]);
      } else {
        assert c[p + 1] == b[p + 1];
        if b[p + 1] == 'u' {
          HexDecided(b, ext, p + 2);
          var h := Hex4At(b, p + 2);
          if h.Ok? { UnquoteDecided(b, ext, p + 6, out + [ScalarOf(h.value)]); }
        } else {
          var e := ShortEscape(b[p + 1]);
          if e.Some? { UnquoteDecided(b, ext, p + 2, out + [e.value]); }
        }
      }
    }
  }

  lemma WsDecided(b: string, ext: string, p: nat)
    requires SkipWsAt(b, p) < |b|
    ensures SkipWsAt(b + ext, p) == SkipWsAt(b, p)
    ensures (b + ext)[SkipWsAt(b, p)] == b[SkipWsAt(b, p)]
  {
    EmbedsExtension(b, ext);
    SkipWsStable(b, b + ext, p);
  }

  lemma EntryDecided(b: string, ext: string, start: nat)
    requires !EntryOff(b, start)
    ensures EntryAt(b + ext, start) == EntryAt(b, start)
    ensures EntryAt(b, start).Ok? ==> EntryAt(b, start).value.value < |b|
  {
    hide SkipWsAt, UnquoteAt, UnquoteOff;
    var p := SkipWsAt(b, start);
    WsDecided(b, ext, start);
    if b[p] == '"' {
      UnquoteDecided(b, ext, p + 1, "");
      var k := UnquoteAt(b, p + 1, "");
      if k.Ok? {
        var colon := SkipWsAt(b, k.value.end);
        WsDecided(b, ext, k.value.end);
        if b[colon] == ':' { WsDecided(b, ext, colon + 1); }
      }
    }
  }

  lemma PassDecided(b: string, ext: string, start: nat)
    requires !PassOff(b, start)
    ensures SkipValueAt(b + ext, start) == SkipValueAt(b, start)
    ensures var n := SkipWsAt(b, SkipValueAt(b, start).value);
            SkipWsAt(b + ext, SkipValueAt(b, start).value) == n < |b| && (b + ext)[n] == b[n]
  {
    hide SkipWsAt, SkipValueAt;
    EmbedsExtension(b, ext);
    WsDecided(b, ext, SkipValueAt(b, start).value);
    SkipValueStable(b, b + ext, start);
  }

  lemma {:induction false} ObjectDecided(b: string, ext: string, start: nat, key: string)
    requires !ObjectOff(b, start, key)
    ensures EnterObjectAt(b + ext, start, key) == EnterObjectAt(b, start, key)
    ensures EnterObjectAt(b, start, key).Ok? ==> EnterObjectAt(b, start, key).value < |b|
    decreases |b| - start
  {
    hide SkipWsAt, SkipValueAt, EntryAt, EntryOff, PassOff;
    EntryDecided(b, ext, start);
    var m := EntryAt(b, start);
    if m.Ok? && m.value.key != key {
      PassParts(b, m.value.value);
      PassDecided(b, ext, m.value.value);
      var n := SkipWsAt(b, SkipValueAt(b, m.value.value).value);
      if b[n] == ',' { ObjectDecided(b, ext, n + 1, key); }
    }
  }

  lemma PassParts(b: string, start: nat)
    requires !PassOff(b, start)
    ensures SkipValueAt(b, start).Ok? && SkipWsAt(b, SkipValueAt(b, start).value) < |b|
  {
  }

  lemma {:induction false} ArrayDecided(b: string, ext: string, start: nat, i: nat, target: nat)
    requires !ArrayOff(b, start, i, target)
    ensures EnterArrayAt(b + ext, start, i, target) == EnterArrayAt(b, start, i, target)
    decreases |b| - start
  {
    hide SkipWsAt, SkipValueAt, PassOff;
    var p := SkipWsAt(b, start);
    WsDecided(b, ext, start);
    if b[p] != ']' && i != target {
      PassParts(b, p);
      PassDecided(b, ext, p);
      var n := SkipWsAt(b, SkipValueAt(b, p).value);
      if b[n] == ',' { ArrayDecided(b, ext, n + 1, i + 1, target); }
    }
  }

  lemma EnterDecided(b: string, ext: string, p: nat, comp: string)
    requires !EnterOff(b, p, comp)
    ensures EnterAt(b + ext, p, comp) == EnterAt(b, p, comp)
    ensures EnterAt(b, p, comp).Ok? ==> EnterAt(b, p, comp).value < |b|
  {
    hide ObjectOff, ArrayOff, EnterObjectAt, EnterArrayAt, ParseUsize;
    assert (b + ext)[p] == b[p];
    if b[p] == '{' {
      ObjectDecided(b, ext, p + 1, comp);
    } else if b[p] == '[' && ParseUsize(comp).Some? {
      ArrayDecided(b, ext, p + 1, 0, ParseUsize(comp).value);
    }
  }

  lemma ScalarDecided(std: Std, b: string, ext: string, p: nat)
    requires !ScalarOff(b, p)
    ensures ScalarAt(std, b + ext, p) == ScalarAt(std, b, p)
  {
    hide UnquoteAt, UnquoteOff, TokenEndAt, NumberValue;
    var c := b + ext;
    assert c[p] == b[p];
    if b[p] == '"' {
      UnquoteDecided(b, ext, p + 1, "");
    } else if StartsNumber(b[p]) {
      TokenEndBound(b, p);
      EmbedsExtension(b, ext);
      TokenStable(b, c, p);
      assert c[p..TokenEndAt(b, p)] == b[p..TokenEndAt(b, p)];
    }
  }

  /** What a descent and a scalar read. */
  function ReadAt(std: Std, b: string, p: nat, comps: seq<string>): Result<Value> {
    var q := DescendAt(b, p, comps);
    if q.Err? then Err(q.error) else ScalarAt(std, b, q.value)
  }

  lemma {:induction false} DescentDecided(std: Std, b: string, ext: string, p: nat, comps: seq<string>)
    requires !DescendOff(b, p, comps)
    ensures ReadAt(std, b + ext, p, comps) == ReadAt(std, b, p, comps)
    decreases |comps|
  {
    hide SkipWsAt, EnterAt, EnterOff, ScalarAt, ScalarOff;
    if comps == [] {
      ScalarDecided(std, b, ext, p);
    } else {
      EnterDecided(b, ext, p, comps[0]);
      var q := EnterAt(b, p, comps[0]);
      if q.Ok? {
        var r := SkipWsAt(b, q.value);
        if r < |b| {
          WsDecided(b, ext, q.value);
          DescentDecided(std, b, ext, r, comps[1..]);
        } else {
          AtEndIsOff(b, r, comps[1..]);
        }
      }
    }
  }

  lemma AtEndIsOff(b: string, p: nat, comps: seq<string>)
    requires p >= |b|
    ensures DescendOff(b, p, comps)
  {
  }

  /** A scan that does not run off the end has its answer, hit or error, for every continuation of the text. */
  lemma ScanDecided(std: Std, b: string, path: string, ext: string)
    requires !RanOff(b, path)
    ensures GetAt(std, b + ext, path) == GetAt(std, b, path)
  {
    hide SkipWsAt, DescendOff, Components;
    var p := SkipWsAt(b, 0);
    if p < |b| {
      WsDecided(b, ext, 0);
      DescentDecided(std, b, ext, p, Components(path));
    } else {
      AtEndIsOff(b, p, Components(path));
    }
  }

  // ---- and no others -------------------------------------------------------------------------

  /** Both fail, with different errors. */
  ghost predicate Differ<T>(r: Result<T>, r': Result<T>) { r.Err? && r'.Err? && r.error != r'.error }

  lemma {:induction false} WsToEnd(b: string, ext: string, p: nat)
    requires p <= |b| && SkipWsAt(b, p) >= |b| && ext != [] && !IsWs(ext[0])
    ensures SkipWsAt(b + ext, p) == |b|
    decreases |b| - p
  {
    if p < |b| {
      assert (b + ext)[p] == b[p];
      WsToEnd(b, ext, p + 1);
    } else {
      assert (b + ext)[p] == ext[0];
    }
  }

  lemma HexWithX(t: string, i: nat)
    requires i < |t| && t[i] == 'x'
    ensures HexValue(t).None?
  {
    assert t[..i + 1][i] == 'x';
    if HexValue(t).Some? { HexPrefix(t, i + 1); }
  }

  /** Four characters more make a short hex escape a bad one. */
  lemma HexMoves(b: string, p: nat)
    requires p <= |b| && ByteLen(b[p..]) < 4
    ensures Hex4At(b, p) == Fault(JsonBadEscape) && Hex4At(b + "xxxx", p) == Fault(JsonBadHex)
  {
    hide HexValue;
    var c := b + "xxxx";
    BytesCover(b[p..]);
    BytesCover(c[p..]);
    HexWithX(c[p..p + 4], |b| - p);
  }

  /** A string literal that runs off the end fails one way, and another way when the right text follows. */
  lemma {:induction false} UnquoteMoves(b: string, p: nat, out: string) returns (ext: string)
    requires UnquoteOff(b, p) && p <= |b|
    ensures Differ(UnquoteAt(b, p, out), UnquoteAt(b + ext, p, out))
    decreases |b| - p
  {
    hide Hex4At, ShortEscape;
    if p >= |b| {
      ext := "\\";
      assert (b + ext)[p] == '\\';
    } else if b[p] != '\\' {
      ext := UnquoteMoves(b, p + 1, out + [b[p]]);
      assert (b + ext)[p] == b[p];
    } else if p + 1 >= |b| {
      ext := "\"";
      QuoteEscape();
      assert (b + ext)[p] == b[p] && (b + ext)[p + 1] == '"';
    } else if b[p + 1] == 'u' {
      if ByteLen(b[p + 2..]) < 4 {
        ext := "xxxx";
        HexMoves(b, p + 2);
      } else {
        ext := UnquoteMoves(b, p + 6, out + [ScalarOf(Hex4At(b, p + 2).value)]);
        HexDecided(b, ext, p + 2);
      }
      assert (b + ext)[p] == b[p] && (b + ext)[p + 1] == b[p + 1];
    } else {
      ext := UnquoteMoves(b, p + 2, out + [ShortEscape(b[p + 1]).value]);
      assert (b + ext)[p] == b[p] && (b + ext)[p + 1] == b[p + 1];
    }
  }

  lemma QuoteEscape()
    ensures ShortEscape('"') == Some('"')
  {
  }

  lemma {:induction false} StringCloses(b: string, p: nat) returns (ext: string)
    requires SkipStringAt(b, p).Err? && p <= |b| + 1
    ensures SkipStringAt(b + ext, p) == Ok(|b| + |ext|)
    decreases |b| + 1 - p
  {
    if p == |b| + 1 {
      ext := "x\"";
    } else if p == |b| {
      ext := "\"";
    } else if b[p] == '\\' {
      ext := StringCloses(b, p + 2);
    } else {
      ext := StringCloses(b, p + 1);
    }
    var c := b + ext;
    assert p < |c| && (p < |b| ==> c[p] == b[p]);
    assert p == |b| + 1 ==> c[p] == '"';
  }

  lemma {:induction false} NestMoves(b: string, q: nat, depth: int) returns (ext: string)
    requires SkipNestAt(b, q, depth).Err? && q <= |b|
    ensures Differ(SkipNestAt(b, q, depth), SkipNestAt(b + ext, q, depth))
    decreases |b| - q
  {
    hide SkipStringAt;
    if q == |b| {
      ext := "\"";
      OpenString(b + ext);
    } else if b[q] == '"' {
      if SkipStringAt(b, q + 1).Err? {
        ext := StringCloses(b, q + 1);
        StringErr(b, q + 1);
      } else {
        ext := NestMoves(b, SkipStringAt(b, q + 1).value, depth);
        EmbedsExtension(b, ext);
        SkipStringStable(b, b + ext, q + 1);
      }
    } else if IsOpen(b[q]) {
      ext := NestMoves(b, q + 1, depth + 1);
    } else if IsClose(b[q]) {
      ext := NestMoves(b, q + 1, depth - 1);
    } else {
      ext := NestMoves(b, q + 1, depth);
    }
    assert (b + ext)[q] == if q < |b| then b[q] else '"';
  }

  lemma OpenString(c: string)
    ensures SkipStringAt(c, |c|) == Fault(JsonUnterminatedString)
  {
  }

  lemma {:induction false} StringErr(b: string, p: nat)
    requires SkipStringAt(b, p).Err?
    ensures SkipStringAt(b, p) == Fault(JsonUnterminatedString)
    decreases |b| - p
  {
    if p < |b| {
      if b[p] == '\\' { StringErr(b, p + 2); } else { StringErr(b, p + 1); }
    }
  }

  /** What passing a value and reading the character behind it gives: that character, or an error. */
  function PassAt(b: string, start: nat, bad: Error): Result<char> {
    var s := SkipValueAt(b, start);
    if s.Err? then Err(s.error)
    else if SkipWsAt(b, s.value) >= |b| then Err(bad)
    else Ok(b[SkipWsAt(b, s.value)])
  }

  /** A value that runs off the end is passed another way when the right text follows. */
  lemma PassMoves(b: string, start: nat, close: char, bad: Error) returns (ext: string)
    requires PassOff(b, start) && SkipWsAt(b, start) < |b| && IsClose(close)
    requires bad == Type(JsonMalformedObject) || bad == Type(JsonMalformedArray)
    ensures PassAt(b, start, bad).Err?
    ensures Differ(PassAt(b, start, bad), PassAt(b + ext, start, bad)) ||
            (PassAt(b, start, bad) == Err(bad) && PassAt(b + ext, start, bad) == Ok(close))
  {
    hide SkipNestAt, SkipStringAt, TokenEndAt, SkipWsAt;
    var p := SkipWsAt(b, start);
    if SkipValueAt(b, start).Err? {
      if b[p] == '"' {
        ext := StringCloses(b, p + 1);
        StringErr(b, p + 1);
        WsDecided(b, ext, start);
        AtEnd(b + ext);
      } else {
        ext := NestMoves(b, p, 0);
        WsDecided(b, ext, start);
      }
    } else {
      ext := [close];
      PassedSame(b, start, close);
    }
  }

  lemma AtEnd(c: string)
    ensures SkipWsAt(c, |c|) == |c|
  {
  }

  lemma PassedSame(b: string, start: nat, close: char)
    requires SkipWsAt(b, start) < |b| && SkipValueAt(b, start).Ok? && IsClose(close)
    requires SkipWsAt(b, SkipValueAt(b, start).value) >= |b|
    ensures SkipValueAt(b + [close], start) == SkipValueAt(b, start)
    ensures SkipWsAt(b + [close], SkipValueAt(b, start).value) == |b|
  {
    hide SkipNestAt, SkipStringAt, TokenEndAt, SkipWsAt;
    var c, p, s := b + [close], SkipWsAt(b, start), SkipValueAt(b, start).value;
    EmbedsExtension(b, [close]);
    WsDecided(b, [close], start);
    if IsOpen(b[p]) {
      SkipNestStable(b, c, p, 0);
    } else if b[p] == '"' {
      SkipStringStable(b, c, p + 1);
    } else {
      TokenEndBound(b, p);
      if s == |b| { TokenStops(b, [close], p); } else { TokenStable(b, c, p); }
    }
    WsToEnd(b, [close], s);
  }

  /** What entering a container comes to: another error, or a value that begins where the text ended. */
  ghost predicate Moved(b: string, c: string, r: Cursor, r': Cursor) {
    || Differ(r, r')
    || (r.Err? && r.error != Type(JsonUnexpectedEnd) && r' == Ok(|c|))
    || (r.Ok? && r.value >= |b| && r' == Ok(|b|) && c == b + "n")
  }

  lemma EntryMoves(b: string, start: nat) returns (ext: string)
    requires EntryOff(b, start) && start <= |b|
    ensures var r, r' := EntryAt(b, start), EntryAt(b + ext, start);
            || Differ(r, r')
            || (r == Fault(JsonExpectedColon) && r'.Ok? && r'.value.value == |b| + |ext|)
            || (r.Ok? && r.value.value == |b| && ext == "n" && r' == Ok(Entry(r.value.key, |b|)))
  {
    hide SkipWsAt, UnquoteAt, UnquoteOff;
    var p := SkipWsAt(b, start);
    if p >= |b| {
      ext := "x";
      WsToEnd(b, ext, start);
    } else {
      if UnquoteOff(b, p + 1) {
        ext := UnquoteMoves(b, p + 1, "");
        WsDecided(b, ext, start);
      } else {
        var end := UnquoteAt(b, p + 1, "").value.end;
        var colon := SkipWsAt(b, end);
        ext := if colon >= |b| then ":" else "n";
        WsDecided(b, ext, start);
        UnquoteDecided(b, ext, p + 1, "");
        if colon >= |b| {
          WsToEnd(b, ext, end);
          AtEnd(b + ext);
        } else {
          WsDecided(b, ext, end);
          WsToEnd(b, ext, colon + 1);
        }
      }
    }
  }

  lemma {:induction false} ObjectMoves(b: string, start: nat, key: string) returns (ext: string)
    requires ObjectOff(b, start, key) && start <= |b|
    ensures Moved(b, b + ext, EnterObjectAt(b, start, key), EnterObjectAt(b + ext, start, key))
    decreases |b| - start
  {
    hide SkipWsAt, SkipValueAt, EntryAt, EntryOff, PassOff;
    var m := EntryAt(b, start);
    if EntryOff(b, start) {
      ext := EntryMoves(b, start);
      EntryEnds(b, ext, start);
    } else {
      var v := m.value.value;
      EntryStops(b, start);
      if PassOff(b, v) {
        ext := PassMoves(b, v, '}', Type(JsonMalformedObject));
        EntryDecided(b, ext, start);
      } else {
        PassParts(b, v);
        var n := SkipWsAt(b, SkipValueAt(b, v).value);
        ext := ObjectMoves(b, n + 1, key);
        EntryDecided(b, ext, start);
        PassDecided(b, ext, v);
      }
    }
  }

  lemma EntryStops(b: string, start: nat)
    requires !EntryOff(b, start) && EntryAt(b, start).Ok?
    ensures SkipWsAt(b, EntryAt(b, start).value.value) < |b|
  {
    hide SkipWsAt, UnquoteAt, UnquoteOff;
    var colon := SkipWsAt(b, UnquoteAt(b, SkipWsAt(b, start) + 1, "").value.end);
    WsTwice(b, colon + 1);
  }

  lemma {:induction false} WsTwice(b: string, p: nat)
    ensures SkipWsAt(b, SkipWsAt(b, p)) == SkipWsAt(b, p)
    decreases |b| - p
  {
    if p < |b| && IsWs(b[p]) { WsTwice(b, p + 1); }
  }

  /** A value that begins where the text ends cannot be passed; an `n` there is passed to the end. */
  lemma EntryEnds(b: string, ext: string, start: nat)
    requires EntryOff(b, start)
    ensures SkipValueAt(b, |b|) == Fault(JsonUnexpectedEnd)
    ensures SkipValueAt(b + ext, |b| + |ext|) == Fault(JsonUnexpectedEnd)
    ensures ext == "n" ==>
              SkipValueAt(b + ext, |b|) == Ok(|b| + 1) && SkipWsAt(b + ext, |b| + 1) == |b| + 1
  {
    hide EntryOff;
    var c := b + ext;
    if ext == "n" {
      assert c[|b|] == 'n' && |c| == |b| + 1;
      assert SkipWsAt(c, |b|) == |b|;
      assert TokenEndAt(c, |b| + 1) == |b| + 1;
    }
  }

  lemma {:induction false} ArrayMoves(b: string, start: nat, i: nat, target: nat) returns (ext: string)
    requires ArrayOff(b, start, i, target) && start <= |b|
    ensures Differ(EnterArrayAt(b, start, i, target), EnterArrayAt(b + ext, start, i, target))
    decreases |b| - start
  {
    hide SkipWsAt, SkipValueAt, PassOff;
    var p := SkipWsAt(b, start);
    if p >= |b| {
      ext := "]";
      WsToEnd(b, ext, start);
    } else {
      WsTwice(b, start);
      if PassOff(b, p) {
        ext := PassMoves(b, p, ']', Type(JsonMalformedArray));
        WsDecided(b, ext, start);
      } else {
        PassParts(b, p);
        var n := SkipWsAt(b, SkipValueAt(b, p).value);
        ext := ArrayMoves(b, n + 1, i + 1, target);
        WsDecided(b, ext, start);
        PassDecided(b, ext, p);
      }
    }
  }

  lemma EnterMoves(b: string, p: nat, comp: string) returns (ext: string)
    requires EnterOff(b, p, comp) && p <= |b|
    ensures Moved(b, b + ext, EnterAt(b, p, comp), EnterAt(b + ext, p, comp))
  {
    hide ObjectOff, ArrayOff, EnterObjectAt, EnterArrayAt, ParseUsize;
    if p == |b| {
      ext := "n";
      assert (b + ext)[p] == 'n';
    } else if b[p] == '{' {
      ext := ObjectMoves(b, p + 1, comp);
      assert (b + ext)[p] == b[p];
    } else {
      ext := ArrayMoves(b, p + 1, 0, ParseUsize(comp).value);
      assert (b + ext)[p] == b[p];
    }
  }

  lemma ScalarMoves(std: Std, b: string, p: nat) returns (ext: string)
    requires ScalarOff(b, p) && p <= |b| && (p < |b| ==> !StartsNumber(b[p]))
    ensures Differ(ScalarAt(std, b, p), ScalarAt(std, b + ext, p))
  {
    hide UnquoteAt, UnquoteOff, TokenEndAt, NumberValue;
    if p == |b| {
      ext := "n";
      assert (b + ext)[p] == 'n';
    } else {
      ext := UnquoteMoves(b, p + 1, "");
      assert (b + ext)[p] == b[p];
    }
  }

  /** Where a descent lands on a number that reaches the end of the text. */
  ghost predicate LandsOnCut(b: string, p: nat, comps: seq<string>) {
    var q := DescendAt(b, p, comps);
    q.Ok? && q.value < |b| && StartsNumber(b[q.value]) && TokenEndAt(b, q.value) == |b|
  }

  /** Nothing is read at the end of the text, and an `n` there is no value to enter and no scalar. */
  lemma ReadsAtEnd(std: Std, b: string, p: nat, comps: seq<string>)
    requires p >= |b|
    ensures ReadAt(std, b, p, comps) == Fault(JsonUnexpectedEnd)
  {
  }

  lemma ReadsNull(std: Std, b: string, p: nat, comps: seq<string>)
    requires p < |b| && b[p] == 'n'
    ensures ReadAt(std, b, p, comps) == Fault(if comps == [] then JsonNull else JsonIndexScalar)
  {
  }

  lemma {:induction false} DescentMoves(std: Std, b: string, p: nat, comps: seq<string>) returns (ext: string)
    requires DescendOff(b, p, comps) && p <= |b| && !LandsOnCut(b, p, comps)
    ensures Differ(ReadAt(std, b, p, comps), ReadAt(std, b + ext, p, comps))
    decreases |comps|
  {
    hide SkipWsAt, EnterAt, EnterOff, ScalarAt, ScalarOff, TokenEndAt;
    if comps == [] {
      NoNumber(b, p);
      ext := ScalarMoves(std, b, p);
    } else if EnterOff(b, p, comps[0]) {
      ext := EnterMoves(b, p, comps[0]);
      EnteredMoves(std, b, ext, p, comps);
    } else {
      var q := EnterAt(b, p, comps[0]);
      EnterDecided(b, "", p, comps[0]);
      var r := SkipWsAt(b, q.value);
      if r < |b| {
        ext := DescentMoves(std, b, r, comps[1..]);
        EnterDecided(b, ext, p, comps[0]);
        WsDecided(b, ext, q.value);
      } else {
        ext := "n";
        EnterDecided(b, ext, p, comps[0]);
        WsToEnd(b, ext, q.value);
        ReadsAtEnd(std, b, r, comps[1..]);
        ReadsNull(std, b + ext, |b|, comps[1..]);
      }
    }
  }

  lemma NoNumber(b: string, p: nat)
    requires ScalarOff(b, p) && !LandsOnCut(b, p, [])
    ensures p < |b| ==> !StartsNumber(b[p])
  {
    hide UnquoteOff, TokenEndAt;
    assert DescendAt(b, p, []) == Ok(p);
  }

  lemma EnteredMoves(std: Std, b: string, ext: string, p: nat, comps: seq<string>)
    requires comps != [] && Moved(b, b + ext, EnterAt(b, p, comps[0]), EnterAt(b + ext, p, comps[0]))
    ensures Differ(ReadAt(std, b, p, comps), ReadAt(std, b + ext, p, comps))
  {
    hide EnterAt, ScalarAt, SkipWsAt;
    var c, tail := b + ext, comps[1..];
    var r, r' := EnterAt(b, p, comps[0]), EnterAt(c, p, comps[0]);
    if r'.Ok? {
      WsBound(c, r'.value);
      if r.Err? {
        ReadsAtEnd(std, c, SkipWsAt(c, r'.value), tail);
      } else {
        WsBound(b, r.value);
        ReadsAtEnd(std, b, SkipWsAt(b, r.value), tail);
        assert c[|b|] == 'n';
        NoWsThere(c, |b|);
        ReadsNull(std, c, |b|, tail);
      }
    }
  }

  lemma WsBound(b: string, p: nat)
    ensures SkipWsAt(b, p) >= p
  {
  }

  lemma NoWsThere(c: string, p: nat)
    requires p < |c| && c[p] == 'n'
    ensures SkipWsAt(c, p) == p
  {
  }

  /**
   The answer of a scan is settled, whatever text follows, exactly when the scan did not run off the end; numbers
   that reach the end apart, of which `HitKeptExactly` says what each continuation makes.
   */
  lemma ScanDecidedExactly(std: Std, b: string, path: string)
    requires !CutsNumber(b, path)
    ensures (forall ext: string :: GetAt(std, b + ext, path) == GetAt(std, b, path)) <==> !RanOff(b, path)
  {
    hide SkipWsAt, DescendOff, Components, GetAt;
    if !RanOff(b, path) {
      forall ext: string ensures GetAt(std, b + ext, path) == GetAt(std, b, path) { ScanDecided(std, b, path, ext); }
    } else {
      var ext := ScanMoves(std, b, path);
    }
  }

  lemma ScanMoves(std: Std, b: string, path: string) returns (ext: string)
    requires RanOff(b, path) && !CutsNumber(b, path)
    ensures Differ(GetAt(std, b, path), GetAt(std, b + ext, path))
  {
    hide SkipWsAt, DescendOff, DescendAt, ScalarAt, Components, TokenEndAt;
    var p := SkipWsAt(b, 0);
    StartBound(b);
    if p < |b| {
      ext := DescentMoves(std, b, p, Components(path));
      WsDecided(b, ext, 0);
    } else {
      ext := "n";
      WsToEnd(b, ext, 0);
      ReadsAtEnd(std, b, p, Components(path));
      ReadsNull(std, b + ext, |b|, Components(path));
    }
  }

  lemma StartBound(b: string)
    ensures SkipWsAt(b, 0) <= |b|
  {
  }

  // ---- an open string ------------------------------------------------------------------------

  /** The text ends inside a string literal, and not inside an escape. */
  predicate Open(b: string, p: nat)
    decreases |b| - p
  {
    if p >= |b| then p == |b|
    else if b[p] == '"' then false
    else if b[p] != '\\' then Open(b, p + 1)
    else if p + 1 >= |b| then false
    else if b[p + 1] == 'u' then Hex4At(b, p + 2).Ok? && Open(b, p + 6)
    else ShortEscape(b[p + 1]).Some? && Open(b, p + 2)
  }

  lemma {:induction false} OpenCloses(b: string, c: char, rest: string, p: nat, out: string)
    requires Open(b, p) && c != '"' && c != '\\'
    ensures UnquoteAt(b, p, out).Err? && UnquoteAt(b + ([c] + ("\"" + rest)), p, out).Ok?
    decreases |b| - p
  {
    hide Hex4At, ShortEscape;
    var ext := [c] + ("\"" + rest);
    var t := b + ext;
    if p == |b| {
      assert t[p] == c && t[p + 1] == '"';
    } else {
      assert t[p] == b[p];
      if b[p] != '\\' {
        OpenCloses(b, c, rest, p + 1, out + [b[p]]);
      } else {
        assert t[p + 1] == b[p + 1];
        if b[p + 1] == 'u' {
          HexKept(b, ext, p + 2);
          OpenCloses(b, c, rest, p + 6, out + [ScalarOf(Hex4At(b, p + 2).value)]);
        } else {
          OpenCloses(b, c, rest, p + 2, out + [ShortEscape(b[p + 1]).value]);
        }
      }
    }
  }

  lemma HexKept(b: string, ext: string, p: nat)
    requires p <= |b| && Hex4At(b, p).Ok?
    ensures Hex4At(b + ext, p) == Hex4At(b, p)
  {
    HexDecided(b, ext, p);
  }

  /** A scan that ended in an open string finds it once a replaced byte and a quote follow. */
  lemma OpenStringIsFound(std: Std, b: string, path: string, rest: string)
    requires LandingAt(b, path).Ok? && LandingAt(b, path).value < |b| && b[LandingAt(b, path).value] == '"'
    requires Open(b, LandingAt(b, path).value + 1)
    ensures GetAt(std, b, path).Err? && GetAt(std, b + ([REPLACEMENT] + ("\"" + rest)), path).Ok?
  {
    hide DescendAt, UnquoteAt, Open;
    var ext := [REPLACEMENT] + ("\"" + rest);
    var p := LandingAt(b, path).value;
    EmbedsExtension(b, ext);
    LandingStable(b, b + ext, path);
    assert (b + ext)[p] == b[p];
    OpenCloses(b, REPLACEMENT, rest, p + 1, "");
  }
}
