/**
 The path-directed JSON scanner. Each cursor loop of the scanner is a method with the same loop; the
 function of the same name (with the suffix `At`) says what the loop computes from a cursor position.
 */
module Json {
  import opened Values

  type Cursor = Result<nat>

  predicate IsWs(c: char) { c == ' ' || c == '\t' || c == '\r' || c == '\n' }

  /** The characters that end a bare token. */
  predicate IsDelim(c: char) { c == ',' || c == '}' || c == ']' || IsWs(c) }

  predicate IsOpen(c: char) { c == '{' || c == '[' }

  predicate IsClose(c: char) { c == '}' || c == ']' }

  function Fault<T>(f: TypeFault): Result<T> { Err(Type(f)) }

  // ---- what each loop computes ---------------------------------------------------------------

  function SkipWsAt(b: string, p: nat): (q: nat)
    ensures p <= q && (p <= |b| ==> q <= |b|)
    decreases |b| - p
  {
    if p < |b| && IsWs(b[p]) then SkipWsAt(b, p + 1) else p
  }

  function SkipStringAt(b: string, p: nat): (r: Cursor)
    ensures r.Ok? ==> p < r.value <= |b|
    decreases |b| - p
  {
    if p >= |b| then Fault(JsonUnterminatedString)
    else if b[p] == '\\' then SkipStringAt(b, p + 2)
    else if b[p] == '"' then Ok(p + 1)
    else SkipStringAt(b, p + 1)
  }

  function TokenEndAt(b: string, p: nat): (q: nat)
    ensures p <= q && (p <= |b| ==> q <= |b|)
    decreases |b| - p
  {
    if p < |b| && !IsDelim(b[p]) then TokenEndAt(b, p + 1) else p
  }

  /** The bracket-counting loop: `depth` brackets are open at `q`. */
  function SkipNestAt(b: string, q: nat, depth: int): (r: Cursor)
    ensures r.Ok? ==> q < r.value <= |b|
    decreases |b| - q
  {
    if q >= |b| then Fault(JsonUnterminatedContainer)
    else if b[q] == '"' then
      var s := SkipStringAt(b, q + 1);
      if s.Err? then s else SkipNestAt(b, s.value, depth)
    else if IsOpen(b[q]) then SkipNestAt(b, q + 1, depth + 1)
    else if IsClose(b[q]) then
      if depth - 1 == 0 then Ok(q + 1) else SkipNestAt(b, q + 1, depth - 1)
    else SkipNestAt(b, q + 1, depth)
  }

  function SkipValueAt(b: string, start: nat): (r: Cursor)
    ensures r.Ok? ==> start <= r.value <= |b|
  {
    var p := SkipWsAt(b, start);
    if p >= |b| then Fault(JsonUnexpectedEnd)
    else if IsOpen(b[p]) then SkipNestAt(b, p, 0)
    else if b[p] == '"' then SkipStringAt(b, p + 1)
    else Ok(TokenEndAt(b, p))
  }

  function HexDigit(c: char): Option<nat> {
    if '0' <= c <= '9' then Some(c as int - '0' as int)
    else if 'a' <= c <= 'f' then Some(c as int - 'a' as int + 10)
    else if 'A' <= c <= 'F' then Some(c as int - 'A' as int + 10)
    else None
  }

  function HexValue(t: string): (r: Option<nat>) {
    if t == [] then Some(0)
    else
      var init, last := HexValue(t[..|t| - 1]), HexDigit(t[|t| - 1]);
      if init.Some? && last.Some? then Some(init.value * 16 + last.value) else None
  }

  lemma HexValueBound(t: string)
    requires HexValue(t).Some? && |t| == 4
    ensures HexValue(t).value < 0x1_0000
  {
    assert t[..3][..2] == t[..2] && t[..2][..1] == t[..1] && t[..1][..0] == [];
    assert HexValue(t[..3]).Some?;
    assert HexValue(t[..2]).Some?;
    assert HexValue(t[..1]).Some?;
    assert HexValue(t[..1][..0]) == Some(0);
    assert HexValue(t[..1]).value < 16;
    assert HexValue(t[..2]).value < 256;
    assert HexValue(t[..3]).value < 4096;
  }

  /** A text has no fewer bytes than characters. */
  lemma {:induction false} BytesCover(s: string)
    ensures ByteLen(s) >= |s|
  {
    if s != [] { BytesCover(s[1..]); }
  }

  /** Four hex digits. What counts is whether four bytes are left, so fewer than four characters may be too few or bad. */
  function Hex4At(b: string, p: nat): (r: Result<nat>)
    requires p <= |b|
    ensures r.Ok? ==> p + 4 <= |b| && r.value < 0x1_0000
    ensures r == Fault(JsonBadEscape) <==> ByteLen(b[p..]) < 4
    ensures p + 4 <= |b| && HexValue(b[p..p + 4]).Some? ==> r == Ok(HexValue(b[p..p + 4]).value)
  {
    BytesCover(b[p..]);
    if ByteLen(b[p..]) < 4 then Fault(JsonBadEscape)
    else if p + 4 > |b| then Fault(JsonBadHex)
    else
      var v := HexValue(b[p..p + 4]);
      if v.None? then Fault(JsonBadHex) else HexValueBound(b[p..p + 4]); Ok(v.value)
  }

  /** `char::from_u32`, with U+FFFD in place of a surrogate. */
  function ScalarOf(v: nat): char
    requires v < 0x1_0000
  {
    if 0xD800 <= v < 0xE000 then 0xFFFD as char else v as char
  }

  /** The character a one-letter escape stands for. */
  function ShortEscape(c: char): Option<char> {
    if c == '"' then Some('"')
    else if c == '\\' then Some('\\')
    else if c == '/' then Some('/')
    else if c == 'n' then Some('\n')
    else if c == 't' then Some('\t')
    else if c == 'r' then Some('\r')
    else if c == 'b' then Some(8 as char)
    else if c == 'f' then Some(12 as char)
    else None
  }

  datatype Unquoted = Unquoted(text: string, end: nat)

  /** Decoding a string literal from inside it: `out` is the text decoded so far. */
  function UnquoteAt(b: string, p: nat, out: string): (r: Result<Unquoted>)
    ensures r.Ok? ==> p < r.value.end <= |b|
    decreases |b| - p
  {
    if p >= |b| then Fault(JsonUnterminatedString)
    else if b[p] == '"' then Ok(Unquoted(out, p + 1))
    else if b[p] != '\\' then UnquoteAt(b, p + 1, out + [b[p]])
    else if p + 1 >= |b| then Fault(JsonBadEscape)
    else if b[p + 1] == 'u' then
      var h := Hex4At(b, p + 2);
      if h.Err? then Err(h.error) else UnquoteAt(b, p + 6, out + [ScalarOf(h.value)])
    else
      var e := ShortEscape(b[p + 1]);
      if e.None? then Fault(JsonBadEscape) else UnquoteAt(b, p + 2, out + [e.value])
  }

  /** A member of an object: its key and the position of its value. */
  datatype Entry = Entry(key: string, value: nat)

  function EntryAt(b: string, start: nat): (r: Result<Entry>)
    ensures r.Ok? ==> start < r.value.value <= |b|
  {
    var p := SkipWsAt(b, start);
    if p >= |b| then Fault(JsonUnterminatedObject)
    else if b[p] == '}' then Fault(JsonKeyNotFound)
    else if b[p] != '"' then Fault(JsonExpectedKey)
    else
      var k := UnquoteAt(b, p + 1, "");
      if k.Err? then Err(k.error)
      else
        var colon := SkipWsAt(b, k.value.end);
        if colon >= |b| || b[colon] != ':' then Fault(JsonExpectedColon)
        else Ok(Entry(k.value.text, SkipWsAt(b, colon + 1)))
  }

  /** The position of the value under `key` in the object whose members continue at `start`. */
  function EnterObjectAt(b: string, start: nat, key: string): (r: Cursor)
    ensures r.Ok? ==> start < r.value <= |b|
    decreases |b| - start
  {
    var m := EntryAt(b, start);
    if m.Err? then Err(m.error)
    else if m.value.key == key then Ok(m.value.value)
    else
      var s := SkipValueAt(b, m.value.value);
      if s.Err? then s
      else
        var n := SkipWsAt(b, s.value);
        if n < |b| && b[n] == ',' then EnterObjectAt(b, n + 1, key)
        else if n < |b| && b[n] == '}' then Fault(JsonKeyNotFound)
        else Fault(JsonMalformedObject)
  }

  /** The position of element `target` in the array whose element `i` comes next at `start`. */
  function EnterArrayAt(b: string, start: nat, i: nat, target: nat): (r: Cursor)
    ensures r.Ok? ==> start <= r.value < |b|
    decreases |b| - start
  {
    var p := SkipWsAt(b, start);
    if p >= |b| then Fault(JsonUnterminatedArray)
    else if b[p] == ']' then Fault(JsonOutOfRange)
    else if i == target then Ok(p)
    else
      var s := SkipValueAt(b, p);
      if s.Err? then s
      else
        var n := SkipWsAt(b, s.value);
        if n < |b| && b[n] == ',' then EnterArrayAt(b, n + 1, i + 1, target)
        else if n < |b| && b[n] == ']' then Fault(JsonOutOfRange)
        else Fault(JsonMalformedArray)
  }

  function EnterAt(b: string, p: nat, comp: string): (r: Cursor)
    ensures r.Ok? ==> p < r.value <= |b|
  {
    if p >= |b| then Fault(JsonUnexpectedEnd)
    else if b[p] == '{' then EnterObjectAt(b, p + 1, comp)
    else if b[p] == '[' then
      var target := ParseUsize(comp);
      if target.None? then Fault(JsonBadIndex) else EnterArrayAt(b, p + 1, 0, target.value)
    else Fault(JsonIndexScalar)
  }

  predicate HasFloatMark(t: string) { exists i | 0 <= i < |t| :: t[i] == '.' || t[i] == 'e' || t[i] == 'E' }

  /** The value of a bare token that is not a literal name. */
  function NumberValue(std: Std, tok: string): Result<Value> {
    if HasFloatMark(tok) then
      var x := std.parseFloat(tok);
      if x.Some? then Ok(Float(x.value)) else Fault(JsonBadFloat)
    else
      var n := ParseI64(tok);
      if n.Some? then Ok(Int(n.value)) else Fault(JsonBadInteger)
  }

  /** A scalar whose first character is none of `"`, `t`, `f`, `n`, `{` and `[` is read as a number. */
  predicate StartsNumber(c: char) {
    c != '"' && c != 't' && c != 'f' && c != 'n' && !IsOpen(c)
  }

  function ScalarAt(std: Std, b: string, p: nat): (r: Result<Value>)
    ensures r.Ok? ==> p < |b|
  {
    if p >= |b| then Fault(JsonUnexpectedEnd)
    else if b[p] == '"' then
      var s := UnquoteAt(b, p + 1, "");
      if s.Err? then Err(s.error) else Ok(Str(s.value.text))
    else if b[p] == 't' then Ok(Bool(true))
    else if b[p] == 'f' then Ok(Bool(false))
    else if b[p] == 'n' then Fault(JsonNull)
    else if IsOpen(b[p]) then Fault(JsonNotScalar)
    else NumberValue(std, b[p..TokenEndAt(b, p)])
  }

  /** Follow `comps` down from the value at `p`; the result is the position of the value reached. */
  function DescendAt(b: string, p: nat, comps: seq<string>): (r: Cursor)
    ensures r.Ok? ==> p <= r.value
    decreases |comps|
  {
    if comps == [] then Ok(p)
    else
      var q := EnterAt(b, p, comps[0]);
      if q.Err? then q else DescendAt(b, SkipWsAt(b, q.value), comps[1..])
  }

  /** `str::split('.')`. */
  function SplitDots(path: string): (comps: seq<string>)
    ensures comps != []
  {
    if path == [] then [""]
    else
      var rest := SplitDots(path[1..]);
      if path[0] == '.' then [""] + rest else [[path[0]] + rest[0]] + rest[1..]
  }

  function Components(path: string): seq<string> {
    if path == "" then [] else SplitDots(path)
  }

  /** What `get` returns. */
  function GetAt(std: Std, b: string, path: string): Result<Value> {
    var p := DescendAt(b, SkipWsAt(b, 0), Components(path));
    if p.Err? then Err(p.error) else ScalarAt(std, b, p.value)
  }

  // ---- the loops -----------------------------------------------------------------------------

  method SkipWs(b: string, start: nat) returns (p: nat)
    ensures p == SkipWsAt(b, start)
  {
    p := start;
    while p < |b| && IsWs(b[p])
      invariant SkipWsAt(b, start) == SkipWsAt(b, p)
      decreases |b| - p
    {
      p := p + 1;
    }
  }

  method SkipString(b: string, start: nat) returns (r: Cursor)
    requires start < |b| && b[start] == '"'
    ensures r == SkipStringAt(b, start + 1)
  {
    var p := start + 1;
    while p < |b|
      invariant SkipStringAt(b, start + 1) == SkipStringAt(b, p)
      decreases |b| - p
    {
      if b[p] == '\\' {
        p := p + 2;
      } else if b[p] == '"' {
        return Ok(p + 1);
      } else {
        p := p + 1;
      }
    }
    return Fault(JsonUnterminatedString);
  }

  method TokenEnd(b: string, start: nat) returns (q: nat)
    ensures q == TokenEndAt(b, start)
  {
    q := start;
    while q < |b| && !IsDelim(b[q])
      invariant TokenEndAt(b, start) == TokenEndAt(b, q)
      decreases |b| - q
    {
      q := q + 1;
    }
  }

  method SkipValue(b: string, start: nat) returns (r: Cursor)
    ensures r == SkipValueAt(b, start)
  {
    var p := SkipWs(b, start);
    if p >= |b| {
      return Fault(JsonUnexpectedEnd);
    }
    if b[p] == '"' {
      r := SkipString(b, p);
      return;
    }
    if !IsOpen(b[p]) {
      var q := TokenEnd(b, p);
      return Ok(q);
    }
    var depth, q := 0, p;
    while q < |b|
      invariant SkipNestAt(b, p, 0) == SkipNestAt(b, q, depth)
      decreases |b| - q
    {
      if b[q] == '"' {
        var s := SkipString(b, q);
        if s.Err? {
          return s;
        }
        q := s.value;
      } else if IsOpen(b[q]) {
        depth, q := depth + 1, q + 1;
      } else if IsClose(b[q]) {
        depth, q := depth - 1, q + 1;
        if depth == 0 {
          return Ok(q);
        }
      } else {
        q := q + 1;
      }
    }
    return Fault(JsonUnterminatedContainer);
  }

  method Hex4(b: string, p: nat) returns (r: Result<nat>)
    requires p <= |b|
    ensures r == Hex4At(b, p)
  {
    hide ByteLen;
    if ByteLen(b[p..]) < 4 {
      return Fault(JsonBadEscape);
    }
    if p + 4 > |b| {
      return Fault(JsonBadHex);
    }
    var v, i := 0, 0;
    while i < 4
      invariant 0 <= i <= 4
      invariant HexValue(b[p..p + i]) == Some(v)
    {
      var t := b[p..p + i + 1];
      assert t[..|t| - 1] == b[p..p + i] && t[|t| - 1] == b[p + i];
      var d := HexDigit(b[p + i]);
      if d.None? {
        HexPrefix(b[p..p + 4], i + 1);
        assert b[p..p + 4][..i + 1] == b[p..p + i + 1];
        return Fault(JsonBadHex);
      }
      v, i := v * 16 + d.value, i + 1;
    }
    return Ok(v);
  }

  /** A digit run with a bad prefix is bad. */
  lemma {:induction false} HexPrefix(t: string, n: nat)
    requires n <= |t| && HexValue(t[..n]).None?
    ensures HexValue(t).None?
  {
    if n == |t| {
      assert t[..n] == t;
    } else {
      assert t[..|t| - 1][..n] == t[..n];
      HexPrefix(t[..|t| - 1], n);
    }
  }

  /** Copying the characters before the next quote or backslash is copying them one by one. */
  lemma {:induction false} UnquoteRun(b: string, p: nat, q: nat, out: string)
    requires p <= q <= |b|
    requires forall i | p <= i < q :: b[i] != '"' && b[i] != '\\'
    ensures UnquoteAt(b, p, out) == UnquoteAt(b, q, out + b[p..q])
    decreases q - p
  {
    if p == q {
      assert out + b[p..q] == out;
    } else {
      UnquoteRun(b, p + 1, q, out + [b[p]]);
      assert out + [b[p]] + b[p + 1..q] == out + b[p..q];
    }
  }

  method ParseString(b: string, start: nat) returns (r: Result<Unquoted>)
    requires start < |b| && b[start] == '"'
    ensures r == UnquoteAt(b, start + 1, "")
  {
    var p := start + 1;
    var out := "";
    while p < |b|
      invariant UnquoteAt(b, start + 1, "") == UnquoteAt(b, p, out)
      decreases |b| - p
    {
      if b[p] == '"' {
        return Ok(Unquoted(out, p + 1));
      } else if b[p] == '\\' {
        if p + 1 >= |b| {
          return Fault(JsonBadEscape);
        }
        if b[p + 1] == 'u' {
          var h := Hex4(b, p + 2);
          if h.Err? {
            return Err(h.error);
          }
          p, out := p + 6, out + [ScalarOf(h.value)];
        } else {
          var e := ShortEscape(b[p + 1]);
          if e.None? {
            return Fault(JsonBadEscape);
          }
          p, out := p + 2, out + [e.value];
        }
      } else {
        var run := p;
        while p < |b| && b[p] != '"' && b[p] != '\\'
          invariant run <= p <= |b|
          invariant forall i | run <= i < p :: b[i] != '"' && b[i] != '\\'
        {
          p := p + 1;
        }
        UnquoteRun(b, run, p, out);
        out := out + b[run..p];
      }
    }
    return Fault(JsonUnterminatedString);
  }

  method ReadEntry(b: string, start: nat) returns (r: Result<Entry>)
    ensures r == EntryAt(b, start)
  {
    var p := SkipWs(b, start);
    if p >= |b| {
      return Fault(JsonUnterminatedObject);
    }
    if b[p] == '}' {
      return Fault(JsonKeyNotFound);
    }
    if b[p] != '"' {
      return Fault(JsonExpectedKey);
    }
    var k := ParseString(b, p);
    if k.Err? {
      return Err(k.error);
    }
    var colon := SkipWs(b, k.value.end);
    if colon >= |b| || b[colon] != ':' {
      return Fault(JsonExpectedColon);
    }
    var v := SkipWs(b, colon + 1);
    return Ok(Entry(k.value.text, v));
  }

  method EnterObject(b: string, open: nat, key: string) returns (r: Cursor)
    ensures r == EnterObjectAt(b, open + 1, key)
  {
    var p := open + 1;
    while true
      invariant EnterObjectAt(b, open + 1, key) == EnterObjectAt(b, p, key)
      decreases |b| - p
    {
      var m := ReadEntry(b, p);
      if m.Err? {
        return Err(m.error);
      }
      if m.value.key == key {
        return Ok(m.value.value);
      }
      var s := SkipValue(b, m.value.value);
      if s.Err? {
        return s;
      }
      var n := SkipWs(b, s.value);
      if n < |b| && b[n] == ',' {
        p := n + 1;
      } else if n < |b| && b[n] == '}' {
        return Fault(JsonKeyNotFound);
      } else {
        return Fault(JsonMalformedObject);
      }
    }
  }

  method EnterArray(b: string, open: nat, comp: string) returns (r: Cursor)
    requires open < |b| && b[open] == '['
    ensures r == EnterAt(b, open, comp)
  {
    var target := ParseUsize(comp);
    if target.None? {
      return Fault(JsonBadIndex);
    }
    var p, i := open + 1, 0;
    while true
      invariant EnterArrayAt(b, open + 1, 0, target.value) == EnterArrayAt(b, p, i, target.value)
      decreases |b| - p
    {
      var start := SkipWs(b, p);
      if start >= |b| {
        return Fault(JsonUnterminatedArray);
      }
      if b[start] == ']' {
        return Fault(JsonOutOfRange);
      }
      if i == target.value {
        return Ok(start);
      }
      var s := SkipValue(b, start);
      if s.Err? {
        return s;
      }
      var n := SkipWs(b, s.value);
      if n < |b| && b[n] == ',' {
        p, i := n + 1, i + 1;
      } else if n < |b| && b[n] == ']' {
        return Fault(JsonOutOfRange);
      } else {
        return Fault(JsonMalformedArray);
      }
    }
  }

  method Enter(b: string, p: nat, comp: string) returns (r: Cursor)
    ensures r == EnterAt(b, p, comp)
  {
    if p >= |b| {
      return Fault(JsonUnexpectedEnd);
    }
    if b[p] == '{' {
      r := EnterObject(b, p, comp);
    } else if b[p] == '[' {
      r := EnterArray(b, p, comp);
    } else {
      r := Fault(JsonIndexScalar);
    }
  }

  method ParseScalar(std: Std, b: string, p: nat) returns (r: Result<Value>)
    ensures r == ScalarAt(std, b, p)
  {
    if p >= |b| {
      return Fault(JsonUnexpectedEnd);
    }
    if b[p] == '"' {
      var s := ParseString(b, p);
      return if s.Err? then Err(s.error) else Ok(Str(s.value.text));
    }
    if b[p] == 't' || b[p] == 'f' {
      return Ok(Bool(b[p] == 't'));
    }
    if b[p] == 'n' {
      return Fault(JsonNull);
    }
    if IsOpen(b[p]) {
      return Fault(JsonNotScalar);
    }
    var q, isFloat := p, false;
    while q < |b| && !IsDelim(b[q])
      invariant p <= q <= |b|
      invariant TokenEndAt(b, p) == TokenEndAt(b, q)
      invariant isFloat == HasFloatMark(b[p..q])
    {
      assert b[p..q + 1] == b[p..q] + [b[q]];
      if b[q] == '.' || b[q] == 'e' || b[q] == 'E' {
        assert b[p..q + 1][q - p] == b[q];
        isFloat := true;
      }
      assert forall i | 0 <= i < q - p :: b[p..q + 1][i] == b[p..q][i];
      q := q + 1;
    }
    var tok := b[p..q];
    if isFloat {
      var x := std.parseFloat(tok);
      return if x.Some? then Ok(Float(x.value)) else Fault(JsonBadFloat);
    }
    var n := ParseI64(tok);
    return if n.Some? then Ok(Int(n.value)) else Fault(JsonBadInteger);
  }

  method Get(std: Std, text: string, path: string) returns (r: Result<Value>)
    ensures r == GetAt(std, text, path)
  {
    var p := SkipWs(text, 0);
    if path != "" {
      var comps := SplitDots(path);
      var i := 0;
      while i < |comps|
        invariant 0 <= i <= |comps|
        invariant DescendAt(text, SkipWsAt(text, 0), comps) == DescendAt(text, p, comps[i..])
      {
        var q := Enter(text, p, comps[i]);
        if q.Err? {
          return Err(q.error);
        }
        p := SkipWs(text, q.value);
        i := i + 1;
      }
    }
    r := ParseScalar(std, text, p);
  }
}
