/**
 Reading a response that is still arriving. A value found in the text received so far is the value
 of the whole text, whatever follows, exactly when the text does not break off inside or just after
 a number that the path ends on; it is the value of one given longer text when that does not go on with the number.
 */
module JsonStream {
  import opened Values
  import opened Json
  import opened JsonLookup

  lemma EmbedsExtension(b: string, ext: string)
    ensures Embeds(b, b + ext, 0)
  {
  }

  lemma {:induction false} SkipWsStable(b: string, c: string, p: nat)
    requires Embeds(b, c, 0) && SkipWsAt(b, p) < |b|
    ensures SkipWsAt(c, p) == SkipWsAt(b, p)
    decreases |b| - p
  {
    assert c[0 + p] == b[p];
    if IsWs(b[p]) {
      SkipWsStable(b, c, p + 1);
    }
  }

  lemma {:induction false} TokenStable(b: string, c: string, p: nat)
    requires Embeds(b, c, 0) && TokenEndAt(b, p) < |b|
    ensures TokenEndAt(c, p) == TokenEndAt(b, p)
    decreases |b| - p
  {
    assert c[0 + p] == b[p];
    if !IsDelim(b[p]) {
      TokenStable(b, c, p + 1);
    }
  }

  lemma {:induction false} SkipStringStable(b: string, c: string, p: nat)
    requires Embeds(b, c, 0) && SkipStringAt(b, p).Ok?
    ensures SkipStringAt(c, p) == SkipStringAt(b, p)
    decreases |b| - p
  {
    assert c[0 + p] == b[p];
    if b[p] == '\\' {
      SkipStringStable(b, c, p + 2);
    } else if b[p] != '"' {
      SkipStringStable(b, c, p + 1);
    }
  }

  lemma {:induction false} SkipNestStable(b: string, c: string, q: nat, depth: int)
    requires Embeds(b, c, 0) && SkipNestAt(b, q, depth).Ok?
    ensures SkipNestAt(c, q, depth) == SkipNestAt(b, q, depth)
    decreases |b| - q
  {
    assert c[0 + q] == b[q];
    if b[q] == '"' {
      SkipStringStable(b, c, q + 1);
      SkipNestStable(b, c, SkipStringAt(b, q + 1).value, depth);
    } else if IsOpen(b[q]) {
      SkipNestStable(b, c, q + 1, depth + 1);
    } else if IsClose(b[q]) {
      if depth - 1 != 0 { SkipNestStable(b, c, q + 1, depth - 1); }
    } else {
      SkipNestStable(b, c, q + 1, depth);
    }
  }

  lemma SkipValueStable(b: string, c: string, start: nat)
    requires Embeds(b, c, 0) && SkipValueAt(b, start).Ok? && SkipValueAt(b, start).value < |b|
    ensures SkipValueAt(c, start) == SkipValueAt(b, start)
  {
    hide SkipNestAt, SkipStringAt, TokenEndAt;
    var p := SkipWsAt(b, start);
    SkipWsStable(b, c, start);
    assert c[0 + p] == b[p];
    if IsOpen(b[p]) {
      SkipNestStable(b, c, p, 0);
    } else if b[p] == '"' {
      SkipStringStable(b, c, p + 1);
    } else {
      TokenStable(b, c, p);
    }
  }

  lemma UnquoteStable(b: string, c: string, p: nat)
    requires Embeds(b, c, 0) && UnquoteAt(b, p, "").Ok?
    ensures UnquoteAt(c, p, "") == UnquoteAt(b, p, "")
  {
    UnquoteEmbed(b, c, 0, p, "");
  }

  lemma EntryStable(b: string, c: string, start: nat)
    requires Embeds(b, c, 0) && EntryAt(b, start).Ok? && EntryAt(b, start).value.value < |b|
    ensures EntryAt(c, start) == EntryAt(b, start)
  {
    hide SkipWsAt, UnquoteAt;
    var p := SkipWsAt(b, start);
    SkipWsStable(b, c, start);
    assert c[0 + p] == b[p];
    UnquoteStable(b, c, p + 1);
    var colon := SkipWsAt(b, UnquoteAt(b, p + 1, "").value.end);
    SkipWsStable(b, c, UnquoteAt(b, p + 1, "").value.end);
    assert c[0 + colon] == b[colon];
    SkipWsStable(b, c, colon + 1);
  }

  lemma {:induction false} EnterObjectStable(b: string, c: string, start: nat, key: string)
    requires Embeds(b, c, 0) && EnterObjectAt(b, start, key).Ok? && EnterObjectAt(b, start, key).value < |b|
    ensures EnterObjectAt(c, start, key) == EnterObjectAt(b, start, key)
    decreases |b| - start
  {
    hide SkipWsAt, SkipValueAt, EntryAt;
    var m := EntryAt(b, start).value;
    if m.key == key {
      EntryStable(b, c, start);
    } else {
      var s := SkipValueAt(b, m.value).value;
      var n := SkipWsAt(b, s);
      EntryStable(b, c, start);
      SkipValueStable(b, c, m.value);
      SkipWsStable(b, c, s);
      assert c[0 + n] == b[n];
      EnterObjectStable(b, c, n + 1, key);
    }
  }

  lemma {:induction false} EnterArrayStable(b: string, c: string, start: nat, i: nat, target: nat)
    requires Embeds(b, c, 0) && EnterArrayAt(b, start, i, target).Ok?
    ensures EnterArrayAt(c, start, i, target) == EnterArrayAt(b, start, i, target)
    decreases |b| - start
  {
    hide SkipWsAt, SkipValueAt;
    var p := SkipWsAt(b, start);
    SkipWsStable(b, c, start);
    assert c[0 + p] == b[p];
    if i != target {
      var s := SkipValueAt(b, p).value;
      var n := SkipWsAt(b, s);
      SkipValueStable(b, c, p);
      SkipWsStable(b, c, s);
      assert c[0 + n] == b[n];
      EnterArrayStable(b, c, n + 1, i + 1, target);
    }
  }

  lemma EnterStable(b: string, c: string, p: nat, comp: string)
    requires Embeds(b, c, 0) && EnterAt(b, p, comp).Ok? && EnterAt(b, p, comp).value < |b|
    ensures EnterAt(c, p, comp) == EnterAt(b, p, comp)
  {
    hide EnterObjectAt, EnterArrayAt, ParseUsize;
    assert c[0 + p] == b[p];
    if b[p] == '{' {
      EnterObjectStable(b, c, p + 1, comp);
    } else {
      EnterArrayStable(b, c, p + 1, 0, ParseUsize(comp).value);
    }
  }

  lemma {:induction false} DescendStable(b: string, c: string, p: nat, comps: seq<string>)
    requires Embeds(b, c, 0) && DescendAt(b, p, comps).Ok? && DescendAt(b, p, comps).value < |b|
    ensures DescendAt(c, p, comps) == DescendAt(b, p, comps)
    decreases |comps|
  {
    hide SkipWsAt, EnterAt;
    if comps != [] {
      var q := EnterAt(b, p, comps[0]).value;
      EnterStable(b, c, p, comps[0]);
      SkipWsStable(b, c, q);
      DescendStable(b, c, SkipWsAt(b, q), comps[1..]);
    }
  }

  /** Where the path lands. */
  function LandingAt(b: string, path: string): Cursor {
    DescendAt(b, SkipWsAt(b, 0), Components(path))
  }

  lemma LandingStable(b: string, c: string, path: string)
    requires Embeds(b, c, 0) && LandingAt(b, path).Ok? && LandingAt(b, path).value < |b|
    ensures LandingAt(c, path) == LandingAt(b, path)
  {
    hide SkipWsAt, Components;
    SkipWsStable(b, c, 0);
    DescendStable(b, c, SkipWsAt(b, 0), Components(path));
  }

  /** The path lands on a bare token, read as a number, that reaches the last character received. */
  predicate CutsNumber(b: string, path: string) {
    var r := LandingAt(b, path);
    r.Ok? && r.value < |b| && StartsNumber(b[r.value]) && TokenEndAt(b, r.value) == |b|
  }

  lemma ScalarStable(std: Std, b: string, c: string, p: nat)
    requires Embeds(b, c, 0) && ScalarAt(std, b, p).Ok?
    requires StartsNumber(b[p]) ==> TokenEndAt(b, p) < |b|
    ensures ScalarAt(std, c, p) == ScalarAt(std, b, p)
  {
    hide UnquoteAt, TokenEndAt, NumberValue;
    assert c[0 + p] == b[p];
    if b[p] == '"' {
      UnquoteStable(b, c, p + 1);
    } else if StartsNumber(b[p]) {
      TokenStable(b, c, p);
      var e := TokenEndAt(b, p);
      assert c[p..e] == b[p..e] by {
        forall i | p <= i < e ensures c[i] == b[i] { assert c[0 + i] == b[i]; }
      }
    }
  }

  /** A hit that does not rest on a cut number is the answer for every continuation of the text. */
  lemma HitIsStable(std: Std, b: string, path: string, ext: string)
    requires GetAt(std, b, path).Ok? && !CutsNumber(b, path)
    ensures GetAt(std, b + ext, path) == GetAt(std, b, path)
  {
    hide DescendAt, ScalarAt, TokenEndAt;
    EmbedsExtension(b, ext);
    LandingStable(b, b + ext, path);
    var p := LandingAt(b, path).value;
    TokenEndBound(b, p);
    ScalarStable(std, b, b + ext, p);
  }

  lemma TokenEndBound(b: string, p: nat)
    requires p <= |b|
    ensures TokenEndAt(b, p) <= |b|
  {
  }

  /** No number ends in a letter that is not part of one. */
  ghost predicate RejectsX(std: Std) { forall tok: string :: std.parseFloat(tok + "x") == None }

  lemma NumberWithX(std: Std, tok: string)
    requires RejectsX(std)
    ensures NumberValue(std, tok + "x").Err?
  {
    var t := tok + "x";
    var body := if t[0] == '-' || t[0] == '+' then t[1..] else t;
    if !HasFloatMark(t) && body != [] {
      assert body[|body| - 1] == 'x' && !IsDigit('x');
      assert Digits(body) == None;
    }
  }

  lemma {:induction false} TokenToEnd(b: string, p: nat)
    requires p <= |b| && TokenEndAt(b, p) == |b|
    ensures TokenEndAt(b + "x", p) == |b| + 1
    decreases |b| - p
  {
    if p < |b| {
      assert (b + "x")[p] == b[p];
      TokenToEnd(b, p + 1);
    } else {
      assert (b + "x")[p] == 'x';
      assert TokenEndAt(b + "x", p + 1) == p + 1;
    }
  }

  /** A hit on a cut number is not stable: one more character makes it an error. */
  lemma CutNumberIsUnstable(std: Std, b: string, path: string)
    requires RejectsX(std) && CutsNumber(b, path)
    ensures GetAt(std, b + "x", path).Err?
  {
    hide DescendAt, NumberValue, TokenEndAt;
    var c := b + "x";
    EmbedsExtension(b, "x");
    LandingStable(b, c, path);
    var p := LandingAt(b, path).value;
    TokenToEnd(b, p);
    assert c[0 + p] == b[p];
    assert c[p..|c|] == b[p..] + "x";
    NumberWithX(std, b[p..]);
  }

  /** The exact condition under which a hit may be acted on before the text is complete. */
  lemma HitStableExactly(std: Std, b: string, path: string)
    requires RejectsX(std) && GetAt(std, b, path).Ok?
    ensures (forall ext: string :: GetAt(std, b + ext, path) == GetAt(std, b, path)) <==> !CutsNumber(b, path)
  {
    if CutsNumber(b, path) {
      CutNumberIsUnstable(std, b, path);
    } else {
      forall ext: string ensures GetAt(std, b + ext, path) == GetAt(std, b, path) {
        HitIsStable(std, b, path, ext);
      }
    }
  }

  // ---- one continuation ----------------------------------------------------------------------

  /** `b` goes on with the number that `a` breaks off in. */
  predicate Continued(a: string, b: string, path: string)
    requires a <= b
  {
    CutsNumber(a, path) && |a| < |b| && !IsDelim(b[|a|])
  }

  /** The bare token the path lands on. */
  function NumberTok(b: string, path: string): string
    requires LandingAt(b, path).Ok? && LandingAt(b, path).value <= |b|
  {
    b[LandingAt(b, path).value..TokenEndAt(b, LandingAt(b, path).value)]
  }

  lemma {:induction false} TokenStops(b: string, ext: string, p: nat)
    requires p <= |b| && TokenEndAt(b, p) == |b| && (ext == [] || IsDelim(ext[0]))
    ensures TokenEndAt(b + ext, p) == |b|
    decreases |b| - p
  {
    hide IsDelim;
    if p < |b| {
      assert (b + ext)[p] == b[p];
      TokenStops(b, ext, p + 1);
    } else if ext != [] {
      assert (b + ext)[p] == ext[0];
    }
  }

  /** Where a number is cut, its two tokens decide what is read. */
  lemma CutReads(std: Std, b: string, path: string, ext: string)
    requires CutsNumber(b, path)
    ensures LandingAt(b + ext, path) == LandingAt(b, path)
    ensures GetAt(std, b, path) == NumberValue(std, NumberTok(b, path))
    ensures GetAt(std, b + ext, path) == NumberValue(std, NumberTok(b + ext, path))
  {
    hide DescendAt, NumberValue, TokenEndAt;
    EmbedsExtension(b, ext);
    LandingStable(b, b + ext, path);
    assert (b + ext)[LandingAt(b, path).value] == b[LandingAt(b, path).value];
  }

  /** The token read from the longer text. */
  predicate SameNumber(std: Std, a: string, b: string, path: string)
    requires a <= b && CutsNumber(a, path)
  {
    EmbedsExtension(a, b[|a|..]);
    assert a + b[|a|..] == b;
    LandingStable(a, b, path);
    NumberValue(std, NumberTok(a, path)) == NumberValue(std, NumberTok(b, path))
  }

  /** The longer text reads the same: it does not go on with a cut number, or the longer number has the same value. */
  predicate Keeps(std: Std, a: string, b: string, path: string)
    requires a <= b
  {
    Continued(a, b, path) ==> SameNumber(std, a, b, path)
  }

  /** A hit is the answer for a given longer text exactly when that text does not go on with its number, or to no effect. */
  lemma HitKeptExactly(std: Std, a: string, b: string, path: string)
    requires GetAt(std, a, path).Ok? && a <= b
    ensures GetAt(std, b, path) == GetAt(std, a, path) <==> Keeps(std, a, b, path)
  {
    hide GetAt, CutsNumber, NumberValue, LandingAt, TokenEndAt;
    var ext := b[|a|..];
    assert a + ext == b;
    if CutsNumber(a, path) {
      CutReads(std, a, path, ext);
      if !Continued(a, b, path) { SameTok(a, ext, path); }
    } else {
      HitIsStable(std, a, path, ext);
    }
  }

  lemma SameTok(a: string, ext: string, path: string)
    requires CutsNumber(a, path) && (ext == [] || IsDelim(ext[0])) && LandingAt(a + ext, path) == LandingAt(a, path)
    ensures NumberTok(a + ext, path) == NumberTok(a, path)
  {
    hide LandingAt, TokenEndAt, IsDelim;
    var p := LandingAt(a, path).value;
    TokenStops(a, ext, p);
    assert (a + ext)[p..|a|] == a[p..];
  }

  // ---- a digit that follows ------------------------------------------------------------------

  /** The value of an integer with one more digit. */
  function Appended(tok: string, n: int, d: char): int
    requires tok != [] && IsDigit(d)
  {
    if tok[0] == '-' then 10 * n - (d as int - '0' as int) else 10 * n + (d as int - '0' as int)
  }

  lemma DigitAppended(std: Std, tok: string, d: char)
    requires !HasFloatMark(tok) && ParseI64(tok).Some? && IsDigit(d)
    ensures tok != []
    ensures var n := ParseI64(tok).value; if tok[0] == '-' then n <= 0 else n >= 0
    ensures var m := Appended(tok, ParseI64(tok).value, d);
            NumberValue(std, tok + [d]) == if I64_MIN <= m <= I64_MAX then Ok(Int(m)) else Fault(JsonBadInteger)
  {
    var t := tok + [d];
    assert tok != [];
    assert forall i | 0 <= i < |t| :: t[i] == if i < |tok| then tok[i] else d;
    assert !HasFloatMark(t);
    var signed := tok[0] == '-' || tok[0] == '+';
    var body, longer := if signed then tok[1..] else tok, if signed then t[1..] else t;
    assert longer[..|longer| - 1] == body && longer[|longer| - 1] == d;
  }

  /**
   A hit on an integer that the next digit continues is a silent error: with the digit in, the text reads as
   another integer, not as an error, as long as it fits.
   */
  lemma DigitChangesNumber(std: Std, b: string, path: string, d: char, rest: string)
    requires CutsNumber(b, path) && GetAt(std, b, path).Ok? && GetAt(std, b, path).value.Int?
    requires IsDigit(d) && (rest == [] || IsDelim(rest[0]))
    ensures NumberTok(b, path) != []
    ensures var n := GetAt(std, b, path).value.n; var m := Appended(NumberTok(b, path), n, d);
            && GetAt(std, b + ([d] + rest), path) == (if I64_MIN <= m <= I64_MAX then Ok(Int(m)) else Fault(JsonBadInteger))
            && (m == n <==> n == 0 && d == '0')
  {
    hide GetAt, LandingAt, TokenEndAt, ParseI64;
    CutReads(std, b, path, [d] + rest);
    var p := LandingAt(b, path).value;
    var tok := NumberTok(b, path);
    var c := b + [d];
    assert b + ([d] + rest) == c + rest;
    TokenPast(b, [d], p);
    TokenEndBound(c, p);
    TokenStops(c, rest, p);
    assert (c + rest)[p..|c|] == tok + [d];
    DigitAppended(std, tok, d);
  }

  // ---- a bad byte ----------------------------------------------------------------------------

  /** What lossy decoding puts in the place of bytes that are no UTF-8. */
  const REPLACEMENT: char := '\U{FFFD}'

  /** No float is written with it. */
  ghost predicate RejectsReplacement(std: Std) { forall tok: string :: REPLACEMENT in tok ==> std.parseFloat(tok) == None }

  lemma {:induction false} NoDigits(t: string)
    requires REPLACEMENT in t
    ensures Digits(t) == None
  {
    var n := |t| - 1;
    if t[n] != REPLACEMENT { NoDigits(t[..n]); }
  }

  lemma BrokenNumber(std: Std, tok: string)
    requires RejectsReplacement(std) && REPLACEMENT in tok
    ensures NumberValue(std, tok).Err?
  {
    hide Digits;
    var body := if tok[0] == '-' || tok[0] == '+' then tok[1..] else tok;
    assert REPLACEMENT in body;
    NoDigits(body);
  }

  lemma {:induction false} TokenPast(b: string, ext: string, p: nat)
    requires p <= |b| && TokenEndAt(b, p) == |b| && ext != [] && !IsDelim(ext[0])
    ensures TokenEndAt(b + ext, p) > |b|
    decreases |b| - p
  {
    hide IsDelim;
    if p < |b| {
      assert (b + ext)[p] == b[p];
      TokenPast(b, ext, p + 1);
    } else {
      assert (b + ext)[p] == ext[0];
    }
  }

  /** A hit on a number that a bad byte cuts is an error once the bad byte is replaced. */
  lemma BrokenNumberFails(std: Std, b: string, path: string, rest: string)
    requires RejectsReplacement(std) && CutsNumber(b, path)
    ensures GetAt(std, b + ([REPLACEMENT] + rest), path).Err?
  {
    hide DescendAt, NumberValue, TokenEndAt;
    var ext := [REPLACEMENT] + rest;
    var c := b + ext;
    EmbedsExtension(b, ext);
    LandingStable(b, c, path);
    var p := LandingAt(b, path).value;
    TokenPast(b, ext, p);
    TokenEndBound(c, p);
    assert c[0 + p] == b[p];
    assert c[p..TokenEndAt(c, p)][|b| - p] == REPLACEMENT;
    BrokenNumber(std, c[p..TokenEndAt(c, p)]);
  }
}
