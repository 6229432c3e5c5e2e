/**
 Delexicalisation: quoted strings and numbers are replaced by slot markers, `&a` to `&d` and `#0` to `#7`,
 in two passes; one pass puts the literals back. Text is ASCII.
 */
module Delex {
  import opened Values

  const NUM_SLOTS := 8
  const STR_SLOTS := 4
  const NUL: char := '\0'

  // ---- what the two patterns match -----------------------------------------------------------

  predicate IsQuote(c: char) { c == '\'' || c == '"' }

  /** The first `q` from `i` on, on the same line. */
  function FindClose(s: string, q: char, i: nat): (r: Option<nat>)
    requires i <= |s|
    ensures r.Some? ==> i <= r.value < |s| && s[r.value] == q
    decreases |s| - i
  {
    if i == |s| || s[i] == '\n' then None
    else if s[i] == q then Some(i)
    else FindClose(s, q, i + 1)
  }

  /** Where the quoted string at the front of the text closes. */
  function Quoted(s: string): (r: Option<nat>)
    ensures r.Some? ==> 1 <= r.value < |s| && s[r.value] == s[0] && IsQuote(s[0])
  {
    if s == [] || !IsQuote(s[0]) then None else FindClose(s, s[0], 1)
  }

  /** How many digits the text begins with. */
  function Digits(s: string): (n: nat)
    ensures n <= |s| && forall i | 0 <= i < n :: IsDigit(s[i])
    ensures n < |s| ==> !IsDigit(s[n])
  {
    if s == [] || !IsDigit(s[0]) then 0 else 1 + Digits(s[1..])
  }

  predicate IsNumeric(c: char) { IsDigit(c) || c == '-' || c == '.' }

  /** The length of the number at the front of the text: a sign, digits, and a fraction if one follows. */
  function NumberLen(s: string): (n: nat)
    ensures n <= |s| && forall i | 0 <= i < n :: IsNumeric(s[i])
  {
    var sign := if s != [] && s[0] == '-' then 1 else 0;
    var whole := Digits(s[sign..]);
    var n := sign + whole;
    if whole == 0 then 0
    else if n < |s| && s[n] == '.' && Digits(s[n + 1..]) > 0 then n + 1 + Digits(s[n + 1..])
    else n
  }

  /** The first place of a value in a list. */
  function IndexOf(list: seq<string>, v: string): (k: nat)
    requires v in list
    ensures k < |list| && list[k] == v && v !in list[..k]
  {
    if list[0] == v then 0
    else
      assert list == [list[0]] + list[1..];
      1 + IndexOf(list[1..], v)
  }

  function NumMarker(k: nat): string
    requires k < NUM_SLOTS
  {
    ['#', '0' + k as char]
  }

  function StrMarker(k: nat): string
    requires k < STR_SLOTS
  {
    ['&', 'a' + k as char]
  }

  // ---- against given slots -------------------------------------------------------------------

  /** Every quoted string that fills a slot becomes the slot's marker, in its quotes. */
  function StrPass(s: string, strs: seq<string>): string
    requires |strs| <= STR_SLOTS
    decreases |s|
  {
    if s == [] then []
    else
      match Quoted(s)
      case None => [s[0]] + StrPass(s[1..], strs)
      case Some(j) =>
        StrPiece(s, strs, j) + StrPass(s[j + 1..], strs)
  }

  /** What becomes of a quoted string that closes at `j`. */
  function StrPiece(s: string, strs: seq<string>, j: nat): string
    requires |strs| <= STR_SLOTS && 1 <= j < |s|
  {
    if s[1..j] in strs then [s[0]] + StrMarker(IndexOf(strs, s[1..j])) + [s[0]] else s[..j + 1]
  }

  /** What becomes of a number. */
  function NumPiece(v: string, nums: seq<string>): string
    requires |nums| <= NUM_SLOTS
  {
    if v in nums then NumMarker(IndexOf(nums, v)) else v
  }

  /** Every number that fills a slot becomes the slot's marker. */
  function NumPass(s: string, nums: seq<string>): string
    requires |nums| <= NUM_SLOTS
    decreases |s|
  {
    if s == [] then []
    else
      var n := NumberLen(s);
      if n == 0 then [s[0]] + NumPass(s[1..], nums)
      else NumPiece(s[..n], nums) + NumPass(s[n..], nums)
  }

  function DelexPy(py: string, nums: seq<string>, strs: seq<string>): string
    requires |nums| <= NUM_SLOTS && |strs| <= STR_SLOTS
  {
    NumPass(StrPass(py, strs), nums)
  }

  // ---- filling the slots ---------------------------------------------------------------------

  datatype Scan = Scan(text: string, slots: seq<string>)

  /** The slots after meeting a literal: a new one takes the next slot while there is one. */
  function Noted(slots: seq<string>, v: string, max: nat): (r: seq<string>)
    requires |slots| <= max
    ensures |r| <= max && slots <= r
  {
    if v in slots || |slots| >= max then slots else slots + [v]
  }

  function StrScan(s: string, strs: seq<string>): (r: Scan)
    requires |strs| <= STR_SLOTS
    ensures |r.slots| <= STR_SLOTS && strs <= r.slots
    decreases |s|
  {
    if s == [] then Scan([], strs)
    else
      match Quoted(s)
      case None => var r := StrScan(s[1..], strs); Scan([s[0]] + r.text, r.slots)
      case Some(j) =>
        var more := Noted(strs, s[1..j], STR_SLOTS);
        var r := StrScan(s[j + 1..], more);
        Scan(StrPiece(s, more, j) + r.text, r.slots)
  }

  function NumScan(s: string, nums: seq<string>): (r: Scan)
    requires |nums| <= NUM_SLOTS
    ensures |r.slots| <= NUM_SLOTS && nums <= r.slots
    decreases |s|
  {
    if s == [] then Scan([], nums)
    else
      var n := NumberLen(s);
      if n == 0 then var r := NumScan(s[1..], nums); Scan([s[0]] + r.text, r.slots)
      else
        var more := Noted(nums, s[..n], NUM_SLOTS);
        var r := NumScan(s[n..], more);
        Scan(NumPiece(s[..n], more) + r.text, r.slots)
  }

  /** Fill string slots while replacing, then number slots. */
  method DelexEn(en: string) returns (prompt: string, nums: seq<string>, strs: seq<string>)
    ensures var r := StrScan(en, []); strs == r.slots && Scan(prompt, nums) == NumScan(r.text, [])
  {
    prompt, strs := ScanStrings(en);
    prompt, nums := ScanNumbers(prompt);
  }

  /** What is out and what the rest will give make up the whole result. */
  ghost predicate Pending(out: string, rest: Scan, want: Scan) {
    out + rest.text == want.text && rest.slots == want.slots
  }

  lemma Moved(out: string, piece: string, rest: Scan, want: Scan)
    requires Pending(out, Scan(piece + rest.text, rest.slots), want)
    ensures Pending(out + piece, rest, want)
  {
    assert out + (piece + rest.text) == (out + piece) + rest.text;
  }

  lemma StrScanPlain(s: string, strs: seq<string>)
    requires |strs| <= STR_SLOTS && s != [] && Quoted(s).None?
    ensures var r := StrScan(s[1..], strs); StrScan(s, strs) == Scan([s[0]] + r.text, r.slots)
  {
  }

  lemma StrScanQuoted(s: string, strs: seq<string>, j: nat)
    requires |strs| <= STR_SLOTS && Quoted(s) == Some(j)
    ensures var more := Noted(strs, s[1..j], STR_SLOTS); var r := StrScan(s[j + 1..], more);
            StrScan(s, strs) == Scan(StrPiece(s, more, j) + r.text, r.slots)
  {
    hide StrPiece, Noted, Quoted;
  }

  method ScanStrings(s: string) returns (out: string, strs: seq<string>)
    ensures Scan(out, strs) == StrScan(s, [])
  {
    hide Quoted, StrPiece, Noted, StrScan, Pending;
    ghost var want := StrScan(s, []);
    out, strs := [], [];
    var rest := s;
    assert Pending(out, StrScan(rest, strs), want) by { Nothing(want); }
    while rest != []
      invariant |strs| <= STR_SLOTS && Pending(out, StrScan(rest, strs), want)
      decreases |rest|
    {
      var j := Quoted(rest);
      if j.None? {
        StrScanPlain(rest, strs);
        Moved(out, [rest[0]], StrScan(rest[1..], strs), want);
        out := out + [rest[0]];
        rest := rest[1..];
      } else {
        StrScanQuoted(rest, strs, j.value);
        var piece;
        piece, strs := StrSub(rest, strs, j.value);
        Moved(out, piece, StrScan(rest[j.value + 1..], strs), want);
        out := out + piece;
        rest := rest[j.value + 1..];
      }
    }
    StrScanNone(strs);
    Finished(out, StrScan(rest, strs), want);
  }

  lemma Nothing(want: Scan)
    ensures Pending([], want, want)
  {
  }

  lemma StrScanNone(strs: seq<string>)
    requires |strs| <= STR_SLOTS
    ensures StrScan([], strs) == Scan([], strs)
  {
  }

  lemma Finished(out: string, rest: Scan, want: Scan)
    requires Pending(out, rest, want) && rest.text == []
    ensures Scan(out, rest.slots) == want
  {
    assert out + [] == out;
  }

  /** Replace one quoted string, taking a slot for it if it has none yet. */
  method StrSub(s: string, strs: seq<string>, j: nat) returns (piece: string, more: seq<string>)
    requires |strs| <= STR_SLOTS && 1 <= j < |s|
    ensures more == Noted(strs, s[1..j], STR_SLOTS) && piece == StrPiece(s, more, j)
  {
    hide IndexOf;
    more := strs;
    var content := s[1..j];
    if content !in more {
      if |more| >= STR_SLOTS { return s[..j + 1], more; }
      more := more + [content];
    }
    piece := [s[0]] + StrMarker(IndexOf(more, content)) + [s[0]];
  }

  lemma NumScanPlain(s: string, nums: seq<string>)
    requires |nums| <= NUM_SLOTS && s != [] && NumberLen(s) == 0
    ensures var r := NumScan(s[1..], nums); NumScan(s, nums) == Scan([s[0]] + r.text, r.slots)
  {
  }

  lemma NumScanNumber(s: string, nums: seq<string>)
    requires |nums| <= NUM_SLOTS && s != [] && NumberLen(s) > 0
    ensures var v := s[..NumberLen(s)]; var more := Noted(nums, v, NUM_SLOTS); var r := NumScan(s[|v|..], more);
            NumScan(s, nums) == Scan(NumPiece(v, more) + r.text, r.slots)
  {
    hide NumPiece, Noted, NumberLen;
  }

  lemma NumScanNone(nums: seq<string>)
    requires |nums| <= NUM_SLOTS
    ensures NumScan([], nums) == Scan([], nums)
  {
  }

  method ScanNumbers(s: string) returns (out: string, nums: seq<string>)
    ensures Scan(out, nums) == NumScan(s, [])
  {
    hide NumberLen, NumPiece, Noted, NumScan, Pending;
    ghost var want := NumScan(s, []);
    out, nums := [], [];
    var rest := s;
    assert Pending(out, NumScan(rest, nums), want) by { Nothing(want); }
    while rest != []
      invariant |nums| <= NUM_SLOTS && Pending(out, NumScan(rest, nums), want)
      decreases |rest|
    {
      var n := NumberLen(rest);
      if n == 0 {
        NumScanPlain(rest, nums);
        Moved(out, [rest[0]], NumScan(rest[1..], nums), want);
        out := out + [rest[0]];
        rest := rest[1..];
      } else {
        NumScanNumber(rest, nums);
        var piece;
        piece, nums := NumSub(rest[..n], nums);
        Moved(out, piece, NumScan(rest[n..], nums), want);
        out := out + piece;
        rest := rest[n..];
      }
    }
    NumScanNone(nums);
    Finished(out, NumScan(rest, nums), want);
  }

  /** Replace one number, taking a slot for it if it has none yet. */
  method NumSub(v: string, nums: seq<string>) returns (piece: string, more: seq<string>)
    requires |nums| <= NUM_SLOTS
    ensures more == Noted(nums, v, NUM_SLOTS) && piece == NumPiece(v, more)
  {
    hide IndexOf;
    more := nums;
    if v !in more {
      if |more| >= NUM_SLOTS { return v, more; }
      more := more + [v];
    }
    piece := NumMarker(IndexOf(more, v));
  }

  // ---- putting the literals back -------------------------------------------------------------

  predicate IsMarker(s: string) {
    |s| >= 2 && ((s[0] == '#' && '0' <= s[1] <= '7') || (s[0] == '&' && 'a' <= s[1] <= 'd'))
  }

  /** The slot's literal, or NUL for a slot that was not filled. */
  function Filled(s: string, nums: seq<string>, strs: seq<string>): string
    requires IsMarker(s)
  {
    var list := if s[0] == '#' then nums else strs;
    var k := if s[0] == '#' then s[1] as int - '0' as int else s[1] as int - 'a' as int;
    if k < |list| then list[k] else [NUL]
  }

  function Unmarked(s: string, nums: seq<string>, strs: seq<string>): string
    decreases |s|
  {
    if s == [] then []
    else if IsMarker(s) then Filled(s, nums, strs) + Unmarked(s[2..], nums, strs)
    else [s[0]] + Unmarked(s[1..], nums, strs)
  }

  predicate IsSpace(c: char) { c == ' ' || '\t' <= c <= '\r' || 28 as char <= c <= 31 as char }

  /** How much white space the text begins with. */
  function Spaces(s: string): (n: nat)
    ensures n <= |s| && (n < |s| ==> !IsSpace(s[n])) && forall i | 0 <= i < n :: IsSpace(s[i])
  {
    if s == [] || !IsSpace(s[0]) then 0 else 1 + Spaces(s[1..])
  }

  /** The length of a comma with the white space around it, at the front of the text. */
  function Comma(s: string): (n: nat)
    ensures n <= |s|
  {
    var i := Spaces(s);
    if i < |s| && s[i] == ',' then i + 1 + Spaces(s[i + 1..]) else 0
  }

  /** Drop every comma that an unfilled slot follows, with the slot. */
  function DropBefore(s: string): string
    decreases |s|
  {
    if s == [] then []
    else
      var n := Comma(s);
      if n > 0 && n < |s| && s[n] == NUL then DropBefore(s[n + 1..]) else [s[0]] + DropBefore(s[1..])
  }

  /** Drop every unfilled slot that a comma follows, with the comma. */
  function DropAfter(s: string): string
    decreases |s|
  {
    if s == [] then []
    else if s[0] == NUL && Comma(s[1..]) > 0 then DropAfter(s[1 + Comma(s[1..])..])
    else [s[0]] + DropAfter(s[1..])
  }

  function DropNul(s: string): string {
    if s == [] then [] else (if s[0] == NUL then [] else [s[0]]) + DropNul(s[1..])
  }

  function Relex(code: string, nums: seq<string>, strs: seq<string>): string {
    DropNul(DropAfter(DropBefore(Unmarked(code, nums, strs))))
  }
}
