/** The lexer: source text to tokens. */
module Lexer {
  import opened Values
  import opened Parse

  datatype LexError = MalformedNumber | BadFloat | BadInteger | UnterminatedString | UnexpectedCharacter(c: char)

  /** The tokens of a text, the error that stops the lexer, or its panic on slicing inside a character. */
  datatype Lexed = Toks(ts: seq<Tok>) | Bad(err: LexError) | Panics

  /** One token and how much of the text it takes. */
  datatype First = Item(t: Tok, n: nat) | Wrong(err: LexError) | Slices

  predicate IsBlank(c: char) { c == ' ' || c == '\t' || c == '\r' || c == '\n' }

  predicate IsAlpha(c: char) { 'a' <= c <= 'z' || 'A' <= c <= 'Z' || c == '_' }

  predicate IsWord(c: char) { IsAlpha(c) || IsDigit(c) }

  predicate IsAscii(c: char) { c as int < 0x80 }

  // ---- numbers, words, strings ---------------------------------------------------------------

  /** The end of a run of digits with at most one point, or `None` at a second point. */
  function NumberEnd(s: string, i: nat, dotted: bool): (r: Option<nat>)
    requires i <= |s|
    ensures r.Some? ==> i <= r.value <= |s|
    decreases |s| - i
  {
    if i == |s| || !(IsDigit(s[i]) || s[i] == '.') then Some(i)
    else if s[i] == '.' && dotted then None
    else NumberEnd(s, i + 1, dotted || s[i] == '.')
  }

  function NumberTok(std: Std, text: string): First {
    if '.' in text then
      match std.parseFloat(text) case Some(x) => Item(TFloat(x), |text|) case None => Wrong(BadFloat)
    else
      match ParseI64(text) case Some(n) => Item(TInt(n), |text|) case None => Wrong(BadInteger)
  }

  function WordEnd(s: string, i: nat): (r: nat)
    requires i <= |s|
    ensures i <= r <= |s|
    decreases |s| - i
  {
    if i == |s| || !IsWord(s[i]) then i else WordEnd(s, i + 1)
  }

  function WordTok(word: string): Tok {
    if word == "let" then KLet
    else if word == "if" then KIf
    else if word == "else" then KElse
    else if word == "in" then KIn
    else if word == "and" then KAnd
    else if word == "or" then KOr
    else if word == "not" then KNot
    else if word == "true" || word == "True" then TBool(true)
    else if word == "false" || word == "False" then TBool(false)
    else Ident(word)
  }

  /** The first unescaped `q` from `j` on. */
  function QuoteEnd(s: string, q: char, j: nat): (r: Option<nat>)
    ensures r.Some? ==> j <= r.value < |s| && s[r.value] == q
    decreases |s| - j
  {
    if j >= |s| then None
    else if s[j] == '\\' then QuoteEnd(s, q, j + 2)
    else if s[j] == q then Some(j)
    else QuoteEnd(s, q, j + 1)
  }

  function Unescaped(c: char): char {
    if c == 'n' then '\n' else if c == 't' then '\t' else if c == 'r' then '\r' else c
  }

  /** A backslash and what follows it become one character; one at the very end is dropped. */
  function Unescape(raw: string): string
    decreases |raw|
  {
    if raw == [] then []
    else if raw[0] != '\\' then [raw[0]] + Unescape(raw[1..])
    else if |raw| == 1 then []
    else [Unescaped(raw[1])] + Unescape(raw[2..])
  }

  // ---- operators -----------------------------------------------------------------------------

  function TwoCharTok(a: char, b: char): Option<Tok> {
    if a == '=' && b == '=' then Some(EqEq)
    else if a == '!' && b == '=' then Some(NotEq)
    else if a == '<' && b == '=' then Some(LessEq)
    else if a == '>' && b == '=' then Some(GreaterEq)
    else if a == '&' && b == '&' then Some(AndAnd)
    else if a == '|' && b == '|' then Some(OrOr)
    else if a == '/' && b == '/' then Some(Slash)
    else None
  }

  function OneCharTok(c: char): Option<Tok> {
    if c == '+' then Some(Plus) else if c == '-' then Some(Minus) else if c == '*' then Some(Star)
    else if c == '/' then Some(Slash) else if c == '%' then Some(Percent) else if c == '<' then Some(Less)
    else if c == '>' then Some(Greater) else if c == '!' then Some(Bang) else if c == '(' then Some(LParen)
    else if c == ')' then Some(RParen) else if c == '[' then Some(LBracket) else if c == ']' then Some(RBracket)
    else if c == '{' then Some(LBrace) else if c == '}' then Some(RBrace) else if c == ',' then Some(Comma)
    else if c == '.' then Some(Dot) else if c == '=' then Some(Assign) else if c == ';' then Some(Semi)
    else None
  }

  /**
   The lexer looks at two bytes from here: a slice that ends inside a character panics, which happens
   before a character of several bytes and inside one of three or four.
   */
  predicate SlicesCharacter(s: string)
    requires s != []
  {
    if IsAscii(s[0]) then |s| > 1 && !IsAscii(s[1]) else Utf8Len(s[0]) > 2
  }

  function OperatorAt(s: string): First
    requires s != []
  {
    if SlicesCharacter(s) then Slices
    else if |s| > 1 && TwoCharTok(s[0], s[1]).Some? then Item(TwoCharTok(s[0], s[1]).value, 2)
    else match OneCharTok(s[0]) case Some(t) => Item(t, 1) case None => Wrong(UnexpectedCharacter(s[0]))
  }

  // ---- the whole text ------------------------------------------------------------------------

  /** The token a text that does not begin with white space begins with. */
  function FirstTok(std: Std, s: string): (r: First)
    requires s != []
    ensures r.Item? ==> 0 < r.n <= |s|
  {
    if IsDigit(s[0]) then
      match NumberEnd(s, 0, false)
      case None => Wrong(MalformedNumber)
      case Some(n) => NumberTok(std, s[..n])
    else if IsAlpha(s[0]) then
      var n := WordEnd(s, 0);
      Item(WordTok(s[..n]), n)
    else if s[0] == '"' || s[0] == '\'' then
      match QuoteEnd(s, s[0], 1)
      case None => Wrong(UnterminatedString)
      case Some(j) => Item(TStr(Unescape(s[1..j])), j + 1)
    else OperatorAt(s)
  }

  function Prepend(ts: seq<Tok>, r: Lexed): Lexed { if r.Toks? then Toks(ts + r.ts) else r }

  function LexOf(std: Std, s: string): Lexed
    decreases |s|
  {
    if s == [] then Toks([])
    else if IsBlank(s[0]) then LexOf(std, s[1..])
    else
      match FirstTok(std, s)
      case Item(t, n) => Prepend([t], LexOf(std, s[n..]))
      case Wrong(e) => Bad(e)
      case Slices => Panics
  }

  method Lex(std: Std, src: string) returns (r: Lexed)
    ensures r == LexOf(std, src)
  {
    hide FirstTok;
    var i := 0;
    var out: seq<Tok> := [];
    assert src[0..] == src;
    while i < |src|
      invariant 0 <= i <= |src| && LexOf(std, src) == Prepend(out, LexOf(std, src[i..]))
      decreases |src| - i
    {
      var s := src[i..];
      if IsBlank(s[0]) {
        assert s[1..] == src[i + 1..];
        i := i + 1;
      } else {
        var first := NextTok(std, s);
        match first {
          case Wrong(e) => return Bad(e);
          case Slices => return Panics;
          case Item(t, n) =>
            assert s[n..] == src[i + n..];
            PrependTwice(out, t, LexOf(std, src[i + n..]));
            out := out + [t];
            i := i + n;
        }
      }
    }
    r := Toks(out);
  }

  lemma PrependTwice(out: seq<Tok>, t: Tok, r: Lexed)
    ensures Prepend(out, Prepend([t], r)) == Prepend(out + [t], r)
  {
    if r.Toks? { assert out + ([t] + r.ts) == (out + [t]) + r.ts; }
  }

  /** The scanning loops for one token. */
  method NextTok(std: Std, s: string) returns (r: First)
    requires s != []
    ensures r == FirstTok(std, s)
  {
    hide NumberEnd, WordEnd, QuoteEnd;
    if IsDigit(s[0]) {
      var end := ScanNumber(s);
      r := if end.None? then Wrong(MalformedNumber) else NumberTok(std, s[..end.value]);
    } else if IsAlpha(s[0]) {
      var n := ScanWord(s);
      r := Item(WordTok(s[..n]), n);
    } else if s[0] == '"' || s[0] == '\'' {
      var j := ScanQuote(s, s[0]);
      r := if j.None? then Wrong(UnterminatedString) else Item(TStr(Unescape(s[1..j.value])), j.value + 1);
    } else {
      r := OperatorAt(s);
    }
  }

  method ScanNumber(s: string) returns (end: Option<nat>)
    ensures end == NumberEnd(s, 0, false)
  {
    var i, dotted := 0, false;
    while i < |s| && (IsDigit(s[i]) || s[i] == '.')
      invariant 0 <= i <= |s| && NumberEnd(s, 0, false) == NumberEnd(s, i, dotted)
    {
      if s[i] == '.' {
        if dotted { return None; }
        dotted := true;
      }
      i := i + 1;
    }
    end := Some(i);
  }

  method ScanWord(s: string) returns (n: nat)
    ensures n == WordEnd(s, 0)
  {
    n := 0;
    while n < |s| && IsWord(s[n])
      invariant 0 <= n <= |s| && WordEnd(s, 0) == WordEnd(s, n)
    {
      n := n + 1;
    }
  }

  method ScanQuote(s: string, q: char) returns (j: Option<nat>)
    ensures j == QuoteEnd(s, q, 1)
  {
    var k := 1;
    while k < |s|
      invariant QuoteEnd(s, q, 1) == QuoteEnd(s, q, k)
      decreases |s| - k
    {
      if s[k] == '\\' { k := k + 2; } else if s[k] == q { return Some(k); } else { k := k + 1; }
    }
    j := None;
  }
}
