/** Writing tokens as text and lexing it: the text level of parsing and printing. */
module LexLaws {
  import opened Values
  import opened Ir
  import opened Parse
  import opened Lexer
  import opened Printer

  // ---- numbers and strings as text -----------------------------------------------------------

  function Decimal(n: nat): (t: string)
    ensures t != []
  {
    if n < 10 then ['0' + n as char] else Decimal(n / 10) + ['0' + (n % 10) as char]
  }

  lemma {:induction false} DecimalReads(n: nat)
    ensures Values.Digits(Decimal(n)) == Some(n) && forall i | 0 <= i < |Decimal(n)| :: IsDigit(Decimal(n)[i])
  {
    if n < 10 {
      assert Decimal(n)[..0] == [];
    } else {
      DecimalReads(n / 10);
      assert Decimal(n)[..|Decimal(n)| - 1] == Decimal(n / 10);
    }
  }

  function Escaped(c: char): string { if c == '\\' || c == '"' then ['\\', c] else [c] }

  function EscapedAll(s: string): string {
    if s == [] then [] else Escaped(s[0]) + EscapedAll(s[1..])
  }

  /** Text of a float: digits with one point. */
  predicate IsPointed(t: string) {
    t != [] && IsDigit(t[0]) && NumberEnd(t, 0, false) == Some(|t|) && '.' in t
  }

  // ---- tokens as text ------------------------------------------------------------------------

  predicate IsName(name: string) {
    name != [] && IsAlpha(name[0]) && (forall i | 0 <= i < |name| :: IsWord(name[i])) && WordTok(name) == Ident(name)
  }

  /** Tokens a text can hold, given how floats are written. */
  ghost predicate Lexable(std: Std, floatText: F64 -> string, t: Tok) {
    match t
    case TInt(n) => n >= 0
    case TFloat(x) => IsPointed(floatText(x)) && std.parseFloat(floatText(x)) == Some(x)
    case Ident(name) => IsName(name)
    case _ => true
  }

  function Spelling(floatText: F64 -> string, t: Tok): (s: string) {
    match t
    case TInt(n) =>
      var m: int := n;
      if m < 0 then "-" + Decimal(-m) else Decimal(m)
    case TFloat(x) => floatText(x)
    case TBool(b) => if b then "true" else "false"
    case TStr(s) => "\"" + EscapedAll(s) + "\""
    case Ident(name) => name
    case KLet => "let" case KIf => "if" case KElse => "else" case KIn => "in"
    case KAnd => "and" case KOr => "or" case KNot => "not"
    case Plus => "+" case Minus => "-" case Star => "*" case Slash => "/" case Percent => "%"
    case EqEq => "==" case NotEq => "!=" case Less => "<" case LessEq => "<=" case Greater => ">" case GreaterEq => ">="
    case AndAnd => "&&" case OrOr => "||" case Bang => "!"
    case LParen => "(" case RParen => ")" case LBracket => "[" case RBracket => "]" case LBrace => "{" case RBrace => "}"
    case Comma => "," case Dot => "." case Assign => "=" case Semi => ";"
  }

  /** Tokens in text, a space after each. */
  function Source(floatText: F64 -> string, ts: seq<Tok>): string {
    if ts == [] then [] else Spelling(floatText, ts[0]) + (" " + Source(floatText, ts[1..]))
  }

  // ---- each token reads back -----------------------------------------------------------------

  lemma {:induction false} RunOfDigits(t: string, rest: string, i: nat)
    requires i <= |t| && (forall k | 0 <= k < |t| :: IsDigit(t[k])) && rest != [] && rest[0] == ' '
    ensures NumberEnd(t + rest, i, false) == Some(|t|)
    decreases |t| - i
  {
    if i < |t| { RunOfDigits(t, rest, i + 1); }
  }

  lemma {:induction false} RunOfNumber(t: string, rest: string, i: nat, dotted: bool)
    requires i <= |t| && NumberEnd(t, i, dotted) == Some(|t|) && rest != [] && rest[0] == ' '
    ensures NumberEnd(t + rest, i, dotted) == Some(|t|)
    decreases |t| - i
  {
    if i < |t| { RunOfNumber(t, rest, i + 1, dotted || t[i] == '.'); }
  }

  lemma {:induction false} RunOfWord(t: string, rest: string, i: nat)
    requires i <= |t| && (forall k | 0 <= k < |t| :: IsWord(t[k])) && rest != [] && rest[0] == ' '
    ensures WordEnd(t + rest, i) == |t|
    decreases |t| - i
  {
    if i < |t| { RunOfWord(t, rest, i + 1); }
  }

  lemma {:induction false} QuoteFinds(pre: string, s: string, rest: string)
    ensures QuoteEnd(pre + (EscapedAll(s) + ("\"" + rest)), '"', |pre|) == Some(|pre| + |EscapedAll(s)|)
    decreases |s|
  {
    var text := pre + (EscapedAll(s) + ("\"" + rest));
    if s == [] {
      assert text[|pre|] == '"';
    } else {
      var e := Escaped(s[0]);
      QuoteFinds(pre + e, s[1..], rest);
      assert text == (pre + e) + (EscapedAll(s[1..]) + ("\"" + rest));
      assert text[|pre|] == e[0];
    }
  }

  lemma {:induction false} EscapedReads(s: string)
    ensures Unescape(EscapedAll(s)) == s
  {
    if s != [] {
      var e, tail := Escaped(s[0]), EscapedAll(s[1..]);
      EscapedReads(s[1..]);
      assert (e + tail)[|e|..] == tail;
    }
  }

  lemma IntReads(std: Std, n: nat, rest: string)
    requires n <= I64_MAX && rest != [] && rest[0] == ' '
    ensures FirstTok(std, Decimal(n) + rest) == Item(TInt(n), |Decimal(n)|)
  {
    hide Decimal, Values.Digits;
    var t := Decimal(n);
    DecimalReads(n);
    RunOfDigits(t, rest, 0);
    assert (t + rest)[..|t|] == t && (t + rest)[0] == t[0];
    assert '.' !in t;
  }

  lemma FloatReads(std: Std, x: F64, t: string, rest: string)
    requires IsPointed(t) && std.parseFloat(t) == Some(x) && rest != [] && rest[0] == ' '
    ensures FirstTok(std, t + rest) == Item(TFloat(x), |t|)
  {
    RunOfNumber(t, rest, 0, false);
    assert (t + rest)[..|t|] == t && (t + rest)[0] == t[0];
  }

  lemma WordReads(std: Std, t: string, rest: string)
    requires t != [] && IsAlpha(t[0]) && (forall k | 0 <= k < |t| :: IsWord(t[k])) && rest != [] && rest[0] == ' '
    ensures FirstTok(std, t + rest) == Item(WordTok(t), |t|)
  {
    hide WordTok;
    RunOfWord(t, rest, 0);
    assert (t + rest)[..|t|] == t && (t + rest)[0] == t[0];
  }

  lemma StringReads(std: Std, s: string, rest: string)
    ensures var t := "\"" + EscapedAll(s) + "\""; FirstTok(std, t + rest) == Item(TStr(s), |t|)
  {
    hide QuoteEnd, EscapedAll, Unescape;
    var e, t := EscapedAll(s), "\"" + EscapedAll(s) + "\"";
    QuoteFinds("\"", s, rest);
    EscapedReads(s);
    assert t + rest == "\"" + (e + ("\"" + rest));
    assert (t + rest)[1..1 + |e|] == e;
  }

  lemma OperatorReads(std: Std, floatText: F64 -> string, t: Tok, rest: string)
    requires rest != [] && rest[0] == ' '
    requires !t.TInt? && !t.TFloat? && !t.TBool? && !t.TStr? && !t.Ident?
    requires !t.KLet? && !t.KIf? && !t.KElse? && !t.KIn? && !t.KAnd? && !t.KOr? && !t.KNot?
    ensures FirstTok(std, Spelling(floatText, t) + rest) == Item(t, |Spelling(floatText, t)|)
  {
    var w := Spelling(floatText, t);
    var s := w + rest;
    assert |w| == 1 ==> s[0] == w[0] && s[1] == ' ';
    assert |w| == 2 ==> s[0] == w[0] && s[1] == w[1];
  }

  lemma WordsRead(std: Std, floatText: F64 -> string, t: Tok, rest: string)
    requires rest != [] && rest[0] == ' '
    requires t.KLet? || t.KIf? || t.KElse? || t.KIn? || t.KAnd? || t.KOr? || t.KNot? || t.TBool?
    ensures FirstTok(std, Spelling(floatText, t) + rest) == Item(t, |Spelling(floatText, t)|)
  {
    hide FirstTok;
    WordReads(std, Spelling(floatText, t), rest);
  }

  /** Every lexable token reads back from its spelling. */
  lemma TokenReads(std: Std, floatText: F64 -> string, t: Tok, rest: string)
    requires Lexable(std, floatText, t) && rest != [] && rest[0] == ' '
    ensures var w := Spelling(floatText, t);
            w != [] && !IsBlank(w[0]) && FirstTok(std, w + rest) == Item(t, |w|)
  {
    hide FirstTok, Decimal, EscapedAll, IsPointed, Values.Digits, NumberEnd;
    match t
    case TInt(n) =>
      DecimalReads(n);
      IntReads(std, n, rest);
    case TFloat(x) =>
      PointedStarts(floatText(x));
      FloatReads(std, x, floatText(x), rest);
    case TStr(s) => StringReads(std, s, rest);
    case Ident(name) => WordReads(std, name, rest);
    case _ =>
      if t.KLet? || t.KIf? || t.KElse? || t.KIn? || t.KAnd? || t.KOr? || t.KNot? || t.TBool? {
        WordsRead(std, floatText, t, rest);
      } else {
        OperatorReads(std, floatText, t, rest);
      }
  }

  lemma PointedStarts(t: string)
    requires IsPointed(t)
    ensures t != [] && IsDigit(t[0])
  {
  }

  ghost predicate AllLexable(std: Std, floatText: F64 -> string, ts: seq<Tok>) {
    forall i | 0 <= i < |ts| :: Lexable(std, floatText, ts[i])
  }

  /** Lexing written tokens gives them back, with nothing left over. */
  lemma {:induction false} SourceLexes(std: Std, floatText: F64 -> string, ts: seq<Tok>)
    requires AllLexable(std, floatText, ts)
    ensures LexOf(std, Source(floatText, ts)) == Toks(ts)
  {
    hide FirstTok, Spelling, Lexable;
    if ts != [] {
      var w, rest := Spelling(floatText, ts[0]), " " + Source(floatText, ts[1..]);
      TokenReads(std, floatText, ts[0], rest);
      SourceLexes(std, floatText, ts[1..]);
      assert (w + rest)[|w|..] == rest && rest[1..] == Source(floatText, ts[1..]);
      assert (w + rest)[0] == w[0];
    }
  }

  // ---- what the lexer can yield --------------------------------------------------------------

  /** Floats read from text can be written and read back. */
  ghost predicate FloatsWrite(std: Std, floatText: F64 -> string) {
    forall t: string | IsPointed(t) && std.parseFloat(t).Some? ::
      var x := std.parseFloat(t).value; IsPointed(floatText(x)) && std.parseFloat(floatText(x)) == Some(x)
  }

  lemma {:induction false} NumberEndOfPart(s: string, i: nat, dotted: bool, n: nat)
    requires i <= n <= |s| && NumberEnd(s, i, dotted) == Some(n)
    ensures NumberEnd(s[..n], i, dotted) == Some(n)
    decreases n - i
  {
    if i < n { NumberEndOfPart(s, i + 1, dotted || s[i] == '.', n); }
  }

  lemma {:induction false} WordChars(s: string, i: nat)
    requires i <= |s|
    ensures forall k | i <= k < WordEnd(s, i) :: IsWord(s[k])
    decreases |s| - i
  {
    if i < |s| && IsWord(s[i]) { WordChars(s, i + 1); }
  }

  lemma DigitsAreNatural(t: string)
    requires t != [] && IsDigit(t[0]) && ParseI64(t).Some?
    ensures ParseI64(t).value >= 0
  {
    hide Values.Digits;
  }

  /** A first token is lexable. */
  lemma FirstIsLexable(std: Std, floatText: F64 -> string, s: string)
    requires FloatsWrite(std, floatText) && s != [] && FirstTok(std, s).Item?
    ensures Lexable(std, floatText, FirstTok(std, s).t)
  {
    hide ParseI64, IsPointed, QuoteEnd, Unescape, NumberEnd, WordEnd;
    if IsDigit(s[0]) {
      var n := NumberEnd(s, 0, false).value;
      var t := s[..n];
      NumberStarts(s);
      if '.' in t {
        PartIsPointed(s, n);
        assert IsPointed(t);
      } else {
        DigitsAreNatural(t);
      }
    } else if IsAlpha(s[0]) {
      WordStarts(s);
      WordChars(s, 0);
      WordOrKeyword(s[..WordEnd(s, 0)]);
    }
  }

  lemma NumberStarts(s: string)
    requires s != [] && IsDigit(s[0]) && NumberEnd(s, 0, false).Some?
    ensures NumberEnd(s, 0, false).value > 0
  {
  }

  lemma WordStarts(s: string)
    requires s != [] && IsAlpha(s[0])
    ensures WordEnd(s, 0) > 0
  {
  }

  lemma PartIsPointed(s: string, n: nat)
    requires s != [] && IsDigit(s[0]) && NumberEnd(s, 0, false) == Some(n) && 0 < n && '.' in s[..n]
    ensures IsPointed(s[..n])
  {
    NumberEndOfPart(s, 0, false, n);
  }

  lemma WordOrKeyword(w: string)
    requires w != [] && IsAlpha(w[0]) && forall k | 0 <= k < |w| :: IsWord(w[k])
    ensures WordTok(w).Ident? ==> WordTok(w) == Ident(w) && IsName(w)
    ensures !WordTok(w).TInt? && !WordTok(w).TFloat?
  {
  }

  lemma {:induction false} LexedAreLexable(std: Std, floatText: F64 -> string, s: string)
    requires FloatsWrite(std, floatText) && LexOf(std, s).Toks?
    ensures AllLexable(std, floatText, LexOf(std, s).ts)
    decreases |s|
  {
    hide FirstTok, Lexable, FloatsWrite;
    if s != [] {
      if IsBlank(s[0]) {
        LexedAreLexable(std, floatText, s[1..]);
      } else {
        FirstIsLexable(std, floatText, s);
        var n := FirstTok(std, s).n;
        LexedAreLexable(std, floatText, s[n..]);
      }
    }
  }

  /** Lexing a text, writing the tokens down and lexing again changes nothing. */
  lemma FormattingIsStable(std: Std, floatText: F64 -> string, s: string)
    requires FloatsWrite(std, floatText) && LexOf(std, s).Toks?
    ensures LexOf(std, Source(floatText, LexOf(std, s).ts)) == LexOf(std, s)
  {
    hide LexOf, AllLexable, Source, FloatsWrite;
    LexedAreLexable(std, floatText, s);
    SourceLexes(std, floatText, LexOf(std, s).ts);
  }

  // ---- trees as text -------------------------------------------------------------------------

  /** A tree of the grammar whose constants and names a text can hold. */
  ghost predicate Writable(std: Std, floatText: F64 -> string, e: Expr)
    decreases e, 0
  {
    match e
    case Const(v) => !v.List? && Lexable(std, floatText, ConstTok(v))
    case Var(name) => IsName(name)
    case Local(_) => true
    case Bin(_, a, b) => Writable(std, floatText, a) && Writable(std, floatText, b)
    case Cmp(_, a, b) => Writable(std, floatText, a) && Writable(std, floatText, b)
    case Logic(_, a, b) => Writable(std, floatText, a) && Writable(std, floatText, b)
    case Unary(_, a) => Writable(std, floatText, a)
    case Index(a, i) => Writable(std, floatText, a) && Writable(std, floatText, i)
    case If(c, t, f) => Writable(std, floatText, c) && Writable(std, floatText, t) && Writable(std, floatText, f)
    case Call(_, args) => AllWritable(std, floatText, args)
    case ListOf(args) => AllWritable(std, floatText, args)
  }

  ghost predicate AllWritable(std: Std, floatText: F64 -> string, args: seq<Expr>)
    decreases args, 1
  {
    forall i | 0 <= i < |args| :: Writable(std, floatText, args[i])
  }

  lemma NamesAreNames(b: Builtin)
    ensures IsName(BuiltinName(b)) && IsName("contains")
  {
    hide WordTok;
    NamesAreWords(b);
    NamesAreWords(Contains);
    NamesAreNoKeywords(b);
    NamesAreNoKeywords(Contains);
  }

  lemma NamesAreWords(b: Builtin)
    ensures var w := BuiltinName(b); w != [] && IsAlpha(w[0]) && forall i | 0 <= i < |w| :: IsWord(w[i])
  {
    hide IsWord, IsAlpha;
    var w := BuiltinName(b);
    Letters();
  }

  lemma Letters()
    ensures forall c: char | 'a' <= c <= 'z' || c == '_' :: IsAlpha(c) && IsWord(c)
  {
  }

  lemma NamesAreNoKeywords(b: Builtin)
    ensures WordTok(BuiltinName(b)) == Ident(BuiltinName(b))
  {
    hide WordTok, BuiltinName;
    NameShape(b);
    NotKeyword(BuiltinName(b));
  }

  /** Enough about a word to tell it from every keyword. */
  predicate NoKeywordShape(w: string) {
    && |w| > 2 && w[0] != 'e' && w[0] != 'n' && w[0] != 't' && w[0] != 'T' && w[0] != 'F'
    && (|w| == 3 && w[0] == 'l' ==> w[2] != 't') && (|w| == 3 && w[0] == 'a' ==> w[2] != 'd')
    && (|w| == 5 && w[0] == 'f' ==> w[1] != 'a')
  }

  lemma NameShape(b: Builtin)
    ensures NoKeywordShape(BuiltinName(b))
  {
  }

  lemma NotKeyword(w: string)
    requires NoKeywordShape(w)
    ensures WordTok(w) == Ident(w)
  {
  }

  lemma {:induction false} PrintedIsLexable(lang: Lang, std: Std, floatText: F64 -> string, e: Expr, l: Level)
    requires Printable(e) && Writable(std, floatText, e)
    ensures AllLexable(std, floatText, Printer.Print(lang, e, l))
    decreases e, 1
  {
    hide Body, Lexable, Formed, Writable;
    BodyIsLexable(lang, std, floatText, e);
    Punctuation(std, floatText);
  }

  lemma Punctuation(std: Std, floatText: F64 -> string)
    ensures forall t: Tok | !t.TInt? && !t.TFloat? && !t.Ident? :: Lexable(std, floatText, t)
  {
  }

  lemma {:induction false} BodyIsLexable(lang: Lang, std: Std, floatText: F64 -> string, e: Expr)
    requires Printable(e) && Writable(std, floatText, e)
    ensures AllLexable(std, floatText, Body(lang, e))
    decreases e, 0
  {
    hide Printer.Print, PrintAll, Lexable, IsName, Else;
    if e.Call? || e.ListOf? || e.If? {
      CompoundIsLexable(lang, std, floatText, e);
      return;
    }
    Punctuation(std, floatText);
    match e
    case Const(v) =>
    case Var(name) => NameIsLexable(std, floatText, name);
    case Logic(op, a, b) =>
      PrintedIsLexable(lang, std, floatText, a, if op.Or? then 1 else 2);
      PrintedIsLexable(lang, std, floatText, b, if op.Or? then 2 else 3);
    case Unary(op, a) => PrintedIsLexable(lang, std, floatText, a, if op.Not? then 3 else 7);
    case Cmp(op, a, b) =>
      PrintedIsLexable(lang, std, floatText, a, 5);
      PrintedIsLexable(lang, std, floatText, b, 5);
    case Bin(op, a, b) =>
      PrintedIsLexable(lang, std, floatText, a, LevelOf(lang, e));
      PrintedIsLexable(lang, std, floatText, b, LevelOf(lang, e) + 1);
    case Index(a, i) =>
      PrintedIsLexable(lang, std, floatText, a, 8);
      PrintedIsLexable(lang, std, floatText, i, 0);
    case _ => assert false;
  }

  lemma {:induction false} CompoundIsLexable(lang: Lang, std: Std, floatText: F64 -> string, e: Expr)
    requires (e.Call? || e.ListOf? || e.If?) && Printable(e) && Writable(std, floatText, e)
    ensures AllLexable(std, floatText, Body(lang, e))
    decreases e, 0, 1
  {
    hide Printer.Print, PrintAll, Lexable, IsName;
    if e.If? {
      IfIsLexable(lang, std, floatText, e);
    } else if e.Call? {
      CallIsLexable(lang, std, floatText, e);
    } else {
      Punctuation(std, floatText);
      ListIsLexable(lang, std, floatText, e.args);
    }
  }

  lemma {:induction false} IfIsLexable(lang: Lang, std: Std, floatText: F64 -> string, e: Expr)
    requires e.If? && Printable(e) && Writable(std, floatText, e)
    ensures AllLexable(std, floatText, Body(lang, e))
    decreases e, 0, 0
  {
    hide Printer.Print, Lexable, IsName, Else;
    Punctuation(std, floatText);
    PrintedIsLexable(lang, std, floatText, e.t, if lang.Python? then 1 else 0);
    PrintedIsLexable(lang, std, floatText, e.c, 1);
    if lang.Python? { PrintedIsLexable(lang, std, floatText, e.f, 0); } else { ElseIsLexable(std, floatText, e.f); }
  }

  lemma {:induction false} ElseIsLexable(std: Std, floatText: F64 -> string, f: Expr)
    requires Printable(f) && Writable(std, floatText, f)
    ensures AllLexable(std, floatText, Else(Rust, f))
    decreases f, 2
  {
    hide Printer.Print, Body, Lexable, Writable, Formed;
    Punctuation(std, floatText);
    if f.If? { BodyIsLexable(Rust, std, floatText, f); } else { PrintedIsLexable(Rust, std, floatText, f, 0); }
  }

  lemma {:induction false} CallIsLexable(lang: Lang, std: Std, floatText: F64 -> string, e: Expr)
    requires e.Call? && Printable(e) && Writable(std, floatText, e)
    ensures AllLexable(std, floatText, Body(lang, e))
    decreases e, 0, 0
  {
    hide Printer.Print, PrintAll, Lexable, IsName, BuiltinName;
    Punctuation(std, floatText);
    NamesAreNames(e.b);
    NameIsLexable(std, floatText, BuiltinName(e.b));
    NameIsLexable(std, floatText, "contains");
    if e.b.Contains? {
      assert AllFormed(0, e.args);
      PrintedIsLexable(lang, std, floatText, e.args[0], 8);
      PrintedIsLexable(lang, std, floatText, e.args[1], 0);
    } else {
      ListIsLexable(lang, std, floatText, e.args);
    }
  }

  lemma NameIsLexable(std: Std, floatText: F64 -> string, name: string)
    requires IsName(name)
    ensures Lexable(std, floatText, Ident(name))
  {
  }

  lemma {:induction false} ListIsLexable(lang: Lang, std: Std, floatText: F64 -> string, args: seq<Expr>)
    requires AllFormed(0, args) && AllWritable(std, floatText, args)
    ensures AllLexable(std, floatText, PrintAll(lang, args))
    decreases args, 2
  {
    hide Printer.Print, Lexable, Formed, Writable;
    Punctuation(std, floatText);
    if args != [] {
      assert Formed(0, args[0]);
      PrintedIsLexable(lang, std, floatText, args[0], 0);
      if |args| > 1 {
        assert AllFormed(0, args[1..]);
        ListIsLexable(lang, std, floatText, args[1..]);
      }
    }
  }

  /** Source text written from a tree parses back to the tree: the round trip at the text level. */
  lemma SourceRoundTrip(std: Std, floatText: F64 -> string, e: Expr)
    requires Printable(e) && Writable(std, floatText, e)
    ensures LexOf(std, Source(floatText, Printer.Print(Python, e, 0))).Toks?
    ensures ParseProgram(Python, LexOf(std, Source(floatText, Printer.Print(Python, e, 0))).ts) == Got(Program([], e, 0), [])
  {
    hide LexOf, AllLexable, Source, Printer.Print, ParseProgram, Formed, Writable;
    PrintedIsLexable(Python, std, floatText, e, 0);
    SourceLexes(std, floatText, Printer.Print(Python, e, 0));
    PrintThenParse(e);
  }

  // ---- panics --------------------------------------------------------------------------------

  /** The text begins with `n` characters of white space or of one whole token, read without an error. */
  ghost predicate Takes(std: Std, s: string, n: nat) {
    && s != [] && 0 < n <= |s|
    && if IsBlank(s[0]) then n == 1 else FirstTok(std, s).Item? && FirstTok(std, s).n == n
  }

  /** A walk over token starts: step by step, each as wide as `widths` says. */
  ghost predicate Walks(std: Std, s: string, widths: seq<nat>)
    decreases |widths|
  {
    widths == [] || (Takes(std, s, widths[0]) && Walks(std, s[widths[0]..], widths[1..]))
  }

  /** How far a walk gets. */
  ghost function Reach(widths: seq<nat>): nat { if widths == [] then 0 else widths[0] + Reach(widths[1..]) }

  lemma {:induction false} WalkFits(std: Std, s: string, widths: seq<nat>)
    requires Walks(std, s, widths)
    ensures Reach(widths) <= |s|
    decreases |widths|
  {
    hide Takes;
    if widths != [] {
      TakesFits(std, s, widths[0]);
      WalkFits(std, s[widths[0]..], widths[1..]);
    }
  }

  lemma TakesFits(std: Std, s: string, n: nat)
    requires Takes(std, s, n)
    ensures 0 < n <= |s|
  {
  }

  /** A character only the operator branch takes. */
  predicate OperatorBranch(c: char) { !IsBlank(c) && !IsDigit(c) && !IsAlpha(c) && c != '"' && c != '\'' }

  /** The text goes on, in the operator branch, with bytes the lexer slices inside a character. */
  predicate CutsHere(s: string) { s != [] && OperatorBranch(s[0]) && SlicesCharacter(s) }

  /** Some walk ends where the lexer slices inside a character. */
  ghost predicate ReachesCut(std: Std, s: string) {
    exists widths :: Walks(std, s, widths) && Reach(widths) <= |s| && CutsHere(s[Reach(widths)..])
  }

  lemma CutPanics(std: Std, s: string)
    requires s != [] && !IsBlank(s[0])
    ensures FirstTok(std, s) == Slices <==> CutsHere(s)
  {
    hide NumberEnd, WordEnd, QuoteEnd, Unescape, WordTok, TwoCharTok, OneCharTok, ParseI64;
  }

  /** One step of a walk passes exactly what the lexer passes. */
  lemma StepKeepsPanic(std: Std, s: string, n: nat)
    requires Takes(std, s, n)
    ensures LexOf(std, s) == Panics <==> LexOf(std, s[n..]) == Panics
  {
    hide FirstTok;
  }

  lemma {:induction false} WalkKeepsPanic(std: Std, s: string, widths: seq<nat>)
    requires Walks(std, s, widths) && Reach(widths) <= |s|
    ensures LexOf(std, s) == Panics <==> LexOf(std, s[Reach(widths)..]) == Panics
    decreases |widths|
  {
    hide Takes, LexOf;
    if widths != [] {
      var n, rest := widths[0], s[widths[0]..];
      TakesFits(std, s, n);
      StepKeepsPanic(std, s, n);
      WalkFits(std, rest, widths[1..]);
      WalkKeepsPanic(std, rest, widths[1..]);
      assert rest[Reach(widths[1..])..] == s[Reach(widths)..];
    } else {
      assert s[0..] == s;
    }
  }

  /** The walk to the panic. */
  lemma {:induction false} WalkToPanic(std: Std, s: string) returns (widths: seq<nat>)
    requires LexOf(std, s) == Panics
    ensures Walks(std, s, widths) && Reach(widths) <= |s| && CutsHere(s[Reach(widths)..])
    decreases |s|
  {
    hide FirstTok, CutsHere;
    if !IsBlank(s[0]) && FirstTok(std, s) == Slices {
      CutPanics(std, s);
      widths := [];
      assert s[0..] == s;
    } else {
      var n := if IsBlank(s[0]) then 1 else FirstTok(std, s).n;
      var tail := WalkToPanic(std, s[n..]);
      widths := [n] + tail;
      assert widths[1..] == tail;
      assert s[n..][Reach(tail)..] == s[n + Reach(tail)..];
    }
  }

  /**
   The lexer panics exactly when, past white space and tokens it reads without an error, it comes to a
   character that is no blank, digit, letter or quote and looks at two bytes that end inside a character.
   */
  lemma PanicsExactly(std: Std, s: string)
    ensures LexOf(std, s) == Panics <==> ReachesCut(std, s)
  {
    hide LexOf, Walks, CutsHere;
    if LexOf(std, s) == Panics {
      var widths := WalkToPanic(std, s);
    }
    if ReachesCut(std, s) {
      var widths :| Walks(std, s, widths) && Reach(widths) <= |s| && CutsHere(s[Reach(widths)..]);
      WalkKeepsPanic(std, s, widths);
      CutHerePanics(std, s[Reach(widths)..]);
    }
  }

  lemma CutHerePanics(std: Std, s: string)
    requires CutsHere(s)
    ensures LexOf(std, s) == Panics
  {
    hide FirstTok;
    CutPanics(std, s);
  }

  /** So ASCII source never makes the lexer panic. */
  lemma AsciiNeverPanics(std: Std, s: string)
    requires forall i | 0 <= i < |s| :: IsAscii(s[i])
    ensures LexOf(std, s) != Panics
  {
    hide LexOf;
    PanicsExactly(std, s);
  }

  /** Nor does text outside ASCII inside a string that begins the source. */
  lemma QuotedTextIsSafe(std: Std, text: string, rest: string)
    ensures LexOf(std, "\"" + EscapedAll(text) + "\"" + rest) == Panics <==> LexOf(std, rest) == Panics
  {
    hide FirstTok, EscapedAll;
    var t := "\"" + EscapedAll(text) + "\"";
    StringReads(std, text, rest);
    assert (t + rest)[|t|..] == rest && (t + rest)[0] == '"';
    StepKeepsPanic(std, t + rest, |t|);
  }

  /** Every operator character right before a character outside ASCII does, wherever a walk reaches it. */
  lemma OperatorBeforeWideCharPanics(std: Std, s: string, widths: seq<nat>, c: char, wide: char, rest: string)
    requires Walks(std, s, widths) && Reach(widths) <= |s| && s[Reach(widths)..] == [c, wide] + rest
    requires OperatorBranch(c) && IsAscii(c) && !IsAscii(wide)
    ensures LexOf(std, s) == Panics
  {
    hide LexOf, Walks;
    assert CutsHere([c, wide] + rest);
    PanicsExactly(std, s);
  }

  // ---- other spellings -----------------------------------------------------------------------

  /** The reserved words. */
  lemma WordsAre()
    ensures WordTok("true") == WordTok("True") == TBool(true) && WordTok("false") == WordTok("False") == TBool(false)
    ensures WordTok("let") == KLet && WordTok("if") == KIf && WordTok("else") == KElse && WordTok("in") == KIn
    ensures WordTok("and") == KAnd && WordTok("or") == KOr && WordTok("not") == KNot
  {
  }

  /** Every other word is a name. */
  lemma OthersAreNames(w: string)
    ensures w !in ["let", "if", "else", "in", "and", "or", "not", "true", "True", "false", "False"] ==> WordTok(w) == Ident(w)
  {
  }

  /** The characters of text by code point: what is skipped, what a name is made of, and what an escape stands for. */
  lemma CharactersAre(c: char)
    ensures IsBlank(c) <==> c as int in {9, 10, 13, 32}
    ensures IsAlpha(c) <==> 65 <= c as int <= 90 || 97 <= c as int <= 122 || c as int == 95
    ensures IsWord(c) <==> IsAlpha(c) || 48 <= c as int <= 57
    ensures Unescaped(c) as int == if c as int == 110 then 10 else if c as int == 116 then 9
                                   else if c as int == 114 then 13 else c as int
  {
  }

  /** `//` divides as `/` does; no other pair of characters is an operator but the six that are written as one. */
  lemma PairsAre(a: char, b: char)
    ensures TwoCharTok('/', '/') == Some(Slash)
    ensures TwoCharTok(a, b).Some? ==> [a, b] in ["==", "!=", "<=", ">=", "&&", "||", "//"]
    ensures OneCharTok(a).Some? ==> a in "+-*/%<>!()[]{},.=;"
  {
    assert [a, b][0] == a && [a, b][1] == b;
  }

  // ---- how far a token goes ------------------------------------------------------------------

  predicate InNumber(c: char) { c == '.' || '0' <= c <= '9' }

  /** Two points in a run of digits and points from `i` on. */
  ghost predicate TwoPoints(s: string, i: nat, a: nat, b: nat) {
    i <= a < b < |s| && s[a] == '.' && s[b] == '.' && forall k | i <= k <= b :: InNumber(s[k])
  }

  /** A number takes all the digits and points there are, and is malformed exactly when two of them are points. */
  lemma {:induction false} NumberEndIs(s: string, i: nat, a: nat, b: nat)
    requires i <= |s|
    ensures var r := NumberEnd(s, i, false);
            && (r.Some? ==> (forall k | i <= k < r.value :: InNumber(s[k])) && (r.value < |s| ==> !InNumber(s[r.value])))
            && (r.Some? ==> !TwoPoints(s, i, a, b))
    ensures NumberEnd(s, i, true).Some? ==> forall k | i <= k < NumberEnd(s, i, true).value :: InNumber(s[k]) && s[k] != '.'
    ensures var r := NumberEnd(s, i, true); r.Some? && r.value < |s| ==> !InNumber(s[r.value])
    decreases |s| - i
  {
    if i < |s| && InNumber(s[i]) {
      NumberEndIs(s, i + 1, a, b);
    }
  }

  /** A malformed number has two points. */
  lemma {:induction false} MalformedIs(s: string, i: nat, dotted: bool) returns (a: nat, b: nat)
    requires i <= |s| && NumberEnd(s, i, dotted).None?
    ensures i <= b < |s| && s[b] == '.' && forall k | i <= k <= b :: InNumber(s[k])
    ensures !dotted ==> TwoPoints(s, i, a, b)
    decreases |s| - i
  {
    if s[i] == '.' && dotted {
      a, b := i, i;
    } else {
      a, b := MalformedIs(s, i + 1, dotted || s[i] == '.');
      if s[i] == '.' { a := i; }
    }
  }

  /** A word takes all the letters, digits and underscores there are. */
  lemma {:induction false} WordEndIs(s: string, i: nat)
    requires i <= |s|
    ensures var n := WordEnd(s, i); (forall k | i <= k < n :: IsWord(s[k])) && (n < |s| ==> !IsWord(s[n]))
    decreases |s| - i
  {
    if i < |s| && IsWord(s[i]) { WordEndIs(s, i + 1); }
  }
}
