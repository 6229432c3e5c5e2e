/**
 Printing an expression as tokens of either language with parentheses where precedence asks for them, and the
 proof that the parser undoes it. `Level` is how tightly an expression binds, loosest first.
 */
module Printer {
  import opened Values
  import opened Ir
  import opened Parse

  /** The language, with nothing bound. */
  function In(lang: Lang): Cx { Cx(lang, []) }

  /** What a parse can yield while nothing is bound: see `Parse.Progress` for the other inclusion. */
  predicate Printable(e: Expr) { Formed(0, e) }

  type Level = n: nat | n <= 9

  function LevelOf(lang: Lang, e: Expr): Level {
    match e
    case If(_, _, _) => if lang.Python? then 0 else 9
    case Logic(op, _, _) => if op.Or? then 1 else 2
    case Unary(op, _) => if op.Not? then 3 else 7
    case Cmp(_, _, _) => 4
    case Bin(op, _, _) => if op.Add? || op.Sub? then 5 else 6
    case Index(_, _) => 8
    case Call(b, _) => if b.Contains? then 8 else 9
    case _ => 9
  }

  function CmpTok(op: CmpOp): Tok {
    match op
    case Eq => EqEq
    case Ne => NotEq
    case Lt => Less
    case Le => LessEq
    case Gt => Greater
    case Ge => GreaterEq
  }

  function BinTok(op: BinOp): Tok {
    match op
    case Add => Plus
    case Sub => Minus
    case Mul => Star
    case Div => Slash
    case Rem => Percent
  }

  function ConstTok(v: Value): Tok
    requires !v.List?
  {
    match v
    case Int(n) => TInt(n)
    case Float(x) => TFloat(x)
    case Bool(b) => TBool(b)
    case Str(s) => TStr(s)
  }

  function NotTok(lang: Lang): Tok { if lang.Python? then KNot else Bang }

  function AndTok(lang: Lang): Tok { if lang.Python? then KAnd else AndAnd }

  function OrTok(lang: Lang): Tok { if lang.Python? then KOr else OrOr }

  /** `e` where only expressions of level `l` or tighter may stand. */
  function Print(lang: Lang, e: Expr, l: Level): seq<Tok>
    requires Printable(e)
    decreases e, 1
  {
    if LevelOf(lang, e) < l then [LParen] + (Body(lang, e) + [RParen]) else Body(lang, e)
  }

  function Body(lang: Lang, e: Expr): seq<Tok>
    requires Printable(e)
    decreases e, 0
  {
    match e
    case Const(v) => [ConstTok(v)]
    case Var(name) => [Ident(name)]
    case If(c, t, f) =>
      if lang.Python? then Print(lang, t, 1) + ([KIf] + (Print(lang, c, 1) + ([KElse] + Print(lang, f, 0))))
      else [KIf] + (Print(lang, c, 1) + ([LBrace] + (Print(lang, t, 0) + ([RBrace, KElse] + Else(lang, f)))))
    case Logic(op, a, b) =>
      if op.Or? then Print(lang, a, 1) + ([OrTok(lang)] + Print(lang, b, 2))
      else Print(lang, a, 2) + ([AndTok(lang)] + Print(lang, b, 3))
    case Unary(op, a) => if op.Not? then [NotTok(lang)] + Print(lang, a, 3) else [Minus] + Print(lang, a, 7)
    case Cmp(op, a, b) => Print(lang, a, 5) + ([CmpTok(op)] + Print(lang, b, 5))
    case Bin(op, a, b) => Print(lang, a, LevelOf(lang, e)) + ([BinTok(op)] + Print(lang, b, LevelOf(lang, e) + 1))
    case Index(a, i) => Print(lang, a, 8) + ([LBracket] + (Print(lang, i, 0) + [RBracket]))
    case Call(b, args) =>
      if b.Contains? then
        assert AllFormed(0, args);
        Print(lang, args[0], 8) + ([Dot, Ident("contains"), LParen] + (Print(lang, args[1], 0) + [RParen]))
      else [Ident(BuiltinName(b)), LParen] + (PrintAll(lang, args) + [RParen])
    case ListOf(args) => [LBracket] + (PrintAll(lang, args) + [RBracket])
  }

  /** A branch after `else`: another `if` stands there bare, everything else in braces. */
  function Else(lang: Lang, f: Expr): seq<Tok>
    requires Printable(f)
    decreases f, 2
  {
    if f.If? && lang.Rust? then Body(lang, f) else [LBrace] + (Print(lang, f, 0) + [RBrace])
  }

  function PrintAll(lang: Lang, args: seq<Expr>): seq<Tok>
    requires AllFormed(0, args)
    decreases args, 2
  {
    if args == [] then []
    else
      assert Formed(0, args[0]);
      if |args| == 1 then Print(lang, args[0], 0)
      else
        assert AllFormed(0, args[1..]);
        Print(lang, args[0], 0) + ([Comma] + PrintAll(lang, args[1..]))
  }

  // ---- what may follow -----------------------------------------------------------------------

  /** Tokens with which an expression of level `l` would go on. */
  predicate Extends(l: Level, t: Tok) {
    || t.LParen?
    || (l <= 8 && (t.LBracket? || t.Dot?))
    || (l <= 6 && (t.Star? || t.Slash? || t.Percent?))
    || (l <= 5 && (t.Plus? || t.Minus?))
    || (l <= 4 && (t.EqEq? || t.NotEq? || t.Less? || t.LessEq? || t.Greater? || t.GreaterEq? || t.KIn? || t.KNot?))
    || (l <= 2 && (t.KAnd? || t.AndAnd?))
    || (l <= 1 && (t.KOr? || t.OrOr?))
    || (l == 0 && t.KIf?)
  }

  predicate Follow(l: Level, rest: seq<Tok>) { rest == [] || !Extends(l, rest[0]) }

  /** The grammar rule of a level. */
  function ParseAt(lang: Lang, l: Level, ts: seq<Tok>): Parsed<Expr> {
    match l
    case 0 => Conditional(In(lang), ts)
    case 1 => OrExpr(In(lang), ts)
    case 2 => AndExpr(In(lang), ts)
    case 3 => NotExpr(In(lang), ts)
    case 4 => CmpExpr(In(lang), ts)
    case 5 => AddExpr(In(lang), ts)
    case 6 => MulExpr(In(lang), ts)
    case 7 => UnaryExpr(In(lang), ts)
    case 8 => Postfix(In(lang), ts)
    case _ => Primary(In(lang), ts)
  }

  /** The loop of a level, for the levels that associate to the left. */
  predicate Loops(l: Level) { l == 1 || l == 2 || l == 5 || l == 6 || l == 8 }

  function TailAt(lang: Lang, l: Level, left: Expr, ts: seq<Tok>): Parsed<Expr>
    requires Loops(l)
  {
    match l
    case 1 => OrTail(In(lang), left, ts)
    case 2 => AndTail(In(lang), left, ts)
    case 5 => AddTail(In(lang), left, ts)
    case 6 => MulTail(In(lang), left, ts)
    case _ => PostfixTail(In(lang), left, ts)
  }

  /** A rule with a loop is the next rule and then the loop. */
  lemma LoopEnters(lang: Lang, l: Level, ts: seq<Tok>, e: Expr, rest: seq<Tok>)
    requires Loops(l) && ParseAt(lang, l + 1, ts) == Got(e, rest)
    ensures ParseAt(lang, l, ts) == TailAt(lang, l, e, rest)
  {
    hide OrTail, AndTail, AddTail, MulTail, PostfixTail, NotExpr, UnaryExpr, Primary;
  }

  lemma LoopStops(lang: Lang, l: Level, e: Expr, rest: seq<Tok>)
    requires Loops(l) && Follow(l, rest)
    ensures TailAt(lang, l, e, rest) == Got(e, rest)
  {
    hide AndExpr, NotExpr, MulExpr, UnaryExpr, Primary, IndexSuffix, MethodSuffix;
  }

  /** Reading at one level looser, when nothing at that level applies. */
  lemma StepUp(lang: Lang, l: Level, ts: seq<Tok>, e: Expr, rest: seq<Tok>)
    requires l < 9 && ParseAt(lang, l + 1, ts) == Got(e, rest) && Follow(l, rest)
    requires l == 3 ==> !Starts(ts, KNot) && !Starts(ts, Bang)
    requires l == 7 ==> !Starts(ts, Minus)
    ensures ParseAt(lang, l, ts) == Got(e, rest)
  {
    hide OrExpr, AndExpr, CmpExpr, AddExpr, MulExpr, Postfix, Primary, OrTail, AndTail, AddTail, MulTail, PostfixTail;
    if Loops(l) {
      LoopEnters(lang, l, ts, e, rest);
      LoopStops(lang, l, e, rest);
    } else if l == 4 {
      CmpStops(lang, ts, e, rest);
    }
  }

  lemma CmpStops(lang: Lang, ts: seq<Tok>, e: Expr, rest: seq<Tok>)
    requires AddExpr(In(lang), ts) == Got(e, rest) && Follow(4, rest)
    ensures CmpExpr(In(lang), ts) == Got(e, rest)
  {
    hide AddExpr;
  }

  /** A token that starts a primary: no prefix operator. */
  predicate Opens(t: Tok) { !t.KNot? && !t.Bang? && !t.Minus? }

  lemma {:induction false} Climb(lang: Lang, l: Level, ts: seq<Tok>, e: Expr, rest: seq<Tok>)
    requires Primary(In(lang), ts) == Got(e, rest) && Follow(l, rest) && ts != [] && Opens(ts[0])
    ensures ParseAt(lang, l, ts) == Got(e, rest)
    decreases 9 - l
  {
    hide Primary;
    if l < 9 {
      FollowTighter(l, l + 1, rest);
      Climb(lang, l + 1, ts, e, rest);
      StepUp(lang, l, ts, e, rest);
    }
  }

  lemma FollowTighter(l: Level, k: Level, rest: seq<Tok>)
    requires Follow(l, rest) && l <= k
    ensures Follow(k, rest)
  {
  }

  // ---- reading back what was printed ---------------------------------------------------------

  /** The first token of what is printed opens a primary, unless a prefix operator may stand there. */
  lemma {:induction false} FirstToken(lang: Lang, e: Expr, l: Level)
    requires Printable(e)
    ensures Print(lang, e, l) != []
    ensures var t := Print(lang, e, l)[0];
            !t.RParen? && !t.RBracket? && (l > 3 ==> !t.KNot? && !t.Bang?) && (l > 7 ==> !t.Minus?)
    decreases e
  {
    if LevelOf(lang, e) >= l {
      match e
      case If(_, t, _) => if lang.Python? { FirstToken(lang, t, 1); }
      case Logic(op, a, _) => FirstToken(lang, a, if op.Or? then 1 else 2);
      case Cmp(_, a, _) => FirstToken(lang, a, 5);
      case Bin(_, a, _) => FirstToken(lang, a, LevelOf(lang, e));
      case Index(a, _) => FirstToken(lang, a, 8);
      case Call(b, args) =>
        if b.Contains? {
          assert AllFormed(0, args);
          FirstToken(lang, args[0], 8);
        }
      case _ =>
    }
  }

  /** A printed expression is read back at its level, up to the token that may follow it. */
  lemma {:induction false} ReadsBack(lang: Lang, e: Expr, l: Level, rest: seq<Tok>)
    requires Printable(e) && Follow(l, rest)
    ensures ParseAt(lang, l, Print(lang, e, l) + rest) == Got(e, rest)
    decreases e, if LevelOf(lang, e) < l then 20 else LevelOf(lang, e) - l, 1
  {
    hide ParseAt, Body, Follow;
    if LevelOf(lang, e) < l {
      Parenthesised(lang, e, rest);
      Climb(lang, l, Print(lang, e, l) + rest, e, rest);
    } else if LevelOf(lang, e) > l {
      FollowTighter(l, l + 1, rest);
      ReadsBack(lang, e, l + 1, rest);
      FirstToken(lang, e, l + 1);
      StepUp(lang, l, Print(lang, e, l) + rest, e, rest);
    } else if Loops(l) {
      FollowTighter(l, l + 1, rest);
      ReadsLoop(lang, e, l, rest);
      LoopStops(lang, l, e, rest);
    } else if l == 9 {
      ReadsPrimary(lang, e, rest);
    } else {
      ReadsRule(lang, e, rest);
    }
  }

  lemma {:induction false} Parenthesised(lang: Lang, e: Expr, rest: seq<Tok>)
    requires Printable(e)
    ensures Primary(In(lang), ([LParen] + (Body(lang, e) + [RParen])) + rest) == Got(e, rest)
    decreases e, 19
  {
    hide Conditional, Body, LevelOf;
    var ts := ([LParen] + (Body(lang, e) + [RParen])) + rest;
    assert ts == [LParen] + (Body(lang, e) + ([RParen] + rest));
    assert Print(lang, e, 0) == Body(lang, e);
    ReadsBack(lang, e, 0, [RParen] + rest);
    assert ParseAt(lang, 0, Body(lang, e) + ([RParen] + rest)) == Got(e, [RParen] + rest);
    assert ([RParen] + rest)[1..] == rest && ts[1..] == Body(lang, e) + ([RParen] + rest);
  }

  /** What a loop makes of its left operand and one more. */
  function Joined(l: Level, op: Tok, a: Expr, b: Expr): Expr
    requires l == 1 || l == 2 || l == 5 || l == 6
  {
    match l
    case 1 => Logic(Or, a, b)
    case 2 => Logic(And, a, b)
    case 5 => Bin(if op.Plus? then BinOp.Add else BinOp.Sub, a, b)
    case _ => Bin(if op.Star? then BinOp.Mul else if op.Slash? then BinOp.Div else BinOp.Rem, a, b)
  }

  predicate JoinsAt(l: Level, op: Tok) {
    || (l == 1 && (op.KOr? || op.OrOr?))
    || (l == 2 && (op.KAnd? || op.AndAnd?))
    || (l == 5 && (op.Plus? || op.Minus?))
    || (l == 6 && (op.Star? || op.Slash? || op.Percent?))
  }

  lemma LoopTakes(lang: Lang, l: Level, op: Tok, a: Expr, b: Expr, ts: seq<Tok>, rest: seq<Tok>)
    requires JoinsAt(l, op) && ParseAt(lang, l + 1, ts) == Got(b, rest)
    ensures TailAt(lang, l, a, [op] + ts) == TailAt(lang, l, Joined(l, op, a, b), rest)
  {
    hide AndExpr, NotExpr, MulExpr, UnaryExpr;
    assert ([op] + ts)[1..] == ts && ([op] + ts)[0] == op;
  }

  /** The operands and operator of a printed expression that a loop reads. */
  lemma LoopShape(lang: Lang, e: Expr, l: Level) returns (op: Tok, a: Expr, b: Expr)
    requires Printable(e) && LevelOf(lang, e) == l && (l == 1 || l == 2 || l == 5 || l == 6)
    ensures JoinsAt(l, op) && e == Joined(l, op, a, b) && a < e && b < e
    ensures Printable(a) && Printable(b)
    ensures Print(lang, e, l) == Print(lang, a, l) + ([op] + Print(lang, b, l + 1))
    ensures !Extends(l + 1, op)
  {
    if e.Logic? {
      op, a, b := if e.lop.Or? then OrTok(lang) else AndTok(lang), e.l, e.r;
    } else {
      op, a, b := BinTok(e.bop), e.l, e.r;
    }
  }

  /** A loop's rule reads a printed left operand and goes on with its loop. */
  lemma {:induction false} ReadsLoop(lang: Lang, e: Expr, l: Level, rest: seq<Tok>)
    requires Printable(e) && Loops(l) && Follow(l + 1, rest)
    ensures ParseAt(lang, l, Print(lang, e, l) + rest) == TailAt(lang, l, e, rest)
    decreases e, if LevelOf(lang, e) < l then 20 else LevelOf(lang, e) - l, 0
  {
    hide ParseAt, TailAt, Body, Extends, Joined, JoinsAt;
    if LevelOf(lang, e) < l {
      Parenthesised(lang, e, rest);
      Climb(lang, l + 1, Print(lang, e, l) + rest, e, rest);
      LoopEnters(lang, l, Print(lang, e, l) + rest, e, rest);
    } else if LevelOf(lang, e) > l {
      ReadsBack(lang, e, l + 1, rest);
      LoopEnters(lang, l, Print(lang, e, l) + rest, e, rest);
    } else if l == 8 {
      ReadsSuffix(lang, e, rest);
    } else {
      var op, a, b := LoopShape(lang, e, l);
      var right := Print(lang, b, l + 1) + rest;
      assert Print(lang, e, l) + rest == Print(lang, a, l) + ([op] + right);
      ReadsLoop(lang, a, l, [op] + right);
      ReadsBack(lang, b, l + 1, rest);
      LoopTakes(lang, l, op, a, b, right, rest);
    }
  }

  lemma TakesIndex(lang: Lang, a: Expr, i: Expr, ts: seq<Tok>, rest: seq<Tok>)
    requires Conditional(In(lang), ts) == Got(i, [RBracket] + rest)
    ensures PostfixTail(In(lang), a, [LBracket] + ts) == PostfixTail(In(lang), Index(a, i), rest)
  {
    hide Conditional;
    assert ([LBracket] + ts)[1..] == ts && ([RBracket] + rest)[1..] == rest;
    assert IndexSuffix(In(lang), a, ts) == Got(Index(a, i), rest);
  }

  lemma MethodReads(ts: seq<Tok>)
    ensures Method([Ident("contains"), LParen] + ts) == Got("contains", ts)
  {
    var m := [Ident("contains"), LParen] + ts;
    assert m[1..] == [LParen] + ts && m[2..] == ts;
  }

  lemma SuffixReads(lang: Lang, a: Expr, x: Expr, ts: seq<Tok>, rest: seq<Tok>)
    requires Conditional(In(lang), ts) == Got(x, [RParen] + rest)
    ensures MethodSuffix(In(lang), a, [Ident("contains"), LParen] + ts) == Got(Call(Contains, [a, x]), rest)
  {
    hide Conditional, Method;
    MethodReads(ts);
    assert ([RParen] + rest)[1..] == rest;
  }

  lemma TakesMethod(lang: Lang, a: Expr, x: Expr, ts: seq<Tok>, rest: seq<Tok>)
    requires Conditional(In(lang), ts) == Got(x, [RParen] + rest)
    ensures PostfixTail(In(lang), a, [Dot, Ident("contains"), LParen] + ts) ==
            PostfixTail(In(lang), Call(Contains, [a, x]), rest)
  {
    hide Conditional, MethodSuffix;
    var m := [Ident("contains"), LParen] + ts;
    SuffixReads(lang, a, x, ts, rest);
    assert ([Dot, Ident("contains"), LParen] + ts)[1..] == m;
  }

  lemma {:induction false} ReadsSuffix(lang: Lang, e: Expr, rest: seq<Tok>)
    requires Printable(e) && LevelOf(lang, e) == 8
    ensures ParseAt(lang, 8, Print(lang, e, 8) + rest) == TailAt(lang, 8, e, rest)
    decreases e, 0, -1
  {
    hide Postfix, Conditional, PostfixTail, Print;
    if e.Index? {
      var inner := Print(lang, e.r, 0) + ([RBracket] + rest);
      assert Body(lang, e) + rest == Print(lang, e.l, 8) + ([LBracket] + inner);
      PrintLoosely(lang, e);
      ReadsLoop(lang, e.l, 8, [LBracket] + inner);
      ReadsBack(lang, e.r, 0, [RBracket] + rest);
      TakesIndex(lang, e.l, e.r, inner, rest);
    } else {
      var a, x := e.args[0], e.args[1];
      assert AllFormed(0, e.args) && e.args == [a, x];
      var inner := Print(lang, x, 0) + ([RParen] + rest);
      assert Body(lang, e) + rest == Print(lang, a, 8) + ([Dot, Ident("contains"), LParen] + inner);
      PrintLoosely(lang, e);
      ReadsLoop(lang, a, 8, [Dot, Ident("contains"), LParen] + inner);
      ReadsBack(lang, x, 0, [RParen] + rest);
      TakesMethod(lang, a, x, inner, rest);
    }
  }

  lemma PrintLoosely(lang: Lang, e: Expr)
    requires Printable(e) && LevelOf(lang, e) == 8
    ensures Print(lang, e, 8) == Body(lang, e)
  {
  }

  lemma TakesIf(lang: Lang, c: Expr, t: Expr, f: Expr, ts: seq<Tok>, tc: seq<Tok>, tf: seq<Tok>, rest: seq<Tok>)
    requires OrExpr(In(lang), ts) == Got(t, [KIf] + tc)
    requires OrExpr(In(lang), tc) == Got(c, [KElse] + tf)
    requires Conditional(In(lang), tf) == Got(f, rest)
    requires lang.Python?
    ensures Conditional(In(lang), ts) == Got(If(c, t, f), rest)
  {
    hide OrExpr;
    assert ([KIf] + tc)[1..] == tc && ([KElse] + tf)[1..] == tf;
  }

  lemma TakesCmp(lang: Lang, op: CmpOp, a: Expr, b: Expr, ts: seq<Tok>, tb: seq<Tok>, rest: seq<Tok>)
    requires AddExpr(In(lang), ts) == Got(a, [CmpTok(op)] + tb) && AddExpr(In(lang), tb) == Got(b, rest) && Follow(4, rest)
    ensures CmpExpr(In(lang), ts) == Got(Cmp(op, a, b), rest)
  {
    hide AddExpr;
    var after := [CmpTok(op)] + tb;
    assert after[1..] == tb && after[0] == CmpTok(op);
    assert LinkOf(after) == Some(Link.Ordered(op));
    assert LinkOf(rest) == None;
    assert [a] + [b] == [a, b] && [] + [Link.Ordered(op)] == [Link.Ordered(op)];
    assert CmpTail(In(lang), [a, b], [Link.Ordered(op)], rest) == Got(ChainOf([a, b], [Link.Ordered(op)], 1), rest);
  }

  /** The rules that are neither loops nor primaries. */
  lemma {:induction false} ReadsRule(lang: Lang, e: Expr, rest: seq<Tok>)
    requires Printable(e) && Follow(LevelOf(lang, e), rest) && !Loops(LevelOf(lang, e)) && LevelOf(lang, e) != 9
    ensures ParseAt(lang, LevelOf(lang, e), Print(lang, e, LevelOf(lang, e)) + rest) == Got(e, rest)
    decreases e, 0, 0
  {
    hide Print, OrExpr, AddExpr, CmpExpr, Postfix;
    var l := LevelOf(lang, e);
    PrintAtLevel(lang, e);
    if e.If? {
      var tf := Print(lang, e.f, 0) + rest;
      var tc := Print(lang, e.c, 1) + ([KElse] + tf);
      assert Body(lang, e) + rest == Print(lang, e.t, 1) + ([KIf] + tc);
      ReadsBack(lang, e.t, 1, [KIf] + tc);
      ReadsBack(lang, e.c, 1, [KElse] + tf);
      ReadsBack(lang, e.f, 0, rest);
      TakesIf(lang, e.c, e.t, e.f, Body(lang, e) + rest, tc, tf, rest);
    } else if e.Cmp? {
      var tb := Print(lang, e.r, 5) + rest;
      assert Body(lang, e) + rest == Print(lang, e.l, 5) + ([CmpTok(e.cop)] + tb);
      FollowTighter(4, 5, rest);
      ReadsBack(lang, e.l, 5, [CmpTok(e.cop)] + tb);
      ReadsBack(lang, e.r, 5, rest);
      TakesCmp(lang, e.cop, e.l, e.r, Body(lang, e) + rest, tb, rest);
    } else {
      ReadsPrefix(lang, e, rest);
    }
  }

  lemma {:induction false} ReadsPrefix(lang: Lang, e: Expr, rest: seq<Tok>)
    requires Printable(e) && Follow(LevelOf(lang, e), rest) && e.Unary?
    ensures ParseAt(lang, LevelOf(lang, e), Body(lang, e) + rest) == Got(e, rest)
    decreases e, 0, -1
  {
    hide Print, CmpExpr, Postfix;
    var l := LevelOf(lang, e);
    var op := if e.uop.Not? then NotTok(lang) else Minus;
    var ts := Body(lang, e) + rest;
    assert ts == [op] + (Print(lang, e.a, l) + rest);
    assert ts[0] == op && ts[1..] == Print(lang, e.a, l) + rest;
    ReadsBack(lang, e.a, l, rest);
  }

  lemma PrintAtLevel(lang: Lang, e: Expr)
    requires Printable(e)
    ensures Print(lang, e, LevelOf(lang, e)) == Body(lang, e)
  {
  }

  lemma NamesReadBack(b: Builtin)
    requires b != Contains
    ensures BuiltinFrom(BuiltinName(b)) == Some(b)
  {
  }

  lemma TakesList(lang: Lang, args: seq<Expr>, ts: seq<Tok>, rest: seq<Tok>)
    requires if args == [] then ts == [RBracket] + rest
             else !Starts(ts, RBracket) && Items(In(lang), [], ts) == Got(args, [RBracket] + rest)
    ensures Primary(In(lang), [LBracket] + ts) == Got(ListOf(args), rest)
  {
    hide Items;
    assert ([LBracket] + ts)[1..] == ts && ([RBracket] + rest)[1..] == rest;
  }

  lemma TakesCall(lang: Lang, b: Builtin, args: seq<Expr>, ts: seq<Tok>, rest: seq<Tok>)
    requires b != Contains
    requires if args == [] then ts == [RParen] + rest
             else !Starts(ts, RParen) && Args(In(lang), [], ts) == Got(args, [RParen] + rest)
    ensures Primary(In(lang), [Ident(BuiltinName(b)), LParen] + ts) == Got(Call(b, args), rest)
  {
    hide Args, BuiltinName, BuiltinFrom;
    NamesReadBack(b);
    var all := [Ident(BuiltinName(b)), LParen] + ts;
    assert all[1..] == [LParen] + ts && all[1..][1..] == ts && ([RParen] + rest)[1..] == rest;
    assert FunctionCall(In(lang), BuiltinName(b), ts) == Got(Call(b, args), rest);
  }

  /** Constants, names, calls and lists. */
  lemma {:induction false} ReadsPrimary(lang: Lang, e: Expr, rest: seq<Tok>)
    requires Printable(e) && Follow(9, rest) && LevelOf(lang, e) == 9
    ensures ParseAt(lang, 9, Print(lang, e, 9) + rest) == Got(e, rest)
    decreases e, 0, 0
  {
    hide Print, FunctionCall, Items, Conditional, PrintAll;
    PrintAtLevel(lang, e);
    if e.ListOf? || e.Call? {
      ReadsSequence(lang, e, rest);
    } else if e.If? {
      ReadsRustIf(e, rest);
    } else {
      var ts := Body(lang, e) + rest;
      assert ts[1..] == rest;
    }
  }

  /** The two branches of a Rust-mode `if` are read in order. */
  lemma {:induction false} ReadsRustIf(e: Expr, rest: seq<Tok>)
    requires Printable(e) && e.If?
    ensures Primary(In(Rust), Body(Rust, e) + rest) == Got(e, rest)
    decreases e, 0, -1
  {
    hide Primary, RustIf;
    var ts := AfterIf(e) + rest;
    IfBody(e);
    assert Body(Rust, e) + rest == [KIf] + ts;
    ReadsAfterIf(e, rest);
    PrimaryIf(ts);
  }

  /** A Rust-mode `if` without its keyword. */
  function AfterIf(e: Expr): seq<Tok>
    requires Printable(e) && e.If?
  {
    Print(Rust, e.c, 1) + ([LBrace] + (Print(Rust, e.t, 0) + ([RBrace, KElse] + Else(Rust, e.f))))
  }

  lemma IfBody(e: Expr)
    requires Printable(e) && e.If?
    ensures Body(Rust, e) == [KIf] + AfterIf(e)
  {
  }

  lemma PrimaryIf(ts: seq<Tok>)
    ensures Primary(In(Rust), [KIf] + ts) == RustIf(In(Rust), ts)
  {
    hide RustIf;
    assert ([KIf] + ts)[1..] == ts;
  }

  lemma {:induction false} ReadsAfterIf(e: Expr, rest: seq<Tok>)
    requires Printable(e) && e.If?
    ensures RustIf(In(Rust), AfterIf(e) + rest) == Got(e, rest)
    decreases e, -1
  {
    hide Print, Else, OrExpr, Conditional, RustIf, ElseBranch;
    var tf := Else(Rust, e.f) + rest;
    var tt := Print(Rust, e.t, 0) + ([RBrace, KElse] + tf);
    assert AfterIf(e) + rest == Print(Rust, e.c, 1) + ([LBrace] + tt);
    ReadsBack(Rust, e.c, 1, [LBrace] + tt);
    assert [RBrace, KElse] + tf == [RBrace] + ([KElse] + tf);
    ReadsBack(Rust, e.t, 0, [RBrace, KElse] + tf);
    ReadsElse(e.f, rest);
    TakesRustIf(e.c, e.t, e.f, AfterIf(e) + rest, tt, tf, rest);
  }

  lemma {:induction false} ReadsElse(f: Expr, rest: seq<Tok>)
    requires Printable(f)
    ensures ElseBranch(In(Rust), Else(Rust, f) + rest) == Got(f, rest)
    decreases f, 30
  {
    hide Print, Body, Conditional, RustIf;
    var ts := Else(Rust, f) + rest;
    if f.If? {
      IfBody(f);
      assert ts == [KIf] + (AfterIf(f) + rest);
      assert ts[1..] == AfterIf(f) + rest;
      ReadsAfterIf(f, rest);
    } else {
      assert ts == [LBrace] + (Print(Rust, f, 0) + ([RBrace] + rest));
      assert ts[1..] == Print(Rust, f, 0) + ([RBrace] + rest) && ([RBrace] + rest)[1..] == rest;
      ReadsBack(Rust, f, 0, [RBrace] + rest);
      assert ParseAt(Rust, 0, ts[1..]) == Conditional(In(Rust), ts[1..]);
    }
  }

  lemma TakesRustIf(c: Expr, t: Expr, f: Expr, ts: seq<Tok>, tt: seq<Tok>, tf: seq<Tok>, rest: seq<Tok>)
    requires OrExpr(In(Rust), ts) == Got(c, [LBrace] + tt)
    requires Conditional(In(Rust), tt) == Got(t, [RBrace, KElse] + tf)
    requires ElseBranch(In(Rust), tf) == Got(f, rest)
    ensures RustIf(In(Rust), ts) == Got(If(c, t, f), rest)
  {
    hide OrExpr, Conditional, ElseBranch;
    assert ([LBrace] + tt)[1..] == tt;
    assert ([RBrace, KElse] + tf)[1..] == [KElse] + tf && ([KElse] + tf)[1..] == tf;
  }

  lemma BodyOfSequence(lang: Lang, e: Expr)
    requires Printable(e) && LevelOf(lang, e) == 9 && (e.ListOf? || e.Call?)
    ensures AllFormed(0, e.args) && (e.Call? ==> e.b != Contains)
    ensures Body(lang, e) == if e.ListOf? then [LBracket] + PrintAll(lang, e.args) + [RBracket]
                             else [Ident(BuiltinName(e.b)), LParen] + PrintAll(lang, e.args) + [RParen]
  {
    hide Print, PrintAll, BuiltinName;
  }

  lemma {:induction false} ReadsSequence(lang: Lang, e: Expr, rest: seq<Tok>)
    requires Printable(e) && LevelOf(lang, e) == 9 && (e.ListOf? || e.Call?)
    ensures Primary(In(lang), Body(lang, e) + rest) == Got(e, rest)
    decreases e, 0, -1
  {
    hide Print, Primary, Args, Items, Conditional, PrintAll, Body;
    BodyOfSequence(lang, e);
    var close := if e.ListOf? then RBracket else RParen;
    var ts := PrintAll(lang, e.args) + ([close] + rest);
    if e.args == [] {
      PrintNone(lang);
      assert ts == [close] + rest;
    } else {
      PrintAllStart(lang, e.args);
      ReadsAll(lang, e.args, [], close, rest);
      assert [] + e.args == e.args;
    }
    if e.ListOf? {
      assert Body(lang, e) + rest == [LBracket] + ts;
      TakesList(lang, e.args, ts, rest);
    } else {
      assert Body(lang, e) + rest == [Ident(BuiltinName(e.b)), LParen] + ts;
      TakesCall(lang, e.b, e.args, ts, rest);
    }
  }

  lemma PrintNone(lang: Lang)
    ensures PrintAll(lang, []) == []
  {
  }

  lemma PrintAllStart(lang: Lang, args: seq<Expr>)
    requires args != [] && AllFormed(0, args)
    ensures PrintAll(lang, args) != [] && !PrintAll(lang, args)[0].RParen? && !PrintAll(lang, args)[0].RBracket?
  {
    hide Print, Formed;
    assert Formed(0, args[0]);
    FirstToken(lang, args[0], 0);
  }

  /** Printed items are read back in order, up to the closing token. */
  lemma {:induction false} ReadsAll(lang: Lang, args: seq<Expr>, done: seq<Expr>, close: Tok, rest: seq<Tok>)
    requires args != [] && AllFormed(0, args) && (close.RBracket? || close.RParen?)
    ensures var ts := PrintAll(lang, args) + ([close] + rest);
            if close.RBracket? then Items(In(lang), done, ts) == Got(done + args, [close] + rest)
            else Args(In(lang), done, ts) == Got(done + args, [close] + rest)
    decreases args, 0
  {
    hide Print, Conditional, Formed;
    assert Formed(0, args[0]);
    var head := Print(lang, args[0], 0);
    if |args| == 1 {
      ReadsBack(lang, args[0], 0, [close] + rest);
      assert args == [args[0]];
    } else {
      assert AllFormed(0, args[1..]);
      var after := PrintAll(lang, args[1..]) + ([close] + rest);
      assert PrintAll(lang, args) + ([close] + rest) == head + ([Comma] + after);
      ReadsBack(lang, args[0], 0, [Comma] + after);
      PrintAllStart(lang, args[1..]);
      ReadsAll(lang, args[1..], done + [args[0]], close, rest);
      assert ([Comma] + after)[1..] == after && done + [args[0]] + args[1..] == done + args;
    }
  }

  // ---- main results --------------------------------------------------------------------------

  /** Printing and parsing again gives back every expression the parser can yield. */
  lemma PrintThenParse(e: Expr)
    requires Printable(e)
    ensures ParseProgram(Python, Print(Python, e, 0)) == Got(Program([], e, 0), [])
  {
    hide Print, Conditional;
    ReadsBack(Python, e, 0, []);
    assert Print(Python, e, 0) + [] == Print(Python, e, 0);
  }

  /** The other inclusion: whatever a Python-mode parse yields can be printed. */
  lemma ParsedIsPrintable(ts: seq<Tok>)
    requires ParseProgram(Python, ts).Got?
    ensures var p := ParseProgram(Python, ts).v; p.body == [] && p.nLocals == 0 && Printable(p.ret)
  {
    hide Conditional, Formed;
  }

  /** Parsing, printing and parsing again changes nothing. */
  lemma ReparseIsStable(ts: seq<Tok>)
    requires ParseProgram(Python, ts).Got?
    ensures var p := ParseProgram(Python, ts).v;
            Printable(p.ret) && ParseProgram(Python, Print(Python, p.ret, 0)) == Got(p, [])
  {
    hide ParseProgram, Print;
    ParsedIsPrintable(ts);
    PrintThenParse(ParseProgram(Python, ts).v.ret);
  }

  // ---- what else is accepted, and what is not ------------------------------------------------

  lemma LastItem(lang: Lang, done: seq<Expr>, e: Expr, ts: seq<Tok>, rest: seq<Tok>)
    requires Conditional(In(lang), ts) == Got(e, [Comma, RBracket] + rest)
    ensures Items(In(lang), done, ts) == Got(done + [e], [RBracket] + rest)
  {
    hide Conditional;
    assert ([Comma, RBracket] + rest)[1..] == [RBracket] + rest;
  }

  lemma NextItem(lang: Lang, done: seq<Expr>, e: Expr, ts: seq<Tok>, after: seq<Tok>)
    requires Conditional(In(lang), ts) == Got(e, [Comma] + after) && !Starts(after, RBracket)
    ensures Items(In(lang), done, ts) == Items(In(lang), done + [e], after)
  {
    hide Conditional;
    assert ([Comma] + after)[1..] == after;
  }

  lemma FirstAndRest(args: seq<Expr>)
    requires args != [] && AllFormed(0, args)
    ensures Printable(args[0]) && AllFormed(0, args[1..])
  {
    assert Formed(0, args[0]);
  }

  lemma ReadsFirst(lang: Lang, args: seq<Expr>, tail: seq<Tok>)
    requires args != [] && Printable(args[0]) && Starts(tail, Comma)
    ensures Conditional(In(lang), Print(lang, args[0], 0) + tail) == Got(args[0], tail)
  {
    hide Print, Conditional, Formed;
    ReadsBack(lang, args[0], 0, tail);
  }

  /** Items with a comma behind the last are the same items. */
  lemma {:induction false} ReadsTrailing(lang: Lang, args: seq<Expr>, done: seq<Expr>, rest: seq<Tok>)
    requires args != [] && AllFormed(0, args)
    ensures var ts := PrintAll(lang, args) + ([Comma, RBracket] + rest);
            Items(In(lang), done, ts) == Got(done + args, [RBracket] + rest)
    decreases args
  {
    hide Print, Conditional, AllFormed, Items, Printable;
    FirstAndRest(args);
    var ts := PrintAll(lang, args) + ([Comma, RBracket] + rest);
    if |args| == 1 {
      ReadsFirst(lang, args, [Comma, RBracket] + rest);
      assert args == [args[0]];
      LastItem(lang, done, args[0], ts, rest);
    } else {
      var after := PrintAll(lang, args[1..]) + ([Comma, RBracket] + rest);
      assert ts == Print(lang, args[0], 0) + ([Comma] + after);
      ReadsFirst(lang, args, [Comma] + after);
      PrintAllStart(lang, args[1..]);
      NextItem(lang, done, args[0], ts, after);
      ReadsTrailing(lang, args[1..], done + [args[0]], rest);
      assert done + [args[0]] + args[1..] == done + args;
    }
  }

  /** So a list may end in a comma. */
  lemma TrailingComma(lang: Lang, args: seq<Expr>, rest: seq<Tok>)
    requires args != [] && AllFormed(0, args)
    ensures Primary(In(lang), [LBracket] + (PrintAll(lang, args) + ([Comma, RBracket] + rest))) == Got(ListOf(args), rest)
  {
    hide Items, Print, Formed, PrintAll;
    PrintAllStart(lang, args);
    ReadsTrailing(lang, args, [], rest);
    assert [] + args == args;
    TakesList(lang, args, PrintAll(lang, args) + ([Comma, RBracket] + rest), rest);
  }

  /** A program may end in one semicolon, and in nothing else. */
  lemma NothingAfter(e: Expr, more: seq<Tok>)
    requires Printable(e) && more != []
    ensures ParseProgram(Python, Print(Python, e, 0) + [Semi]) == Got(Program([], e, 0), [])
    ensures ParseProgram(Python, Print(Python, e, 0) + ([Semi] + more)) == Fail(Trailing)
  {
    hide Print, Conditional;
    ReadsBack(Python, e, 0, [Semi]);
    ReadsBack(Python, e, 0, [Semi] + more);
    assert ([Semi] + more)[1..] == more;
  }

  /** The only calls are of the 26 functions by their own names, and the only method is `contains`. */
  lemma OnlyTheseCalls(cx: Cx, name: string, left: Expr, ts: seq<Tok>)
    ensures var r := FunctionCall(cx, name, ts); r.Got? ==> r.v.Call? && r.v.b != Contains && BuiltinName(r.v.b) == name
    ensures var r := MethodSuffix(cx, left, ts);
            r.Got? ==> ts[0] == Ident("contains") && r.v.Call? && r.v.b == Contains && |r.v.args| == 2 && r.v.args[0] == left
    ensures cx.lang.Python? ==> Primary(cx, [KIf] + ts).Fail?
  {
    hide Args, Conditional, BuiltinName, BuiltinFrom;
    if BuiltinFrom(name).Some? { NameOfBuiltin(name); }
  }

  lemma NameOfBuiltin(name: string)
    requires BuiltinFrom(name).Some?
    ensures BuiltinName(BuiltinFrom(name).value) == name
  {
  }
}
