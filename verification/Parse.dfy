/**
 The recursive-descent parser. Each grammar rule is a function from the tokens that remain to an
 expression and the tokens after it; the class `Parser` is the parser as it runs over a token list.
 */
module Parse {
  import opened Values
  import opened Ir

  datatype Lang = Python | Rust

  datatype Tok =
    | TInt(n: i64) | TFloat(x: F64) | TBool(b: bool) | TStr(s: string) | Ident(name: string)
    | KLet | KIf | KElse | KIn | KAnd | KOr | KNot
    | Plus | Minus | Star | Slash | Percent
    | EqEq | NotEq | Less | LessEq | Greater | GreaterEq
    | AndAnd | OrOr | Bang
    | LParen | RParen | LBracket | RBracket | LBrace | RBrace
    | Comma | Dot | Assign | Semi

  datatype ParseError =
    | Expected(t: Tok)
    | ExpectedName
    | Trailing
    | Unexpected(t: Tok)
    | UnexpectedEnd
    | ForbiddenMethod
    | ForbiddenFunction(name: string)

  datatype Parsed<+T> = Got(v: T, rest: seq<Tok>) | Fail(err: ParseError)

  /** The language, and the names bound by the `let`s so far, oldest first. */
  datatype Cx = Cx(lang: Lang, scope: seq<string>)

  const U16: nat := 0x1_0000

  function Head(ts: seq<Tok>): Option<Tok> { if ts == [] then None else Some(ts[0]) }

  predicate Starts(ts: seq<Tok>, t: Tok) { ts != [] && ts[0] == t }

  /** The last binding of a name, or the number of bindings if there is none. */
  function LastBinding(scope: seq<string>, name: string): (k: nat)
    ensures k <= |scope| && (k < |scope| ==> scope[k] == name)
    ensures forall i | 0 <= i < |scope| && (k == |scope| || k < i) :: scope[i] != name
  {
    if scope == [] then 0
    else if scope[|scope| - 1] == name then |scope| - 1
    else
      var k := LastBinding(scope[..|scope| - 1], name);
      if k == |scope| - 1 then |scope| else k
  }

  /** Slots are 16-bit numbers given out in order. */
  function Resolve(scope: seq<string>, name: string): Expr {
    var k := LastBinding(scope, name);
    if k == |scope| then Var(name) else Local(k % U16)
  }

  /** Expressions a parse can yield: no list constants, two operands to `contains`, bound slots only. */
  predicate Formed(n: nat, e: Expr)
    decreases e, 1
  {
    match e
    case Const(v) => !v.List?
    case Var(_) => true
    case Local(i) => i < n
    case Bin(_, a, b) => Formed(n, a) && Formed(n, b)
    case Cmp(_, a, b) => Formed(n, a) && Formed(n, b)
    case Logic(_, a, b) => Formed(n, a) && Formed(n, b)
    case Unary(_, a) => Formed(n, a)
    case Index(a, b) => Formed(n, a) && Formed(n, b)
    case If(c, t, f) => Formed(n, c) && Formed(n, t) && Formed(n, f)
    case Call(b, args) => (b == Contains ==> |args| == 2) && AllFormed(n, args)
    case ListOf(args) => AllFormed(n, args)
  }

  predicate AllFormed(n: nat, args: seq<Expr>)
    decreases args, 0
  {
    forall i | 0 <= i < |args| :: Formed(n, args[i])
  }

  function Expect(r: Parsed<Expr>, t: Tok): (p: Parsed<Expr>)
    ensures p.Got? ==> r.Got? && p.v == r.v && |p.rest| < |r.rest|
  {
    if r.Fail? then r else if Starts(r.rest, t) then Got(r.v, r.rest[1..]) else Fail(Expected(t))
  }

  // ---- the grammar ---------------------------------------------------------------------------

  ghost predicate Progress(cx: Cx, ts: seq<Tok>, r: Parsed<Expr>) {
    r.Got? ==> |r.rest| < |ts| && Formed(|cx.scope|, r.v)
  }

  ghost predicate Kept(cx: Cx, ts: seq<Tok>, left: Expr, r: Parsed<Expr>) {
    Formed(|cx.scope|, left) ==> r.Got? ==> |r.rest| <= |ts| && Formed(|cx.scope|, r.v)
  }

  function Conditional(cx: Cx, ts: seq<Tok>): (r: Parsed<Expr>)
    ensures Progress(cx, ts, r)
    decreases |ts|, 20
  {
    var e := OrExpr(cx, ts);
    if e.Fail? || cx.lang.Rust? || !Starts(e.rest, KIf) then e
    else
      var test := Expect(OrExpr(cx, e.rest[1..]), KElse);
      if test.Fail? then test
      else
        var other := Conditional(cx, test.rest);
        if other.Fail? then other else Got(If(test.v, e.v, other.v), other.rest)
  }

  function OrExpr(cx: Cx, ts: seq<Tok>): (r: Parsed<Expr>)
    ensures Progress(cx, ts, r)
    decreases |ts|, 19
  {
    var a := AndExpr(cx, ts);
    if a.Fail? then a else OrTail(cx, a.v, a.rest)
  }

  function OrTail(cx: Cx, left: Expr, ts: seq<Tok>): (r: Parsed<Expr>)
    ensures Kept(cx, ts, left, r)
    decreases |ts|, 19
  {
    if Starts(ts, KOr) || Starts(ts, OrOr) then
      var b := AndExpr(cx, ts[1..]);
      if b.Fail? then b else OrTail(cx, Logic(Or, left, b.v), b.rest)
    else Got(left, ts)
  }

  function AndExpr(cx: Cx, ts: seq<Tok>): (r: Parsed<Expr>)
    ensures Progress(cx, ts, r)
    decreases |ts|, 18
  {
    var a := NotExpr(cx, ts);
    if a.Fail? then a else AndTail(cx, a.v, a.rest)
  }

  function AndTail(cx: Cx, left: Expr, ts: seq<Tok>): (r: Parsed<Expr>)
    ensures Kept(cx, ts, left, r)
    decreases |ts|, 18
  {
    if Starts(ts, KAnd) || Starts(ts, AndAnd) then
      var b := NotExpr(cx, ts[1..]);
      if b.Fail? then b else AndTail(cx, Logic(And, left, b.v), b.rest)
    else Got(left, ts)
  }

  function NotExpr(cx: Cx, ts: seq<Tok>): (r: Parsed<Expr>)
    ensures Progress(cx, ts, r)
    decreases |ts|, 17
  {
    if Starts(ts, KNot) || Starts(ts, Bang) then
      var a := NotExpr(cx, ts[1..]);
      if a.Fail? then a else Got(Unary(Not, a.v), a.rest)
    else CmpExpr(cx, ts)
  }

  /** A link of a comparison chain. */
  datatype Link = Ordered(op: CmpOp) | InList | NotInList

  /** The comparison at the front of the tokens, if any, and how many tokens it takes. */
  function LinkOf(ts: seq<Tok>): Option<Link> {
    if ts == [] then None
    else
      match ts[0]
      case EqEq => Some(Ordered(Eq))
      case NotEq => Some(Ordered(Ne))
      case Less => Some(Ordered(Lt))
      case LessEq => Some(Ordered(Le))
      case Greater => Some(Ordered(Gt))
      case GreaterEq => Some(Ordered(Ge))
      case KIn => Some(InList)
      case KNot => if Starts(ts[1..], KIn) then Some(NotInList) else None
      case _ => None
  }

  function LinkWidth(k: Link): nat { if k.NotInList? then 2 else 1 }

  function LinkTerm(k: Link, lhs: Expr, rhs: Expr): Expr {
    match k
    case Ordered(op) => Cmp(op, lhs, rhs)
    case InList => Call(Contains, [rhs, lhs])
    case NotInList => Unary(Not, Call(Contains, [rhs, lhs]))
  }

  /** The conjunction of the first `n` links; inner operands are repeated. */
  function ChainOf(operands: seq<Expr>, links: seq<Link>, n: nat): Expr
    requires 1 <= n <= |links| && |operands| == |links| + 1
  {
    var t := LinkTerm(links[n - 1], operands[n - 1], operands[n]);
    if n == 1 then t else Logic(And, ChainOf(operands, links, n - 1), t)
  }

  lemma {:induction false} ChainFormed(s: nat, operands: seq<Expr>, links: seq<Link>, n: nat)
    requires 1 <= n <= |links| && |operands| == |links| + 1 && AllFormed(s, operands)
    ensures Formed(s, ChainOf(operands, links, n))
  {
    var k, a, b := links[n - 1], operands[n - 1], operands[n];
    assert AllFormed(s, [b, a]);
    assert Formed(s, Call(Contains, [b, a]));
    assert Formed(s, LinkTerm(k, a, b));
    if n > 1 { ChainFormed(s, operands, links, n - 1); }
  }

  function CmpExpr(cx: Cx, ts: seq<Tok>): (r: Parsed<Expr>)
    ensures Progress(cx, ts, r)
    decreases |ts|, 16
  {
    var a := AddExpr(cx, ts);
    if a.Fail? then a else CmpTail(cx, [a.v], [], a.rest)
  }

  function CmpTail(cx: Cx, operands: seq<Expr>, links: seq<Link>, ts: seq<Tok>): (r: Parsed<Expr>)
    requires |operands| == |links| + 1
    ensures AllFormed(|cx.scope|, operands) ==> r.Got? ==> |r.rest| <= |ts| && Formed(|cx.scope|, r.v)
    decreases |ts|, 16
  {
    var k := LinkOf(ts);
    if k.Some? then
      var b := AddExpr(cx, ts[LinkWidth(k.value)..]);
      if b.Fail? then b else CmpTail(cx, operands + [b.v], links + [k.value], b.rest)
    else if links == [] then Got(operands[0], ts)
    else
      var e := ChainOf(operands, links, |links|);
      assert AllFormed(|cx.scope|, operands) ==> Formed(|cx.scope|, e) by {
        if AllFormed(|cx.scope|, operands) { ChainFormed(|cx.scope|, operands, links, |links|); }
      }
      Got(e, ts)
  }

  function AddOp(t: Option<Tok>): Option<BinOp> {
    if t == Some(Plus) then Some(BinOp.Add) else if t == Some(Minus) then Some(BinOp.Sub) else None
  }

  function MulOp(t: Option<Tok>): Option<BinOp> {
    if t == Some(Star) then Some(BinOp.Mul)
    else if t == Some(Slash) then Some(BinOp.Div)
    else if t == Some(Percent) then Some(BinOp.Rem)
    else None
  }

  function AddExpr(cx: Cx, ts: seq<Tok>): (r: Parsed<Expr>)
    ensures Progress(cx, ts, r)
    decreases |ts|, 15
  {
    var a := MulExpr(cx, ts);
    if a.Fail? then a else AddTail(cx, a.v, a.rest)
  }

  function AddTail(cx: Cx, left: Expr, ts: seq<Tok>): (r: Parsed<Expr>)
    ensures Kept(cx, ts, left, r)
    decreases |ts|, 15
  {
    var op := AddOp(Head(ts));
    if op.Some? then
      var b := MulExpr(cx, ts[1..]);
      if b.Fail? then b else AddTail(cx, Bin(op.value, left, b.v), b.rest)
    else Got(left, ts)
  }

  function MulExpr(cx: Cx, ts: seq<Tok>): (r: Parsed<Expr>)
    ensures Progress(cx, ts, r)
    decreases |ts|, 14
  {
    var a := UnaryExpr(cx, ts);
    if a.Fail? then a else MulTail(cx, a.v, a.rest)
  }

  function MulTail(cx: Cx, left: Expr, ts: seq<Tok>): (r: Parsed<Expr>)
    ensures Kept(cx, ts, left, r)
    decreases |ts|, 14
  {
    var op := MulOp(Head(ts));
    if op.Some? then
      var b := UnaryExpr(cx, ts[1..]);
      if b.Fail? then b else MulTail(cx, Bin(op.value, left, b.v), b.rest)
    else Got(left, ts)
  }

  function UnaryExpr(cx: Cx, ts: seq<Tok>): (r: Parsed<Expr>)
    ensures Progress(cx, ts, r)
    decreases |ts|, 13
  {
    if Starts(ts, Minus) then
      var a := UnaryExpr(cx, ts[1..]);
      if a.Fail? then a else Got(Unary(Neg, a.v), a.rest)
    else Postfix(cx, ts)
  }

  function Postfix(cx: Cx, ts: seq<Tok>): (r: Parsed<Expr>)
    ensures Progress(cx, ts, r)
    decreases |ts|, 12
  {
    var a := Primary(cx, ts);
    if a.Fail? then a else PostfixTail(cx, a.v, a.rest)
  }

  function PostfixTail(cx: Cx, left: Expr, ts: seq<Tok>): (r: Parsed<Expr>)
    ensures Kept(cx, ts, left, r)
    decreases |ts|, 12
  {
    if Starts(ts, LBracket) then
      var e := IndexSuffix(cx, left, ts[1..]);
      if e.Fail? then e else PostfixTail(cx, e.v, e.rest)
    else if Starts(ts, Dot) then
      var e := MethodSuffix(cx, left, ts[1..]);
      if e.Fail? then e else PostfixTail(cx, e.v, e.rest)
    else Got(left, ts)
  }

  function IndexSuffix(cx: Cx, left: Expr, ts: seq<Tok>): (r: Parsed<Expr>)
    ensures r.Got? ==> |r.rest| < |ts| && (Formed(|cx.scope|, left) ==> Formed(|cx.scope|, r.v))
    decreases |ts|, 21
  {
    var i := Expect(Conditional(cx, ts), RBracket);
    if i.Fail? then i else Got(Index(left, i.v), i.rest)
  }

  function MethodSuffix(cx: Cx, left: Expr, ts: seq<Tok>): (r: Parsed<Expr>)
    ensures r.Got? ==> |r.rest| < |ts| && (Formed(|cx.scope|, left) ==> Formed(|cx.scope|, r.v))
    decreases |ts|, 21
  {
    var m := Method(ts);
    if m.Fail? then Fail(m.err)
    else
      var x := Expect(Conditional(cx, m.rest), RParen);
      if x.Fail? then x else Got(Call(Contains, [left, x.v]), x.rest)
  }

  /** After the dot: the one method name that is allowed, and its opening parenthesis. */
  function Method(ts: seq<Tok>): (r: Parsed<string>)
    ensures r.Got? ==> |r.rest| < |ts|
  {
    if ts == [] || !ts[0].Ident? || ts[0].name != "contains" then Fail(ForbiddenMethod)
    else if !Starts(ts[1..], LParen) then Fail(Expected(LParen))
    else Got(ts[0].name, ts[2..])
  }

  function Primary(cx: Cx, ts: seq<Tok>): (r: Parsed<Expr>)
    ensures Progress(cx, ts, r)
    decreases |ts|, 11
  {
    if ts == [] then Fail(UnexpectedEnd)
    else
      var rest := ts[1..];
      match ts[0]
      case TInt(n) => Got(Const(Int(n)), rest)
      case TFloat(x) => Got(Const(Float(x)), rest)
      case TBool(b) => Got(Const(Bool(b)), rest)
      case TStr(s) => Got(Const(Str(s)), rest)
      case LParen => Expect(Conditional(cx, rest), RParen)
      case LBracket =>
        var items := if Starts(rest, RBracket) then Got([], rest) else Items(cx, [], rest);
        if items.Fail? then Fail(items.err)
        else if Starts(items.rest, RBracket) then Got(ListOf(items.v), items.rest[1..])
        else Fail(Expected(RBracket))
      case Ident(name) =>
        if Starts(rest, LParen) then FunctionCall(cx, name, rest[1..])
        else Got(Resolve(cx.scope, name), rest)
      case KIf => if cx.lang.Rust? then RustIf(cx, rest) else Fail(Unexpected(KIf))
      case t => Fail(Unexpected(t))
  }

  function FunctionCall(cx: Cx, name: string, ts: seq<Tok>): (r: Parsed<Expr>)
    ensures r.Got? ==> |r.rest| < |ts| && Formed(|cx.scope|, r.v)
    decreases |ts|, 22
  {
    var args := if Starts(ts, RParen) then Got([], ts) else Args(cx, [], ts);
    if args.Fail? then Fail(args.err)
    else if !Starts(args.rest, RParen) then Fail(Expected(RParen))
    else
      var b := BuiltinFrom(name);
      if b.None? then Fail(ForbiddenFunction(name)) else Got(Call(b.value, args.v), args.rest[1..])
  }

  /** List items, with an optional trailing comma. */
  function Items(cx: Cx, done: seq<Expr>, ts: seq<Tok>): (r: Parsed<seq<Expr>>)
    ensures AllFormed(|cx.scope|, done) ==> r.Got? ==> |r.rest| < |ts| && AllFormed(|cx.scope|, r.v)
    decreases |ts|, 21
  {
    var e := Conditional(cx, ts);
    if e.Fail? then Fail(e.err)
    else if !Starts(e.rest, Comma) then Got(done + [e.v], e.rest)
    else if Starts(e.rest[1..], RBracket) then Got(done + [e.v], e.rest[1..])
    else Items(cx, done + [e.v], e.rest[1..])
  }

  /** Call arguments. */
  function Args(cx: Cx, done: seq<Expr>, ts: seq<Tok>): (r: Parsed<seq<Expr>>)
    ensures AllFormed(|cx.scope|, done) ==> r.Got? ==> |r.rest| < |ts| && AllFormed(|cx.scope|, r.v)
    decreases |ts|, 21
  {
    var e := Conditional(cx, ts);
    if e.Fail? then Fail(e.err)
    else if !Starts(e.rest, Comma) then Got(done + [e.v], e.rest)
    else Args(cx, done + [e.v], e.rest[1..])
  }

  /** After `if`: a condition, a braced branch, `else`, and a branch or another `if`. */
  function RustIf(cx: Cx, ts: seq<Tok>): (r: Parsed<Expr>)
    ensures Progress(cx, ts, r)
    decreases |ts|, 23
  {
    var c := Expect(OrExpr(cx, ts), LBrace);
    if c.Fail? then c
    else
      var t := ThenBranch(cx, c.rest);
      if t.Fail? then t
      else
        var f := ElseBranch(cx, t.rest);
        if f.Fail? then f else Got(If(c.v, t.v, f.v), f.rest)
  }

  function ElseBranch(cx: Cx, ts: seq<Tok>): (r: Parsed<Expr>)
    ensures Progress(cx, ts, r)
    decreases |ts|, 22
  {
    if Starts(ts, KIf) then RustIf(cx, ts[1..])
    else if Starts(ts, LBrace) then Expect(Conditional(cx, ts[1..]), RBrace)
    else Fail(Expected(LBrace))
  }

  function ThenBranch(cx: Cx, ts: seq<Tok>): (r: Parsed<Expr>)
    ensures Progress(cx, ts, r)
    decreases |ts|, 21
  {
    Expect(Expect(Conditional(cx, ts), RBrace), KElse)
  }

  function BuiltinName(b: Builtin): string {
    match b
    case Len => "len"
    case Abs => "abs"
    case Min => "min"
    case Max => "max"
    case Sum => "sum"
    case Any => "any"
    case All => "all"
    case Round => "round"
    case ToInt => "int"
    case ToFloat => "float"
    case ToBool => "bool"
    case Contains => "contains"
    case IndexOf => "index"
    case Before => "before"
    case First => "first"
    case Last => "last"
    case ToStr => "str"
    case JsonGet => "json_get"
    case FetchUrl => "fetch"
    case FetchJson => "fetch_json"
    case Show => "show"
    case Print => "print"
    case Led => "led"
    case Flash => "flash"
    case Upper => "upper"
    case Lower => "lower"
    case Reverse => "reverse"
  }

  /** Functions a program may call. `contains` is only a method. */
  function BuiltinFrom(name: string): (r: Option<Builtin>)
    ensures r.Some? ==> r.value != Contains
  {
    match name
    case "len" => Some(Len)
    case "abs" => Some(Abs)
    case "min" => Some(Min)
    case "max" => Some(Max)
    case "sum" => Some(Sum)
    case "any" => Some(Any)
    case "all" => Some(All)
    case "round" => Some(Round)
    case "int" => Some(ToInt)
    case "float" => Some(ToFloat)
    case "bool" => Some(ToBool)
    case "index" => Some(IndexOf)
    case "before" => Some(Before)
    case "first" => Some(First)
    case "last" => Some(Last)
    case "str" => Some(ToStr)
    case "json_get" => Some(JsonGet)
    case "fetch" => Some(FetchUrl)
    case "fetch_json" => Some(FetchJson)
    case "show" => Some(Show)
    case "print" => Some(Print)
    case "led" => Some(Led)
    case "flash" => Some(Flash)
    case "upper" => Some(Upper)
    case "lower" => Some(Lower)
    case "reverse" => Some(Reverse)
    case _ => None
  }

  // ---- programs ------------------------------------------------------------------------------

  datatype Let = Let(name: string, expr: Expr)

  /** One `let`, from its keyword to its semicolon. */
  function LetAt(scope: seq<string>, ts: seq<Tok>): (r: Parsed<Let>)
    requires Starts(ts, KLet)
    ensures r.Got? ==> |r.rest| < |ts| && Formed(|scope|, r.v.expr)
  {
    if |ts| < 2 || !ts[1].Ident? then Fail(ExpectedName)
    else if !Starts(ts[2..], Assign) then Fail(Expected(Assign))
    else
      var e := Expect(Conditional(Cx(Rust, scope), ts[3..]), Semi);
      if e.Fail? then Fail(e.err) else Got(Let(ts[1].name, e.v), e.rest)
  }

  /** The `let`s of a Rust-mode program, and the names they bind. */
  function Lets(scope: seq<string>, body: seq<LetBinding>, ts: seq<Tok>): (r: Parsed<(seq<string>, seq<LetBinding>)>)
    decreases |ts|
  {
    if !Starts(ts, KLet) then Got((scope, body), ts)
    else
      var l := LetAt(scope, ts);
      if l.Fail? then Fail(l.err)
      else Lets(scope + [l.v.name], body + [LetBinding(|scope| % U16, l.v.expr)], l.rest)
  }

  function Finish(cx: Cx, body: seq<LetBinding>, ts: seq<Tok>): Parsed<Program> {
    var ret := Conditional(cx, ts);
    if ret.Fail? then Fail(ret.err)
    else
      var rest := if Starts(ret.rest, Semi) then ret.rest[1..] else ret.rest;
      if rest != [] then Fail(Trailing) else Got(Program(body, ret.v, |cx.scope| % U16), [])
  }

  function ParseProgram(lang: Lang, ts: seq<Tok>): Parsed<Program> {
    if lang.Rust? then
      var lets := Lets([], [], ts);
      if lets.Fail? then Fail(lets.err) else Finish(Cx(Rust, lets.v.0), lets.v.1, lets.rest)
    else Finish(Cx(Python, []), [], ts)
  }
}
