/**
 Slots against names. Rust-mode `let`s are compiled to numbered slots while parsing; this module shows
 that the slot program computes what the source means when names are looked up, innermost binding first
 and then in the host.
 */
module Slots {
  import opened Values
  import opened Ir
  import opened Parse

  // ---- replacing names by slots --------------------------------------------------------------

  /** Every name resolved in `scope`. */
  function Bind(scope: seq<string>, e: Expr): Expr
    decreases e, 1
  {
    match e
    case Var(name) => Resolve(scope, name)
    case Bin(op, a, b) => Bin(op, Bind(scope, a), Bind(scope, b))
    case Cmp(op, a, b) => Cmp(op, Bind(scope, a), Bind(scope, b))
    case Logic(op, a, b) => Logic(op, Bind(scope, a), Bind(scope, b))
    case Unary(op, a) => Unary(op, Bind(scope, a))
    case Index(a, b) => Index(Bind(scope, a), Bind(scope, b))
    case If(c, t, f) => If(Bind(scope, c), Bind(scope, t), Bind(scope, f))
    case Call(b, args) => Call(b, BindAll(scope, args))
    case ListOf(args) => ListOf(BindAll(scope, args))
    case _ => e
  }

  function BindAll(scope: seq<string>, args: seq<Expr>): (r: seq<Expr>)
    ensures |r| == |args| && forall i | 0 <= i < |args| :: r[i] == Bind(scope, args[i])
    decreases args, 0
  {
    if args == [] then [] else BindAll(scope, args[..|args| - 1]) + [Bind(scope, args[|args| - 1])]
  }

  lemma BindAllSnoc(scope: seq<string>, args: seq<Expr>, e: Expr)
    ensures BindAll(scope, args + [e]) == BindAll(scope, args) + [Bind(scope, e)]
  {
    assert (args + [e])[..|args|] == args;
  }

  function BindIn(scope: seq<string>, r: Parsed<Expr>): Parsed<Expr> {
    if r.Fail? then r else Got(Bind(scope, r.v), r.rest)
  }

  function BindAllIn(scope: seq<string>, r: Parsed<seq<Expr>>): Parsed<seq<Expr>> {
    if r.Fail? then r else Got(BindAll(scope, r.v), r.rest)
  }

  /** The same language with nothing bound. */
  function Bare(cx: Cx): Cx { cx.(scope := []) }

  lemma ExpectCommutes(scope: seq<string>, r: Parsed<Expr>, t: Tok)
    ensures Expect(BindIn(scope, r), t) == BindIn(scope, Expect(r, t))
  {
  }

  // ---- parsing in a scope is parsing without one, then resolving -----------------------------

  lemma {:induction false} ConditionalCommutes(cx: Cx, ts: seq<Tok>)
    ensures Conditional(cx, ts) == BindIn(cx.scope, Conditional(Bare(cx), ts))
    decreases |ts|, 20
  {
    hide OrExpr, Expect, Formed;
    OrCommutes(cx, ts);
    var e := OrExpr(Bare(cx), ts);
    if e.Got? && cx.lang.Python? && Starts(e.rest, KIf) {
      OrCommutes(cx, e.rest[1..]);
      ExpectCommutes(cx.scope, OrExpr(Bare(cx), e.rest[1..]), KElse);
      var test := Expect(OrExpr(Bare(cx), e.rest[1..]), KElse);
      if test.Got? { ConditionalCommutes(cx, test.rest); }
    }
  }

  lemma {:induction false} OrCommutes(cx: Cx, ts: seq<Tok>)
    ensures OrExpr(cx, ts) == BindIn(cx.scope, OrExpr(Bare(cx), ts))
    decreases |ts|, 19
  {
    hide AndExpr, OrTail, Bind, Formed;
    AndCommutes(cx, ts);
    var a := AndExpr(Bare(cx), ts);
    if a.Got? { OrTailCommutes(cx, a.v, a.rest); }
  }

  lemma {:induction false} OrTailCommutes(cx: Cx, left: Expr, ts: seq<Tok>)
    ensures OrTail(cx, Bind(cx.scope, left), ts) == BindIn(cx.scope, OrTail(Bare(cx), left, ts))
    decreases |ts|, 19
  {
    hide AndExpr, Formed;
    if Starts(ts, KOr) || Starts(ts, OrOr) {
      AndCommutes(cx, ts[1..]);
      var b := AndExpr(Bare(cx), ts[1..]);
      if b.Got? { OrTailCommutes(cx, Logic(BoolOp.Or, left, b.v), b.rest); }
    }
  }

  lemma {:induction false} AndCommutes(cx: Cx, ts: seq<Tok>)
    ensures AndExpr(cx, ts) == BindIn(cx.scope, AndExpr(Bare(cx), ts))
    decreases |ts|, 18
  {
    hide NotExpr, AndTail, Bind, Formed;
    NotCommutes(cx, ts);
    var a := NotExpr(Bare(cx), ts);
    if a.Got? { AndTailCommutes(cx, a.v, a.rest); }
  }

  lemma {:induction false} AndTailCommutes(cx: Cx, left: Expr, ts: seq<Tok>)
    ensures AndTail(cx, Bind(cx.scope, left), ts) == BindIn(cx.scope, AndTail(Bare(cx), left, ts))
    decreases |ts|, 18
  {
    hide NotExpr, Formed;
    if Starts(ts, KAnd) || Starts(ts, AndAnd) {
      NotCommutes(cx, ts[1..]);
      var b := NotExpr(Bare(cx), ts[1..]);
      if b.Got? { AndTailCommutes(cx, Logic(BoolOp.And, left, b.v), b.rest); }
    }
  }

  lemma {:induction false} AddCommutes(cx: Cx, ts: seq<Tok>)
    ensures AddExpr(cx, ts) == BindIn(cx.scope, AddExpr(Bare(cx), ts))
    decreases |ts|, 15
  {
    hide MulExpr, AddTail, Bind, Formed;
    MulCommutes(cx, ts);
    var a := MulExpr(Bare(cx), ts);
    if a.Got? { AddTailCommutes(cx, a.v, a.rest); }
  }

  lemma {:induction false} AddTailCommutes(cx: Cx, left: Expr, ts: seq<Tok>)
    ensures AddTail(cx, Bind(cx.scope, left), ts) == BindIn(cx.scope, AddTail(Bare(cx), left, ts))
    decreases |ts|, 15
  {
    hide MulExpr, Formed;
    if AddOp(Head(ts)).Some? {
      MulCommutes(cx, ts[1..]);
      var b := MulExpr(Bare(cx), ts[1..]);
      if b.Got? { AddTailCommutes(cx, Bin(AddOp(Head(ts)).value, left, b.v), b.rest); }
    }
  }

  lemma {:induction false} MulCommutes(cx: Cx, ts: seq<Tok>)
    ensures MulExpr(cx, ts) == BindIn(cx.scope, MulExpr(Bare(cx), ts))
    decreases |ts|, 14
  {
    hide UnaryExpr, MulTail, Bind, Formed;
    UnaryCommutes(cx, ts);
    var a := UnaryExpr(Bare(cx), ts);
    if a.Got? { MulTailCommutes(cx, a.v, a.rest); }
  }

  lemma {:induction false} MulTailCommutes(cx: Cx, left: Expr, ts: seq<Tok>)
    ensures MulTail(cx, Bind(cx.scope, left), ts) == BindIn(cx.scope, MulTail(Bare(cx), left, ts))
    decreases |ts|, 14
  {
    hide UnaryExpr, Formed;
    if MulOp(Head(ts)).Some? {
      UnaryCommutes(cx, ts[1..]);
      var b := UnaryExpr(Bare(cx), ts[1..]);
      if b.Got? { MulTailCommutes(cx, Bin(MulOp(Head(ts)).value, left, b.v), b.rest); }
    }
  }

  lemma {:induction false} NotCommutes(cx: Cx, ts: seq<Tok>)
    ensures NotExpr(cx, ts) == BindIn(cx.scope, NotExpr(Bare(cx), ts))
    decreases |ts|, 17
  {
    hide CmpExpr, Formed;
    if Starts(ts, KNot) || Starts(ts, Bang) { NotCommutes(cx, ts[1..]); } else { CmpCommutes(cx, ts); }
  }

  lemma {:induction false} CmpCommutes(cx: Cx, ts: seq<Tok>)
    ensures CmpExpr(cx, ts) == BindIn(cx.scope, CmpExpr(Bare(cx), ts))
    decreases |ts|, 16
  {
    hide AddExpr, CmpTail, Bind, Formed;
    AddCommutes(cx, ts);
    var a := AddExpr(Bare(cx), ts);
    if a.Got? {
      CmpTailCommutes(cx, [a.v], [], a.rest);
      assert BindAll(cx.scope, [a.v]) == [Bind(cx.scope, a.v)];
    }
  }

  lemma {:induction false} CmpTailCommutes(cx: Cx, operands: seq<Expr>, links: seq<Link>, ts: seq<Tok>)
    requires |operands| == |links| + 1
    ensures CmpTail(cx, BindAll(cx.scope, operands), links, ts) == BindIn(cx.scope, CmpTail(Bare(cx), operands, links, ts))
    decreases |ts|, 16
  {
    hide AddExpr, ChainOf, LinkOf, Bind, Formed;
    var k := LinkOf(ts);
    if k.Some? {
      LinkTakes(ts);
      var after := ts[LinkWidth(k.value)..];
      AddCommutes(cx, after);
      var b := AddExpr(Bare(cx), after);
      if b.Got? {
        BindAllSnoc(cx.scope, operands, b.v);
        CmpTailCommutes(cx, operands + [b.v], links + [k.value], b.rest);
      }
    } else if links != [] {
      ChainCommutes(cx.scope, operands, links, |links|);
    }
  }

  lemma LinkTakes(ts: seq<Tok>)
    requires LinkOf(ts).Some?
    ensures LinkWidth(LinkOf(ts).value) <= |ts|
  {
  }

  lemma LinkTermCommutes(scope: seq<string>, k: Link, a: Expr, b: Expr)
    ensures LinkTerm(k, Bind(scope, a), Bind(scope, b)) == Bind(scope, LinkTerm(k, a, b))
  {
    assert BindAll(scope, [b, a]) == [Bind(scope, b), Bind(scope, a)];
  }

  lemma {:induction false} ChainCommutes(scope: seq<string>, operands: seq<Expr>, links: seq<Link>, n: nat)
    requires 1 <= n <= |links| && |operands| == |links| + 1
    ensures ChainOf(BindAll(scope, operands), links, n) == Bind(scope, ChainOf(operands, links, n))
  {
    hide LinkTerm;
    LinkTermCommutes(scope, links[n - 1], operands[n - 1], operands[n]);
    if n > 1 { ChainCommutes(scope, operands, links, n - 1); }
  }

  lemma {:induction false} UnaryCommutes(cx: Cx, ts: seq<Tok>)
    ensures UnaryExpr(cx, ts) == BindIn(cx.scope, UnaryExpr(Bare(cx), ts))
    decreases |ts|, 13
  {
    hide Postfix, Formed;
    if Starts(ts, Minus) { UnaryCommutes(cx, ts[1..]); } else { PostfixCommutes(cx, ts); }
  }

  lemma {:induction false} PostfixCommutes(cx: Cx, ts: seq<Tok>)
    ensures Postfix(cx, ts) == BindIn(cx.scope, Postfix(Bare(cx), ts))
    decreases |ts|, 12
  {
    hide Primary, PostfixTail, Bind, Formed;
    PrimaryCommutes(cx, ts);
    var a := Primary(Bare(cx), ts);
    if a.Got? { PostfixTailCommutes(cx, a.v, a.rest); }
  }

  lemma {:induction false} PostfixTailCommutes(cx: Cx, left: Expr, ts: seq<Tok>)
    ensures PostfixTail(cx, Bind(cx.scope, left), ts) == BindIn(cx.scope, PostfixTail(Bare(cx), left, ts))
    decreases |ts|, 12
  {
    hide IndexSuffix, MethodSuffix, Bind, Formed;
    if Starts(ts, LBracket) {
      IndexCommutes(cx, left, ts[1..]);
      var e := IndexSuffix(Bare(cx), left, ts[1..]);
      if e.Got? { PostfixTailCommutes(cx, e.v, e.rest); }
    } else if Starts(ts, Dot) {
      MethodCommutes(cx, left, ts[1..]);
      var e := MethodSuffix(Bare(cx), left, ts[1..]);
      if e.Got? { PostfixTailCommutes(cx, e.v, e.rest); }
    }
  }

  lemma {:induction false} IndexCommutes(cx: Cx, left: Expr, ts: seq<Tok>)
    ensures IndexSuffix(cx, Bind(cx.scope, left), ts) == BindIn(cx.scope, IndexSuffix(Bare(cx), left, ts))
    decreases |ts|, 21
  {
    hide Conditional, Formed;
    ConditionalCommutes(cx, ts);
  }

  lemma {:induction false} MethodCommutes(cx: Cx, left: Expr, ts: seq<Tok>)
    ensures MethodSuffix(cx, Bind(cx.scope, left), ts) == BindIn(cx.scope, MethodSuffix(Bare(cx), left, ts))
    decreases |ts|, 21
  {
    hide Conditional, Method, Expect, Formed;
    var m := Method(ts);
    if m.Got? {
      ConditionalCommutes(cx, m.rest);
      ExpectCommutes(cx.scope, Conditional(Bare(cx), m.rest), RParen);
      var x := Expect(Conditional(Bare(cx), m.rest), RParen);
      if x.Got? { assert BindAll(cx.scope, [left, x.v]) == [Bind(cx.scope, left), Bind(cx.scope, x.v)]; }
    }
  }

  lemma {:induction false} PrimaryCommutes(cx: Cx, ts: seq<Tok>)
    ensures Primary(cx, ts) == BindIn(cx.scope, Primary(Bare(cx), ts))
    decreases |ts|, 11
  {
    hide Conditional, Items, FunctionCall, RustIf, Resolve, Formed, Expect, BindAll;
    if ts != [] {
      var rest := ts[1..];
      match ts[0]
      case LParen =>
        ConditionalCommutes(cx, rest);
        ExpectCommutes(cx.scope, Conditional(Bare(cx), rest), RParen);
      case LBracket => ListCommutes(cx, ts);
      case Ident(name) =>
        if Starts(rest, LParen) { CallCommutes(cx, name, rest[1..]); } else { NothingBound(name); }
      case KIf => if cx.lang.Rust? { RustIfCommutes(cx, rest); }
      case _ =>
    }
  }

  lemma {:induction false} ListCommutes(cx: Cx, ts: seq<Tok>)
    requires ts != [] && ts[0] == LBracket
    ensures Primary(cx, ts) == BindIn(cx.scope, Primary(Bare(cx), ts))
    decreases |ts|, 10
  {
    hide Conditional, Items, FunctionCall, RustIf, Resolve, Formed, Expect, BindAll;
    var rest := ts[1..];
    NoneBound(cx.scope);
    if !Starts(rest, RBracket) { ItemsCommute(cx, [], rest); }
  }

  lemma NoneBound(scope: seq<string>)
    ensures BindAll(scope, []) == []
  {
  }

  lemma NothingBound(name: string)
    ensures Resolve([], name) == Var(name)
  {
  }

  lemma {:induction false} CallCommutes(cx: Cx, name: string, ts: seq<Tok>)
    ensures FunctionCall(cx, name, ts) == BindIn(cx.scope, FunctionCall(Bare(cx), name, ts))
    decreases |ts|, 22
  {
    hide Args, BuiltinFrom, Formed;
    if !Starts(ts, RParen) { ArgsCommute(cx, [], ts); }
    assert BindAll(cx.scope, []) == [];
  }

  lemma {:induction false} ItemsCommute(cx: Cx, done: seq<Expr>, ts: seq<Tok>)
    ensures Items(cx, BindAll(cx.scope, done), ts) == BindAllIn(cx.scope, Items(Bare(cx), done, ts))
    decreases |ts|, 21
  {
    hide Conditional, Bind, BindAll, Formed;
    ConditionalCommutes(cx, ts);
    var e := Conditional(Bare(cx), ts);
    if e.Got? {
      BindAllSnoc(cx.scope, done, e.v);
      if Starts(e.rest, Comma) && !Starts(e.rest[1..], RBracket) {
        ItemsCommute(cx, done + [e.v], e.rest[1..]);
      }
    }
  }

  lemma {:induction false} ArgsCommute(cx: Cx, done: seq<Expr>, ts: seq<Tok>)
    ensures Args(cx, BindAll(cx.scope, done), ts) == BindAllIn(cx.scope, Args(Bare(cx), done, ts))
    decreases |ts|, 21
  {
    hide Conditional, Bind, BindAll, Formed;
    ConditionalCommutes(cx, ts);
    var e := Conditional(Bare(cx), ts);
    if e.Got? {
      BindAllSnoc(cx.scope, done, e.v);
      if Starts(e.rest, Comma) { ArgsCommute(cx, done + [e.v], e.rest[1..]); }
    }
  }

  lemma {:induction false} ThenCommutes(cx: Cx, ts: seq<Tok>)
    ensures ThenBranch(cx, ts) == BindIn(cx.scope, ThenBranch(Bare(cx), ts))
    decreases |ts|, 21
  {
    hide Conditional, Expect, Formed;
    var c := Conditional(Bare(cx), ts);
    ConditionalCommutes(cx, ts);
    ExpectCommutes(cx.scope, c, RBrace);
    ExpectCommutes(cx.scope, Expect(c, RBrace), KElse);
  }

  lemma {:induction false} ElseCommutes(cx: Cx, ts: seq<Tok>)
    ensures ElseBranch(cx, ts) == BindIn(cx.scope, ElseBranch(Bare(cx), ts))
    decreases |ts|, 22
  {
    hide Conditional, RustIf, Expect, Formed, Bind;
    if Starts(ts, KIf) {
      RustIfCommutes(cx, ts[1..]);
    } else if Starts(ts, LBrace) {
      ConditionalCommutes(cx, ts[1..]);
      ExpectCommutes(cx.scope, Conditional(Bare(cx), ts[1..]), RBrace);
    }
  }

  lemma {:induction false} RustIfCommutes(cx: Cx, ts: seq<Tok>)
    ensures RustIf(cx, ts) == BindIn(cx.scope, RustIf(Bare(cx), ts))
    decreases |ts|, 23
  {
    hide OrExpr, ThenBranch, ElseBranch, Expect, Formed;
    var o := OrExpr(Bare(cx), ts);
    OrCommutes(cx, ts);
    ExpectCommutes(cx.scope, o, LBrace);
    var c := Expect(o, LBrace);
    if c.Got? {
      ThenCommutes(cx, c.rest);
      var t := ThenBranch(Bare(cx), c.rest);
      if t.Got? { ElseCommutes(cx, t.rest); }
    }
  }
}
