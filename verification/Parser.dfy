/** The parser as it runs: one cursor over the tokens, moved by every rule. */
module Parser {
  import opened Values
  import opened Ir
  import opened Parse

  /** The names of the bindings, oldest first. */
  function Names(locals: seq<(string, nat)>): (s: seq<string>)
    ensures |s| == |locals| && forall i | 0 <= i < |locals| :: s[i] == locals[i].0
  {
    if locals == [] then [] else Names(locals[..|locals| - 1]) + [locals[|locals| - 1].0]
  }

  /** Slots are given out in order, as 16-bit numbers. */
  ghost predicate Numbered(locals: seq<(string, nat)>, nextSlot: nat) {
    nextSlot == |locals| % U16 && forall i | 0 <= i < |locals| :: locals[i].1 == i % U16
  }

  datatype Outcome<+T> = Done(v: T) | Failed(err: ParseError)

  class TokenParser {
    const toks: seq<Tok>
    const lang: Lang
    var pos: nat
    var locals: seq<(string, nat)>
    var nextSlot: nat
    var body: seq<LetBinding>

    constructor (toks: seq<Tok>, lang: Lang)
      ensures this.toks == toks && this.lang == lang && pos == 0 && body == []
      ensures Valid() && Scope() == []
    {
      this.toks := toks;
      this.lang := lang;
      pos, locals, nextSlot, body := 0, [], 0, [];
    }

    ghost predicate Valid()
      reads this
    {
      pos <= |toks| && Numbered(locals, nextSlot)
    }

    ghost function Scope(): seq<string>
      reads this`locals
    {
      Names(locals)
    }

    ghost function Context(): Cx
      reads this`locals
    {
      Cx(lang, Scope())
    }

    ghost function Ahead(): (a: seq<Tok>)
      requires pos <= |toks|
      reads this`pos
      ensures |a| == |toks| - pos
    {
      toks[pos..]
    }

    /** The rule did what its function says, and the cursor stands at what the function leaves. */
    ghost predicate Did<T>(r: Outcome<T>, s: Parsed<T>)
      reads this
      requires Valid()
    {
      match s
      case Got(v, rest) => r == Done(v) && Ahead() == rest
      case Fail(e) => r == Failed(e)
    }

    method Peek() returns (t: Option<Tok>)
      requires Valid()
      ensures t == Head(Ahead())
    {
      t := if pos < |toks| then Some(toks[pos]) else None;
    }

    method Advance() returns (t: Option<Tok>)
      requires Valid()
      modifies this`pos
      ensures Valid() && t == Head(old(Ahead()))
      ensures Ahead() == if t.Some? then old(Ahead())[1..] else old(Ahead())
      ensures pos == if t.Some? then old(pos) + 1 else old(pos)
    {
      t := Peek();
      if t.Some? { pos := pos + 1; }
    }

    method Eat(t: Tok) returns (b: bool)
      requires Valid()
      modifies this`pos
      ensures Valid() && b == Starts(old(Ahead()), t)
      ensures Ahead() == if b then old(Ahead())[1..] else old(Ahead())
      ensures pos == if b then old(pos) + 1 else old(pos)
    {
      var p := Peek();
      b := p == Some(t);
      if b { pos := pos + 1; }
    }

    /** Require the token after an expression already parsed. */
    method ExpectAfter(e: Outcome<Expr>, t: Tok, ghost s: Parsed<Expr>) returns (r: Outcome<Expr>)
      requires Valid() && Did(e, s)
      modifies this`pos
      ensures Valid() && Did(r, Expect(s, t))
    {
      if e.Failed? {
        return e;
      }
      var b := Eat(t);
      return if b then e else Failed(Expected(t));
    }

    method Bind(name: string) returns (slot: nat)
      requires Valid()
      modifies this`locals, this`nextSlot
      ensures Valid() && slot == |old(Scope())| % U16
      ensures Scope() == old(Scope()) + [name]
    {
      slot := nextSlot;
      nextSlot := (nextSlot + 1) % U16;
      locals := locals + [(name, slot)];
    }

    method ResolveName(name: string) returns (e: Expr)
      requires Valid()
      ensures e == Resolve(Scope(), name)
    {
      var i := |locals|;
      while i > 0
        invariant 0 <= i <= |locals|
        invariant forall k | i <= k < |locals| :: locals[k].0 != name
      {
        i := i - 1;
        if locals[i].0 == name {
          assert Scope()[i] == name;
          assert forall k | i < k < |locals| :: Scope()[k] != name;
          return Local(locals[i].1);
        }
      }
      assert forall k | 0 <= k < |locals| :: Scope()[k] != name;
      return Var(name);
    }

    method ParseConditional() returns (r: Outcome<Expr>)
      requires Valid()
      modifies this`pos
      ensures Valid() && Did(r, Conditional(Context(), old(Ahead())))
      decreases |toks| - pos, 20
    {
      hide OrExpr, Formed, Names, Numbered, Ahead;
      var e := ParseOr();
      if e.Failed? || lang.Rust? {
        return e;
      }
      var isIf := Eat(KIf);
      if !isIf {
        return e;
      }
      ghost var ahead := Ahead();
      var test := ParseOr();
      test := ExpectAfter(test, KElse, OrExpr(Context(), ahead));
      if test.Failed? {
        return test;
      }
      var other := ParseConditional();
      if other.Failed? {
        return other;
      }
      return Done(If(test.v, e.v, other.v));
    }

    method ParseOr() returns (r: Outcome<Expr>)
      requires Valid()
      modifies this`pos
      ensures Valid() && Did(r, OrExpr(Context(), old(Ahead())))
      decreases |toks| - pos, 19
    {
      hide AndExpr, Formed, Names, Numbered, Ahead;
      r := ParseAnd();
      if r.Failed? { return; }
      while true
        invariant Valid() && r.Done? && old(pos) < pos
        invariant OrTail(Context(), r.v, Ahead()) == OrExpr(Context(), old(Ahead()))
        decreases |toks| - pos
      {
        var t := Peek();
        if t != Some(KOr) && t != Some(OrOr) { break; }
        t := Advance();
        var b := ParseAnd();
        if b.Failed? { return b; }
        r := Done(Logic(Or, r.v, b.v));
      }
    }

    method ParseAnd() returns (r: Outcome<Expr>)
      requires Valid()
      modifies this`pos
      ensures Valid() && Did(r, AndExpr(Context(), old(Ahead())))
      decreases |toks| - pos, 18
    {
      hide NotExpr, Formed, Names, Numbered, Ahead;
      r := ParseNot();
      if r.Failed? { return; }
      while true
        invariant Valid() && r.Done? && old(pos) < pos
        invariant AndTail(Context(), r.v, Ahead()) == AndExpr(Context(), old(Ahead()))
        decreases |toks| - pos
      {
        var t := Peek();
        if t != Some(KAnd) && t != Some(AndAnd) { break; }
        t := Advance();
        var b := ParseNot();
        if b.Failed? { return b; }
        r := Done(Logic(And, r.v, b.v));
      }
    }

    method ParseNot() returns (r: Outcome<Expr>)
      requires Valid()
      modifies this`pos
      ensures Valid() && Did(r, NotExpr(Context(), old(Ahead())))
      decreases |toks| - pos, 17
    {
      hide CmpExpr, Formed, Names, Numbered, Ahead;
      var t := Peek();
      if t == Some(KNot) || t == Some(Bang) {
        t := Advance();
        r := ParseNot();
        return if r.Failed? then r else Done(Unary(Not, r.v));
      }
      r := ParseCmp();
    }

    method ParseCmp() returns (r: Outcome<Expr>)
      requires Valid()
      modifies this`pos
      ensures Valid() && Did(r, CmpExpr(Context(), old(Ahead())))
      decreases |toks| - pos, 16
    {
      hide AddExpr, ChainOf, LinkOf, Formed, Names, Numbered;
      r := ParseAdd();
      if r.Failed? { return; }
      var operands, links := [r.v], [];
      while true
        invariant Valid() && |operands| == |links| + 1 && old(pos) < pos
        invariant CmpTail(Context(), operands, links, Ahead()) == CmpExpr(Context(), old(Ahead()))
        decreases |toks| - pos
      {
        var k := LinkOf(toks[pos..]);
        if k.None? {
          break;
        }
        LinkFits(toks[pos..]);
        pos := pos + LinkWidth(k.value);
        var b := ParseAdd();
        if b.Failed? { return b; }
        operands, links := operands + [b.v], links + [k.value];
      }
      if links == [] {
        return Done(operands[0]);
      }
      r := FoldChain(operands, links);
    }

    /** The loop that joins the links with `and`. */
    method FoldChain(operands: seq<Expr>, links: seq<Link>) returns (r: Outcome<Expr>)
      requires links != [] && |operands| == |links| + 1
      ensures r == Done(ChainOf(operands, links, |links|))
    {
      var acc := LinkTerm(links[0], operands[0], operands[1]);
      var i := 1;
      while i < |links|
        invariant 1 <= i <= |links|
        invariant acc == ChainOf(operands, links, i)
      {
        acc := Logic(And, acc, LinkTerm(links[i], operands[i], operands[i + 1]));
        i := i + 1;
      }
      r := Done(acc);
    }

    method ParseAdd() returns (r: Outcome<Expr>)
      requires Valid()
      modifies this`pos
      ensures Valid() && Did(r, AddExpr(Context(), old(Ahead())))
      decreases |toks| - pos, 15
    {
      hide MulExpr, Formed, Names, Numbered, Ahead;
      r := ParseMul();
      if r.Failed? { return; }
      while true
        invariant Valid() && r.Done? && old(pos) < pos
        invariant AddTail(Context(), r.v, Ahead()) == AddExpr(Context(), old(Ahead()))
        decreases |toks| - pos
      {
        var t := Peek();
        var op := AddOp(t);
        if op.None? { break; }
        t := Advance();
        var b := ParseMul();
        if b.Failed? { return b; }
        r := Done(Bin(op.value, r.v, b.v));
      }
    }

    method ParseMul() returns (r: Outcome<Expr>)
      requires Valid()
      modifies this`pos
      ensures Valid() && Did(r, MulExpr(Context(), old(Ahead())))
      decreases |toks| - pos, 14
    {
      hide UnaryExpr, Formed, Names, Numbered, Ahead;
      r := ParseUnary();
      if r.Failed? { return; }
      while true
        invariant Valid() && r.Done? && old(pos) < pos
        invariant MulTail(Context(), r.v, Ahead()) == MulExpr(Context(), old(Ahead()))
        decreases |toks| - pos
      {
        var t := Peek();
        var op := MulOp(t);
        if op.None? { break; }
        t := Advance();
        var b := ParseUnary();
        if b.Failed? { return b; }
        r := Done(Bin(op.value, r.v, b.v));
      }
    }

    method ParseUnary() returns (r: Outcome<Expr>)
      requires Valid()
      modifies this`pos
      ensures Valid() && Did(r, UnaryExpr(Context(), old(Ahead())))
      decreases |toks| - pos, 13
    {
      hide Postfix, Formed, Names, Numbered, Ahead;
      var minus := Eat(Minus);
      if minus {
        r := ParseUnary();
        return if r.Failed? then r else Done(Unary(Neg, r.v));
      }
      r := ParsePostfix();
    }

    method ParsePostfix() returns (r: Outcome<Expr>)
      requires Valid()
      modifies this`pos
      ensures Valid() && Did(r, Postfix(Context(), old(Ahead())))
      decreases |toks| - pos, 12
    {
      hide Primary, IndexSuffix, MethodSuffix, Formed, Names, Numbered, Ahead;
      r := ParsePrimary();
      if r.Failed? { return; }
      while true
        invariant Valid() && r.Done? && old(pos) < pos
        invariant PostfixTail(Context(), r.v, Ahead()) == Postfix(Context(), old(Ahead()))
        decreases |toks| - pos
      {
        var index := Eat(LBracket);
        if index {
          r := ParseIndexSuffix(r.v);
        } else {
          var dot := Eat(Dot);
          if !dot { break; }
          r := ParseMethodSuffix(r.v);
        }
        if r.Failed? { return; }
      }
    }

    method ParseIndexSuffix(left: Expr) returns (r: Outcome<Expr>)
      requires Valid()
      modifies this`pos
      ensures Valid() && Did(r, IndexSuffix(Context(), left, old(Ahead())))
      decreases |toks| - pos, 21
    {
      hide Conditional, Formed, Names, Numbered;
      ghost var ahead := Ahead();
      var i := ParseConditional();
      i := ExpectAfter(i, RBracket, Conditional(Context(), ahead));
      return if i.Failed? then i else Done(Index(left, i.v));
    }

    method ParseMethodSuffix(left: Expr) returns (r: Outcome<Expr>)
      requires Valid()
      modifies this`pos
      ensures Valid() && Did(r, MethodSuffix(Context(), left, old(Ahead())))
      decreases |toks| - pos, 21
    {
      hide Conditional, Formed, Names, Numbered;
      var m := Method(toks[pos..]);
      if m.Fail? {
        return Failed(m.err);
      }
      pos := pos + 2;
      ghost var ahead := Ahead();
      var x := ParseConditional();
      x := ExpectAfter(x, RParen, Conditional(Context(), ahead));
      return if x.Failed? then x else Done(Call(Contains, [left, x.v]));
    }

    method ParsePrimary() returns (r: Outcome<Expr>)
      requires Valid()
      modifies this`pos
      ensures Valid() && Did(r, Primary(Context(), old(Ahead())))
      decreases |toks| - pos, 11
    {
      hide Conditional, Items, FunctionCall, RustIf, Resolve, Formed, Names, Numbered, Ahead;
      var t := Advance();
      if t.None? {
        return Failed(UnexpectedEnd);
      }
      match t.value
      case TInt(n) => return Done(Const(Int(n)));
      case TFloat(x) => return Done(Const(Float(x)));
      case TBool(b) => return Done(Const(Bool(b)));
      case TStr(s) => return Done(Const(Str(s)));
      case LParen =>
        ghost var ahead := Ahead();
        r := ParseConditional();
        r := ExpectAfter(r, RParen, Conditional(Context(), ahead));
      case LBracket => r := ParseList();
      case Ident(name) =>
        var call := Eat(LParen);
        if call {
          r := ParseFunctionCall(name);
        } else {
          var e := ResolveName(name);
          r := Done(e);
        }
      case KIf =>
        if lang.Rust? { r := ParseRustIf(); } else { r := Failed(Unexpected(KIf)); }
      case other => r := Failed(Unexpected(other));
    }

    /** The rest of a list, after its opening bracket. */
    ghost function ListRest(cx: Cx, rest: seq<Tok>): Parsed<Expr> {
      var items := if Starts(rest, RBracket) then Got([], rest) else Items(cx, [], rest);
      if items.Fail? then Fail(items.err)
      else if Starts(items.rest, RBracket) then Got(ListOf(items.v), items.rest[1..])
      else Fail(Expected(RBracket))
    }

    method ParseList() returns (r: Outcome<Expr>)
      requires Valid()
      modifies this`pos
      ensures Valid() && Did(r, ListRest(Context(), old(Ahead())))
      decreases |toks| - pos, 22
    {
      hide Conditional, Formed, Names, Numbered;
      var items: seq<Expr> := [];
      if !(pos < |toks| && toks[pos] == RBracket) {
        while true
          invariant Valid() && old(pos) <= pos
          invariant Items(Context(), items, Ahead()) == Items(Context(), [], old(Ahead()))
          decreases |toks| - pos
        {
          var e := ParseConditional();
          if e.Failed? { return Failed(e.err); }
          items := items + [e.v];
          var comma := Eat(Comma);
          if !comma || (pos < |toks| && toks[pos] == RBracket) { break; }
        }
      }
      var close := Eat(RBracket);
      return if close then Done(ListOf(items)) else Failed(Expected(RBracket));
    }

    method ParseFunctionCall(name: string) returns (r: Outcome<Expr>)
      requires Valid()
      modifies this`pos
      ensures Valid() && Did(r, FunctionCall(Context(), name, old(Ahead())))
      decreases |toks| - pos, 22
    {
      hide Conditional, BuiltinFrom, Formed, Names, Numbered;
      var args: seq<Expr> := [];
      if !(pos < |toks| && toks[pos] == RParen) {
        while true
          invariant Valid() && old(pos) <= pos
          invariant Args(Context(), args, Ahead()) == Args(Context(), [], old(Ahead()))
          decreases |toks| - pos
        {
          var e := ParseConditional();
          if e.Failed? { return Failed(e.err); }
          args := args + [e.v];
          var comma := Eat(Comma);
          if !comma { break; }
        }
      }
      var close := Eat(RParen);
      if !close { return Failed(Expected(RParen)); }
      var b := BuiltinFrom(name);
      return if b.None? then Failed(ForbiddenFunction(name)) else Done(Call(b.value, args));
    }

    method ParseRustIf() returns (r: Outcome<Expr>)
      requires Valid()
      modifies this`pos
      ensures Valid() && Did(r, RustIf(Context(), old(Ahead())))
      decreases |toks| - pos, 23
    {
      hide Conditional, OrExpr, ThenBranch, ElseBranch, Formed, Names, Numbered, Ahead;
      ghost var start := Ahead();
      var c := ParseOr();
      c := ExpectAfter(c, LBrace, OrExpr(Context(), start));
      if c.Failed? { return c; }
      var t := ParseThen();
      if t.Failed? { return t; }
      var f := ParseElse();
      return if f.Failed? then f else Done(If(c.v, t.v, f.v));
    }

    method ParseThen() returns (t: Outcome<Expr>)
      requires Valid()
      modifies this`pos
      ensures Valid() && Did(t, ThenBranch(Context(), old(Ahead())))
      decreases |toks| - pos, 21
    {
      hide Conditional, Formed, Names, Numbered, Ahead;
      ghost var start := Ahead();
      t := ParseConditional();
      t := ExpectAfter(t, RBrace, Conditional(Context(), start));
      t := ExpectAfter(t, KElse, Expect(Conditional(Context(), start), RBrace));
    }

    method ParseElse() returns (f: Outcome<Expr>)
      requires Valid()
      modifies this`pos
      ensures Valid() && Did(f, ElseBranch(Context(), old(Ahead())))
      decreases |toks| - pos, 22
    {
      hide Conditional, RustIf, Formed, Names, Numbered, Ahead;
      var again := Eat(KIf);
      if again {
        f := ParseRustIf();
        return;
      }
      var brace := Eat(LBrace);
      if !brace { return Failed(Expected(LBrace)); }
      ghost var ahead := Ahead();
      f := ParseConditional();
      f := ExpectAfter(f, RBrace, Conditional(Context(), ahead));
    }

    method ParseOneLet() returns (r: Outcome<Let>)
      requires Valid() && lang.Rust? && Starts(Ahead(), KLet)
      modifies this`pos
      ensures Valid() && Did(r, LetAt(Scope(), old(Ahead())))
    {
      hide Conditional, Formed, Names, Numbered;
      ghost var ts := Ahead();
      var let := Advance();
      var name := Advance();
      if name.None? || !name.value.Ident? { return Failed(ExpectedName); }
      var assign := Eat(Assign);
      if !assign { return Failed(Expected(Assign)); }
      ghost var ahead := Ahead();
      assert ahead == ts[3..];
      var e := ParseConditional();
      e := ExpectAfter(e, Semi, Conditional(Context(), ahead));
      return if e.Failed? then Failed(e.err) else Done(Let(name.value.name, e.v));
    }

    /** One `let`: what it leaves is what `Lets` goes on with. */
    method ParseLet() returns (r: Outcome<bool>)
      requires Valid() && lang.Rust? && Starts(Ahead(), KLet)
      modifies this
      ensures Valid()
      ensures var before := Lets(old(Scope()), old(body), old(Ahead()));
              match r
              case Done(_) => pos > old(pos) && before == Lets(Scope(), body, Ahead())
              case Failed(e) => before == Fail(e)
    {
      hide LetAt, Formed, Numbered, Ahead;
      var l := ParseOneLet();
      if l.Failed? { return Failed(l.err); }
      var slot := Bind(l.v.name);
      body := body + [LetBinding(slot, l.v.expr)];
      return Done(true);
    }

    /** The return expression, a tolerated semicolon, and nothing more. */
    method ParseFinish() returns (r: Outcome<Program>)
      requires Valid()
      modifies this`pos
      ensures Valid()
      ensures match Finish(Context(), body, old(Ahead()))
              case Got(p, _) => r == Done(p)
              case Fail(e) => r == Failed(e)
    {
      hide Conditional, Formed, Names, Ahead;
      var ret := ParseConditional();
      if ret.Failed? { return Failed(ret.err); }
      var semi := Eat(Semi);
      if pos != |toks| { return Failed(Trailing); }
      return Done(Program(body, ret.v, nextSlot));
    }

    method ParseAll() returns (r: Outcome<Program>)
      requires Valid() && Scope() == [] && body == [] && pos == 0
      modifies this
      ensures Valid()
      ensures match ParseProgram(lang, toks)
              case Got(p, _) => r == Done(p)
              case Fail(e) => r == Failed(e)
    {
      hide Finish, Formed, Names, Numbered, Ahead;
      FromStart();
      if lang.Rust? {
        while true
          invariant Valid()
          invariant Lets(Scope(), body, Ahead()) == Lets([], [], toks)
          decreases |toks| - pos
        {
          var t := Peek();
          if t != Some(KLet) { break; }
          var l := ParseLet();
          if l.Failed? { return Failed(l.err); }
        }
      }
      r := ParseFinish();
    }

    lemma FromStart()
      requires Valid() && pos == 0
      ensures Ahead() == toks
    {
    }
  }

  lemma LinkFits(ts: seq<Tok>)
    requires LinkOf(ts).Some?
    ensures LinkWidth(LinkOf(ts).value) <= |ts|
  {
  }

  /** Parse source tokens to a program. */
  method ParseTokens(toks: seq<Tok>, lang: Lang) returns (r: Outcome<Program>)
    ensures match ParseProgram(lang, toks)
            case Got(p, _) => r == Done(p)
            case Fail(e) => r == Failed(e)
  {
    hide ParseProgram;
    var p := new TokenParser(toks, lang);
    r := p.ParseAll();
  }
}
