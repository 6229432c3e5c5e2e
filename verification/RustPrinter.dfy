/** Writing Rust-mode programs: `let` lines and a final expression, and the proof that the parser undoes it. */
module RustPrinter {
  import opened Values
  import opened Ir
  import opened Ops
  import opened Parse
  import opened Slots
  import opened SlotRun
  import opened Printer
  import opened Lexer
  import opened LexLaws
  import opened RunLaws
  import Sync

  /** Trees over names, as a parse yields them before names are resolved. */
  ghost predicate Readable(s: Source) { Named(s.lets) && Printable(s.ret) }

  function LetLine(l: Let): seq<Tok>
    requires Printable(l.expr)
  {
    [KLet, Ident(l.name), Assign] + (Printer.Print(Rust, l.expr, 0) + [Semi])
  }

  ghost function LetLines(lets: seq<Let>): seq<Tok>
    requires Named(lets)
  {
    if lets == [] then []
    else
      assert Formed(0, lets[0].expr);
      LetLine(lets[0]) + LetLines(lets[1..])
  }

  /** The tokens of a program. */
  ghost function Written(s: Source): seq<Tok>
    requires Readable(s)
  {
    LetLines(s.lets) + Printer.Print(Rust, s.ret, 0)
  }

  lemma LetTakes(l: Let, body: seq<Tok>, rest: seq<Tok>)
    requires Conditional(Cx(Rust, []), body) == Got(l.expr, [Semi] + rest)
    ensures LetAt([], [KLet, Ident(l.name), Assign] + body) == Got(l, rest)
  {
    hide Conditional;
    var ts := [KLet, Ident(l.name), Assign] + body;
    assert ts[2..] == [Assign] + body && ts[3..] == body;
    assert ([Semi] + rest)[1..] == rest;
  }

  lemma LetReads(l: Let, rest: seq<Tok>)
    requires Printable(l.expr)
    ensures Starts(LetLine(l) + rest, KLet) && LetAt([], LetLine(l) + rest) == Got(l, rest)
  {
    hide Printer.Print, Conditional, LetAt;
    var body := Printer.Print(Rust, l.expr, 0) + ([Semi] + rest);
    assert LetLine(l) + rest == [KLet, Ident(l.name), Assign] + body;
    ReadsBack(Rust, l.expr, 0, [Semi] + rest);
    assert ParseAt(Rust, 0, body) == Conditional(Cx(Rust, []), body);
    LetTakes(l, body, rest);
  }

  lemma {:induction false} LetsRead(done: seq<Let>, lets: seq<Let>, rest: seq<Tok>)
    requires Named(lets) && !Starts(rest, KLet)
    ensures NamedLets(done, LetLines(lets) + rest) == Got(done + lets, rest)
    decreases |lets|
  {
    hide LetLine, LetAt, Formed;
    if lets == [] {
      assert [] + rest == rest && done + lets == done;
    } else {
      assert Formed(0, lets[0].expr);
      var after := LetLines(lets[1..]) + rest;
      assert LetLines(lets) + rest == LetLine(lets[0]) + after;
      LetReads(lets[0], after);
      LetsRead(done + [lets[0]], lets[1..], rest);
      assert (done + [lets[0]]) + lets[1..] == done + lets;
    }
  }

  /** A printed expression does not begin like a `let`. */
  lemma {:induction false} NoLetFirst(e: Expr, l: Level)
    requires Printable(e)
    ensures Printer.Print(Rust, e, l) != [] && !Printer.Print(Rust, e, l)[0].KLet?
    decreases e
  {
    if LevelOf(Rust, e) >= l {
      match e
      case Logic(op, a, _) => NoLetFirst(a, if op.Or? then 1 else 2);
      case Cmp(_, a, _) => NoLetFirst(a, 5);
      case Bin(_, a, _) => NoLetFirst(a, LevelOf(Rust, e));
      case Index(a, _) => NoLetFirst(a, 8);
      case Call(b, args) =>
        if b.Contains? {
          assert AllFormed(0, args);
          NoLetFirst(args[0], 8);
        }
      case _ =>
    }
  }

  /** A program that was written reads back: its bindings in order, its expression, and no token left. */
  lemma RustPrintThenParse(s: Source)
    requires Readable(s)
    ensures ParseSource(Written(s)) == Got(s, [])
    ensures ParseProgram(Rust, Written(s)) == Got(Compile(s), [])
  {
    hide Printer.Print, Conditional, LetLines, ParseProgram, Formed;
    var ret := Printer.Print(Rust, s.ret, 0);
    NoLetFirst(s.ret, 0);
    LetsRead([], s.lets, ret);
    assert [] + s.lets == s.lets && ret + [] == ret;
    ReadsBack(Rust, s.ret, 0, []);
    assert ParseAt(Rust, 0, ret) == Conditional(Cx(Rust, []), ret);
    ParseIsCompile(Written(s));
  }

  /** Parse, write and parse again changes nothing. */
  lemma RustReparseIsStable(ts: seq<Tok>)
    requires ParseProgram(Rust, ts).Got?
    ensures ParseSource(ts).Got? && Readable(ParseSource(ts).v)
    ensures ParseProgram(Rust, Written(ParseSource(ts).v)) == ParseProgram(Rust, ts)
  {
    hide ParseProgram, ParseSource, Written, Formed;
    ParseIsCompile(ts);
    RustPrintThenParse(ParseSource(ts).v);
  }

  // ---- at the text level ---------------------------------------------------------------------

  /** Every name and constant of the program can be written down. */
  ghost predicate WritableSource(std: Std, floatText: F64 -> string, s: Source) {
    && (forall i | 0 <= i < |s.lets| :: IsName(s.lets[i].name) && Writable(std, floatText, s.lets[i].expr))
    && Writable(std, floatText, s.ret)
  }

  lemma LetIsLexable(std: Std, floatText: F64 -> string, l: Let)
    requires Printable(l.expr) && IsName(l.name) && Writable(std, floatText, l.expr)
    ensures AllLexable(std, floatText, LetLine(l))
  {
    hide Printer.Print, Lexable, IsName, Writable, Formed;
    Punctuation(std, floatText);
    NameIsLexable(std, floatText, l.name);
    PrintedIsLexable(Rust, std, floatText, l.expr, 0);
  }

  lemma {:induction false} LetsAreLexable(std: Std, floatText: F64 -> string, lets: seq<Let>)
    requires Named(lets)
    requires forall i | 0 <= i < |lets| :: IsName(lets[i].name) && Writable(std, floatText, lets[i].expr)
    ensures AllLexable(std, floatText, LetLines(lets))
  {
    hide LetLine, Lexable, IsName, Writable, Formed;
    if lets != [] {
      assert Formed(0, lets[0].expr);
      LetIsLexable(std, floatText, lets[0]);
      LetsAreLexable(std, floatText, lets[1..]);
    }
  }

  /** Rust-mode source text written from a program lexes and parses back to it. */
  lemma RustSourceRoundTrip(std: Std, floatText: F64 -> string, s: Source)
    requires Readable(s) && WritableSource(std, floatText, s)
    ensures var r := LexOf(std, LexLaws.Source(floatText, Written(s)));
            r.Toks? && ParseProgram(Rust, r.ts) == Got(Compile(s), [])
  {
    hide LexOf, LexLaws.Source, Printer.Print, ParseProgram, Formed, Writable, LetLines, Lexable, IsName;
    LetsAreLexable(std, floatText, s.lets);
    PrintedIsLexable(Rust, std, floatText, s.ret, 0);
    SourceLexes(std, floatText, Written(s));
    RustPrintThenParse(s);
  }

  // ---- running an `if` -----------------------------------------------------------------------

  lemma {:induction false} BindNothing(e: Expr)
    requires Printable(e)
    ensures Bind([], e) == e
    decreases e, 1
  {
    match e
    case Const(_) =>
    case Var(_) =>
    case Unary(_, a) => BindNothing(a);
    case Bin(_, a, b) => BindNothing(a); BindNothing(b);
    case Cmp(_, a, b) => BindNothing(a); BindNothing(b);
    case Logic(_, a, b) => BindNothing(a); BindNothing(b);
    case Index(a, b) => BindNothing(a); BindNothing(b);
    case If(c, t, f) => BindNothing(c); BindNothing(t); BindNothing(f);
    case Call(_, args) => BindNothingIn(args);
    case ListOf(args) => BindNothingIn(args);
  }

  lemma {:induction false} BindNothingIn(args: seq<Expr>)
    requires AllFormed(0, args)
    ensures BindAll([], args) == args
    decreases args, 0
  {
    hide Bind, Formed;
    forall i | 0 <= i < |args| ensures BindAll([], args)[i] == args[i] {
      assert Formed(0, args[i]);
      BindNothing(args[i]);
    }
  }

  /** `if c { t } else { f }` as it is written. */
  function IfTokens(c: Expr, t: Expr, f: Expr): seq<Tok>
    requires Printable(c) && Printable(t) && Printable(f)
  {
    [KIf] + (Printer.Print(Rust, c, 1) + ([LBrace] + (Printer.Print(Rust, t, 0) +
    ([RBrace, KElse] + ([LBrace] + (Printer.Print(Rust, f, 0) + [RBrace]))))))
  }

  lemma IfParses(c: Expr, t: Expr, f: Expr)
    requires Printable(c) && Printable(t) && Printable(f) && !f.If?
    ensures ParseProgram(Rust, IfTokens(c, t, f)) == Got(Program([], If(c, t, f), 0), [])
  {
    hide Printer.Print, ParseProgram, Formed;
    var s := SlotRun.Source([], If(c, t, f));
    IfIsPrinted(c, t, f);
    assert [] + Printer.Print(Rust, s.ret, 0) == Printer.Print(Rust, s.ret, 0);
    RustPrintThenParse(s);
    BindNothing(s.ret);
    NoLets();
  }

  lemma IfIsPrinted(c: Expr, t: Expr, f: Expr)
    requires Printable(c) && Printable(t) && Printable(f) && !f.If?
    ensures Printable(If(c, t, f)) && Printer.Print(Rust, If(c, t, f), 0) == IfTokens(c, t, f)
  {
    var e := If(c, t, f);
    assert Printable(e);
    assert Else(Rust, f) == [LBrace] + (Printer.Print(Rust, f, 0) + [RBrace]);
    IfBody(e);
    PrintAtLevel(Rust, e);
    assert Printer.Print(Rust, e, 0) == Body(Rust, e);
  }

  /**
   Running what `if c { t } else { f }` parses to: when the test has a value, the answer is what the first block
   evaluates to exactly when that value is truthy, and what the second one does otherwise.
   */
  lemma IfRuns(h: Host, c: Expr, t: Expr, f: Expr, steps: nat, bytes: nat)
    requires Printable(c) && Printable(t) && Printable(f) && !f.If? && steps > 0
    ensures ParseProgram(Rust, IfTokens(c, t, f)).Got?
    ensures var p, m := ParseProgram(Rust, IfTokens(c, t, f)).v, Sync.Machine(steps, bytes, 0, []);
            var x := Sync.Eval(h, [], c, Sync.Tick(h, m).m);
            x.out.Ok? ==>
              Sync.RunWith(h, p, steps, bytes) ==
              if ApplyPure(h.std, ToBool, [x.out.value]) == Ok(Bool(true)) then Sync.Eval(h, [], t, x.m)
              else Sync.Eval(h, [], f, x.m)
  {
    hide ParseProgram, Sync.Eval, Sync.Tick, AsBool, IfTokens, Formed;
    var m := Sync.Machine(steps, bytes, 0, []);
    IfParses(c, t, f);
    Ticks(h, m);
    assert Sync.Zeros(0) == [];
    var x := Sync.Eval(h, [], c, Sync.Tick(h, m).m);
    if x.out.Ok? {
      ConditionPicks(h, [], c, t, f, m);
      TruthIsBool(h.std, x.out.value);
    }
    assert Sync.RunFrom(h, Program([], If(c, t, f), 0), 0, [], m) == Sync.Eval(h, [], If(c, t, f), m);
  }

  lemma TruthIsBool(std: Std, v: Value)
    ensures ApplyPure(std, ToBool, [v]) == Ok(Bool(true)) || ApplyPure(std, ToBool, [v]) == Ok(Bool(false))
  {
    hide AsBool;
  }

  /** `if x < y { a } else { b }` answers with `a` exactly when `x` is less than `y`. */
  lemma ConstantIfRuns(h: Host, x: i64, y: i64, a: i64, b: i64, steps: nat, bytes: nat)
    requires steps >= 5 && h.std.lt(h.std.ofInt(x), h.std.ofInt(y)) == (x < y)
    ensures var ts := [KIf, TInt(x), Less, TInt(y), LBrace, TInt(a), RBrace, KElse, LBrace, TInt(b), RBrace];
            var p := ParseProgram(Rust, ts);
            p.Got? && Sync.RunWith(h, p.v, steps, bytes).out == Ok(Int(if x < y then a else b))
  {
    hide ParseProgram, Sync.Eval, Sync.Tick;
    var c, t, f := Cmp(Lt, Const(Int(x)), Const(Int(y))), Const(Int(a)), Const(Int(b));
    ConstantsPrint(x, y, a, b);
    IfTokensAre(x, y, a, b);
    IfRuns(h, c, t, f, steps, bytes);
    var m := Sync.Machine(steps, bytes, 0, []);
    Ticks(h, m);
    var n := Sync.Tick(h, m).m;
    TestRuns(h, x, y, n);
    var after := Sync.Eval(h, [], c, n).m;
    ConstantRuns(h, [], Int(a), after);
    ConstantRuns(h, [], Int(b), after);
  }

  lemma ConstantsPrint(x: i64, y: i64, a: i64, b: i64)
    ensures Printable(Cmp(Lt, Const(Int(x)), Const(Int(y)))) && Printable(Const(Int(x))) && Printable(Const(Int(y)))
    ensures Printable(Const(Int(a))) && Printable(Const(Int(b)))
  {
  }

  lemma IfTokensAre(x: i64, y: i64, a: i64, b: i64)
    ensures Printable(Cmp(Lt, Const(Int(x)), Const(Int(y)))) && Printable(Const(Int(a))) && Printable(Const(Int(b)))
    ensures IfTokens(Cmp(Lt, Const(Int(x)), Const(Int(y))), Const(Int(a)), Const(Int(b))) ==
            [KIf, TInt(x), Less, TInt(y), LBrace, TInt(a), RBrace, KElse, LBrace, TInt(b), RBrace]
  {
    hide Printer.Print;
    ConstantsPrint(x, y, a, b);
    IntPrints(x, 5);
    IntPrints(y, 5);
    IntPrints(a, 0);
    IntPrints(b, 0);
    LessPrints(Const(Int(x)), Const(Int(y)));
  }

  lemma IntPrints(n: i64, l: Level)
    ensures Printer.Print(Rust, Const(Int(n)), l) == [TInt(n)]
  {
  }

  lemma LessPrints(a: Expr, b: Expr)
    requires Printable(a) && Printable(b)
    ensures Printable(Cmp(Lt, a, b))
    ensures Printer.Print(Rust, Cmp(Lt, a, b), 1) == Printer.Print(Rust, a, 5) + ([Less] + Printer.Print(Rust, b, 5))
  {
  }

  lemma TestRuns(h: Host, x: i64, y: i64, m: Sync.Machine)
    requires m.budget >= 4 && m.since < 100 && h.std.lt(h.std.ofInt(x), h.std.ofInt(y)) == (x < y)
    ensures var r := Sync.Eval(h, [], Cmp(Lt, Const(Int(x)), Const(Int(y))), m);
            r.out == Ok(Bool(x < y)) && r.m.budget > 0 && r.m.since < 200
  {
    hide Sync.Tick, Compare;
    Ticks(h, m);
    var n := Sync.Tick(h, m).m;
    ConstantRuns(h, [], Int(x), n);
    ConstantRuns(h, [], Int(y), Sync.Eval(h, [], Const(Int(x)), n).m);
    assert Compare(h.std, CmpOp.Lt, Int(x), Int(y)) == Ok(x < y) by { LessIs(h.std, x, y); }
  }

  lemma LessIs(std: Std, x: i64, y: i64)
    ensures Compare(std, CmpOp.Lt, Int(x), Int(y)) == Ok(std.lt(std.ofInt(x), std.ofInt(y)))
  {
  }
}
