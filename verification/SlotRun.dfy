/** Running a slot program against running its source under a name environment. */
module SlotRun {
  import opened Values
  import opened Ir
  import opened Ops
  import opened Parse
  import opened Slots
  import Sync

  /** Names bound by `let`s hide names of the host; the latest binding of a name counts. */
  function Shadow(scope: seq<string>, vals: seq<Value>, env: string -> Option<Value>): string -> Option<Value>
    requires |scope| == |vals|
  {
    (name: string) =>
      var k := LastBinding(scope, name);
      if k < |scope| then Some(vals[k]) else env(name)
  }

  /** The host with the `let`-bound names in front of its own. */
  function Under(scope: seq<string>, vals: seq<Value>, h: Host): Host
    requires |scope| == |vals|
  {
    h.(env := Shadow(scope, vals, h.env))
  }

  /** The first slots hold the values of the names in scope. */
  ghost predicate Holds(scope: seq<string>, vals: seq<Value>, locals: seq<Value>) {
    |scope| == |vals| <= |locals| < U16 && locals[..|vals|] == vals
  }

  lemma LookUpBound(h: Host, scope: seq<string>, vals: seq<Value>, locals: seq<Value>, name: string, m: Sync.Machine)
    requires Holds(scope, vals, locals)
    ensures Sync.EvalNode(h, locals, Resolve(scope, name), m) ==
            Sync.EvalNode(Under(scope, vals, h), [], Var(name), m)
  {
  }

  lemma {:induction false} BoundEval(h: Host, scope: seq<string>, vals: seq<Value>, locals: seq<Value>, e: Expr, m: Sync.Machine)
    requires Holds(scope, vals, locals) && Formed(0, e)
    ensures Sync.Eval(h, locals, Bind(scope, e), m) == Sync.Eval(Under(scope, vals, h), [], e, m)
    decreases e, 1
  {
    hide Sync.EvalNode, Bind, Formed;
    var t := Sync.Tick(h, m);
    assert Sync.Tick(Under(scope, vals, h), m) == t;
    if t.out.Ok? { BoundNode(h, scope, vals, locals, e, t.m); }
  }

  lemma {:induction false} BoundNode(h: Host, scope: seq<string>, vals: seq<Value>, locals: seq<Value>, e: Expr, m: Sync.Machine)
    requires Holds(scope, vals, locals) && Formed(0, e)
    ensures Sync.EvalNode(h, locals, Bind(scope, e), m) == Sync.EvalNode(Under(scope, vals, h), [], e, m)
    decreases e, 0
  {
    hide Sync.Eval, Sync.EvalAll, Sync.CallBuiltin, NumBinop, Compare, IndexInto, ApplyUnary, AsBool, Resolve, Shadow;
    match e
    case Const(_) =>
    case Var(name) => LookUpBound(h, scope, vals, locals, name, m);
    case Unary(_, a) => BoundEval(h, scope, vals, locals, a, m);
    case Bin(_, a, b) => BoundBoth(h, scope, vals, locals, a, b, m, e);
    case Cmp(_, a, b) => BoundBoth(h, scope, vals, locals, a, b, m, e);
    case Logic(_, a, b) => BoundBoth(h, scope, vals, locals, a, b, m, e);
    case Index(a, b) => BoundBoth(h, scope, vals, locals, a, b, m, e);
    case If(c, t, f) =>
      BoundBoth(h, scope, vals, locals, c, t, m, e);
      BoundBoth(h, scope, vals, locals, c, f, m, e);
    case Call(b, args) =>
      BoundAll(h, scope, vals, locals, args, 0, [], m);
      var vs := Sync.EvalAll(Under(scope, vals, h), [], args, 0, [], m);
      if vs.out.Ok? { SameCalls(h, scope, vals, locals, b, vs.out.value, vs.m); }
    case ListOf(args) => BoundAll(h, scope, vals, locals, args, 0, [], m);
  }

  /** Builtins do not look names up. */
  lemma SameCalls(h: Host, scope: seq<string>, vals: seq<Value>, locals: seq<Value>, b: Builtin, got: seq<Value>, m: Sync.Machine)
    requires Holds(scope, vals, locals)
    ensures Sync.CallBuiltin(h, b, got, m) == Sync.CallBuiltin(Under(scope, vals, h), b, got, m)
  {
    hide Shadow, ApplyBuiltin, Sync.Extract;
  }

  lemma {:induction false} BoundBoth(h: Host, scope: seq<string>, vals: seq<Value>, locals: seq<Value>, a: Expr, b: Expr, m: Sync.Machine, whole: Expr)
    requires Holds(scope, vals, locals) && Formed(0, a) && Formed(0, b) && a < whole && b < whole
    ensures var g := Under(scope, vals, h);
            var x := Sync.Eval(g, [], a, m);
            Sync.Eval(h, locals, Bind(scope, a), m) == x &&
            Sync.Eval(h, locals, Bind(scope, b), x.m) == Sync.Eval(g, [], b, x.m)
    decreases whole, -1
  {
    hide Sync.Eval, Bind, Formed, Shadow;
    BoundEval(h, scope, vals, locals, a, m);
    BoundEval(h, scope, vals, locals, b, Sync.Eval(Under(scope, vals, h), [], a, m).m);
  }

  lemma {:induction false} BoundAll(h: Host, scope: seq<string>, vals: seq<Value>, locals: seq<Value>, args: seq<Expr>, i: nat, done: seq<Value>, m: Sync.Machine)
    requires Holds(scope, vals, locals) && AllFormed(0, args)
    ensures Sync.EvalAll(h, locals, BindAll(scope, args), i, done, m) ==
            Sync.EvalAll(Under(scope, vals, h), [], args, i, done, m)
    decreases args, if i <= |args| then |args| - i else 0
  {
    hide Sync.Eval, Bind, Formed, Shadow, BindAll;
    if i < |args| {
      assert Formed(0, args[i]);
      BoundEval(h, scope, vals, locals, args[i], m);
      var x := Sync.Eval(Under(scope, vals, h), [], args[i], m);
      if x.out.Ok? { BoundAll(h, scope, vals, locals, args, i + 1, done + [x.out.value], x.m); }
    }
  }

  // ---- sources -------------------------------------------------------------------------------

  /** A program as written: `let`s over names, then a return expression. */
  datatype Source = Source(lets: seq<Let>, ret: Expr)

  function NamesOf(lets: seq<Let>): (r: seq<string>)
    ensures |r| == |lets| && forall i | 0 <= i < |lets| :: r[i] == lets[i].name
  {
    if lets == [] then [] else NamesOf(lets[..|lets| - 1]) + [lets[|lets| - 1].name]
  }

  /** Evaluate the `let`s in order, each in the scope of those before it, then the return expression. */
  function RunNamed(h: Host, s: Source, i: nat, vals: seq<Value>, m: Sync.Machine): Sync.Run<Value>
    requires i <= |s.lets| && |vals| == i
    decreases |s.lets| - i
  {
    var g := Under(NamesOf(s.lets[..i]), vals, h);
    if i == |s.lets| then Sync.Eval(g, [], s.ret, m)
    else
      var x := Sync.Eval(g, [], s.lets[i].expr, m);
      if x.out.Err? then x else RunNamed(h, s, i + 1, vals + [x.out.value], x.m)
  }

  /** The slot program of a source: slot `k` is binding `k`. */
  function Compile(s: Source): Program {
    Program(CompileLets(s.lets), Bind(NamesOf(s.lets), s.ret), |s.lets| % U16)
  }

  function CompileLets(lets: seq<Let>): (r: seq<LetBinding>)
    ensures |r| == |lets|
  {
    if lets == [] then []
    else
      var init, k := lets[..|lets| - 1], |lets| - 1;
      CompileLets(init) + [LetBinding(k % U16, Bind(NamesOf(init), lets[k].expr))]
  }

  lemma {:induction false} CompiledLet(lets: seq<Let>, i: nat)
    requires i < |lets|
    ensures CompileLets(lets)[i] == LetBinding(i % U16, Bind(NamesOf(lets[..i]), lets[i].expr))
    decreases |lets|
  {
    hide Bind;
    if i < |lets| - 1 {
      CompiledLet(lets[..|lets| - 1], i);
      assert lets[..|lets| - 1][..i] == lets[..i];
    }
  }

  /** What the `let`s parse to when no name is resolved. */
  function NamedLets(done: seq<Let>, ts: seq<Tok>): Parsed<seq<Let>>
    decreases |ts|
  {
    if !Starts(ts, KLet) then Got(done, ts)
    else
      var l := LetAt([], ts);
      if l.Fail? then Fail(l.err) else NamedLets(done + [l.v], l.rest)
  }

  /** Parsing to a source. */
  function ParseSource(ts: seq<Tok>): Parsed<Source> {
    var lets := NamedLets([], ts);
    if lets.Fail? then Fail(lets.err)
    else
      var ret := Conditional(Cx(Rust, []), lets.rest);
      if ret.Fail? then Fail(ret.err)
      else
        var rest := if Starts(ret.rest, Semi) then ret.rest[1..] else ret.rest;
        if rest != [] then Fail(Trailing) else Got(Source(lets.v, ret.v), [])
  }

  /** Names only, and no slot yet. */
  ghost predicate Named(lets: seq<Let>) { forall i | 0 <= i < |lets| :: Formed(0, lets[i].expr) }

  lemma LetCommutes(scope: seq<string>, ts: seq<Tok>)
    requires Starts(ts, KLet)
    ensures var l, n := LetAt(scope, ts), LetAt([], ts);
            if n.Fail? then l == n
            else l == Got(Let(n.v.name, Bind(scope, n.v.expr)), n.rest) && Formed(0, n.v.expr)
  {
    hide Conditional, Bind, Formed, Expect;
    if |ts| >= 2 && ts[1].Ident? && Starts(ts[2..], Assign) {
      ConditionalCommutes(Cx(Rust, scope), ts[3..]);
      ExpectCommutes(scope, Conditional(Cx(Rust, []), ts[3..]), Semi);
    }
  }

  lemma {:induction false} LetsCommute(done: seq<Let>, ts: seq<Tok>)
    requires Named(done)
    ensures var l, n := Lets(NamesOf(done), CompileLets(done), ts), NamedLets(done, ts);
            if n.Fail? then l == Fail(n.err)
            else l == Got((NamesOf(n.v), CompileLets(n.v)), n.rest) && Named(n.v)
    decreases |ts|
  {
    hide LetAt, Bind, Formed;
    if Starts(ts, KLet) {
      LetCommutes(NamesOf(done), ts);
      var n := LetAt([], ts);
      if n.Got? {
        var more := done + [n.v];
        assert more[..|more| - 1] == done && more[|more| - 1] == n.v;
        LetsCommute(more, n.rest);
      }
    }
  }

  /** The parser compiles the source it reads. */
  lemma ParseIsCompile(ts: seq<Tok>)
    ensures var p, s := ParseProgram(Rust, ts), ParseSource(ts);
            if s.Fail? then p == Fail(s.err)
            else p == Got(Compile(s.v), []) && Named(s.v.lets) && Formed(0, s.v.ret)
  {
    hide Conditional, Bind, Formed, Lets, NamedLets;
    LetsCommute([], ts);
    NoLets();
    var lets := NamedLets([], ts);
    if lets.Got? {
      ConditionalCommutes(Cx(Rust, NamesOf(lets.v)), lets.rest);
    }
  }

  lemma NoLets()
    ensures NamesOf([]) == [] && CompileLets([]) == []
  {
  }

  /** From any `let` on, the slots written so far stand for the names bound so far. */
  lemma {:induction false} CompiledRun(h: Host, s: Source, i: nat, vals: seq<Value>, locals: seq<Value>, m: Sync.Machine)
    requires i <= |s.lets| == |locals| < U16 && |vals| == i && vals == locals[..i]
    requires Named(s.lets) && Formed(0, s.ret)
    ensures Sync.RunFrom(h, Compile(s), i, locals, m) == RunNamed(h, s, i, vals, m)
    decreases |s.lets| - i
  {
    hide Sync.Eval, Bind, Formed, NamesOf, CompileLets, Shadow;
    var scope := NamesOf(s.lets[..i]);
    if i == |s.lets| {
      assert s.lets[..i] == s.lets;
      BoundEval(h, scope, vals, locals, s.ret, m);
    } else {
      var e := s.lets[i].expr;
      CompiledLet(s.lets, i);
      BoundEval(h, scope, vals, locals, e, m);
      var x := Sync.Eval(Under(scope, vals, h), [], e, m);
      if x.out.Ok? {
        var next := locals[i := x.out.value];
        assert next[..i + 1] == vals + [x.out.value];
        CompiledRun(h, s, i + 1, vals + [x.out.value], next, x.m);
      }
    }
  }

  /**
   A Rust-mode program with fewer than 65536 `let`s computes what its source means under names, step for
   step, for every host and every budget.
   */
  lemma SlotsMeanNames(h: Host, ts: seq<Tok>, maxSteps: nat, maxBytes: nat)
    requires ParseProgram(Rust, ts).Got? && |ParseProgram(Rust, ts).v.body| < U16
    ensures ParseSource(ts).Got?
    ensures Sync.RunWith(h, ParseProgram(Rust, ts).v, maxSteps, maxBytes) ==
            RunNamed(h, ParseSource(ts).v, 0, [], Sync.Machine(maxSteps, maxBytes, 0, []))
  {
    hide ParseProgram, ParseSource, Sync.RunFrom, RunNamed, Formed;
    ParseIsCompile(ts);
    var s := ParseSource(ts).v;
    var zeros := Sync.Zeros(|s.lets|);
    CompiledRun(h, s, 0, [], zeros, Sync.Machine(maxSteps, maxBytes, 0, []));
  }

  /** Slot `k` is binding `k`, and an expression reads only slots assigned before it. */
  lemma SlotsAssignedInOrder(ts: seq<Tok>, k: nat)
    requires ParseProgram(Rust, ts).Got? && |ParseProgram(Rust, ts).v.body| < U16
    ensures var p := ParseProgram(Rust, ts).v;
            p.nLocals == |p.body| && Formed(p.nLocals, p.ret) &&
            (k < |p.body| ==> p.body[k].slot == k && Formed(k, p.body[k].expr))
  {
    hide ParseProgram, ParseSource, Bind, Formed;
    ParseIsCompile(ts);
    var s := ParseSource(ts).v;
    BindFormed(NamesOf(s.lets), s.ret);
    if k < |s.lets| {
      CompiledLet(s.lets, k);
      BindFormed(NamesOf(s.lets[..k]), s.lets[k].expr);
    }
  }

  lemma {:induction false} BindFormed(scope: seq<string>, e: Expr)
    requires Formed(0, e)
    ensures Formed(|scope|, Bind(scope, e))
    decreases e
  {
    match e
    case Const(_) =>
    case Var(_) =>
    case Unary(_, a) => BindFormed(scope, a);
    case Bin(_, a, b) => BindFormed(scope, a); BindFormed(scope, b);
    case Cmp(_, a, b) => BindFormed(scope, a); BindFormed(scope, b);
    case Logic(_, a, b) => BindFormed(scope, a); BindFormed(scope, b);
    case Index(a, b) => BindFormed(scope, a); BindFormed(scope, b);
    case If(c, t, f) => BindFormed(scope, c); BindFormed(scope, t); BindFormed(scope, f);
    case Call(_, args) => BindAllFormed(scope, args, e);
    case ListOf(args) => BindAllFormed(scope, args, e);
  }

  lemma {:induction false} BindAllFormed(scope: seq<string>, args: seq<Expr>, whole: Expr)
    requires AllFormed(0, args) && forall i | 0 <= i < |args| :: args[i] < whole
    ensures AllFormed(|scope|, BindAll(scope, args))
    decreases whole, 0
  {
    hide Bind, Formed;
    forall i | 0 <= i < |args| ensures Formed(|scope|, BindAll(scope, args)[i]) {
      assert Formed(0, args[i]);
      BindFormed(scope, args[i]);
    }
  }
}
