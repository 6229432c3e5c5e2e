/** The laws of the operators at the level of whole runs, in both evaluators. */
module RunLaws {
  import opened Values
  import opened Ir
  import opened Ops
  import opened IntLaws
  import Bytes
  import Fetch
  import Sync
  import Async

  /** A program without lets. */
  function Just(e: Expr): Program { Program([], e, 0) }

  function OnTwo(op: BinOp, x: i64, y: i64): Expr { Bin(op, Const(Int(x)), Const(Int(y))) }

  /** A step with budget left and the clock not due. */
  lemma Ticks(h: Host, m: Sync.Machine)
    requires m.budget > 0 && m.since < 200
    ensures var t := Sync.Tick(h, m);
            t.out.Ok? && t.m.budget == m.budget - 1 && t.m.since <= m.since + 1 && t.m.mem == m.mem && t.m.log == m.log
  {
  }

  lemma ConstantRuns(h: Host, locals: seq<Value>, v: Value, m: Sync.Machine)
    requires m.budget > 0 && m.since < 200
    ensures var r := Sync.Eval(h, locals, Const(v), m);
            r.out == Ok(v) && r.m.budget == m.budget - 1 && r.m.since <= m.since + 1 && r.m.mem == m.mem
  {
    hide Sync.Tick;
    Ticks(h, m);
  }

  /** An operator on two integers runs in three steps and no memory. */
  lemma TwoRun(h: Host, op: BinOp, x: i64, y: i64, steps: nat, bytes: nat)
    requires steps >= 3
    ensures Sync.RunWith(h, Just(OnTwo(op, x, y)), steps, bytes).out == IntBinop(op, x, y)
  {
    hide Sync.Tick, Sync.Eval, IntBinop;
    var e, m := OnTwo(op, x, y), Sync.Machine(steps, bytes, 0, []);
    var locals := Sync.Zeros(0);
    Ticks(h, m);
    var t := Sync.Tick(h, m).m;
    ConstantRuns(h, locals, Int(x), t);
    ConstantRuns(h, locals, Int(y), Sync.Eval(h, locals, Const(Int(x)), t).m);
    IntOrError(op, x, y);
    NodeOfTwo(h, locals, op, x, y, m);
    assert Sync.RunFrom(h, Just(e), 0, locals, m) == Sync.Eval(h, locals, e, m);
  }

  lemma IntOrError(op: BinOp, x: i64, y: i64)
    ensures IntBinop(op, x, y).Ok? ==> IntBinop(op, x, y).value.Int?
  {
  }

  lemma NodeOfTwo(h: Host, locals: seq<Value>, op: BinOp, x: i64, y: i64, m: Sync.Machine)
    requires Sync.Tick(h, m).out.Ok? && (IntBinop(op, x, y).Ok? ==> IntBinop(op, x, y).value.Int?)
    requires var a := Sync.Eval(h, locals, Const(Int(x)), Sync.Tick(h, m).m);
             a.out == Ok(Int(x)) && Sync.Eval(h, locals, Const(Int(y)), a.m).out == Ok(Int(y))
    ensures Sync.Eval(h, locals, OnTwo(op, x, y), m).out == IntBinop(op, x, y)
  {
    hide Sync.Tick, IntBinop;
  }

  /**
   A program that subtracts two constants answers with what has to be added to the second to get the first, up to
   multiples of 2^64, and with the difference itself when it fits. Both evaluators do.
   */
  lemma SubtractionRuns(h: Host, x: i64, y: i64, steps: nat, bytes: nat)
    requires steps >= 3
    ensures var r := Sync.RunWith(h, Just(OnTwo(BinOp.Sub, x, y)), steps, bytes).out;
            && GivesInt(r) && Plus(r.value.n, y) == x
            && (-9223372036854775808 <= x - y <= 9223372036854775807 ==> r.value.n + y == x)
            && Async.RunAsync(h, Just(OnTwo(BinOp.Sub, x, y)), steps).out == r
  {
    hide Sync.RunWith, Async.RunAsync, Plus, Minus;
    TwoRun(h, BinOp.Sub, x, y, steps, bytes);
    TwoRunAsync(h, BinOp.Sub, x, y, steps);
    SubUndoesAdd(x, y);
    assert IntBinop(BinOp.Sub, x, y) == Ok(Int(Minus(x, y))) by { MinusIs(x, y); }
  }

  lemma MinusIs(x: i64, y: i64)
    ensures IntBinop(BinOp.Sub, x, y) == Ok(Int(Minus(x, y)))
  {
  }

  /** A program that divides two constants, or takes the remainder: the pair that rounds towards zero. */
  lemma DivisionRuns(h: Host, x: i64, y: i64, steps: nat, bytes: nat)
    requires steps >= 3 && y != 0 && !(x == -9223372036854775808 && y == -1)
    ensures var q, r := Sync.RunWith(h, Just(OnTwo(BinOp.Div, x, y)), steps, bytes).out,
                        Sync.RunWith(h, Just(OnTwo(BinOp.Rem, x, y)), steps, bytes).out;
            GivesInt(q) && GivesInt(r) && Divides(x, y, q.value.n, r.value.n)
  {
    hide Sync.RunWith, IntBinop, Divides;
    TwoRun(h, BinOp.Div, x, y, steps, bytes);
    TwoRun(h, BinOp.Rem, x, y, steps, bytes);
    DivisionLaw(x, y);
  }

  lemma TicksAsync(h: Host, c: Async.Context)
    requires c.budget > 0 && c.since < 200
    ensures var t := Async.Tick(h, c); t.out.Ok? && t.c.budget == c.budget - 1 && t.c.since <= c.since + 1
  {
  }

  lemma ConstantRunsAsync(h: Host, locals: seq<Value>, v: Value, c: Async.Context)
    requires c.budget > 0 && c.since < 200
    ensures var r := Async.Eval(h, locals, Const(v), c);
            r.out == Ok(v) && r.c.budget == c.budget - 1 && r.c.since <= c.since + 1
  {
    hide Async.Tick;
    TicksAsync(h, c);
  }

  lemma TwoRunAsync(h: Host, op: BinOp, x: i64, y: i64, steps: nat)
    requires steps >= 3
    ensures Async.RunAsync(h, Just(OnTwo(op, x, y)), steps).out == IntBinop(op, x, y)
  {
    hide Async.Tick, Async.Eval, IntBinop;
    var e, c := OnTwo(op, x, y), Async.Context(steps, 0, []);
    var locals := Sync.Zeros(0);
    TicksAsync(h, c);
    var t := Async.Tick(h, c).c;
    ConstantRunsAsync(h, locals, Int(x), t);
    ConstantRunsAsync(h, locals, Int(y), Async.Eval(h, locals, Const(Int(x)), t).c);
    NodeOfTwoAsync(h, locals, op, x, y, c);
    assert Async.RunFrom(h, Just(e), 0, locals, c) == Async.Eval(h, locals, e, c);
  }

  lemma NodeOfTwoAsync(h: Host, locals: seq<Value>, op: BinOp, x: i64, y: i64, c: Async.Context)
    requires Async.Tick(h, c).out.Ok?
    requires var a := Async.Eval(h, locals, Const(Int(x)), Async.Tick(h, c).c);
             a.out == Ok(Int(x)) && Async.Eval(h, locals, Const(Int(y)), a.c).out == Ok(Int(y))
    ensures Async.Eval(h, locals, OnTwo(op, x, y), c).out == IntBinop(op, x, y)
  {
    hide Async.Tick, IntBinop;
  }

  // ---- conditions ----------------------------------------------------------------------------

  /**
   A conditional answers with what its first branch answers, evaluated after the test, exactly when the test is
   truthy, and with what its second branch answers otherwise; the other branch leaves no trace.
   */
  lemma ConditionPicks(h: Host, locals: seq<Value>, c: Expr, t: Expr, f: Expr, m: Sync.Machine)
    requires Sync.Tick(h, m).out.Ok? && Sync.Eval(h, locals, c, Sync.Tick(h, m).m).out.Ok?
    ensures var x := Sync.Eval(h, locals, c, Sync.Tick(h, m).m); var r := Sync.Eval(h, locals, If(c, t, f), m);
            && (ApplyPure(h.std, ToBool, [x.out.value]) == Ok(Bool(true)) ==> r == Sync.Eval(h, locals, t, x.m))
            && (ApplyPure(h.std, ToBool, [x.out.value]) == Ok(Bool(false)) ==> r == Sync.Eval(h, locals, f, x.m))
  {
    hide Sync.Tick, AsBool;
    var n := Sync.Tick(h, m).m;
    assert Sync.Eval(h, locals, If(c, t, f), m) == Sync.EvalNode(h, locals, If(c, t, f), n);
  }

  // ---- comparisons, connectives and names ----------------------------------------------------

  /** A program that compares two constants answers with the truth of the comparison, or its error. */
  lemma ComparisonRuns(h: Host, op: CmpOp, a: Value, b: Value, steps: nat, bytes: nat, yes: bool)
    requires steps >= 3 && Compare(h.std, op, a, b) == Ok(yes)
    ensures Sync.RunWith(h, Just(Cmp(op, Const(a), Const(b))), steps, bytes).out == Ok(Bool(yes))
  {
    hide Sync.Tick, Sync.Eval, Compare;
    var e, m, locals := Cmp(op, Const(a), Const(b)), Sync.Machine(steps, bytes, 0, []), Sync.Zeros(0);
    Ticks(h, m);
    var t := Sync.Tick(h, m).m;
    ConstantRuns(h, locals, a, t);
    ConstantRuns(h, locals, b, Sync.Eval(h, locals, Const(a), t).m);
    NodeOfCmp(h, locals, op, a, b, m);
    assert Sync.RunFrom(h, Just(e), 0, locals, m) == Sync.Eval(h, locals, e, m);
  }

  lemma NodeOfCmp(h: Host, locals: seq<Value>, op: CmpOp, a: Value, b: Value, m: Sync.Machine)
    requires Sync.Tick(h, m).out.Ok? && Compare(h.std, op, a, b).Ok?
    requires var x := Sync.Eval(h, locals, Const(a), Sync.Tick(h, m).m);
             x.out == Ok(a) && Sync.Eval(h, locals, Const(b), x.m).out == Ok(b)
    ensures Sync.Eval(h, locals, Cmp(op, Const(a), Const(b)), m).out == Ok(Bool(Compare(h.std, op, a, b).value))
  {
    hide Sync.Tick, Compare;
  }

  /** `and` is true when both sides are truthy, `or` when one is; the answer is a truth value. */
  lemma ConnectivesRun(h: Host, a: Value, b: Value, steps: nat, bytes: nat)
    requires steps >= 3
    ensures Sync.RunWith(h, Just(Logic(And, Const(a), Const(b))), steps, bytes).out ==
            Ok(Bool(AsBool(h.std, a) && AsBool(h.std, b)))
    ensures Sync.RunWith(h, Just(Logic(Or, Const(a), Const(b))), steps, bytes).out ==
            Ok(Bool(AsBool(h.std, a) || AsBool(h.std, b)))
  {
    hide Sync.Tick, Sync.Eval, AsBool;
    var m, locals := Sync.Machine(steps, bytes, 0, []), Sync.Zeros(0);
    Ticks(h, m);
    var t := Sync.Tick(h, m).m;
    ConstantRuns(h, locals, a, t);
    ConstantRuns(h, locals, b, Sync.Eval(h, locals, Const(a), t).m);
    NodeOfLogic(h, locals, And, a, b, m);
    NodeOfLogic(h, locals, Or, a, b, m);
    assert forall e :: Sync.RunFrom(h, Just(e), 0, locals, m) == Sync.Eval(h, locals, e, m);
  }

  lemma NodeOfLogic(h: Host, locals: seq<Value>, op: BoolOp, a: Value, b: Value, m: Sync.Machine)
    requires Sync.Tick(h, m).out.Ok?
    requires var x := Sync.Eval(h, locals, Const(a), Sync.Tick(h, m).m);
             x.out == Ok(a) && Sync.Eval(h, locals, Const(b), x.m).out == Ok(b)
    ensures Sync.Eval(h, locals, Logic(op, Const(a), Const(b)), m).out ==
            Ok(Bool(if op.And? then AsBool(h.std, a) && AsBool(h.std, b) else AsBool(h.std, a) || AsBool(h.std, b)))
  {
    hide Sync.Tick, AsBool;
  }

  /** A free name is the host's, and an unknown one is an error that names it. */
  lemma NamesRun(h: Host, name: string, steps: nat, bytes: nat)
    requires steps >= 1
    ensures var r := Sync.RunWith(h, Just(Var(name)), steps, bytes).out;
            && (h.env(name).Some? ==> r == Ok(h.env(name).value))
            && (h.env(name).None? ==> r == Err(UnknownName(name)))
  {
    hide Sync.Tick, Sync.Eval, Sync.LookUp;
    var m, locals := Sync.Machine(steps, bytes, 0, []), Sync.Zeros(0);
    Ticks(h, m);
    NodeOfName(h, locals, name, m);
    assert Sync.RunFrom(h, Just(Var(name)), 0, locals, m) == Sync.Eval(h, locals, Var(name), m);
  }

  lemma NodeOfName(h: Host, locals: seq<Value>, name: string, m: Sync.Machine)
    requires Sync.Tick(h, m).out.Ok?
    ensures var r := Sync.Eval(h, locals, Var(name), m).out;
            && (h.env(name).Some? ==> r == Ok(h.env(name).value))
            && (h.env(name).None? ==> r == Err(UnknownName(name)))
  {
    hide Sync.Tick;
  }

  /** `fetch_json` answers with the probe's first hit; without one, with the failure of the transfer or a missing field. */
  lemma FirstHitWins(probe: Fetch.Probe, before: seq<seq<Bytes.Byte>>, b: seq<Bytes.Byte>, after: seq<seq<Bytes.Byte>>, failure: Option<Error>)
    requires forall i | 0 <= i < |before| :: probe(before[i]).None?
    ensures probe(b).Some? ==> Sync.Extract(probe, Transfer(before + [b] + after, failure)) == Ok(probe(b).value)
    ensures Sync.Extract(probe, Transfer(before, failure)) == Err(if failure.Some? then failure.value else FieldNotFound)
  {
    NoneHit(probe, before);
    if probe(b).Some? { HitAfter(probe, before, b, after); }
  }

  lemma {:induction false} NoneHit(probe: Fetch.Probe, before: seq<seq<Bytes.Byte>>)
    requires forall i | 0 <= i < |before| :: probe(before[i]).None?
    ensures Fetch.FirstHit(probe, before) == None
  {
    if before != [] { NoneHit(probe, before[1..]); }
  }

  lemma {:induction false} HitAfter(probe: Fetch.Probe, before: seq<seq<Bytes.Byte>>, b: seq<Bytes.Byte>, after: seq<seq<Bytes.Byte>>)
    requires (forall i | 0 <= i < |before| :: probe(before[i]).None?) && probe(b).Some?
    ensures Fetch.FirstHit(probe, before + [b] + after) == probe(b)
    decreases |before|
  {
    var all := before + [b] + after;
    if before == [] {
      assert all[0] == b;
    } else {
      HitAfter(probe, before[1..], b, after);
      assert all[1..] == before[1..] + [b] + after;
    }
  }

  // ---- lists ---------------------------------------------------------------------------------

  function Constants(vals: seq<Value>): (args: seq<Expr>)
    ensures |args| == |vals|
  {
    seq(|vals|, i requires 0 <= i < |vals| => Const(vals[i]))
  }

  lemma ConstantIs(h: Host, locals: seq<Value>, v: Value, m: Sync.Machine, c: Async.Context)
    requires h.deadline.None?
    ensures m.budget > 0 ==> Sync.Eval(h, locals, Const(v), m) == Sync.Run(Ok(v), m.(budget := m.budget - 1))
    ensures c.budget > 0 ==> Async.Eval(h, locals, Const(v), c) == Async.Task(Ok(v), c.(budget := c.budget - 1))
  {
  }

  lemma {:induction false} ItemsInOrder(h: Host, locals: seq<Value>, vals: seq<Value>, i: nat, m: Sync.Machine, c: Async.Context)
    requires h.deadline.None? && i <= |vals|
    ensures m.budget >= |vals| - i ==>
              Sync.EvalAll(h, locals, Constants(vals), i, vals[..i], m) ==
              Sync.Run(Ok(vals), m.(budget := m.budget - (|vals| - i)))
    ensures c.budget >= |vals| - i ==>
              Async.EvalAll(h, locals, Constants(vals), i, vals[..i], c) ==
              Async.Task(Ok(vals), c.(budget := c.budget - (|vals| - i)))
    decreases |vals| - i
  {
    hide Sync.Eval, Async.Eval;
    if i < |vals| {
      ConstantIs(h, locals, vals[i], m, c);
      assert vals[..i] + [vals[i]] == vals[..i + 1];
      var m1 := if m.budget > 0 then m.(budget := m.budget - 1) else m;
      var c1 := if c.budget > 0 then c.(budget := c.budget - 1) else c;
      ItemsInOrder(h, locals, vals, i + 1, m1, c1);
    } else {
      assert vals[..i] == vals;
    }
  }

  lemma NodeOfList(h: Host, locals: seq<Value>, args: seq<Expr>, vals: seq<Value>, m: Sync.Machine, c: Async.Context)
    requires h.deadline.None? && m.budget > 0 && c.budget > 0
    requires Sync.EvalAll(h, locals, args, 0, [], m.(budget := m.budget - 1)).out == Ok(vals)
    requires Sync.EvalAll(h, locals, args, 0, [], m.(budget := m.budget - 1)).m.mem == m.mem
    requires Async.EvalAll(h, locals, args, 0, [], c.(budget := c.budget - 1)).out == Ok(vals)
    ensures Sync.Eval(h, locals, ListOf(args), m).out ==
            if m.mem < Charge(h.valueSize, List(vals)) then Err(MemoryLimit) else Ok(List(vals))
    ensures Async.Eval(h, locals, ListOf(args), c).out == Ok(List(vals))
  {
    hide Sync.EvalAll, Async.EvalAll, Charge;
  }

  /** A list is built from its items in the order they are written, and so are the arguments of a call. */
  lemma ListsRun(h: Host, vals: seq<Value>, steps: nat, bytes: nat)
    requires h.deadline.None? && steps > |vals|
    ensures var r := Sync.RunWith(h, Just(ListOf(Constants(vals))), steps, bytes).out;
            r == if bytes < Charge(h.valueSize, List(vals)) then Err(MemoryLimit) else Ok(List(vals))
    ensures Async.RunAsync(h, Just(ListOf(Constants(vals))), steps).out == Ok(List(vals))
  {
    hide Sync.EvalAll, Async.EvalAll, Sync.Eval, Async.Eval, Charge, Constants;
    var m, c, locals := Sync.Machine(steps, bytes, 0, []), Async.Context(steps, 0, []), Sync.Zeros(0);
    var e := ListOf(Constants(vals));
    assert vals[..0] == [];
    ItemsInOrder(h, locals, vals, 0, m.(budget := steps - 1), c.(budget := steps - 1));
    NodeOfList(h, locals, Constants(vals), vals, m, c);
    assert Sync.RunFrom(h, Just(e), 0, locals, m) == Sync.Eval(h, locals, e, m);
    assert Async.RunFrom(h, Just(e), 0, locals, c) == Async.Eval(h, locals, e, c);
  }

  // ---- the network ---------------------------------------------------------------------------

  /** `fetch` answers with what the network has at its url; `fetch_json` looks for its second argument in what is at its first. */
  lemma FetchLaw(h: Host, url: string, path: string, log: seq<Event>, body: string)
    requires h.net.Some?
    ensures h.net.value.fetch(log, url) == Ok(body) ==>
              Sync.Dispatch(h, FetchUrl, [Str(url)], log) == Effect(Ok(Str(body)), log + [Fetched(url)])
    ensures var t := h.net.value.stream(log, url); var r := Sync.Dispatch(h, FetchJson, [Str(url), Str(path)], log);
            r.log == log + [Streamed(url)] && r.out == Sync.Extract(Fetch.JsonProbe(h.std, path), t)
    ensures var t := h.net.value.stream(log, url); var r := Async.Dispatch(h, FetchJson, [Str(url), Str(path)], log);
            r.log == log + [Streamed(url)] && r.out == Sync.Extract(Fetch.JsonProbe(h.std, path), t)
  {
    hide Sync.Extract;
  }

  // ---- the clock -----------------------------------------------------------------------------

  /** With a deadline set, the clock is read at every 256th step and at no other, and what it says decides. */
  lemma ClockLaw(h: Host, m: Sync.Machine)
    requires h.deadline.Some? && m.budget > 0
    ensures var t := Sync.Tick(h, m);
            && (m.since + 1 < 256 ==> t.out.Ok? && t.m.since == m.since + 1 && t.m.log == m.log)
            && (m.since + 1 == 256 ==> t.m.since == 0 && t.m.log == m.log + [ClockRead])
            && (m.since + 1 == 256 ==> (t.out == Err(Timeout) <==> h.deadline.value(m.log, m.budget - 1)))
    ensures var t := Async.Tick(h, Async.Context(m.budget, m.since, m.log)); var s := Sync.Tick(h, m);
            t.out == s.out && t.c.since == s.m.since && t.c.log == s.m.log
  {
  }
}
