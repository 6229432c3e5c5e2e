/** The wall-clock guard of the cooperative evaluator, which keeps its own tick. */
module AsyncDeadline {
  import opened Values
  import opened Ir
  import opened Ops
  import opened Deadline
  import Sync
  import Async

  /** The counter has run since `late` steps were left, and has not reached the interval. */
  predicate CountingAsync(late: nat, c: Async.Context) {
    c.since < DEADLINE_CHECK_INTERVAL && late - c.budget <= c.since
  }

  predicate TimelyAsync<T>(late: nat, r: Async.Task<T>) {
    late - r.c.budget <= DEADLINE_CHECK_INTERVAL && (r.out.Ok? ==> CountingAsync(late, r.c))
  }

  lemma TickTimely(h: Host, late: nat, c: Async.Context)
    requires LateFrom(h, late) && CountingAsync(late, c)
    ensures TimelyAsync(late, Async.Tick(h, c))
  {
  }

  lemma {:induction false} EvalTimely(h: Host, late: nat, locals: seq<Value>, e: Expr, c: Async.Context)
    requires LateFrom(h, late) && CountingAsync(late, c)
    ensures TimelyAsync(late, Async.Eval(h, locals, e, c))
    decreases e, 1
  {
    hide Async.EvalNode, Async.Tick, LateFrom;
    var t := Async.Tick(h, c);
    TickTimely(h, late, c);
    if t.out.Ok? { NodeTimely(h, late, locals, e, t.c); }
  }

  lemma {:induction false} NodeTimely(h: Host, late: nat, locals: seq<Value>, e: Expr, c: Async.Context)
    requires LateFrom(h, late) && CountingAsync(late, c)
    ensures TimelyAsync(late, Async.EvalNode(h, locals, e, c))
    decreases e, 0
  {
    hide Async.Eval, Async.EvalAll, Async.Dispatch, LateFrom;
    hide NumBinop, Compare, IndexInto, ApplyUnary, AsBool;
    match e
    case Const(_) =>
    case Local(_) =>
    case Var(_) =>
    case Unary(_, a) => EvalTimely(h, late, locals, a, c);
    case Bin(_, a, b) => BothTimely(h, late, locals, a, b, c, e);
    case Cmp(_, a, b) => BothTimely(h, late, locals, a, b, c, e);
    case Logic(_, a, b) => BothTimely(h, late, locals, a, b, c, e);
    case Index(a, b) => BothTimely(h, late, locals, a, b, c, e);
    case If(x, t, f) =>
      BothTimely(h, late, locals, x, t, c, e);
      BothTimely(h, late, locals, x, f, c, e);
    case Call(_, args) => AllTimely(h, late, locals, args, 0, [], c);
    case ListOf(args) => AllTimely(h, late, locals, args, 0, [], c);
  }

  lemma {:induction false} BothTimely(h: Host, late: nat, locals: seq<Value>, a: Expr, b: Expr, c: Async.Context, whole: Expr)
    requires LateFrom(h, late) && CountingAsync(late, c) && a < whole && b < whole
    ensures var x := Async.Eval(h, locals, a, c);
            TimelyAsync(late, x) && (x.out.Ok? ==> TimelyAsync(late, Async.Eval(h, locals, b, x.c)))
    decreases whole, -1
  {
    hide Async.Eval, LateFrom;
    var x := Async.Eval(h, locals, a, c);
    EvalTimely(h, late, locals, a, c);
    if x.out.Ok? { EvalTimely(h, late, locals, b, x.c); }
  }

  lemma {:induction false} AllTimely(h: Host, late: nat, locals: seq<Value>, args: seq<Expr>, i: nat, done: seq<Value>, c: Async.Context)
    requires LateFrom(h, late) && CountingAsync(late, c)
    ensures TimelyAsync(late, Async.EvalAll(h, locals, args, i, done, c))
    decreases args, if i <= |args| then |args| - i else 0
  {
    hide Async.Eval, LateFrom;
    if i < |args| {
      EvalTimely(h, late, locals, args[i], c);
      var x := Async.Eval(h, locals, args[i], c);
      if x.out.Ok? { AllTimely(h, late, locals, args, i + 1, done + [x.out.value], x.c); }
    }
  }

  lemma {:induction false} RunTimely(h: Host, late: nat, p: Program, i: nat, locals: seq<Value>, c: Async.Context)
    requires LateFrom(h, late) && CountingAsync(late, c)
    ensures TimelyAsync(late, Async.RunFrom(h, p, i, locals, c))
    decreases if i <= |p.body| then |p.body| - i else 0
  {
    hide Async.Eval, LateFrom;
    if i >= |p.body| {
      EvalTimely(h, late, locals, p.ret, c);
    } else {
      EvalTimely(h, late, locals, p.body[i].expr, c);
      var x := Async.Eval(h, locals, p.body[i].expr, c);
      if x.out.Ok? && p.body[i].slot < |locals| {
        RunTimely(h, late, p, i + 1, locals[p.body[i].slot := x.out.value], x.c);
      }
    }
  }

  /** After the deadline has passed for good, a cooperative run takes at most 256 more steps. */
  lemma StopsInTimeAsync(h: Host, late: nat, p: Program, maxSteps: nat)
    requires LateFrom(h, late) && late <= maxSteps
    ensures late - Async.RunAsync(h, p, maxSteps).c.budget <= DEADLINE_CHECK_INTERVAL
  {
    hide Async.RunFrom, LateFrom;
    RunTimely(h, late, p, 0, Sync.Zeros(p.nLocals), Async.Context(maxSteps, 0, []));
  }
}
