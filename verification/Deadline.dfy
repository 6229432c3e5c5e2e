/**
 The wall-clock guard. Time is the number of steps left: once the deadline predicate holds for good, a
 run stops within one checking interval, wherever in the program it happens to be.
 */
module Deadline {
  import opened Values
  import opened Ir
  import opened Ops
  import Sync

  /** From the moment `late` steps are left, every reading of the clock says the deadline has passed. */
  ghost predicate LateFrom(h: Host, late: nat) {
    h.deadline.Some? && forall log: seq<Event>, left: nat :: left <= late ==> h.deadline.value(log, left)
  }

  /** The counter has run since `late` steps were left, and has not reached the interval. */
  predicate Counting(late: nat, m: Sync.Machine) {
    m.since < DEADLINE_CHECK_INTERVAL && late - m.budget <= m.since
  }

  predicate Timely<T>(late: nat, r: Sync.Run<T>) {
    late - r.m.budget <= DEADLINE_CHECK_INTERVAL && (r.out.Ok? ==> Counting(late, r.m))
  }

  lemma TickTimely(h: Host, late: nat, m: Sync.Machine)
    requires LateFrom(h, late) && Counting(late, m)
    ensures Timely(late, Sync.Tick(h, m))
  {
  }

  lemma {:induction false} EvalTimely(h: Host, late: nat, locals: seq<Value>, e: Expr, m: Sync.Machine)
    requires LateFrom(h, late) && Counting(late, m)
    ensures Timely(late, Sync.Eval(h, locals, e, m))
    decreases e, 1
  {
    hide Sync.EvalNode, Sync.Tick, LateFrom;
    var t := Sync.Tick(h, m);
    TickTimely(h, late, m);
    if t.out.Ok? { NodeTimely(h, late, locals, e, t.m); }
  }

  lemma ChargedTimely(h: Host, late: nat, r: Sync.Run<Value>)
    requires Timely(late, r)
    ensures Timely(late, Sync.Charged(h, r))
  {
  }

  lemma {:induction false} NodeTimely(h: Host, late: nat, locals: seq<Value>, e: Expr, m: Sync.Machine)
    requires LateFrom(h, late) && Counting(late, m)
    ensures Timely(late, Sync.EvalNode(h, locals, e, m))
    decreases e, 0
  {
    hide Sync.Eval, Sync.EvalAll, Sync.Charged, Sync.Dispatch, LateFrom;
    hide NumBinop, Compare, IndexInto, ApplyUnary, AsBool;
    match e
    case Const(_) =>
    case Local(_) =>
    case Var(_) =>
    case Unary(_, a) => EvalTimely(h, late, locals, a, m);
    case Cmp(_, a, b) => BothTimely(h, late, locals, a, b, m, e);
    case Logic(_, a, b) => BothTimely(h, late, locals, a, b, m, e);
    case Index(a, b) => BothTimely(h, late, locals, a, b, m, e);
    case If(x, t, f) =>
      BothTimely(h, late, locals, x, t, m, e);
      BothTimely(h, late, locals, x, f, m, e);
    case Bin(op, a, b) =>
      BothTimely(h, late, locals, a, b, m, e);
      var x := Sync.Eval(h, locals, a, m);
      if x.out.Ok? {
        var y := Sync.Eval(h, locals, b, x.m);
        if y.out.Ok? {
          ChargedTimely(h, late, Sync.Run(NumBinop(h.std, op, x.out.value, y.out.value), y.m));
        }
      }
    case Call(b, args) =>
      AllTimely(h, late, locals, args, 0, [], m);
      var vs := Sync.EvalAll(h, locals, args, 0, [], m);
      if vs.out.Ok? { ChargedTimely(h, late, Sync.CallBuiltin(h, b, vs.out.value, vs.m)); }
    case ListOf(args) =>
      AllTimely(h, late, locals, args, 0, [], m);
      var vs := Sync.EvalAll(h, locals, args, 0, [], m);
      if vs.out.Ok? { ChargedTimely(h, late, Sync.Run(Ok(List(vs.out.value)), vs.m)); }
  }

  lemma {:induction false} BothTimely(h: Host, late: nat, locals: seq<Value>, a: Expr, b: Expr, m: Sync.Machine, whole: Expr)
    requires LateFrom(h, late) && Counting(late, m) && a < whole && b < whole
    ensures var x := Sync.Eval(h, locals, a, m);
            Timely(late, x) && (x.out.Ok? ==> Timely(late, Sync.Eval(h, locals, b, x.m)))
    decreases whole, -1
  {
    hide Sync.Eval, LateFrom;
    var x := Sync.Eval(h, locals, a, m);
    EvalTimely(h, late, locals, a, m);
    if x.out.Ok? { EvalTimely(h, late, locals, b, x.m); }
  }

  lemma {:induction false} AllTimely(h: Host, late: nat, locals: seq<Value>, args: seq<Expr>, i: nat, done: seq<Value>, m: Sync.Machine)
    requires LateFrom(h, late) && Counting(late, m)
    ensures Timely(late, Sync.EvalAll(h, locals, args, i, done, m))
    decreases args, if i <= |args| then |args| - i else 0
  {
    hide Sync.Eval, LateFrom;
    if i < |args| {
      EvalTimely(h, late, locals, args[i], m);
      var x := Sync.Eval(h, locals, args[i], m);
      if x.out.Ok? { AllTimely(h, late, locals, args, i + 1, done + [x.out.value], x.m); }
    }
  }

  lemma {:induction false} RunTimely(h: Host, late: nat, p: Program, i: nat, locals: seq<Value>, m: Sync.Machine)
    requires LateFrom(h, late) && Counting(late, m)
    ensures Timely(late, Sync.RunFrom(h, p, i, locals, m))
    decreases if i <= |p.body| then |p.body| - i else 0
  {
    hide Sync.Eval, LateFrom;
    if i >= |p.body| {
      EvalTimely(h, late, locals, p.ret, m);
    } else {
      EvalTimely(h, late, locals, p.body[i].expr, m);
      var x := Sync.Eval(h, locals, p.body[i].expr, m);
      if x.out.Ok? && p.body[i].slot < |locals| {
        RunTimely(h, late, p, i + 1, locals[p.body[i].slot := x.out.value], x.m);
      }
    }
  }

  /** After the deadline has passed for good, a run takes at most 256 more steps. */
  lemma StopsInTime(h: Host, late: nat, p: Program, maxSteps: nat, maxBytes: nat)
    requires LateFrom(h, late) && late <= maxSteps
    ensures late - Sync.RunWith(h, p, maxSteps, maxBytes).m.budget <= DEADLINE_CHECK_INTERVAL
  {
    hide Sync.RunFrom, LateFrom;
    RunTimely(h, late, p, 0, Sync.Zeros(p.nLocals), Sync.Machine(maxSteps, maxBytes, 0, []));
  }
}
