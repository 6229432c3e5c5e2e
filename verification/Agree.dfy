/**
 The two evaluators agree. Only the memory budget can tell them apart, and only by stopping early.
 */
module Agree {
  import opened Values
  import opened Ir
  import opened Ops
  import Sync
  import Async
  import opened Capabilities

  /** What a frame shares with a context. */
  function Shared(m: Sync.Machine): Async.Context { Async.Context(m.budget, m.since, m.log) }

  /** The host as the cooperative evaluator sees it: without an LED. */
  function WithoutLed(h: Host): Host { h.(actuator := None) }

  /** `later` is a state the run may reach after `earlier`: it only adds events the host grants, none of them an LED's. */
  ghost predicate Continues(h: Host, earlier: Async.Context, later: Async.Context) {
    later.budget <= earlier.budget && Adds(WithoutLed(h), earlier.log, later.log)
  }

  /**
   Out of memory, the budgeted run is a prefix of the other; in every other case the two give the same
   result and leave the same budget, clock counter and trace of host calls.
   */
  ghost predicate Matches<T>(h: Host, s: Sync.Run<T>, a: Async.Task<T>) {
    if s.out == Err(MemoryLimit) then Continues(h, Shared(s.m), a.c)
    else a.out == s.out && a.c == Shared(s.m)
  }

  // ---- runs only move forward ----------------------------------------------------------------

  lemma EffectExtends(h: Host, b: Builtin, vals: seq<Value>, log: seq<Event>)
    ensures Adds(WithoutLed(h), log, Async.Dispatch(h, b, vals, log).log)
  {
    hide ApplyPure, Sync.Extract, ColourOf;
  }

  lemma {:induction false} EvalContinues(h: Host, locals: seq<Value>, e: Expr, c: Async.Context)
    ensures Continues(h, c, Async.Eval(h, locals, e, c).c)
    decreases e, 1
  {
    hide Async.EvalNode;
    var t := Async.Tick(h, c);
    if t.out.Ok? { NodeContinues(h, locals, e, t.c); }
  }

  lemma {:induction false} NodeContinues(h: Host, locals: seq<Value>, e: Expr, c: Async.Context)
    ensures Continues(h, c, Async.EvalNode(h, locals, e, c).c)
    decreases e, 0
  {
    hide Async.Eval, Async.EvalAll, NumBinop, Compare, IndexInto, ApplyUnary, AsBool, Async.Dispatch;
    match e
    case Const(_) =>
    case Local(_) =>
    case Var(_) =>
    case Unary(_, a) => EvalContinues(h, locals, a, c);
    case Bin(_, a, b) => BothContinue(h, locals, a, b, c, e);
    case Cmp(_, a, b) => BothContinue(h, locals, a, b, c, e);
    case Logic(_, a, b) => BothContinue(h, locals, a, b, c, e);
    case Index(a, b) => BothContinue(h, locals, a, b, c, e);
    case If(x, t, f) =>
      EvalContinues(h, locals, x, c);
      EvalContinues(h, locals, t, Async.Eval(h, locals, x, c).c);
      EvalContinues(h, locals, f, Async.Eval(h, locals, x, c).c);
    case Call(b, args) =>
      AllContinue(h, locals, args, 0, [], c);
      var vs := Async.EvalAll(h, locals, args, 0, [], c);
      if vs.out.Ok? { EffectExtends(h, b, vs.out.value, vs.c.log); }
    case ListOf(args) => AllContinue(h, locals, args, 0, [], c);
  }

  lemma {:induction false} BothContinue(h: Host, locals: seq<Value>, a: Expr, b: Expr, c: Async.Context, whole: Expr)
    requires a < whole && b < whole
    ensures var x := Async.Eval(h, locals, a, c).c;
            Continues(h, c, x) && Continues(h, x, Async.Eval(h, locals, b, x).c)
    decreases whole, -1
  {
    hide Async.Eval;
    EvalContinues(h, locals, a, c);
    EvalContinues(h, locals, b, Async.Eval(h, locals, a, c).c);
  }

  lemma {:induction false} AllContinue(h: Host, locals: seq<Value>, args: seq<Expr>, i: nat, done: seq<Value>, c: Async.Context)
    ensures Continues(h, c, Async.EvalAll(h, locals, args, i, done, c).c)
    decreases args, if i <= |args| then |args| - i else 0
  {
    hide Async.Eval;
    if i < |args| {
      EvalContinues(h, locals, args[i], c);
      var x := Async.Eval(h, locals, args[i], c);
      if x.out.Ok? { AllContinue(h, locals, args, i + 1, done + [x.out.value], x.c); }
    }
  }

  // ---- agreement -----------------------------------------------------------------------------

  lemma {:induction false} EvalAgrees(h: Host, locals: seq<Value>, e: Expr, m: Sync.Machine)
    ensures Matches(h, Sync.Eval(WithoutLed(h), locals, e, m), Async.Eval(h, locals, e, Shared(m)))
    decreases e, 1
  {
    hide Sync.EvalNode, Async.EvalNode;
    var t := Sync.Tick(WithoutLed(h), m);
    if t.out.Ok? {
      NodeAgrees(h, locals, e, t.m);
    }
  }

  /** A charge either leaves the result alone or reports that memory ran out. */
  lemma ChargeMatches(h: Host, r: Sync.Run<Value>)
    ensures Matches(h, Sync.Charged(h, r), Async.Task(r.out, Shared(r.m)))
  {
  }

  lemma CallAgrees(h: Host, b: Builtin, vals: seq<Value>, m: Sync.Machine)
    ensures var s, a := Sync.CallBuiltin(WithoutLed(h), b, vals, m), Async.CallBuiltin(h, b, vals, Shared(m));
            a.out == s.out && a.c == Shared(s.m)
  {
    hide ApplyBuiltin, Sync.Extract;
  }

  lemma {:induction false} NodeAgrees(h: Host, locals: seq<Value>, e: Expr, m: Sync.Machine)
    ensures Matches(h, Sync.EvalNode(WithoutLed(h), locals, e, m), Async.EvalNode(h, locals, e, Shared(m)))
    decreases e, 0
  {
    hide Sync.Eval, Async.Eval, Sync.EvalAll, Async.EvalAll, Sync.Charged;
    hide NumBinop, Compare, IndexInto, ApplyUnary, AsBool, Sync.CallBuiltin, Async.CallBuiltin;
    var g, c := WithoutLed(h), Shared(m);
    match e
    case Const(_) =>
    case Local(_) =>
    case Var(_) =>
    case Unary(_, a) => EvalAgrees(h, locals, a, m);
    case Cmp(_, a, b) => BothAgree(h, locals, a, b, m, e);
    case Logic(_, a, b) => BothAgree(h, locals, a, b, m, e);
    case Index(a, b) => BothAgree(h, locals, a, b, m, e);
    case If(x, t, f) =>
      BothAgree(h, locals, x, t, m, e);
      BothAgree(h, locals, x, f, m, e);
    case Bin(op, a, b) =>
      BothAgree(h, locals, a, b, m, e);
      var x := Sync.Eval(g, locals, a, m);
      if x.out.Ok? {
        var y := Sync.Eval(g, locals, b, x.m);
        if y.out.Ok? {
          ChargeMatches(g, Sync.Run(NumBinop(h.std, op, x.out.value, y.out.value), y.m));
        }
      }
    case Call(b, args) =>
      AllAgree(h, locals, args, 0, [], m);
      var vs := Sync.EvalAll(g, locals, args, 0, [], m);
      if vs.out.Ok? {
        CallAgrees(h, b, vs.out.value, vs.m);
        ChargeMatches(g, Sync.CallBuiltin(g, b, vs.out.value, vs.m));
      } else if vs.out == Err(MemoryLimit) {
        CallContinues(h, locals, e, c);
      }
    case ListOf(args) =>
      AllAgree(h, locals, args, 0, [], m);
      var vs := Sync.EvalAll(g, locals, args, 0, [], m);
      if vs.out.Ok? { ChargeMatches(g, Sync.Run(Ok(List(vs.out.value)), vs.m)); }
  }

  /** A call never undoes what evaluating its arguments did. */
  lemma CallContinues(h: Host, locals: seq<Value>, e: Expr, c: Async.Context)
    requires e.Call?
    ensures Continues(h, Async.EvalAll(h, locals, e.args, 0, [], c).c, Async.EvalNode(h, locals, e, c).c)
  {
    hide Async.Eval, Async.EvalAll, Async.Dispatch;
    var vs := Async.EvalAll(h, locals, e.args, 0, [], c);
    if vs.out.Ok? { EffectExtends(h, e.b, vs.out.value, vs.c.log); }
  }

  lemma {:induction false} BothAgree(h: Host, locals: seq<Value>, a: Expr, b: Expr, m: Sync.Machine, whole: Expr)
    requires a < whole && b < whole
    ensures var g := WithoutLed(h);
            var x, xa := Sync.Eval(g, locals, a, m), Async.Eval(h, locals, a, Shared(m));
            Matches(h, x, xa) &&
            (x.out.Ok? ==> Matches(h, Sync.Eval(g, locals, b, x.m), Async.Eval(h, locals, b, xa.c))) &&
            Continues(h, xa.c, Async.Eval(h, locals, b, xa.c).c)
    decreases whole, -1
  {
    hide Sync.Eval, Async.Eval;
    var x := Sync.Eval(WithoutLed(h), locals, a, m);
    EvalAgrees(h, locals, a, m);
    if x.out.Ok? { EvalAgrees(h, locals, b, x.m); }
    EvalContinues(h, locals, b, Async.Eval(h, locals, a, Shared(m)).c);
  }

  lemma {:induction false} AllAgree(h: Host, locals: seq<Value>, args: seq<Expr>, i: nat, done: seq<Value>, m: Sync.Machine)
    ensures Matches(h, Sync.EvalAll(WithoutLed(h), locals, args, i, done, m),
                    Async.EvalAll(h, locals, args, i, done, Shared(m)))
    decreases args, if i <= |args| then |args| - i else 0
  {
    hide Sync.Eval, Async.Eval;
    if i < |args| {
      EvalAgrees(h, locals, args[i], m);
      var x, xa := Sync.Eval(WithoutLed(h), locals, args[i], m), Async.Eval(h, locals, args[i], Shared(m));
      if x.out.Ok? {
        AllAgree(h, locals, args, i + 1, done + [x.out.value], x.m);
      } else if xa.out.Ok? {
        AllContinue(h, locals, args, i + 1, done + [xa.out.value], xa.c);
      }
    }
  }

  lemma {:induction false} RunContinues(h: Host, p: Program, i: nat, locals: seq<Value>, c: Async.Context)
    ensures Continues(h, c, Async.RunFrom(h, p, i, locals, c).c)
    decreases if i <= |p.body| then |p.body| - i else 0
  {
    hide Async.Eval;
    if i >= |p.body| {
      EvalContinues(h, locals, p.ret, c);
    } else {
      EvalContinues(h, locals, p.body[i].expr, c);
      var x := Async.Eval(h, locals, p.body[i].expr, c);
      if x.out.Ok? && p.body[i].slot < |locals| {
        RunContinues(h, p, i + 1, locals[p.body[i].slot := x.out.value], x.c);
      }
    }
  }

  lemma {:induction false} RunAgrees(h: Host, p: Program, i: nat, locals: seq<Value>, m: Sync.Machine)
    ensures Matches(h, Sync.RunFrom(WithoutLed(h), p, i, locals, m), Async.RunFrom(h, p, i, locals, Shared(m)))
    decreases if i <= |p.body| then |p.body| - i else 0
  {
    hide Sync.Eval, Async.Eval;
    if i >= |p.body| {
      EvalAgrees(h, locals, p.ret, m);
    } else {
      var e, slot := p.body[i].expr, p.body[i].slot;
      EvalAgrees(h, locals, e, m);
      var x, xa := Sync.Eval(WithoutLed(h), locals, e, m), Async.Eval(h, locals, e, Shared(m));
      if x.out.Ok? && slot < |locals| {
        RunAgrees(h, p, i + 1, locals[slot := x.out.value], x.m);
      } else if xa.out.Ok? && slot < |locals| {
        RunContinues(h, p, i + 1, locals[slot := xa.out.value], xa.c);
      }
    }
  }

  /** For every program, host and budget: the two runs match. */
  lemma EvaluatorsAgree(h: Host, p: Program, maxSteps: nat, maxBytes: nat)
    ensures Matches(h, Sync.RunWith(WithoutLed(h), p, maxSteps, maxBytes), Async.RunAsync(h, p, maxSteps))
  {
    hide Sync.RunFrom, Async.RunFrom;
    RunAgrees(h, p, 0, Sync.Zeros(p.nLocals), Sync.Machine(maxSteps, maxBytes, 0, []));
  }

  /** The cooperative run does nothing outside what its host grants either, and never touches an LED. */
  lemma OnlyGrantedAsync(h: Host, p: Program, maxSteps: nat)
    ensures var log := Async.RunAsync(h, p, maxSteps).c.log;
            forall i | 0 <= i < |log| :: Granted(WithoutLed(h), log[i])
  {
    hide Async.RunFrom;
    RunContinues(h, p, 0, Sync.Zeros(p.nLocals), Async.Context(maxSteps, 0, []));
  }

  /** An awaited call leaves the shared counters alone and adds at most one granted event. */
  lemma CallKeepsCells(h: Host, b: Builtin, vals: seq<Value>, c: Async.Context)
    ensures var r := Async.CallBuiltin(h, b, vals, c);
            && r.c.budget == c.budget && r.c.since == c.since
            && Continues(h, c, r.c) && |r.c.log| <= |c.log| + 1
  {
    hide ApplyPure, Sync.Extract, ColourOf;
  }
}
