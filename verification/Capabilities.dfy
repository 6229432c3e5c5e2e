/**
 The sandbox: a program reaches the outside only through what its host grants. Every event in the trace of a
 run belongs to a capability the host has, and counters only run down.
 */
module Capabilities {
  import opened Values
  import opened Ir
  import opened Ops
  import Sync

  /** The host has the capability an event uses. */
  predicate Granted(h: Host, e: Event) {
    match e
    case Fetched(_) => h.net.Some?
    case Streamed(_) => h.net.Some?
    case Shown(_) => h.display.Some?
    case LedSet(_, _) => h.actuator.Some?
    case Flashed => h.actuator.Some?
    case ClockRead => h.deadline.Some?
  }

  /** The trace grows, by events the host grants. */
  ghost predicate Adds(h: Host, log: seq<Event>, later: seq<Event>) {
    log <= later && forall i | |log| <= i < |later| :: Granted(h, later[i])
  }

  lemma AddsBoth(h: Host, a: seq<Event>, b: seq<Event>, c: seq<Event>)
    requires Adds(h, a, b) && Adds(h, b, c)
    ensures Adds(h, a, c)
  {
  }

  /** A run may get from `m` to `later`. */
  ghost predicate Keeps(h: Host, m: Sync.Machine, later: Sync.Machine) {
    later.budget <= m.budget && later.mem <= m.mem && Adds(h, m.log, later.log)
  }

  lemma KeepsBoth(h: Host, a: Sync.Machine, b: Sync.Machine, c: Sync.Machine)
    requires Keeps(h, a, b) && Keeps(h, b, c)
    ensures Keeps(h, a, c)
  {
    hide Adds;
    AddsBoth(h, a.log, b.log, c.log);
  }

  lemma KeepsSame(h: Host, m: Sync.Machine)
    ensures Keeps(h, m, m)
  {
  }

  /** A builtin adds at most one event, of a capability the host has; the pure ones add none. */
  lemma EffectAdds(h: Host, b: Builtin, vals: seq<Value>, log: seq<Event>)
    ensures var r := Sync.Dispatch(h, b, vals, log); Adds(h, log, r.log) && |r.log| <= |log| + 1
    ensures !b.FetchUrl? && !b.FetchJson? && !b.Show? && !b.Led? && !b.Flash? ==> Sync.Dispatch(h, b, vals, log).log == log
  {
    hide ApplyPure, Sync.Extract, ColourOf;
  }

  lemma TickKeeps(h: Host, m: Sync.Machine)
    ensures Keeps(h, m, Sync.Tick(h, m).m)
  {
  }

  lemma {:induction false} EvalKeeps(h: Host, locals: seq<Value>, e: Expr, m: Sync.Machine)
    ensures Keeps(h, m, Sync.Eval(h, locals, e, m).m)
    decreases e, 1
  {
    hide Sync.EvalNode, Sync.Tick, Keeps;
    var t := Sync.Tick(h, m);
    TickKeeps(h, m);
    if t.out.Ok? {
      NodeKeeps(h, locals, e, t.m);
      KeepsBoth(h, m, t.m, Sync.EvalNode(h, locals, e, t.m).m);
    }
  }

  lemma ChargedKeeps(h: Host, m: Sync.Machine, r: Sync.Run<Value>)
    requires Keeps(h, m, r.m)
    ensures Keeps(h, m, Sync.Charged(h, r).m)
  {
    hide Adds;
  }

  lemma {:induction false} NodeKeeps(h: Host, locals: seq<Value>, e: Expr, m: Sync.Machine)
    ensures Keeps(h, m, Sync.EvalNode(h, locals, e, m).m)
    decreases e, 0
  {
    hide Sync.Eval, Sync.EvalAll, Sync.Charged, Sync.CallBuiltin, Keeps;
    hide NumBinop, Compare, IndexInto, ApplyUnary, AsBool;
    KeepsSame(h, m);
    match e
    case Const(_) =>
    case Local(_) =>
    case Var(_) =>
    case Unary(_, a) => EvalKeeps(h, locals, a, m);
    case Cmp(_, a, b) => BothKeep(h, locals, a, b, m, e);
    case Logic(_, a, b) => BothKeep(h, locals, a, b, m, e);
    case Index(a, b) => BothKeep(h, locals, a, b, m, e);
    case If(x, t, f) =>
      BothKeep(h, locals, x, t, m, e);
      BothKeep(h, locals, x, f, m, e);
    case Bin(op, a, b) =>
      BothKeep(h, locals, a, b, m, e);
      var x := Sync.Eval(h, locals, a, m);
      if x.out.Ok? {
        var y := Sync.Eval(h, locals, b, x.m);
        if y.out.Ok? { ChargedKeeps(h, m, Sync.Run(NumBinop(h.std, op, x.out.value, y.out.value), y.m)); }
      }
    case Call(b, args) =>
      AllKeep(h, locals, args, 0, [], m);
      var vs := Sync.EvalAll(h, locals, args, 0, [], m);
      if vs.out.Ok? {
        CallKeeps(h, b, vs.out.value, vs.m);
        KeepsBoth(h, m, vs.m, Sync.CallBuiltin(h, b, vs.out.value, vs.m).m);
        ChargedKeeps(h, m, Sync.CallBuiltin(h, b, vs.out.value, vs.m));
      }
    case ListOf(args) =>
      AllKeep(h, locals, args, 0, [], m);
      var vs := Sync.EvalAll(h, locals, args, 0, [], m);
      if vs.out.Ok? { ChargedKeeps(h, m, Sync.Run(Ok(List(vs.out.value)), vs.m)); }
  }

  /** A call leaves every counter alone and adds at most one granted event. */
  lemma CallKeeps(h: Host, b: Builtin, vals: seq<Value>, m: Sync.Machine)
    ensures var r := Sync.CallBuiltin(h, b, vals, m);
            && r.m.budget == m.budget && r.m.mem == m.mem && r.m.since == m.since
            && Keeps(h, m, r.m) && |r.m.log| <= |m.log| + 1
  {
    hide Sync.Dispatch, Adds;
    EffectAdds(h, b, vals, m.log);
  }

  lemma {:induction false} BothKeep(h: Host, locals: seq<Value>, a: Expr, b: Expr, m: Sync.Machine, whole: Expr)
    requires a < whole && b < whole
    ensures var x := Sync.Eval(h, locals, a, m).m; Keeps(h, m, x) && Keeps(h, m, Sync.Eval(h, locals, b, x).m)
    decreases whole, -1
  {
    hide Sync.Eval, Keeps;
    var x := Sync.Eval(h, locals, a, m).m;
    EvalKeeps(h, locals, a, m);
    EvalKeeps(h, locals, b, x);
    KeepsBoth(h, m, x, Sync.Eval(h, locals, b, x).m);
  }

  lemma {:induction false} AllKeep(h: Host, locals: seq<Value>, args: seq<Expr>, i: nat, done: seq<Value>, m: Sync.Machine)
    ensures Keeps(h, m, Sync.EvalAll(h, locals, args, i, done, m).m)
    decreases args, if i <= |args| then |args| - i else 0
  {
    hide Sync.Eval, Keeps;
    KeepsSame(h, m);
    if i < |args| {
      EvalKeeps(h, locals, args[i], m);
      var x := Sync.Eval(h, locals, args[i], m);
      if x.out.Ok? {
        AllKeep(h, locals, args, i + 1, done + [x.out.value], x.m);
        KeepsBoth(h, m, x.m, Sync.EvalAll(h, locals, args, i + 1, done + [x.out.value], x.m).m);
      }
    }
  }

  lemma {:induction false} RunKeeps(h: Host, p: Program, i: nat, locals: seq<Value>, m: Sync.Machine)
    ensures Keeps(h, m, Sync.RunFrom(h, p, i, locals, m).m)
    decreases if i <= |p.body| then |p.body| - i else 0
  {
    hide Sync.Eval, Keeps;
    if i >= |p.body| {
      EvalKeeps(h, locals, p.ret, m);
    } else {
      EvalKeeps(h, locals, p.body[i].expr, m);
      var x := Sync.Eval(h, locals, p.body[i].expr, m);
      if x.out.Ok? && p.body[i].slot < |locals| {
        RunKeeps(h, p, i + 1, locals[p.body[i].slot := x.out.value], x.m);
        KeepsBoth(h, m, x.m, Sync.RunFrom(h, p, i + 1, locals[p.body[i].slot := x.out.value], x.m).m);
      }
    }
  }

  /** No run does anything outside what its host grants: without capabilities it is pure. */
  lemma OnlyGranted(h: Host, p: Program, maxSteps: nat, maxBytes: nat)
    ensures var log := Sync.RunWith(h, p, maxSteps, maxBytes).m.log;
            && (forall i | 0 <= i < |log| :: Granted(h, log[i]))
            && (h.net.None? && h.display.None? && h.actuator.None? && h.deadline.None? ==> log == [])
  {
    hide Sync.RunFrom;
    RunKeeps(h, p, 0, Sync.Zeros(p.nLocals), Sync.Machine(maxSteps, maxBytes, 0, []));
    var log := Sync.RunWith(h, p, maxSteps, maxBytes).m.log;
    assert log != [] ==> Granted(h, log[0]);
  }
}
