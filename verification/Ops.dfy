/** The value operations shared by both evaluators. */
module Ops {
  import opened Values
  import opened Ir
  import opened Json

  function Bad<T>(f: TypeFault): Result<T> { Err(Type(f)) }

  /** Two's-complement wrap-around of 64-bit arithmetic. */
  function Wrap64(n: int): i64 {
    var r := n % 0x1_0000_0000_0000_0000;
    if r > I64_MAX then r - 0x1_0000_0000_0000_0000 else r
  }

  /** An operation that aborts on overflow. */
  function Checked(n: int): Result<Value> {
    if I64_MIN <= n <= I64_MAX then Ok(Int(n)) else Err(Panic)
  }

  /** Division and remainder that truncate towards zero. */
  function TruncDiv(x: int, y: int): int
    requires y != 0
  {
    if (x < 0) == (y < 0) then AbsInt(x) / AbsInt(y) else -(AbsInt(x) / AbsInt(y))
  }

  function TruncRem(x: int, y: int): int
    requires y != 0
  {
    x - y * TruncDiv(x, y)
  }

  function Negated(x: int): int { -x }

  function AbsInt(x: int): nat { if x < 0 then -x else x }

  function AsBool(std: Std, v: Value): bool {
    match v
    case Bool(b) => b
    case Int(n) => n != 0
    case Float(x) => !std.eq(x, std.ofInt(0))
    case Str(s) => s != ""
    case List(items) => items != []
  }

  function AsF64(std: Std, v: Value): Result<F64> {
    match v
    case Int(n) => Ok(std.ofInt(n))
    case Float(x) => Ok(x)
    case Bool(b) => Ok(std.ofInt(if b then 1 else 0))
    case Str(s) =>
      var x := std.parseFloat(std.trim(s));
      if x.Some? then Ok(x.value) else Bad(NotNumericString)
    case List(_) => Bad(NotNumericList)
  }

  function ToText(std: Std, v: Value): string
    decreases v, 0
  {
    match v
    case Int(n) => std.showInt(n)
    case Float(x) => std.showFloat(x)
    case Bool(b) => if b then "true" else "false"
    case Str(s) => s
    case List(items) => "[" + JoinText(std, items, ", ") + "]"
  }

  function JoinText(std: Std, items: seq<Value>, sep: string): string
    decreases items, 1
  {
    if items == [] then ""
    else if |items| == 1 then ToText(std, items[0])
    else ToText(std, items[0]) + sep + JoinText(std, items[1..], sep)
  }

  function IntBinop(op: BinOp, x: i64, y: i64): Result<Value> {
    match op
    case Add => Ok(Int(Wrap64(x + y)))
    case Sub => Ok(Int(Wrap64(x - y)))
    case Mul => Ok(Int(Wrap64(x * y)))
    case Div => if y == 0 then Bad(DivisionByZero) else Checked(TruncDiv(x, y))
    case Rem =>
      if y == 0 then Bad(ModuloByZero)
      else if x == I64_MIN && y == -1 then Err(Panic)
      else Checked(TruncRem(x, y))
  }

  function NumBinop(std: Std, op: BinOp, a: Value, b: Value): Result<Value> {
    if op == BinOp.Add && (a.Str? || b.Str?) then Ok(Str(ToText(std, a) + ToText(std, b)))
    else if a.Int? && b.Int? then IntBinop(op, a.n, b.n)
    else
      var x, y := AsF64(std, a), AsF64(std, b);
      if x.Err? then Err(x.error)
      else if y.Err? then Err(y.error)
      else
        Ok(Float(match op
                 case Add => std.add(x.value, y.value)
                 case Sub => std.sub(x.value, y.value)
                 case Mul => std.mul(x.value, y.value)
                 case Div => std.div(x.value, y.value)
                 case Rem => std.rem(x.value, y.value)))
  }

  /** Lexicographic order of strings. */
  predicate TextLess(a: string, b: string) {
    if b == [] then false
    else if a == [] then true
    else a[0] < b[0] || (a[0] == b[0] && TextLess(a[1..], b[1..]))
  }

  function Compare(std: Std, op: CmpOp, a: Value, b: Value): Result<bool> {
    if a.Bool? && b.Bool? then
      match op
      case Eq => Ok(a.b == b.b)
      case Ne => Ok(a.b != b.b)
      case _ => Bad(BoolOrdering)
    else if a.Str? && b.Str? then
      match op
      case Eq => Ok(a.s == b.s)
      case Ne => Ok(a.s != b.s)
      case Lt => Ok(TextLess(a.s, b.s))
      case Le => Ok(!TextLess(b.s, a.s))
      case Gt => Ok(TextLess(b.s, a.s))
      case Ge => Ok(!TextLess(a.s, b.s))
    else
      var x, y := AsF64(std, a), AsF64(std, b);
      if x.Err? then Err(x.error)
      else if y.Err? then Err(y.error)
      else
        match op
        case Eq => Ok(std.eq(x.value, y.value))
        case Ne => Ok(!std.eq(x.value, y.value))
        case Lt => Ok(std.lt(x.value, y.value))
        case Le => Ok(std.le(x.value, y.value))
        case Gt => Ok(std.lt(y.value, x.value))
        case Ge => Ok(std.le(y.value, x.value))
  }

  function IndexInto(l: Value, i: Value): Result<Value> {
    if !l.List? then Bad(IndexNonList)
    else if !i.Int? then Bad(IndexNotInteger)
    else
      var k: int := if i.n < 0 then |l.items| + i.n else i.n;
      if k < 0 || k >= |l.items| then Bad(TypeFault.IndexOutOfRange) else Ok(l.items[k])
  }

  function ApplyUnary(std: Std, op: UnOp, v: Value): Result<Value> {
    match op
    case Neg =>
      if v.Int? then Checked(Negated(v.n))
      else if v.Float? then Ok(Float(std.neg(v.x)))
      else Bad(NegateNonNumber)
    case Not => Ok(Bool(!AsBool(std, v)))
  }

  // ---- builtins ------------------------------------------------------------------------------

  function WrongArity<T>(vals: seq<Value>): Result<T> { Err(Arity(|vals|)) }

  /** The items of a single list argument. */
  function SingleList(vals: seq<Value>): Result<seq<Value>> {
    if |vals| != 1 then WrongArity(vals)
    else if vals[0].List? then Ok(vals[0].items)
    else Bad(ExpectsList)
  }

  function PositionOf(std: Std, items: seq<Value>, x: F64): (r: int)
    ensures -1 <= r < |items|
  {
    if items == [] then -1
    else
      var first := AsF64(std, items[0]);
      if first.Ok? && std.eq(first.value, x) then 0
      else
        var rest := PositionOf(std, items[1..], x);
        if rest < 0 then -1 else rest + 1
  }

  function RoundHalfAway(std: Std, x: F64): F64 {
    if std.le(std.ofInt(0), x) then std.ofInt(std.toInt(std.add(x, std.half)))
    else std.neg(std.ofInt(std.toInt(std.add(std.neg(x), std.half))))
  }

  /** The loop of `min` and `max` from the best value so far. */
  function Extreme(std: Std, wantMin: bool, best: Value, bestF: F64, items: seq<Value>): Result<Value>
    decreases |items|
  {
    if items == [] then Ok(best)
    else
      var x := AsF64(std, items[0]);
      if x.Err? then Err(x.error)
      else if (if wantMin then std.lt(x.value, bestF) else std.lt(bestF, x.value)) then
        Extreme(std, wantMin, items[0], x.value, items[1..])
      else Extreme(std, wantMin, best, bestF, items[1..])
  }

  function MinMax(std: Std, wantMin: bool, vals: seq<Value>): Result<Value> {
    if vals == [] then WrongArity(vals)
    else if |vals| == 1 && !vals[0].List? then Bad(SingleNonList)
    else
      var items := if |vals| == 1 then vals[0].items else vals;
      if items == [] then Bad(EmptyList)
      else
        var x := AsF64(std, items[0]);
        if x.Err? then Err(x.error) else Extreme(std, wantMin, items[0], x.value, items[1..])
  }

  /** The loop of `sum` from its accumulators. */
  function SumFrom(std: Std, items: seq<Value>, i: i64, f: F64, anyFloat: bool): Result<Value> {
    if items == [] then Ok(if anyFloat then Float(std.add(f, std.ofInt(i))) else Int(i))
    else if items[0].Int? then
      var n := i + items[0].n;
      if I64_MIN <= n <= I64_MAX then SumFrom(std, items[1..], n, f, anyFloat) else Err(Panic)
    else if items[0].Float? then SumFrom(std, items[1..], i, std.add(f, items[0].x), true)
    else Bad(ListOfNumbers)
  }

  /** A builtin of one argument. */
  function Unary1(std: Std, b: Builtin, v: Value): Result<Value> {
    match b
    case Len =>
      if v.List? then Checked(|v.items|) else if v.Str? then Checked(|v.s|) else Bad(ExpectsListOrString)
    case Abs =>
      if v.Int? then Checked(AbsInt(v.n))
      else if v.Float? then Ok(Float(if std.lt(v.x, std.ofInt(0)) then std.neg(v.x) else v.x))
      else Bad(ExpectsNumber)
    case Round =>
      var x := AsF64(std, v);
      if x.Err? then Err(x.error) else Ok(Int(std.toInt(RoundHalfAway(std, x.value))))
    case ToInt =>
      var x := AsF64(std, v);
      if x.Err? then Err(x.error) else Ok(Int(std.toInt(x.value)))
    case ToFloat =>
      var x := AsF64(std, v);
      if x.Err? then Err(x.error) else Ok(Float(x.value))
    case ToBool => Ok(Bool(AsBool(std, v)))
    case ToStr => Ok(Str(ToText(std, v)))
    case Upper => if v.Str? then Ok(Str(std.upper(v.s))) else Bad(ExpectsString)
    case Lower => if v.Str? then Ok(Str(std.lower(v.s))) else Bad(ExpectsString)
    case _ =>
      if v.Str? then Ok(Str(Reversed(v.s)))
      else if v.List? then Ok(List(Reversed(v.items)))
      else Bad(ExpectsListOrString)
  }

  function Reversed<T>(s: seq<T>): (r: seq<T>)
    ensures |r| == |s| && forall i | 0 <= i < |s| :: r[i] == s[|s| - 1 - i]
  {
    if s == [] then [] else Reversed(s[1..]) + [s[0]]
  }

  function ContainsFn(std: Std, vals: seq<Value>): Result<Value> {
    if |vals| != 2 then WrongArity(vals)
    else if !vals[0].List? then Bad(ExpectsList)
    else
      var x := AsF64(std, vals[1]);
      if x.Err? then Err(x.error) else Ok(Bool(PositionOf(std, vals[0].items, x.value) >= 0))
  }

  function IndexOfFn(std: Std, vals: seq<Value>): Result<Value> {
    if |vals| != 2 then WrongArity(vals)
    else if !vals[0].List? then Bad(ExpectsList)
    else
      var x := AsF64(std, vals[1]);
      if x.Err? then Err(x.error) else Checked(PositionOf(std, vals[0].items, x.value))
  }

  function BeforeFn(std: Std, vals: seq<Value>): Result<Value> {
    if |vals| != 3 then WrongArity(vals)
    else if !vals[0].List? then Bad(ExpectsList)
    else
      var x, y := AsF64(std, vals[1]), AsF64(std, vals[2]);
      if x.Err? then Err(x.error)
      else if y.Err? then Err(y.error)
      else
        var i, j := PositionOf(std, vals[0].items, x.value), PositionOf(std, vals[0].items, y.value);
        Ok(Bool(i >= 0 && j >= 0 && i < j))
  }

  function JsonGetFn(std: Std, vals: seq<Value>): Result<Value> {
    if |vals| != 2 then WrongArity(vals)
    else if !vals[0].Str? || !vals[1].Str? then Bad(ExpectsString)
    else GetAt(std, vals[0].s, vals[1].s)
  }

  /** A builtin over the items of one list. */
  function OverList(std: Std, b: Builtin, items: seq<Value>): Result<Value> {
    match b
    case Sum => SumFrom(std, items, 0, std.ofInt(0), false)
    case Any => Ok(Bool(exists v | v in items :: AsBool(std, v)))
    case All => Ok(Bool(forall v | v in items :: AsBool(std, v)))
    case First => Ok(if items == [] then Int(-1) else items[0])
    case _ => Ok(if items == [] then Int(-1) else items[|items| - 1])
  }

  /** The builtins without effects. */
  function ApplyPure(std: Std, b: Builtin, vals: seq<Value>): Result<Value> {
    if b.Min? || b.Max? then MinMax(std, b.Min?, vals)
    else if b.Contains? then ContainsFn(std, vals)
    else if b.IndexOf? then IndexOfFn(std, vals)
    else if b.Before? then BeforeFn(std, vals)
    else if b.JsonGet? then JsonGetFn(std, vals)
    else if b.Print? then if |vals| == 1 then Ok(vals[0]) else Ok(Str(JoinText(std, vals, " ")))
    else if b.Sum? || b.Any? || b.All? || b.First? || b.Last? then
      var items := SingleList(vals);
      if items.Err? then Err(items.error) else OverList(std, b, items.value)
    else if |vals| != 1 then WrongArity(vals)
    else Unary1(std, b, vals[0])
  }

  datatype Effect = Effect(out: Result<Value>, log: seq<Event>)

  function ColourOf(std: Std, name: string): Option<Rgb> {
    var n := std.lower(std.trim(name));
    if n == "red" then Some(Rgb(255, 0, 0))
    else if n == "green" then Some(Rgb(0, 255, 0))
    else if n == "blue" then Some(Rgb(0, 0, 255))
    else if n == "white" then Some(Rgb(255, 255, 255))
    else if n == "yellow" then Some(Rgb(255, 255, 0))
    else if n == "cyan" then Some(Rgb(0, 255, 255))
    else if n == "magenta" || n == "pink" then Some(Rgb(255, 0, 255))
    else if n == "orange" then Some(Rgb(255, 90, 0))
    else if n == "purple" || n == "violet" then Some(Rgb(140, 0, 255))
    else if n == "off" || n == "black" then Some(Rgb(0, 0, 0))
    else None
  }

  /** The answer of a capability that reports at most an error. */
  function Reported(e: Option<Error>, v: Value): Result<Value> {
    if e.Some? then Err(e.value) else Ok(v)
  }

  function ApplyShow(std: Std, vals: seq<Value>, display: Option<Display>, log: seq<Event>): Effect {
    if |vals| != 1 then Effect(WrongArity(vals), log)
    else if display.None? then Effect(Err(NoDisplay), log)
    else
      var text := ToText(std, vals[0]);
      Effect(Reported(display.value(log, text), vals[0]), log + [Shown(text)])
  }

  function ApplyLed(std: Std, vals: seq<Value>, actuator: Option<Actuator>, log: seq<Event>): Effect {
    if |vals| != 1 then Effect(WrongArity(vals), log)
    else if actuator.None? then Effect(Err(NoActuator), log)
    else
      var v := vals[0];
      var colour := if v.Str? then ColourOf(std, v.s) else None;
      if v.Str? && colour.None? then Effect(Bad(UnknownColour), log)
      else
        var off := v.Str? && colour == Some(Rgb(0, 0, 0));
        var on := if v.Str? then !off else AsBool(std, v);
        var rgb := if off then None else colour;
        Effect(Reported(actuator.value.led(log, on, rgb), v), log + [LedSet(on, rgb)])
  }

  function ApplyFlash(vals: seq<Value>, actuator: Option<Actuator>, log: seq<Event>): Effect {
    if vals != [] then Effect(WrongArity(vals), log)
    else if actuator.None? then Effect(Err(NoActuator), log)
    else Effect(Reported(actuator.value.flash(log), Bool(true)), log + [Flashed])
  }

  /** `apply_builtin`: every builtin but the two that reach the network. */
  function ApplyBuiltin(std: Std, b: Builtin, vals: seq<Value>, display: Option<Display>,
                        actuator: Option<Actuator>, log: seq<Event>): Effect
  {
    match b
    case Show => ApplyShow(std, vals, display, log)
    case Led => ApplyLed(std, vals, actuator, log)
    case Flash => ApplyFlash(vals, actuator, log)
    case _ => Effect(ApplyPure(std, b, vals), log)
  }
}
