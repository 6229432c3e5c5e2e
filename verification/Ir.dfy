/** The intermediate form both front ends compile to, and the host a program runs against. */
module Ir {
  import opened Bytes
  import opened Values

  datatype BinOp = Add | Sub | Mul | Div | Rem

  datatype CmpOp = Eq | Ne | Lt | Le | Gt | Ge

  datatype BoolOp = And | Or

  datatype UnOp = Neg | Not

  datatype Builtin =
    | Len | Abs | Min | Max | Sum | Any | All | Round | ToInt | ToFloat | ToBool
    | Contains | IndexOf | Before | First | Last | ToStr | JsonGet | FetchUrl | FetchJson
    | Show | Print | Led | Flash | Upper | Lower | Reverse

  datatype Expr =
    | Const(v: Value)
    | Var(name: string)
    | Local(slot: nat)
    | Bin(bop: BinOp, l: Expr, r: Expr)
    | Cmp(cop: CmpOp, l: Expr, r: Expr)
    | Logic(lop: BoolOp, l: Expr, r: Expr)
    | Unary(uop: UnOp, a: Expr)
    | Index(l: Expr, r: Expr)
    | If(c: Expr, t: Expr, f: Expr)
    | Call(b: Builtin, args: seq<Expr>)
    | ListOf(args: seq<Expr>)

  datatype LetBinding = LetBinding(slot: nat, expr: Expr)

  datatype Program = Program(body: seq<LetBinding>, ret: Expr, nLocals: nat)

  /** A call on a capability of the host, or a reading of the clock. */
  datatype Event =
    | Fetched(url: string)
    | Streamed(url: string)
    | Shown(text: string)
    | LedSet(on: bool, colour: Option<Rgb>)
    | Flashed
    | ClockRead

  datatype Rgb = Rgb(r: nat, g: nat, b: nat)

  /** The buffers a streamed response shows to the probe, then how the transfer ends. */
  datatype Transfer = Transfer(bufs: seq<seq<Byte>>, failure: Option<Error>)

  /**
   Capabilities answer from the whole history of calls, so a host may have any state of its own. The
   clock also sees the remaining step budget, which stands for the time that has passed.
   */
  datatype Net = Net(
    fetch: (seq<Event>, string) -> Result<string>,
    stream: (seq<Event>, string) -> Transfer)

  type Display = (seq<Event>, string) -> Option<Error>

  datatype Actuator = Actuator(
    led: (seq<Event>, bool, Option<Rgb>) -> Option<Error>,
    flash: seq<Event> -> Option<Error>)

  type Clock = (seq<Event>, nat) -> bool

  datatype Host = Host(
    std: Std,
    valueSize: nat,
    env: string -> Option<Value>,
    net: Option<Net>,
    display: Option<Display>,
    actuator: Option<Actuator>,
    deadline: Option<Clock>)

  const DEADLINE_CHECK_INTERVAL: nat := 256

  /** `size_of::<Value>() * len` for a list spine, the byte length of a string, nothing otherwise. */
  function Footprint(valueSize: nat, v: Value): nat {
    match v
    case Str(s) => ByteLen(s)
    case List(items) => |items| * valueSize
    case _ => 0
  }

  /** What `charge_value` deducts: the footprint, capped at the largest 32-bit number. */
  function Charge(valueSize: nat, v: Value): nat {
    var n := Footprint(valueSize, v);
    if n < U32_MAX then n else U32_MAX
  }
}
