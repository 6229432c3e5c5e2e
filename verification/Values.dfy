/**
 The run-time values of the language, its errors, and the parts of the Rust standard library the
 evaluators call. Text is a Dafny `string`: a sequence of Unicode scalar values, as a Rust `str` is.
 */
module Values {

  datatype Option<+T> = None | Some(value: T)

  datatype Result<+T> = Ok(value: T) | Err(error: Error)

  const I64_MIN: int := -0x8000_0000_0000_0000
  const I64_MAX: int := 0x7fff_ffff_ffff_ffff
  const U32_MAX: int := 0xffff_ffff

  type i64 = n: int | I64_MIN <= n <= I64_MAX

  /** A 64-bit float, known only by its bits: no result depends on how floats are computed. */
  datatype F64 = F64(bits: nat)

  datatype Value =
    | Int(n: i64)
    | Float(x: F64)
    | Bool(b: bool)
    | Str(s: string)
    | List(items: seq<Value>)

  /** One constructor for every message the core attaches to a type error. */
  datatype TypeFault =
    | NegateNonNumber
    | NotNumericString
    | NotNumericList
    | DivisionByZero
    | ModuloByZero
    | BoolOrdering
    | IndexNonList
    | IndexNotInteger
    | IndexOutOfRange
    | ExpectsString
    | ExpectsList
    | ExpectsListOrString
    | ExpectsNumber
    | ListOfNumbers
    | SingleNonList
    | EmptyList
    | UnknownColour
    | JsonUnexpectedEnd
    | JsonIndexScalar
    | JsonUnterminatedObject
    | JsonKeyNotFound
    | JsonExpectedKey
    | JsonExpectedColon
    | JsonMalformedObject
    | JsonBadIndex
    | JsonUnterminatedArray
    | JsonOutOfRange
    | JsonMalformedArray
    | JsonUnterminatedContainer
    | JsonUnterminatedString
    | JsonBadEscape
    | JsonBadHex
    | JsonNull
    | JsonNotScalar
    | JsonBadFloat
    | JsonBadInteger

  /** `Panic` stands for an arithmetic overflow or an out-of-range slot, which abort the program. */
  datatype Error =
    | UnknownName(name: string)
    | Arity(got: nat)
    | Type(fault: TypeFault)
    | Budget
    | MemoryLimit
    | Timeout
    | NoNetwork
    | NoDisplay
    | NoActuator
    | FieldNotFound
    | HostError(code: nat)
    | Panic

  /** The standard-library operations on floats and text that the core relies on. */
  datatype Std = Std(
    add: (F64, F64) -> F64,
    sub: (F64, F64) -> F64,
    mul: (F64, F64) -> F64,
    div: (F64, F64) -> F64,
    rem: (F64, F64) -> F64,
    neg: F64 -> F64,
    lt: (F64, F64) -> bool,
    le: (F64, F64) -> bool,
    eq: (F64, F64) -> bool,
    ofInt: int -> F64,
    toInt: F64 -> i64,
    half: F64,
    parseFloat: string -> Option<F64>,
    showFloat: F64 -> string,
    showInt: int -> string,
    trim: string -> string,
    upper: string -> string,
    lower: string -> string)

  /** Number of bytes of the UTF-8 form of a scalar value. */
  function Utf8Len(c: char): (n: nat)
    ensures 1 <= n <= 4
  {
    var v := c as int;
    if v < 0x80 then 1 else if v < 0x800 then 2 else if v < 0x1_0000 then 3 else 4
  }

  /** `str::len`: the length in bytes. */
  function ByteLen(s: string): nat {
    if s == [] then 0 else Utf8Len(s[0]) + ByteLen(s[1..])
  }

  predicate IsDigit(c: char) { '0' <= c <= '9' }

  /** Value of a run of decimal digits, or `None` if some character is not a digit. */
  function Digits(t: string): (r: Option<nat>) {
    if t == [] then Some(0)
    else
      var init := Digits(t[..|t| - 1]);
      var last := t[|t| - 1];
      if init.Some? && IsDigit(last) then Some(init.value * 10 + (last as int - '0' as int)) else None
  }

  /** `str::parse::<i64>`: an optional sign, at least one digit, and a value in range. */
  function ParseI64(t: string): Option<i64> {
    var signed := t != [] && (t[0] == '-' || t[0] == '+');
    var body := if signed then t[1..] else t;
    var d := Digits(body);
    if body == [] || d.None? then None
    else
      var magnitude: int := d.value;
      var v: int := if signed && t[0] == '-' then -magnitude else magnitude;
      if I64_MIN <= v <= I64_MAX then Some(v) else None
  }

  const USIZE_MAX: int := 0xffff_ffff_ffff_ffff

  /** `str::parse::<usize>`. */
  function ParseUsize(t: string): Option<nat> {
    var body := if t != [] && t[0] == '+' then t[1..] else t;
    var d := Digits(body);
    if body == [] || d.None? || d.value > USIZE_MAX then None else Some(d.value)
  }
}
