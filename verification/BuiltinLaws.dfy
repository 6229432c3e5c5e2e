/** What the builtins on lists, texts and truth values mean, and the colours of the LED. */
module BuiltinLaws {
  import opened Values
  import opened Ir
  import opened Ops
  import opened JsonDoc
  import opened JsonLookup
  import Utf8

  // ---- lists ---------------------------------------------------------------------------------

  /** `len` of a list counts its indices: exactly those below it, and no less than its opposite, are in range. */
  lemma LenCountsIndices(std: Std, l: seq<Value>)
    requires |l| <= 9223372036854775807
    ensures var r := ApplyPure(std, Len, [List(l)]);
            && r.Ok? && r.value.Int? && r.value.n >= 0
            && forall k: i64 :: IndexInto(List(l), Int(k)).Ok? <==> -r.value.n <= k < r.value.n
  {
  }

  /** `len` of a text counts its characters. */
  lemma LenCountsCharacters(std: Std, s: string, t: string, c: char)
    requires |s| + |t| <= 9223372036854775807
    ensures ApplyPure(std, Len, [Str("")]) == Ok(Int(0)) && ApplyPure(std, Len, [Str([c])]) == Ok(Int(1))
    ensures var a, b, r := ApplyPure(std, Len, [Str(s)]), ApplyPure(std, Len, [Str(t)]), ApplyPure(std, Len, [Str(s + t)]);
            a.Ok? && b.Ok? && a.value.Int? && b.value.Int? && r.Ok? && r.value.Int? && r.value.n == a.value.n + b.value.n
  {
  }

  /** `first` and `last` are the items at either end, and -1 for an empty list. */
  lemma EndsOfList(std: Std, l: seq<Value>)
    ensures l != [] ==> ApplyPure(std, First, [List(l)]) == IndexInto(List(l), Int(0))
    ensures l != [] ==> ApplyPure(std, Last, [List(l)]) == IndexInto(List(l), Int(-1))
    ensures ApplyPure(std, First, [List([])]) == Ok(Int(-1)) && ApplyPure(std, Last, [List([])]) == Ok(Int(-1))
  {
  }

  /** `reverse` turns the items round: counted from the front they are what they were counted from the back. */
  lemma ReverseTurnsRound(std: Std, l: seq<Value>, k: i64)
    requires 0 <= k < |l|
    ensures var r := ApplyPure(std, Reverse, [List(l)]);
            && r.Ok? && r.value.List? && |r.value.items| == |l|
            && IndexInto(r.value, Int(k)) == IndexInto(List(l), Int(-1 - k))
            && ApplyPure(std, Reverse, [r.value]) == Ok(List(l))
  {
    hide IndexInto;
    var q := Reversed(l);
    ReverseIs(std, l);
    ReverseIs(std, q);
    ReversedTwice(l);
    FromBothEnds(l, q, k);
  }

  lemma ReverseIs(std: Std, l: seq<Value>)
    ensures ApplyPure(std, Reverse, [List(l)]) == Ok(List(Reversed(l)))
  {
    hide Reversed;
  }

  lemma FromBothEnds(l: seq<Value>, q: seq<Value>, k: i64)
    requires |q| == |l| && 0 <= k < |l| && q[k] == l[|l| - 1 - k]
    ensures IndexInto(List(q), Int(k)) == IndexInto(List(l), Int(-1 - k))
  {
  }

  lemma ReversedTwice<T>(s: seq<T>)
    ensures Reversed(Reversed(s)) == s
  {
    var r := Reversed(Reversed(s));
    assert forall i | 0 <= i < |s| :: r[i] == s[i];
  }

  lemma ReverseText(std: Std, s: string, c: char)
    ensures ApplyPure(std, Reverse, [Str("")]) == Ok(Str(""))
    ensures var r := ApplyPure(std, Reverse, [Str(s)]);
            r.Ok? && r.value.Str? && ApplyPure(std, Reverse, [Str([c] + s)]) == Ok(Str(r.value.s + [c]))
  {
    assert ([c] + s)[1..] == s;
  }

  /** `any` and `all` go through a list item by item, and are each other's opposite. */
  lemma AnyAll(std: Std, a: seq<Value>, b: seq<Value>, v: Value)
    ensures ApplyPure(std, Any, [List([])]) == Ok(Bool(false)) && ApplyPure(std, All, [List([])]) == Ok(Bool(true))
    ensures ApplyPure(std, Any, [List([v])]) == ApplyPure(std, ToBool, [v])
    ensures ApplyPure(std, All, [List([v])]) == ApplyPure(std, ToBool, [v])
    ensures var x, y, z := ApplyPure(std, Any, [List(a)]), ApplyPure(std, Any, [List(b)]), ApplyPure(std, Any, [List(a + b)]);
            x.Ok? && y.Ok? && x.value.Bool? && y.value.Bool? && z == Ok(Bool(x.value.b || y.value.b))
    ensures var x, y, z := ApplyPure(std, All, [List(a)]), ApplyPure(std, All, [List(b)]), ApplyPure(std, All, [List(a + b)]);
            x.Ok? && y.Ok? && x.value.Bool? && y.value.Bool? && z == Ok(Bool(x.value.b && y.value.b))
  {
    hide AsBool;
    assert forall u | u in a + b :: u in a || u in b;
    assert forall u | u in a :: u in a + b;
    assert forall u | u in b :: u in a + b;
    assert v in [v];
  }

  // ---- texts ---------------------------------------------------------------------------------

  /** A value as text: a string is its own text, and a list is its items' texts between brackets. */
  lemma TextLaw(std: Std, a: seq<Value>, v: Value, s: string)
    ensures ToText(std, Str(s)) == s && ToText(std, Bool(true)) == "true" && ToText(std, Bool(false)) == "false"
    ensures ToText(std, List([])) == "[]" && ToText(std, List([v])) == "[" + ToText(std, v) + "]"
    ensures a != [] ==> ToText(std, List([v] + a)) == "[" + ToText(std, v) + ", " + ToText(std, List(a))[1..]
    ensures ApplyPure(std, ToStr, [v]) == Ok(Str(ToText(std, v)))
  {
    if a != [] {
      assert ([v] + a)[1..] == a;
      var j := JoinText(std, a, ", ");
      assert ToText(std, List(a))[1..] == j + "]";
      assert "[" + (ToText(std, v) + ", " + j) + "]" == "[" + ToText(std, v) + ", " + (j + "]");
    }
  }

  /** `+` with a string on either side joins the texts, and a text is what joining it to nothing gives. */
  lemma ConcatenationLaw(std: Std, v: Value, s: string)
    ensures NumBinop(std, BinOp.Add, Str(s), v) == Ok(Str(s + ToText(std, v)))
    ensures NumBinop(std, BinOp.Add, v, Str(s)) == Ok(Str(ToText(std, v) + s))
    ensures NumBinop(std, BinOp.Add, v, Str("")) == ApplyPure(std, ToStr, [v])
  {
    assert ToText(std, v) + "" == ToText(std, v);
  }

  /** Texts joined: one stands alone, and every further one comes behind the separator. */
  lemma JoinLaw(std: Std, v: Value, rest: seq<Value>, sep: string)
    ensures JoinText(std, [v], sep) == ToText(std, v)
    ensures rest != [] ==> JoinText(std, [v] + rest, sep) == ToText(std, v) + (sep + JoinText(std, rest, sep))
  {
    hide ToText;
    assert ([v] + rest)[1..] == rest;
    assert ToText(std, v) + (sep + JoinText(std, rest, sep)) == ToText(std, v) + sep + JoinText(std, rest, sep);
  }

  /** `print` gives a single argument as it is, and the texts of several with one blank between them. */
  lemma PrintLaw(std: Std, v: Value, w: Value, rest: seq<Value>)
    ensures ApplyPure(std, Print, [v]) == Ok(v)
    ensures ApplyPure(std, Print, [v, w]) == Ok(Str(ToText(std, v) + (" " + ToText(std, w))))
    ensures |rest| > 1 ==> ApplyPure(std, Print, rest) == Ok(Str(JoinText(std, rest, " ")))
  {
    hide ToText, JoinText, ApplyPure;
    PrintIs(std, [v]);
    PrintIs(std, [v, w]);
    PrintIs(std, rest);
    assert [v] + [w] == [v, w];
    JoinLaw(std, v, [w], " ");
    JoinLaw(std, w, [], " ");
  }

  lemma PrintIs(std: Std, vals: seq<Value>)
    ensures |vals| != 1 ==> ApplyPure(std, Print, vals) == Ok(Str(JoinText(std, vals, " ")))
    ensures |vals| == 1 ==> ApplyPure(std, Print, vals) == Ok(vals[0])
  {
    hide JoinText;
  }

  /** `upper` and `lower` are the library's, each its own. */
  lemma CaseLaw(std: Std)
    requires std.upper("Ab") == "AB" && std.lower("Ab") == "ab"
    ensures ApplyPure(std, Upper, [Str("Ab")]) == Ok(Str("AB")) && ApplyPure(std, Lower, [Str("Ab")]) == Ok(Str("ab"))
  {
  }

  /** `json_get` is lookup in the document that the text writes down. */
  lemma JsonGetLooksUp(std: Std, d: Doc, lead: string, tail: string, path: string)
    requires WellFormed(d) && Blank(lead) && Blank(tail)
    ensures ApplyPure(std, JsonGet, [Str(lead + (Render(d) + tail)), Str(path)]) == Meaning(std, d, path)
  {
    hide Json.GetAt, Meaning, Render, WellFormed;
    GetIsLookup(std, d, lead, tail, path);
  }

  // ---- arguments -----------------------------------------------------------------------------

  /** How many arguments a builtin takes; `min`, `max` and `print` take any number. */
  function ArityOf(b: Builtin): Option<nat> {
    match b
    case Min => None
    case Max => None
    case Print => None
    case Before => Some(3)
    case Contains => Some(2)
    case IndexOf => Some(2)
    case JsonGet => Some(2)
    case FetchJson => Some(2)
    case Flash => Some(0)
    case _ => Some(1)
  }

  /** A call with another number of arguments fails with that number. */
  lemma ArityLaw(std: Std, b: Builtin, vals: seq<Value>, display: Option<Display>, actuator: Option<Actuator>, log: seq<Event>)
    requires !b.FetchUrl? && !b.FetchJson? && ArityOf(b).Some? && |vals| != ArityOf(b).value
    ensures ApplyBuiltin(std, b, vals, display, actuator, log) == Effect(Err(Arity(|vals|)), log)
  {
  }

  // ---- the display and the LED ---------------------------------------------------------------

  /** `show` puts out the text of its argument, once, and gives the argument back. */
  lemma ShowLaw(std: Std, v: Value, display: Display, log: seq<Event>)
    requires display(log, ToText(std, v)).None?
    ensures ApplyBuiltin(std, Show, [v], Some(display), None, log) == Effect(Ok(v), log + [Shown(ToText(std, v))])
  {
  }

  /** The named colours are light mixed from the three primaries. */
  lemma ColoursMix(std: Std, name: string)
    requires std.lower(std.trim(name)) == name
    ensures name == "red" ==> ColourOf(std, name) == Some(Rgb(255, 0, 0))
    ensures name == "green" ==> ColourOf(std, name) == Some(Rgb(0, 255, 0))
    ensures name == "blue" ==> ColourOf(std, name) == Some(Rgb(0, 0, 255))
    ensures name == "yellow" ==> ColourOf(std, name) == Some(Mixed([Rgb(255, 0, 0), Rgb(0, 255, 0)]))
    ensures name == "cyan" ==> ColourOf(std, name) == Some(Mixed([Rgb(0, 255, 0), Rgb(0, 0, 255)]))
    ensures name == "magenta" || name == "pink" ==> ColourOf(std, name) == Some(Mixed([Rgb(255, 0, 0), Rgb(0, 0, 255)]))
    ensures name == "white" ==> ColourOf(std, name) == Some(Mixed([Rgb(255, 0, 0), Rgb(0, 255, 0), Rgb(0, 0, 255)]))
    ensures name == "black" || name == "off" ==> ColourOf(std, name) == Some(Mixed([]))
    ensures name == "orange" ==> ColourOf(std, name) == Some(Rgb(255, 90, 0))
    ensures name == "purple" || name == "violet" ==> ColourOf(std, name) == Some(Rgb(140, 0, 255))
    ensures ColourOf(std, name).Some? ==> name in COLOURS
  {
    assert forall c: Rgb :: [c][1..] == [];
    assert forall c: Rgb, d: Rgb :: [c, d][1..] == [d];
    assert forall c: Rgb, d: Rgb, e: Rgb :: [c, d, e][1..] == [d, e];
  }

  const COLOURS: set<string> := {
    "red", "green", "blue", "white", "yellow", "cyan", "magenta", "pink", "orange", "purple", "violet", "off", "black"}

  function Mixed(lights: seq<Rgb>): Rgb {
    if lights == [] then Rgb(0, 0, 0)
    else
      var m := Mixed(lights[1..]);
      Rgb(lights[0].r + m.r, lights[0].g + m.g, lights[0].b + m.b)
  }

  /** `led` switches on for a colour and off for black, goes by truth for other values, and gives its argument back. */
  lemma LedLaw(std: Std, v: Value, on: bool, colour: Option<Rgb>, act: Actuator, log: seq<Event>)
    requires act.led(log, on, colour).None?
    requires if v.Str? then
               var c := ColourOf(std, v.s);
               c.Some? && (if c.value.r + c.value.g + c.value.b == 0 then !on && colour == None else on && colour == c)
             else colour == None && ApplyPure(std, ToBool, [v]) == Ok(Bool(on))
    ensures ApplyBuiltin(std, Led, [v], None, Some(act), log) == Effect(Ok(v), log + [LedSet(on, colour)])
  {
    hide ColourOf;
  }

  /** `flash` flashes once, takes nothing, and answers true. */
  lemma FlashLaw(std: Std, vals: seq<Value>, act: Actuator, log: seq<Event>)
    ensures act.flash(log).None? ==>
              ApplyBuiltin(std, Flash, [], None, Some(act), log) == Effect(Ok(Bool(true)), log + [Flashed])
    ensures act.flash(log).Some? ==> ApplyBuiltin(std, Flash, [], None, Some(act), log).out == Err(act.flash(log).value)
    ensures vals != [] ==> ApplyBuiltin(std, Flash, vals, None, Some(act), log) == Effect(Err(Arity(|vals|)), log)
  {
  }

  // ---- memory --------------------------------------------------------------------------------

  /** A text is charged its bytes in UTF-8 and a list one value an item, up to 2^32 - 1; nothing else is charged. */
  lemma MemoryLaw(size: nat, v: Value)
    ensures v.Str? ==> Charge(size, v) == Least(|Utf8.TextBytes(v.s)|, 4294967295)
    ensures v.List? ==> Charge(size, v) == Least(|v.items| * size, 4294967295)
    ensures !v.Str? && !v.List? ==> Charge(size, v) == 0
  {
    if v.Str? { Utf8.BytesCounted(v.s); }
  }

  function Least(a: nat, b: nat): nat { if a < b then a else b }
}
