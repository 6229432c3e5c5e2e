/**
 JSON documents with their layout, the text they stand for, and what a path means in them. Every
 choice of white space (section 2 of RFC 8259) and of string escapes (section 7) is some document. The text of a
 literal is what the scanner reads; `JsonText` says what the literal stands for, and when the two agree.
 */
module JsonDoc {
  import opened Values
  import opened Json

  /** `raw` is a whole string literal, quotes included; `tok` is a number as written. */
  datatype Doc =
    | Null
    | Truth(b: bool)
    | Num(tok: string)
    | Text(raw: string)
    | Arr(pad: string, items: seq<Item>)
    | Obj(pad: string, members: seq<Member>)

  datatype Item = Item(before: string, doc: Doc, after: string)

  /** `key` is the literal as written; white space may surround it and the value. */
  datatype Member = Member(before: string, key: string, gap: string, item: Item)

  // ---- rendering -----------------------------------------------------------------------------

  function Render(d: Doc): (t: string)
    decreases d, 1
  {
    match d
    case Null => "null"
    case Truth(b) => if b then "true" else "false"
    case Num(tok) => tok
    case Text(raw) => raw
    case Arr(pad, items) => "[" + (if items == [] then pad else RenderItems(items)) + "]"
    case Obj(pad, members) => "{" + (if members == [] then pad else RenderMembers(members)) + "}"
  }

  function RenderItem(i: Item): string
    decreases i, 2
  {
    i.before + (Render(i.doc) + i.after)
  }

  function RenderItems(items: seq<Item>): string
    requires items != []
    decreases items, 0
  {
    if |items| == 1 then RenderItem(items[0]) else RenderItem(items[0]) + ("," + RenderItems(items[1..]))
  }

  function RenderKey(m: Member): string { m.before + (m.key + (m.gap + ":")) }

  function RenderMember(m: Member): string
    decreases m, 0
  {
    RenderKey(m) + RenderItem(m.item)
  }

  function RenderMembers(members: seq<Member>): string
    requires members != []
    decreases members, 0
  {
    if |members| == 1 then RenderMember(members[0])
    else RenderMember(members[0]) + ("," + RenderMembers(members[1..]))
  }

  // ---- well-formed documents -----------------------------------------------------------------

  predicate Blank(w: string) { forall i | 0 <= i < |w| :: IsWs(w[i]) }

  predicate IsNumChar(c: char) { IsDigit(c) || c == '-' || c == '+' || c == '.' || c == 'e' || c == 'E' }

  predicate IsNumber(tok: string) { tok != [] && forall i | 0 <= i < |tok| :: IsNumChar(tok[i]) }

  /** A string literal: decoding it from its opening quote ends exactly at its closing quote. */
  predicate IsLiteral(raw: string) {
    && raw != [] && raw[0] == '"'
    && var u := UnquoteAt(raw, 1, "");
       u.Ok? && u.value.end == |raw|
  }

  function LiteralText(raw: string): string
    requires IsLiteral(raw)
  {
    UnquoteAt(raw, 1, "").value.text
  }

  predicate LaidOut(i: Item) { Blank(i.before) && Blank(i.after) }

  predicate Keyed(m: Member) { Blank(m.before) && IsLiteral(m.key) && Blank(m.gap) && LaidOut(m.item) }

  predicate WellFormed(d: Doc)
    decreases d, 1
  {
    match d
    case Null => true
    case Truth(_) => true
    case Num(tok) => IsNumber(tok)
    case Text(raw) => IsLiteral(raw)
    case Arr(pad, items) => Blank(pad) && WellFormedItems(items)
    case Obj(pad, members) => Blank(pad) && WellFormedMembers(members)
  }

  predicate WellFormedItems(items: seq<Item>)
    decreases items, 0
  {
    items == [] ||
    (LaidOut(items[0]) && WellFormed(items[0].doc) && WellFormedItems(items[1..]))
  }

  predicate WellFormedMembers(members: seq<Member>)
    decreases members, 0
  {
    members == [] ||
    (Keyed(members[0]) && WellFormed(members[0].item.doc) && WellFormedMembers(members[1..]))
  }

  // ---- what a path means ---------------------------------------------------------------------

  /** The value of the first member with the given key. */
  function FindMember(members: seq<Member>, key: string): (r: Result<Doc>)
    requires WellFormedMembers(members)
    ensures r.Ok? ==> WellFormed(r.value)
  {
    if members == [] then Fault(JsonKeyNotFound)
    else if LiteralText(members[0].key) == key then Ok(members[0].item.doc)
    else FindMember(members[1..], key)
  }

  function FindItem(items: seq<Item>, k: nat): (r: Result<Doc>)
    requires WellFormedItems(items)
    ensures r.Ok? ==> WellFormed(r.value)
    ensures r == if k < |items| then Ok(items[k].doc) else Fault(JsonOutOfRange)
  {
    if items == [] then Fault(JsonOutOfRange)
    else if k == 0 then Ok(items[0].doc)
    else FindItem(items[1..], k - 1)
  }

  function Child(d: Doc, comp: string): (r: Result<Doc>)
    requires WellFormed(d)
    ensures r.Ok? ==> WellFormed(r.value)
  {
    match d
    case Obj(_, members) => FindMember(members, comp)
    case Arr(_, items) =>
      var k := ParseUsize(comp);
      if k.None? then Fault(JsonBadIndex) else FindItem(items, k.value)
    case _ => Fault(JsonIndexScalar)
  }

  function Lookup(d: Doc, comps: seq<string>): (r: Result<Doc>)
    requires WellFormed(d)
    ensures r.Ok? ==> WellFormed(r.value)
    decreases |comps|
  {
    if comps == [] then Ok(d)
    else
      var c := Child(d, comps[0]);
      if c.Err? then c else Lookup(c.value, comps[1..])
  }

  function ScalarOfDoc(std: Std, d: Doc): Result<Value>
    requires WellFormed(d)
  {
    match d
    case Null => Fault(JsonNull)
    case Truth(b) => Ok(Bool(b))
    case Num(tok) => NumberValue(std, tok)
    case Text(raw) => Ok(Str(LiteralText(raw)))
    case Arr(_, _) => Fault(JsonNotScalar)
    case Obj(_, _) => Fault(JsonNotScalar)
  }

  /** Document lookup: descend to the first match of each component, then read a scalar. */
  function Meaning(std: Std, d: Doc, path: string): Result<Value>
    requires WellFormed(d)
  {
    var r := Lookup(d, Components(path));
    if r.Err? then Err(r.error) else ScalarOfDoc(std, r.value)
  }
}
