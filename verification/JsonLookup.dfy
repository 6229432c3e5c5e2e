/**
 The scanner against the documents: `get` over a rendered document is document lookup, for every
 document, every white space, every escape and every path.
 */
module JsonLookup {
  import opened Values
  import opened Json
  import opened JsonDoc

  /** `t` stands at position `p` of `b`. */
  predicate At(b: string, p: nat, t: string) { p + |t| <= |b| && b[p..p + |t|] == t }

  lemma AtSplit(b: string, p: nat, t: string, u: string)
    requires At(b, p, t + u)
    ensures At(b, p, t) && At(b, p + |t|, u) && p + |t| + |u| <= |b|
  {
    assert b[p..p + |t + u|][..|t|] == b[p..p + |t|];
    assert b[p..p + |t + u|][|t|..] == b[p + |t|..p + |t| + |u|];
  }

  lemma AtChar(b: string, p: nat, t: string, k: nat)
    requires At(b, p, t) && k < |t|
    ensures p + |t| <= |b| && b[p + k] == t[k]
  {
    assert b[p..p + |t|][k] == b[p + k];
  }

  // ---- white space and strings ---------------------------------------------------------------

  lemma {:induction false} SkipBlank(b: string, p: nat, w: string)
    requires At(b, p, w) && Blank(w)
    ensures SkipWsAt(b, p) == SkipWsAt(b, p + |w|)
    decreases |w|
  {
    if w != [] {
      AtChar(b, p, w, 0);
      AtSplit(b, p, w[..1], w[1..]);
      assert w == w[..1] + w[1..];
      SkipBlank(b, p + 1, w[1..]);
    }
  }

  lemma SkipBlankTo(b: string, p: nat, w: string)
    requires At(b, p, w) && Blank(w) && p + |w| <= |b|
    requires p + |w| < |b| ==> !IsWs(b[p + |w|])
    ensures SkipWsAt(b, p) == p + |w|
  {
    SkipBlank(b, p, w);
  }

  /** Decoding a literal and skipping it end at the same place. */
  lemma {:induction false} UnquoteSkip(b: string, p: nat, out: string)
    requires UnquoteAt(b, p, out).Ok?
    ensures SkipStringAt(b, p) == Ok(UnquoteAt(b, p, out).value.end)
    decreases |b| - p
  {
    if b[p] == '"' {
    } else if b[p] != '\\' {
      UnquoteSkip(b, p + 1, out + [b[p]]);
    } else if b[p + 1] == 'u' {
      var v := Hex4At(b, p + 2).value;
      UnquoteSkip(b, p + 6, out + [ScalarOf(v)]);
      HexPlain(b[p + 2..p + 6]);
      assert forall i | p + 2 <= i < p + 6 :: b[i] == b[p + 2..p + 6][i - (p + 2)];
      SkipPlain(b, p + 2, p + 6);
    } else {
      UnquoteSkip(b, p + 2, out + [ShortEscape(b[p + 1]).value]);
    }
  }

  lemma {:induction false} SkipPlain(b: string, p: nat, q: nat)
    requires p <= q <= |b| && forall i | p <= i < q :: b[i] != '"' && b[i] != '\\'
    ensures SkipStringAt(b, p) == SkipStringAt(b, q)
    decreases q - p
  {
    if p < q {
      SkipPlain(b, p + 1, q);
    }
  }

  lemma {:induction false} HexPlain(t: string)
    requires HexValue(t).Some?
    ensures forall i | 0 <= i < |t| :: t[i] != '"' && t[i] != '\\'
  {
    if t != [] {
      HexPlain(t[..|t| - 1]);
    }
  }

  /** Every character of `a` stands in `b`, shifted by `off`. */
  predicate Embeds(a: string, b: string, off: nat) {
    off + |a| <= |b| && forall k | 0 <= k < |a| :: b[off + k] == a[k]
  }

  /** A literal decodes the same wherever its text stands. */
  lemma {:induction false} UnquoteEmbed(a: string, b: string, off: nat, p: nat, out: string)
    requires Embeds(a, b, off) && UnquoteAt(a, p, out).Ok?
    ensures var u := UnquoteAt(a, p, out).value;
            UnquoteAt(b, off + p, out) == Ok(Unquoted(u.text, off + u.end))
    decreases |a| - p
  {
    assert b[off + p] == a[p];
    if a[p] == '"' {
    } else if a[p] != '\\' {
      UnquoteEmbed(a, b, off, p + 1, out + [a[p]]);
    } else {
      assert b[off + (p + 1)] == a[p + 1];
      if a[p + 1] == 'u' {
        assert forall i | p + 2 <= i < p + 6 :: b[off + i] == a[i];
        assert b[off + p + 2..off + p + 6] == a[p + 2..p + 6];
        UnquoteEmbed(a, b, off, p + 6, out + [ScalarOf(Hex4At(a, p + 2).value)]);
      } else {
        UnquoteEmbed(a, b, off, p + 2, out + [ShortEscape(a[p + 1]).value]);
      }
    }
  }

  lemma AtEmbeds(b: string, p: nat, t: string)
    requires At(b, p, t)
    ensures Embeds(t, b, p)
  {
    forall k | 0 <= k < |t| ensures b[p + k] == t[k] { AtChar(b, p, t, k); }
  }

  lemma LiteralAt(b: string, p: nat, raw: string)
    requires At(b, p, raw) && IsLiteral(raw)
    ensures b[p] == '"'
    ensures UnquoteAt(b, p + 1, "") == Ok(Unquoted(LiteralText(raw), p + |raw|))
    ensures SkipStringAt(b, p + 1) == Ok(p + |raw|)
  {
    AtEmbeds(b, p, raw);
    UnquoteEmbed(raw, b, p, 1, "");
    assert b[p + 0] == raw[0];
    UnquoteSkip(b, p + 1, "");
  }

  // ---- bare tokens ---------------------------------------------------------------------------

  /** The position is the end of the text or a character that ends a bare token. */
  predicate Stops(b: string, p: nat) { p <= |b| && (p < |b| ==> IsDelim(b[p])) }

  predicate BareToken(t: string) {
    t != [] && forall i | 0 <= i < |t| :: !IsDelim(t[i]) && !IsOpen(t[i]) && t[i] != '"'
  }

  lemma {:induction false} TokenAt(b: string, p: nat, t: string)
    requires At(b, p, t) && (forall i | 0 <= i < |t| :: !IsDelim(t[i])) && Stops(b, p + |t|)
    ensures TokenEndAt(b, p) == p + |t|
    decreases |t|
  {
    if t != [] {
      AtChar(b, p, t, 0);
      assert t == t[..1] + t[1..];
      AtSplit(b, p, t[..1], t[1..]);
      TokenAt(b, p + 1, t[1..]);
    }
  }

  /** The text of a document that is not a container or a string. */
  predicate IsBare(d: Doc) { d.Null? || d.Truth? || d.Num? }

  lemma BareRender(d: Doc)
    requires IsBare(d) && WellFormed(d)
    ensures BareToken(Render(d))
  {
  }

  // ---- skipping over documents ---------------------------------------------------------------

  predicate Plain(t: string) {
    forall i | 0 <= i < |t| :: t[i] != '"' && !IsOpen(t[i]) && !IsClose(t[i])
  }

  lemma {:induction false} NestPlain(b: string, q: nat, t: string, depth: int)
    requires At(b, q, t) && Plain(t)
    ensures SkipNestAt(b, q, depth) == SkipNestAt(b, q + |t|, depth)
    decreases |t|
  {
    if t != [] {
      AtChar(b, q, t, 0);
      assert t == t[..1] + t[1..];
      AtSplit(b, q, t[..1], t[1..]);
      NestPlain(b, q + 1, t[1..], depth);
    }
  }

  lemma NestLiteral(b: string, q: nat, raw: string, depth: int)
    requires At(b, q, raw) && IsLiteral(raw)
    ensures SkipNestAt(b, q, depth) == SkipNestAt(b, q + |raw|, depth)
  {
    LiteralAt(b, q, raw);
  }

  /** Inside brackets, the counting loop passes exactly one document at any nesting depth. */
  lemma {:induction false} NestDoc(b: string, q: nat, d: Doc, depth: int)
    requires At(b, q, Render(d)) && WellFormed(d) && depth >= 1
    ensures SkipNestAt(b, q, depth) == SkipNestAt(b, q + |Render(d)|, depth)
    decreases d, 1
  {
    match d
    case Arr(pad, items) => NestBrackets(b, q, d, depth);
    case Obj(pad, members) => NestBrackets(b, q, d, depth);
    case Text(raw) => NestLiteral(b, q, raw, depth);
    case _ =>
      BareRender(d);
      NestPlain(b, q, Render(d), depth);
  }

  /** What stands between the brackets of a container. */
  function Inner(d: Doc): string
    requires d.Arr? || d.Obj?
  {
    match d
    case Arr(pad, items) => if items == [] then pad else RenderItems(items)
    case Obj(pad, members) => if members == [] then pad else RenderMembers(members)
  }

  lemma Brackets(b: string, q: nat, d: Doc)
    requires d.Arr? || d.Obj?
    requires At(b, q, Render(d))
    ensures |Render(d)| == |Inner(d)| + 2 && q + |Inner(d)| + 2 <= |b|
    ensures IsOpen(b[q]) && (b[q] == '{' <==> d.Obj?)
    ensures At(b, q + 1, Inner(d))
    ensures b[q + 1 + |Inner(d)|] == if d.Arr? then ']' else '}'
  {
    var open := if d.Arr? then "[" else "{";
    var close := if d.Arr? then "]" else "}";
    assert Render(d) == open + (Inner(d) + close);
    AtSplit(b, q, open, Inner(d) + close);
    AtSplit(b, q + 1, Inner(d), close);
    AtChar(b, q, open, 0);
    AtChar(b, q + 1 + |Inner(d)|, close, 0);
  }

  /** A bracket is one step of the loop. */
  lemma NestStep(b: string, q: nat, depth: int)
    requires q < |b|
    ensures IsOpen(b[q]) ==> SkipNestAt(b, q, depth) == SkipNestAt(b, q + 1, depth + 1)
    ensures IsClose(b[q]) ==> SkipNestAt(b, q, depth) == if depth == 1 then Ok(q + 1) else SkipNestAt(b, q + 1, depth - 1)
  {
    hide SkipStringAt;
  }

  lemma {:induction false} NestBrackets(b: string, q: nat, d: Doc, depth: int)
    requires d.Arr? || d.Obj?
    requires At(b, q, Render(d)) && WellFormed(d) && depth >= 0
    ensures depth >= 1 ==> SkipNestAt(b, q, depth) == SkipNestAt(b, q + |Render(d)|, depth)
    ensures depth == 0 ==> SkipNestAt(b, q, depth) == Ok(q + |Render(d)|)
    decreases d, 0
  {
    hide At, Render, WellFormed, SkipNestAt, Inner;
    Brackets(b, q, d);
    NestInner(b, q + 1, d, depth + 1);
    NestStep(b, q, depth);
    NestStep(b, q + 1 + |Inner(d)|, depth + 1);
  }

  lemma {:induction false} NestInner(b: string, q: nat, d: Doc, depth: int)
    requires d.Arr? || d.Obj?
    requires At(b, q, Inner(d)) && WellFormed(d) && depth >= 1
    ensures SkipNestAt(b, q, depth) == SkipNestAt(b, q + |Inner(d)|, depth)
    decreases d, -1
  {
    match d
    case Arr(pad, items) =>
      if items == [] { NestPlain(b, q, pad, depth); } else { NestItems(b, q, items, depth); }
    case Obj(pad, members) =>
      if members == [] { NestPlain(b, q, pad, depth); } else { NestMembers(b, q, members, depth); }
  }

  lemma NestBlank(b: string, q: nat, w: string, depth: int)
    requires At(b, q, w) && Blank(w)
    ensures SkipNestAt(b, q, depth) == SkipNestAt(b, q + |w|, depth)
  {
    NestPlain(b, q, w, depth);
  }

  lemma {:induction false} NestItem(b: string, q: nat, i: Item, depth: int)
    requires At(b, q, RenderItem(i)) && LaidOut(i) && WellFormed(i.doc) && depth >= 1
    ensures SkipNestAt(b, q, depth) == SkipNestAt(b, q + |RenderItem(i)|, depth)
    decreases i, 2
  {
    hide At, SkipNestAt, Render, WellFormed, Blank;
    var t := Render(i.doc);
    AtSplit(b, q, i.before, t + i.after);
    AtSplit(b, q + |i.before|, t, i.after);
    NestBlank(b, q, i.before, depth);
    NestDoc(b, q + |i.before|, i.doc, depth);
    NestBlank(b, q + |i.before| + |t|, i.after, depth);
  }

  lemma {:induction false} NestItems(b: string, q: nat, items: seq<Item>, depth: int)
    requires items != [] && At(b, q, RenderItems(items)) && WellFormedItems(items) && depth >= 1
    ensures SkipNestAt(b, q, depth) == SkipNestAt(b, q + |RenderItems(items)|, depth)
    decreases items, 0
  {
    hide At, SkipNestAt, Render, RenderItem, WellFormed;
    if |items| == 1 {
      NestItem(b, q, items[0], depth);
    } else {
      var head := RenderItem(items[0]);
      AtSplit(b, q, head, "," + RenderItems(items[1..]));
      AtSplit(b, q + |head|, ",", RenderItems(items[1..]));
      NestItem(b, q, items[0], depth);
      NestPlain(b, q + |head|, ",", depth);
      NestItems(b, q + |head| + 1, items[1..], depth);
    }
  }

  lemma NestKey(b: string, q: nat, m: Member, depth: int)
    requires At(b, q, RenderKey(m)) && Keyed(m)
    ensures SkipNestAt(b, q, depth) == SkipNestAt(b, q + |RenderKey(m)|, depth)
  {
    hide At, SkipNestAt, Blank, IsLiteral;
    AtSplit(b, q, m.before, m.key + (m.gap + ":"));
    AtSplit(b, q + |m.before|, m.key, m.gap + ":");
    var g := q + |m.before| + |m.key|;
    AtSplit(b, g, m.gap, ":");
    NestBlank(b, q, m.before, depth);
    NestLiteral(b, q + |m.before|, m.key, depth);
    NestBlank(b, g, m.gap, depth);
    NestPlain(b, g + |m.gap|, ":", depth);
  }

  lemma {:induction false} NestMember(b: string, q: nat, m: Member, depth: int)
    requires At(b, q, RenderMember(m)) && Keyed(m) && WellFormed(m.item.doc) && depth >= 1
    ensures SkipNestAt(b, q, depth) == SkipNestAt(b, q + |RenderMember(m)|, depth)
    decreases m, 3
  {
    AtSplit(b, q, RenderKey(m), RenderItem(m.item));
    NestKey(b, q, m, depth);
    NestItem(b, q + |RenderKey(m)|, m.item, depth);
  }

  lemma {:induction false} NestMembers(b: string, q: nat, members: seq<Member>, depth: int)
    requires members != [] && At(b, q, RenderMembers(members)) && WellFormedMembers(members) && depth >= 1
    ensures SkipNestAt(b, q, depth) == SkipNestAt(b, q + |RenderMembers(members)|, depth)
    decreases members, 0
  {
    hide At, SkipNestAt, Render, RenderMember, WellFormed;
    if |members| == 1 {
      NestMember(b, q, members[0], depth);
    } else {
      var head := RenderMember(members[0]);
      AtSplit(b, q, head, "," + RenderMembers(members[1..]));
      AtSplit(b, q + |head|, ",", RenderMembers(members[1..]));
      NestMember(b, q, members[0], depth);
      NestPlain(b, q + |head|, ",", depth);
      NestMembers(b, q + |head| + 1, members[1..], depth);
    }
  }

  /** The first character of a document is not white space. */
  lemma RenderStart(d: Doc)
    requires WellFormed(d)
    ensures Render(d) != [] && !IsDelim(Render(d)[0]) && (IsOpen(Render(d)[0]) <==> d.Arr? || d.Obj?)
    ensures Render(d)[0] == '"' <==> d.Text?
  {
    if IsBare(d) { BareRender(d); }
  }

  /** `skip_value` passes exactly one rendered value. */
  lemma SkipDoc(b: string, p: nat, d: Doc)
    requires At(b, p, Render(d)) && WellFormed(d) && Stops(b, p + |Render(d)|)
    ensures SkipValueAt(b, p) == Ok(p + |Render(d)|)
  {
    RenderStart(d);
    AtChar(b, p, Render(d), 0);
    if IsBare(d) {
      BareRender(d);
      TokenAt(b, p, Render(d));
    } else if d.Text? {
      LiteralAt(b, p, d.raw);
    } else {
      NestBrackets(b, p, d, 0);
    }
  }

  // ---- entering containers -------------------------------------------------------------------

  /** `d` stands at `p`, and what follows it ends a bare token. */
  predicate Stands(b: string, p: nat, d: Doc) {
    At(b, p, Render(d)) && Stops(b, p + |Render(d)|)
  }

  /** A character that may follow an item: a comma or a closing bracket. */
  predicate EndsItem(c: char) { IsDelim(c) && !IsWs(c) }

  lemma AtItem(b: string, p: nat, i: Item)
    requires At(b, p, RenderItem(i)) && LaidOut(i) && WellFormed(i.doc)
    requires p + |RenderItem(i)| < |b| && EndsItem(b[p + |RenderItem(i)|])
    ensures SkipWsAt(b, p) == p + |i.before|
    ensures Stands(b, p + |i.before|, i.doc)
    ensures SkipValueAt(b, p + |i.before|) == Ok(p + |i.before| + |Render(i.doc)|)
    ensures SkipWsAt(b, p + |i.before| + |Render(i.doc)|) == p + |RenderItem(i)|
  {
    hide At, Blank, SkipWsAt, SkipValueAt, WellFormed, Render;
    var t := Render(i.doc);
    var q := p + |i.before|;
    var e := q + |t|;
    AtSplit(b, p, i.before, t + i.after);
    AtSplit(b, q, t, i.after);
    RenderStart(i.doc);
    AtChar(b, q, t, 0);
    SkipBlankTo(b, p, i.before);
    if i.after != [] {
      AtChar(b, e, i.after, 0);
      BlankStart(i.after);
    }
    SkipBlankTo(b, e, i.after);
    SkipDoc(b, q, i.doc);
  }

  lemma BlankStart(w: string)
    requires Blank(w) && w != []
    ensures IsWs(w[0])
  {
  }

  lemma LiteralStart(raw: string)
    requires IsLiteral(raw)
    ensures raw != [] && raw[0] == '"'
  {
  }

  /** Reading the key of a member. */
  lemma EntryIs(b: string, p: nat, k: nat, text: string, end: nat, colon: nat)
    requires SkipWsAt(b, p) == k < |b| && b[k] == '"' && UnquoteAt(b, k + 1, "") == Ok(Unquoted(text, end))
    requires SkipWsAt(b, end) == colon < |b| && b[colon] == ':'
    ensures EntryAt(b, p) == Ok(Entry(text, SkipWsAt(b, colon + 1)))
  {
    hide SkipWsAt, UnquoteAt;
  }

  lemma AtKey(b: string, p: nat, m: Member)
    requires At(b, p, RenderKey(m)) && Keyed(m)
    ensures p + |RenderKey(m)| <= |b|
    ensures EntryAt(b, p) == Ok(Entry(LiteralText(m.key), SkipWsAt(b, p + |RenderKey(m)|)))
  {
    hide At, Blank, SkipWsAt, UnquoteAt, IsLiteral, SkipStringAt, EntryAt;
    var k := p + |m.before|;
    var colon := k + |m.key| + |m.gap|;
    AtSplit(b, p, m.before, m.key + (m.gap + ":"));
    AtSplit(b, k, m.key, m.gap + ":");
    AtSplit(b, k + |m.key|, m.gap, ":");
    AtChar(b, colon, ":", 0);
    LiteralStart(m.key);
    AtChar(b, k, m.key, 0);
    LiteralAt(b, k, m.key);
    SkipBlankTo(b, p, m.before);
    SkipBlankTo(b, k + |m.key|, m.gap);
    EntryIs(b, p, k, LiteralText(m.key), k + |m.key|, colon);
  }

  /** One round of the object loop over a member. */
  lemma ObjectRound(b: string, p: nat, m: Member, key: string)
    requires At(b, p, RenderMember(m)) && Keyed(m) && WellFormed(m.item.doc)
    requires p + |RenderMember(m)| < |b| && (b[p + |RenderMember(m)|] == ',' || b[p + |RenderMember(m)|] == '}')
    ensures LiteralText(m.key) == key ==>
              var r := EnterObjectAt(b, p, key); r.Ok? && Stands(b, r.value, m.item.doc)
    ensures LiteralText(m.key) != key ==>
              EnterObjectAt(b, p, key) ==
              if b[p + |RenderMember(m)|] == ',' then EnterObjectAt(b, p + |RenderMember(m)| + 1, key)
              else Fault(JsonKeyNotFound)
  {
    hide At, SkipWsAt, SkipValueAt, WellFormed, RenderItem, RenderKey, EntryAt, IsLiteral, Stands;
    AtSplit(b, p, RenderKey(m), RenderItem(m.item));
    AtKey(b, p, m);
    AtItem(b, p + |RenderKey(m)|, m.item);
  }

  /** Entering an object finds the first member with the key, or says there is none. */
  lemma {:induction false} EnterMembers(b: string, p: nat, members: seq<Member>, key: string)
    requires members != [] && WellFormedMembers(members) && At(b, p, RenderMembers(members))
    requires p + |RenderMembers(members)| < |b| && b[p + |RenderMembers(members)|] == '}'
    ensures var r, d := EnterObjectAt(b, p, key), FindMember(members, key);
            if d.Ok? then r.Ok? && Stands(b, r.value, d.value) else r == Err(d.error)
    decreases |members|
  {
    hide At, EnterObjectAt, WellFormed, RenderMember, Keyed, Stands, LiteralText;
    var head := RenderMember(members[0]);
    if |members| == 1 {
      ObjectRound(b, p, members[0], key);
      assert FindMember(members[1..], key) == Fault(JsonKeyNotFound);
    } else {
      AtSplit(b, p, head, "," + RenderMembers(members[1..]));
      AtSplit(b, p + |head|, ",", RenderMembers(members[1..]));
      AtChar(b, p + |head|, ",", 0);
      ObjectRound(b, p, members[0], key);
      EnterMembers(b, p + |head| + 1, members[1..], key);
    }
  }

  /** One round of the array loop over an item. */
  lemma ArrayRound(b: string, p: nat, item: Item, i: nat, target: nat)
    requires At(b, p, RenderItem(item)) && LaidOut(item) && WellFormed(item.doc) && i <= target
    requires p + |RenderItem(item)| < |b| && (b[p + |RenderItem(item)|] == ',' || b[p + |RenderItem(item)|] == ']')
    ensures i == target ==>
              var r := EnterArrayAt(b, p, i, target); r.Ok? && Stands(b, r.value, item.doc)
    ensures i < target ==>
              EnterArrayAt(b, p, i, target) ==
              if b[p + |RenderItem(item)|] == ',' then EnterArrayAt(b, p + |RenderItem(item)| + 1, i + 1, target)
              else Fault(JsonOutOfRange)
  {
    hide At, SkipWsAt, SkipValueAt, WellFormed, RenderItem, Render;
    AtItem(b, p, item);
    RenderStart(item.doc);
    AtChar(b, p + |item.before|, Render(item.doc), 0);
  }

  /** Entering an array finds the item with the index, or says there is none. */
  lemma {:induction false} EnterItems(b: string, p: nat, items: seq<Item>, i: nat, target: nat)
    requires items != [] && WellFormedItems(items) && At(b, p, RenderItems(items)) && i <= target
    requires p + |RenderItems(items)| < |b| && b[p + |RenderItems(items)|] == ']'
    ensures var r, d := EnterArrayAt(b, p, i, target), FindItem(items, target - i);
            if d.Ok? then r.Ok? && Stands(b, r.value, d.value) else r == Err(d.error)
    decreases |items|
  {
    hide At, EnterArrayAt, WellFormed, RenderItem, LaidOut, Stands;
    var head := RenderItem(items[0]);
    if |items| == 1 {
      ArrayRound(b, p, items[0], i, target);
    } else {
      AtSplit(b, p, head, "," + RenderItems(items[1..]));
      AtSplit(b, p + |head|, ",", RenderItems(items[1..]));
      AtChar(b, p + |head|, ",", 0);
      ArrayRound(b, p, items[0], i, target);
      if i < target {
        EnterItems(b, p + |head| + 1, items[1..], i + 1, target);
      }
    }
  }

  /** An empty container holds only white space. */
  lemma EnterEmpty(b: string, p: nat, pad: string, key: string, target: nat)
    requires At(b, p, pad) && Blank(pad) && p + |pad| < |b|
    ensures b[p + |pad|] == '}' ==> EnterObjectAt(b, p, key) == Fault(JsonKeyNotFound)
    ensures b[p + |pad|] == ']' ==> EnterArrayAt(b, p, 0, target) == Fault(JsonOutOfRange)
  {
    hide At, Blank, SkipWsAt;
    if IsClose(b[p + |pad|]) {
      SkipBlankTo(b, p, pad);
    }
  }

  lemma EnterChild(b: string, p: nat, d: Doc, comp: string)
    requires Stands(b, p, d) && WellFormed(d)
    ensures var r, c := EnterAt(b, p, comp), Child(d, comp);
            if c.Ok? then r.Ok? && Stands(b, r.value, c.value) else r == Err(c.error)
  {
    hide At, Blank, SkipWsAt, Render, EnterObjectAt, EnterArrayAt, ParseUsize, RenderItems, RenderMembers;
    RenderStart(d);
    AtChar(b, p, Render(d), 0);
    var target := ParseUsize(comp);
    if d.Obj? {
      Brackets(b, p, d);
      if d.members == [] {
        EnterEmpty(b, p + 1, d.pad, comp, 0);
      } else {
        EnterMembers(b, p + 1, d.members, comp);
      }
    } else if d.Arr? && target.Some? {
      Brackets(b, p, d);
      if d.items == [] {
        EnterEmpty(b, p + 1, d.pad, comp, target.value);
      } else {
        EnterItems(b, p + 1, d.items, 0, target.value);
      }
    } else if d.Arr? {
      Brackets(b, p, d);
    }
  }

  lemma {:induction false} DescendLookup(b: string, p: nat, d: Doc, comps: seq<string>)
    requires Stands(b, p, d) && WellFormed(d)
    ensures var r, c := DescendAt(b, p, comps), Lookup(d, comps);
            if c.Ok? then r.Ok? && Stands(b, r.value, c.value) else r == Err(c.error)
    decreases |comps|
  {
    if comps != [] {
      EnterChild(b, p, d, comps[0]);
      var q, c := EnterAt(b, p, comps[0]), Child(d, comps[0]);
      if c.Ok? {
        RenderStart(c.value);
        AtChar(b, q.value, Render(c.value), 0);
        DescendLookup(b, q.value, c.value, comps[1..]);
      }
    }
  }

  lemma ScalarMeaning(std: Std, b: string, p: nat, d: Doc)
    requires Stands(b, p, d) && WellFormed(d)
    ensures ScalarAt(std, b, p) == ScalarOfDoc(std, d)
  {
    RenderStart(d);
    AtChar(b, p, Render(d), 0);
    match d
    case Text(raw) => LiteralAt(b, p, raw);
    case Num(tok) =>
      assert IsNumChar(tok[0]);
      BareRender(d);
      TokenAt(b, p, tok);
    case _ =>
  }

  /** Path extraction is document lookup. */
  lemma GetIsLookup(std: Std, d: Doc, before: string, after: string, path: string)
    requires WellFormed(d) && Blank(before) && Blank(after)
    ensures GetAt(std, before + (Render(d) + after), path) == Meaning(std, d, path)
  {
    hide Blank, SkipWsAt, Render, WellFormed, ScalarAt, ScalarOfDoc, DescendAt, Lookup;
    var t := Render(d);
    var b := before + (t + after);
    var p := |before|;
    assert At(b, 0, b);
    AtSplit(b, 0, before, t + after);
    AtSplit(b, p, t, after);
    RenderStart(d);
    AtChar(b, p, t, 0);
    SkipBlankTo(b, 0, before);
    if after != [] {
      AtChar(b, p + |t|, after, 0);
      BlankStart(after);
    }
    DescendLookup(b, p, d, Components(path));
    var c := Lookup(d, Components(path));
    if c.Ok? {
      ScalarMeaning(std, b, DescendAt(b, p, Components(path)).value, c.value);
    }
  }
}
