/** The JSON string printer, and its inverse relation to the scanner's string reader. */
module JsonPrint {
  import opened Values
  import opened Json
  import opened JsonDoc
  import opened JsonLookup

  function HexChar(d: nat): (c: char)
    requires d < 16
    ensures HexDigit(c) == Some(d)
  {
    if d < 10 then (d + '0' as int) as char else (d - 10 + 'a' as int) as char
  }

  /** The escape of one character. Control characters take the four-digit form. */
  function Escape(c: char): (t: string)
    ensures t != []
  {
    if c == '"' then "\\\""
    else if c == '\\' then "\\\\"
    else if c == '\n' then "\\n"
    else if c == '\r' then "\\r"
    else if c == '\t' then "\\t"
    else if c as int < 0x20 then ['\\', 'u', '0', '0', HexChar(c as int / 16), HexChar(c as int % 16)]
    else [c]
  }

  function EscapeAll(s: string): string {
    if s == [] then [] else Escape(s[0]) + EscapeAll(s[1..])
  }

  function Quoted(s: string): string { "\"" + (EscapeAll(s) + "\"") }

  lemma {:induction false} EscapeAllSnoc(s: string, c: char)
    ensures EscapeAll(s + [c]) == EscapeAll(s) + Escape(c)
  {
    if s == [] {
      assert s + [c] == [c] && [c][1..] == [];
    } else {
      assert (s + [c])[0] == s[0] && (s + [c])[1..] == s[1..] + [c];
      EscapeAllSnoc(s[1..], c);
    }
  }

  lemma EscapeNone()
    ensures EscapeAll([]) == []
  {
  }

  method Jstr(s: string) returns (o: string)
    ensures o == Quoted(s)
  {
    hide Escape, EscapeAll;
    o := "\"";
    var i := 0;
    EscapeNone();
    while i < |s|
      invariant 0 <= i <= |s|
      invariant o == "\"" + EscapeAll(s[..i])
    {
      assert s[..i + 1] == s[..i] + [s[i]];
      EscapeAllSnoc(s[..i], s[i]);
      calc {
        o + Escape(s[i]);
        ("\"" + EscapeAll(s[..i])) + Escape(s[i]);
        "\"" + (EscapeAll(s[..i]) + Escape(s[i]));
      }
      o := o + Escape(s[i]);
      i := i + 1;
    }
    assert s[..i] == s;
    o := o + "\"";
  }

  lemma HexFour(d0: nat, d1: nat)
    requires d0 < 2 && d1 < 16
    ensures HexValue(['0', '0', HexChar(d0), HexChar(d1)]) == Some(d0 * 16 + d1)
  {
    var t := ['0', '0', HexChar(d0), HexChar(d1)];
    assert t[..3] == ['0', '0', HexChar(d0)] && t[..3][..2] == ['0', '0'] && ['0', '0'][..1] == ['0'];
    assert ['0'][..0] == [];
    assert HexValue([]) == Some(0);
    assert HexValue(['0']) == Some(0);
    assert HexValue(['0', '0']) == Some(0);
    assert HexValue(t[..3]) == Some(d0);
  }

  /** Reading one escape gives back the character. */
  lemma UnquoteEscape(b: string, p: nat, c: char, out: string)
    requires At(b, p, Escape(c))
    ensures UnquoteAt(b, p, out) == UnquoteAt(b, p + |Escape(c)|, out + [c])
  {
    hide At, HexValue;
    var t := Escape(c);
    AtChar(b, p, t, 0);
    if |t| > 1 {
      AtChar(b, p, t, 1);
      if t[1] == 'u' {
        var v := c as int;
        assert t == t[..2] + t[2..];
        AtSplit(b, p, t[..2], t[2..]);
        assert t[2..] == ['0', '0', HexChar(v / 16), HexChar(v % 16)];
        HexFour(v / 16, v % 16);
        FourAt(b, p + 2, t[2..]);
      }
    }
  }

  lemma FourAt(b: string, p: nat, t: string)
    requires At(b, p, t) && |t| == 4
    ensures p + 4 <= |b| && b[p..p + 4] == t
  {
  }

  lemma {:induction false} UnquoteAll(b: string, p: nat, s: string, out: string)
    requires At(b, p, EscapeAll(s) + "\"")
    ensures UnquoteAt(b, p, out) == Ok(Unquoted(out + s, p + |EscapeAll(s)| + 1))
    decreases |s|
  {
    hide At, Escape;
    if s == [] {
      assert EscapeAll(s) + "\"" == "\"";
      AtChar(b, p, "\"", 0);
      assert out + s == out;
    } else {
      var e, rest := Escape(s[0]), EscapeAll(s[1..]) + "\"";
      assert EscapeAll(s) + "\"" == e + rest;
      AtSplit(b, p, e, rest);
      UnquoteEscape(b, p, s[0], out);
      UnquoteAll(b, p + |e|, s[1..], out + [s[0]]);
      assert out + [s[0]] + s[1..] == out + s;
    }
  }

  /** Reading a printed string gives it back, for every string. */
  lemma QuotedReadsBack(s: string)
    ensures IsLiteral(Quoted(s)) && LiteralText(Quoted(s)) == s
  {
    var raw := Quoted(s);
    assert At(raw, 0, "\"" + (EscapeAll(s) + "\""));
    AtSplit(raw, 0, "\"", EscapeAll(s) + "\"");
    UnquoteAll(raw, 1, s, "");
    assert "" + s == s;
  }

  /**
   Of the ways to write a character down that read back, the printer takes the character itself unless it must be
   escaped, a short escape for the quote, the backslash, line feed, carriage return and tab, and otherwise four
   lower-case digits.
   */
  lemma OneForm(c: char)
    ensures c as int >= 32 && c as int != 34 && c as int != 92 ==> Escape(c) == [c]
    ensures c as int in {34, 92, 10, 13, 9} ==> |Escape(c)| == 2
    ensures c as int < 32 && c as int !in {10, 13, 9} ==> |Escape(c)| == 6 && Escape(c)[1] == 'u'
    ensures Escape(c) != [c] ==> forall i | 0 <= i < |Escape(c)| :: !('A' <= Escape(c)[i] <= 'F')
  {
  }
}
