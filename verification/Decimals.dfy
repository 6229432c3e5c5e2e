/** Decimal numbers as they are written, and that reading them gives the number back. */
module Decimals {
  import opened Values
  import opened Json

  function Figure(d: nat): char
    requires d < 10
  {
    (48 + d) as char
  }

  /** A number in decimal, without leading zeros. */
  function Decimal(n: nat): string { if n < 10 then [Figure(n)] else Decimal(n / 10) + [Figure(n % 10)] }

  lemma {:induction false} DigitsReadBack(n: nat)
    ensures Digits(Decimal(n)) == Some(n) && Decimal(n) != []
    ensures forall i | 0 <= i < |Decimal(n)| :: 48 <= Decimal(n)[i] as int <= 57
  {
    var t := Decimal(n);
    if n >= 10 {
      DigitsReadBack(n / 10);
      assert t[..|t| - 1] == Decimal(n / 10);
    } else {
      assert t[..0] == [] && Digits([]) == Some(0);
    }
  }

  /** Only figures make a number. */
  lemma {:induction false} DigitsExactly(t: string)
    ensures Digits(t).Some? <==> forall i | 0 <= i < |t| :: 48 <= t[i] as int <= 57
  {
    if t != [] {
      DigitsExactly(t[..|t| - 1]);
      assert t == t[..|t| - 1] + [t[|t| - 1]];
    }
  }

  /** Leading zeros make no difference. */
  lemma {:induction false} LeadingZero(t: string)
    ensures Digits("0" + t) == Digits(t)
  {
    var z := "0" + t;
    if t == [] {
      assert z[..0] == [] && Digits([]) == Some(0);
    } else {
      LeadingZero(t[..|t| - 1]);
      assert z[..|z| - 1] == "0" + t[..|t| - 1];
    }
  }

  lemma SignedBody(t: string)
    ensures ("-" + t)[1..] == t && ("+" + t)[1..] == t
  {
  }

  /** A signed decimal reads as its number, if 64 bits hold it, and fails otherwise. */
  lemma IntegersReadBack(n: nat)
    ensures ParseI64(Decimal(n)) == if n <= 9223372036854775807 then Some(n) else None
    ensures ParseI64("+" + Decimal(n)) == if n <= 9223372036854775807 then Some(n) else None
    ensures ParseI64("-" + Decimal(n)) == if n <= 9223372036854775808 then Some(-(n as int)) else None
  {
    hide Digits, Decimal;
    DigitsReadBack(n);
    SignedBody(Decimal(n));
    assert Decimal(n)[0] != '-' && Decimal(n)[0] != '+';
  }

  /** So does an index, which may carry a plus sign and no minus. */
  lemma IndicesReadBack(n: nat)
    ensures ParseUsize(Decimal(n)) == if n <= 18446744073709551615 then Some(n) else None
    ensures ParseUsize("+" + Decimal(n)) == ParseUsize(Decimal(n)) && ParseUsize("-" + Decimal(n)) == None
  {
    hide Digits, Decimal;
    DigitsReadBack(n);
    SignedBody(Decimal(n));
    DigitsExactly("-" + Decimal(n));
    assert ("-" + Decimal(n))[0] == '-';
    assert Decimal(n)[0] != '+';
  }

  /** No number is empty, a sign alone, or holds anything but figures behind its sign. */
  lemma NotANumber(t: string, i: nat)
    requires t == [] || t == "-" || t == "+" || (0 < i < |t| && !(48 <= t[i] as int <= 57))
    ensures ParseI64(t) == None
  {
    DigitsExactly(t);
    if t != [] {
      DigitsExactly(t[1..]);
      if 0 < i < |t| { assert t[1..][i - 1] == t[i]; }
    }
  }

  /** A JSON number without point or exponent is the integer it writes, any other is the library's float. */
  lemma JsonNumberIs(std: Std, n: nat, tok: string)
    requires n <= 9223372036854775807
    ensures NumberValue(std, Decimal(n)) == Ok(Int(n)) && NumberValue(std, "-" + Decimal(n)) == Ok(Int(-(n as int)))
    ensures '.' in tok || 'e' in tok || 'E' in tok ==>
              NumberValue(std, tok) == if std.parseFloat(tok).Some? then Ok(Float(std.parseFloat(tok).value)) else Fault(JsonBadFloat)
  {
    hide ParseI64, Decimal;
    DigitsReadBack(n);
    IntegersReadBack(n);
    assert !HasFloatMark(Decimal(n)) by { NoMark(Decimal(n)); }
    assert !HasFloatMark("-" + Decimal(n)) by { NoMark(Decimal(n)); }
  }

  lemma NoMark(t: string)
    requires forall i | 0 <= i < |t| :: 48 <= t[i] as int <= 57
    ensures !HasFloatMark(t) && !HasFloatMark("-" + t)
  {
    var m := "-" + t;
    assert forall i | 0 <= i < |m| :: m[i] == if i == 0 then '-' else t[i - 1];
  }

  // ---- paths ---------------------------------------------------------------------------------

  /** Components with a point between any two. */
  function WithDots(comps: seq<string>): string {
    if comps == [] then [] else if |comps| == 1 then comps[0] else comps[0] + "." + WithDots(comps[1..])
  }

  /** Splitting a path at its points: joined again the components are the path, and none holds a point. */
  lemma {:induction false} SplitLaw(path: string)
    ensures WithDots(SplitDots(path)) == path
    ensures forall k | 0 <= k < |SplitDots(path)| :: '.' !in SplitDots(path)[k]
  {
    if path != [] {
      var rest := SplitDots(path[1..]);
      var s := SplitDots(path);
      SplitLaw(path[1..]);
      if path[0] == '.' {
        assert s[1..] == rest && s[0] == "";
        assert WithDots(s) == "" + "." + path[1..] == path;
      } else {
        assert s[1..] == rest[1..] && s[0] == [path[0]] + rest[0];
        if |rest| > 1 {
          assert ([path[0]] + rest[0]) + "." + WithDots(rest[1..]) == [path[0]] + (rest[0] + "." + WithDots(rest[1..]));
        }
        assert path == [path[0]] + path[1..];
      }
    }
  }
}
