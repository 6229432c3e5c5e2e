/** What the two patterns match, and which literals fill the slots. */
module DelexPatterns {
  import opened Values
  import opened Delex

  // ---- numbers -------------------------------------------------------------------------------

  ghost predicate AllDigits(s: string) { forall i | 0 <= i < |s| :: '0' <= s[i] <= '9' }

  /** A number in its parts: an optional minus sign, digits, and an optional point with digits behind it. */
  ghost predicate Parts(s: string, sign: string, whole: string, fraction: string) {
    && s == sign + whole + fraction
    && (sign == "" || sign == "-")
    && whole != "" && AllDigits(whole)
    && (fraction == "" || (|fraction| >= 2 && fraction[0] == '.' && AllDigits(fraction[1..])))
  }

  ghost predicate IsNumber(s: string) { exists sign, whole, fraction :: Parts(s, sign, whole, fraction) }

  lemma DigitsAre(s: string, n: nat)
    requires n <= |s| && AllDigits(s[..n]) && (n < |s| ==> !IsDigit(s[n]))
    ensures Delex.Digits(s) == n
  {
    forall i | 0 <= i < n ensures IsDigit(s[i]) { assert s[..n][i] == s[i]; }
  }

  lemma DigitsAtLeast(s: string, n: nat)
    requires n <= |s| && AllDigits(s[..n])
    ensures Delex.Digits(s) >= n
  {
    forall i | 0 <= i < n ensures IsDigit(s[i]) { assert s[..n][i] == s[i]; }
  }

  /** The digits at a place. */
  lemma DigitsAt(s: string, at: nat)
    requires at <= |s|
    ensures AllDigits(s[at..at + Delex.Digits(s[at..])])
  {
    var n, t := Delex.Digits(s[at..]), s[at..];
    assert s[at..at + n] == t[..n];
    forall i | 0 <= i < n ensures '0' <= t[i] <= '9' { assert IsDigit(t[i]); }
  }

  /** What is taken is a number. */
  lemma TakenIsNumber(s: string)
    requires NumberLen(s) > 0
    ensures IsNumber(s[..NumberLen(s)])
  {
    var n := NumberLen(s);
    var k := if s[0] == '-' then 1 else 0;
    var w := k + Delex.Digits(s[k..]);
    DigitsAt(s, k);
    var sign, whole, fraction := s[..k], s[k..w], s[w..n];
    assert s[..n] == sign + whole + fraction;
    if n > w {
      DigitsAt(s, w + 1);
      assert fraction[1..] == s[w + 1..n];
    }
    assert Parts(s[..n], sign, whole, fraction);
  }

  /** A number is at least as long as its sign and digits, and with a fraction as long as that. */
  lemma LongAsParts(s: string, k: nat, w: nat, m: nat)
    requires k < w <= m <= |s| && k == (if s[0] == '-' then 1 else 0) && AllDigits(s[k..w])
    requires m > w ==> m > w + 1 && s[w] == '.' && AllDigits(s[w + 1..m])
    ensures NumberLen(s) >= m
  {
    assert s[k..][..w - k] == s[k..w];
    DigitsAtLeast(s[k..], w - k);
    if m > w {
      DigitsAre(s[k..], w - k);
      assert s[w + 1..][..m - w - 1] == s[w + 1..m];
      DigitsAtLeast(s[w + 1..], m - w - 1);
    }
  }

  lemma ThreeParts(s: string, a: string, b: string, c: string)
    requires s == a + b + c
    ensures s[..|a|] == a && s[|a|..|a| + |b|] == b && s[|a| + |b|..] == c
    ensures forall i | 0 <= i < |a| :: s[i] == a[i]
  {
  }

  lemma PartsAt(s: string, m: nat, sign: string, whole: string, fraction: string)
    requires m <= |s| && Parts(s[..m], sign, whole, fraction)
    ensures var k, w := |sign|, |sign| + |whole|;
            && k < w <= m && s[k..w] == whole && s[w..m] == fraction
            && (k == 1 <==> s[0] == '-') && k <= 1
  {
    var k, w := |sign|, |sign| + |whole|;
    ThreeParts(s[..m], sign, whole, fraction);
    assert s[..m][k..w] == s[k..w] && s[..m][w..m] == s[w..m];
    assert k == 0 ==> whole[0] == s[k..w][0];
  }

  /** No longer beginning is one. */
  lemma NoLongerNumber(s: string, m: nat)
    requires m <= |s| && IsNumber(s[..m])
    ensures 0 < m <= NumberLen(s)
  {
    hide NumberLen;
    var sign, whole, fraction :| Parts(s[..m], sign, whole, fraction);
    PartsAt(s, m, sign, whole, fraction);
    var k, w := |sign|, |sign| + |whole|;
    if m > w { assert s[w..m][0] == s[w] && s[w..m][1..] == s[w + 1..m]; }
    LongAsParts(s, k, w, m);
  }

  /** The number at the front of a text is the longest one it begins with, and there is none exactly when it begins with none. */
  lemma LongestNumber(s: string, n: nat)
    ensures n > 0 ==> (NumberLen(s) == n <==>
              n <= |s| && IsNumber(s[..n]) && forall m | n < m <= |s| :: !IsNumber(s[..m]))
    ensures NumberLen(s) == 0 <==> forall m | 0 <= m <= |s| :: !IsNumber(s[..m])
  {
    hide NumberLen, IsNumber;
    var len := NumberLen(s);
    if len > 0 { TakenIsNumber(s); }
    forall m | 0 <= m <= |s| && IsNumber(s[..m]) ensures 0 < m <= len { NoLongerNumber(s, m); }
  }

  // ---- strings -------------------------------------------------------------------------------

  lemma {:induction false} FirstClose(s: string, q: char, i: nat, j: nat)
    requires i <= j < |s| && s[j] == q && q != '\n' && forall k | i <= k < j :: s[k] != q && s[k] != '\n'
    ensures FindClose(s, q, i) == Some(j)
    decreases j - i
  {
    if i < j { FirstClose(s, q, i + 1, j); }
  }

  lemma {:induction false} CloseIsFirst(s: string, q: char, i: nat)
    requires i <= |s| && FindClose(s, q, i).Some?
    ensures forall k | i <= k < FindClose(s, q, i).value :: s[k] != q && s[k] != '\n'
    decreases |s| - i
  {
    if s[i] != q { CloseIsFirst(s, q, i + 1); }
  }

  /** A string at the front of a text runs from a quote of either kind to the next one of that kind on the line. */
  lemma QuotedIs(s: string, j: nat)
    ensures Quoted(s) == Some(j) <==>
            && 0 < j < |s| && (s[0] == '"' || s[0] == '\'') && s[j] == s[0]
            && forall k | 1 <= k < j :: s[k] != s[0] && s[k] != '\n'
  {
    hide FindClose;
    if 0 < j < |s| && IsQuote(s[0]) && s[j] == s[0] && forall k | 1 <= k < j :: s[k] != s[0] && s[k] != '\n' {
      FirstClose(s, s[0], 1, j);
    }
    if Quoted(s).Some? { CloseIsFirst(s, s[0], 1); }
  }

  /** The markers, letter by letter. */
  lemma MarkersAre(k: nat)
    ensures k < NUM_SLOTS ==> NumMarker(k) == ["#0", "#1", "#2", "#3", "#4", "#5", "#6", "#7"][k]
    ensures k < STR_SLOTS ==> StrMarker(k) == ["&a", "&b", "&c", "&d"][k]
  {
  }

  // ---- the slots -----------------------------------------------------------------------------

  /** The contents of the strings of a text, left to right. */
  ghost function Strings(s: string): seq<string>
    decreases |s|
  {
    if s == [] then []
    else
      match Quoted(s)
      case None => Strings(s[1..])
      case Some(j) => [s[1..j]] + Strings(s[j + 1..])
  }

  /** The numbers of a text, left to right. */
  ghost function Numbers(s: string): seq<string>
    decreases |s|
  {
    if s == [] then []
    else if NumberLen(s) == 0 then Numbers(s[1..])
    else [s[..NumberLen(s)]] + Numbers(s[NumberLen(s)..])
  }

  /** Every value once, where it appears first. */
  ghost function Firsts(vs: seq<string>): seq<string> {
    if vs == [] then []
    else
      var rest, v := vs[..|vs| - 1], vs[|vs| - 1];
      if v in rest then Firsts(rest) else Firsts(rest) + [v]
  }

  ghost function Upto(vs: seq<string>, max: nat): seq<string> { if |vs| <= max then vs else vs[..max] }

  lemma {:induction false} FirstsHold(vs: seq<string>, v: string)
    ensures v in Firsts(vs) <==> v in vs
  {
    if vs != [] {
      FirstsHold(vs[..|vs| - 1], v);
      assert vs == vs[..|vs| - 1] + [vs[|vs| - 1]];
    }
  }

  /** One literal more. */
  lemma OneMore(done: seq<string>, v: string, max: nat)
    ensures Noted(Upto(Firsts(done), max), v, max) == Upto(Firsts(done + [v]), max)
  {
    FirstsHold(done, v);
    assert (done + [v])[..|done|] == done;
    var all := Firsts(done);
    if |all| > max { assert (all + [v])[..max] == all[..max]; }
  }

  lemma Shift(done: seq<string>, v: string, rest: seq<string>)
    ensures done + ([v] + rest) == (done + [v]) + rest
  {
  }

  /** The slots filled after the literals met so far, when more text follows. */
  lemma {:induction false} StringSlots(done: seq<string>, s: string)
    ensures StrScan(s, Upto(Firsts(done), STR_SLOTS)).slots == Upto(Firsts(done + Strings(s)), STR_SLOTS)
    decreases |s|
  {
    hide Quoted, Firsts, Upto, Noted, StrPiece;
    assert |Upto(Firsts(done), STR_SLOTS)| <= STR_SLOTS by { UptoFits(Firsts(done), STR_SLOTS); }
    if s == [] {
      assert done + [] == done;
    } else {
      match Quoted(s)
      case None => StringSlots(done, s[1..]);
      case Some(j) =>
        OneMore(done, s[1..j], STR_SLOTS);
        StringSlots(done + [s[1..j]], s[j + 1..]);
        Shift(done, s[1..j], Strings(s[j + 1..]));
    }
  }

  lemma UptoFits(vs: seq<string>, max: nat)
    ensures |Upto(vs, max)| <= max
  {
  }

  lemma {:induction false} NumberSlots(done: seq<string>, s: string)
    ensures NumScan(s, Upto(Firsts(done), NUM_SLOTS)).slots == Upto(Firsts(done + Numbers(s)), NUM_SLOTS)
    decreases |s|
  {
    hide NumberLen, Firsts, Upto, Noted, NumPiece;
    assert |Upto(Firsts(done), NUM_SLOTS)| <= NUM_SLOTS by { UptoFits(Firsts(done), NUM_SLOTS); }
    if s == [] {
      assert done + [] == done;
    } else {
      var n := NumberLen(s);
      if n == 0 {
        NumberSlots(done, s[1..]);
      } else {
        OneMore(done, s[..n], NUM_SLOTS);
        NumberSlots(done + [s[..n]], s[n..]);
        Shift(done, s[..n], Numbers(s[n..]));
      }
    }
  }

  /** Slots are filled in order of first appearance, each literal once, and no more than there are. */
  lemma SlotsAreFirsts(s: string)
    ensures StrScan(s, []).slots == Upto(Firsts(Strings(s)), 4)
    ensures NumScan(s, []).slots == Upto(Firsts(Numbers(s)), 8)
  {
    hide StrScan, NumScan;
    assert Firsts([]) == [] && Upto([], 4) == [] && Upto([], 8) == [];
    StringSlots([], s);
    NumberSlots([], s);
    assert [] + Strings(s) == Strings(s) && [] + Numbers(s) == Numbers(s);
  }

  // ---- nothing that has a slot stays ---------------------------------------------------------

  /** Every digit stands right behind a marker sign. */
  ghost predicate OnlyMarked(s: string) { forall i | 0 <= i < |s| && IsDigit(s[i]) :: i > 0 && s[i - 1] == '#' }

  lemma OnlyMarkedSum(a: string, b: string)
    requires OnlyMarked(a) && OnlyMarked(b)
    ensures OnlyMarked(a + b)
  {
    forall i | 0 <= i < |a + b| && IsDigit((a + b)[i]) ensures i > 0 && (a + b)[i - 1] == '#' {
      if i >= |a| { assert b[i - |a|] == (a + b)[i]; }
    }
  }

  lemma NoDigitAhead(s: string)
    requires s != [] && IsDigit(s[0])
    ensures NumberLen(s) > 0
  {
    assert s[0..] == s;
  }

  lemma MarkerIsMarked(v: string, nums: seq<string>)
    requires |nums| <= NUM_SLOTS && v in nums
    ensures OnlyMarked(NumPiece(v, nums))
  {
  }

  /** When every number has a slot, no digit is left outside the markers. */
  lemma {:induction false} NumbersAllLeave(s: string, nums: seq<string>)
    requires |nums| <= NUM_SLOTS && forall i | 0 <= i < |Numbers(s)| :: Numbers(s)[i] in nums
    ensures OnlyMarked(NumPass(s, nums))
    decreases |s|
  {
    hide NumberLen, NumPiece, OnlyMarked, IsDigit;
    if s == [] {
      NothingMarked();
    } else {
      var n := NumberLen(s);
      if n == 0 {
        if IsDigit(s[0]) { NoDigitAhead(s); }
        assert Numbers(s) == Numbers(s[1..]);
        NumbersAllLeave(s[1..], nums);
        OneMarked(s[0]);
        OnlyMarkedSum([s[0]], NumPass(s[1..], nums));
      } else {
        var vs := Numbers(s[n..]);
        assert Numbers(s)[0] == s[..n];
        forall i | 0 <= i < |vs| ensures vs[i] in nums { assert Numbers(s)[i + 1] == vs[i]; }
        NumbersAllLeave(s[n..], nums);
        MarkerIsMarked(s[..n], nums);
        OnlyMarkedSum(NumPiece(s[..n], nums), NumPass(s[n..], nums));
      }
    }
  }

  lemma NothingMarked()
    ensures OnlyMarked([])
  {
  }

  lemma OneMarked(c: char)
    requires !IsDigit(c)
    ensures OnlyMarked([c])
  {
  }

  // ---- lists ---------------------------------------------------------------------------------

  ghost predicate AllSpace(s: string) { forall i | 0 <= i < |s| :: s[i] as int in {9, 10, 11, 12, 13, 28, 29, 30, 31, 32} }

  lemma {:induction false} SpacesAre(s: string, t: string)
    requires AllSpace(s) && (t != [] ==> !AllSpace([t[0]]))
    ensures Spaces(s + t) == |s|
  {
    if s == [] {
      assert s + t == t;
      assert t != [] ==> !IsSpace(t[0]);
    } else {
      SpacesAre(s[1..], t);
      assert (s + t)[1..] == s[1..] + t;
    }
  }

  /** A comma is taken with all the white space on either side of it. */
  lemma CommaIs(a: string, b: string, t: string)
    requires AllSpace(a) && AllSpace(b) && (t != [] ==> !AllSpace([t[0]]))
    ensures Comma(a + ("," + (b + t))) == |a| + 1 + |b|
  {
    hide Spaces;
    SpacesAre(a, "," + (b + t));
    SpacesAre(b, t);
    var s := a + ("," + (b + t));
    assert s[|a| + 1..] == b + t;
  }
}
