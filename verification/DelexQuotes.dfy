/**
 Relexicalising markers inside quotes, as the delexicaliser leaves string markers: an unfilled slot becomes an
 empty string, and nothing else changes.
 */
module DelexQuotes {
  import opened Delex
  import opened DelexLaws

  /** A marker and the code between it and the one before it. */
  datatype Hole = Hole(before: string, mark: string)

  ghost predicate HasLiteral(h: Hole, nums: seq<string>, strs: seq<string>)
    requires IsMarker(h.mark)
  {
    Filled(h.mark, nums, strs) != [NUL]
  }

  ghost predicate IsHole(h: Hole, nums: seq<string>, strs: seq<string>) {
    && IsMarker(h.mark) && |h.mark| == 2 && Plain(h.before)
    && (HasLiteral(h, nums, strs) ==> NUL !in Filled(h.mark, nums, strs))
  }

  ghost predicate Holes(hs: seq<Hole>, nums: seq<string>, strs: seq<string>) {
    forall i | 0 <= i < |hs| :: IsHole(hs[i], nums, strs)
  }

  /** Code with markers in it. */
  function Marked(hs: seq<Hole>, post: string): string {
    if hs == [] then post else hs[0].before + (hs[0].mark + Marked(hs[1..], post))
  }

  /** The code after a marker, up to the next one. */
  function Upto(hs: seq<Hole>, post: string): string { if hs == [] then post else hs[0].before }

  predicate Opens(s: string) { s != [] && IsQuote(s[|s| - 1]) }

  predicate Closes(s: string) { s != [] && IsQuote(s[0]) }

  /** Every marker without a literal stands alone in quotes; the others may stand anywhere. */
  ghost predicate InQuotes(hs: seq<Hole>, post: string, nums: seq<string>, strs: seq<string>)
    requires Holes(hs, nums, strs)
  {
    if hs == [] then true
    else
      assert IsHole(hs[0], nums, strs);
      && (!HasLiteral(hs[0], nums, strs) ==> Opens(hs[0].before) && Closes(Upto(hs[1..], post)))
      && InQuotes(hs[1..], post, nums, strs)
  }

  /** The code with every marker replaced by its literal, or by what stands for none. */
  ghost function Put(hs: seq<Hole>, post: string, nums: seq<string>, strs: seq<string>, none: string): string
    requires Holes(hs, nums, strs)
  {
    if hs == [] then post
    else
      assert IsHole(hs[0], nums, strs);
      hs[0].before + ((if HasLiteral(hs[0], nums, strs) then Filled(hs[0].mark, nums, strs) else none) +
                      Put(hs[1..], post, nums, strs, none))
  }

  // ---- no clean-up touches a quoted slot -----------------------------------------------------

  /** Behind every unfilled slot comes a quote, and so does one before it unless it is the first character. */
  ghost predicate Guarded(s: string) {
    forall i | 0 <= i < |s| && s[i] == NUL :: i + 1 < |s| && IsQuote(s[i + 1]) && (i > 0 ==> IsQuote(s[i - 1]))
  }

  lemma GuardedTail(s: string)
    requires s != [] && Guarded(s)
    ensures Guarded(s[1..])
  {
    var t := s[1..];
    forall i | 0 <= i < |t| && t[i] == NUL
      ensures i + 1 < |t| && IsQuote(t[i + 1]) && (i > 0 ==> IsQuote(t[i - 1]))
    {
      assert s[i + 1] == NUL;
    }
  }

  lemma CommaEnds(s: string)
    requires Comma(s) > 0
    ensures s[Comma(s) - 1] == ',' || IsSpace(s[Comma(s) - 1])
  {
    hide IsSpace;
    var i := Spaces(s);
    var k := Spaces(s[i + 1..]);
    if k > 0 { assert IsSpace(s[i + 1..][k - 1]); }
  }

  lemma {:induction false} KeepsBefore(s: string)
    requires Guarded(s)
    ensures DropBefore(s) == s
  {
    hide Comma, IsSpace;
    if s != [] {
      GuardedTail(s);
      KeepsBefore(s[1..]);
      if Comma(s) > 0 { CommaEnds(s); NoQuote(s[Comma(s) - 1]); }
    }
  }

  lemma NoQuote(c: char)
    requires c == ',' || IsSpace(c)
    ensures !IsQuote(c)
  {
  }

  lemma QuoteIsNoComma(s: string)
    requires s != [] && IsQuote(s[0])
    ensures Comma(s) == 0
  {
  }

  lemma {:induction false} KeepsAfter(s: string)
    requires Guarded(s)
    ensures DropAfter(s) == s
  {
    hide Comma, IsSpace;
    if s != [] {
      GuardedTail(s);
      KeepsAfter(s[1..]);
      if s[0] == NUL { QuoteIsNoComma(s[1..]); }
    }
  }

  lemma DropNulNext(c: char, t: string)
    ensures DropNul([c] + t) == (if c == NUL then [] else [c]) + DropNul(t)
  {
    assert ([c] + t)[1..] == t;
  }

  lemma {:induction false} DropNulBoth(a: string, b: string)
    ensures DropNul(a + b) == DropNul(a) + DropNul(b)
  {
    hide DropNul;
    if a == [] {
      assert a + b == b;
      NoneLeft();
    } else {
      var rest := a[1..];
      DropNulBoth(rest, b);
      assert a == [a[0]] + rest && a + b == [a[0]] + (rest + b);
      DropNulNext(a[0], rest);
      DropNulNext(a[0], rest + b);
    }
  }

  lemma NoneLeft()
    ensures DropNul([]) == []
  {
  }

  lemma {:induction false} DropNulNone(a: string)
    requires NUL !in a
    ensures DropNul(a) == a
  {
    if a != [] { DropNulNone(a[1..]); }
  }

  lemma {:induction false} MarkedUnmarks(hs: seq<Hole>, post: string, nums: seq<string>, strs: seq<string>)
    requires Holes(hs, nums, strs) && Plain(post)
    ensures Unmarked(Marked(hs, post), nums, strs) == Put(hs, post, nums, strs, [NUL])
  {
    hide Unmarked, Filled, IsMarker;
    if hs == [] {
      UnmarkPlain(post, [], nums, strs);
      NothingToUnmark(nums, strs);
      assert post + [] == post;
    } else {
      assert IsHole(hs[0], nums, strs);
      MarkedUnmarks(hs[1..], post, nums, strs);
      UnmarkPlain(hs[0].before, hs[0].mark + Marked(hs[1..], post), nums, strs);
      UnmarkMarker(hs[0].mark, Marked(hs[1..], post), nums, strs);
    }
  }

  lemma GuardedJoin(before: string, v: string, rest: string)
    requires NUL !in before && Guarded(rest) && (rest != [] ==> rest[0] != NUL)
    requires NUL !in v || (v == [NUL] && Opens(before) && Closes(rest))
    ensures Guarded(before + (v + rest))
  {
    hide IsQuote;
    var s := before + (v + rest);
    var n := |before| + |v|;
    assert forall k | 0 <= k < |before| :: s[k] == before[k];
    forall i | 0 <= i < |s| && s[i] == NUL ensures i + 1 < |s| && IsQuote(s[i + 1]) && (i > 0 ==> IsQuote(s[i - 1])) {
      if i < n {
        assert s[i] == v[i - |before|];
        assert s[i - 1] == before[|before| - 1] && s[i + 1] == rest[0];
      } else {
        assert s[i] == rest[i - n] && i > n;
        assert s[i + 1] == rest[i - n + 1] && s[i - 1] == rest[i - n - 1];
      }
    }
  }

  /** The unmarked code is guarded, and begins as the code does. */
  lemma {:induction false} PutGuarded(hs: seq<Hole>, post: string, nums: seq<string>, strs: seq<string>)
    requires Holes(hs, nums, strs) && Plain(post) && InQuotes(hs, post, nums, strs)
    ensures var s := Put(hs, post, nums, strs, [NUL]);
            Guarded(s) && (s != [] ==> s[0] != NUL) && (Closes(Upto(hs, post)) ==> Closes(s))
  {
    hide IsMarker, Filled, IsQuote;
    if hs != [] {
      assert IsHole(hs[0], nums, strs);
      PutGuarded(hs[1..], post, nums, strs);
      var v := if HasLiteral(hs[0], nums, strs) then Filled(hs[0].mark, nums, strs) else [NUL];
      GuardedJoin(hs[0].before, v, Put(hs[1..], post, nums, strs, [NUL]));
    }
  }

  lemma {:induction false} PutDrops(hs: seq<Hole>, post: string, nums: seq<string>, strs: seq<string>)
    requires Holes(hs, nums, strs) && Plain(post)
    ensures DropNul(Put(hs, post, nums, strs, [NUL])) == Put(hs, post, nums, strs, [])
  {
    hide IsMarker, Filled, DropNul;
    if hs == [] {
      DropNulNone(post);
    } else {
      var h := hs[0];
      assert IsHole(h, nums, strs);
      PutDrops(hs[1..], post, nums, strs);
      var rest := Put(hs[1..], post, nums, strs, [NUL]);
      var v := if HasLiteral(h, nums, strs) then Filled(h.mark, nums, strs) else [NUL];
      DropNulNone(h.before);
      DropNulBoth(h.before, v + rest);
      DropNulBoth(v, rest);
      if HasLiteral(h, nums, strs) { DropNulNone(v); } else { DropsItself(); }
    }
  }

  lemma DropsItself()
    ensures DropNul([NUL]) == []
  {
  }

  /**
   In code whose unfilled markers stand alone in quotes, every filled marker becomes its literal, every unfilled
   one nothing at all, so that an empty string is left, and no comma or white space is touched.
   */
  lemma QuotedSlotsStay(hs: seq<Hole>, post: string, nums: seq<string>, strs: seq<string>)
    requires Holes(hs, nums, strs) && Plain(post) && InQuotes(hs, post, nums, strs)
    ensures Relex(Marked(hs, post), nums, strs) == Put(hs, post, nums, strs, [])
  {
    hide Marked, Unmarked, DropBefore, DropAfter, DropNul, Put, Guarded;
    MarkedUnmarks(hs, post, nums, strs);
    var s := Put(hs, post, nums, strs, [NUL]);
    PutGuarded(hs, post, nums, strs);
    KeepsBefore(s);
    KeepsAfter(s);
    PutDrops(hs, post, nums, strs);
  }

  // ---- the string pass makes nothing else ----------------------------------------------------

  /** Every marker stands alone in quotes. */
  ghost predicate AllQuoted(hs: seq<Hole>, post: string) {
    if hs == [] then true
    else
      && IsMarker(hs[0].mark) && |hs[0].mark| == 2 && Plain(hs[0].before)
      && Opens(hs[0].before) && Closes(Upto(hs[1..], post)) && AllQuoted(hs[1..], post)
  }

  /** The same code with more text in front. */
  lemma Prefixed(p: string, hs: seq<Hole>, post: string) returns (hs': seq<Hole>, post': string)
    requires Plain(p) && Plain(post) && AllQuoted(hs, post)
    ensures Plain(post') && AllQuoted(hs', post') && Marked(hs', post') == p + Marked(hs, post)
    ensures p != [] && IsQuote(p[0]) ==> Closes(Upto(hs', post'))
  {
    hide IsMarker, IsQuote;
    if hs == [] {
      hs', post' := [], p + post;
    } else {
      var h := hs[0];
      hs', post' := [Hole(p + h.before, h.mark)] + hs[1..], post;
      assert hs'[1..] == hs[1..];
      assert (p + h.before) + (h.mark + Marked(hs[1..], post)) == p + (h.before + (h.mark + Marked(hs[1..], post)));
    }
  }

  /** Delexicalising strings leaves string markers alone in quotes, whatever the program and the slots. */
  lemma {:induction false} StringsStayQuoted(s: string, strs: seq<string>) returns (hs: seq<Hole>, post: string)
    requires Plain(s) && |strs| <= STR_SLOTS
    ensures Plain(post) && AllQuoted(hs, post) && Marked(hs, post) == StrPass(s, strs)
    decreases |s|
  {
    hide IsMarker, IsQuote, AllQuoted, Marked, StrMarker, IndexOf;
    if s == [] {
      hs, post := [], [];
      NoHoles(hs, post);
    } else {
      match Quoted(s)
      case None =>
        hs, post := StringsStayQuoted(s[1..], strs);
        hs, post := Prefixed([s[0]], hs, post);
      case Some(j) =>
        hs, post := StringsStayQuoted(s[j + 1..], strs);
        var q := [s[0]];
        if s[1..j] in strs {
          var m := StrMarker(IndexOf(strs, s[1..j]));
          var tail := Marked(hs, post);
          hs, post := Prefixed(q, hs, post);
          MarkerIs(strs, s[1..j]);
          OneMore(q, m, hs, post);
          hs := [Hole(q, m)] + hs;
          assert q + (m + (q + tail)) == (q + m + q) + tail;
        } else {
          hs, post := Prefixed(s[..j + 1], hs, post);
        }
    }
  }

  lemma NoHoles(hs: seq<Hole>, post: string)
    requires hs == []
    ensures AllQuoted(hs, post) && Marked(hs, post) == post
  {
  }

  lemma MarkerIs(strs: seq<string>, v: string)
    requires |strs| <= STR_SLOTS && v in strs
    ensures var m := StrMarker(IndexOf(strs, v)); IsMarker(m) && |m| == 2
  {
  }

  lemma OneMore(q: string, m: string, hs: seq<Hole>, post: string)
    requires |q| == 1 && IsQuote(q[0]) && Plain(q) && IsMarker(m) && |m| == 2 && AllQuoted(hs, post) && Closes(Upto(hs, post))
    ensures AllQuoted([Hole(q, m)] + hs, post) && Marked([Hole(q, m)] + hs, post) == q + (m + Marked(hs, post))
  {
    assert ([Hole(q, m)] + hs)[1..] == hs;
  }

  /** Whatever slots are filled later. */
  lemma {:induction false} QuotedEitherWay(hs: seq<Hole>, post: string, nums: seq<string>, strs: seq<string>)
    requires AllQuoted(hs, post)
    requires (forall i | 0 <= i < |nums| :: NUL !in nums[i]) && (forall i | 0 <= i < |strs| :: NUL !in strs[i])
    ensures Holes(hs, nums, strs) && InQuotes(hs, post, nums, strs)
  {
    hide IsQuote;
    if hs != [] {
      QuotedEitherWay(hs[1..], post, nums, strs);
      assert IsHole(hs[0], nums, strs);
      forall i | 0 <= i < |hs| ensures IsHole(hs[i], nums, strs) {
        if i > 0 { assert hs[i] == hs[1..][i - 1]; }
      }
    }
  }

  /** So a program whose strings were delexicalised relexes, with any slots, to itself, those strings refilled or emptied. */
  lemma StringsRelexInPlace(py: string, made: seq<string>, nums: seq<string>, strs: seq<string>)
    returns (hs: seq<Hole>, post: string)
    requires Plain(py) && |made| <= STR_SLOTS
    requires (forall i | 0 <= i < |nums| :: NUL !in nums[i]) && (forall i | 0 <= i < |strs| :: NUL !in strs[i])
    ensures Marked(hs, post) == StrPass(py, made) && AllQuoted(hs, post) && Holes(hs, nums, strs)
    ensures Relex(StrPass(py, made), nums, strs) == Put(hs, post, nums, strs, [])
  {
    hide Relex, AllQuoted, Holes, Put, Marked, InQuotes;
    hs, post := StringsStayQuoted(py, made);
    QuotedEitherWay(hs, post, nums, strs);
    QuotedSlotsStay(hs, post, nums, strs);
  }

  /** A list of two strings with one slot filled: the second becomes an empty string and stays in the list. */
  lemma UnfilledStringStays(nums: seq<string>)
    ensures Relex("['&a', '&b']", nums, ["x"]) == "['x', '']"
  {
    hide Relex;
    var hs, post, strs := [Hole("['", "&a"), Hole("', '", "&b")], "']", ["x"];
    assert hs[1..] == [hs[1]] && hs[1..][1..] == [];
    assert IsHole(hs[0], nums, strs) && IsHole(hs[1], nums, strs);
    assert InQuotes(hs[1..], post, nums, strs);
    QuotedSlotsStay(hs, post, nums, strs);
    assert Marked(hs[1..], post) == "', '&b']";
    assert Marked(hs, post) == "['&a', '&b']";
    assert Put(hs[1..], post, nums, strs, []) == "', '']";
    assert Put(hs, post, nums, strs, []) == "['x', '']";
  }
}
