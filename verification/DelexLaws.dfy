/** Relexicalising undoes delexicalising, and drops the unfilled slots of a list cleanly. */
module DelexLaws {
  import opened Values
  import opened Delex

  /** Text free of the marker characters and of NUL. */
  ghost predicate Plain(s: string) { '#' !in s && '&' !in s && NUL !in s }

  // ---- one pass puts back what two passes took out -------------------------------------------

  lemma {:induction false} UnmarkPlain(p: string, t: string, nums: seq<string>, strs: seq<string>)
    requires '#' !in p && '&' !in p
    ensures Unmarked(p + t, nums, strs) == p + Unmarked(t, nums, strs)
  {
    hide Filled;
    if p == [] {
      assert p + t == t;
    } else {
      UnmarkPlain(p[1..], t, nums, strs);
      assert (p + t)[1..] == p[1..] + t;
    }
  }

  lemma UnmarkMarker(m: string, t: string, nums: seq<string>, strs: seq<string>)
    requires IsMarker(m) && |m| == 2
    ensures Unmarked(m + t, nums, strs) == Filled(m, nums, strs) + Unmarked(t, nums, strs)
  {
    assert (m + t)[2..] == t;
  }

  lemma StrMarkerFills(k: nat, nums: seq<string>, strs: seq<string>)
    requires k < STR_SLOTS && k < |strs|
    ensures IsMarker(StrMarker(k)) && Filled(StrMarker(k), nums, strs) == strs[k]
  {
  }

  lemma NumMarkerFills(k: nat, nums: seq<string>, strs: seq<string>)
    requires k < NUM_SLOTS && k < |nums|
    ensures IsMarker(NumMarker(k)) && Filled(NumMarker(k), nums, strs) == nums[k]
  {
  }

  /** A replaced string reads back as it was. */
  lemma StrPieceUnmarks(s: string, j: nat, t: string, nums: seq<string>, strs: seq<string>)
    requires |strs| <= STR_SLOTS && Plain(s) && 1 <= j < |s| && s[j] == s[0]
    ensures Unmarked(StrPiece(s, strs, j) + t, nums, strs) == s[..j + 1] + Unmarked(t, nums, strs)
  {
    hide Unmarked, Filled, IsMarker, StrMarker, IndexOf;
    var v, q := s[1..j], [s[0]];
    if v in strs {
      var m := StrMarker(IndexOf(strs, v));
      StrMarkerFills(IndexOf(strs, v), nums, strs);
      assert StrPiece(s, strs, j) + t == q + (m + (q + t));
      UnmarkPlain(q, m + (q + t), nums, strs);
      MarkerLength(IndexOf(strs, v));
      UnmarkMarker(m, q + t, nums, strs);
      UnmarkPlain(q, t, nums, strs);
      assert s[..j + 1] == q + v + q;
    } else {
      UnmarkPlain(s[..j + 1], t, nums, strs);
    }
  }

  lemma MarkerLength(k: nat)
    requires k < STR_SLOTS
    ensures |StrMarker(k)| == 2
  {
  }

  lemma {:induction false} StrPassUnmarks(s: string, nums: seq<string>, strs: seq<string>)
    requires |strs| <= STR_SLOTS && Plain(s)
    ensures Unmarked(StrPass(s, strs), nums, strs) == s
    decreases |s|
  {
    hide Unmarked, StrPiece, Quoted;
    if s == [] {
      NothingToUnmark(nums, strs);
    } else {
      match Quoted(s)
      case None =>
        StrPassUnmarks(s[1..], nums, strs);
        UnmarkPlain([s[0]], StrPass(s[1..], strs), nums, strs);
      case Some(j) =>
        StrPassUnmarks(s[j + 1..], nums, strs);
        StrPieceUnmarks(s, j, StrPass(s[j + 1..], strs), nums, strs);
        assert s[..j + 1] + s[j + 1..] == s;
    }
  }

  lemma NothingToUnmark(nums: seq<string>, strs: seq<string>)
    ensures Unmarked([], nums, strs) == []
  {
  }

  /** No `#`, and every `&` begins a string marker: what the first pass leaves for the second. */
  ghost predicate StrMarked(s: string)
    decreases |s|
  {
    if s == [] then true
    else if s[0] == '&' then |s| >= 2 && 'a' <= s[1] <= 'd' && StrMarked(s[2..])
    else s[0] != '#' && StrMarked(s[1..])
  }

  lemma {:induction false} PlainThenMarked(p: string, t: string)
    requires '#' !in p && '&' !in p
    ensures StrMarked(p + t) == StrMarked(t)
  {
    if p == [] {
      assert p + t == t;
    } else {
      PlainThenMarked(p[1..], t);
      assert (p + t)[1..] == p[1..] + t;
    }
  }

  lemma MarkerThenMarked(k: nat, t: string)
    requires k < STR_SLOTS
    ensures StrMarked(StrMarker(k) + t) == StrMarked(t)
  {
    assert (StrMarker(k) + t)[2..] == t;
  }

  lemma {:induction false} StrPassMarks(s: string, strs: seq<string>)
    requires |strs| <= STR_SLOTS && Plain(s)
    ensures StrMarked(StrPass(s, strs))
    decreases |s|
  {
    hide StrMarked, Quoted, IndexOf, StrMarker;
    if s == [] {
      assert StrMarked([]) by { NothingMarked(); }
    } else {
      match Quoted(s)
      case None =>
        StrPassMarks(s[1..], strs);
        PlainThenMarked([s[0]], StrPass(s[1..], strs));
      case Some(j) =>
        var t, v, q := StrPass(s[j + 1..], strs), s[1..j], [s[0]];
        StrPassMarks(s[j + 1..], strs);
        if v in strs {
          var m := StrMarker(IndexOf(strs, v));
          assert StrPiece(s, strs, j) + t == q + (m + (q + t));
          PlainThenMarked(q, m + (q + t));
          MarkerThenMarked(IndexOf(strs, v), q + t);
          PlainThenMarked(q, t);
        } else {
          PlainThenMarked(s[..j + 1], t);
        }
    }
  }

  lemma NothingMarked()
    ensures StrMarked([])
  {
  }

  /** The number pass does not see inside markers, and what it replaces reads back the same. */
  lemma {:induction false} NumPassUnmarks(s: string, nums: seq<string>, strs: seq<string>)
    requires |nums| <= NUM_SLOTS && StrMarked(s)
    ensures Unmarked(NumPass(s, nums), nums, strs) == Unmarked(s, nums, strs)
    decreases |s|
  {
    hide Unmarked, NumPiece, NumberLen, StrMarked;
    if s != [] {
      var n := NumberLen(s);
      if s[0] == '&' {
        MarkerKept(s, nums);
        var m := s[..2];
        NumPassUnmarks(s[2..], nums, strs);
        UnmarkMarker(m, NumPass(s[2..], nums), nums, strs);
        UnmarkMarker(m, s[2..], nums, strs);
        assert s == m + s[2..];
      } else if n == 0 {
        MarkedTail(s);
        NumPassUnmarks(s[1..], nums, strs);
        UnmarkPlain([s[0]], NumPass(s[1..], nums), nums, strs);
        UnmarkPlain([s[0]], s[1..], nums, strs);
        assert s == [s[0]] + s[1..];
      } else {
        var v := s[..n];
        NumbersArePlain(v);
        assert s == v + s[n..];
        PlainThenMarked(v, s[n..]);
        NumPassUnmarks(s[n..], nums, strs);
        UnmarkPlain(v, s[n..], nums, strs);
        NumPieceUnmarks(v, NumPass(s[n..], nums), nums, strs);
      }
    }
  }

  lemma MarkedTail(s: string)
    requires StrMarked(s) && s != [] && s[0] != '&'
    ensures StrMarked(s[1..]) && s[0] != '#'
  {
  }

  lemma MarkerKept(s: string, nums: seq<string>)
    requires |nums| <= NUM_SLOTS && StrMarked(s) && s != [] && s[0] == '&'
    ensures |s| >= 2 && IsMarker(s[..2]) && StrMarked(s[2..])
    ensures NumPass(s, nums) == s[..2] + NumPass(s[2..], nums)
  {
    hide NumPass, NumPiece, NumberLen, StrMarked, IsMarker;
    MarkedMarker(s);
    NotNumber(s);
    NotNumber(s[1..]);
    NumPassPlain(s, nums);
    NumPassPlain(s[1..], nums);
    var t := NumPass(s[2..], nums);
    assert s[1..][1..] == s[2..];
    assert s[..2] == [s[0], s[1]];
    TwoThen(s[0], s[1], t);
    TwoCharMarker(s[..2]);
  }

  lemma TwoThen(a: char, b: char, t: string)
    ensures [a] + ([b] + t) == [a, b] + t
  {
  }

  lemma TwoCharMarker(m: string)
    requires |m| == 2 && m[0] == '&' && 'a' <= m[1] <= 'd'
    ensures IsMarker(m)
  {
  }

  lemma MarkedMarker(s: string)
    requires StrMarked(s) && s != [] && s[0] == '&'
    ensures |s| >= 2 && 'a' <= s[1] <= 'd' && StrMarked(s[2..])
  {
  }

  lemma NotNumber(s: string)
    requires s != [] && !IsNumeric(s[0])
    ensures NumberLen(s) == 0
  {
    hide NumberLen;
  }

  lemma NumPassPlain(s: string, nums: seq<string>)
    requires |nums| <= NUM_SLOTS && s != [] && NumberLen(s) == 0
    ensures NumPass(s, nums) == [s[0]] + NumPass(s[1..], nums)
  {
  }

  lemma NumbersArePlain(v: string)
    requires forall i | 0 <= i < |v| :: IsNumeric(v[i])
    ensures '#' !in v && '&' !in v
  {
  }

  lemma NumPieceUnmarks(v: string, t: string, nums: seq<string>, strs: seq<string>)
    requires |nums| <= NUM_SLOTS && '#' !in v && '&' !in v
    ensures Unmarked(NumPiece(v, nums) + t, nums, strs) == v + Unmarked(t, nums, strs)
  {
    hide Unmarked, Filled, IsMarker, IndexOf;
    if v in nums {
      NumMarkerFills(IndexOf(nums, v), nums, strs);
      UnmarkMarker(NumMarker(IndexOf(nums, v)), t, nums, strs);
    } else {
      UnmarkPlain(v, t, nums, strs);
    }
  }

  // ---- nothing to clean up -------------------------------------------------------------------

  lemma {:induction false} NothingDropped(s: string)
    requires NUL !in s
    ensures DropBefore(s) == s && DropAfter(s) == s && DropNul(s) == s
  {
    if s != [] {
      NothingDropped(s[1..]);
    }
  }

  /** Relexicalising against the same slots gives back every program text. */
  lemma RelexUndoesDelex(py: string, nums: seq<string>, strs: seq<string>)
    requires Plain(py) && |nums| <= NUM_SLOTS && |strs| <= STR_SLOTS
    ensures Relex(DelexPy(py, nums, strs), nums, strs) == py
  {
    hide StrPass, NumPass, Unmarked, DropBefore, DropAfter, DropNul;
    StrPassMarks(py, strs);
    NumPassUnmarks(StrPass(py, strs), nums, strs);
    StrPassUnmarks(py, nums, strs);
    NothingDropped(py);
  }

  // ---- the English side ----------------------------------------------------------------------

  lemma {:induction false} SameIndex(a: seq<string>, b: seq<string>, v: string)
    requires a <= b && v in a
    ensures IndexOf(b, v) == IndexOf(a, v)
  {
    if a[0] != v {
      assert a == [a[0]] + a[1..];
      SameIndex(a[1..], b[1..], v);
    }
  }

  /** Once a literal has been met it is among the slots for good, or all of them are taken by others. */
  lemma NotedForGood(slots: seq<string>, v: string, max: nat, final: seq<string>)
    requires |slots| <= max && Noted(slots, v, max) <= final && |final| <= max
    ensures v in final <==> v in Noted(slots, v, max)
  {
    var more := Noted(slots, v, max);
    if v !in more { assert more == final; }
  }

  lemma {:induction false} StrScanIsPass(s: string, strs: seq<string>, final: seq<string>)
    requires |strs| <= STR_SLOTS && |final| <= STR_SLOTS && StrScan(s, strs).slots <= final
    ensures StrScan(s, strs).text == StrPass(s, final)
    decreases |s|
  {
    hide Quoted, Noted, StrScan, StrPiece;
    if s == [] {
      StrScanNone(strs);
    } else {
      match Quoted(s)
      case None =>
        StrScanPlain(s, strs);
        StrScanIsPass(s[1..], strs, final);
      case Some(j) =>
        var more := Noted(strs, s[1..j], STR_SLOTS);
        StrScanQuoted(s, strs, j);
        SamePiece(s, strs, j, final);
        StrScanIsPass(s[j + 1..], more, final);
    }
  }

  lemma SamePiece(s: string, strs: seq<string>, j: nat, final: seq<string>)
    requires |strs| <= STR_SLOTS && |final| <= STR_SLOTS && 1 <= j < |s|
    requires Noted(strs, s[1..j], STR_SLOTS) <= final
    ensures StrPiece(s, final, j) == StrPiece(s, Noted(strs, s[1..j], STR_SLOTS), j)
  {
    hide Noted, IndexOf;
    var v := s[1..j];
    NotedForGood(strs, v, STR_SLOTS, final);
    if v in final { SameIndex(Noted(strs, v, STR_SLOTS), final, v); }
  }

  lemma {:induction false} NumScanIsPass(s: string, nums: seq<string>, final: seq<string>)
    requires |nums| <= NUM_SLOTS && |final| <= NUM_SLOTS && NumScan(s, nums).slots <= final
    ensures NumScan(s, nums).text == NumPass(s, final)
    decreases |s|
  {
    hide NumberLen, Noted, NumScan, NumPiece;
    if s == [] {
      NumScanNone(nums);
    } else {
      var n := NumberLen(s);
      if n == 0 {
        NumScanPlain(s, nums);
        NumScanIsPass(s[1..], nums, final);
      } else {
        var v := s[..n];
        NumScanNumber(s, nums);
        NotedForGood(nums, v, NUM_SLOTS, final);
        SameNumPiece(v, Noted(nums, v, NUM_SLOTS), final);
        NumScanIsPass(s[n..], Noted(nums, v, NUM_SLOTS), final);
      }
    }
  }

  lemma SameNumPiece(v: string, more: seq<string>, final: seq<string>)
    requires |more| <= NUM_SLOTS && |final| <= NUM_SLOTS && more <= final && (v in final <==> v in more)
    ensures NumPiece(v, final) == NumPiece(v, more)
  {
    hide IndexOf;
    if v in final { SameIndex(more, final, v); }
  }

  /**
   Filling slots while replacing gives the same prompt as replacing against the slots it ends with, so the
   English and the program are delexicalised alike, and relexicalising the prompt gives back the English.
   */
  lemma EnglishIsLossless(en: string)
    requires Plain(en)
    ensures var strings := StrScan(en, []); var numbers := NumScan(strings.text, []);
            numbers.text == DelexPy(en, numbers.slots, strings.slots) &&
            Relex(numbers.text, numbers.slots, strings.slots) == en
  {
    hide StrScan, NumScan, StrPass, NumPass, Relex;
    var strings := StrScan(en, []);
    var numbers := NumScan(strings.text, []);
    StrScanIsPass(en, [], strings.slots);
    NumScanIsPass(strings.text, [], numbers.slots);
    RelexUndoesDelex(en, numbers.slots, strings.slots);
  }
}
