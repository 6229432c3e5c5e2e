/**
 Relexicalising a comma-separated list of markers: exactly when it gives the filled elements joined, the
 unfilled ones dropped wherever they stand.
 */
module DelexLists {
  import opened Delex
  import opened DelexLaws

  // ---- lists ---------------------------------------------------------------------------------

  /** One element of a list: the comma before it, and its marker. */
  datatype Entry = Entry(sep: string, mark: string)

  /** A comma with white space around it. */
  ghost predicate IsSep(sep: string) { sep != [] && Comma(sep) == |sep| }

  function ValueOf(e: Entry, nums: seq<string>, strs: seq<string>): string
    requires IsMarker(e.mark)
  {
    Filled(e.mark, nums, strs)
  }

  /** The entry's slot has a literal. */
  ghost predicate HasValue(e: Entry, nums: seq<string>, strs: seq<string>)
    requires IsMarker(e.mark)
  {
    ValueOf(e, nums, strs) != [NUL]
  }

  /** A marker behind a comma; its literal, if it has one, is any text free of NUL. */
  ghost predicate IsEntry(e: Entry, nums: seq<string>, strs: seq<string>) {
    IsMarker(e.mark) && |e.mark| == 2 && IsSep(e.sep) && (HasValue(e, nums, strs) ==> NUL !in ValueOf(e, nums, strs))
  }

  ghost predicate IsList(es: seq<Entry>, nums: seq<string>, strs: seq<string>) {
    forall i | 0 <= i < |es| :: IsEntry(es[i], nums, strs)
  }

  /** Elements with their commas, then what follows the list. */
  function Code(es: seq<Entry>, post: string): string {
    if es == [] then post else es[0].sep + (es[0].mark + Code(es[1..], post))
  }

  ghost function Text(es: seq<Entry>, nums: seq<string>, strs: seq<string>, post: string): string
    requires IsList(es, nums, strs)
  {
    if es == [] then post
    else
      assert IsEntry(es[0], nums, strs);
      es[0].sep + (ValueOf(es[0], nums, strs) + Text(es[1..], nums, strs, post))
  }

  /** The filled elements with their commas. */
  ghost function Kept(es: seq<Entry>, nums: seq<string>, strs: seq<string>, post: string): string
    requires IsList(es, nums, strs)
  {
    if es == [] then post
    else
      assert IsEntry(es[0], nums, strs);
      (if HasValue(es[0], nums, strs) then es[0].sep + ValueOf(es[0], nums, strs) else []) + Kept(es[1..], nums, strs, post)
  }

  /** The filled elements, the first of them without its comma. */
  ghost function Expected(es: seq<Entry>, nums: seq<string>, strs: seq<string>, post: string): string
    requires IsList(es, nums, strs)
  {
    if es == [] then post
    else
      assert IsEntry(es[0], nums, strs);
      if HasValue(es[0], nums, strs) then ValueOf(es[0], nums, strs) + Kept(es[1..], nums, strs, post)
      else Expected(es[1..], nums, strs, post)
  }

  /** What may follow a list: nothing that could pass for another comma. */
  ghost predicate Ends(post: string) { Plain(post) && Comma(post) == 0 }

  /** The next element is there and has no literal. */
  ghost predicate UnfilledNext(es: seq<Entry>, nums: seq<string>, strs: seq<string>)
    requires IsList(es, nums, strs)
  {
    es != [] && IsEntry(es[0], nums, strs) && !HasValue(es[0], nums, strs)
  }

  predicate EndsInSpace(s: string) { s != [] && IsSpace(s[|s| - 1]) }

  // ---- when the clean-up takes too much ------------------------------------------------------

  /** Behind the first filled element: no element, comma included, ends in white space right before an unfilled one. */
  ghost predicate TailClean(es: seq<Entry>, nums: seq<string>, strs: seq<string>)
    requires IsList(es, nums, strs)
  {
    if es == [] then true
    else
      assert IsEntry(es[0], nums, strs);
      && (HasValue(es[0], nums, strs) && UnfilledNext(es[1..], nums, strs) ==>
            !EndsInSpace(es[0].sep + ValueOf(es[0], nums, strs)))
      && TailClean(es[1..], nums, strs)
  }

  /** From the first filled element on: it does not end in white space right before an unfilled one, nor do later ones. */
  ghost predicate FirstClean(es: seq<Entry>, nums: seq<string>, strs: seq<string>)
    requires IsList(es, nums, strs) && es != []
  {
    assert IsEntry(es[0], nums, strs);
    && (UnfilledNext(es[1..], nums, strs) ==> !EndsInSpace(ValueOf(es[0], nums, strs)))
    && TailClean(es[1..], nums, strs)
  }

  /** Behind unfilled elements the first filled one must not begin with white space either. */
  ghost predicate FrontClean(es: seq<Entry>, nums: seq<string>, strs: seq<string>, post: string)
    requires IsList(es, nums, strs)
  {
    if es == [] then true
    else
      assert IsEntry(es[0], nums, strs);
      if HasValue(es[0], nums, strs) then
        FirstClean(es, nums, strs) && Spaces(ValueOf(es[0], nums, strs) + Kept(es[1..], nums, strs, post)) == 0
      else FrontClean(es[1..], nums, strs, post)
  }

  /** No white space of a literal, and none of a comma, stands where the clean-up takes it. */
  ghost predicate Clean(es: seq<Entry>, nums: seq<string>, strs: seq<string>, post: string)
    requires IsList(es, nums, strs) && es != []
  {
    assert IsEntry(es[0], nums, strs);
    if HasValue(es[0], nums, strs) then FirstClean(es, nums, strs) else FrontClean(es[1..], nums, strs, post)
  }

  // ---- white space ---------------------------------------------------------------------------

  /** Without the white space at the end. */
  function RTrim(s: string): (r: string)
    ensures |r| <= |s|
  {
    if Spaces(s) == |s| then [] else [s[0]] + RTrim(s[1..])
  }

  /** Trimming shortens a text exactly when it ends in white space. */
  lemma {:induction false} TrimsExactly(s: string)
    ensures EndsInSpace(s) ==> |RTrim(s)| < |s|
    ensures !EndsInSpace(s) ==> RTrim(s) == s
  {
    if Spaces(s) < |s| {
      if |s| == 1 {
        assert RTrim(s[1..]) == [];
      } else {
        TrimsExactly(s[1..]);
        assert s[1..][|s[1..]| - 1] == s[|s| - 1];
      }
    } else if s != [] {
      assert IsSpace(s[|s| - 1]);
    }
  }

  lemma {:induction false} SpacesThen(w: string, t: string)
    requires Spaces(w) == |w|
    ensures Spaces(w + t) == |w| + Spaces(t)
  {
    if w == [] {
      assert w + t == t;
    } else {
      SpacesThen(w[1..], t);
      assert (w + t)[1..] == w[1..] + t;
    }
  }

  lemma {:induction false} AllSpaces(w: string)
    requires forall i | 0 <= i < |w| :: IsSpace(w[i])
    ensures Spaces(w) == |w|
  {
    if w != [] { AllSpaces(w[1..]); }
  }

  /** White space, a comma, white space. */
  lemma SepParts(sep: string) returns (i: nat)
    requires IsSep(sep)
    ensures i < |sep| && sep[i] == ',' && Spaces(sep[..i]) == i && Spaces(sep[i + 1..]) == |sep| - i - 1 && Spaces(sep) == i
  {
    hide Spaces;
    i := Spaces(sep);
    AllSpaces(sep[..i]);
  }

  lemma CommaAt(s: string, i: nat)
    requires Spaces(s) == i < |s| && s[i] == ','
    ensures Comma(s) == i + 1 + Spaces(s[i + 1..])
  {
    hide Spaces;
  }

  /** A separator is a comma that also takes the white space after it. */
  lemma SepTakes(sep: string, t: string)
    requires IsSep(sep)
    ensures Comma(sep + t) == |sep| + Spaces(t)
  {
    hide Comma, Spaces;
    var i := SepParts(sep);
    var after := sep[i + 1..];
    NoSpaces(sep[i..] + t);
    SpacesThen(sep[..i], sep[i..] + t);
    assert sep + t == sep[..i] + (sep[i..] + t);
    assert (sep + t)[i + 1..] == after + t;
    SpacesThen(after, t);
    CommaAt(sep + t, i);
  }

  /** White space before a comma is taken with it. */
  lemma CommaBehind(w: string, u: string)
    requires Spaces(w) == |w| && Comma(u) > 0
    ensures Comma(w + u) == |w| + Comma(u)
  {
    hide Spaces, IsSpace;
    SpacesThen(w, u);
    var i := Spaces(u);
    assert (w + u)[|w| + i] == u[i] == ',';
    assert (w + u)[|w| + i + 1..] == u[i + 1..];
    CommaAt(w + u, |w| + i);
    CommaAt(u, i);
  }

  lemma NoSpaces(s: string)
    requires s != [] && s[0] == ','
    ensures Spaces(s) == 0
  {
  }

  lemma SepPlain(sep: string)
    requires IsSep(sep)
    ensures Plain(sep) && sep != [] && Spaces(sep) < |sep|
  {
    hide Spaces, IsSpace, Comma;
    var i := SepParts(sep);
    SpaceIsPlain();
    forall k | 0 <= k < |sep| ensures sep[k] == ',' || IsSpace(sep[k]) {
      if k > i { assert IsSpace(sep[i + 1..][k - (i + 1)]); }
    }
  }

  lemma SpaceIsPlain()
    ensures !IsSpace('#') && !IsSpace('&') && !IsSpace(NUL) && !IsSpace(',')
  {
  }

  // ---- the first clean-up --------------------------------------------------------------------

  /** A comma that an unfilled slot follows. */
  ghost predicate SlotAfterComma(s: string) { 0 < Comma(s) < |s| && s[Comma(s)] == NUL }

  /** The first thing that is no white space is no unfilled slot. */
  ghost predicate NoSlotNext(t: string) { Spaces(t) == |t| || t[Spaces(t)] != NUL }

  lemma DropsNothing(s: string)
    requires s != [] && !SlotAfterComma(s)
    ensures DropBefore(s) == [s[0]] + DropBefore(s[1..])
  {
    hide Comma;
  }

  lemma DropsOne(s: string)
    requires SlotAfterComma(s)
    ensures DropBefore(s) == DropBefore(s[Comma(s) + 1..])
  {
    hide Comma;
  }

  lemma NulIsNoSpace(t: string)
    ensures Spaces([NUL] + t) == 0
  {
  }

  /** A comma and the unfilled slot behind it go, with the white space before them. */
  lemma DropsSlot(w: string, sep: string, t: string)
    requires Spaces(w) == |w| && IsSep(sep)
    ensures DropBefore(w + (sep + ([NUL] + t))) == DropBefore(t)
  {
    hide Spaces, DropBefore, Comma;
    var s := w + (sep + ([NUL] + t));
    NulIsNoSpace(t);
    SepTakes(sep, [NUL] + t);
    CommaBehind(w, sep + ([NUL] + t));
    assert s[|w| + |sep|] == NUL && s[|w| + |sep| + 1..] == t;
    DropsOne(s);
  }

  /** Nothing that begins inside `x` is dropped, when neither a slot nor a comma and a slot come next. */
  lemma {:induction false} KeepsFront(x: string, t: string)
    requires NUL !in x && NoSlotNext(t) && !SlotAfterComma(t)
    ensures DropBefore(x + t) == x + DropBefore(t)
  {
    hide Comma, DropBefore, NoSlotNext;
    if x == [] {
      assert x + t == t;
    } else {
      NoMatch(x, t);
      DropsNothing(x + t);
      KeepsFront(x[1..], t);
      assert (x + t)[1..] == x[1..] + t;
    }
  }

  lemma NoMatch(x: string, t: string)
    requires x != [] && NUL !in x && NoSlotNext(t) && !SlotAfterComma(t)
    ensures !SlotAfterComma(x + t)
  {
    hide Spaces, IsSpace;
    var s := x + t;
    var i := Spaces(s);
    if i < |s| && s[i] == ',' {
      if i < |x| {
        CommaInside(x, t, i);
      } else {
        SpacesPrefix(x, t);
        CommaOfRest(x, t);
      }
    }
  }

  /** White space that runs past `x` covers it. */
  lemma SpacesPrefix(x: string, t: string)
    requires Spaces(x + t) >= |x|
    ensures Spaces(x) == |x|
  {
    hide Spaces;
    forall k | 0 <= k < |x| ensures IsSpace(x[k]) { assert (x + t)[k] == x[k]; }
    AllSpaces(x);
  }

  lemma CommaOfRest(x: string, t: string)
    requires Spaces(x) == |x| && !SlotAfterComma(t) && Comma(x + t) > 0
    ensures !SlotAfterComma(x + t)
  {
    hide Spaces;
    SpacesThen(x, t);
    var i := Spaces(t);
    assert (x + t)[|x| + i] == t[i];
    CommaAt(t, i);
    CommaBehind(x, t);
    if Comma(t) < |t| { assert (x + t)[|x| + Comma(t)] == t[Comma(t)]; }
  }

  lemma CommaInside(x: string, t: string, i: nat)
    requires i < |x| && Spaces(x + t) == i && x[i] == ',' && NUL !in x && NoSlotNext(t)
    ensures !SlotAfterComma(x + t)
  {
    hide Spaces, IsSpace;
    var r := x[i + 1..];
    assert (x + t)[i + 1..] == r + t;
    CommaAt(x + t, i);
    var k := Spaces(r + t);
    if k < |r| {
      assert (x + t)[i + 1 + k] == x[i + 1 + k];
    } else {
      SpacesPrefix(r, t);
      SpacesThen(r, t);
      if Spaces(t) < |t| { assert (x + t)[i + 1 + k] == t[Spaces(t)]; }
    }
  }

  /** Right before an unfilled element a text loses the white space at its end. */
  lemma {:induction false} TrimsFront(x: string, sep: string, t: string)
    requires NUL !in x && IsSep(sep)
    ensures DropBefore(x + (sep + ([NUL] + t))) == RTrim(x) + DropBefore(t)
  {
    hide Comma, DropBefore, Spaces;
    if Spaces(x) == |x| {
      DropsSlot(x, sep, t);
    } else {
      var u := sep + ([NUL] + t);
      NotAllSpace(x, u, sep, t);
      DropsNothing(x + u);
      TrimsFront(x[1..], sep, t);
      assert (x + u)[1..] == x[1..] + u;
    }
  }

  lemma NotAllSpace(x: string, u: string, sep: string, t: string)
    requires NUL !in x && IsSep(sep) && Spaces(x) != |x| && u == sep + ([NUL] + t)
    ensures x != [] && !SlotAfterComma(x + u)
  {
    hide Spaces, IsSpace, Comma;
    assert x != [] by { EmptySpaces(); }
    var i := Spaces(x + u);
    if i >= |x| { SpacesPrefix(x, u); }
    if x[i] == ',' {
      SepNext(sep, [NUL] + t);
      CommaInside(x, u, i);
    } else {
      NoComma(x + u);
    }
  }

  lemma EmptySpaces()
    ensures Spaces([]) == 0
  {
  }

  lemma NoComma(s: string)
    requires Spaces(s) < |s| && s[Spaces(s)] != ','
    ensures Comma(s) == 0
  {
  }

  /** A text that begins with a separator begins with a comma, past white space. */
  lemma SepNext(sep: string, t: string)
    requires IsSep(sep)
    ensures NoSlotNext(sep + t) && Spaces(sep + t) < |sep + t| && (sep + t)[Spaces(sep + t)] == ','
  {
    hide Spaces;
    var i := SepParts(sep);
    NoSpaces(sep[i..] + t);
    SpacesThen(sep[..i], sep[i..] + t);
    assert sep + t == sep[..i] + (sep[i..] + t);
  }

  lemma {:induction false} CodeUnmarks(es: seq<Entry>, nums: seq<string>, strs: seq<string>, post: string)
    requires IsList(es, nums, strs) && Plain(post)
    ensures Unmarked(Code(es, post), nums, strs) == Text(es, nums, strs, post)
  {
    hide Unmarked, Filled, IsMarker, IsSep;
    if es == [] {
      UnmarkPlain(post, [], nums, strs);
      NothingToUnmark(nums, strs);
      assert post + [] == post;
    } else {
      var e := es[0];
      assert IsEntry(e, nums, strs);
      CodeUnmarks(es[1..], nums, strs, post);
      SepPlain(e.sep);
      UnmarkPlain(e.sep, e.mark + Code(es[1..], post), nums, strs);
      UnmarkMarker(e.mark, Code(es[1..], post), nums, strs);
    }
  }

  lemma EndIsPlain(post: string)
    requires NUL !in post
    ensures NoSlotNext(post) && !SlotAfterComma(post)
  {
  }

  /** What follows an element is never a slot, and a comma and a slot only if the next element is unfilled. */
  lemma NextIsSafe(es: seq<Entry>, nums: seq<string>, strs: seq<string>, post: string)
    requires IsList(es, nums, strs) && Plain(post)
    ensures NoSlotNext(Text(es, nums, strs, post))
    ensures !UnfilledNext(es, nums, strs) ==> !SlotAfterComma(Text(es, nums, strs, post))
  {
    hide Filled, IsMarker, Spaces, Comma, IsSep, NoSlotNext;
    if es == [] {
      EndIsPlain(post);
    } else {
      var e := es[0];
      assert IsEntry(e, nums, strs);
      var v, rest := ValueOf(e, nums, strs), Text(es[1..], nums, strs, post);
      SepNext(e.sep, v + rest);
      if HasValue(e, nums, strs) {
        NextIsSafe(es[1..], nums, strs, post);
        SepTakes(e.sep, v + rest);
        ValueNext(v, rest);
        if Spaces(v + rest) < |v + rest| { assert (e.sep + (v + rest))[|e.sep| + Spaces(v + rest)] == (v + rest)[Spaces(v + rest)]; }
      }
    }
  }

  lemma ValueNext(v: string, rest: string)
    requires NUL !in v && NoSlotNext(rest)
    ensures Spaces(v + rest) == |v + rest| || (v + rest)[Spaces(v + rest)] != NUL
  {
    hide Spaces;
    var k := Spaces(v + rest);
    if k < |v| {
      assert (v + rest)[k] == v[k];
    } else {
      SpacesPrefix(v, rest);
      SpacesThen(v, rest);
    }
  }

  /** What the first clean-up leaves of elements with their commas: each unfilled one takes the white space before it. */
  ghost function Left(es: seq<Entry>, nums: seq<string>, strs: seq<string>, post: string): string
    requires IsList(es, nums, strs)
  {
    if es == [] then post
    else
      assert IsEntry(es[0], nums, strs);
      var x := es[0].sep + ValueOf(es[0], nums, strs);
      (if !HasValue(es[0], nums, strs) then [] else if UnfilledNext(es[1..], nums, strs) then RTrim(x) else x) +
      Left(es[1..], nums, strs, post)
  }

  /** The first clean-up of a text before a list. */
  lemma {:induction false} CleansAfter(x: string, es: seq<Entry>, nums: seq<string>, strs: seq<string>, post: string)
    requires NUL !in x && IsList(es, nums, strs) && Plain(post)
    ensures DropBefore(x + Text(es, nums, strs, post)) ==
            (if UnfilledNext(es, nums, strs) then RTrim(x) else x) + Left(es, nums, strs, post)
    decreases |es|, 1
  {
    hide DropBefore, IsSep, IsMarker, Filled, NoSlotNext, Comma, RTrim;
    if es == [] {
      NothingDropped(x + post);
    } else {
      var e, tail := es[0], es[1..];
      assert IsEntry(e, nums, strs);
      var v, rest := ValueOf(e, nums, strs), Text(tail, nums, strs, post);
      if HasValue(e, nums, strs) {
        NextIsSafe(es, nums, strs, post);
        KeepsFront(x, e.sep + (v + rest));
        SepPlain(e.sep);
        assert e.sep + (v + rest) == (e.sep + v) + rest;
        CleansAfter(e.sep + v, tail, nums, strs, post);
      } else {
        TrimsFront(x, e.sep, rest);
        LeftOfUnfilled(es, nums, strs, post);
      }
    }
  }

  /** Unfilled elements leave what those behind them leave. */
  lemma {:induction false} LeftOfUnfilled(es: seq<Entry>, nums: seq<string>, strs: seq<string>, post: string)
    requires IsList(es, nums, strs) && Plain(post) && UnfilledNext(es, nums, strs)
    ensures DropBefore(Text(es[1..], nums, strs, post)) == Left(es, nums, strs, post)
    decreases |es|, 0
  {
    hide DropBefore, IsSep, IsMarker, Filled, RTrim;
    var tail := es[1..];
    CleansAfter([], tail, nums, strs, post);
    assert [] + Text(tail, nums, strs, post) == Text(tail, nums, strs, post);
    TrimNone();
  }

  lemma TrimNone()
    ensures RTrim([]) == []
  {
  }

  // ---- the second and third ------------------------------------------------------------------

  lemma {:induction false} TrimIsPrefix(s: string)
    ensures RTrim(s) <= s
  {
    if Spaces(s) < |s| { TrimIsPrefix(s[1..]); }
  }

  lemma TrimNext(s: string)
    requires Spaces(s) != |s|
    ensures s != [] && RTrim(s) == [s[0]] + RTrim(s[1..])
  {
    EmptySpaces();
  }

  lemma {:induction false} TrimBehind(u: string, v: string)
    ensures Spaces(v) < |v| ==> RTrim(u + v) == u + RTrim(v)
    ensures Spaces(v) == |v| ==> RTrim(u + v) == RTrim(u)
  {
    hide Spaces, RTrim;
    if u == [] {
      assert u + v == v;
      if Spaces(v) == |v| { TrimAllSpace(v); }
      TrimNone();
    } else {
      TrimBehind(u[1..], v);
      assert (u + v)[1..] == u[1..] + v;
      if Spaces(u + v) == |u + v| {
        SpacesSplit(u, v);
        TrimAllSpace(u);
        TrimAllSpace(u + v);
      } else {
        TrimNext(u + v);
        if Spaces(v) == |v| { TrimFrontNext(u, v); }
      }
    }
  }

  lemma TrimFrontNext(u: string, v: string)
    requires u != [] && Spaces(v) == |v| && Spaces(u + v) != |u + v|
    ensures RTrim(u) == [u[0]] + RTrim(u[1..])
  {
    hide Spaces, RTrim;
    if Spaces(u) == |u| { SpacesThen(u, v); }
    TrimNext(u);
  }

  lemma SpacesSplit(u: string, v: string)
    requires Spaces(u + v) == |u + v|
    ensures Spaces(u) == |u| && Spaces(v) == |v|
  {
    hide Spaces;
    forall k | 0 <= k < |v| ensures IsSpace(v[k]) { assert (u + v)[|u| + k] == v[k]; }
    AllSpaces(v);
    SpacesPrefix(u, v);
  }

  lemma {:induction false} LeftHasNoNul(es: seq<Entry>, nums: seq<string>, strs: seq<string>, post: string)
    requires IsList(es, nums, strs) && Plain(post)
    ensures NUL !in Left(es, nums, strs, post)
  {
    hide IsSep, IsMarker, Filled, IsSpace, RTrim;
    if es != [] {
      assert IsEntry(es[0], nums, strs);
      SepPlain(es[0].sep);
      TrimIsPrefix(es[0].sep + ValueOf(es[0], nums, strs));
      LeftHasNoNul(es[1..], nums, strs, post);
    }
  }

  function LTrim(s: string): string { s[Spaces(s)..] }

  /** What the clean-ups leave behind a slot at the front: the comma after it goes too, with the white space around it. */
  ghost function AfterSlot(es: seq<Entry>, nums: seq<string>, strs: seq<string>, post: string): string
    requires IsList(es, nums, strs)
  {
    if es == [] then post
    else
      assert IsEntry(es[0], nums, strs);
      var v := ValueOf(es[0], nums, strs);
      if !HasValue(es[0], nums, strs) then AfterSlot(es[1..], nums, strs, post)
      else LTrim((if UnfilledNext(es[1..], nums, strs) then RTrim(v) else v) + Left(es[1..], nums, strs, post))
  }

  /** A separator and a literal trimmed together. */
  lemma TrimSep(sep: string, v: string, t: string)
    requires IsSep(sep)
    ensures var p := RTrim(sep + v) + t; p[Comma(p)..] == LTrim(RTrim(v) + t)
  {
    hide Spaces, Comma, RTrim, IsSep, LTrim;
    if Spaces(v) < |v| {
      TrimBehind(sep, v);
      assert RTrim(sep + v) + t == sep + (RTrim(v) + t);
      SepGoes(sep, RTrim(v) + t);
    } else {
      var short := TrimSepAlone(sep, v);
      SepGoes(short, t);
      TrimAllSpace(v);
      assert [] + t == t;
    }
  }

  lemma SepGoes(sep: string, t: string)
    requires IsSep(sep)
    ensures (sep + t)[Comma(sep + t)..] == LTrim(t)
  {
    hide Spaces, Comma, IsSep;
    SepTakes(sep, t);
  }

  /** White space behind a separator is trimmed with the white space the separator ends in. */
  lemma TrimSepAlone(sep: string, v: string) returns (short: string)
    requires IsSep(sep) && Spaces(v) == |v|
    ensures RTrim(sep + v) == short && IsSep(short)
  {
    hide Spaces, Comma, RTrim, IsSep;
    TrimBehind(sep, v);
    var i := SepParts(sep);
    short := sep[..i + 1];
    TrimBehind(short, sep[i + 1..]);
    assert short + sep[i + 1..] == sep;
    ShortSep(sep, i);
  }

  lemma TrimAllSpace(v: string)
    requires Spaces(v) == |v|
    ensures RTrim(v) == []
  {
  }

  lemma ShortSep(sep: string, i: nat)
    requires i < |sep| && sep[i] == ',' && Spaces(sep[..i]) == i
    ensures IsSep(sep[..i + 1]) && RTrim(sep[..i + 1]) == sep[..i + 1]
  {
    hide Spaces;
    var short := sep[..i + 1];
    assert short == sep[..i] + [','];
    NoSpaces([',']);
    SpacesThen(sep[..i], [',']);
    assert short[i + 1..] == [];
    EmptySpaces();
    CommaAt(short, i);
    SpaceIsPlain();
    TrimsExactly(short);
  }

  /** What the first element adds to what is left, by whether it and the next have a literal. */
  lemma LeftStep(es: seq<Entry>, nums: seq<string>, strs: seq<string>, post: string)
    requires IsList(es, nums, strs) && es != []
    ensures IsEntry(es[0], nums, strs) && IsList(es[1..], nums, strs)
    ensures var e, rest := es[0], es[1..]; var v, t := ValueOf(e, nums, strs), Left(rest, nums, strs, post);
            var p, q := Left(es, nums, strs, post), AfterSlot(es, nums, strs, post);
            && (!HasValue(e, nums, strs) ==> p == t && q == AfterSlot(rest, nums, strs, post))
            && (HasValue(e, nums, strs) && UnfilledNext(rest, nums, strs) ==>
                 p == RTrim(e.sep + v) + t && q == LTrim(RTrim(v) + t))
            && (HasValue(e, nums, strs) && !UnfilledNext(rest, nums, strs) ==> p == e.sep + (v + t) && q == LTrim(v + t))
  {
    hide IsSep, IsMarker, RTrim, LTrim, HasValue, UnfilledNext, ValueOf, IsEntry;
    assert IsEntry(es[0], nums, strs);
  }

  lemma {:induction false} CommaGoes(es: seq<Entry>, nums: seq<string>, strs: seq<string>, post: string)
    requires IsList(es, nums, strs) && Ends(post)
    ensures var p := Left(es, nums, strs, post); p[Comma(p)..] == AfterSlot(es, nums, strs, post)
  {
    hide IsSep, IsMarker, Comma, RTrim, LTrim, HasValue, UnfilledNext, ValueOf, IsList;
    if es == [] {
      NoElements(nums, strs, post);
    } else {
      LeftStep(es, nums, strs, post);
      hide Left, AfterSlot;
      var e := es[0];
      var v, t := ValueOf(e, nums, strs), Left(es[1..], nums, strs, post);
      if !HasValue(e, nums, strs) {
        CommaGoes(es[1..], nums, strs, post);
      } else if UnfilledNext(es[1..], nums, strs) {
        TrimSep(e.sep, v, t);
      } else {
        SepGoes(e.sep, v + t);
      }
    }
  }

  lemma NoElements(nums: seq<string>, strs: seq<string>, post: string)
    ensures Left([], nums, strs, post) == post == AfterSlot([], nums, strs, post)
  {
  }

  lemma SlotGoes(p: string)
    requires NUL !in p
    ensures DropNul(DropAfter([NUL] + p)) == p[Comma(p)..]
  {
    hide Comma;
    var s := [NUL] + p;
    assert s[1..] == p;
    NothingDropped(p);
    if Comma(p) > 0 {
      assert s[1 + Comma(p)..] == p[Comma(p)..];
      NothingDropped(p[Comma(p)..]);
    } else {
      assert DropAfter(s) == s;
      assert ([NUL] + p)[1..] == p;
    }
  }

  /** What relexicalising a list gives, for any literals. */
  lemma RelexIs(es: seq<Entry>, nums: seq<string>, strs: seq<string>, post: string)
    requires es != [] && IsList(es, nums, strs) && Ends(post)
    ensures IsEntry(es[0], nums, strs)
    ensures var v := ValueOf(es[0], nums, strs); var tail := es[1..];
            Relex(es[0].mark + Code(tail, post), nums, strs) ==
            if !HasValue(es[0], nums, strs) then AfterSlot(tail, nums, strs, post)
            else (if UnfilledNext(tail, nums, strs) then RTrim(v) else v) + Left(tail, nums, strs, post)
  {
    hide Unmarked, DropBefore, DropAfter, DropNul, IsSep, IsMarker, Filled, Comma, IsSpace, RTrim;
    var e, tail := es[0], es[1..];
    assert IsEntry(e, nums, strs);
    var v := ValueOf(e, nums, strs);
    UnmarkMarker(e.mark, Code(tail, post), nums, strs);
    CodeUnmarks(tail, nums, strs, post);
    LeftHasNoNul(tail, nums, strs, post);
    if HasValue(e, nums, strs) {
      CleansAfter(v, tail, nums, strs, post);
      TrimIsPrefix(v);
      NothingDropped((if UnfilledNext(tail, nums, strs) then RTrim(v) else v) + Left(tail, nums, strs, post));
    } else {
      SlotKept(Text(tail, nums, strs, post));
      CleansAfter([], tail, nums, strs, post);
      assert [] + Text(tail, nums, strs, post) == Text(tail, nums, strs, post);
      TrimNone();
      assert [] + Left(tail, nums, strs, post) == Left(tail, nums, strs, post);
      SlotGoes(Left(tail, nums, strs, post));
      CommaGoes(tail, nums, strs, post);
    }
  }

  /** A slot at the very front survives the first clean-up. */
  lemma SlotKept(rest: string)
    ensures DropBefore([NUL] + rest) == [NUL] + DropBefore(rest)
  {
    hide DropBefore;
    var s := [NUL] + rest;
    NulIsNoSpace(rest);
    assert Comma(s) == 0;
    DropsNothing(s);
    assert s[1..] == rest;
  }

  // ---- exactly when --------------------------------------------------------------------------

  lemma PartsEqual(a: string, b: string, c: string, d: string)
    requires |a| <= |c| && |b| <= |d|
    ensures a + b == c + d <==> a == c && b == d
  {
    if a + b == c + d {
      assert |a| == |c|;
      assert (a + b)[..|a|] == a && (c + d)[..|c|] == c && (a + b)[|a|..] == b && (c + d)[|c|..] == d;
    }
  }

  /** One element loses nothing exactly when it does not end in white space before an unfilled one. */
  lemma PieceExactly(x: string, unfilledNext: bool)
    ensures var p := if unfilledNext then RTrim(x) else x;
            |p| <= |x| && (p == x <==> (unfilledNext ==> !EndsInSpace(x)))
  {
    hide RTrim;
    TrimsExactly(x);
  }

  lemma {:induction false} LeftExactly(es: seq<Entry>, nums: seq<string>, strs: seq<string>, post: string)
    requires IsList(es, nums, strs)
    ensures |Left(es, nums, strs, post)| <= |Kept(es, nums, strs, post)|
    ensures Left(es, nums, strs, post) == Kept(es, nums, strs, post) <==> TailClean(es, nums, strs)
  {
    hide IsEntry, RTrim, EndsInSpace, UnfilledNext;
    if es != [] {
      IsAnEntry(es, nums, strs);
      var x, tail := es[0].sep + ValueOf(es[0], nums, strs), es[1..];
      LeftExactly(tail, nums, strs, post);
      var next := UnfilledNext(tail, nums, strs);
      PieceExactly(x, next);
      if HasValue(es[0], nums, strs) {
        PartsEqual(if next then RTrim(x) else x, Left(tail, nums, strs, post), x, Kept(tail, nums, strs, post));
      } else {
        PartsEqual([], Left(tail, nums, strs, post), [], Kept(tail, nums, strs, post));
      }
    }
  }

  lemma IsAnEntry(es: seq<Entry>, nums: seq<string>, strs: seq<string>)
    requires IsList(es, nums, strs) && es != []
    ensures IsEntry(es[0], nums, strs) && IsMarker(es[0].mark) && IsList(es[1..], nums, strs)
  {
  }

  lemma TrimmedEqual(x: string, want: string)
    requires |x| <= |want|
    ensures LTrim(x) == want <==> x == want && Spaces(want) == 0
  {
  }

  /** Behind unfilled elements at the front. */
  lemma {:induction false} FrontExactly(es: seq<Entry>, nums: seq<string>, strs: seq<string>, post: string)
    requires IsList(es, nums, strs)
    ensures AfterSlot(es, nums, strs, post) == Expected(es, nums, strs, post) <==> FrontClean(es, nums, strs, post)
  {
    hide IsEntry, RTrim, EndsInSpace, LTrim, UnfilledNext;
    if es != [] {
      IsAnEntry(es, nums, strs);
      var v, tail := ValueOf(es[0], nums, strs), es[1..];
      if HasValue(es[0], nums, strs) {
        var next := UnfilledNext(tail, nums, strs);
        var q, l, k := if next then RTrim(v) else v, Left(tail, nums, strs, post), Kept(tail, nums, strs, post);
        PieceExactly(v, next);
        LeftExactly(tail, nums, strs, post);
        PartsEqual(q, l, v, k);
        TrimmedEqual(q + l, v + k);
      } else {
        FrontExactly(tail, nums, strs, post);
      }
    }
  }

  /**
   For any literals free of NUL, relexicalising a comma-separated list of markers gives the filled elements
   joined, unfilled ones dropped wherever they stand, exactly when no white space stands where the clean-up
   takes it: at the end of a filled element right before an unfilled one, or at the front of the first filled
   element when unfilled ones stand before it.
   */
  lemma UnfilledSlotsAreDropped(es: seq<Entry>, nums: seq<string>, strs: seq<string>, post: string)
    requires es != [] && IsList(es, nums, strs) && Ends(post)
    ensures Relex(es[0].mark + Code(es[1..], post), nums, strs) == Expected(es, nums, strs, post)
            <==> Clean(es, nums, strs, post)
  {
    hide IsEntry, RTrim, EndsInSpace, Relex, UnfilledNext;
    IsAnEntry(es, nums, strs);
    RelexIs(es, nums, strs, post);
    var v, tail := ValueOf(es[0], nums, strs), es[1..];
    if HasValue(es[0], nums, strs) {
      var next := UnfilledNext(tail, nums, strs);
      PieceExactly(v, next);
      LeftExactly(tail, nums, strs, post);
      PartsEqual(if next then RTrim(v) else v, Left(tail, nums, strs, post), v, Kept(tail, nums, strs, post));
    } else {
      FrontExactly(tail, nums, strs, post);
    }
  }

  /** Nothing but white space. */
  predicate IsBlank(s: string) { Spaces(s) == |s| }

  /** A comma, and nothing but white space behind it. */
  predicate EndsInComma(s: string) { exists i | 0 <= i < |s| :: s[i] == ',' && IsBlank(s[i + 1..]) }

  /**
   The clean-up of a list does not reach into the text before it: behind an unfilled first element that text does
   not end in a comma, and behind a blank one that an unfilled one follows it does not end in white space either.
   */
  ghost predicate Apart(pre: string, es: seq<Entry>, nums: seq<string>, strs: seq<string>)
    requires es != [] && IsList(es, nums, strs)
  {
    assert IsEntry(es[0], nums, strs);
    if !HasValue(es[0], nums, strs) then !EndsInComma(pre)
    else IsBlank(ValueOf(es[0], nums, strs)) && UnfilledNext(es[1..], nums, strs) ==>
           pre != [] && !IsSpace(pre[|pre| - 1]) && pre[|pre| - 1] != ','
  }

  /** A list inside other code relexes to what it relexes to alone, and the code before it stays. */
  lemma RelexBehind(pre: string, es: seq<Entry>, nums: seq<string>, strs: seq<string>, post: string)
    requires es != [] && IsList(es, nums, strs) && Plain(pre) && Plain(post) && Apart(pre, es, nums, strs)
    ensures var code := es[0].mark + Code(es[1..], post);
            Relex(pre + code, nums, strs) == pre + Relex(code, nums, strs)
  {
    hide Unmarked, DropBefore, DropAfter, DropNul, IsSpace, IsMarker, Filled, IsSep, Spaces, Comma, EndsInComma, NoSlotNext;
    assert IsEntry(es[0], nums, strs);
    var e, tail := es[0], es[1..];
    var code := e.mark + Code(tail, post);
    var v, rest := ValueOf(e, nums, strs), Text(tail, nums, strs, post);
    UnmarkMarker(e.mark, Code(tail, post), nums, strs);
    CodeUnmarks(tail, nums, strs, post);
    UnmarkPlain(pre, code, nums, strs);
    var t := v + rest;
    if !HasValue(e, nums, strs) {
      KeepsUnfilled(pre, rest);
    } else {
      NextIsSafe(tail, nums, strs, post);
      if IsBlank(v) && UnfilledNext(tail, nums, strs) {
        KeepsSolid(pre, t);
      } else {
        FilledIsSafe(v, rest);
        KeepsFront(pre, t);
      }
    }
    LaterKeep(pre, DropBefore(t));
  }

  /** A literal that is not blank, or that no unfilled element follows, hides what follows it. */
  lemma FilledIsSafe(v: string, rest: string)
    requires NUL !in v && NoSlotNext(rest) && (!IsBlank(v) || !SlotAfterComma(rest))
    ensures NoSlotNext(v + rest) && !SlotAfterComma(v + rest)
  {
    hide Spaces, IsSpace, Comma;
    ValueNext(v, rest);
    var s := v + rest;
    var i := Spaces(s);
    if i < |v| {
      if v[i] == ',' { CommaInside(v, rest, i); } else { NoComma(s); }
    } else {
      SpacesPrefix(v, rest);
      if Comma(s) > 0 { CommaOfRest(v, rest); }
    }
  }

  lemma {:induction false} KeepsUnfilled(x: string, t: string)
    requires NUL !in x && !EndsInComma(x)
    ensures DropBefore(x + ([NUL] + t)) == x + DropBefore([NUL] + t)
  {
    hide Comma, DropBefore, EndsInComma;
    var u := [NUL] + t;
    if x == [] {
      assert x + u == u;
    } else {
      UnfilledStops(x, t);
      DropsNothing(x + u);
      CommaEndsTail(x);
      KeepsUnfilled(x[1..], t);
      assert (x + u)[1..] == x[1..] + u;
    }
  }

  lemma CommaEndsTail(x: string)
    requires x != []
    ensures EndsInComma(x[1..]) ==> EndsInComma(x)
  {
    hide IsBlank;
    var y := x[1..];
    forall i | 0 <= i < |y| && y[i] == ',' && IsBlank(y[i + 1..]) ensures EndsInComma(x) {
      assert x[i + 1] == ',' && x[i + 1 + 1..] == y[i + 1..];
    }
  }

  lemma UnfilledStops(x: string, t: string)
    requires NUL !in x && x != [] && !EndsInComma(x)
    ensures !SlotAfterComma(x + ([NUL] + t))
  {
    hide Spaces, IsSpace;
    var u := [NUL] + t;
    var s := x + u;
    var i := Spaces(s);
    SpaceIsPlain();
    assert s[|x|] == NUL;
    if i < |x| && x[i] == ',' {
      var r := x[i + 1..];
      assert s[i + 1..] == r + u;
      var k := Spaces(r + u);
      if k < |r| {
        assert s[i + 1 + k] == x[i + 1 + k];
      } else {
        SpacesPrefix(r, u);
      }
    } else if i < |s| {
      NoComma(s);
    }
  }

  lemma {:induction false} KeepsSolid(x: string, t: string)
    requires NUL !in x && x != [] && !IsSpace(x[|x| - 1]) && x[|x| - 1] != ','
    ensures DropBefore(x + t) == x + DropBefore(t)
  {
    hide Comma, DropBefore, IsSpace, Spaces;
    SolidStops(x, t);
    DropsNothing(x + t);
    assert (x + t)[1..] == x[1..] + t;
    if |x| > 1 {
      KeepsSolid(x[1..], t);
    } else {
      assert x[1..] + t == t;
    }
  }

  lemma SolidStops(x: string, t: string)
    requires NUL !in x && x != [] && !IsSpace(x[|x| - 1]) && x[|x| - 1] != ','
    ensures !SlotAfterComma(x + t)
  {
    hide Spaces, IsSpace;
    var s, last := x + t, |x| - 1;
    var i := Spaces(s);
    assert s[last] == x[last];
    if s[i] == ',' {
      var r := s[i + 1..];
      var k := Spaces(r);
      assert r[last - i - 1] == x[last];
      assert s[i + 1 + k] == x[i + 1 + k];
    }
  }

  lemma {:induction false} LaterKeep(x: string, t: string)
    requires NUL !in x
    ensures DropNul(DropAfter(x + t)) == x + DropNul(DropAfter(t))
  {
    hide Comma;
    if x == [] {
      assert x + t == t;
    } else {
      LaterKeep(x[1..], t);
      assert (x + t)[1..] == x[1..] + t;
      assert ([x[0]] + DropAfter(x[1..] + t))[1..] == DropAfter(x[1..] + t);
    }
  }

  // ---- solid literals and number slots -------------------------------------------------------

  /** A literal that is not empty and neither begins nor ends in white space. */
  predicate Solid(v: string) { v != [] && !IsSpace(v[0]) && !IsSpace(v[|v| - 1]) }

  ghost predicate SolidList(es: seq<Entry>, nums: seq<string>, strs: seq<string>)
    requires IsList(es, nums, strs)
  {
    forall i | 0 <= i < |es| ::
      (assert IsEntry(es[i], nums, strs); HasValue(es[i], nums, strs) ==> Solid(ValueOf(es[i], nums, strs)))
  }

  lemma {:induction false} SolidTail(es: seq<Entry>, nums: seq<string>, strs: seq<string>)
    requires IsList(es, nums, strs) && SolidList(es, nums, strs)
    ensures TailClean(es, nums, strs)
  {
    hide IsEntry, UnfilledNext, IsSpace;
    if es != [] {
      IsAnEntry(es, nums, strs);
      SolidNext(es, nums, strs);
      SolidTail(es[1..], nums, strs);
    }
  }

  lemma SolidNext(es: seq<Entry>, nums: seq<string>, strs: seq<string>)
    requires IsList(es, nums, strs) && SolidList(es, nums, strs) && es != []
    ensures IsEntry(es[0], nums, strs) && IsList(es[1..], nums, strs) && SolidList(es[1..], nums, strs)
    ensures HasValue(es[0], nums, strs) ==> Solid(ValueOf(es[0], nums, strs))
  {
    hide IsEntry, HasValue, ValueOf, Solid;
    IsAnEntry(es, nums, strs);
  }

  lemma {:induction false} SolidFront(es: seq<Entry>, nums: seq<string>, strs: seq<string>, post: string)
    requires IsList(es, nums, strs) && SolidList(es, nums, strs)
    ensures FrontClean(es, nums, strs, post)
  {
    hide IsEntry, UnfilledNext, IsSpace;
    if es != [] {
      IsAnEntry(es, nums, strs);
      SolidNext(es, nums, strs);
      SolidTail(es[1..], nums, strs);
      SolidFront(es[1..], nums, strs, post);
      var v := ValueOf(es[0], nums, strs);
      if v != [] { assert (v + Kept(es[1..], nums, strs, post))[0] == v[0]; }
    }
  }

  /** Solid literals lose nothing. */
  lemma SolidListsRelex(es: seq<Entry>, nums: seq<string>, strs: seq<string>, post: string)
    requires es != [] && IsList(es, nums, strs) && SolidList(es, nums, strs) && Ends(post)
    ensures Relex(es[0].mark + Code(es[1..], post), nums, strs) == Expected(es, nums, strs, post)
  {
    hide IsEntry, UnfilledNext, IsSpace, Relex;
    SolidNext(es, nums, strs);
    SolidTail(es[1..], nums, strs);
    SolidFront(es[1..], nums, strs, post);
    UnfilledSlotsAreDropped(es, nums, strs, post);
  }

  /** What fills a number slot. */
  ghost predicate IsNumber(v: string) { v != [] && forall i | 0 <= i < |v| :: IsNumeric(v[i]) }

  ghost predicate AllNumbers(slots: seq<string>) { forall i | 0 <= i < |slots| :: IsNumber(slots[i]) }

  lemma {:induction false} SlotsAreNumbers(s: string, nums: seq<string>)
    requires |nums| <= NUM_SLOTS && AllNumbers(nums)
    ensures AllNumbers(NumScan(s, nums).slots)
    decreases |s|
  {
    hide NumberLen, IsNumber, NumScan;
    if s == [] {
      NumScanNone(nums);
    } else if NumberLen(s) == 0 {
      NumScanPlain(s, nums);
      SlotsAreNumbers(s[1..], nums);
    } else {
      var v := s[..NumberLen(s)];
      NumScanNumber(s, nums);
      assert IsNumber(v) by { FrontIsNumber(s); }
      SlotsAreNumbers(s[|v|..], Noted(nums, v, NUM_SLOTS));
    }
  }

  lemma FrontIsNumber(s: string)
    requires NumberLen(s) > 0
    ensures IsNumber(s[..NumberLen(s)])
  {
    hide IsNumeric;
  }

  lemma NumberIsSolid(v: string)
    requires IsNumber(v)
    ensures Solid(v) && NUL !in v && v != [NUL]
  {
  }

  /**
   A list of number markers relexes to its filled elements whatever the English prompt was, and whatever
   elements were made up.
   */
  lemma NumberListsRelex(en: string, es: seq<Entry>, strs: seq<string>, post: string)
    requires es != [] && Ends(post)
    requires forall i | 0 <= i < |es| :: IsSep(es[i].sep) && |es[i].mark| == 2 && IsMarker(es[i].mark) && es[i].mark[0] == '#'
    ensures var nums := NumScan(StrScan(en, []).text, []).slots;
            && IsList(es, nums, strs)
            && Relex(es[0].mark + Code(es[1..], post), nums, strs) == Expected(es, nums, strs, post)
  {
    hide Relex, IsSep, NumScan, StrScan, Comma, IsNumber, Solid;
    var text := StrScan(en, []).text;
    var nums := NumScan(text, []).slots;
    SlotsAreNumbers(text, []);
    forall i | 0 <= i < |es|
      ensures IsEntry(es[i], nums, strs) && (HasValue(es[i], nums, strs) ==> Solid(ValueOf(es[i], nums, strs)))
    {
      var k := es[i].mark[1] as int - '0' as int;
      assert 0 <= k;
      if k < |nums| {
        NumberIsSolid(nums[k]);
      }
    }
    SolidListsRelex(es, nums, strs, post);
  }

  // ---- what is lost --------------------------------------------------------------------------

  /** A filled element that ends in white space is cut short by any unfilled one right behind it. */
  lemma TrailingSpaceIsLost(es: seq<Entry>, nums: seq<string>, strs: seq<string>, post: string)
    requires |es| >= 2 && IsList(es, nums, strs) && Ends(post)
    requires IsEntry(es[0], nums, strs) && IsEntry(es[1], nums, strs)
    requires HasValue(es[0], nums, strs) && EndsInSpace(ValueOf(es[0], nums, strs)) && !HasValue(es[1], nums, strs)
    ensures Relex(es[0].mark + Code(es[1..], post), nums, strs) ==
            RTrim(ValueOf(es[0], nums, strs)) + Left(es[1..], nums, strs, post)
    ensures Relex(es[0].mark + Code(es[1..], post), nums, strs) != Expected(es, nums, strs, post)
  {
    hide IsEntry, Relex, RTrim, Left, Expected, ValueOf, HasValue, EndsInSpace;
    IsAnEntry(es, nums, strs);
    RelexIs(es, nums, strs, post);
    UnfilledSlotsAreDropped(es, nums, strs, post);
  }
}
