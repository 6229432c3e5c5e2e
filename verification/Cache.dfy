/**
 The key-value cache: one flat buffer of rows, a row for each layer and position, either exact or
 rounded to 8 bits with one scale a head. Only the buffers of one form are allocated.
 */
module Cache {
  import opened QMath
  import opened Kernels
  import opened Reference

  lemma SlotFits(slots: nat, width: nat, r: nat)
    requires r < slots
    ensures r * width + width <= slots * width
  {
    MulMonotone(r + 1, slots, width);
  }

  /** Different slots do not overlap. */
  lemma SlotsApart(width: nat, r: nat, p: nat)
    requires r != p
    ensures r * width + width <= p * width || p * width + width <= r * width
  {
    if r < p { MulMonotone(r + 1, p, width); } else { MulMonotone(p + 1, r, width); }
  }

  /** `b` is `a` except in slot `r`. */
  ghost predicate OnlySlot<T>(a: seq<T>, b: seq<T>, slots: nat, width: nat, r: nat) {
    |a| == |b| == slots * width &&
    forall i | 0 <= i < |a| && !(r * width <= i < r * width + width) :: b[i] == a[i]
  }

  lemma Changed<T>(a: seq<T>, b: seq<T>, slots: nat, width: nat, r: nat)
    requires |a| == |b| == slots * width
    requires forall i | 0 <= i < |a| && !(r * width <= i < r * width + width) :: b[i] == a[i]
    ensures OnlySlot(a, b, slots, width, r)
  {
  }

  lemma OtherSlot<T>(a: seq<T>, b: seq<T>, slots: nat, width: nat, r: nat, p: nat)
    requires OnlySlot(a, b, slots, width, r) && r < slots && p < slots && p != r
    ensures p * width + width <= |a| == |b|
    ensures Slice(b, p * width, width) == Slice(a, p * width, width)
  {
    SlotFits(slots, width, p);
    SlotsApart(width, r, p);
  }

  lemma StoredAs(int8: bool, v: seq<real>, hs: nat)
    requires Groups(|v|, hs)
    ensures Stored(int8, v, hs) == if int8 then Int8(Quantized(v, hs)) else Exact(v)
  {
  }

  class RowCache {
    const int8: bool
    const slots: nat
    const heads: nat
    const hs: nat
    const exact: array<real>
    const q: array<int>
    const s: array<real>

    constructor (int8: bool, slots: nat, heads: nat, hs: nat)
      requires hs > 0
      ensures Valid() && fresh(exact) && fresh(q) && fresh(s)
      ensures this.int8 == int8 && this.slots == slots && this.heads == heads && this.hs == hs
    {
      this.int8, this.slots, this.heads, this.hs := int8, slots, heads, hs;
      exact := new real[if int8 then 0 else slots * (heads * hs)](i => 0.0);
      q := new int[if int8 then slots * (heads * hs) else 0](i => 0);
      s := new real[if int8 then slots * heads else 0](i => 0.0);
    }

    ghost predicate Valid() {
      && hs > 0 && exact != s
      && (int8 ==> q.Length == slots * (heads * hs) && s.Length == slots * heads)
      && (!int8 ==> exact.Length == slots * (heads * hs))
    }

    /** The row in a slot. */
    ghost function RowAt(r: nat): (row: Row)
      requires Valid() && r < slots
      reads exact, q, s
      ensures IsRow(row, heads, hs)
    {
      SlotFits(slots, heads * hs, r);
      SlotFits(slots, heads, r);
      if int8 then Int8(Quant(Slice(q[..], r * (heads * hs), heads * hs), Slice(s[..], r * heads, heads)))
      else Exact(Slice(exact[..], r * (heads * hs), heads * hs))
    }

    /** Every row, in slot order. */
    ghost function Rows(): (rows: seq<Row>)
      requires Valid()
      reads exact, q, s
      ensures |rows| == slots && forall r | 0 <= r < slots :: rows[r] == RowAt(r)
    {
      seq(slots, r requires 0 <= r < slots reads exact, q, s => RowAt(r))
    }

    /** Store a vector in a slot. No other slot changes. */
    method Put(r: nat, v: array<real>)
      requires Valid() && r < slots && v.Length == heads * hs && Groups(v.Length, hs)
      requires v != exact && v != s
      modifies exact, q, s
      ensures Rows() == old(Rows())[r := Stored(int8, v[..], hs)]
    {
      hide Valid, RowAt, Stored;
      ghost var row := Stored(int8, v[..], hs);
      if int8 { PutRounded(r, v); } else { PutExact(r, v); }
      assert RowAt(r) == row by { StoredAs(int8, v[..], hs); }
    }

    method PutExact(r: nat, v: array<real>)
      requires Valid() && r < slots && v.Length == heads * hs && !int8 && v != exact
      modifies exact
      ensures RowAt(r) == Exact(v[..])
      ensures forall p | 0 <= p < slots && p != r :: RowAt(p) == old(RowAt(p))
    {
      hide OnlySlot, Slice;
      ghost var width, was := heads * hs, exact[..];
      SlotFits(slots, width, r);
      CopyInto(exact, r * (heads * hs), v);
      ghost var now := exact[..];
      assert OnlySlot(was, now, slots, width, r) by { Changed(was, now, slots, width, r); }
      forall p | 0 <= p < slots && p != r ensures RowAt(p) == old(RowAt(p)) {
        OtherSlot(was, now, slots, width, r, p);
      }
    }

    method PutRounded(r: nat, v: array<real>)
      requires Valid() && r < slots && v.Length == heads * hs && int8 && v != s && Groups(v.Length, hs)
      modifies q, s
      ensures RowAt(r) == Int8(Quantized(v[..], hs))
      ensures forall p | 0 <= p < slots && p != r :: RowAt(p) == old(RowAt(p))
    {
      hide Quantized, OnlySlot;
      ghost var width, q0, s0 := heads * hs, q[..], s[..];
      SlotFits(slots, width, r);
      SlotFits(slots, heads, r);
      GroupIndex(hs, heads, 0);
      Quantize(q, r * (heads * hs), s, r * heads, v, hs);
      ghost var q1, s1 := q[..], s[..];
      assert OnlySlot(q0, q1, slots, width, r) by { Changed(q0, q1, slots, width, r); }
      assert OnlySlot(s0, s1, slots, heads, r) by { Changed(s0, s1, slots, heads, r); }
      forall p | 0 <= p < slots && p != r ensures RowAt(p) == old(RowAt(p)) {
        OtherSlot(q0, q1, slots, width, r, p);
        OtherSlot(s0, s1, slots, heads, r, p);
      }
    }

    /** Element `j` of head `h` of a slot. */
    method Get(r: nat, h: nat, j: nat) returns (x: real)
      requires Valid() && r < slots && h < heads && j < hs
      ensures x == Elem(RowAt(r), heads, hs, h, j)
    {
      hide Slice;
      SlotFits(slots, heads * hs, r);
      SlotFits(slots, heads, r);
      HeadFits(heads, hs, h, j);
      var row, k := r * (heads * hs), h * hs + j;
      if int8 {
        x := q[row + k] as real * s[r * heads + h];
        assert RowAt(r).r.q[k] == q[row + k] && RowAt(r).r.s[h] == s[r * heads + h];
      } else {
        x := exact[row + k];
        assert RowAt(r).v[k] == exact[row + k];
      }
    }
  }
}
