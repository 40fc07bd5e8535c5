/** Padding between the members of a dumped struct: read back under the C rules for
    bit-fields, the declarations put every member where it was. */
module DumpPadding {

  // --------------------------------------------------------------- rounding up

  function RoundUp(x: nat, m: nat): nat
    requires m > 0
  {
    Quotient(x + m - 1, m) * m
  }

  function Quotient(a: nat, d: nat): (q: nat)
    requires d > 0
    ensures q * d <= a < q * d + d
  {
    a / d
  }

  lemma Between(a: nat, b: nat, d: nat)
    requires a * d < b * d + d
    ensures a <= b
  {
    if a > b { Scaled(b + 1, a, d); }
  }

  lemma Scaled(a: nat, b: nat, d: nat)
    requires a <= b
    ensures a * d <= b * d
  {
  }

  ghost predicate Multiple(x: nat, m: nat) { exists q: nat :: Times(q, m) == x }

  function Times(q: nat, m: nat): nat { q * m }

  lemma RoundsUp(x: nat, m: nat)
    requires m > 0
    ensures Multiple(RoundUp(x, m), m) && x <= RoundUp(x, m) < x + m
  {
    assert Times(Quotient(x + m - 1, m), m) == RoundUp(x, m);
  }

  /** A multiple is the rounded-up value exactly if it is not a whole step away. */
  lemma RoundUpIs(x: nat, m: nat, r: nat)
    requires m > 0 && Multiple(r, m)
    ensures RoundUp(x, m) == r <==> x <= r < x + m
    ensures x <= r ==> RoundUp(x, m) <= r
  {
    RoundsUp(x, m);
    var q: nat :| Times(q, m) == r;
    var p := Quotient(x + m - 1, m);
    if x <= r {
      Between(p, q, m);
      if r < x + m { Between(q, p, m); }
    }
  }

  /** The bit-field of `n` bits from `pos` on stays within one unit of `w` bits. */
  predicate Fits(pos: nat, n: nat, w: nat)
    requires w > 0 && n > 0
  {
    Quotient(pos, w) == Quotient(pos + n - 1, w)
  }

  /** It does so exactly if it does not reach over the next boundary. */
  lemma FitsIs(pos: nat, n: nat, w: nat, r: nat)
    requires w > 0 && n > 0 && Multiple(r, w) && r <= pos < r + w
    ensures Fits(pos, n, w) <==> pos + n <= r + w
  {
    var q: nat :| Times(q, w) == r;
    var p, p' := Quotient(pos, w), Quotient(pos + n - 1, w);
    Between(p, q, w);
    Between(q, p, w);
    if pos + n <= r + w {
      Between(p', q, w);
      Between(p, p', w);
    } else {
      Between(q + 1, p', w);
    }
  }

  // ------------------------------------------------------- the layout of a struct

  const PADS := [LONG, INT, SHORT, CHAR]

  datatype PadType = LONG | INT | SHORT | CHAR

  function Bits(t: PadType, ptrSize: nat): (b: nat)
    requires ptrSize == 4 || ptrSize == 8
  {
    match t
    case LONG => ptrSize * 8
    case INT => 32
    case SHORT => 16
    case CHAR => 8
  }

  /** What is printed between the braces: unnamed bit-fields as padding, and members,
      of which the size and alignment in bytes matter, or of bit-fields the width of
      the type and the number of bits. */
  datatype Decl =
    | Gap(padType: PadType, bits: nat)
    | Field(size: nat, align: nat)
    | BitField(width: nat, bits: nat)

  /** How far the struct extends, in bits, and where its named members start. */
  datatype Layout = Layout(pos: nat, starts: seq<nat>)

  predicate DeclOk(d: Decl) {
    (d.Field? ==> d.align > 0) && (d.BitField? ==> d.width > 0 && d.bits > 0)
  }

  /** Where a bit-field of a type of `w` bits starts (section 6.7.2.1 of ISO/IEC
      9899:2011, as ABIs settle it): it does not cross a boundary of its type. */
  function BitStart(pos: nat, w: nat, n: nat): nat
    requires w > 0 && n > 0
  {
    if Fits(pos, n, w) then pos else RoundUp(pos, w)
  }

  /** An unnamed bit-field of no bits moves on to the next boundary of its type. */
  function AfterGap(pos: nat, w: nat, n: nat): nat
    requires w > 0
  {
    if n == 0 then RoundUp(pos, w) else BitStart(pos, w, n) + n
  }

  function Lay(ds: seq<Decl>, ptrSize: nat): Layout
    requires (ptrSize == 4 || ptrSize == 8) && forall d :: d in ds ==> DeclOk(d)
  {
    if ds == [] then Layout(0, [])
    else
      assert DeclOk(ds[|ds| - 1]);
      var l := Lay(ds[..|ds| - 1], ptrSize);
      match ds[|ds| - 1]
      case Gap(t, n) => l.(pos := AfterGap(l.pos, Bits(t, ptrSize), n))
      case Field(size, align) => Layout(RoundUp(l.pos, 8 * align) + 8 * size, l.starts + [RoundUp(l.pos, 8 * align)])
      case BitField(w, n) => Layout(BitStart(l.pos, w, n) + n, l.starts + [BitStart(l.pos, w, n)])
  }

  // ------------------------------------------------------------ why padding is exact

  predicate PadWidth(w: nat) { w == 8 || w == 16 || w == 32 || w == 64 }

  /** A boundary of the wider of two padding types is one of the other. */
  lemma Divides(r: nat, p: nat, w: nat)
    requires PadWidth(p) && PadWidth(w) && w <= p && Multiple(r, p)
    ensures Multiple(r, w)
  {
    var q: nat :| Times(q, p) == r;
    var k := p / w;
    assert k * w == p;
    assert Times(q * k, w) == r by { Regroup(q, k, w); }
  }

  lemma Regroup(q: nat, k: nat, w: nat)
    ensures q * k * w == q * (k * w)
  {
  }

  /** The filling loop: the declarations so far extend to `pos`, the program counts on
      `cur`.  They agree, at a boundary of the padding type or with the next boundary
      beyond `next`; or a boundary marker was left out because more padding follows
      than was skipped. */
  ghost predicate Filling(pos: nat, cur: nat, next: nat, p: nat) {
    && cur <= next
    && (cur == next ==> pos == cur)
    && (cur < next ==>
          && PadWidth(p)
          && if pos == cur then Multiple(cur, p) || (p == 8 && next < RoundUp(cur, p))
             else pos < cur == RoundUp(pos, p) && cur - pos < next - cur)
  }

  /** One declaration of `n` bits in a type of `w` bits. */
  lemma FillStep(pos: nat, cur: nat, next: nat, p: nat, n: nat, w: nat)
    requires Filling(pos, cur, next, p) && cur < next && PadWidth(w)
    requires n == (if next - cur < p then next - cur else p) && n <= w <= p
    requires n == p ==> w == p
    ensures AfterGap(pos, w, n) == cur + n && Filling(cur + n, cur + n, next, w)
  {
    hide Fits, RoundUp, Multiple;
    if pos == cur {
      if Multiple(cur, p) {
        Divides(cur, p, w);
        FitsIs(cur, n, w, cur);
        if n == p { NextMultiple(cur, p); }
      } else {
        RoundsUp(cur, p);
        FitsBefore(cur, n, w);
      }
    } else {
      RoundsUp(pos, p);
      Divides(cur, p, w);
      Straddles(pos, n, w, cur);
      if n == p { NextMultiple(cur, p); }
    }
  }

  lemma NextMultiple(x: nat, p: nat)
    requires Multiple(x, p)
    ensures Multiple(x + p, p)
  {
    var q: nat :| Times(q, p) == x;
    assert Times(q + 1, p) == x + p;
  }

  lemma FitsBefore(pos: nat, n: nat, w: nat)
    requires w > 0 && n > 0 && pos + n <= RoundUp(pos, w)
    ensures Fits(pos, n, w)
  {
    var r := Quotient(pos + w - 1, w);
    assert r > 0 by { Between(1, r, w); }
    assert Times(r - 1, w) == RoundUp(pos, w) - w;
    FitsIs(pos, n, w, RoundUp(pos, w) - w);
  }

  /** A bit-field that crosses a boundary starts there. */
  lemma Straddles(pos: nat, n: nat, w: nat, r: nat)
    requires w > 0 && n > 0 && Multiple(r, w) && pos < r < pos + n && r - pos < w
    ensures BitStart(pos, w, n) == r
  {
    RoundUpIs(pos, w, r);
    var q: nat :| Times(q, w) == r;
    assert q > 0;
    assert Times(q - 1, w) == r - w;
    FitsIs(pos, n, w, r - w);
  }

  /** Padding is left to the compiler: the next member's own alignment, and that of a
      padding type, both lead from `cur` right to `next`. */
  predicate Implicit(cur: nat, next: nat, align: nat, ptrSize: nat)
    requires align > 0 && (ptrSize == 4 || ptrSize == 8)
  {
    && cur < next == RoundUp(cur, 8 * align)
    && (RoundUp(cur, ptrSize * 8) == next || RoundUp(cur, 32) == next || RoundUp(cur, 16) == next || RoundUp(cur, 8) == next)
  }

  /** A wider type's boundary is not before a narrower one's. */
  lemma Wider(x: nat, p: nat, w: nat)
    requires PadWidth(p) && PadWidth(w) && w <= p
    ensures RoundUp(x, w) <= RoundUp(x, p)
  {
    hide RoundUp, Multiple;
    RoundsUp(x, p);
    Divides(RoundUp(x, p), p, w);
    RoundUpIs(x, w, RoundUp(x, p));
  }

  /** The widest padding type whose next boundary is not beyond `next`, if any. */
  ghost predicate Chosen(t: PadType, cur: nat, next: nat, ptrSize: nat)
    requires ptrSize == 4 || ptrSize == 8
  {
    && (RoundUp(cur, Bits(t, ptrSize)) <= next || (t == CHAR && next < RoundUp(cur, 8)))
    && forall k :: 0 <= k < |PADS| && Bits(PADS[k], ptrSize) > Bits(t, ptrSize) ==> next < RoundUp(cur, Bits(PADS[k], ptrSize))
  }

  /** The boundary of the chosen type is `next` if that of any padding type is. */
  lemma ChosenReaches(t: PadType, cur: nat, next: nat, align: nat, ptrSize: nat)
    requires align > 0 && (ptrSize == 4 || ptrSize == 8) && Chosen(t, cur, next, ptrSize) && cur < next
    ensures Implicit(cur, next, align, ptrSize) <==>
              RoundUp(cur, Bits(t, ptrSize)) == next == RoundUp(cur, 8 * align)
  {
    hide RoundUp;
    forall k | 0 <= k < |PADS| && RoundUp(cur, Bits(PADS[k], ptrSize)) == next
      ensures RoundUp(cur, Bits(t, ptrSize)) == next
    {
      assert Bits(PADS[k], ptrSize) <= Bits(t, ptrSize);
      Wider(cur, Bits(t, ptrSize), Bits(PADS[k], ptrSize));
    }
    assert PADS[0] == LONG && PADS[1] == INT && PADS[2] == SHORT && PADS[3] == CHAR;
  }

  /** How the program stands: the compiler is to pad from `start` on, or it fills. */
  ghost predicate Padding(start: nat, left: bool, pos: nat, cur: nat, next: nat, p: nat) {
    if left then cur == next && pos == start else Filling(pos, cur, next, p)
  }

  lemma PadStep(start: nat, left: bool, pos: nat, cur: nat, next: nat, p: nat, n: nat, w: nat)
    requires Padding(start, left, pos, cur, next, p) && cur < next && PadWidth(w)
    requires n == (if next - cur < p then next - cur else p) && n <= w <= p
    requires n == p ==> w == p
    ensures AfterGap(pos, w, n) == cur + n && Padding(start, left, cur + n, cur + n, next, w)
  {
    hide Filling, AfterGap;
    FillStep(pos, cur, next, p, n, w);
  }

  lemma PadEnds(start: nat, left: bool, pos: nat, next: nat, p: nat)
    requires Padding(start, left, pos, next, next, p)
    ensures pos == (if left then start else next) && Padding(start, left, pos, next, next, 8)
  {
  }

  /** Whether a marker is printed that leads to the boundary `b`. */
  predicate Marks(cur: nat, next: nat, b: nat, align: nat, inBitfield: bool)
    requires align > 0
  {
    inBitfield || (b == next && RoundUp(cur, 8 * align) != b) || (b != next && next - b <= b - cur)
  }

  /** With the marker, if there is one, the gap can be filled. */
  lemma Marked(cur: nat, next: nat, align: nat, inBitfield: bool, t: PadType, ptrSize: nat)
    requires align > 0 && (ptrSize == 4 || ptrSize == 8) && Chosen(t, cur, next, ptrSize) && cur < next
    ensures var p := Bits(t, ptrSize);
      var b := RoundUp(cur, p);
      var left := !inBitfield && Implicit(cur, next, align, ptrSize);
      if cur < b <= next then
        Padding(cur, left, if Marks(cur, next, b, align, inBitfield) then AfterGap(cur, p, if inBitfield then b - cur else 0) else cur, b, next, p)
      else Padding(cur, left, cur, cur, next, p)
  {
    var p := Bits(t, ptrSize);
    var b := RoundUp(cur, p);
    ChosenReaches(t, cur, next, align, ptrSize);
    hide RoundUp, Implicit, Multiple, Chosen;
    RoundsUp(cur, p);
    if cur < b <= next && inBitfield { FitsBefore(cur, b - cur, p); }
  }

  // ---------------------------------------------------------------- the program

  /** A member: its offset in bits, its type's size and alignment in bytes, and for a
      bit-field the number of bits, else 0. */
  datatype Member = Member(off: nat, size: nat, align: nat, bits: nat)

  /** One past the last bit of a member. */
  function MemberEnd(m: Member): nat {
    m.off + if m.bits > 0 then m.bits else 8 * m.size
  }

  predicate MemberOk(m: Member) {
    && m.align > 0
    && (m.bits == 0 ==> Quotient(m.off, 8 * m.align) * (8 * m.align) == m.off)
    && (m.bits > 0 ==> m.size > 0 && Fits(m.off, m.bits, 8 * m.size))
  }

  /** Where the members before member `i` end. */
  function EndBefore(ms: seq<Member>, i: nat): nat
    requires i <= |ms|
  {
    if i == 0 then 0 else MemberEnd(ms[i - 1])
  }

  /** A struct that is not packed: members that are not bit-fields are at multiples of
      their alignment, bit-fields inside one unit of their type, in order and without
      overlap, and the size is a multiple of the alignment. */
  predicate NotPacked(ms: seq<Member>, size: nat, align: nat) {
    && (forall i :: 0 <= i < |ms| ==> MemberOk(ms[i]) && EndBefore(ms, i) <= ms[i].off)
    && EndBefore(ms, |ms|) <= 8 * size && align > 0 && Quotient(8 * size, 8 * align) * (8 * align) == 8 * size
  }

  /** The bit-field `m` follows a member that is none, across a gap left to the
      compiler, which a bit-field of its type does not have to leave. */
  predicate Lost(prev: nat, prevBits: bool, m: Member, ptrSize: nat)
    requires MemberOk(m) && (ptrSize == 4 || ptrSize == 8)
  {
    m.bits > 0 && !prevBits && Implicit(prev, m.off, m.align, ptrSize) && BitStart(prev, 8 * m.size, m.bits) != m.off
  }

  /** Whether the member before member `i` is a bit-field. */
  predicate AfterBitField(ms: seq<Member>, i: nat)
    requires i <= |ms|
  {
    i > 0 && ms[i - 1].bits > 0
  }

  class Printer {
    const ptrSize: nat
    var out: seq<Decl>

    constructor (ptrSize: nat)
      ensures this.ptrSize == ptrSize && out == []
    {
      this.ptrSize := ptrSize;
      out := [];
    }

    ghost predicate Valid()
      reads this
    {
      (ptrSize == 4 || ptrSize == 8) && forall d :: d in out ==> DeclOk(d)
    }

    ghost function Now(): Layout
      requires Valid()
      reads this
    {
      Lay(out, ptrSize)
    }

    method EmitGap(t: PadType, bits: nat)
      requires Valid()
      modifies this
      ensures Valid() && Now() == old(Now()).(pos := AfterGap(old(Now()).pos, Bits(t, ptrSize), bits))
    {
      hide AfterGap;
      ghost var before := out;
      out := out + [Gap(t, bits)];
      assert out[..|out| - 1] == before;
    }

    method ChoosePad(cur: nat, next: nat) returns (t: PadType)
      requires Valid() && cur < next
      ensures Chosen(t, cur, next, ptrSize)
    {
      hide RoundUp;
      t := CHAR;
      var i := 0;
      while i < |PADS|
        invariant 0 <= i <= |PADS| && (i == |PADS| ==> t == CHAR)
        invariant forall k :: 0 <= k < i ==> next < RoundUp(cur, Bits(PADS[k], ptrSize))
      {
        t := PADS[i];
        if RoundUp(cur, Bits(t, ptrSize)) <= next {
          return;
        }
        i := i + 1;
      }
    }

    /** The narrowest padding type that holds so many bits. */
    method NarrowestPad(bits: nat) returns (t: PadType)
      requires Valid() && bits <= ptrSize * 8
      ensures Bits(t, ptrSize) >= bits
      ensures forall t' :: Bits(t', ptrSize) >= bits ==> Bits(t, ptrSize) <= Bits(t', ptrSize)
    {
      var i := 3;
      while Bits(PADS[i], ptrSize) < bits
        invariant 0 <= i <= 3 && forall k :: i < k <= 3 ==> Bits(PADS[k], ptrSize) < bits
      {
        i := i - 1;
      }
      t := PADS[i];
      forall t' | Bits(t', ptrSize) >= bits ensures Bits(t, ptrSize) <= Bits(t', ptrSize) {
        assert t' == PADS[match t' case LONG => 0 case INT => 1 case SHORT => 2 case CHAR => 3];
      }
    }

    /** The rest of a gap: full-width declarations, and a last one of the narrowest type. */
    method Fill(padType0: PadType, cur0: nat, next: nat, ghost start: nat, ghost left: bool)
      requires Valid() && cur0 <= next
      modifies this
      ensures Valid() && Now().starts == old(Now()).starts
      ensures Padding(start, left, old(Now()).pos, cur0, next, Bits(padType0, ptrSize)) ==>
                Padding(start, left, Now().pos, next, next, 8)
    {
      hide AfterGap, Lay, Padding, DeclOk;
      var cur, padType, padBits := cur0, padType0, Bits(padType0, ptrSize);
      ghost var exact := Padding(start, left, Now().pos, cur, next, padBits);
      while cur != next
        invariant Valid() && Now().starts == old(Now()).starts && cur <= next && padBits == Bits(padType, ptrSize)
        invariant exact ==> Padding(start, left, Now().pos, cur, next, padBits)
        decreases next - cur
      {
        var bits := if next - cur < padBits then next - cur else padBits;
        ghost var pos, p := Now().pos, padBits;
        if bits == padBits {
          EmitGap(padType, padBits);
        } else {
          padType := NarrowestPad(bits);
          padBits := Bits(padType, ptrSize);
          EmitGap(padType, bits);
        }
        if exact { PadStep(start, left, pos, cur, next, p, bits, padBits); }
        cur := cur + bits;
      }
      if exact { PadEnds(start, left, Now().pos, next, padBits); }
    }

    /** The marker that leads to a boundary of the padding type, unless the compiler
        gets there by itself. */
    method EmitMarker(padType: PadType, cur0: nat, next: nat, nextAlign: nat, inBitfield: bool) returns (cur: nat)
      requires Valid() && nextAlign > 0 && cur0 < next && Chosen(padType, cur0, next, ptrSize)
      modifies this
      ensures Valid() && Now().starts == old(Now()).starts && cur <= next
      ensures old(Now()).pos == cur0 ==>
        Padding(cur0, !inBitfield && Implicit(cur0, next, nextAlign, ptrSize), Now().pos, cur, next, Bits(padType, ptrSize))
    {
      hide RoundUp, AfterGap, Lay, Chosen, Implicit, Padding, DeclOk, Marks;
      cur := cur0;
      var newOff := RoundUp(cur, Bits(padType, ptrSize));
      Marked(cur, next, nextAlign, inBitfield, padType, ptrSize);
      if cur < newOff <= next {
        if Marks(cur, next, newOff, nextAlign, inBitfield) {
          EmitGap(padType, if inBitfield then newOff - cur else 0);
        }
        cur := newOff;
      }
    }

    /** btf_dump_emit_bit_padding: the declarations lead exactly to `next`, unless the
        compiler is left to do so for the next member. */
    method EmitBitPadding(cur0: nat, next: nat, nextAlign: nat, inBitfield: bool)
      requires Valid() && nextAlign > 0
      modifies this
      ensures Valid() && Now().starts == old(Now()).starts
      ensures old(Now()).pos == cur0 ==>
        Now().pos == if cur0 >= next || (!inBitfield && Implicit(cur0, next, nextAlign, ptrSize)) then cur0 else next
    {
      if cur0 >= next {
        return;
      }
      hide RoundUp, Lay, Chosen, Implicit, Padding, DeclOk;
      var padType := ChoosePad(cur0, next);
      ghost var exact, left := Now().pos == cur0, !inBitfield && Implicit(cur0, next, nextAlign, ptrSize);
      var cur := EmitMarker(padType, cur0, next, nextAlign, inBitfield);
      Fill(padType, cur, next, cur0, left);
      if exact { PadEnds(cur0, left, Now().pos, next, 8); }
    }

    method EmitMember(m: Member)
      requires Valid() && MemberOk(m)
      modifies this
      ensures Valid() && Now() == WithMember(old(Now()), m)
    {
      hide RoundUp, BitStart, Fits, Multiple;
      ghost var before := out;
      out := out + [if m.bits > 0 then BitField(8 * m.size, m.bits) else Field(m.size, m.align)];
      assert out[..|out| - 1] == before;
    }

    /** btf_dump_emit_struct_def, for a struct that is not packed: the compiler puts
        every member where it was, exactly if no bit-field is lost, and then the struct
        has its size. */
    method EmitStructDef(ms: seq<Member>, size: nat, align: nat)
      requires Valid() && Now() == Layout(0, []) && NotPacked(ms, size, align)
      modifies this
      ensures Valid()
      ensures Now().starts == Offsets(ms) <==> NoneLost(ms, |ms|, ptrSize)
      ensures NoneLost(ms, |ms|, ptrSize) ==> RoundUp(Now().pos, 8 * align) == 8 * size
    {
      hide Lay, NoneLost, Implicit, RoundUp, WithMember, Laid, NotPacked;
      var off, prevBitfield, i := 0, false, 0;
      LaidNone(ms, ptrSize);
      while i < |ms|
        invariant 0 <= i <= |ms| && Valid() && off == EndBefore(ms, i) && prevBitfield == AfterBitField(ms, i)
        invariant Laid(ms, i, Now(), ptrSize)
      {
        var m := ms[i];
        InOrder(ms, size, align, i);
        ghost var before := Now();
        EmitBitPadding(off, m.off, m.align, prevBitfield && m.bits != 0);
        LaidMore(ms, i, before, Now(), ptrSize);
        EmitMember(m);
        off := MemberEnd(m);
        prevBitfield := m.bits > 0;
        i := i + 1;
      }
      ghost var l := Now();
      InOrder(ms, size, align, |ms|);
      EmitBitPadding(off, 8 * size, align, false);
      LaidAll(ms, l, ptrSize);
      SizeReached(off, size, align, ptrSize);
    }
  }

  lemma InOrder(ms: seq<Member>, size: nat, align: nat, i: nat)
    requires NotPacked(ms, size, align) && i <= |ms|
    ensures i < |ms| ==> MemberOk(ms[i]) && EndBefore(ms, i) <= ms[i].off
    ensures i == |ms| ==> EndBefore(ms, i) <= 8 * size && Quotient(8 * size, 8 * align) * (8 * align) == 8 * size
    ensures align > 0
  {
  }

  ghost function WithMember(l: Layout, m: Member): Layout
    requires MemberOk(m)
  {
    var start := if m.bits > 0 then BitStart(l.pos, 8 * m.size, m.bits) else RoundUp(l.pos, 8 * m.align);
    Layout(start + (if m.bits > 0 then m.bits else 8 * m.size), l.starts + [start])
  }

  lemma MemberAdded(l: Layout, m: Member)
    requires MemberOk(m)
    ensures var s := WithMember(l, m).starts; |s| == |l.starts| + 1 && s[..|l.starts|] == l.starts
  {
  }

  ghost function Offsets(ms: seq<Member>): seq<nat> {
    seq(|ms|, i requires 0 <= i < |ms| => ms[i].off)
  }

  /** Member `i` is a bit-field that is lost. */
  ghost predicate LostAt(ms: seq<Member>, i: nat, ptrSize: nat)
    requires i < |ms| && (ptrSize == 4 || ptrSize == 8) && MemberOk(ms[i])
  {
    Lost(EndBefore(ms, i), AfterBitField(ms, i), ms[i], ptrSize)
  }

  ghost predicate NoneLost(ms: seq<Member>, n: nat, ptrSize: nat)
    requires n <= |ms| && (ptrSize == 4 || ptrSize == 8)
  {
    forall i :: 0 <= i < n ==> MemberOk(ms[i]) && !LostAt(ms, i, ptrSize)
  }

  /** The layout of the first `n` members: right exactly if none is lost. */
  ghost predicate Laid(ms: seq<Member>, n: nat, l: Layout, ptrSize: nat)
    requires n <= |ms| && (ptrSize == 4 || ptrSize == 8)
  {
    && |l.starts| == n && (l.starts == Offsets(ms)[..n] <==> NoneLost(ms, n, ptrSize))
    && (NoneLost(ms, n, ptrSize) ==> l.pos == EndBefore(ms, n))
  }

  lemma LaidNone(ms: seq<Member>, ptrSize: nat)
    requires ptrSize == 4 || ptrSize == 8
    ensures Laid(ms, 0, Layout(0, []), ptrSize)
  {
  }

  lemma LaidAll(ms: seq<Member>, l: Layout, ptrSize: nat)
    requires (ptrSize == 4 || ptrSize == 8) && Laid(ms, |ms|, l, ptrSize)
    ensures l.starts == Offsets(ms) <==> NoneLost(ms, |ms|, ptrSize)
    ensures NoneLost(ms, |ms|, ptrSize) ==> l.pos == EndBefore(ms, |ms|)
  {
    assert Offsets(ms)[..|ms|] == Offsets(ms);
  }

  lemma LaidMore(ms: seq<Member>, i: nat, before: Layout, padded: Layout, ptrSize: nat)
    requires i < |ms| && (ptrSize == 4 || ptrSize == 8) && MemberOk(ms[i]) && EndBefore(ms, i) <= ms[i].off
    requires Laid(ms, i, before, ptrSize) && padded.starts == before.starts
    requires before.pos == EndBefore(ms, i) ==> padded.pos == PadEnd(ms, i, ptrSize)
    ensures Laid(ms, i + 1, WithMember(padded, ms[i]), ptrSize)
  {
    hide LostAt, WithMember, MemberOk, MemberEnd;
    var l := WithMember(padded, ms[i]);
    assert Offsets(ms)[..i + 1] == Offsets(ms)[..i] + [ms[i].off];
    MemberAdded(padded, ms[i]);
    if NoneLost(ms, i, ptrSize) {
      MemberPlaced(ms, i, before, padded, ptrSize);
    } else {
      assert l.starts[..i] != Offsets(ms)[..i + 1][..i];
    }
  }

  /** Where the padding before member `i` ends. */
  ghost function PadEnd(ms: seq<Member>, i: nat, ptrSize: nat): nat
    requires i < |ms| && (ptrSize == 4 || ptrSize == 8) && ms[i].align > 0
  {
    var m, prev := ms[i], EndBefore(ms, i);
    if prev >= m.off || (!(AfterBitField(ms, i) && m.bits != 0) && Implicit(prev, m.off, m.align, ptrSize)) then prev else m.off
  }

  /** With the padding printed before it, a member is where it was unless it is lost. */
  lemma MemberPlaced(ms: seq<Member>, i: nat, before: Layout, padded: Layout, ptrSize: nat)
    requires i < |ms| && (ptrSize == 4 || ptrSize == 8) && MemberOk(ms[i]) && EndBefore(ms, i) <= ms[i].off
    requires before.pos == EndBefore(ms, i) && padded.starts == before.starts && padded.pos == PadEnd(ms, i, ptrSize)
    ensures var l := WithMember(padded, ms[i]);
      && (LostAt(ms, i, ptrSize) <==> l.starts != before.starts + [ms[i].off])
      && (!LostAt(ms, i, ptrSize) ==> l.pos == MemberEnd(ms[i]))
  {
    var m := ms[i];
    hide RoundUp, Fits;
    if m.bits == 0 { AtMultiple(m.off, 8 * m.align); }
    var l := WithMember(padded, m);
    assert l.starts[|before.starts|] == m.off <==> l.starts == before.starts + [m.off];
  }

  lemma AtMultiple(x: nat, w: nat)
    requires w > 0 && Quotient(x, w) * w == x
    ensures RoundUp(x, w) == x
  {
    assert Times(Quotient(x, w), w) == x;
    RoundUpIs(x, w, x);
  }

  lemma SizeReached(off: nat, size: nat, align: nat, ptrSize: nat)
    requires align > 0 && off <= 8 * size && Quotient(8 * size, 8 * align) * (8 * align) == 8 * size
    requires ptrSize == 4 || ptrSize == 8
    ensures var pos := if off >= 8 * size || Implicit(off, 8 * size, align, ptrSize) then off else 8 * size;
      RoundUp(pos, 8 * align) == 8 * size
  {
    hide RoundUp;
    AtMultiple(8 * size, 8 * align);
  }

  /** A bit-field that is lost: four bits of an int after a char, at bit 32.  No padding
      is printed, and the compiler puts them right after the char. */
  lemma LostBitField()
    ensures Lost(8, false, Member(32, 4, 4, 4), 8) && BitStart(8, 32, 4) == 8
  {
    assert Times(1, 32) == 32 && Times(0, 32) == 0;
    RoundUpIs(8, 32, 32);
    FitsIs(8, 4, 32, 0);
    FitsIs(32, 4, 32, 32);
  }
}
