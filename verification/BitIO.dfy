/** The bit writer and bit reader of the compressor: what is written with given
    widths is read back with the same widths, however it falls across bytes. */
module BitIO {

  type Bits = seq<nat>

  function Pow2(k: nat): (r: nat)
    ensures r > 0
  {
    if k == 0 then 1 else 2 * Pow2(k - 1)
  }

  /** The lowest `n` bits of a number, most significant first. */
  function BitsOf(v: nat, n: nat): (b: Bits)
    ensures |b| == n
  {
    if n == 0 then [] else BitsOf(v / 2, n - 1) + [v % 2]
  }

  /** The number that bits stand for. */
  function Val(b: Bits): nat {
    if b == [] then 0 else 2 * Val(b[..|b| - 1]) + b[|b| - 1]
  }

  /** The bits of whole bytes. */
  function BytesBits(s: seq<nat>): (b: Bits)
    ensures |b| == 8 * |s|
  {
    if s == [] then [] else BitsOf(s[0], 8) + BytesBits(s[1..])
  }

  /** `v >> n` and `v & ((1 << n) - 1)`. */
  function Upper(v: nat, n: nat): nat {
    hide Pow2;
    NotNegative(v, Pow2(n));
    v / Pow2(n)
  }

  function Lower(v: nat, n: nat): nat { v % Pow2(n) }

  // ---------------------------------------------------------------- arithmetic

  lemma NotNegative(a: nat, d: nat)
    requires d > 0
    ensures a / d >= 0
  {
  }

  lemma {:induction false} Pow2Sum(a: nat, b: nat)
    ensures Pow2(a + b) == Pow2(a) * Pow2(b)
  {
    if a > 0 {
      Pow2Sum(a - 1, b);
      Doubled(Pow2(a - 1), Pow2(b));
    }
  }

  lemma Doubled(x: nat, y: nat)
    ensures 2 * x * y == 2 * (x * y)
  {
  }

  lemma Times(d: nat, a: nat, b: nat)
    requires a <= b
    ensures d * a <= d * b
  {
  }

  lemma QuotientIs(v: nat, d: nat, q: nat, r: nat)
    requires d > 0 && v == d * q + r && r < d
    ensures v / d == q && v % d == r
  {
    var q', r' := v / d, v % d;
    assert v == d * q' + r';
    if q < q' {
      Times(d, q + 1, q');
    } else if q' < q {
      Times(d, q' + 1, q);
    }
  }

  lemma HalfDiv(v: nat, d: nat)
    requires d > 0
    ensures v / (2 * d) == v / 2 / d && v % (2 * d) == 2 * (v / 2 % d) + v % 2
  {
    var h := v / 2;
    var q, r := h / d, h % d;
    assert h == d * q + r;
    Doubled(d, q);
    QuotientIs(v, 2 * d, q, 2 * r + v % 2);
  }

  /** Taking a bit off at the end. */
  lemma ShiftOne(v: nat, n: nat)
    requires n > 0
    ensures Upper(v, n) == Upper(v / 2, n - 1)
    ensures Lower(v, n) == 2 * Lower(v / 2, n - 1) + v % 2 && Lower(v, n) / 2 == Lower(v / 2, n - 1) && Lower(v, n) % 2 == v % 2
  {
    HalfDiv(v, Pow2(n - 1));
  }

  lemma ShiftNone(v: nat)
    ensures Upper(v, 0) == v && Lower(v, 0) == 0
  {
  }

  /** Bits can be cut anywhere. */
  lemma {:induction false} BitsSplit(v: nat, a: nat, b: nat)
    ensures BitsOf(v, a + b) == BitsOf(Upper(v, b), a) + BitsOf(v, b)
    decreases b
  {
    hide Upper, Lower;
    if b == 0 {
      ShiftNone(v);
    } else {
      BitsSplit(v / 2, a, b - 1);
      ShiftOne(v, b);
    }
  }

  /** Only the lowest bits matter. */
  lemma {:induction false} BitsLow(v: nat, n: nat)
    ensures BitsOf(Lower(v, n), n) == BitsOf(v, n)
    decreases n
  {
    hide Upper, Lower;
    if n > 0 {
      ShiftOne(v, n);
      BitsLow(v / 2, n - 1);
    }
  }

  /** Writing a number in `n` bits and reading it back keeps it modulo 2^n. */
  lemma {:induction false} ValOfBits(v: nat, n: nat)
    ensures Val(BitsOf(v, n)) == v % Pow2(n)
    decreases n
  {
    hide Upper, Pow2;
    if n == 0 {
      ShiftNone(v);
    } else {
      var b := BitsOf(v, n);
      assert b[..|b| - 1] == BitsOf(v / 2, n - 1);
      ValOfBits(v / 2, n - 1);
      ShiftOne(v, n);
    }
  }

  lemma {:induction false} ValConcat(a: Bits, b: Bits)
    ensures Val(a + b) == Val(a) * Pow2(|b|) + Val(b)
    decreases |b|
  {
    if b == [] {
      assert a + b == a && Val(a) * Pow2(0) == Val(a);
    } else {
      hide Pow2;
      var c, x := b[..|b| - 1], b[|b| - 1];
      ValConcat(a, c);
      assert (a + b)[..|a + b| - 1] == a + c;
      PowStep(|c|);
      Shifted(Val(a), Pow2(|c|), Val(c), x);
    }
  }

  lemma PowStep(n: nat)
    ensures Pow2(n + 1) == 2 * Pow2(n)
  {
  }

  lemma Shifted(x: nat, p: nat, y: nat, z: nat)
    ensures 2 * (x * p + y) + z == x * (2 * p) + (2 * y + z)
  {
  }

  lemma {:induction false} BytesConcat(s: seq<nat>, t: seq<nat>)
    ensures BytesBits(s + t) == BytesBits(s) + BytesBits(t)
    decreases |s|
  {
    if s == [] {
      assert s + t == t;
    } else {
      BytesConcat(s[1..], t);
      assert (s + t)[1..] == s[1..] + t;
    }
  }

  lemma ByteBits(x: nat)
    ensures BytesBits([x]) == BitsOf(x, 8)
  {
    assert [x][1..] == [];
    assert BytesBits([]) == [];
  }

  function Min(a: nat, b: nat): nat { if a < b then a else b }

  // ---------------------------------------------------------------- the writer

  class BitWriter {
    var buffer: seq<nat>      // whole bytes
    var currentByte: nat
    var bitsUsed: nat
    ghost var pending: nat    // the number that the used bits of the current byte stand for

    ghost predicate Valid()
      reads this
    {
      bitsUsed < 8 && pending < Pow2(bitsUsed) && currentByte == pending * Pow2(8 - bitsUsed)
    }

    /** All bits written so far. */
    ghost function Written(): (b: Bits)
      reads this
    {
      BytesBits(buffer) + BitsOf(pending, bitsUsed)
    }

    constructor ()
      ensures Valid() && Written() == []
    {
      buffer, currentByte, bitsUsed, pending := [], 0, 0, 0;
    }

    /** write_bits: appends the lowest `bitCount` bits of `value`. */
    method WriteBits(value: nat, bitCount: nat)
      requires Valid() && value < Pow2(32) && bitCount <= 32
      modifies this
      ensures Valid() && Written() == old(Written()) + BitsOf(value, bitCount)
    {
      hide Pow2, BitsOf, Upper, Lower;
      NoBits(value, Written());
      var left := bitCount;
      while left > 0
        invariant Valid() && Written() + BitsOf(value, left) == old(Written()) + BitsOf(value, bitCount)
      {
        var n := Min(left, 8 - bitsUsed);
        var bits := Lower(Upper(value, left - n), n);
        LowerBound(Upper(value, left - n), n);
        ChunkOut(Written(), value, left, n);
        WriteChunk(bits, n);
        left := left - n;
      }
    }

    /** One round of write_bits: `n` bits that fit the current byte.  Their places in
        it are still zero, so that adding them sets them. */
    method WriteChunk(bits: nat, n: nat)
      requires Valid() && 0 < n <= 8 - bitsUsed && bits < Pow2(n)
      modifies this
      ensures Valid() && Written() == old(Written()) + BitsOf(bits, n)
    {
      hide Pow2, BitsOf;
      PendingMore(pending, bitsUsed, bits, n);
      BytesConcat(buffer, [pending * Pow2(n) + bits]);
      ByteBits(pending * Pow2(n) + bits);
      currentByte := currentByte + bits * Pow2(8 - bitsUsed - n);
      pending := pending * Pow2(n) + bits;
      bitsUsed := bitsUsed + n;
      if bitsUsed == 8 {
        Emptied(pending);
        buffer := buffer + [currentByte];
        currentByte, bitsUsed, pending := 0, 0, 0;
      }
    }

    /** flush: what is left goes into a last byte, padded with zeros. */
    method Flush()
      requires Valid()
      modifies this
      ensures Valid() && bitsUsed == 0
      ensures exists pad: nat :: pad < 8 && BytesBits(buffer) == old(Written()) + BitsOf(0, pad)
    {
      hide Pow2, BitsOf;
      if bitsUsed > 0 {
        var pad := 8 - bitsUsed;
        PadBits(pending, bitsUsed, pad);
        BytesConcat(buffer, [currentByte]);
        ByteBits(currentByte);
        Emptied(pending);
        buffer := buffer + [currentByte];
        currentByte, bitsUsed, pending := 0, 0, 0;
        assert pad < 8;
      } else {
        NoPad(pending, Written());
      }
    }
  }

  lemma LowerBound(v: nat, n: nat)
    ensures Lower(v, n) < Pow2(n)
  {
  }

  lemma NoBits(v: nat, b: Bits)
    ensures b + BitsOf(v, 0) == b
  {
  }

  lemma ChunkOut(before: Bits, value: nat, left: nat, n: nat)
    requires 0 < n <= left
    ensures before + BitsOf(value, left) == before + BitsOf(Lower(Upper(value, left - n), n), n) + BitsOf(value, left - n)
  {
    BitsSplit(value, n, left - n);
    BitsLow(Upper(value, left - n), n);
  }

  lemma PendingMore(p: nat, used: nat, c: nat, n: nat)
    requires used + n <= 8 && p < Pow2(used) && c < Pow2(n)
    ensures p * Pow2(n) + c < Pow2(used + n)
    ensures p * Pow2(8 - used) + c * Pow2(8 - used - n) == (p * Pow2(n) + c) * Pow2(8 - used - n)
    ensures BitsOf(p * Pow2(n) + c, used + n) == BitsOf(p, used) + BitsOf(c, n)
  {
    hide Pow2, Upper, Lower, BitsOf;
    var d, e := Pow2(n), Pow2(8 - used - n);
    Pow2Sum(used, n);
    Pow2Sum(n, 8 - used - n);
    Times(d, p + 1, Pow2(used));
    Spread(p, c, d, e);
    var x := p * d + c;
    CutIs(x, n, p, c);
    BitsSplit(x, used, n);
    BitsLow(x, n);
  }

  lemma Spread(p: nat, c: nat, d: nat, e: nat)
    ensures p * (d * e) + c * e == (p * d + c) * e
  {
  }

  lemma CutIs(x: nat, n: nat, q: nat, r: nat)
    requires x == q * Pow2(n) + r && r < Pow2(n)
    ensures Upper(x, n) == q && Lower(x, n) == r
  {
    QuotientIs(x, Pow2(n), q, r);
  }

  lemma Emptied(p: nat)
    ensures Pow2(0) == 1 && BitsOf(0, 0) == [] && p * Pow2(0) == p && 0 * Pow2(8) == 0
  {
  }

  lemma PadBits(p: nat, used: nat, pad: nat)
    requires used + pad == 8
    ensures BitsOf(p * Pow2(pad), 8) == BitsOf(p, used) + BitsOf(0, pad)
  {
    hide Pow2, Upper, Lower, BitsOf;
    var x := p * Pow2(pad);
    CutIs(x, pad, p, 0);
    BitsSplit(x, used, pad);
    BitsLow(x, pad);
  }

  lemma NoPad(p: nat, b: Bits)
    ensures BitsOf(p, 0) == [] && b == b + BitsOf(0, 0)
  {
  }

  // ---------------------------------------------------------------- the reader

  class BitReader {
    const buffer: seq<nat>
    var currentByteIdx: nat
    var bitsRead: nat

    ghost predicate Valid()
      reads this
    {
      currentByteIdx <= |buffer| && bitsRead < 8 && (currentByteIdx == |buffer| ==> bitsRead == 0)
    }

    /** The bits not read yet. */
    ghost function Rest(): (b: Bits)
      requires currentByteIdx <= |buffer| && bitsRead < 8
      reads this
    {
      if currentByteIdx == |buffer| then []
      else BitsOf(buffer[currentByteIdx], 8 - bitsRead) + BytesBits(buffer[currentByteIdx + 1..])
    }

    constructor (buffer: seq<nat>)
      ensures Valid() && this.buffer == buffer && Rest() == BytesBits(buffer)
    {
      this.buffer := buffer;
      currentByteIdx, bitsRead := 0, 0;
    }

    /** read_bits: the number that the next bits stand for, as many as asked for or
        as there are. */
    method ReadBits(bitCount: nat) returns (result: nat)
      requires Valid() && bitCount <= 32
      modifies this
      ensures Valid()
      ensures var n := Min(bitCount, |old(Rest())|);
        result == Val(old(Rest())[..n]) && Rest() == old(Rest())[n..]
    {
      hide Pow2, BitsOf, Val, Upper, Lower, BytesBits, Rest;
      result := 0;
      var left := bitCount;
      ghost var all, got := Rest(), [];
      NothingRead(all);
      while left > 0 && currentByteIdx < |buffer|
        invariant Valid() && got + Rest() == all && |got| + left == bitCount && result == Val(got)
        decreases left
      {
        var n := Min(left, 8 - bitsRead);
        ghost var before := Rest();
        var bits;
        bits := ReadChunk(n);
        ghost var chunk := before[..n];
        ValConcat(got, chunk);
        result := result * Pow2(n) + bits;
        got := got + chunk;
        assert before == chunk + Rest();
        left := left - n;
      }
      assert all == got + Rest();
      AtEnd();
    }

    lemma AtEnd()
      requires Valid()
      ensures currentByteIdx == |buffer| ==> Rest() == []
    {
    }

    /** One round of read_bits: `n` bits of the current byte. */
    method ReadChunk(n: nat) returns (bits: nat)
      requires Valid() && currentByteIdx < |buffer| && 0 < n <= 8 - bitsRead
      modifies this
      ensures Valid() && n <= |old(Rest())| && bits == Val(old(Rest())[..n]) && Rest() == old(Rest())[n..]
    {
      hide Pow2, BitsOf, Val, Upper, Lower, BytesBits;
      var x, avail := buffer[currentByteIdx], 8 - bitsRead;
      ghost var later := BytesBits(buffer[currentByteIdx + 1..]);
      ChunkIn(x, avail, n, later);
      bits := Lower(Upper(x, avail - n), n);
      bitsRead := bitsRead + n;
      if bitsRead == 8 {
        ghost var i := currentByteIdx;
        NextByte(x, buffer, i);
        currentByteIdx := currentByteIdx + 1;
        bitsRead := 0;
      }
    }
  }

  lemma NothingRead(b: Bits)
    ensures Val([]) == 0 && [] + b == b
  {
  }

  lemma ChunkIn(x: nat, avail: nat, n: nat, later: Bits)
    requires 0 < n <= avail
    ensures var rest := BitsOf(x, avail) + later;
      Lower(Upper(x, avail - n), n) == Val(rest[..n]) && rest[n..] == BitsOf(x, avail - n) + later
  {
    hide Pow2, Upper, Val, BitsOf;
    BitsSplit(x, n, avail - n);
    ValOfBits(Upper(x, avail - n), n);
    var rest := BitsOf(x, avail) + later;
    assert rest[..n] == BitsOf(Upper(x, avail - n), n);
  }

  lemma NextByte(x: nat, buffer: seq<nat>, i: nat)
    requires i < |buffer|
    ensures BitsOf(x, 0) + BytesBits(buffer[i + 1..]) ==
            if i + 1 == |buffer| then [] else BitsOf(buffer[i + 1], 8) + BytesBits(buffer[i + 2..])
  {
    var t := buffer[i + 1..];
    if t != [] { assert t[0] == buffer[i + 1] && t[1..] == buffer[i + 2..]; }
  }

  // ------------------------------------------------------------- the round trip

  /** One write: a value and how many bits of it. */
  datatype Field = Field(value: nat, width: nat)

  /** The bits that writing all fields produces. */
  ghost function FieldBits(fs: seq<Field>): Bits {
    if fs == [] then [] else BitsOf(fs[0].value, fs[0].width) + FieldBits(fs[1..])
  }

  /** What reading fields of these widths gives. */
  ghost function Fields(b: Bits, widths: seq<nat>): seq<nat> {
    if widths == [] then []
    else
      var n := Min(widths[0], |b|);
      [Val(b[..n])] + Fields(b[n..], widths[1..])
  }

  /** Every field is read back modulo its width, whatever padding follows. */
  lemma {:induction false} FieldsRoundTrip(fs: seq<Field>, pad: Bits, i: nat)
    requires i < |fs|
    ensures var widths := seq(|fs|, k requires 0 <= k < |fs| => fs[k].width);
      |Fields(FieldBits(fs) + pad, widths)| == |fs| &&
      Fields(FieldBits(fs) + pad, widths)[i] == Lower(fs[i].value, fs[i].width)
    decreases |fs|
  {
    hide Pow2, BitsOf, Val;
    var widths := seq(|fs|, k requires 0 <= k < |fs| => fs[k].width);
    var first, more, rest := BitsOf(fs[0].value, fs[0].width), FieldBits(fs[1..]), fs[1..];
    var all := FieldBits(fs) + pad;
    assert all == first + (more + pad) && all[..|first|] == first && all[|first|..] == more + pad;
    ValOfBits(fs[0].value, fs[0].width);
    assert widths[1..] == seq(|rest|, k requires 0 <= k < |rest| => rest[k].width);
    if rest != [] {
      FieldsRoundTrip(rest, pad, if i > 0 then i - 1 else 0);
    } else {
      assert widths[1..] == [] && |Fields(more + pad, widths[1..])| == 0;
    }
  }

  /** Writes all fields and flushes. */
  method WriteFields(fs: seq<Field>) returns (buffer: seq<nat>, ghost pad: nat)
    requires forall i :: 0 <= i < |fs| ==> fs[i].width <= 32 && fs[i].value < Pow2(32)
    ensures BytesBits(buffer) == FieldBits(fs) + BitsOf(0, pad)
  {
    hide Pow2, BitsOf, BytesBits;
    var w := new BitWriter();
    var i := 0;
    assert fs[0..] == fs;
    while i < |fs|
      invariant 0 <= i <= |fs| && w.Valid() && fresh(w) && w.Written() + FieldBits(fs[i..]) == FieldBits(fs)
    {
      assert fs[i..][1..] == fs[i + 1..];
      w.WriteBits(fs[i].value, fs[i].width);
      i := i + 1;
    }
    w.Flush();
    pad :| pad < 8 && BytesBits(w.buffer) == FieldBits(fs) + BitsOf(0, pad);
    buffer := w.buffer;
  }

  /** Reads fields of the given widths. */
  method ReadFields(buffer: seq<nat>, widths: seq<nat>) returns (values: seq<nat>)
    requires forall i :: 0 <= i < |widths| ==> widths[i] <= 32
    ensures values == Fields(BytesBits(buffer), widths)
  {
    hide Pow2, BitsOf, BytesBits, Val;
    var r := new BitReader(buffer);
    values := [];
    assert widths[0..] == widths;
    var i := 0;
    while i < |widths|
      invariant 0 <= i <= |widths| && r.Valid() && fresh(r)
      invariant values + Fields(r.Rest(), widths[i..]) == Fields(BytesBits(buffer), widths)
    {
      assert widths[i..][0] == widths[i] && widths[i..][1..] == widths[i + 1..];
      var x := r.ReadBits(widths[i]);
      values := values + [x];
      i := i + 1;
    }
  }

  /** Writes all fields, and reads them again with the same widths. */
  method WriteAndRead(fs: seq<Field>) returns (values: seq<nat>)
    requires forall i :: 0 <= i < |fs| ==> fs[i].width <= 32 && fs[i].value < Pow2(32)
    ensures |values| == |fs| && forall i :: 0 <= i < |fs| ==> values[i] == fs[i].value % Pow2(fs[i].width)
  {
    hide Pow2, BitsOf, Val, BytesBits;
    ghost var pad;
    var buffer;
    buffer, pad := WriteFields(fs);
    var widths := seq(|fs|, k requires 0 <= k < |fs| => fs[k].width);
    values := ReadFields(buffer, widths);
    if fs == [] { return; }
    FieldsRoundTrip(fs, BitsOf(0, pad), 0);
    forall k | 0 <= k < |fs| ensures |values| == |fs| && values[k] == fs[k].value % Pow2(fs[k].width) {
      FieldsRoundTrip(fs, BitsOf(0, pad), k);
    }
  }
}
