/** The bytes of a BTF: header, type section and strings, in either byte order. */
module BtfFormat {

  // ---------------------------------------------------------------- byte order

  predicate AreBytes(s: seq<nat>) { forall i :: 0 <= i < |s| ==> s[i] < 256 }

  predicate AreWords(s: seq<nat>) { forall i :: 0 <= i < |s| ==> s[i] < 0x1_0000_0000 }

  /** Byte `k` of a word, from the lowest. */
  function ByteOf(w: nat, k: nat): (b: nat)
    ensures b < 256
  {
    if k == 0 then w % 256 else ByteOf(w / 256, k - 1)
  }

  /** The word with these bytes, lowest first. */
  function Word4(a: nat, b: nat, c: nat, d: nat): nat { a + 256 * (b + 256 * (c + 256 * d)) }

  /** The four bytes of a word. */
  function Split4(w: nat, big: bool): (s: seq<nat>)
    ensures |s| == 4 && AreBytes(s)
  {
    if big then [ByteOf(w, 3), ByteOf(w, 2), ByteOf(w, 1), ByteOf(w, 0)]
    else [ByteOf(w, 0), ByteOf(w, 1), ByteOf(w, 2), ByteOf(w, 3)]
  }

  /** The word that four bytes hold. */
  function Join4(s: seq<nat>, big: bool): nat
    requires |s| == 4
  {
    if big then Word4(s[3], s[2], s[1], s[0]) else Word4(s[0], s[1], s[2], s[3])
  }

  /** bswap_32 */
  function Swap32(w: nat): nat { Word4(ByteOf(w, 3), ByteOf(w, 2), ByteOf(w, 1), ByteOf(w, 0)) }

  /** The lowest byte, and the word above it. */
  lemma Peel(w: nat, bound: nat) returns (q: nat)
    requires w < 256 * bound
    ensures q < bound && w == ByteOf(w, 0) + 256 * q && forall k :: 0 <= k ==> ByteOf(w, k + 1) == ByteOf(q, k)
  {
    q := w / 256;
  }

  lemma BytesOfWord(w: nat)
    requires w < 0x1_0000_0000
    ensures Word4(ByteOf(w, 0), ByteOf(w, 1), ByteOf(w, 2), ByteOf(w, 3)) == w
  {
    hide ByteOf;
    var a := Peel(w, 0x100_0000);
    var b := Peel(a, 0x1_0000);
    var c := Peel(b, 0x100);
    var d := Peel(c, 1);
    assert ByteOf(w, 1) == ByteOf(a, 0);
    assert ByteOf(w, 2) == ByteOf(a, 1) == ByteOf(b, 0);
    assert ByteOf(w, 3) == ByteOf(a, 2) == ByteOf(b, 1) == ByteOf(c, 0);
  }

  lemma LowByte(a: nat, q: nat)
    requires a < 256
    ensures (a + 256 * q) % 256 == a && (a + 256 * q) / 256 == q
  {
  }

  lemma WordBytes(a: nat, b: nat, c: nat, d: nat)
    requires a < 256 && b < 256 && c < 256 && d < 256
    ensures var w := Word4(a, b, c, d);
      w < 0x1_0000_0000 && ByteOf(w, 0) == a && ByteOf(w, 1) == b && ByteOf(w, 2) == c && ByteOf(w, 3) == d
  {
    var z := d;
    var y := c + 256 * z;
    var x := b + 256 * y;
    var w := a + 256 * x;
    LowByte(a, x);
    LowByte(b, y);
    LowByte(c, z);
    assert ByteOf(w, 1) == ByteOf(x, 0) == b;
    assert ByteOf(w, 2) == ByteOf(x, 1) == ByteOf(y, 0) == c;
    assert ByteOf(w, 3) == ByteOf(x, 2) == ByteOf(y, 1) == ByteOf(z, 0) == d;
  }

  /** Reading in the order of writing gives the word back, in the other order the
      swapped word. */
  lemma JoinSplit(w: nat, big: bool)
    requires w < 0x1_0000_0000
    ensures Join4(Split4(w, big), big) == w && Join4(Split4(w, big), !big) == Swap32(w)
  {
    hide ByteOf, Word4;
    BytesOfWord(w);
  }

  /** Bytes read in one order are the swapped word of the other. */
  lemma SwapJoin(s: seq<nat>, big: bool)
    requires |s| == 4 && AreBytes(s)
    ensures Swap32(Join4(s, big)) == Join4(s, !big) && Split4(Join4(s, big), big) == s && Join4(s, big) < 0x1_0000_0000
  {
    hide ByteOf, Word4;
    if big { WordBytes(s[3], s[2], s[1], s[0]); } else { WordBytes(s[0], s[1], s[2], s[3]); }
  }

  function Swapped(ws: seq<nat>): (s: seq<nat>)
    ensures |s| == |ws|
  {
    seq(|ws|, i requires 0 <= i < |ws| => Swap32(ws[i]))
  }

  function BytesOf(ws: seq<nat>, big: bool): (s: seq<nat>)
    ensures |s| == 4 * |ws|
  {
    if ws == [] then [] else BytesOf(ws[..|ws| - 1], big) + Split4(ws[|ws| - 1], big)
  }

  /** The words that bytes hold; up to three bytes at the end are left over. */
  function WordsOf(bs: seq<nat>, big: bool): (s: seq<nat>)
    ensures |s| == |bs| / 4
  {
    seq(|bs| / 4, i requires 0 <= i < |bs| / 4 => Join4(bs[4 * i..4 * i + 4], big))
  }

  lemma {:induction false} BytesAt(ws: seq<nat>, big: bool, i: nat)
    requires i < |ws|
    ensures BytesOf(ws, big)[4 * i..4 * i + 4] == Split4(ws[i], big)
    decreases |ws|
  {
    if i < |ws| - 1 {
      BytesAt(ws[..|ws| - 1], big, i);
      assert BytesOf(ws, big)[4 * i..4 * i + 4] == BytesOf(ws[..|ws| - 1], big)[4 * i..4 * i + 4];
    }
  }

  lemma WordsBytes(ws: seq<nat>, big: bool)
    requires AreWords(ws)
    ensures WordsOf(BytesOf(ws, big), big) == ws
  {
    hide BytesOf, Join4, Split4;
    forall i | 0 <= i < |ws| ensures WordsOf(BytesOf(ws, big), big)[i] == ws[i] {
      BytesAt(ws, big, i);
      JoinSplit(ws[i], big);
    }
  }

  /** Writing swapped words is writing in the other order. */
  lemma {:induction false} SwapBytes(ws: seq<nat>, big: bool)
    requires AreWords(ws)
    ensures BytesOf(Swapped(ws), big) == BytesOf(ws, !big)
    decreases |ws|
  {
    hide Split4, Swap32;
    if ws != [] {
      var n := |ws| - 1;
      SwapBytes(ws[..n], big);
      assert Swapped(ws)[..n] == Swapped(ws[..n]);
      SplitSwap(ws[n], big);
    }
  }

  lemma SplitSwap(w: nat, big: bool)
    requires w < 0x1_0000_0000
    ensures Split4(Swap32(w), big) == Split4(w, !big)
  {
    hide Split4, Join4, Swap32;
    JoinSplit(w, !big);
    SwapJoin(Split4(w, !big), big);
  }

  /** Swapping words that were read is reading in the other order. */
  lemma SwapWords(bs: seq<nat>, big: bool)
    requires AreBytes(bs)
    ensures Swapped(WordsOf(bs, big)) == WordsOf(bs, !big)
  {
    hide Join4, Swap32;
    forall i | 0 <= i < |bs| / 4 ensures Swapped(WordsOf(bs, big))[i] == WordsOf(bs, !big)[i] {
      SwapJoin(bs[4 * i..4 * i + 4], big);
    }
  }

  // ------------------------------------------------------------------ the format

  const MAGIC := 0xeB9F
  const VERSION := 1
  const HDR_LEN := 24

  datatype Header = Header(magic: nat, version: nat, flags: nat, hdrLen: nat, typeOff: nat, typeLen: nat, strOff: nat, strLen: nat)

  function Split2(m: nat, big: bool): seq<nat> { if big then [m / 256 % 256, m % 256] else [m % 256, m / 256 % 256] }

  function Join2(s: seq<nat>, big: bool): nat
    requires |s| == 2
  {
    if big then s[0] * 256 + s[1] else s[1] * 256 + s[0]
  }

  function Swap16(m: nat): nat { m % 256 * 256 + m / 256 % 256 }

  function HeaderWords(h: Header): seq<nat> { [h.hdrLen, h.typeOff, h.typeLen, h.strOff, h.strLen] }

  function HeaderBytes(h: Header, big: bool): (s: seq<nat>)
    ensures |s| == HDR_LEN
  {
    Split2(h.magic, big) + [h.version, h.flags] + BytesOf(HeaderWords(h), big)
  }

  function ReadHeader(raw: seq<nat>, big: bool): Header
    requires |raw| >= HDR_LEN
  {
    var w := WordsOf(raw[4..HDR_LEN], big);
    Header(Join2(raw[..2], big), raw[2], raw[3], w[0], w[1], w[2], w[3], w[4])
  }

  predicate HeaderOk(h: Header) {
    h.magic < 0x1_0000 && h.version < 256 && h.flags < 256 && AreWords(HeaderWords(h))
  }

  lemma ReadsHeader(h: Header, big: bool, rest: seq<nat>)
    requires HeaderOk(h)
    ensures ReadHeader(HeaderBytes(h, big) + rest, big) == h
    ensures Join2((HeaderBytes(h, big) + rest)[..2], !big) == Swap16(h.magic)
  {
    hide BytesOf, WordsOf;
    var raw := HeaderBytes(h, big) + rest;
    assert raw[4..HDR_LEN] == BytesOf(HeaderWords(h), big);
    WordsBytes(HeaderWords(h), big);
    assert raw[..2] == Split2(h.magic, big);
  }

  /** btf_bswap_hdr */
  function SwapHeader(h: Header): Header {
    Header(Swap16(h.magic), h.version, h.flags, Swap32(h.hdrLen), Swap32(h.typeOff), Swap32(h.typeLen), Swap32(h.strOff), Swap32(h.strLen))
  }

  lemma SwapHeaderBytes(h: Header, big: bool)
    requires HeaderOk(h)
    ensures HeaderBytes(SwapHeader(h), big) == HeaderBytes(h, !big)
  {
    hide BytesOf, Swap32;
    SwapBytes(HeaderWords(h), big);
    assert HeaderWords(SwapHeader(h)) == Swapped(HeaderWords(h));
    assert Split2(Swap16(h.magic), big) == Split2(h.magic, !big);
  }

  lemma SwapReadHeader(raw: seq<nat>, big: bool)
    requires |raw| >= HDR_LEN && AreBytes(raw)
    ensures SwapHeader(ReadHeader(raw, big)) == ReadHeader(raw, !big)
  {
    hide Swap32, WordsOf, Swapped;
    SwapWords(raw[4..HDR_LEN], big);
    SwappedAt(WordsOf(raw[4..HDR_LEN], big));
    SwapJoin2(raw[..2], big);
  }

  lemma SwappedAt(ws: seq<nat>)
    ensures forall i :: 0 <= i < |ws| ==> Swapped(ws)[i] == Swap32(ws[i])
  {
  }

  lemma SwapJoin2(s: seq<nat>, big: bool)
    requires |s| == 2 && AreBytes(s)
    ensures Swap16(Join2(s, big)) == Join2(s, !big)
  {
    var lo, hi := if big then s[1] else s[0], if big then s[0] else s[1];
    LowByte(lo, hi);
    LowByte(hi, 0);
  }

  /** A BTF as bytes: header, types and strings, in one byte order. */
  ghost function Format(words: seq<nat>, strs: seq<nat>, big: bool): (s: seq<nat>)
    ensures |s| == HDR_LEN + 4 * |words| + |strs|
  {
    HeaderBytes(HeaderOf(words, strs), big) + BytesOf(words, big) + strs
  }

  function HeaderOf(words: seq<nat>, strs: seq<nat>): Header {
    Header(MAGIC, VERSION, 0, HDR_LEN, 0, 4 * |words|, 4 * |words|, |strs|)
  }
}
