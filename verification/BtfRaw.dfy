/** Writing a BTF out in either byte order, and parsing what was written, on a machine
    of either byte order. */
module BtfRaw {
  import opened BtfBuild
  import opened BtfFormat
  import opened BtfSection
  import opened BtfWords

  const ENOTSUP: int := 95

  // ------------------------------------------------------------ swapping in place

  /** The words with those from `at` on swapped. */
  ghost function WithSwapped(d: seq<nat>, at: nat, n: nat): (s: seq<nat>)
    requires at + n <= |d|
    ensures |s| == |d|
  {
    d[..at] + Swapped(d[at..at + n]) + d[at + n..]
  }

  /** btf_bswap_type_base */
  method SwapBase(a: array<nat>, at: nat)
    requires at + 3 <= a.Length
    modifies a
    ensures a[..] == WithSwapped(old(a[..]), at, 3)
  {
    hide Swap32;
    a[at] := Swap32(a[at]);
    a[at + 1] := Swap32(a[at + 1]);
    a[at + 2] := Swap32(a[at + 2]);
  }

  /** Swaps words one after another. */
  method SwapRun(a: array<nat>, at: nat, n: nat)
    requires at + n <= a.Length
    modifies a
    ensures a[..] == WithSwapped(old(a[..]), at, n)
  {
    hide Swap32;
    var i := 0;
    while i < n
      invariant 0 <= i <= n
      invariant forall k :: 0 <= k < a.Length ==> a[k] == if at <= k < at + i then Swap32(old(a[k])) else old(a[k])
    {
      a[at + i] := Swap32(a[at + i]);
      i := i + 1;
    }
  }

  /** btf_bswap_type_rest, for a record whose info word is in native order: all words
      after the first three. */
  method SwapRest(a: array<nat>, at: nat) returns (err: int)
    requires at + 3 <= a.Length && (SizeOf(a[at + 1]) >= 0 ==> at + SizeOf(a[at + 1]) <= a.Length)
    modifies a
    ensures err == (if old(SizeOf(a[at + 1])) < 0 then -EINVAL else 0)
    ensures var n := old(SizeOf(a[at + 1]));
      a[..] == if n < 0 then old(a[..]) else WithSwapped(old(a[..]), at + 3, n - 3)
  {
    hide Swap32;
    var kind, vlen := KindOf(a[at + 1]), VlenOf(a[at + 1]);
    if IsSingleRefKind(kind) || kind == KIND_FWD || kind == KIND_FLOAT {
      SwapRun(a, at + 3, 0);
    } else if kind == KIND_INT || kind == KIND_VAR || kind == KIND_DECL_TAG {
      SwapRun(a, at + 3, 1);
    } else if kind == KIND_ENUM || kind == KIND_FUNC_PROTO {
      SwapRun(a, at + 3, 2 * vlen);
    } else if IsCompositeKind(kind) || kind == KIND_ENUM64 || kind == KIND_DATASEC {
      SwapRun(a, at + 3, 3 * vlen);
    } else if kind == KIND_ARRAY {
      SwapRun(a, at + 3, 3);
    } else {
      return -EINVAL;
    }
    return 0;
  }

  // --------------------------------------------------------------------- writing

  lemma SwappedParts(s: seq<nat>, i: nat)
    requires i <= |s|
    ensures Swapped(s) == Swapped(s[..i]) + Swapped(s[i..])
  {
    hide Swap32;
  }

  /** One record of the copy: the words after the first three before these, because
      the former need the native info word. */
  method SwapRecord(a: array<nat>, at: nat)
    requires at + 3 <= a.Length && 3 <= SizeOf(a[at + 1]) && at + SizeOf(a[at + 1]) <= a.Length
    modifies a
    ensures a[..] == WithSwapped(old(a[..]), at, old(SizeOf(a[at + 1])))
  {
    hide Swap32, SizeOf, Swapped, WithSwapped;
    ghost var d, n := a[..], SizeOf(a[at + 1]);
    var err := SwapRest(a, at);
    ghost var half := a[..];
    SwapBase(a, at);
    RecordSwapped(d, half, a[..], at, n);
  }

  lemma RecordSwapped(d: seq<nat>, b: seq<nat>, c: seq<nat>, at: nat, n: nat)
    requires 3 <= n && at + n <= |d| && b == WithSwapped(d, at + 3, n - 3) && c == WithSwapped(b, at, 3)
    ensures c == WithSwapped(d, at, n)
  {
    hide Swapped;
    assert b[..at] == d[..at] && b[at..at + 3] == d[at..at + 3] && b[at + 3..] == Swapped(d[at + 3..at + n]) + d[at + n..];
    SwappedParts(d[at..at + n], 3);
    assert d[at..at + n][..3] == d[at..at + 3] && d[at..at + n][3..] == d[at + 3..at + n];
  }

  method SwapNext(a: array<nat>, at: nat, ghost d: seq<nat>)
    requires HalfSwapped(d, a[..], at) && at + 3 <= |d| && 3 <= SizeOf(d[at + 1]) && at + SizeOf(d[at + 1]) <= |d|
    modifies a
    ensures HalfSwapped(d, a[..], at + SizeOf(d[at + 1]))
  {
    hide SizeOf, Swapped, HalfSwapped, WithSwapped;
    ghost var before := a[..];
    InfoThere(d, before, at);
    SwapRecord(a, at);
    MoreSwapped(d, before, a[..], at, SizeOf(d[at + 1]));
  }

  /** The copy of the types, with every record swapped. */
  method SwapTypes(a: array<nat>, offs: seq<nat>)
    requires Tiles(a[..], offs)
    modifies a
    ensures a[..] == Swapped(old(a[..]))
  {
    hide Swap32, Tiles, SizeOf, Swapped, HalfSwapped, StartOf, WithSwapped;
    ghost var d := a[..];
    var i := 0;
    NoneSwapped(d);
    assert StartOf(d, offs, 0) == 0 by { AllStarts(d, offs); }
    while i < |offs|
      invariant 0 <= i <= |offs| && HalfSwapped(d, a[..], StartOf(d, offs, i))
    {
      NextStart(d, offs, i);
      SwapNext(a, offs[i], d);
      i := i + 1;
    }
    AllStarts(d, offs);
    AllSwapped(d, a[..]);
  }

  lemma NoneSwapped(d: seq<nat>)
    ensures HalfSwapped(d, d, 0)
  {
  }

  lemma AllSwapped(d: seq<nat>, a: seq<nat>)
    requires HalfSwapped(d, a, |d|)
    ensures a == Swapped(d)
  {
    hide Swapped;
    assert d[..|d|] == d;
  }

  /** The data before `at` is swapped, the rest is not. */
  ghost predicate HalfSwapped(d: seq<nat>, a: seq<nat>, at: nat) {
    at <= |d| && a == Swapped(d[..at]) + d[at..]
  }

  /** Where record `i` starts, or the data ends. */
  ghost function StartOf(d: seq<nat>, o: seq<nat>, i: nat): nat
    requires i <= |o|
  {
    if i < |o| then (if i == 0 then 0 else o[i]) else |d|
  }

  lemma InfoThere(d: seq<nat>, a: seq<nat>, at: nat)
    requires HalfSwapped(d, a, at) && at + 1 < |d|
    ensures |a| == |d| && a[at + 1] == d[at + 1]
  {
    hide Swap32;
  }

  lemma MoreSwapped(d: seq<nat>, a: seq<nat>, a': seq<nat>, at: nat, n: nat)
    requires HalfSwapped(d, a, at) && at + n <= |d| == |a| && a' == WithSwapped(a, at, n)
    ensures HalfSwapped(d, a', at + n)
  {
    hide Swap32, Swapped;
    assert a[at..at + n] == d[at..at + n] && a[at + n..] == d[at + n..] && a[..at] == Swapped(d[..at]);
    SwappedParts(d[..at + n], at);
    assert d[..at + n][..at] == d[..at] && d[..at + n][at..] == d[at..at + n];
  }

  lemma NextStart(d: seq<nat>, o: seq<nat>, i: nat)
    requires Tiles(d, o) && i < |o|
    ensures StartOf(d, o, i) == o[i] && o[i] + 3 <= |d| && 3 <= SizeOf(d[o[i] + 1])
    ensures StartOf(d, o, i + 1) == o[i] + SizeOf(d[o[i] + 1]) <= |d|
  {
    assert RecordFits(d, o, i);
  }

  lemma AllStarts(d: seq<nat>, o: seq<nat>)
    requires Tiles(d, o)
    ensures StartOf(d, o, 0) == 0 && StartOf(d, o, |o|) == |d|
  {
  }

  /** btf_get_raw_data on a machine of byte order `host`, for a BTF built from empty:
      swapping writes what a machine of the other order would write. */
  method RawData(b: Btf, host: bool, swap: bool) returns (raw: seq<nat>)
    requires b.Valid() && HDR_LEN + 4 * |b.words| + |b.strs| <= UINT_MAX
    ensures raw == Format(b.words, b.strs, host != swap)
  {
    hide HeaderBytes, BytesOf, Swap32, Tiles;
    var h := HeaderOf(b.words, b.strs);
    HeaderFits(b.words, b.strs);
    SwapHeaderBytes(h, host);
    SwapBytes(b.words, host);
    raw := HeaderBytes(if swap then SwapHeader(h) else h, host);
    var a := new nat[|b.words|](i requires 0 <= i < |b.words| reads b => b.words[i]);
    assert a[..] == b.words;
    if swap {
      SwapTypes(a, b.offs);
    }
    raw := raw + BytesOf(a[..], host);
    raw := raw + b.strs;
  }

  lemma HeaderFits(words: seq<nat>, strs: seq<nat>)
    requires 4 * |words| <= UINT_MAX && |strs| <= BTF_MAX_STR_OFFSET
    ensures HeaderOk(HeaderOf(words, strs))
  {
  }

  // --------------------------------------------------------------------- parsing

  predicate HeaderFitsIn(h: Header, size: nat) {
    && h.hdrLen <= size && h.strOff + h.strLen <= size - h.hdrLen
    && h.typeOff + h.typeLen <= h.strOff && h.typeOff % 4 == 0
  }

  /** The header reads right in one byte order, and describes what is there; a header
      of another length is taken only in the machine's own order. */
  predicate Accepts(raw: seq<nat>, big: bool, host: bool) {
    && |raw| >= HDR_LEN && ReadHeader(raw, big).magic == MAGIC && HeaderFitsIn(ReadHeader(raw, big), |raw|)
    && (big != host ==> ReadHeader(raw, big).hdrLen == HDR_LEN)
  }

  /** The strings, and the words of the types, that such a BTF holds. */
  function StringsIn(raw: seq<nat>, h: Header): seq<nat>
    requires HeaderFitsIn(h, |raw|)
  {
    raw[h.hdrLen + h.strOff..h.hdrLen + h.strOff + h.strLen]
  }

  function TypeWordsIn(raw: seq<nat>, h: Header, big: bool): seq<nat>
    requires HeaderFitsIn(h, |raw|)
  {
    WordsOf(raw[h.hdrLen + h.typeOff..h.hdrLen + h.typeOff + h.typeLen], big)
  }

  predicate StringsFit(strs: seq<nat>) {
    0 < |strs| <= BTF_MAX_STR_OFFSET + 1 && strs[|strs| - 1] == 0 && strs[0] == 0
  }

  /** A BTF in one byte order that a machine can parse. */
  ghost predicate Readable(raw: seq<nat>, big: bool, host: bool) {
    Accepts(raw, big, host) &&
    var h := ReadHeader(raw, big);
    StringsFit(StringsIn(raw, h)) && h.typeLen % 4 == 0 && HasIndex(TypeWordsIn(raw, h, big))
  }

  ghost predicate HasIndex(d: seq<nat>) { exists o :: Tiles(d, o) }

  datatype Parsed = Parsed(words: seq<nat>, offs: seq<nat>, strs: seq<nat>, swappedEndian: bool) | Failed(err: int)

  lemma MagicOnce(raw: seq<nat>, big: bool)
    requires |raw| >= HDR_LEN && AreBytes(raw)
    ensures ReadHeader(raw, big).magic == MAGIC ==> ReadHeader(raw, !big).magic != MAGIC
    ensures ReadHeader(raw, big).magic == Swap16(MAGIC) <==> ReadHeader(raw, !big).magic == MAGIC
  {
    hide ReadHeader, Join2, Swap16;
    MagicIs(raw, big);
    MagicIs(raw, !big);
    MagicPair(raw[..2], big);
  }

  lemma MagicIs(raw: seq<nat>, big: bool)
    requires |raw| >= HDR_LEN
    ensures ReadHeader(raw, big).magic == Join2(raw[..2], big)
  {
    hide WordsOf, Join2;
  }

  lemma MagicPair(s: seq<nat>, big: bool)
    requires |s| == 2 && AreBytes(s)
    ensures Join2(s, big) == MAGIC ==> Join2(s, !big) != MAGIC
    ensures Join2(s, big) == Swap16(MAGIC) <==> Join2(s, !big) == MAGIC
  {
    hide Swap16;
    SwappedMagic();
  }

  lemma SwappedMagic()
    ensures Swap16(MAGIC) == 0x9Feb
  {
  }

  /** btf_parse_hdr */
  method ParseHeader(raw: seq<nat>, host: bool) returns (err: int, h: Header, swapped: bool)
    requires AreBytes(raw)
    ensures err == 0 <==> Accepts(raw, host, host) || Accepts(raw, !host, host)
    ensures err == 0 ==> Accepts(raw, host != swapped, host) && !Accepts(raw, host == swapped, host) && h == ReadHeader(raw, host != swapped)
    ensures err == 0 || err == -EINVAL || err == -ENOTSUP
    ensures err == -ENOTSUP <==>
      |raw| >= HDR_LEN && ReadHeader(raw, !host).magic == MAGIC && ReadHeader(raw, !host).hdrLen != HDR_LEN
  {
    hide ReadHeader, SwapHeader, Swap32;
    h, swapped := Header(0, 0, 0, 0, 0, 0, 0, 0), false;
    if |raw| < HDR_LEN {
      return -EINVAL, h, swapped;
    }
    h := ReadHeader(raw, host);
    MagicOnce(raw, host);
    SwapReadHeader(raw, host);
    SwappedLen(h);
    if h.magic == Swap16(MAGIC) {
      swapped := true;
      if Swap32(h.hdrLen) != HDR_LEN {
        return -ENOTSUP, h, swapped;
      }
      h := SwapHeader(h);
    } else if h.magic != MAGIC {
      return -EINVAL, h, swapped;
    }
    if |raw| < h.hdrLen || |raw| - h.hdrLen < h.strOff + h.strLen || h.typeOff + h.typeLen > h.strOff || h.typeOff % 4 != 0 {
      return -EINVAL, h, swapped;
    }
    return 0, h, swapped;
  }

  lemma SwappedLen(h: Header)
    ensures SwapHeader(h).hdrLen == Swap32(h.hdrLen)
  {
  }

  // --------------------------------------------------------- parsing the types

  /** Every index of the data begins with the offsets found, and `next` is where the
      next record starts or the data ends. */
  ghost predicate Walked(d: seq<nat>, found: seq<nat>, next: nat) {
    && next <= |d| && Tiles(d[..next], found)
    && forall o :: Tiles(d, o) ==>
         |found| <= |o| && found == o[..|found|] && (if |found| < |o| then o[|found|] == next else next == |d|)
  }

  lemma WalkStarts(d: seq<nat>)
    ensures Walked(d, [], 0)
  {
    forall o | Tiles(d, o) ensures if 0 < |o| then o[0] == 0 else 0 == |d| {}
  }

  lemma WalkEnds(d: seq<nat>, found: seq<nat>, next: nat)
    requires Walked(d, found, next)
    ensures next == |d| ==> Tiles(d, found)
    ensures next != |d| && next + 3 > |d| ==> !HasIndex(d)
    ensures next + 3 <= |d| && (SizeOf(d[next + 1]) < 0 || next + SizeOf(d[next + 1]) > |d|) ==> !HasIndex(d)
  {
    hide SizeOf;
    assert d[..|d|] == d;
    if next != |d| {
      forall o | Tiles(d, o) ensures next + 3 <= |d| && SizeOf(d[next + 1]) >= 0 && next + SizeOf(d[next + 1]) <= |d| {
        assert RecordFits(d, o, |found|);
      }
    }
  }

  lemma WalkOn(d: seq<nat>, found: seq<nat>, next: nat)
    requires Walked(d, found, next) && next + 3 <= |d| && SizeOf(d[next + 1]) >= 0 && next + SizeOf(d[next + 1]) <= |d|
    ensures SizeOf(d[next + 1]) >= 3 && Walked(d, found + [next], next + SizeOf(d[next + 1]))
  {
    hide SizeOf, Tiles, RecordFits;
    var n := SizeOf(d[next + 1]);
    SizeAtLeast(d[next + 1]);
    OneMoreRecord(d, found, next, n);
    forall o | Tiles(d, o)
      ensures |found| < |o| && found + [next] == o[..|found| + 1]
      ensures if |found| + 1 < |o| then o[|found| + 1] == next + n else next + n == |d|
    {
      FitsAt(d, o, |found|);
    }
  }

  lemma FitsAt(d: seq<nat>, o: seq<nat>, i: nat)
    requires Tiles(d, o) && i < |o|
    ensures o[i] + 3 <= |d| && o[i] + SizeOf(d[o[i] + 1]) == if i + 1 < |o| then o[i + 1] else |d|
  {
    assert RecordFits(d, o, i);
  }

  lemma OneMoreRecord(d: seq<nat>, found: seq<nat>, next: nat, n: nat)
    requires 3 <= n && next + n <= |d| && Tiles(d[..next], found) && n == SizeOf(d[next + 1])
    ensures Tiles(d[..next + n], found + [next])
  {
    hide SizeOf;
    TilesAppend(d[..next], found, d[next..next + n]);
    assert d[..next] + d[next..next + n] == d[..next + n];
  }

  /** btf_parse_type_sec: builds the index, swapping the records on the way; succeeds
      exactly if there is an index. */
  method ParseTypes(a: array<nat>, len: nat, swapped: bool) returns (err: int, offs: seq<nat>)
    requires a.Length == len / 4
    modifies a
    ensures err == 0 || err == -EINVAL
    ensures var d := if swapped then Swapped(old(a[..])) else old(a[..]);
      && (err == 0 <==> len % 4 == 0 && HasIndex(d))
      && (err == 0 ==> a[..] == d && Tiles(d, offs))
  {
    hide Walked, SizeOf, Tiles, Swapped, Swap32, HalfSwapped, HasIndex;
    ghost var e := a[..];
    ghost var d := if swapped then Swapped(e) else e;
    offs := [];
    var next := 0;
    WalkStarts(d);
    NoneSwapped(e);
    while next + 3 <= len / 4
      invariant Walked(d, offs, next) && next <= |d| == |e| == len / 4
      invariant if swapped then HalfSwapped(e, a[..], next) else a[..] == e
      decreases |d| - next
    {
      WalkEnds(d, offs, next);
      var size := ParseType(a, next, swapped, e);
      if size < 0 {
        return size, offs;
      }
      WalkOn(d, offs, next);
      offs := offs + [next];
      next := next + size;
    }
    WalkEnds(d, offs, next);
    if 4 * next != len {
      return -EINVAL, offs;
    }
    if swapped { AllSwapped(e, a[..]); }
    IndexIs(d, offs);
    return 0, offs;
  }

  /** One record: its size, with its words swapped if the section is. */
  method ParseType(a: array<nat>, next: nat, swapped: bool, ghost e: seq<nat>) returns (size: int)
    requires next + 3 <= a.Length == |e| && if swapped then HalfSwapped(e, a[..], next) else a[..] == e
    modifies a
    ensures var d := if swapped then Swapped(e) else e;
      var n := SizeOf(d[next + 1]);
      if n < 0 || next + n > |e| then size == -EINVAL
      else size == n && if swapped then HalfSwapped(e, a[..], next + n) else a[..] == e
  {
    hide SizeOf, Swapped, Swap32, WithSwapped;
    ghost var before := a[..];
    if swapped {
      SwapBase(a, next);
      BaseSwapped(e, before, a[..], next);
    }
    size := SizeOf(a[next + 1]);
    if size < 0 || next + size > a.Length {
      return -EINVAL;
    }
    SizeAtLeast(a[next + 1]);
    if swapped {
      ghost var half := a[..];
      var err := SwapRest(a, next);
      RestSwapped(e, before, half, a[..], next, size);
    }
  }

  lemma SizeAtLeast(info: nat)
    ensures SizeOf(info) < 0 ==> SizeOf(info) == -EINVAL
    ensures SizeOf(info) >= 0 ==> SizeOf(info) >= 3
  {
  }

  lemma BaseSwapped(e: seq<nat>, a: seq<nat>, b: seq<nat>, next: nat)
    requires HalfSwapped(e, a, next) && next + 3 <= |e| == |a| && b == WithSwapped(a, next, 3)
    ensures b[next + 1] == Swapped(e)[next + 1]
  {
    hide Swap32;
  }

  lemma RestSwapped(e: seq<nat>, a: seq<nat>, b: seq<nat>, c: seq<nat>, next: nat, n: nat)
    requires HalfSwapped(e, a, next) && 3 <= n && next + n <= |e| == |a|
    requires b == WithSwapped(a, next, 3) && c == WithSwapped(b, next + 3, n - 3)
    ensures HalfSwapped(e, c, next + n)
  {
    hide Swapped;
    assert b[next + 3..next + n] == a[next + 3..next + n] && b[next + n..] == a[next + n..] && b[..next + 3] == a[..next] + Swapped(a[next..next + 3]);
    SwappedParts(a[next..next + n], 3);
    assert a[next..next + n][..3] == a[next..next + 3] && a[next..next + n][3..] == a[next + 3..next + n];
    assert c == WithSwapped(a, next, n);
    MoreSwapped(e, a, c, next, n);
  }

  // -------------------------------------------------------------------- the whole

  /** btf_new on a machine of byte order `host`, without a base BTF: parses exactly what
      is well formed in its own or the other order. */
  method New(raw: seq<nat>, host: bool) returns (r: Parsed)
    requires AreBytes(raw)
    ensures r.Parsed? <==> Readable(raw, host, host) || Readable(raw, !host, host)
    ensures r.Parsed? ==>
      var big := host != r.swappedEndian;
      && Readable(raw, big, host) && r.words == TypeWordsIn(raw, ReadHeader(raw, big), big) && Tiles(r.words, r.offs)
      && r.strs == StringsIn(raw, ReadHeader(raw, big))
  {
    hide ReadHeader, WordsOf, HasIndex, Tiles, Swapped, HeaderFitsIn, Accepts;
    var err, h, swapped := ParseHeader(raw, host);
    if err != 0 {
      return Failed(err);
    }
    AcceptedFits(raw, host != swapped, host);
    var strs := StringsIn(raw, h);
    if !StringsFit(strs) {
      return Failed(-EINVAL);
    }
    var d := TypeWordsIn(raw, h, host);
    OtherOrder(raw, h, host);
    var a := new nat[|d|](i requires 0 <= i < |d| => d[i]);
    assert a[..] == d;
    var offs;
    err, offs := ParseTypes(a, h.typeLen, swapped);
    if err != 0 {
      return Failed(err);
    }
    r := Parsed(a[..], offs, strs, swapped);
    IndexIs(r.words, offs);
  }

  lemma AcceptedFits(raw: seq<nat>, big: bool, host: bool)
    requires Accepts(raw, big, host)
    ensures |raw| >= HDR_LEN && HeaderFitsIn(ReadHeader(raw, big), |raw|)
  {
  }

  lemma IndexIs(d: seq<nat>, o: seq<nat>)
    requires Tiles(d, o)
    ensures HasIndex(d)
  {
  }

  lemma OtherOrder(raw: seq<nat>, h: Header, host: bool)
    requires HeaderFitsIn(h, |raw|) && AreBytes(raw)
    ensures Swapped(TypeWordsIn(raw, h, host)) == TypeWordsIn(raw, h, !host)
    ensures |TypeWordsIn(raw, h, host)| == h.typeLen / 4
  {
    hide WordsOf;
    SwapWords(raw[h.hdrLen + h.typeOff..h.hdrLen + h.typeOff + h.typeLen], host);
  }

  /** What was written in either order is parsed on a machine of either order, and
      holds the words, index and strings that it was written from. */
  lemma FormatReadable(words: seq<nat>, offs: seq<nat>, strs: seq<nat>, big: bool, host: bool)
    requires Tiles(words, offs) && AreWords(words) && 4 * |words| <= UINT_MAX && StringsOk(strs)
    ensures var raw := Format(words, strs, big);
      && AreBytes(raw) && Readable(raw, big, host) && !Readable(raw, !big, host)
      && TypeWordsIn(raw, ReadHeader(raw, big), big) == words && StringsIn(raw, ReadHeader(raw, big)) == strs
  {
    hide HeaderBytes, BytesOf, WordsOf, Tiles, ReadHeader, Readable, Format, TypeWordsIn, StringsIn;
    var raw, h := Format(words, strs, big), HeaderOf(words, strs);
    FormatBytes(words, strs, big);
    FormatParts(words, strs, big);
    WordsBytes(words, big);
    IndexIs(words, offs);
    MagicOnce(raw, big);
    ReadableIs(raw, h, words, strs, big, host);
  }

  /** The parts of what was written. */
  lemma FormatParts(words: seq<nat>, strs: seq<nat>, big: bool)
    requires 4 * |words| <= UINT_MAX && StringsOk(strs)
    ensures var raw, h := Format(words, strs, big), HeaderOf(words, strs);
      && ReadHeader(raw, big) == h && HeaderFitsIn(h, |raw|)
      && raw[HDR_LEN..HDR_LEN + 4 * |words|] == BytesOf(words, big) && raw[HDR_LEN + 4 * |words|..] == strs
  {
    hide HeaderBytes, BytesOf, ReadHeader;
    HeaderFits(words, strs);
    ReadsHeader(HeaderOf(words, strs), big, BytesOf(words, big) + strs);
    assert Format(words, strs, big) == HeaderBytes(HeaderOf(words, strs), big) + (BytesOf(words, big) + strs);
  }

  lemma ReadableIs(raw: seq<nat>, h: Header, words: seq<nat>, strs: seq<nat>, big: bool, host: bool)
    requires |raw| >= HDR_LEN && h == HeaderOf(words, strs) == ReadHeader(raw, big) && HeaderFitsIn(h, |raw|)
    requires WordsOf(raw[HDR_LEN..HDR_LEN + 4 * |words|], big) == words && HasIndex(words)
    requires raw[HDR_LEN + 4 * |words|..] == strs && StringsOk(strs) && ReadHeader(raw, !big).magic != MAGIC
    ensures Readable(raw, big, host) && !Readable(raw, !big, host)
    ensures TypeWordsIn(raw, h, big) == words && StringsIn(raw, h) == strs
  {
    hide WordsOf, ReadHeader, HasIndex;
    assert |raw| == HDR_LEN + 4 * |words| + |strs|;
    assert StringsIn(raw, h) == raw[HDR_LEN + 4 * |words|..];
    assert TypeWordsIn(raw, h, big) == words;
    assert Accepts(raw, big, host);
  }

  lemma FormatBytes(words: seq<nat>, strs: seq<nat>, big: bool)
    requires AreBytes(strs)
    ensures AreBytes(Format(words, strs, big))
  {
    hide Split4, Split2;
    AllBytes(words, big);
    AllBytes(HeaderWords(HeaderOf(words, strs)), big);
    TwoBytes(MAGIC, big);
  }

  lemma TwoBytes(m: nat, big: bool)
    ensures |Split2(m, big)| == 2 && AreBytes(Split2(m, big))
  {
  }

  lemma {:induction false} AllBytes(ws: seq<nat>, big: bool)
    ensures AreBytes(BytesOf(ws, big))
    decreases |ws|
  {
    if ws != [] { AllBytes(ws[..|ws| - 1], big); }
  }

  /** The round trip: written by one machine in either order, read by any other. */
  method WriteAndParse(b: Btf, writer: bool, swap: bool, reader: bool) returns (r: Parsed)
    requires b.Valid() && HDR_LEN + 4 * |b.words| + |b.strs| <= UINT_MAX
    ensures r == Parsed(b.words, b.offs, b.strs, (writer != swap) != reader)
  {
    hide Tiles, Readable, Format, TypeWordsIn, StringsIn, ReadHeader;
    var raw := RawData(b, writer, swap);
    FormatReadable(b.words, b.offs, b.strs, writer != swap, reader);
    r := New(raw, reader);
    TilesUnique(b.words, b.offs, r.offs);
  }
}
