/** The authentication option of an IPv4 header: checksum, insertion into a frame, and
    the reconstruction of the header without it. */
module IpOption {

  type Byte = b: nat | b < 256
  type Bytes = seq<Byte>

  const ETH := 14       // Ethernet header
  const IP := 20        // IPv4 header without options
  const OPT_ID := 25
  const OPT_LEN := 36

  // ------------------------------------------------------------------ the checksum

  /** The 16-bit word at a place, as a machine of either byte order reads it. */
  function WordAt(h: Bytes, i: nat, big: bool): (w: nat)
    requires 2 * i + 1 < |h|
    ensures w < 0x1_0000
  {
    var x: nat, y: nat := h[2 * i], h[2 * i + 1];
    if big then x * 256 + y else y * 256 + x
  }

  /** The sum of the first `n` words. */
  function Sum(h: Bytes, n: nat, big: bool): (s: nat)
    requires 2 * n <= |h|
    ensures s <= n * 0xffff
  {
    if n == 0 then 0 else Sum(h, n - 1, big) + WordAt(h, n - 1, big)
  }

  /** The sum of all words, and of a byte that is left over. */
  function SumOf(h: Bytes, big: bool): nat {
    Sum(h, |h| / 2, big) + if |h| % 2 == 1 then h[|h| - 1] else 0
  }

  /** The 16-bit one's complement sum that a larger sum stands for. */
  function Fold(x: nat): (f: nat)
    ensures f < 0x1_0000
  {
    if x < 0x1_0000 then x else Fold(x % 0x1_0000 + x / 0x1_0000)
  }

  /** Folding keeps the remainder modulo 65535, and gives 0 for 0 only. */
  lemma {:induction false} FoldKeeps(x: nat)
    ensures Fold(x) % 0xffff == x % 0xffff && (Fold(x) == 0 <==> x == 0)
    decreases x
  {
    if x >= 0x1_0000 {
      FoldKeeps(x % 0x1_0000 + x / 0x1_0000);
      Congruent(x, x % 0x1_0000 + x / 0x1_0000, x / 0x1_0000);
    }
  }

  lemma Congruent(x: nat, y: nat, k: nat)
    requires x == y + 0xffff * k
    ensures x % 0xffff == y % 0xffff
  {
    var q, r := y / 0xffff, y % 0xffff;
    assert x == (q + k) * 0xffff + r;
  }

  /** A sum folds to all ones exactly if it is a multiple of 65535 and not 0. */
  lemma FoldsToOnes(x: nat)
    ensures Fold(x) == 0xffff <==> x > 0 && x % 0xffff == 0
  {
    FoldKeeps(x);
  }

  /** The checksum of a header whose checksum field is 0. */
  ghost function ChecksumOf(h: Bytes, big: bool): (c: nat)
    ensures c < 0x1_0000
  {
    0xffff - Fold(SumOf(h, big))
  }

  /** calculate_ip_checksum, on a machine of either byte order; the sum does not leave 32 bits. */
  method Checksum(h: Bytes, big: bool) returns (c: nat)
    requires |h| <= 0x1_0000
    ensures c == ChecksumOf(h, big)
  {
    var sum: nat := 0;
    var i := 0;
    while i < |h| / 2
      invariant 0 <= i <= |h| / 2 && sum == Sum(h, i, big)
    {
      sum := sum + WordAt(h, i, big);
      i := i + 1;
    }
    if |h| % 2 == 1 {
      sum := sum + h[|h| - 1];
    }
    assert sum < 0x1_0000_0000;
    ghost var total := sum;
    while sum >= 0x1_0000
      invariant Fold(sum) == Fold(total)
    {
      sum := sum % 0x1_0000 + sum / 0x1_0000;
    }
    c := 0xffff - sum;
  }

  /** A word as bytes. */
  function Split(w: nat, big: bool): (s: Bytes)
    requires w < 0x1_0000
    ensures |s| == 2
  {
    if big then [w / 256, w % 256] else [w % 256, w / 256]
  }

  function WithWord(h: Bytes, i: nat, w: nat, big: bool): (r: Bytes)
    requires 2 * i + 1 < |h| && w < 0x1_0000
    ensures |r| == |h|
  {
    h[..2 * i] + Split(w, big) + h[2 * i + 2..]
  }

  lemma WordSet(h: Bytes, i: nat, w: nat, big: bool, j: nat)
    requires 2 * i + 1 < |h| && w < 0x1_0000 && 2 * j + 1 < |h|
    ensures WordAt(WithWord(h, i, w, big), j, big) == if i == j then w else WordAt(h, j, big)
  {
  }

  /** Setting a word that was 0 adds it to the sum. */
  lemma {:induction false} SumSet(h: Bytes, i: nat, w: nat, big: bool, n: nat)
    requires 2 * i + 1 < |h| && w < 0x1_0000 && 2 * n <= |h| && WordAt(h, i, big) == 0
    ensures Sum(WithWord(h, i, w, big), n, big) == Sum(h, n, big) + if i < n then w else 0
    decreases n
  {
    hide WordAt, WithWord;
    if n > 0 {
      SumSet(h, i, w, big, n - 1);
      WordSet(h, i, w, big, n - 1);
    }
  }

  /** Read in the other byte order, the sum is 256 times as large modulo 65535. */
  lemma {:induction false} OtherOrder(h: Bytes, n: nat, big: bool)
    requires 2 * n <= |h|
    ensures Sum(h, n, !big) % 0xffff == 256 * Sum(h, n, big) % 0xffff && (Sum(h, n, !big) == 0 <==> Sum(h, n, big) == 0)
    decreases n
  {
    if n > 0 {
      OtherOrder(h, n - 1, big);
      var x: nat, y: nat := h[2 * n - 2], h[2 * n - 1];
      var s, s', w, w' := Sum(h, n - 1, big), Sum(h, n - 1, !big), WordAt(h, n - 1, big), WordAt(h, n - 1, !big);
      assert 256 * w == w' + 0xffff * (if big then x else y);
      AddCongruent(256 * s, s', 256 * w, w', if big then x else y);
    }
  }

  lemma AddCongruent(a: nat, a': nat, b: nat, b': nat, k: nat)
    requires a % 0xffff == a' % 0xffff && b == b' + 0xffff * k
    ensures (a + b) % 0xffff == (a' + b') % 0xffff
  {
    var q, q', r := a / 0xffff, a' / 0xffff, a % 0xffff;
    assert a + b == (q + k) * 0xffff + (r + b') && a' + b' == q' * 0xffff + (r + b');
    Congruent(a + b, r + b', q + k);
    Congruent(a' + b', r + b', q');
  }

  /** The header with its checksum sums to all ones, whatever the byte order of the
      machine that checks it (RFC 1071, sections 1 and 2). */
  lemma ChecksumValid(h: Bytes, i: nat, big: bool, order: bool)
    requires |h| % 2 == 0 && 2 * i + 1 < |h| && WordAt(h, i, big) == 0
    ensures Fold(SumOf(WithWord(h, i, ChecksumOf(h, big), big), order)) == 0xffff
  {
    hide Fold, Sum, WordAt, WithWord;
    var n, s := |h| / 2, Sum(h, |h| / 2, big);
    var c := ChecksumOf(h, big);
    var h' := WithWord(h, i, c, big);
    SumSet(h, i, c, big, n);
    FoldKeeps(s);
    OnesComplement(s, Fold(s));
    OtherOrder(h', n, big);
    Scaled(s + c);
    FoldsToOnes(Sum(h', n, order));
  }

  lemma OnesComplement(s: nat, f: nat)
    requires f <= 0xffff && f % 0xffff == s % 0xffff && (f == 0 <==> s == 0)
    ensures s + (0xffff - f) > 0 && (s + (0xffff - f)) % 0xffff == 0
  {
    var q, p := s / 0xffff, f / 0xffff;
    assert s + (0xffff - f) == (q + 1 - p) * 0xffff;
  }

  lemma Scaled(x: nat)
    requires x % 0xffff == 0
    ensures 256 * x % 0xffff == 0
  {
    var k := x / 0xffff;
    assert x == k * 0xffff;
    Congruent(256 * x, 0, 256 * k);
  }

  // ---------------------------------------------------------------------- insertion

  /** A big-endian 16-bit field. */
  function Field(h: Bytes, i: nat): nat
    requires 2 * i + 1 < |h|
  {
    WordAt(h, i, true)
  }

  /** The first byte with another header length, in words. */
  function WithIhl(b: Byte, ihl: nat): Byte
    requires ihl < 16
  {
    b / 16 * 16 + ihl
  }

  function Ihl(b: Byte): nat { b % 16 }

  function HashOption(hash: Bytes): (o: Bytes)
    ensures |o| == 4 + |hash|
  {
    [OPT_ID, OPT_LEN, 0x12, 0x34] + hash
  }

  /** The new header, before its checksum is set. */
  function NewHeader(ip: Bytes, hash: Bytes): (h: Bytes)
    requires |ip| == IP && |hash| == 32
    ensures |h| == IP + OPT_LEN
  {
    [WithIhl(ip[0], (IP + OPT_LEN) / 4), ip[1]] + Split((Field(ip, 1) + OPT_LEN) % 0x1_0000, true) + ip[4..10] + [0, 0] + ip[12..] +
    HashOption(hash)
  }

  /** The frame with the option in its IP header. */
  ghost function Tagged(frame: Bytes, hash: Bytes, big: bool): Bytes
    requires |frame| >= ETH + IP && |hash| == 32
  {
    var h := NewHeader(frame[ETH..ETH + IP], hash);
    frame[..ETH] + WithWord(h, 5, ChecksumOf(h, big), big) + frame[ETH + IP..]
  }

  /** bpf_xdp_adjust_head: room in front, of which the content is left open. */
  method AdjustHead(p: array<Byte>, room: Bytes) returns (q: array<Byte>)
    ensures fresh(q) && q[..] == room + p[..]
  {
    q := new Byte[|room| + p.Length](i requires 0 <= i < |room| + p.Length reads p => if i < |room| then room[i] else p[i - |room|]);
    assert q[|room|..] == p[..] && q[..|room|] == room;
  }

  ghost function Placed(a: Bytes, at: nat, s: Bytes): (b: Bytes)
    requires at + |s| <= |a|
    ensures |b| == |a| && forall k :: 0 <= k < |a| ==> b[k] == if at <= k < at + |s| then s[k - at] else a[k]
  {
    a[..at] + s + a[at + |s|..]
  }

  /** Copies bytes into place. */
  method Put(a: array<Byte>, at: nat, s: Bytes)
    requires at + |s| <= a.Length
    modifies a
    ensures a[..] == Placed(old(a[..]), at, s)
  {
    var i := 0;
    while i < |s|
      invariant 0 <= i <= |s|
      invariant forall k :: 0 <= k < a.Length ==> a[k] == if at <= k < at + i then s[k - at] else old(a[k])
    {
      a[at + i] := s[i];
      i := i + 1;
    }
  }

  /** add_ip_option_hash; null stands for -1. */
  method AddIpOption(p: array<Byte>, hash: Bytes, room: Bytes, big: bool) returns (q: array?<Byte>)
    requires |hash| == 32 && |room| == OPT_LEN
    ensures q == null <==> p.Length < ETH + IP
    ensures q != null ==> fresh(q) && q[..] == Tagged(p[..], hash, big)
  {
    hide WordAt, Split, WithIhl, WithWord, ChecksumOf, Placed, NewHeader, HashOption;
    if p.Length < ETH + IP {
      return null;
    }
    ghost var frame := p[..];
    var copy := p[..ETH + IP];
    q := AdjustHead(p, room);
    var first, length := WithIhl(copy[ETH], (IP + OPT_LEN) / 4), (Field(copy[ETH..], 1) + OPT_LEN) % 0x1_0000;
    var h := WriteHeader(q, copy, first, length, hash);
    HeaderWritten(frame, room, copy, first, length, hash);
    var c := Checksum(h, big);
    Put(q, ETH + 10, Split(c, big));
    CheckPut(frame[..ETH], h, frame[ETH + IP..], c, big);
  }

  /** The bytes of frame and option put in place, and the new header read back. */
  method WriteHeader(q: array<Byte>, copy: Bytes, first: Byte, length: nat, hash: Bytes) returns (h: Bytes)
    requires |copy| == ETH + IP && q.Length >= |copy| + OPT_LEN && length < 0x1_0000 && |hash| == 32
    modifies q
    ensures q[..] == Written(old(q[..]), copy, first, length, hash)
    ensures h == q[ETH..ETH + IP + OPT_LEN]
  {
    hide Split, Placed, HashOption;
    Put(q, 0, copy);
    Put(q, ETH, [first]);
    Put(q, ETH + 2, Split(length, true));
    Put(q, ETH + 10, [0, 0]);
    Put(q, ETH + IP, HashOption(hash));
    h := q[ETH..ETH + IP + OPT_LEN];
  }

  ghost function Written(q: Bytes, copy: Bytes, first: Byte, length: nat, hash: Bytes): (b: Bytes)
    requires |copy| == ETH + IP && |q| >= |copy| + OPT_LEN && length < 0x1_0000 && |hash| == 32
    ensures |b| == |q|
  {
    Placed(Placed(Placed(Placed(Placed(q, 0, copy), ETH, [first]), ETH + 2, Split(length, true)), ETH + 10, [0, 0]), ETH + IP, HashOption(hash))
  }

  lemma HeaderWritten(frame: Bytes, room: Bytes, copy: Bytes, first: Byte, length: nat, hash: Bytes)
    requires |frame| >= ETH + IP && |room| == OPT_LEN && copy == frame[..ETH + IP] && |hash| == 32
    requires first == WithIhl(copy[ETH], (IP + OPT_LEN) / 4) && length == (Field(copy[ETH..], 1) + OPT_LEN) % 0x1_0000
    ensures Written(room + frame, copy, first, length, hash) ==
            frame[..ETH] + NewHeader(frame[ETH..ETH + IP], hash) + frame[ETH + IP..]
  {
    hide WordAt, Split, WithIhl, Placed;
    assert copy[ETH..] == frame[ETH..ETH + IP];
    var w, t := Written(room + frame, copy, first, length, hash), frame[..ETH] + NewHeader(frame[ETH..ETH + IP], hash) + frame[ETH + IP..];
    assert |w| == |t|;
    assert forall k :: 0 <= k < |w| ==> w[k] == t[k];
  }

  lemma CheckPut(front: Bytes, h: Bytes, rest: Bytes, c: nat, big: bool)
    requires |front| == ETH && |h| == IP + OPT_LEN && c < 0x1_0000
    ensures var q := front + h + rest;
      q[ETH..ETH + IP + OPT_LEN] == h && Placed(q, ETH + 10, Split(c, big)) == front + WithWord(h, 5, c, big) + rest
  {
    hide Split;
  }

  /** The header that is sent is valid for every receiver. */
  lemma TaggedValid(frame: Bytes, hash: Bytes, big: bool, order: bool)
    requires |frame| >= ETH + IP && |hash| == 32
    ensures var h := Tagged(frame, hash, big)[ETH..ETH + IP + OPT_LEN];
      Ihl(h[0]) * 4 == |h| && Fold(SumOf(h, order)) == 0xffff
  {
    hide Fold, SumOf, ChecksumOf;
    var h0 := NewHeader(frame[ETH..ETH + IP], hash);
    ChecksumValid(h0, 5, big, order);
    assert Tagged(frame, hash, big)[ETH..ETH + IP + OPT_LEN] == WithWord(h0, 5, ChecksumOf(h0, big), big);
  }

  // ------------------------------------------------------------------ reconstruction

  /** The hash option stands at place `i` of the options. */
  predicate OptionAt(o: Bytes, i: nat) {
    i + 1 < |o| && o[i] == OPT_ID && o[i + 1] == OPT_LEN && i + OPT_LEN <= |o|
  }

  function Next(o: Bytes, i: nat): (n: nat)
    requires i + 1 < |o|
    ensures n > i
  {
    i + if o[i + 1] == 0 then 1 else o[i + 1]
  }

  datatype Place = At(i: nat) | Nowhere

  /** Where the first search finds the option: it knows the one-byte options. */
  function Search(o: Bytes, i: nat): (r: Place)
    ensures r.At? ==> OptionAt(o, r.i)
    decreases |o| - i
  {
    if i >= |o| || o[i] == 0 then Nowhere
    else if o[i] == 1 then Search(o, i + 1)
    else if OptionAt(o, i) then At(i)
    else if i + 1 >= |o| then Nowhere
    else Search(o, Next(o, i))
  }

  /** Where the second search, that removes the option, finds it: it does not. */
  function SearchAgain(o: Bytes, i: nat): (r: Place)
    ensures r.At? ==> OptionAt(o, r.i)
    decreases |o| - i
  {
    if i >= |o| then Nowhere
    else if OptionAt(o, i) then At(i)
    else if i + 1 >= |o| then Nowhere
    else SearchAgain(o, Next(o, i))
  }

  /** How far the option at a place reaches: one byte for a no-operation, else as its
      length byte says, which the program takes for at least 1. */
  function Reach(o: Bytes, i: nat): (n: nat)
    requires i < |o| && (o[i] == 1 || i + 1 < |o|)
    ensures n > i
  {
    if o[i] == 1 then i + 1 else Next(o, i)
  }

  /** The options go on at this place: it is no end of options, and its length is there. */
  predicate GoesOn(o: Bytes, i: nat) {
    i < |o| && o[i] != 0 && (o[i] == 1 || i + 1 < |o|)
  }

  /** Places of consecutive options, from the first one on. */
  ghost predicate Walk(o: Bytes, ps: seq<nat>) {
    0 < |ps| && ps[0] == 0 && forall k :: 0 <= k < |ps| - 1 ==> Follows(o, ps, k)
  }

  ghost predicate Follows(o: Bytes, ps: seq<nat>, k: nat)
    requires k < |ps| - 1
  {
    GoesOn(o, ps[k]) && ps[k + 1] == Reach(o, ps[k])
  }

  /** The walk ends at the first hash option. */
  ghost predicate Leads(o: Bytes, ps: seq<nat>, i: nat) {
    Walk(o, ps) && ps[|ps| - 1] == i && OptionAt(o, i) && forall k :: 0 <= k < |ps| - 1 ==> !OptionAt(o, ps[k])
  }

  /** What the first search finds, from a place that a walk has reached without meeting
      a hash option. */
  lemma {:induction false} SearchLeads(o: Bytes, ps: seq<nat>, i: nat) returns (qs: seq<nat>)
    requires Walk(o, ps) && ps[|ps| - 1] == i && forall k :: 0 <= k < |ps| - 1 ==> !OptionAt(o, ps[k])
    ensures Search(o, i).At? ==> Leads(o, qs, Search(o, i).i)
    decreases |o| - i
  {
    qs := ps;
    if GoesOn(o, i) && !OptionAt(o, i) {
      var more := ps + [Reach(o, i)];
      forall k | 0 <= k < |more| - 1 ensures Follows(o, more, k) { assert k < |ps| - 1 ==> Follows(o, ps, k); }
      qs := SearchLeads(o, more, Reach(o, i));
    }
  }

  /** Where the first search finds nothing, no walk meets a hash option. */
  lemma {:induction false} NoneOnWalk(o: Bytes, ps: seq<nat>, k: nat)
    requires Walk(o, ps) && k < |ps| && Search(o, ps[k]) == Nowhere
    ensures !OptionAt(o, ps[|ps| - 1])
    decreases |ps| - k
  {
    if k < |ps| - 1 {
      assert Follows(o, ps, k);
      NoneOnWalk(o, ps, k + 1);
    }
  }

  /** The lengths in front of place `i` add up to it when every byte is taken for a
      kind with a length, as the second search does; no header has room for the option
      beyond place 4. */
  predicate InLine(o: Bytes, i: nat)
    requires OptionAt(o, i)
  {
    || i == 0
    || (i == 2 && o[1] == 2)
    || (i == 3 && (o[1] == 3 || (o[1] <= 1 && o[2] == 2)))
    || (i == 4 && (o[1] == 4 || (o[1] <= 1 && o[2] == 3) || (o[1] == 2 && o[3] == 2) || (o[1] <= 1 && o[2] <= 1 && o[3] == 2)))
  }

  /** When the two searches agree, for the options of any header: the second one finds
      the option that the first one found exactly if the lengths in front of it are in
      line, and otherwise none. */
  lemma SearchesMeet(o: Bytes, i: nat)
    requires |o| <= 40 && Search(o, 0) == At(i)
    ensures i <= 4 && SearchAgain(o, 0) == if InLine(o, i) then At(i) else Nowhere
  {
    hide Search, SearchAgain;
    forall j | j == 0 || j == 1 || j == 2 || j == 3 || j == 4
      ensures Search(o, j) == SearchStep(o, j) && SearchAgain(o, j) == AgainStep(o, j)
    {
      OneStep(o, j);
    }
    forall j: nat | j >= 5 ensures Search(o, j) == Nowhere && SearchAgain(o, j) == Nowhere { NothingBeyond(o, j); }
  }

  /** One step of each search. */
  function SearchStep(o: Bytes, i: nat): Place {
    if i >= |o| || o[i] == 0 then Nowhere
    else if OptionAt(o, i) then At(i)
    else if o[i] == 1 then Search(o, i + 1)
    else if i + 1 >= |o| then Nowhere
    else Search(o, Next(o, i))
  }

  function AgainStep(o: Bytes, i: nat): Place {
    if i >= |o| then Nowhere
    else if OptionAt(o, i) then At(i)
    else if i + 1 >= |o| then Nowhere
    else SearchAgain(o, Next(o, i))
  }

  lemma OneStep(o: Bytes, i: nat)
    ensures Search(o, i) == SearchStep(o, i) && SearchAgain(o, i) == AgainStep(o, i)
  {
  }

  lemma {:induction false} NothingBeyond(o: Bytes, i: nat)
    requires |o| < i + OPT_LEN
    ensures Search(o, i) == Nowhere && SearchAgain(o, i) == Nowhere
    decreases |o| - i
  {
    if i < |o| {
      NothingBeyond(o, i + 1);
      if i + 1 < |o| { NothingBeyond(o, Next(o, i)); }
    }
  }

  /** The searches part where a one-byte option comes first: of a no-operation before
      the hash option, the second search takes the next byte for a length. */
  lemma SearchesPart(hash: Bytes)
    requires |hash| == 32
    ensures var o := [1] + HashOption(hash) + [0, 0, 0];
      Search(o, 0) == At(1) && SearchAgain(o, 0) == Nowhere
  {
    var o := [1] + HashOption(hash) + [0, 0, 0];
    assert o[0] == 1 && o[1] == OPT_ID && o[2] == OPT_LEN;
    OneStep(o, 0);
    OneStep(o, 1);
    SearchesMeet(o, 1);
  }

  /** Out of step, the two searches may still meet: behind a no-operation and an option
      of two bytes, whose kind is taken for a length of 3. */
  lemma SearchesMeetAgain(hash: Bytes)
    requires |hash| == 32
    ensures var o := [1, 3, 2] + HashOption(hash) + [0];
      Search(o, 0) == At(3) && SearchAgain(o, 0) == At(3)
  {
    var o := [1, 3, 2] + HashOption(hash) + [0];
    assert o[0] == 1 && o[1] == 3 && o[2] == 2 && o[3] == OPT_ID && o[4] == OPT_LEN;
    OneStep(o, 0);
    OneStep(o, 1);
    OneStep(o, 3);
    SearchesMeet(o, 3);
  }

  datatype Verdict = NoOption | Check(received: Bytes, original: Bytes)

  /** The first search: the first hash option that the walk over the options meets, or
      none if it meets none. */
  method FindOption(o: Bytes) returns (r: Place)
    ensures r == Search(o, 0)
    ensures r.At? ==> exists ps :: Leads(o, ps, r.i)
    ensures r == Nowhere ==> forall ps :: Walk(o, ps) ==> !OptionAt(o, ps[|ps| - 1])
  {
    ghost var qs := SearchLeads(o, [0], 0);
    forall ps | Walk(o, ps) && Search(o, 0) == Nowhere ensures !OptionAt(o, ps[|ps| - 1]) { NoneOnWalk(o, ps, 0); }
    var i := 0;
    while i < |o|
      invariant Search(o, i) == Search(o, 0)
      decreases |o| - i
    {
      if o[i] == 0 {
        return Nowhere;
      }
      if o[i] == 1 {
        i := i + 1;
        continue;
      }
      if OptionAt(o, i) {
        return At(i);
      }
      if i + 1 >= |o| {
        return Nowhere;
      }
      i := Next(o, i);
    }
    return Nowhere;
  }

  method FindAgain(o: Bytes) returns (r: Place)
    ensures r == SearchAgain(o, 0)
  {
    var i := 0;
    while i < |o|
      invariant SearchAgain(o, i) == SearchAgain(o, 0)
      decreases |o| - i
    {
      if OptionAt(o, i) {
        return At(i);
      }
      if i + 1 >= |o| {
        return Nowhere;
      }
      i := Next(o, i);
    }
    return Nowhere;
  }

  /** The header without the option, in its fields and in its bytes. */
  function Stripped(h: Bytes): (s: Bytes)
    requires |h| >= IP + OPT_LEN && |h| == Ihl(h[0]) * 4
  {
    var fields := [WithIhl(h[0], Ihl(h[0]) - OPT_LEN / 4), h[1]] + Split((Field(h, 1) + 0x1_0000 - OPT_LEN) % 0x1_0000, true) +
                  h[4..10] + [0, 0] + h[12..IP];
    (fields + WithoutOption(h[IP..]))[..|h| - OPT_LEN]
  }

  /** packet_handler, as far as it rebuilds the header that was hashed; the capture
      holds the whole header. */
  method Rebuild(packet: Bytes) returns (v: Verdict)
    requires |packet| >= ETH + IP && |packet| >= ETH + Ihl(packet[ETH]) * 4
    ensures var n := Ihl(packet[ETH]) * 4;
      if n <= IP || Search(packet[ETH + IP..ETH + n], 0) == Nowhere then v == NoOption
      else
        var h := packet[ETH..ETH + n];
        var i := Search(h[IP..], 0).i;
        && |h| >= IP + OPT_LEN && h[IP..] == packet[ETH + IP..ETH + n]
        && v == Check(h[IP + i + 4..IP + i + OPT_LEN], Stripped(h))
        && WithoutOption(h[IP..]) == if InLine(h[IP..], i) then h[IP..][..i] + h[IP..][i + OPT_LEN..] else h[IP..]
  {
    hide Search, SearchAgain, Stripped, InLine, Walk, Leads;
    var n := Ihl(packet[ETH]) * 4;
    if n <= IP {
      return NoOption;
    }
    var h := packet[ETH..ETH + n];
    assert h[IP..] == packet[ETH + IP..ETH + n];
    var found := FindOption(h[IP..]);
    if found == Nowhere {
      return NoOption;
    }
    SearchesMeet(h[IP..], found.i);
    var original := RebuildHeader(h);
    v := Check(h[IP + found.i + 4..IP + found.i + OPT_LEN], original);
  }

  /** The header copied, its fields reset, and the option taken out. */
  method RebuildHeader(h: Bytes) returns (original: Bytes)
    requires |h| >= IP + OPT_LEN && |h| == Ihl(h[0]) * 4
    ensures original == Stripped(h)
  {
    hide WithoutOption, WordAt, Split, WithIhl, Placed;
    var header := new Byte[60](i => 0);
    ghost var blank := header[..];
    var first, length := WithIhl(h[0], Ihl(h[0]) - OPT_LEN / 4), (Field(h, 1) + 0x1_0000 - OPT_LEN) % 0x1_0000;
    Put(header, 0, h);
    Put(header, 0, [first]);
    Put(header, 2, Split(length, true));
    Put(header, 10, [0, 0]);
    ghost var fields := [first, h[1]] + Split(length, true) + h[4..10] + [0, 0] + h[12..IP];
    FieldsEdited(blank, h, first, length);
    RemoveOption(header, |h|);
    assert (fields + h[IP..])[IP..] == h[IP..] && (fields + h[IP..])[..IP] == fields;
    original := header[..|h| - OPT_LEN];
  }

  /** The bytes after the option moved over it, if the second search finds one. */
  method RemoveOption(header: array<Byte>, n: nat)
    requires IP + OPT_LEN <= n <= header.Length
    modifies header
    ensures var h := old(header[..n]);
      header[..n - OPT_LEN] == (h[..IP] + WithoutOption(h[IP..]))[..n - OPT_LEN]
  {
    hide SearchAgain, Placed;
    ghost var before, h := header[..], header[..n];
    assert header[IP..n] == h[IP..];
    var again := FindAgain(header[IP..n]);
    if again.At? {
      var at := IP + again.i;
      var rest := header[at + OPT_LEN..n];
      Put(header, at, rest);
      Moved(before, h, again.i, rest);
    }
  }

  lemma Moved(a: Bytes, h: Bytes, i: nat, rest: Bytes)
    requires IP + i + OPT_LEN <= |h| <= |a| && h == a[..|h|] && rest == a[IP + i + OPT_LEN..|h|]
    ensures Placed(a, IP + i, rest)[..|h| - OPT_LEN] == (h[..IP] + (h[IP..][..i] + h[IP..][i + OPT_LEN..]))[..|h| - OPT_LEN]
  {
    hide Placed;
    var w, t := Placed(a, IP + i, rest), h[..IP] + (h[IP..][..i] + h[IP..][i + OPT_LEN..]);
    assert forall k :: 0 <= k < |h| - OPT_LEN ==> w[k] == t[k];
  }

  /** The options without the one that the second search finds. */
  function WithoutOption(o: Bytes): (r: Bytes)
    ensures |r| >= |o| - OPT_LEN
  {
    match SearchAgain(o, 0)
    case At(i) => o[..i] + o[i + OPT_LEN..]
    case Nowhere => o
  }

  lemma FieldsEdited(blank: Bytes, h: Bytes, first: Byte, length: nat)
    requires |blank| == 60 && IP <= |h| <= 60 && length < 0x1_0000
    ensures Placed(Placed(Placed(Placed(blank, 0, h), 0, [first]), 2, Split(length, true)), 10, [0, 0])[..|h|] ==
            [first, h[1]] + Split(length, true) + h[4..10] + [0, 0] + h[12..IP] + h[IP..]
  {
    hide Split, Placed;
    var w := Placed(Placed(Placed(Placed(blank, 0, h), 0, [first]), 2, Split(length, true)), 10, [0, 0]);
    var t := [first, h[1]] + Split(length, true) + h[4..10] + [0, 0] + h[12..IP] + h[IP..];
    assert forall k :: 0 <= k < |h| ==> w[k] == t[k];
  }

  /** The header as it is hashed, with the checksum cleared. */
  function Unchecked(ip: Bytes): Bytes
    requires |ip| == IP
  {
    ip[..10] + [0, 0] + ip[12..]
  }

  /** Insertion undone: from a frame without options that was tagged, the hash and the
      original header are recovered. */
  lemma TagRebuilds(frame: Bytes, hash: Bytes, big: bool)
    requires |frame| >= ETH + IP && |hash| == 32 && Ihl(frame[ETH]) == 5
    ensures var h := Tagged(frame, hash, big)[ETH..ETH + IP + OPT_LEN];
      && Ihl(h[0]) * 4 == |h| && Search(h[IP..], 0) == At(0) && h[IP + 4..IP + OPT_LEN] == hash
      && Stripped(h) == Unchecked(frame[ETH..ETH + IP])
  {
    hide ChecksumOf, Search, SearchAgain, Stripped, WithWord, NewHeader, HashOption, Unchecked;
    var ip := frame[ETH..ETH + IP];
    var h0 := NewHeader(ip, hash);
    var h := WithWord(h0, 5, ChecksumOf(h0, big), big);
    assert Tagged(frame, hash, big)[ETH..ETH + IP + OPT_LEN] == h;
    HeaderParts(ip, hash, h, ChecksumOf(h0, big), big);
    SameFields(ip, h, hash);
    FoundFirst(h[IP..]);
  }

  lemma FoundFirst(o: Bytes)
    requires OptionAt(o, 0)
    ensures Search(o, 0) == At(0) && SearchAgain(o, 0) == At(0)
  {
  }

  lemma HeaderParts(ip: Bytes, hash: Bytes, h: Bytes, c: nat, big: bool)
    requires |ip| == IP && |hash| == 32 && c < 0x1_0000 && h == WithWord(NewHeader(ip, hash), 5, c, big)
    ensures h[IP..] == HashOption(hash) && h[IP + 4..IP + OPT_LEN] == hash && OptionAt(h[IP..], 0)
    ensures h[..10] == NewHeader(ip, hash)[..10] && h[12..IP] == ip[12..]
  {
    hide Split, WithIhl, WordAt;
    assert h[IP..] == HashOption(hash);
    assert h[IP..][4..] == hash;
  }

  lemma SameFields(ip: Bytes, h: Bytes, hash: Bytes)
    requires |ip| == IP && |hash| == 32 && |h| == IP + OPT_LEN && Ihl(ip[0]) == 5 && h[IP..] == HashOption(hash)
    requires h[..10] == NewHeader(ip, hash)[..10] && h[12..IP] == ip[12..]
    ensures Ihl(h[0]) == 14 && OptionAt(h[IP..], 0) && Stripped(h) == Unchecked(ip)
  {
    hide Split, WordAt;
    assert h[2..4] == h[..10][2..4] && NewHeader(ip, hash)[..10][2..4] == Split((Field(ip, 1) + OPT_LEN) % 0x1_0000, true);
    LengthBack(ip, h);
    assert h[4..10] == ip[4..10];
    assert h[0] == WithIhl(ip[0], 14) && h[1] == ip[1];
  }

  lemma LengthBack(ip: Bytes, h: Bytes)
    requires |ip| == IP && |h| >= IP && h[2..4] == Split((Field(ip, 1) + OPT_LEN) % 0x1_0000, true)
    ensures Split((Field(h, 1) + 0x1_0000 - OPT_LEN) % 0x1_0000, true) == ip[2..4]
  {
    hide WordAt, Split;
    FieldSplit(h, (Field(ip, 1) + OPT_LEN) % 0x1_0000);
    AddedBack(Field(ip, 1));
    FieldOf(ip);
  }

  lemma FieldSplit(h: Bytes, w: nat)
    requires |h| >= 4 && w < 0x1_0000 && h[2..4] == Split(w, true)
    ensures Field(h, 1) == w
  {
    assert h[2] == h[2..4][0] && h[3] == h[2..4][1];
  }

  lemma FieldOf(h: Bytes)
    requires |h| >= 4
    ensures Split(Field(h, 1), true) == h[2..4]
  {
  }

  lemma AddedBack(x: nat)
    requires x < 0x1_0000
    ensures ((x + OPT_LEN) % 0x1_0000 + 0x1_0000 - OPT_LEN) % 0x1_0000 == x
  {
  }
}
