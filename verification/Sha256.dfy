/** The streaming SHA-256 of the XDP program, against the block definition of
    FIPS 180-4 (sections 4.1.2, 4.2.2, 5.1.1, 5.3.3 and 6.2.2). */
module Sha256 {

  type Word = bv32
  type Byte = bv8

  // ----------------------------------------------------- the standard's functions

  /** Bitwise exclusive or, and addition modulo 2^32. */
  function Xor(x: Word, y: Word, z: Word): Word { x ^ y ^ z }

  function Plus(x: Word, y: Word): Word { x + y }

  function Ch(x: Word, y: Word, z: Word): Word { (x & y) ^ (!x & z) }

  function Maj(x: Word, y: Word, z: Word): Word { (x & y) ^ (x & z) ^ (y & z) }

  function BigSigma0(x: Word): Word { Xor(x.RotateRight(2), x.RotateRight(13), x.RotateRight(22)) }

  function BigSigma1(x: Word): Word { Xor(x.RotateRight(6), x.RotateRight(11), x.RotateRight(25)) }

  function SmallSigma0(x: Word): Word { Xor(x.RotateRight(7), x.RotateRight(18), x >> 3) }

  function SmallSigma1(x: Word): Word { Xor(x.RotateRight(17), x.RotateRight(19), x >> 10) }

  const K: seq<Word> :=
    [0x428a2f98, 0x71374491, 0xb5c0fbcf, 0xe9b5dba5, 0x3956c25b, 0x59f111f1, 0x923f82a4, 0xab1c5ed5,
     0xd807aa98, 0x12835b01, 0x243185be, 0x550c7dc3, 0x72be5d74, 0x80deb1fe, 0x9bdc06a7, 0xc19bf174] +
    [0xe49b69c1, 0xefbe4786, 0x0fc19dc6, 0x240ca1cc, 0x2de92c6f, 0x4a7484aa, 0x5cb0a9dc, 0x76f988da,
     0x983e5152, 0xa831c66d, 0xb00327c8, 0xbf597fc7, 0xc6e00bf3, 0xd5a79147, 0x06ca6351, 0x14292967] +
    [0x27b70a85, 0x2e1b2138, 0x4d2c6dfc, 0x53380d13, 0x650a7354, 0x766a0abb, 0x81c2c92e, 0x92722c85,
     0xa2bfe8a1, 0xa81a664b, 0xc24b8b70, 0xc76c51a3, 0xd192e819, 0xd6990624, 0xf40e3585, 0x106aa070] +
    [0x19a4c116, 0x1e376c08, 0x2748774c, 0x34b0bcb5, 0x391c0cb3, 0x4ed8aa4a, 0x5b9cca4f, 0x682e6ff3,
     0x748f82ee, 0x78a5636f, 0x84c87814, 0x8cc70208, 0x90befffa, 0xa4506ceb, 0xbef9a3f7, 0xc67178f2]

  /** The working variables, and the hash value between blocks. */
  datatype Vars = Vars(a: Word, b: Word, c: Word, d: Word, e: Word, f: Word, g: Word, h: Word)

  const H0 := Vars(0x6a09e667, 0xbb67ae85, 0x3c6ef372, 0xa54ff53a, 0x510e527f, 0x9b05688c, 0x1f83d9ab, 0x5be0cd19)

  type Block = b: seq<Byte> | |b| == 64 witness seq(64, _ => 0)

  /** Word `t` of a block, most significant byte first. */
  function BigEndian(b0: Byte, b1: Byte, b2: Byte, b3: Byte): Word {
    ((b0 as Word) << 24) | ((b1 as Word) << 16) | ((b2 as Word) << 8) | (b3 as Word)
  }

  /** The message schedule. */
  ghost function Schedule(b: Block, t: nat): Word
    requires t < 64
  {
    if t < 16 then BigEndian(b[4 * t], b[4 * t + 1], b[4 * t + 2], b[4 * t + 3])
    else Plus(Plus(Plus(SmallSigma1(Schedule(b, t - 2)), Schedule(b, t - 7)), SmallSigma0(Schedule(b, t - 15))), Schedule(b, t - 16))
  }

  function Round(v: Vars, k: Word, w: Word): Vars {
    var t1 := Plus(Plus(Plus(Plus(v.h, BigSigma1(v.e)), Ch(v.e, v.f, v.g)), k), w);
    var t2 := Plus(BigSigma0(v.a), Maj(v.a, v.b, v.c));
    Vars(Plus(t1, t2), v.a, v.b, v.c, Plus(v.d, t1), v.e, v.f, v.g)
  }

  /** The first `n` rounds. */
  ghost function Rounds(v: Vars, b: Block, n: nat): Vars
    requires n <= 64
  {
    if n == 0 then v else Round(Rounds(v, b, n - 1), K[n - 1], Schedule(b, n - 1))
  }

  function AddVars(v: Vars, w: Vars): Vars {
    Vars(Plus(v.a, w.a), Plus(v.b, w.b), Plus(v.c, w.c), Plus(v.d, w.d),
         Plus(v.e, w.e), Plus(v.f, w.f), Plus(v.g, w.g), Plus(v.h, w.h))
  }

  ghost function Compress(v: Vars, b: Block): Vars { AddVars(v, Rounds(v, b, 64)) }

  /** The hash value after all blocks of a message. */
  ghost function HashBlocks(v: Vars, bytes: seq<Byte>): Vars
    requires |bytes| % 64 == 0
  {
    if |bytes| == 0 then v else Compress(HashBlocks(v, bytes[..|bytes| - 64]), bytes[|bytes| - 64..])
  }

  function Zeros(n: nat): (z: seq<Byte>)
    ensures |z| == n
  {
    seq(n, _ => 0)
  }

  function Pow256(k: nat): (r: nat)
    ensures r > 0
  {
    if k == 0 then 1 else 256 * Pow256(k - 1)
  }

  /** Byte `k` of a 64-bit number, most significant first. */
  function LengthByte(bits: nat, k: nat): Byte
    requires k < 8
  {
    (bits / Pow256(7 - k) % 256) as Byte
  }

  function LengthBytes(bits: nat): (s: seq<Byte>)
    ensures |s| == 8
  {
    seq(8, k requires 0 <= k < 8 => LengthByte(bits, k))
  }

  const TWO64: nat := 0x1_0000_0000_0000_0000

  /** How many zero bytes follow the 0x80: the fewest that fill the last block. */
  function PadLen(n: nat): (z: nat)
    ensures (n + 1 + z + 8) % 64 == 0 && z < 64
  {
    if n % 64 < 56 then 55 - n % 64 else 119 - n % 64
  }

  /** The padded message. */
  function Padded(msg: seq<Byte>): (p: seq<Byte>)
    ensures |p| % 64 == 0
  {
    msg + [0x80] + Zeros(PadLen(|msg|)) + LengthBytes(8 * |msg| % TWO64)
  }

  /** A word as four bytes. */
  function ByteOf(w: Word, k: nat): Byte
    requires k < 4
  {
    ((w >> (24 - 8 * k)) & 0xff) as Byte
  }

  function Words(v: Vars): (s: seq<Word>)
    ensures |s| == 8
  {
    [v.a, v.b, v.c, v.d, v.e, v.f, v.g, v.h]
  }

  /** SHA-256 of a message. */
  ghost function Digest(msg: seq<Byte>): (d: seq<Byte>)
    ensures |d| == 32
  {
    var h := Words(HashBlocks(H0, Padded(msg)));
    seq(32, i requires 0 <= i < 32 => OutByte(h, i))
  }

  // ------------------------------------------------------ the program's functions

  /** The macro ROTRIGHT. */
  function RotRight(a: Word, b: bv6): Word
    requires 0 < b < 32
  {
    (a >> b) | (a << (32 - b))
  }

  function Ep0(x: Word): Word { Xor(RotRight(x, 2), RotRight(x, 13), RotRight(x, 22)) }

  function Ep1(x: Word): Word { Xor(RotRight(x, 6), RotRight(x, 11), RotRight(x, 25)) }

  function Sig0(x: Word): Word { Xor(RotRight(x, 7), RotRight(x, 18), x >> 3) }

  function Sig1(x: Word): Word { Xor(RotRight(x, 17), RotRight(x, 19), x >> 10) }

  lemma Rotations(x: Word)
    ensures RotRight(x, 2) == x.RotateRight(2) && RotRight(x, 13) == x.RotateRight(13) && RotRight(x, 22) == x.RotateRight(22)
    ensures RotRight(x, 6) == x.RotateRight(6) && RotRight(x, 11) == x.RotateRight(11) && RotRight(x, 25) == x.RotateRight(25)
    ensures RotRight(x, 7) == x.RotateRight(7) && RotRight(x, 18) == x.RotateRight(18)
    ensures RotRight(x, 17) == x.RotateRight(17) && RotRight(x, 19) == x.RotateRight(19)
  {
  }

  /** The macros compute the functions of the standard. */
  lemma MacrosAgree(x: Word)
    ensures Ep0(x) == BigSigma0(x) && Ep1(x) == BigSigma1(x) && Sig0(x) == SmallSigma0(x) && Sig1(x) == SmallSigma1(x)
  {
    hide RotRight, Xor;
    Rotations(x);
  }

  lemma ScheduleStep(b: Block, t: nat)
    requires 16 <= t < 64
    ensures Schedule(b, t) == Plus(Plus(Plus(Sig1(Schedule(b, t - 2)), Schedule(b, t - 7)), Sig0(Schedule(b, t - 15))), Schedule(b, t - 16))
  {
    hide Plus, Xor, Ch, Maj, BigSigma0, BigSigma1, SmallSigma0, SmallSigma1, Ep0, Ep1, Sig0, Sig1, BigEndian;
    MacrosAgree(Schedule(b, t - 2));
    MacrosAgree(Schedule(b, t - 15));
  }

  lemma RoundStep(v: Vars, b: Block, n: nat)
    requires n < 64
    ensures var r := Rounds(v, b, n);
      var t1 := Plus(Plus(Plus(Plus(r.h, Ep1(r.e)), Ch(r.e, r.f, r.g)), K[n]), Schedule(b, n));
      var t2 := Plus(Ep0(r.a), Maj(r.a, r.b, r.c));
      Rounds(v, b, n + 1) == Vars(Plus(t1, t2), r.a, r.b, r.c, Plus(r.d, t1), r.e, r.f, r.g)
  {
    hide Plus, Xor, Ch, Maj, BigSigma0, BigSigma1, SmallSigma0, SmallSigma1, Ep0, Ep1, Sig0, Sig1, BigEndian, Schedule;
    MacrosAgree(Rounds(v, b, n).e);
    MacrosAgree(Rounds(v, b, n).a);
  }

  lemma RoundsStart(v: Vars, b: Block)
    ensures Rounds(v, b, 0) == v
  {
  }

  lemma {:induction false} HashAppend(v: Vars, bytes: seq<Byte>, b: Block)
    requires |bytes| % 64 == 0
    ensures HashBlocks(v, bytes + b) == Compress(HashBlocks(v, bytes), b)
  {
    var all := bytes + b;
    assert all[..|all| - 64] == bytes && all[|all| - 64..] == b;
  }

  /** The whole blocks of the message are in the hash value `v`, the rest is in the
      buffer, and the length of the whole blocks has been counted. */
  ghost predicate Holds(msg: seq<Byte>, buf: seq<Byte>, bitlen: nat, v: Vars) {
    && |buf| == |msg| % 64 && msg == msg[..|msg| - |buf|] + buf
    && bitlen == 8 * (|msg| - |buf|) % TWO64
    && v == HashBlocks(H0, msg[..|msg| - |buf|])
  }

  lemma HoldsNothing()
    ensures Holds([], [], 0, H0)
  {
  }

  /** One more byte in the buffer. */
  lemma HoldsMore(msg: seq<Byte>, buf: seq<Byte>, bitlen: nat, v: Vars, x: Byte)
    requires Holds(msg, buf, bitlen, v) && |buf| < 63
    ensures Holds(msg + [x], buf + [x], bitlen, v)
  {
    hide HashBlocks, Compress;
    NextMod(|msg|);
    assert (msg + [x])[..|msg| - |buf|] == msg[..|msg| - |buf|];
  }

  /** The byte that fills the buffer. */
  lemma HoldsBlock(msg: seq<Byte>, buf: seq<Byte>, bitlen: nat, v: Vars, x: Byte)
    requires Holds(msg, buf, bitlen, v) && |buf| == 63
    ensures Holds(msg + [x], [], (bitlen + 512) % TWO64, Compress(v, buf + [x]))
  {
    hide HashBlocks, Compress;
    NextMod(|msg|);
    var whole := msg[..|msg| - 63];
    assert msg + [x] == whole + (buf + [x]) && (msg + [x])[..|msg| + 1] == msg + [x];
    HashAppend(H0, whole, buf + [x]);
    LengthMod(|whole|, 64);
  }

  lemma NextMod(n: nat)
    ensures (n + 1) % 64 == if n % 64 == 63 then 0 else n % 64 + 1
  {
  }

  lemma LengthMod(a: nat, b: nat)
    ensures (8 * a % TWO64 + 8 * b) % TWO64 == 8 * (a + b) % TWO64
  {
  }

  /** SHA256_CTX, the schedule of sha256_temp_map, and the bytes fed in so far. */
  class Context {
    const data: array<Byte>     // the block being filled
    const state: array<Word>
    const m: array<Word>        // the message schedule
    var datalen: nat
    var bitlen: nat             // an unsigned 64-bit number
    ghost var msg: seq<Byte>    // what has been fed in since sha256_init

    ghost predicate Shaped()
      reads this
    {
      data.Length == 64 && state.Length == 8 && m.Length == 64 && state != m
    }

    function State(): Vars
      requires state.Length == 8
      reads state
    {
      Vars(state[0], state[1], state[2], state[3], state[4], state[5], state[6], state[7])
    }

    /** The context holds the message fed in so far. */
    ghost predicate Valid()
      reads this, data, state
    {
      Shaped() && datalen < 64 && Holds(msg, data[..datalen], bitlen, State())
    }

    constructor ()
      ensures Shaped() && fresh(data) && fresh(state) && fresh(m)
    {
      data := new Byte[64](_ => 0);
      state := new Word[8](_ => 0);
      m := new Word[64](_ => 0);
      datalen, bitlen, msg := 0, 0, [];
    }

    /** sha256_init */
    method Init()
      requires Shaped()
      modifies this, state
      ensures Valid() && msg == []
    {
      datalen, bitlen, msg := 0, 0, [];
      SetState(H0);
      HoldsNothing();
      assert data[..0] == [];
    }

    method SetState(v: Vars)
      requires Shaped()
      modifies state
      ensures State() == v
    {
      state[0], state[1], state[2], state[3] := v.a, v.b, v.c, v.d;
      state[4], state[5], state[6], state[7] := v.e, v.f, v.g, v.h;
    }

    /** The message schedule of the block in the buffer. */
    method FillSchedule()
      requires Shaped()
      modifies m
      ensures forall t :: 0 <= t < 64 ==> m[t] == Schedule(data[..], t)
    {
      hide Plus, Xor, Ch, Maj, BigSigma0, BigSigma1, SmallSigma0, SmallSigma1, Ep0, Ep1, Sig0, Sig1, BigEndian;
      ghost var b: Block := data[..];
      var i := 0;
      while i < 16
        invariant 0 <= i <= 16 && forall t :: 0 <= t < i ==> m[t] == Schedule(b, t)
      {
        var j := 4 * i;
        m[i] := BigEndian(data[j], data[j + 1], data[j + 2], data[j + 3]);
        i := i + 1;
      }
      while i < 64
        invariant 16 <= i <= 64 && forall t :: 0 <= t < i ==> m[t] == Schedule(b, t)
      {
        ScheduleStep(b, i);
        m[i] := Plus(Plus(Plus(Sig1(m[i - 2]), m[i - 7]), Sig0(m[i - 15])), m[i - 16]);
        i := i + 1;
      }
    }

    /** sha256_transform: compresses the block in the buffer into the state. */
    method Transform()
      requires Shaped()
      modifies state, m
      ensures State() == Compress(old(State()), data[..])
    {
      hide Plus, Xor, Ch, Maj, BigSigma0, BigSigma1, SmallSigma0, SmallSigma1, Ep0, Ep1, Sig0, Sig1, BigEndian, Schedule, Rounds, Round;
      ghost var blk: Block := data[..];
      RoundsStart(State(), blk);
      FillSchedule();
      var v := State();
      var a, b, c, d, e, f, g, h := v.a, v.b, v.c, v.d, v.e, v.f, v.g, v.h;
      var i := 0;
      while i < 64
        invariant 0 <= i <= 64 && State() == v
        invariant forall t :: 0 <= t < 64 ==> m[t] == Schedule(blk, t)
        invariant Vars(a, b, c, d, e, f, g, h) == Rounds(v, blk, i)
      {
        RoundStep(v, blk, i);
        var t1 := Plus(Plus(Plus(Plus(h, Ep1(e)), Ch(e, f, g)), K[i]), m[i]);
        var t2 := Plus(Ep0(a), Maj(a, b, c));
        h := g;
        g := f;
        f := e;
        e := Plus(d, t1);
        d := c;
        c := b;
        b := a;
        a := Plus(t1, t2);
        i := i + 1;
      }
      SetState(Vars(Plus(state[0], a), Plus(state[1], b), Plus(state[2], c), Plus(state[3], d),
                    Plus(state[4], e), Plus(state[5], f), Plus(state[6], g), Plus(state[7], h)));
    }

    /** One byte of sha256_update. */
    method Feed(x: Byte)
      requires Valid()
      modifies `datalen, `bitlen, `msg, data, state, m
      ensures Valid() && msg == old(msg) + [x]
    {
      hide Compress, HashBlocks, Holds, LengthBytes, LengthByte, Padded, Zeros;
      ghost var buf, v := data[..datalen], State();
      if datalen < 63 { HoldsMore(msg, buf, bitlen, v, x); } else { HoldsBlock(msg, buf, bitlen, v, x); }
      Store(x);
      msg := msg + [x];
      if datalen == 64 {
        NextBlock();
      }
    }

    /** The byte at its place. */
    method Store(x: Byte)
      requires Shaped() && datalen < 64
      modifies `datalen, data
      ensures datalen == old(datalen) + 1 && data[..datalen] == old(data[..datalen]) + [x]
    {
      data[datalen] := x;
      datalen := datalen + 1;
    }

    /** A full buffer compressed. */
    method NextBlock()
      requires Shaped() && datalen == 64
      modifies `datalen, `bitlen, state, m
      ensures datalen == 0 && bitlen == (old(bitlen) + 512) % TWO64 && State() == Compress(old(State()), old(data[..datalen]))
    {
      hide Compress;
      assert data[..] == data[..datalen];
      Transform();
      bitlen := (bitlen + 512) % TWO64;
      datalen := 0;
    }

    /** sha256_update: the length must fit the 32-bit loop counter. */
    method Update(input: array<Byte>, len: nat)
      requires Valid() && input != data && len <= input.Length && len < 0x1_0000_0000
      modifies `datalen, `bitlen, `msg, data, state, m
      ensures Valid() && msg == old(msg) + input[..len]
    {
      var i := 0;
      while i < len
        invariant 0 <= i <= len && Valid() && msg == old(msg) + input[..i]
      {
        Feed(input[i]);
        i := i + 1;
      }
    }

    /** Fills the buffer with zeros from `i` up to `n`. */
    method ZeroFill(i0: nat, n: nat)
      requires Shaped() && i0 <= n <= 64
      modifies data
      ensures data[..] == old(data[..])[..i0] + Zeros(n - i0) + old(data[..])[n..]
    {
      var i := i0;
      while i < n
        invariant i0 <= i <= n
        invariant forall k :: 0 <= k < 64 ==> data[k] == if i0 <= k < i then 0 else old(data[k])
      {
        data[i] := 0;
        i := i + 1;
      }
    }

    /** The last eight bytes of the buffer: the length in bits. */
    method PutLength()
      requires Shaped()
      modifies data
      ensures data[..] == old(data[..])[..56] + LengthBytes(bitlen)
    {
      var k := 0;
      while k < 8
        invariant 0 <= k <= 8
        invariant forall j :: 0 <= j < 64 ==> data[j] == if 56 <= j < 56 + k then LengthByte(bitlen, j - 56) else old(data[j])
      {
        data[56 + k] := LengthByte(bitlen, k);
        k := k + 1;
      }
    }

    /** sha256_final up to the length: pads the buffer, compressing it where the
        length no longer fits in. */
    method Pad()
      requires Valid()
      modifies data, state, m
      ensures Shaped()
      ensures Compress(State(), data[..56] + LengthBytes((bitlen + 8 * datalen) % TWO64)) == HashBlocks(H0, Padded(msg))
    {
      hide Compress, HashBlocks, LengthBytes, LengthByte, Holds, Padded, Words;
      ghost var buf, v := data[..datalen], State();
      HoldsPadded(msg, buf, bitlen, v);
      data[datalen] := 0x80;
      if datalen < 56 {
        ZeroFill(datalen + 1, 56);
        assert data[..56] == buf + [0x80] + Zeros(55 - datalen);
      } else {
        ZeroFill(datalen + 1, 64);
        assert data[..] == buf + [0x80] + Zeros(63 - datalen);
        Transform();
        ZeroFill(0, 56);
        assert data[..56] == Zeros(56);
      }
    }

    /** sha256_final: pads, compresses what is left and writes out the digest of all
        that has been fed in. */
    method Final(hash: array<Byte>)
      requires Valid() && hash.Length == 32 && hash != data
      modifies `bitlen, data, state, m, hash
      ensures hash[..] == Digest(msg)
    {
      hide Compress, HashBlocks, LengthBytes, LengthByte, Holds, Padded, OutByte, Words, Digest;
      Pad();
      bitlen := (bitlen + 8 * datalen) % TWO64;
      ghost var front := data[..56];
      PutLength();
      assert data[..] == front + LengthBytes(bitlen);
      Transform();
      WriteOut(hash);
      WrittenOut(msg, hash[..]);
    }

    /** The state as 32 bytes. */
    method WriteOut(hash: array<Byte>)
      requires Shaped() && hash.Length == 32 && hash != data
      modifies hash
      ensures forall p :: 0 <= p < 32 ==> hash[p] == OutByte(Words(State()), p)
    {
      hide OutByte;
      var w := Words(State());
      var i := 0;
      while i < 4
        invariant 0 <= i <= 4 && forall p :: 0 <= p < 32 && p % 4 < i ==> hash[p] == OutByte(w, p)
      {
        WriteColumn(w, i, hash);
        i := i + 1;
      }
    }
  }

  /** Byte `p` of the digest, given the words of the hash value. */
  function OutByte(w: seq<Word>, p: nat): Byte
    requires |w| == 8 && p < 32
  {
    ByteOf(w[p / 4], p % 4)
  }

  /** Byte `i` of each word. */
  method WriteColumn(w: seq<Word>, i: nat, hash: array<Byte>)
    requires |w| == 8 && i < 4 && hash.Length == 32
    modifies hash
    ensures forall p :: 0 <= p < 32 ==> hash[p] == if p % 4 == i then OutByte(w, p) else old(hash[p])
  {
    hide ByteOf, OutByte;
    OutColumn(w, i);
    hash[i] := ByteOf(w[0], i);
    hash[i + 4] := ByteOf(w[1], i);
    hash[i + 8] := ByteOf(w[2], i);
    hash[i + 12] := ByteOf(w[3], i);
    hash[i + 16] := ByteOf(w[4], i);
    hash[i + 20] := ByteOf(w[5], i);
    hash[i + 24] := ByteOf(w[6], i);
    hash[i + 28] := ByteOf(w[7], i);
    forall p | 0 <= p < 32 ensures p % 4 == i <==> InColumn(i, p) { WhichColumn(i, p); }
  }

  predicate InColumn(i: nat, p: nat) {
    p == i || p == i + 4 || p == i + 8 || p == i + 12 || p == i + 16 || p == i + 20 || p == i + 24 || p == i + 28
  }

  lemma WhichColumn(i: nat, p: nat)
    requires i < 4 && p < 32
    ensures p % 4 == i <==> InColumn(i, p)
  {
  }

  lemma OutColumn(w: seq<Word>, i: nat)
    requires |w| == 8 && i < 4
    ensures OutByte(w, i) == ByteOf(w[0], i) && OutByte(w, i + 4) == ByteOf(w[1], i)
    ensures OutByte(w, i + 8) == ByteOf(w[2], i) && OutByte(w, i + 12) == ByteOf(w[3], i)
    ensures OutByte(w, i + 16) == ByteOf(w[4], i) && OutByte(w, i + 20) == ByteOf(w[5], i)
    ensures OutByte(w, i + 24) == ByteOf(w[6], i) && OutByte(w, i + 28) == ByteOf(w[7], i)
  {
    hide ByteOf;
  }

  lemma WrittenOut(msg: seq<Byte>, out: seq<Byte>)
    requires |out| == 32 && forall p :: 0 <= p < 32 ==> out[p] == OutByte(Words(HashBlocks(H0, Padded(msg))), p)
    ensures out == Digest(msg)
  {
    hide OutByte, HashBlocks, Padded, Words;
  }

  lemma WholeBlocks(n: nat)
    ensures (n - n % 64) % 64 == 0
  {
  }

  lemma PadLenIs(a: nat, n: nat)
    requires a % 64 == 0 && n < 64
    ensures PadLen(a + n) == if n < 56 then 55 - n else 119 - n
  {
    SameRest(a, n);
  }

  lemma SameRest(a: nat, n: nat)
    requires a % 64 == 0 && n < 64
    ensures (a + n) % 64 == n && (a + 64) % 64 == 0
  {
  }

  lemma ZerosJoin(n: nat)
    requires n < 64
    ensures Zeros(119 - n) == Zeros(63 - n) + Zeros(56)
  {
  }

  /** The padded message, when the length still fits into the block begun. */
  lemma PadOne(whole: seq<Byte>, buf: seq<Byte>)
    requires |whole| % 64 == 0 && |buf| < 56
    ensures var msg := whole + buf;
      Padded(msg) == whole + (buf + [0x80] + Zeros(55 - |buf|) + LengthBytes(8 * |msg| % TWO64))
  {
    hide LengthBytes, Zeros, PadLen;
    PadLenIs(|whole|, |buf|);
  }

  /** The padded message, when the length needs a block of its own. */
  lemma PadTwo(whole: seq<Byte>, buf: seq<Byte>)
    requires |whole| % 64 == 0 && 56 <= |buf| < 64
    ensures var msg := whole + buf;
      Padded(msg) == (whole + (buf + [0x80] + Zeros(63 - |buf|))) + (Zeros(56) + LengthBytes(8 * |msg| % TWO64))
  {
    hide LengthBytes, Zeros, PadLen;
    PadLenIs(|whole|, |buf|);
    ZerosJoin(|buf|);
  }

  lemma OneBlock(whole: seq<Byte>, buf: seq<Byte>)
    requires |whole| % 64 == 0 && |buf| < 56
    ensures var msg := whole + buf;
      HashBlocks(H0, Padded(msg)) ==
      Compress(HashBlocks(H0, whole), buf + [0x80] + Zeros(55 - |buf|) + LengthBytes(8 * |msg| % TWO64))
  {
    hide HashBlocks, Compress, LengthBytes, Padded, Zeros;
    PadOne(whole, buf);
    HashAppend(H0, whole, buf + [0x80] + Zeros(55 - |buf|) + LengthBytes(8 * |whole + buf| % TWO64));
  }

  lemma TwoBlocks(whole: seq<Byte>, buf: seq<Byte>)
    requires |whole| % 64 == 0 && 56 <= |buf| < 64
    ensures var msg := whole + buf;
      HashBlocks(H0, Padded(msg)) ==
      Compress(Compress(HashBlocks(H0, whole), buf + [0x80] + Zeros(63 - |buf|)), Zeros(56) + LengthBytes(8 * |msg| % TWO64))
  {
    hide HashBlocks, Compress, LengthBytes, Padded, Zeros;
    var first := buf + [0x80] + Zeros(63 - |buf|);
    PadTwo(whole, buf);
    SameRest(|whole|, 0);
    HashAppend(H0, whole, first);
    HashAppend(H0, whole + first, Zeros(56) + LengthBytes(8 * |whole + buf| % TWO64));
  }

  /** What the last one or two blocks are, and that they end the padded message. */
  lemma HoldsPadded(msg: seq<Byte>, buf: seq<Byte>, bitlen: nat, v: Vars)
    requires Holds(msg, buf, bitlen, v)
    ensures var n, bits := |buf|, LengthBytes((bitlen + 8 * |buf|) % TWO64);
      && (n < 56 ==> HashBlocks(H0, Padded(msg)) == Compress(v, buf + [0x80] + Zeros(55 - n) + bits))
      && (56 <= n < 64 ==>
            HashBlocks(H0, Padded(msg)) == Compress(Compress(v, buf + [0x80] + Zeros(63 - n)), Zeros(56) + bits))
  {
    hide HashBlocks, Compress, LengthBytes, Padded, Zeros;
    var whole := msg[..|msg| - |buf|];
    LengthMod(|whole|, |buf|);
    WholeBlocks(|msg|);
    if |buf| < 56 { OneBlock(whole, buf); } else { TwoBlocks(whole, buf); }
  }
}
