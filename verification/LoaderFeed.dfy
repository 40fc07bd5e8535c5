/** What reaches the kernel: in every run of a loader that gets as far as one of its
    bpf commands, the registers and the fields of the attributes are what the
    generator meant them to be. */
module LoaderFeed {
  import opened LoaderMachine

  // ------------------------------------------------------------------- memory

  function Shift(a: Val, k: int): Val { Val(a.region, a.n + k) }

  predicate Within(b: Val, a: Val, n: nat) { b.region == a.region && a.n <= b.n < a.n + n }

  lemma {:induction false} WriteOutside(mem: map<Val, nat>, a: Val, n: nat, bytes: nat -> nat, b: Val)
    requires !Within(b, a, n)
    ensures ByteAt(Write(mem, a, n, bytes), b) == ByteAt(mem, b)
    decreases n
  {
    if n > 0 { WriteOutside(mem[a := bytes(n - 1)], Shift(a, 1), n - 1, bytes, b); }
  }

  lemma {:induction false} WriteInside(mem: map<Val, nat>, a: Val, n: nat, bytes: nat -> nat, k: nat)
    requires k < n
    ensures ByteAt(Write(mem, a, n, bytes), Shift(a, k)) == bytes(n - 1 - k) % 256
    decreases n
  {
    if k == 0 {
      WriteOutside(mem[a := bytes(n - 1)], Shift(a, 1), n - 1, bytes, a);
      assert Shift(a, 0) == a;
    } else {
      WriteInside(mem[a := bytes(n - 1)], Shift(a, 1), n - 1, bytes, k - 1);
      assert Shift(Shift(a, 1), k - 1) == Shift(a, k);
    }
  }

  lemma {:induction false} ReadSame(mem: map<Val, nat>, mem': map<Val, nat>, a: Val, n: nat)
    requires forall b :: Within(b, a, n) ==> ByteAt(mem, b) == ByteAt(mem', b)
    ensures Read(mem, a, n) == Read(mem', a, n)
    decreases n
  {
    if n > 0 {
      assert Within(a, a, n);
      assert forall b :: Within(b, Shift(a, 1), n - 1) ==> Within(b, a, n);
      ReadSame(mem, mem', Shift(a, 1), n - 1);
    }
  }

  lemma PowNext(k: nat)
    ensures Pow2(8 * (k + 1)) == 256 * Pow2(8 * k)
  {
    assert Pow2(8 * k + 8) == 2 * Pow2(8 * k + 7) == 4 * Pow2(8 * k + 6) == 8 * Pow2(8 * k + 5) == 16 * Pow2(8 * k + 4);
    assert Pow2(8 * k + 4) == 2 * Pow2(8 * k + 3) == 4 * Pow2(8 * k + 2) == 8 * Pow2(8 * k + 1) == 16 * Pow2(8 * k);
  }

  lemma Distribute(a: int, b: int, d: int)
    ensures (256 * a + b) * d == a * (256 * d) + b * d
  {
  }

  lemma LessTimes(b: nat, d: nat, r: nat)
    requires b < 256 && r < d
    ensures b * d + r < 256 * d
  {
    Distribute(0, b, d);
    AtLeast(256 - b, d);
    assert (256 - b) * d == 256 * d - b * d;
  }

  lemma DivDiv(v: nat, d: nat)
    requires d > 0
    ensures v / (256 * d) == v / d / 256
  {
    DivRest(v, d);
    DivRest(v / d, 256);
    var a, b, r := v / d / 256, v / d % 256, v % d;
    Distribute(a, b, d);
    LessTimes(b, d, r);
    DivIs(v, 256 * d, a, b * d + r);
  }

  lemma AtLeast(d: int, m: nat)
    ensures d >= 1 ==> d * m >= m
    ensures d <= -1 ==> d * m + m <= 0
  {
    assert d >= 1 ==> (d - 1) * m >= 0;
    assert d <= -1 ==> (d + 1) * m <= 0;
  }

  lemma SameQuotient(q: int, a: int, m: nat, s: nat, r: nat)
    requires q * m + s == a * m + r && s < m && r < m
    ensures q == a && s == r
  {
    assert (q - a) * m == r - s;
    AtLeast(q - a, m);
  }

  lemma DivIs(v: nat, m: nat, a: nat, r: nat)
    requires v == a * m + r && r < m
    ensures v / m == a && v % m == r
  {
    DivRest(v, m);
    SameQuotient(v / m, a, m, v % m, r);
  }

  lemma DivRest(v: nat, m: nat)
    requires m > 0
    ensures v == v / m * m + v % m && v % m < m
  {
  }

  lemma ModSplit(w: nat, d: nat)
    requires d > 0
    ensures w % (256 * d) == w % 256 + 256 * ((w / 256) % d)
  {
    DivRest(w, 256);
    DivRest(w / 256, d);
    var a, r, b := w / 256 / d, w / 256 % d, w % 256;
    assert 256 * (a * d) == a * (256 * d);
    DivIs(w, 256 * d, a, 256 * r + b);
  }

  /** The bytes of a number, from byte `size - n` on. */
  lemma {:induction false} ReadBytes(mem: map<Val, nat>, a: Val, size: nat, n: nat, v: int)
    requires n <= size && forall k: nat :: k < n ==> ByteAt(mem, Shift(a, k)) == ByteOf(v, size)(n - 1 - k)
    ensures Read(mem, a, n) == Unsigned(v) / Pow2(8 * (size - n)) % Pow2(8 * n)
    decreases n
  {
    hide Pow2, Unsigned;
    if n == 0 {
      assert Pow2(0) == 1 by { PowZero(); }
    } else {
      var w := Unsigned(v) / Pow2(8 * (size - n));
      forall k: nat | k < n - 1 ensures ByteAt(mem, Shift(Shift(a, 1), k)) == ByteOf(v, size)(n - 2 - k) {
        assert Shift(Shift(a, 1), k) == Shift(a, k + 1);
      }
      ReadBytes(mem, Shift(a, 1), size, n - 1, v);
      PowNext(size - n);
      DivDiv(Unsigned(v), Pow2(8 * (size - n)));
      PowNext(n - 1);
      ModSplit(w, Pow2(8 * (n - 1)));
      assert Shift(a, 0) == a;
    }
  }

  lemma ByteSmall(v: int, n: nat, k: nat)
    ensures ByteOf(v, n)(k) < 256
  {
  }

  lemma PowZero()
    ensures Pow2(0) == 1
  {
  }

  /** What is written is read back, modulo the width. */
  lemma ReadWritten(mem: map<Val, nat>, a: Val, n: nat, v: int)
    ensures Read(Write(mem, a, n, ByteOf(v, n)), a, n) == Unsigned(v) % Pow2(8 * n)
  {
    hide Unsigned, ByteOf;
    var mem' := Write(mem, a, n, ByteOf(v, n));
    forall k: nat | k < n ensures ByteAt(mem', Shift(a, k)) == ByteOf(v, n)(n - 1 - k) {
      WriteInside(mem, a, n, ByteOf(v, n), k);
      ByteSmall(v, n, n - 1 - k);
    }
    ReadBytes(mem', a, n, n, v);
    PowZero();
  }

  // ------------------------------------------------------------------- one field

  function Width(x: Field): Size {
    match x case Address(_, _) => DW case FromBlob(_, sz, _) => sz case FromCtx(_, sz, _, _) => sz case FromStack(_, sz, _) => sz
  }

  function Dest(x: Field): Val { Val(BlobMem, x.off) }

  function Source(x: Field): Val {
    match x
    case Address(_, _) => Val(Scalar, 0)
    case FromBlob(_, _, src) => Val(BlobMem, src)
    case FromCtx(_, _, src, _) => Val(CtxMem, src)
    case FromStack(_, _, src) => Val(StackMem, src)
  }

  /** What the field is filled with. */
  function Content(x: Field, mem: map<Val, nat>): nat {
    if x.Address? then Unsigned(x.data) else Read(mem, Source(x), Bytes(Width(x)))
  }

  predicate Skipped(x: Field, mem: map<Val, nat>) { x.FromCtx? && x.unlessZero && Content(x, mem) == 0 }

  function Filled(x: Field, mem: map<Val, nat>): map<Val, nat> {
    if Skipped(x, mem) then mem
    else Write(mem, Dest(x), Bytes(Width(x)), ByteOf(if x.Address? then x.data else Content(x, mem), Bytes(Width(x))))
  }

  /** The field holds what it should: the address, or the same number as its source. */
  predicate Holds(x: Field, mem: map<Val, nat>) {
    Skipped(x, mem) || Read(mem, Dest(x), Bytes(Width(x))) == Content(x, mem)
  }

  /** Where the machine is after some code, with all that is kept throughout. */
  predicate Reached(s: State, s': State, pc: int, mem: map<Val, nat>) {
    !s'.halted && |s'.regs| == NR_REGS == |s.regs| && s'.pc == pc && s'.mem == mem && s'.regs[6] == s.regs[6] && s'.regs[10] == s.regs[10]
  }

  predicate CodeAt(p: Code, at: int, code: Code) { 0 <= at && at + |code| <= |p| && p[at..at + |code|] == code }

  predicate Running(s: State) {
    !s.halted && |s.regs| == NR_REGS && s.regs[6] == Val(CtxMem, 0) && s.regs[10] == Val(StackMem, 0)
  }

  lemma Ld64Step(p: Code, s: State, ch: Choice, d: nat, off: int)
    requires Running(s) && 0 <= s.pc < |p| && p[s.pc] == Ld64(d, off) && d <= 5
    ensures Step(p, s, ch) == s.(pc := s.pc + 2, regs := s.regs[d := Val(BlobMem, off)])
  {
  }

  lemma LoadStep(p: Code, s: State, ch: Choice, sz: Size, d: nat, r: nat, off: int)
    requires Running(s) && 0 <= s.pc < |p| && p[s.pc] == Load(sz, d, r, off) && d <= 5 && r < NR_REGS
    ensures Step(p, s, ch) == s.(pc := s.pc + 1, regs := s.regs[d := Val(Scalar, Read(s.mem, Shift(s.regs[r], off), Bytes(sz)))])
  {
  }

  lemma StoreStep(p: Code, s: State, ch: Choice, sz: Size, d: nat, r: nat)
    requires Running(s) && 0 <= s.pc < |p| && p[s.pc] == Store(sz, d, r, 0) && d <= 5 && r < NR_REGS
    ensures Step(p, s, ch) == s.(pc := s.pc + 1, mem := Write(s.mem, s.regs[d], Bytes(sz), ByteOf(s.regs[r].n, Bytes(sz))))
  {
    assert Shift(s.regs[d], 0) == s.regs[d];
  }

  lemma AtCode(p: Code, at: int, code: Code)
    requires CodeAt(p, at, code)
    ensures 0 <= at && at + |code| <= |p| && forall k {:trigger code[k]} :: 0 <= k < |code| ==> p[at + k] == code[k]
  {
    forall k | 0 <= k < |code| ensures p[at + k] == code[k] { assert p[at..at + |code|][k] == code[k]; }
  }

  /** emit_rel_store fills its field with the address. */
  lemma RelStoreRuns(p: Code, s: State, ch: nat -> Choice, t: nat, off: int, data: int)
    requires Running(s) && CodeAt(p, s.pc, RelStore(off, data))
    ensures Reached(s, Run(p, s, ch, t, 3), s.pc + 5, Filled(Address(off, data), s.mem))
  {
    hide Step, Run, Write, ByteOf, Read, CodeAt;
    var code := RelStore(off, data);
    AtCode(p, s.pc, code);
    assert p[s.pc] == code[0] && p[s.pc + 2] == code[2] && p[s.pc + 4] == code[4];
    Unroll(p, s, ch, t);
    Ld64Step(p, s, ch(t), 0, data);
    var s1 := Step(p, s, ch(t));
    Ld64Step(p, s1, ch(t + 1), 1, off);
    StoreStep(p, Step(p, s1, ch(t + 1)), ch(t + 2), DW, 1, 0);
  }

  /** The last two steps of a move to the blob: R0 is stored at `off`. */
  lemma StoreRuns(p: Code, s: State, ch: nat -> Choice, t: nat, off: int, sz: Size)
    requires Running(s) && 0 <= s.pc && s.pc + 3 <= |p| && p[s.pc] == Ld64(1, off) && p[s.pc + 2] == Store(sz, 1, 0, 0)
    ensures Reached(s, Run(p, s, ch, t, 2), s.pc + 3,
                    Write(s.mem, Val(BlobMem, off), Bytes(sz), ByteOf(s.regs[0].n, Bytes(sz))))
  {
    hide Step, Run, Write, ByteOf, Read;
    Unroll(p, s, ch, t);
    Ld64Step(p, s, ch(t), 1, off);
    StoreStep(p, Step(p, s, ch(t)), ch(t + 1), sz, 1, 0);
  }

  /** move_blob2blob */
  lemma BlobToBlobRuns(p: Code, s: State, ch: nat -> Choice, t: nat, off: int, sz: Size, src: int)
    requires Running(s) && CodeAt(p, s.pc, BlobToBlob(off, sz, src))
    ensures Reached(s, Run(p, s, ch, t, 4), s.pc + 6, Filled(FromBlob(off, sz, src), s.mem))
  {
    hide Step, Run, Write, ByteOf, Read, CodeAt;
    var code := BlobToBlob(off, sz, src);
    AtCode(p, s.pc, code);
    assert p[s.pc] == code[0] && p[s.pc + 2] == code[2] && p[s.pc + 3] == code[3] && p[s.pc + 5] == code[5];
    Unroll(p, s, ch, t);
    RunThen(p, s, ch, t, 2, 2);
    Ld64Step(p, s, ch(t), 2, src);
    var s1 := Step(p, s, ch(t));
    LoadStep(p, s1, ch(t + 1), sz, 0, 2, 0);
    assert Shift(s1.regs[2], 0) == Val(BlobMem, src);
    StoreRuns(p, Step(p, s1, ch(t + 1)), ch, t + 2, off, sz);
  }

  /** move_stack2blob */
  lemma StackToBlobRuns(p: Code, s: State, ch: nat -> Choice, t: nat, off: int, sz: Size, src: int)
    requires Running(s) && CodeAt(p, s.pc, StackToBlob(off, sz, src))
    ensures Reached(s, Run(p, s, ch, t, 3), s.pc + 4, Filled(FromStack(off, sz, src), s.mem))
  {
    hide Step, Run, Write, ByteOf, Read, CodeAt;
    var code := StackToBlob(off, sz, src);
    AtCode(p, s.pc, code);
    assert p[s.pc] == code[0] && p[s.pc + 1] == code[1] && p[s.pc + 3] == code[3];
    Unroll(p, s, ch, t);
    RunThen(p, s, ch, t, 1, 2);
    LoadStep(p, s, ch(t), sz, 0, 10, src);
    StoreRuns(p, Step(p, s, ch(t)), ch, t + 1, off, sz);
  }

  /** move_ctx2blob: a zero in the context may leave the field as it is. */
  lemma CtxToBlobRuns(p: Code, s: State, ch: nat -> Choice, t: nat, off: int, sz: Size, src: int, unlessZero: bool) returns (n: nat)
    requires Running(s) && CodeAt(p, s.pc, CtxToBlob(off, sz, src, unlessZero))
    ensures Reached(s, Run(p, s, ch, t, n), s.pc + |CtxToBlob(off, sz, src, unlessZero)|, Filled(FromCtx(off, sz, src, unlessZero), s.mem))
  {
    hide Step, Run, Write, ByteOf, Read, CodeAt;
    var code, x := CtxToBlob(off, sz, src, unlessZero), FromCtx(off, sz, src, unlessZero);
    AtCode(p, s.pc, code);
    assert p[s.pc] == code[0];
    Unroll(p, s, ch, t);
    LoadStep(p, s, ch(t), sz, 0, 6, src);
    var s1 := Step(p, s, ch(t));
    if !unlessZero {
      assert code == [Load(sz, 0, 6, src), Ld64(1, off), Ld64Hi, Store(sz, 1, 0, 0)];
      assert p[s.pc + 1] == code[1] && p[s.pc + 3] == code[3];
      RunThen(p, s, ch, t, 1, 2);
      StoreRuns(p, s1, ch, t + 1, off, sz);
      n := 3;
    } else {
      assert code == [Load(sz, 0, 6, src), Jump(JEQ, 0, 0, 3), Ld64(1, off), Ld64Hi, Store(sz, 1, 0, 0)];
      assert p[s.pc + 1] == code[1] && p[s.pc + 2] == code[2] && p[s.pc + 4] == code[4];
      SkipStep(p, s1, ch(t + 1));
      n := 2;
      if !Skipped(x, s.mem) {
        RunThen(p, s, ch, t, 2, 2);
        StoreRuns(p, Step(p, s1, ch(t + 1)), ch, t + 2, off, sz);
        n := 4;
      }
    }
  }

  lemma SkipStep(p: Code, s: State, ch: Choice)
    requires Running(s) && 0 <= s.pc < |p| && p[s.pc] == Jump(JEQ, 0, 0, 3)
    ensures Step(p, s, ch) == s.(pc := s.pc + if s.regs[0].n == 0 then 4 else 1)
  {
  }

  lemma FieldRuns(p: Code, s: State, ch: nat -> Choice, t: nat, x: Field) returns (n: nat)
    requires Running(s) && CodeAt(p, s.pc, FieldCode(x))
    ensures Reached(s, Run(p, s, ch, t, n), s.pc + |FieldCode(x)|, Filled(x, s.mem))
  {
    hide Run, Filled, CodeAt, Reached;
    match x {
      case Address(off, data) =>
        RelStoreRuns(p, s, ch, t, off, data);
        n := 3;
      case FromBlob(off, size, src) =>
        BlobToBlobRuns(p, s, ch, t, off, size, src);
        n := 4;
      case FromCtx(off, size, src, unlessZero) =>
        n := CtxToBlobRuns(p, s, ch, t, off, size, src, unlessZero);
      case FromStack(off, size, src) =>
        StackToBlobRuns(p, s, ch, t, off, size, src);
        n := 3;
    }
  }

  // ------------------------------------------------------------------ all fields

  function FilledAll(fed: seq<Field>, mem: map<Val, nat>): map<Val, nat> {
    if fed == [] then mem else Filled(fed[|fed| - 1], FilledAll(fed[..|fed| - 1], mem))
  }

  lemma {:induction false} FieldsRun(p: Code, s: State, ch: nat -> Choice, t: nat, fed: seq<Field>) returns (n: nat)
    requires Running(s) && CodeAt(p, s.pc, FieldsCode(fed))
    ensures Reached(s, Run(p, s, ch, t, n), s.pc + |FieldsCode(fed)|, FilledAll(fed, s.mem))
  {
    hide Run, Filled, FieldCode;
    if fed == [] {
      n := 0;
      RunNone(p, s, ch, t);
    } else {
      var front, last := fed[..|fed| - 1], fed[|fed| - 1];
      CodeAtParts(p, s.pc, FieldsCode(front), FieldCode(last));
      var a := FieldsRun(p, s, ch, t, front);
      var s1 := Run(p, s, ch, t, a);
      var b := FieldRuns(p, s1, ch, t + a, last);
      RunThen(p, s, ch, t, a, b);
      n := a + b;
    }
  }

  lemma RunNone(p: Code, s: State, ch: nat -> Choice, t: nat)
    ensures Run(p, s, ch, t, 0) == s
  {
  }

  lemma CodeAtParts(p: Code, at: int, a: Code, b: Code)
    requires CodeAt(p, at, a + b)
    ensures CodeAt(p, at, a) && CodeAt(p, at + |a|, b)
  {
    assert p[at..at + |a|] == p[at..at + |a + b|][..|a|];
    assert p[at + |a|..at + |a| + |b|] == p[at..at + |a + b|][|a|..];
  }

  predicate Disjoint(a: Val, n: nat, b: Val, m: nat) {
    a.region != b.region || a.n + n <= b.n || b.n + m <= a.n
  }

  /** The two fields have no byte in common, and the second is not where the first takes its bytes from. */
  predicate ApartFrom(x: Field, y: Field) {
    Disjoint(Dest(x), Bytes(Width(x)), Dest(y), Bytes(Width(y))) && SourceApart(x, y)
  }

  predicate SourceApart(x: Field, y: Field) {
    Disjoint(Source(x), Bytes(Width(x)), Dest(y), Bytes(Width(y)))
  }

  /** No two fields overlap, nor does a field overlap what another, or itself, is filled from. */
  predicate Apart(fed: seq<Field>) {
    && (forall i :: 0 <= i < |fed| ==> SourceApart(fed[i], fed[i]))
    && forall i, j :: 0 <= i < j < |fed| ==> ApartFrom(fed[i], fed[j])
  }

  lemma FilledOutside(x: Field, mem: map<Val, nat>, b: Val)
    requires !Within(b, Dest(x), Bytes(Width(x)))
    ensures ByteAt(Filled(x, mem), b) == ByteAt(mem, b)
  {
    hide Write, Read;
    WriteOutside(mem, Dest(x), Bytes(Width(x)), ByteOf(if x.Address? then x.data else Content(x, mem), Bytes(Width(x))), b);
  }

  /** A field just filled. */
  lemma FilledHolds(x: Field, mem: map<Val, nat>)
    requires SourceApart(x, x)
    ensures Holds(x, Filled(x, mem))
  {
    hide Read, Write, ByteOf, Pow2;
    var w, mem' := Bytes(Width(x)), Filled(x, mem);
    if !x.Address? {
      forall b | Within(b, Source(x), w) ensures ByteAt(mem, b) == ByteAt(mem', b) { FilledOutside(x, mem, b); }
      ReadSame(mem, mem', Source(x), w);
    }
    if !Skipped(x, mem) {
      var v := if x.Address? then x.data else Content(x, mem);
      ReadWritten(mem, Dest(x), w, v);
      FitsWidth(x, mem);
    }
  }

  lemma {:induction false} ReadBound(mem: map<Val, nat>, a: Val, n: nat)
    ensures Read(mem, a, n) < Pow2(8 * n)
    decreases n
  {
    if n == 0 {
      PowZero();
    } else {
      ReadBound(mem, Shift(a, 1), n - 1);
      PowNext(n - 1);
    }
  }

  lemma FitsWidth(x: Field, mem: map<Val, nat>)
    ensures Unsigned(if x.Address? then x.data else Content(x, mem)) % Pow2(8 * Bytes(Width(x))) == Content(x, mem)
  {
    hide Read, Pow2, Unsigned;
    var w := Bytes(Width(x));
    PowersUpTo64();
    if x.Address? {
      UnsignedSmall(x.data);
      DivIs(Unsigned(x.data), Pow2(64), 0, Unsigned(x.data));
    } else {
      ReadBound(mem, Source(x), w);
      UnsignedIs(Content(x, mem));
      DivIs(Content(x, mem), Pow2(8 * w), 0, Content(x, mem));
    }
  }

  lemma UnsignedSmall(v: int)
    ensures Unsigned(v) < 0x1_0000_0000_0000_0000
  {
  }

  lemma UnsignedIs(v: nat)
    ensures v < 0x1_0000_0000_0000_0000 ==> Unsigned(v) == v
  {
  }

  lemma PowersUpTo64()
    ensures Pow2(8) == 0x100 && Pow2(16) == 0x1_0000 && Pow2(32) == 0x1_0000_0000 && Pow2(64) == 0x1_0000_0000_0000_0000
  {
    PowZero();
    PowNext(0);
    PowNext(1);
    PowNext(2);
    PowNext(3);
    PowNext(4);
    PowNext(5);
    PowNext(6);
    PowNext(7);
  }

  predicate AllHold(fed: seq<Field>, mem: map<Val, nat>) {
    forall i :: 0 <= i < |fed| ==> Holds(fed[i], mem)
  }

  /** What a field is filled with and what it holds, in two memories that agree there. */
  lemma SameHolds(x: Field, mem: map<Val, nat>, mem': map<Val, nat>)
    requires Holds(x, mem)
    requires forall b :: Within(b, Dest(x), Bytes(Width(x))) ==> ByteAt(mem, b) == ByteAt(mem', b)
    requires forall b :: Within(b, Source(x), Bytes(Width(x))) ==> ByteAt(mem, b) == ByteAt(mem', b)
    ensures Holds(x, mem')
  {
    hide Read, ByteAt, Within;
    ReadSame(mem, mem', Dest(x), Bytes(Width(x)));
    ReadSame(mem, mem', Source(x), Bytes(Width(x)));
  }

  lemma HoldsKept(x: Field, y: Field, mem: map<Val, nat>)
    requires Holds(x, mem) && ApartFrom(x, y)
    ensures Holds(x, Filled(y, mem))
  {
    hide Read, ByteAt, Filled, Holds;
    forall b | Within(b, Dest(x), Bytes(Width(x))) || Within(b, Source(x), Bytes(Width(x)))
      ensures ByteAt(mem, b) == ByteAt(Filled(y, mem), b)
    {
      FilledOutside(y, mem, b);
    }
    SameHolds(x, mem, Filled(y, mem));
  }

  lemma {:induction false} AllFilled(fed: seq<Field>, mem: map<Val, nat>)
    requires Apart(fed)
    ensures AllHold(fed, FilledAll(fed, mem))
  {
    hide Filled, Holds, ApartFrom, SourceApart;
    if fed != [] {
      var front, last := fed[..|fed| - 1], fed[|fed| - 1];
      AllFilled(front, mem);
      FilledHolds(last, FilledAll(front, mem));
      forall i | 0 <= i < |front| ensures Holds(fed[i], FilledAll(fed, mem)) {
        assert Holds(front[i], FilledAll(front, mem));
        HoldsKept(fed[i], last, FilledAll(front, mem));
      }
    }
  }

  // ------------------------------------------------- between the fields and the command

  /** No byte of the field, nor of what it is filled from, is among those that the
      code up to the command may write. */
  predicate Guarded(t: Task, a: Val, n: nat) {
    a.region != BlobMem || (t.attr <= a.n && a.n + n <= t.attr + t.size && forall k :: 0 <= k < |t.loose| ==> Disjoint(a, n, Val(BlobMem, t.loose[k]), 4))
  }

  predicate Safe(t: Task, x: Field) {
    Guarded(t, Dest(x), Bytes(Width(x))) && Guarded(t, Source(x), Bytes(Width(x)))
  }

  /** Memory is the same except where the task does not care. */
  ghost predicate Same(t: Task, mem: map<Val, nat>, mem': map<Val, nat>) {
    forall a :: Guarded(t, a, 1) ==> ByteAt(mem', a) == ByteAt(mem, a)
  }

  lemma GuardedByte(t: Task, a: Val, n: nat, b: Val)
    requires Guarded(t, a, n) && Within(b, a, n)
    ensures Guarded(t, b, 1)
  {
  }

  lemma SafeHolds(t: Task, x: Field, mem: map<Val, nat>, mem': map<Val, nat>)
    requires Safe(t, x) && Holds(x, mem) && Same(t, mem, mem')
    ensures Holds(x, mem')
  {
    hide Holds, Guarded, ByteAt;
    forall b | Within(b, Dest(x), Bytes(Width(x))) ensures ByteAt(mem, b) == ByteAt(mem', b) {
      GuardedByte(t, Dest(x), Bytes(Width(x)), b);
    }
    forall b | Within(b, Source(x), Bytes(Width(x))) ensures ByteAt(mem, b) == ByteAt(mem', b) {
      GuardedByte(t, Source(x), Bytes(Width(x)), b);
    }
    SameHolds(x, mem, mem');
  }

  lemma ClearSame(t: Task, mem: map<Val, nat>, x: int, n: nat, bytes: nat -> nat)
    requires Clear(t, x, n)
    ensures Same(t, mem, Write(mem, Val(BlobMem, x), n, bytes))
  {
    hide Write, ByteAt;
    forall a | Guarded(t, a, 1) ensures ByteAt(Write(mem, Val(BlobMem, x), n, bytes), a) == ByteAt(mem, a) {
      WriteOutside(mem, Val(BlobMem, x), n, bytes, a);
    }
  }

  /** One instruction that spares the task. */
  lemma SpareStep(p: Code, l: Layout, s: State, t: Task, ch: Choice)
    requires Body(p, l) && InBody(p, l, s) && s.pc < |p| && SpareAt(p, l.body, s.pc, t)
    ensures Same(t, s.mem, Step(Finished(p), s, ch).mem)
  {
    hide Write, Read, Clear, Fresh, JustCalled, Same;
    assert Finished(p)[s.pc] == p[s.pc] && BodyInsn(p, l, s.pc);
    SameSelf(t, s.mem);
    match p[s.pc] {
      case Store(sz, d, r, off) =>
        var x :| Known(p, l.body, s.pc, d, x) && Clear(t, x + off, Bytes(sz));
        ClearSame(t, s.mem, x + off, Bytes(sz), ByteOf(s.regs[r].n, Bytes(sz)));
      case StoreImm(sz, d, off, n) =>
        var x :| Known(p, l.body, s.pc, d, x) && Clear(t, x + off, Bytes(sz));
        ClearSame(t, s.mem, x + off, Bytes(sz), ByteOf(n, Bytes(sz)));
      case Call(f) =>
        if f == KallsymsLookup {
          var x :| Known(p, l.body, s.pc, 4, x) && Clear(t, x, 8);
          ClearSame(t, s.mem, x, 8, ch.bytes);
        }
      case _ =>
    }
  }

  lemma SameSelf(t: Task, mem: map<Val, nat>)
    ensures Same(t, mem, mem)
  {
  }

  lemma SameTwice(t: Task, m1: map<Val, nat>, m2: map<Val, nat>, m3: map<Val, nat>)
    requires Same(t, m1, m2) && Same(t, m2, m3)
    ensures Same(t, m1, m3)
  {
  }

  // ------------------------------------------------------------------------ the run

  /** The run is over, or in the cleanup code. */
  predicate Out(p: Code, l: Layout, s: State) {
    s.halted || l.clean <= s.pc < l.body || s.pc > |p|
  }

  /** An instruction of the cleanup code after which the run is still there. */
  predicate StaysClean(p: Code, l: Layout, pc: int)
    requires 0 <= pc < |p|
  {
    p[pc].Exit? || (l.clean <= Target(p[pc], pc) < l.body && pc + 1 < l.body && (p[pc].Ld64? ==> pc + 2 < l.body))
  }

  lemma CleanStays(p: Code, l: Layout, pc: int)
    requires Cleanup(p, l) && l.clean <= pc < l.body
    ensures 0 <= pc < |p| && StaysClean(p, l, pc)
  {
    hide StaysClean, Cleanup;
    CleanupEnd(p, l);
    if pc < l.clean + 3 * l.slots {
      SlotsStay(p, l, pc);
    } else if pc < l.body - 2 {
      MapsStay(p, l, pc);
    } else {
      EndStays(p, l, pc);
    }
  }

  lemma SlotsStay(p: Code, l: Layout, pc: int)
    requires Cleanup(p, l) && l.clean <= pc < l.clean + 3 * l.slots
    ensures 0 <= pc < |p| && StaysClean(p, l, pc)
  {
    hide ClosesSlot, ClosesBlob, StaysClean;
    var i := (pc - l.clean) / 3;
    assert ClosesSlot(p, l.clean + 3 * i, i);
    CleanupEnd(p, l);
    LenPositive(l.debug);
    AtLeast(CloseLen(l.debug), l.maps);
    SlotStays(p, l, pc, i);
  }

  lemma MapsStay(p: Code, l: Layout, pc: int)
    requires Cleanup(p, l) && l.clean + 3 * l.slots <= pc < l.body - 2
    ensures 0 <= pc < |p| && StaysClean(p, l, pc)
  {
    hide ClosesSlot, ClosesBlob, StaysClean, CloseLen;
    LenPositive(l.debug);
    var i := MapAt(pc - l.clean - 3 * l.slots, CloseLen(l.debug), l.maps);
    assert ClosesBlob(p, l.clean + 3 * l.slots + CloseLen(l.debug) * i, l.fdArray + 4 * i, l.debug);
    BlobStays(p, l, pc, l.clean + 3 * l.slots + CloseLen(l.debug) * i, l.fdArray + 4 * i);
  }

  lemma LenPositive(debug: bool)
    ensures CloseLen(debug) > 0
  {
  }

  lemma SlotStays(p: Code, l: Layout, pc: int, i: nat)
    requires l.clean + 3 * i <= pc < l.clean + 3 * i + 3 < l.body <= |p| && ClosesSlot(p, l.clean + 3 * i, i)
    ensures StaysClean(p, l, pc)
  {
  }

  lemma BlobStays(p: Code, l: Layout, pc: int, at: nat, off: int)
    requires l.clean <= at <= pc < at + CloseLen(l.debug) < l.body <= |p| && ClosesBlob(p, at, off, l.debug)
    ensures StaysClean(p, l, pc)
  {
  }

  lemma EndStays(p: Code, l: Layout, pc: int)
    requires Cleanup(p, l) && l.body - 2 <= pc < l.body
    ensures 0 <= pc < |p| && StaysClean(p, l, pc)
  {
    hide ClosesSlot, ClosesBlob, CloseLen;
    LenPositive(l.debug);
    AtLeast(CloseLen(l.debug), l.maps);
  }

  lemma MapAt(e: nat, len: nat, maps: nat) returns (i: nat)
    requires len > 0 && e < len * maps
    ensures i < maps && len * i <= e < len * i + len && len * i + len <= len * maps
  {
    i := e / len;
    assert e == len * i + e % len;
    AtLeast(i - maps, len);
    AtLeast(maps - i - 1, len);
  }

  /** Once there, the run never comes back. */
  lemma OutStep(p: Code, l: Layout, s: State, ch: Choice)
    requires Cleanup(p, l) && Out(p, l, s)
    ensures Out(p, l, Step(Finished(p), s, ch))
  {
    hide Write, Read, CallMem, Cleanup;
    CleanupEnd(p, l);
    if !s.halted && l.clean <= s.pc < l.body {
      CleanStays(p, l, s.pc);
      assert Finished(p)[s.pc] == p[s.pc];
    }
  }

  lemma {:induction false} OutForGood(p: Code, l: Layout, s: State, ch: nat -> Choice, t: nat, n: nat)
    requires Cleanup(p, l) && Out(p, l, s)
    ensures Out(p, l, Run(Finished(p), s, ch, t, n))
    decreases n
  {
    hide Out, Cleanup, Step;
    if n > 0 {
      OutStep(p, l, s, ch(t));
      OutForGood(p, l, Step(Finished(p), s, ch(t)), ch, t + 1, n - 1);
    }
  }

  /** Every step from within the body goes onwards, or out of it for good. */
  lemma BodyOrOut(p: Code, l: Layout, s: State, ch: Choice)
    requires Shape(p, l) && InBody(p, l, s)
    ensures var s' := Step(Finished(p), s, ch); Out(p, l, s') || (InBody(p, l, s') && s'.pc > s.pc)
  {
    hide Write, Read, CallMem, Cleanup, Body, Fresh, JustCalled, Known;
    CleanupEnd(p, l);
    if s.pc < |p| { BodyStep(p, l, s, ch); } else { assert Finished(p)[s.pc] == MovImm(0, 0); }
  }

  lemma {:induction false} Ahead(p: Code, l: Layout, s: State, ch: nat -> Choice, t: nat, n: nat)
    requires Shape(p, l) && InBody(p, l, s)
    ensures var s' := Run(Finished(p), s, ch, t, n); Out(p, l, s') || (InBody(p, l, s') && s'.pc >= s.pc + n)
    decreases n
  {
    hide Out, Step, InBody, Body, Cleanup, Prologue;
    if n > 0 {
      BodyOrOut(p, l, s, ch(t));
      var s1 := Step(Finished(p), s, ch(t));
      if Out(p, l, s1) { OutForGood(p, l, s1, ch, t + 1, n - 1); } else { Ahead(p, l, s1, ch, t + 1, n - 1); }
    }
  }

  /** A place over which nothing leads. */
  predicate Mark(p: Code, l: Layout, mark: nat) {
    Passed(p, l.body, mark) && (mark < |p| ==> !p[mark].Ld64Hi?)
  }

  /** A run that gets beyond a place over which no jump leads has been there. */
  lemma {:induction false} Passes(p: Code, l: Layout, mark: nat, s: State, ch: nat -> Choice, t: nat, n: nat) returns (m: nat)
    requires Shape(p, l) && InBody(p, l, s) && s.pc <= mark && Mark(p, l, mark)
    requires var s' := Run(Finished(p), s, ch, t, n); !Out(p, l, s') && s'.pc >= mark
    ensures m <= n && InBody(p, l, Run(Finished(p), s, ch, t, m)) && Run(Finished(p), s, ch, t, m).pc == mark
    decreases n
  {
    hide Out, Step, InBody, Body, Cleanup, Prologue;
    RunNone(Finished(p), s, ch, t);
    if s.pc == mark {
      m := 0;
    } else {
      var s1 := Step(Finished(p), s, ch(t));
      BodyOrOut(p, l, s, ch(t));
      if Out(p, l, s1) { OutForGood(p, l, s1, ch, t + 1, n - 1); }
      NotOver(p, l, s, ch(t), mark);
      m := Passes(p, l, mark, s1, ch, t + 1, n - 1);
      m := m + 1;
    }
  }

  lemma NotOver(p: Code, l: Layout, s: State, ch: Choice, mark: nat)
    requires Shape(p, l) && InBody(p, l, s) && s.pc < mark && Mark(p, l, mark)
    ensures var s' := Step(Finished(p), s, ch); Out(p, l, s') || s'.pc <= mark
  {
    hide Write, Read, CallMem, Fresh, JustCalled, Known, Cleanup;
    StepGoes(p, l, s, ch);
    CleanupEnd(p, l);
    assert BodyInsn(p, l, s.pc);
    InBodyTarget(p, l, s, mark);
  }

  lemma InBodyTarget(p: Code, l: Layout, s: State, mark: nat)
    requires InBody(p, l, s) && s.pc < mark && Passed(p, l.body, mark)
    ensures Target(p[s.pc], s.pc) <= mark
  {
  }

  /** A place of the body is reached at most once. */
  lemma OnlyOnce(p: Code, l: Layout, s: State, ch: nat -> Choice, t: nat, m: nat, n: nat)
    requires Shape(p, l) && InBody(p, l, s)
    requires var a, b := Run(Finished(p), s, ch, t, m), Run(Finished(p), s, ch, t, n);
      !Out(p, l, a) && !Out(p, l, b) && a.pc <= b.pc
    ensures m <= n
  {
    hide Out, Step, InBody, Shape, Run;
    if n < m {
      Ahead(p, l, s, ch, t, n);
      RunThen(Finished(p), s, ch, t, n, m - n);
      Ahead(p, l, Run(Finished(p), s, ch, t, n), ch, t + n, m - n);
    }
  }

  /** From where the fields have been filled, to where the registers are set up. */
  lemma {:induction false} Between(p: Code, l: Layout, t: Task, upto: nat, end: nat, s: State, ch: nat -> Choice, time: nat, n: nat)
    returns (m: nat)
    requires Shape(p, l) && InBody(p, l, s) && upto <= s.pc <= end && Mark(p, l, end) && Spared(p, l.body, upto, end, t)
    requires var s' := Run(Finished(p), s, ch, time, n); !Out(p, l, s') && s'.pc >= end
    ensures m <= n && var s' := Run(Finished(p), s, ch, time, m); InBody(p, l, s') && s'.pc == end && Same(t, s.mem, s'.mem)
    decreases n
  {
    hide Out, Step, InBody, Body, Cleanup, Prologue, Same, SpareAt, Mark;
    RunNone(Finished(p), s, ch, time);
    if s.pc == end {
      m := 0;
      SameSelf(t, s.mem);
    } else {
      var s1 := Step(Finished(p), s, ch(time));
      BodyOrOut(p, l, s, ch(time));
      if Out(p, l, s1) { OutForGood(p, l, s1, ch, time + 1, n - 1); }
      NotOver(p, l, s, ch(time), end);
      SpareStep(p, l, s, t, ch(time));
      m := Between(p, l, t, upto, end, s1, ch, time + 1, n - 1);
      SameTwice(t, s.mem, s1.mem, Run(Finished(p), s1, ch, time + 1, m).mem);
      m := m + 1;
    }
  }

  /** R1, R2 and R3 as emit_sys_bpf sets them. */
  predicate Passing(s: State, arg: int, attr: int, size: int) {
    |s.regs| == NR_REGS && s.regs[1] == Val(Scalar, arg) && s.regs[2] == Val(BlobMem, attr) && s.regs[3] == Val(Scalar, size)
  }

  lemma LastThree(p: Code, s: State, ch: nat -> Choice, t: nat, arg: int, attr: int, size: int)
    requires Running(s) && CodeAt(p, s.pc, [MovImm(1, arg), Ld64(2, attr), Ld64Hi, MovImm(3, size)])
    ensures var s' := Run(p, s, ch, t, 3); !s'.halted && s'.pc == s.pc + 4 && s'.mem == s.mem && Passing(s', arg, attr, size)
  {
    hide Run, CodeAt;
    var code := [MovImm(1, arg), Ld64(2, attr), Ld64Hi, MovImm(3, size)];
    AtCode(p, s.pc, code);
    assert p[s.pc] == code[0] && p[s.pc + 1] == code[1] && p[s.pc + 3] == code[3];
    Unroll(p, s, ch, t);
    var s1 := Step(p, s, ch(t));
    Ld64Step(p, s1, ch(t + 1), 2, attr);
  }

  /** The run that has been at `from` has filled the fields by the time it is at `upto`. */
  lemma FieldsDone(p: Code, l: Layout, c: Cmd, s: State, ch: nat -> Choice, t: nat, n: nat) returns (m: nat)
    requires Shape(p, l) && Given(p, l, c) && InBody(p, l, s) && s.pc == c.from
    requires var s' := Run(Finished(p), s, ch, t, n); !Out(p, l, s') && s'.pc >= c.upto
    ensures m <= n
    ensures var s' := Run(Finished(p), s, ch, t, m);
      InBody(p, l, s') && s'.pc == c.upto && s'.mem == FilledAll(c.task.fed, s.mem)
  {
    hide Out, Step, InBody, Shape, Run, FilledAll, FieldsCode, Spared, Passed;
    InBodyRunning(p, l, s);
    OnFinished(p, c.from, FieldsCode(c.task.fed));
    m := FieldsRun(Finished(p), s, ch, t, c.task.fed);
    Ahead(p, l, s, ch, t, m);
    NotOutAt(p, l, Run(Finished(p), s, ch, t, m));
    OnlyOnce(p, l, s, ch, t, m, n);
  }

  lemma InBodyRunning(p: Code, l: Layout, s: State)
    requires InBody(p, l, s)
    ensures Running(s)
  {
  }

  lemma OnFinished(p: Code, at: nat, code: Code)
    requires at + |code| <= |p| && p[at..at + |code|] == code
    ensures CodeAt(Finished(p), at, code)
  {
    assert Finished(p)[at..at + |code|] == p[at..at + |code|];
  }

  lemma NotOutAt(p: Code, l: Layout, s: State)
    requires !s.halted && l.body <= s.pc <= |p|
    ensures !Out(p, l, s)
  {
  }

  /** Where the fields are filled no jump leads past, and neither past the registers' setup. */
  lemma Marks(p: Code, l: Layout, c: Cmd)
    requires Given(p, l, c) && c.at < |p|
    ensures c.at >= 4 && Mark(p, l, c.at - 4) && (c.task.fed != [] ==> Mark(p, l, c.from))
  {
    assert p[c.at - 4] == p[c.at - 4..c.at][0];
    if c.task.fed != [] {
      FieldsStart(c.task.fed);
      assert p[c.from] == p[c.from..c.upto][0];
    }
  }

  lemma {:induction false} FieldsStart(fed: seq<Field>)
    requires fed != []
    ensures FieldsCode(fed) != [] && !FieldsCode(fed)[0].Ld64Hi?
  {
    var front, last := fed[..|fed| - 1], fed[|fed| - 1];
    assert FieldCode(last) != [] && !FieldCode(last)[0].Ld64Hi?;
    if front != [] { FieldsStart(front); }
  }

  /** The fields of a task fit together: they do not overlap, and what comes between
      filling them and the command does not touch them. */
  predicate Fits(c: Cmd) {
    Apart(c.task.fed) && (c.upto + 4 < c.at ==> forall i :: 0 <= i < |c.task.fed| ==> Safe(c.task, c.task.fed[i]))
  }

  lemma FieldsHold(c: Cmd, mem0: map<Val, nat>, mem: map<Val, nat>)
    requires Fits(c) && c.upto + 4 <= c.at && Same(c.task, FilledAll(c.task.fed, mem0), mem)
    requires c.upto + 4 == c.at ==> mem == FilledAll(c.task.fed, mem0)
    ensures AllHold(c.task.fed, mem)
  {
    hide Same, Holds, Safe, FilledAll, Apart;
    AllFilled(c.task.fed, mem0);
    forall i | 0 <= i < |c.task.fed| ensures Holds(c.task.fed[i], mem) {
      if c.upto + 4 < c.at { SafeHolds(c.task, c.task.fed[i], FilledAll(c.task.fed, mem0), mem); }
    }
  }

  /** What a bpf command is given when a run from within the body reaches it. */
  lemma GivenFromBody(p: Code, l: Layout, c: Cmd, s: State, ch: nat -> Choice, t: nat, n: nat)
    requires Shape(p, l) && Given(p, l, c) && c.at < |p| && InBody(p, l, s) && s.pc == l.body
    requires var s' := Run(Finished(p), s, ch, t, n); !s'.halted && s'.pc == c.at
    ensures var s' := Run(Finished(p), s, ch, t, n);
      Passing(s', c.arg, c.task.attr, c.task.size) && (Fits(c) ==> AllHold(c.task.fed, s'.mem))
  {
    hide Out, Step, InBody, Shape, Run, Spared, Passed, Given, AllHold, FilledAll, Same, Fits, Mark, Passing;
    var q, end := Finished(p), Run(Finished(p), s, ch, t, n);
    GivenParts(p, l, c);
    Marks(p, l, c);
    NotOutAt(p, l, end);
    var k: nat, mem0 := 0, s.mem;
    if c.task.fed == [] {
      k := Passes(p, l, c.at - 4, s, ch, t, n);
      SameSelf(c.task, Run(q, s, ch, t, k).mem);
      mem0 := Run(q, s, ch, t, k).mem;
      NothingFilled(mem0);
    } else {
      var a := Passes(p, l, c.from, s, ch, t, n);
      RunThen(q, s, ch, t, a, n - a);
      mem0 := Run(q, s, ch, t, a).mem;
      var b := FieldsDone(p, l, c, Run(q, s, ch, t, a), ch, t + a, n - a);
      RunThen(q, s, ch, t, a, b);
      RunThen(q, s, ch, t, a + b, n - a - b);
      k := a + b;
      SameSelf(c.task, Run(q, s, ch, t, k).mem);
      if c.upto + 4 < c.at {
        var d := Between(p, l, c.task, c.upto, c.at - 4, Run(q, s, ch, t, a + b), ch, t + (a + b), n - a - b);
        RunThen(q, s, ch, t, a + b, d);
        k := a + b + d;
      }
    }
    RegistersSet(p, l, c, s, ch, t, k, n);
    if Fits(c) { FieldsHold(c, mem0, Run(q, s, ch, t, k).mem); }
  }

  lemma NothingFilled(mem: map<Val, nat>)
    ensures FilledAll([], mem) == mem
  {
  }

  lemma GivenParts(p: Code, l: Layout, c: Cmd)
    requires Given(p, l, c)
    ensures l.body <= c.from <= c.upto <= c.at - 4 <= |p| && (c.task.fed == [] ==> c.from == c.upto)
    ensures c.task.fed != [] ==> Spared(p, l.body, c.upto, c.at - 4, c.task)
    ensures p[c.at - 4..c.at] == [MovImm(1, c.arg), Ld64(2, c.task.attr), Ld64Hi, MovImm(3, c.task.size)]
  {
    hide Spared, Passed;
  }

  /** The last steps before the command. */
  lemma RegistersSet(p: Code, l: Layout, c: Cmd, s: State, ch: nat -> Choice, t: nat, k: nat, n: nat)
    requires Shape(p, l) && Given(p, l, c) && c.at < |p| && k <= n && InBody(p, l, Run(Finished(p), s, ch, t, k))
    requires Run(Finished(p), s, ch, t, k).pc == c.at - 4
    requires var s' := Run(Finished(p), s, ch, t, n); !s'.halted && s'.pc == c.at
    ensures var s' := Run(Finished(p), s, ch, t, n);
      Passing(s', c.arg, c.task.attr, c.task.size) && s'.mem == Run(Finished(p), s, ch, t, k).mem
  {
    hide Out, Step, InBody, Shape, Run, Spared, Passed, Given, Passing, CodeAt;
    var q, s1 := Finished(p), Run(Finished(p), s, ch, t, k);
    GivenParts(p, l, c);
    InBodyRunning(p, l, s1);
    OnFinished(p, c.at - 4, [MovImm(1, c.arg), Ld64(2, c.task.attr), Ld64Hi, MovImm(3, c.task.size)]);
    LastThree(q, s1, ch, t + k, c.arg, c.task.attr, c.task.size);
    RunThen(q, s, ch, t, k, n - k);
    NotOutAt(p, l, Run(q, s1, ch, t + k, 3));
    NotOutAt(p, l, Run(q, s1, ch, t + k, n - k));
    OnlyOnce(p, l, s1, ch, t + k, 3, n - k);
    OnlyOnce(p, l, s1, ch, t + k, n - k, 3);
  }

  /** The first seven steps. */
  lemma PrologueSteps(p: Code, l: Layout, s: State, ch: nat -> Choice, n: nat)
    requires Shape(p, l) && Initial(s) && n < 7
    ensures Run(Finished(p), s, ch, 0, n).pc < 7
  {
    hide Step, Body, Cleanup, Write, Read, CallMem;
    var q := Finished(p);
    assert q[..7] == p[..7];
    RunNone(q, s, ch, 0);
    Unroll(q, s, ch, 0);
    var s1 := Step(q, s, ch(0));
    FirstStep(q, s, ch(0));
    var s2 := Step(q, s1, ch(1));
    FirstStep(q, s1, ch(1));
    var s3 := Step(q, s2, ch(2));
    FirstStep(q, s2, ch(2));
    if n > 3 {
      RunThen(q, s, ch, 0, 3, n - 3);
      Unroll(q, s3, ch, 3);
      FirstStep(q, s3, ch(3));
      var s4 := Step(q, s3, ch(3));
      FirstStep(q, s4, ch(4));
      var s5 := Step(q, s4, ch(4));
      FirstStep(q, s5, ch(5));
    }
  }

  /** In every run of a finished loader that gets to one of its bpf commands, R1, R2 and
      R3 are the command, the address and the size of its attributes, and the fields
      filled at run time hold what they should. */
  lemma CommandGiven(p: Code, l: Layout, cmds: seq<Cmd>, i: nat, s: State, ch: nat -> Choice, n: nat)
    requires Shape(p, l) && Traced(p, l, cmds) && i < |cmds| && cmds[i].f == SysBpf && Initial(s)
    requires var s' := Run(Finished(p), s, ch, 0, n); !s'.halted && s'.pc == cmds[i].at
    ensures var c, s' := cmds[i], Run(Finished(p), s, ch, 0, n);
      Passing(s', c.arg, c.task.attr, c.task.size) && (Fits(c) ==> AllHold(c.task.fed, s'.mem))
  {
    hide Step, InBody, Body, Cleanup, Run, Given, AllHold, Fits, Passing;
    assert CmdOk(p, l, cmds[i]);
    if n < 7 {
      PrologueSteps(p, l, s, ch, n);
    } else {
      PrologueRuns(p, l, s, ch);
      RunThen(Finished(p), s, ch, 0, 7, n - 7);
      GivenFromBody(p, l, cmds[i], Run(Finished(p), s, ch, 0, 7), ch, 7, n - 7);
    }
  }
}
