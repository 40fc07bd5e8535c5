/** The machine that runs a generated loader, and why a loader of the right
    shape either finishes with 0 or cleans up and returns the error. */
module LoaderMachine {

  datatype Size = B | H | W | DW

  datatype Cond = JEQ | JNE | JSLT | JSLE | JSGE | JSET

  datatype Helper = SysBpf | SysClose | FindByNameKind | KallsymsLookup | ProbeReadKernel | CopyFromUser | TracePrintk

  /** One instruction slot; loading a 64-bit constant takes two. */
  datatype Insn =
    | MovReg(dst: nat, src: nat)
    | MovImm(dst: nat, imm: int)
    | AddImm(dst: nat, imm: int)
    | AndImm(dst: nat, mask: nat)
    | RshImm(dst: nat, bits: nat)
    | Ld64(dst: nat, off: int)            // address of byte `off` of the blob
    | Ld64Hi
    | Load(size: Size, dst: nat, src: nat, off: int)
    | Store(size: Size, dst: nat, src: nat, off: int)
    | StoreImm(size: Size, dst: nat, off: int, imm: int)
    | Call(f: Helper)
    | Jump(c: Cond, reg: nat, imm: int, off: int)
    | Always(off: int)
    | Exit

  type Code = seq<Insn>

  // ---------------------------------------------------------------- the machine

  datatype Region = Scalar | CtxMem | StackMem | BlobMem

  /** A number, or an address in one of the memories. */
  datatype Val = Val(region: Region, n: int)

  /** What the kernel decides at a call: the result, what is left in the
      caller-saved registers, and the bytes it writes where it was asked to. */
  datatype Choice = Choice(ret: int, scratch: int, bytes: nat -> nat)

  datatype State = State(pc: int, regs: seq<Val>, mem: map<Val, nat>, closed: seq<int>,
                         last: int,  // result of the last command
                         halted: bool)

  const NR_REGS := 11
  const STACK_SZ := 136

  function Bytes(s: Size): nat {
    match s case B => 1 case H => 2 case W => 4 case DW => 8
  }

  function ByteAt(mem: map<Val, nat>, a: Val): nat {
    if a in mem then mem[a] % 256 else 0
  }

  function Read(mem: map<Val, nat>, a: Val, n: nat): nat
    decreases n
  {
    if n == 0 then 0 else ByteAt(mem, a) + 256 * Read(mem, Val(a.region, a.n + 1), n - 1)
  }

  function Write(mem: map<Val, nat>, a: Val, n: nat, bytes: nat -> nat): map<Val, nat>
    decreases n
  {
    if n == 0 then mem else Write(mem[a := bytes(n - 1)], Val(a.region, a.n + 1), n - 1, bytes)
  }

  function Pow2(k: nat): (r: nat)
    ensures r > 0
  {
    if k == 0 then 1 else 2 * Pow2(k - 1)
  }

  function And(a: nat, b: nat): nat {
    if a == 0 || b == 0 then 0 else (a % 2) * (b % 2) + 2 * And(a / 2, b / 2)
  }

  function Unsigned(x: int): nat { x % 0x1_0000_0000_0000_0000 }

  function Low32(x: int): nat { x % 0x1_0000_0000 }

  predicate Taken(c: Cond, v: int, imm: int) {
    match c
    case JEQ => v == imm
    case JNE => v != imm
    case JSLT => v < imm
    case JSLE => v <= imm
    case JSGE => v >= imm
    case JSET => And(Unsigned(v), Unsigned(imm)) != 0
  }

  predicate IsCommand(f: Helper) { f == SysBpf || f == FindByNameKind || f == KallsymsLookup }

  function ByteOf(v: int, size: nat): nat -> nat {
    (k: nat) => if k < size then Unsigned(v) / Pow2(8 * (size - 1 - k)) % 256 else 0
  }

  function CallMem(s: State, f: Helper, ch: Choice): map<Val, nat>
    requires |s.regs| == NR_REGS
  {
    match f
    case ProbeReadKernel =>
      // reading from address 0 fails, and fills the destination with zeros
      if s.regs[2].n <= 0 then s.mem
      else if s.regs[3] == Val(Scalar, 0) then Write(s.mem, s.regs[1], s.regs[2].n, (k: nat) => 0)
      else Write(s.mem, s.regs[1], s.regs[2].n, ch.bytes)
    case CopyFromUser => if s.regs[2].n <= 0 then s.mem else Write(s.mem, s.regs[1], s.regs[2].n, ch.bytes)
    case KallsymsLookup => Write(s.mem, s.regs[4], 8, ch.bytes)
    case _ => s.mem
  }

  function AfterCall(s: State, f: Helper, ch: Choice): State
    requires |s.regs| == NR_REGS
  {
    var x := Val(Scalar, ch.scratch);
    s.(pc := s.pc + 1,
       regs := [Val(Scalar, ch.ret), x, x, x, x, x] + s.regs[6..],
       mem := CallMem(s, f, ch),
       closed := if f == SysClose then s.closed + [s.regs[1].n] else s.closed,
       last := if IsCommand(f) then ch.ret else s.last)
  }

  predicate RegsOk(i: Insn) {
    match i
    case MovReg(d, r) => d < NR_REGS && r < NR_REGS
    case MovImm(d, _) => d < NR_REGS
    case AddImm(d, _) => d < NR_REGS
    case AndImm(d, _) => d < NR_REGS
    case RshImm(d, _) => d < NR_REGS
    case Ld64(d, _) => d < NR_REGS
    case Load(_, d, r, _) => d < NR_REGS && r < NR_REGS
    case Store(_, d, r, _) => d < NR_REGS && r < NR_REGS
    case StoreImm(_, d, _, _) => d < NR_REGS
    case Jump(_, r, _, _) => r < NR_REGS
    case _ => true
  }

  /** One step.  Leaving the program, executing the second half of a 64-bit load
      or naming a register that does not exist is not a step: the machine stays. */
  function Step(p: Code, s: State, ch: Choice): State {
    if s.halted || !(0 <= s.pc < |p|) || |s.regs| != NR_REGS || !RegsOk(p[s.pc]) then s
    else
      var r := s.regs;
      match p[s.pc]
      case MovReg(d, x) => s.(pc := s.pc + 1, regs := r[d := r[x]])
      case MovImm(d, n) => s.(pc := s.pc + 1, regs := r[d := Val(Scalar, n)])
      case AddImm(d, n) => s.(pc := s.pc + 1, regs := r[d := Val(r[d].region, r[d].n + n)])
      case AndImm(d, n) => s.(pc := s.pc + 1, regs := r[d := Val(Scalar, And(Low32(r[d].n), n))])
      case RshImm(d, n) => s.(pc := s.pc + 1, regs := r[d := Val(Scalar, Unsigned(r[d].n) / Pow2(n))])
      case Ld64(d, off) => s.(pc := s.pc + 2, regs := r[d := Val(BlobMem, off)])
      case Ld64Hi => s
      case Load(sz, d, x, off) =>
        s.(pc := s.pc + 1, regs := r[d := Val(Scalar, Read(s.mem, Val(r[x].region, r[x].n + off), Bytes(sz)))])
      case Store(sz, d, x, off) =>
        s.(pc := s.pc + 1, mem := Write(s.mem, Val(r[d].region, r[d].n + off), Bytes(sz), ByteOf(r[x].n, Bytes(sz))))
      case StoreImm(sz, d, off, n) =>
        s.(pc := s.pc + 1, mem := Write(s.mem, Val(r[d].region, r[d].n + off), Bytes(sz), ByteOf(n, Bytes(sz))))
      case Call(f) => AfterCall(s, f, ch)
      case Jump(c, x, n, off) => s.(pc := s.pc + 1 + if Taken(c, r[x].n, n) then off else 0)
      case Always(off) => s.(pc := s.pc + 1 + off)
      case Exit => s.(halted := true)
  }

  /** `n` steps, the kernel deciding as `ch` says. */
  ghost function Run(p: Code, s: State, ch: nat -> Choice, t: nat, n: nat): State
    decreases n
  {
    if n == 0 then s else Run(p, Step(p, s, ch(t)), ch, t + 1, n - 1)
  }

  lemma {:induction false} RunThen(p: Code, s: State, ch: nat -> Choice, t: nat, m: nat, n: nat)
    ensures Run(p, s, ch, t, m + n) == Run(p, Run(p, s, ch, t, m), ch, t + m, n)
    decreases m
  {
    if m > 0 {
      RunThen(p, Step(p, s, ch(t)), ch, t + 1, m - 1, n);
      assert m + n > 0 && m + n - 1 == m - 1 + n && t + 1 + (m - 1) == t + m;
    }
  }

  lemma RunStep(p: Code, s: State, ch: nat -> Choice, t: nat)
    ensures Run(p, s, ch, t, 1) == Step(p, s, ch(t))
  {
    assert Run(p, Step(p, s, ch(t)), ch, t + 1, 0) == Step(p, s, ch(t));
  }

  // -------------------------------------------------------- the shape of a loader

  /** Where things are: the cleanup code, the body after it, and what the cleanup
      code has to close. */
  datatype Layout = Layout(clean: nat, body: nat, slots: nat, maps: nat, fdArray: int, debug: bool, used: nat)

  /** Stack offset of slot `i`: BTF, inner map, then one program after another. */
  function SlotOff(i: nat): int { 4 * i - STACK_SZ }

  function Writes(i: Insn): int {
    match i
    case MovReg(d, _) => d
    case MovImm(d, _) => d
    case AddImm(d, _) => d
    case AndImm(d, _) => d
    case RshImm(d, _) => d
    case Ld64(d, _) => d
    case Load(_, d, _, _) => d
    case _ => -1
  }

  /** An instruction that leaves the result of the last command in R7. */
  predicate KeepsResult(i: Insn) {
    Writes(i) != 7 && !(i.Call? && IsCommand(i.f))
  }

  /** Where a jump at `pc` goes when taken. */
  function Target(i: Insn, pc: int): int {
    match i
    case Jump(_, _, _, off) => pc + 1 + off
    case Always(off) => pc + 1 + off
    case _ => pc + 1
  }

  /** The test that follows a command: to the cleanup code if R7 is negative. */
  predicate IsCheck(l: Layout, i: Insn, pc: int) {
    i.Jump? && i.c == JSLT && i.reg == 7 && i.imm == 0 && Target(i, pc) == l.clean
  }

  /** A jump forward to the start of an instruction, or to the end of what there is. */
  predicate Lands(p: Code, pc: int, t: int) {
    pc < t <= |p| && (0 <= t < |p| ==> !p[t].Ld64Hi?)
  }

  /** Neither changes R0 nor goes anywhere but on. */
  predicate KeepsR0(i: Insn) {
    Writes(i) != 0 && !i.Call? && !i.Jump? && !i.Always?
  }

  /** No jump from before `k` leads to a place after it, up to `pc`. */
  predicate NoEntry(p: Code, body: nat, k: int, pc: int)
    requires k <= |p|
  {
    forall j :: body <= j < k ==> Target(p[j], j) <= k || Target(p[j], j) > pc
  }

  /** At `pc`, R7 holds the result of the last command: the command is at `k`, the
      copy to R7 at `m`, and from there on one gets to `pc` only past instructions
      that keep it. */
  predicate FreshSince(p: Code, body: nat, pc: int, k: int, m: int) {
    && body <= k < m < pc <= |p|
    && p[k].Call? && IsCommand(p[k].f) && p[m] == MovReg(7, 0)
    && (forall j :: k < j < m ==> KeepsR0(p[j])) && (forall j :: m < j < pc ==> KeepsResult(p[j]))
    && NoEntry(p, body, k, pc)
  }

  ghost predicate Fresh(p: Code, body: nat, pc: int) {
    exists k, m :: FreshSince(p, body, pc, k, m)
  }

  predicate Clobbers(i: Insn, r: nat) {
    Writes(i) == r || (i.Call? && r <= 5)
  }

  /** At `pc`, register `r` holds the address of byte `x` of the blob, loaded at `k`. */
  predicate KnownSince(p: Code, body: nat, pc: int, r: nat, x: int, k: int) {
    && body <= k && k + 2 <= pc <= |p| && r < NR_REGS && p[k] == Ld64(r, x)
    && (forall j :: k < j < pc ==> !Clobbers(p[j], r))
    && NoEntry(p, body, k, pc)
  }

  ghost predicate Known(p: Code, body: nat, pc: int, r: nat, x: int) {
    r < NR_REGS && exists k :: KnownSince(p, body, pc, r, x, k)
  }

  /** What every instruction of the body must be like. */
  ghost predicate BodyInsn(p: Code, l: Layout, pc: int)
    requires 0 <= pc < |p|
  {
    var i := p[pc];
    && RegsOk(i) && Writes(i) != 10 && Writes(i) != 6 && !i.Exit?
    && (i.Ld64? ==> pc + 1 < |p| && p[pc + 1].Ld64Hi?)
    && (i.Ld64Hi? ==> pc > l.body && p[pc - 1].Ld64?)
    && (i.Jump? || i.Always? ==> (IsCheck(l, i, pc) && Fresh(p, l.body, pc)) || Lands(p, pc, Target(i, pc)))
    && (i.Store? && i.dst == 10 ==> exists k: nat :: k < l.used && i.off == SlotOff(k))
  }

  ghost predicate Body(p: Code, l: Layout) {
    l.clean <= l.body <= |p| && (l.body < |p| ==> !p[l.body].Ld64Hi?) &&
    forall pc :: l.body <= pc < |p| ==> BodyInsn(p, l, pc)
  }

  // ------------------------------------------------------------ the cleanup code

  /** Three instructions close what a stack slot holds. */
  predicate ClosesSlot(p: Code, at: nat, i: nat) {
    at + 3 <= |p| && p[at] == Load(W, 1, 10, SlotOff(i)) && p[at + 1] == Jump(JSLE, 1, 0, 1) && p[at + 2] == Call(SysClose)
  }

  /** debug_regs with two registers. */
  predicate PrintsTwo(p: Code, at: nat) {
    at + 6 <= |p| && p[at].Ld64? && p[at].dst == 1 && p[at + 1].Ld64Hi? && p[at + 2].MovImm? && p[at + 2].dst == 2 &&
    p[at + 3] == MovReg(3, 9) && p[at + 4] == MovReg(4, 0) && p[at + 5] == Call(TracePrintk)
  }

  /** The code of emit_sys_close_blob. */
  predicate ClosesBlob(p: Code, at: nat, off: int, debug: bool) {
    at + 6 <= |p| && p[at] == Ld64(0, off) && p[at + 1] == Ld64Hi && p[at + 2] == Load(W, 1, 0, 0) &&
    p[at + 3] == Jump(JSLE, 1, 0, if debug then 8 else 2) && p[at + 4] == MovReg(9, 1) && p[at + 5] == Call(SysClose) &&
    (debug ==> PrintsTwo(p, at + 6))
  }

  function CloseLen(debug: bool): nat { if debug then 12 else 6 }

  /** The code that runs when a command has failed. */
  ghost predicate Cleanup(p: Code, l: Layout) {
    && l.body == l.clean + 3 * l.slots + CloseLen(l.debug) * l.maps + 2 <= |p|
    && (forall i: nat :: i < l.slots ==> ClosesSlot(p, l.clean + 3 * i, i))
    && (forall i: nat :: i < l.maps ==> ClosesBlob(p, l.clean + 3 * l.slots + CloseLen(l.debug) * i, l.fdArray + 4 * i, l.debug))
    && p[l.body - 2] == MovReg(0, 7) && p[l.body - 1] == Exit
  }

  /** bpf_gen__init starts the program by clearing the stack and jumping over the
      cleanup code. */
  ghost predicate Prologue(p: Code, l: Layout) {
    l.clean == 7 && l.body <= |p| && l.body >= 7 &&
    p[..7] == [MovReg(6, 1), MovReg(1, 10), AddImm(1, -STACK_SZ), MovImm(2, STACK_SZ), MovImm(3, 0), Call(ProbeReadKernel),
               Always(l.body - 7)]
  }

  ghost predicate Shape(p: Code, l: Layout) {
    Prologue(p, l) && Cleanup(p, l) && Body(p, l)
  }

  /** What the cleanup code finds in the slots. */
  function SlotValue(s: State, i: nat): nat
    requires |s.regs| == NR_REGS
  {
    Read(s.mem, Val(s.regs[10].region, s.regs[10].n + SlotOff(i)), 4)
  }

  function MapValue(l: Layout, s: State, i: nat): nat {
    Read(s.mem, Val(BlobMem, l.fdArray + 4 * i), 4)
  }

  /** The positive ones among the first `n` stack slots, in order. */
  function OpenSlots(s: State, n: nat): seq<int>
    requires |s.regs| == NR_REGS
  {
    if n == 0 then [] else OpenSlots(s, n - 1) + if SlotValue(s, n - 1) > 0 then [SlotValue(s, n - 1) as int] else []
  }

  /** The positive ones among the first `n` map descriptors, in order. */
  function OpenMaps(l: Layout, s: State, n: nat): seq<int> {
    if n == 0 then [] else OpenMaps(l, s, n - 1) + if MapValue(l, s, n - 1) > 0 then [MapValue(l, s, n - 1) as int] else []
  }

  /** A state on the way through the cleanup code that was entered in state `s0`. */
  predicate Cleaning(s0: State, s: State) {
    && |s0.regs| == NR_REGS == |s.regs| && !s.halted
    && s.mem == s0.mem && s.regs[7] == s0.regs[7] && s.regs[10] == s0.regs[10] && s.last == s0.last
  }

  /** The first steps of a run. */
  lemma Unroll(p: Code, s: State, ch: nat -> Choice, t: nat)
    ensures Run(p, s, ch, t, 1) == Step(p, s, ch(t))
    ensures Run(p, s, ch, t, 2) == Step(p, Step(p, s, ch(t)), ch(t + 1))
    ensures Run(p, s, ch, t, 3) == Step(p, Step(p, Step(p, s, ch(t)), ch(t + 1)), ch(t + 2))
  {
    hide Step;
    var s1 := Step(p, s, ch(t));
    RunStep(p, s, ch, t);
    assert Run(p, s, ch, t, 2) == Run(p, s1, ch, t + 1, 1);
    RunStep(p, s1, ch, t + 1);
    var s2 := Step(p, s1, ch(t + 1));
    assert Run(p, s, ch, t, 3) == Run(p, s1, ch, t + 1, 2) == Run(p, s2, ch, t + 2, 1);
    RunStep(p, s2, ch, t + 2);
  }

  lemma LoadStep(p: Code, s0: State, s: State, ch: Choice)
    requires Cleaning(s0, s) && 0 <= s.pc < |p| && p[s.pc].Load? && p[s.pc].dst == 1 && p[s.pc].src < NR_REGS
    ensures var s1, x := Step(p, s, ch), s.regs[p[s.pc].src];
      Cleaning(s0, s1) && s1.pc == s.pc + 1 && s1.closed == s.closed &&
      s1.regs[1] == Val(Scalar, Read(s.mem, Val(x.region, x.n + p[s.pc].off), Bytes(p[s.pc].size)))
  {
  }

  lemma JumpStep(p: Code, s0: State, s: State, ch: Choice)
    requires Cleaning(s0, s) && 0 <= s.pc < |p| && p[s.pc].Jump? && p[s.pc].reg < NR_REGS
    ensures var s1 := Step(p, s, ch);
      Cleaning(s0, s1) && s1.closed == s.closed && s1.regs == s.regs &&
      s1.pc == s.pc + 1 + if Taken(p[s.pc].c, s.regs[p[s.pc].reg].n, p[s.pc].imm) then p[s.pc].off else 0
  {
  }

  lemma CloseStep(p: Code, s0: State, s: State, ch: Choice)
    requires Cleaning(s0, s) && 0 <= s.pc < |p| && p[s.pc] == Call(SysClose)
    ensures var s1 := Step(p, s, ch);
      Cleaning(s0, s1) && s1.pc == s.pc + 1 && s1.closed == s.closed + [s.regs[1].n]
  {
  }

  /** Setting a register other than R7 and R10, or printing. */
  lemma QuietStep(p: Code, s0: State, s: State, ch: Choice)
    requires Cleaning(s0, s) && 0 <= s.pc < |p| && RegsOk(p[s.pc])
    requires p[s.pc].MovReg? || p[s.pc].MovImm? || p[s.pc].Ld64? || p[s.pc] == Call(TracePrintk)
    requires Writes(p[s.pc]) != 7 && Writes(p[s.pc]) != 10
    ensures var s1 := Step(p, s, ch);
      Cleaning(s0, s1) && s1.pc == s.pc + (if p[s.pc].Ld64? then 2 else 1) && s1.closed == s.closed &&
      (p[s.pc].Ld64? ==> s1.regs[p[s.pc].dst] == Val(BlobMem, p[s.pc].off)) &&
      (p[s.pc].MovReg? ==> s1.regs[1] == s.regs[1] || p[s.pc].dst == 1)
  {
  }

  /** One stack slot. */
  lemma SlotStep(p: Code, l: Layout, s0: State, s: State, i: nat, ch: nat -> Choice, t: nat) returns (n: nat)
    requires Cleanup(p, l) && i < l.slots && Cleaning(s0, s) && s.pc == l.clean + 3 * i
    ensures Cleaning(s0, Run(p, s, ch, t, n)) && Run(p, s, ch, t, n).pc == l.clean + 3 * (i + 1)
    ensures Run(p, s, ch, t, n).closed == s.closed + if SlotValue(s0, i) > 0 then [SlotValue(s0, i) as int] else []
  {
    hide Step, Run, Read;
    assert ClosesSlot(p, l.clean + 3 * i, i);
    Unroll(p, s, ch, t);
    LoadStep(p, s0, s, ch(t));
    var s1 := Step(p, s, ch(t));
    JumpStep(p, s0, s1, ch(t + 1));
    var s2 := Step(p, s1, ch(t + 1));
    if SlotValue(s0, i) > 0 {
      CloseStep(p, s0, s2, ch(t + 2));
      n := 3;
    } else {
      n := 2;
    }
  }

  /** One map descriptor. */
  lemma BlobStep(p: Code, l: Layout, s0: State, s: State, i: nat, ch: nat -> Choice, t: nat) returns (n: nat)
    requires Cleanup(p, l) && i < l.maps && Cleaning(s0, s)
    requires s.pc == l.clean + 3 * l.slots + CloseLen(l.debug) * i
    ensures Cleaning(s0, Run(p, s, ch, t, n))
    ensures Run(p, s, ch, t, n).pc == l.clean + 3 * l.slots + CloseLen(l.debug) * (i + 1)
    ensures Run(p, s, ch, t, n).closed == s.closed + if MapValue(l, s0, i) > 0 then [MapValue(l, s0, i) as int] else []
  {
    hide Step, Run, Read;
    var at := l.clean + 3 * l.slots + CloseLen(l.debug) * i;
    assert ClosesBlob(p, at, l.fdArray + 4 * i, l.debug);
    LoadedFd(p, l, s0, s, i, at, ch, t);
    if MapValue(l, s0, i) == 0 {
      n := 3;
    } else {
      n := ClosedFd(p, l, s0, Run(p, s, ch, t, 3), at, ch, t + 3);
      RunThen(p, s, ch, t, 3, n);
      n := 3 + n;
    }
  }

  /** The first half of closing a map descriptor: load it and test it. */
  lemma LoadedFd(p: Code, l: Layout, s0: State, s: State, i: nat, at: nat, ch: nat -> Choice, t: nat)
    requires Cleaning(s0, s) && i < l.maps && ClosesBlob(p, at, l.fdArray + 4 * i, l.debug) && s.pc == at
    ensures var s3 := Run(p, s, ch, t, 3);
      Cleaning(s0, s3) && s3.closed == s.closed && s3.regs[1] == Val(Scalar, MapValue(l, s0, i)) &&
      s3.pc == if MapValue(l, s0, i) > 0 then at + 4 else at + CloseLen(l.debug)
  {
    hide Step, Run, Read;
    Unroll(p, s, ch, t);
    QuietStep(p, s0, s, ch(t));
    var s1 := Step(p, s, ch(t));
    LoadStep(p, s0, s1, ch(t + 1));
    JumpStep(p, s0, Step(p, s1, ch(t + 1)), ch(t + 2));
  }

  /** The second half: close it, and print that if asked to. */
  lemma ClosedFd(p: Code, l: Layout, s0: State, s: State, at: nat, ch: nat -> Choice, t: nat) returns (n: nat)
    requires Cleaning(s0, s) && at + 6 <= |p| && p[at + 4] == MovReg(9, 1) && p[at + 5] == Call(SysClose) && s.pc == at + 4
    requires l.debug ==> PrintsTwo(p, at + 6) && RegsOk(p[at + 6])
    ensures var s' := Run(p, s, ch, t, n);
      Cleaning(s0, s') && s'.pc == at + CloseLen(l.debug) && s'.closed == s.closed + [s.regs[1].n]
  {
    hide Step, Run;
    Unroll(p, s, ch, t);
    QuietStep(p, s0, s, ch(t));
    CloseStep(p, s0, Step(p, s, ch(t)), ch(t + 1));
    n := 2;
    if l.debug {
      PrintStep(p, s0, Run(p, s, ch, t, 2), at + 6, ch, t + 2);
      RunThen(p, s, ch, t, 2, 5);
      n := 7;
    }
  }

  lemma PrintStep(p: Code, s0: State, s: State, at: nat, ch: nat -> Choice, t: nat)
    requires PrintsTwo(p, at) && Cleaning(s0, s) && s.pc == at && RegsOk(p[at])
    ensures var s' := Run(p, s, ch, t, 5); Cleaning(s0, s') && s'.pc == at + 6 && s'.closed == s.closed
  {
    hide Step, Run;
    Unroll(p, s, ch, t);
    QuietStep(p, s0, s, ch(t));
    var s1 := Step(p, s, ch(t));
    QuietStep(p, s0, s1, ch(t + 1));
    var s2 := Step(p, s1, ch(t + 1));
    QuietStep(p, s0, s2, ch(t + 2));
    var s3 := Run(p, s, ch, t, 3);
    Unroll(p, s3, ch, t + 3);
    RunThen(p, s, ch, t, 3, 2);
    QuietStep(p, s0, s3, ch(t + 3));
    QuietStep(p, s0, Step(p, s3, ch(t + 3)), ch(t + 4));
  }

  /** All stack slots from `i` on. */
  lemma {:induction false} SlotsRun(p: Code, l: Layout, s0: State, s: State, i: nat, ch: nat -> Choice, t: nat) returns (n: nat)
    requires Cleanup(p, l) && i <= l.slots && Cleaning(s0, s) && s.pc == l.clean + 3 * i
    requires s.closed == s0.closed + OpenSlots(s0, i)
    ensures var s' := Run(p, s, ch, t, n);
      Cleaning(s0, s') && s'.pc == l.clean + 3 * l.slots && s'.closed == s0.closed + OpenSlots(s0, l.slots)
    decreases l.slots - i
  {
    hide Step, Cleanup, SlotValue;
    if i == l.slots {
      n := 0;
    } else {
      var a := SlotStep(p, l, s0, s, i, ch, t);
      var s1 := Run(p, s, ch, t, a);
      assert s1.closed == s0.closed + OpenSlots(s0, i + 1);
      var b := SlotsRun(p, l, s0, s1, i + 1, ch, t + a);
      RunThen(p, s, ch, t, a, b);
      n := a + b;
    }
  }

  /** All map descriptors from `i` on. */
  lemma {:induction false} MapsRun(p: Code, l: Layout, s0: State, s: State, i: nat, base: seq<int>, ch: nat -> Choice, t: nat)
    returns (n: nat)
    requires Cleanup(p, l) && i <= l.maps && Cleaning(s0, s) && s.pc == l.clean + 3 * l.slots + CloseLen(l.debug) * i
    requires s.closed == base + OpenMaps(l, s0, i)
    ensures var s' := Run(p, s, ch, t, n);
      Cleaning(s0, s') && s'.pc == l.body - 2 && s'.closed == base + OpenMaps(l, s0, l.maps)
    decreases l.maps - i
  {
    hide Step, Cleanup, MapValue;
    CleanupEnd(p, l);
    if i == l.maps {
      n := 0;
    } else {
      var a := BlobStep(p, l, s0, s, i, ch, t);
      var s1 := Run(p, s, ch, t, a);
      assert s1.closed == base + OpenMaps(l, s0, i + 1);
      var b := MapsRun(p, l, s0, s1, i + 1, base, ch, t + a);
      RunThen(p, s, ch, t, a, b);
      n := a + b;
    }
  }

  /** The cleanup code, whatever state it is entered in: it closes every positive
      descriptor in the slots and in the map array, each once and in order, and
      exits with what R7 holds. */
  lemma CleanupRuns(p: Code, l: Layout, s: State, ch: nat -> Choice, t: nat) returns (n: nat)
    requires Cleanup(p, l) && !s.halted && |s.regs| == NR_REGS && s.pc == l.clean
    ensures var s' := Run(p, s, ch, t, n);
      s'.halted && |s'.regs| == NR_REGS && s'.regs[0] == s.regs[7] && s'.last == s.last &&
      s'.closed == s.closed + OpenSlots(s, l.slots) + OpenMaps(l, s, l.maps)
  {
    hide Step, Run, Cleanup, SlotValue, MapValue;
    assert OpenSlots(s, 0) == [] && s.closed == s.closed + [];
    var a := SlotsRun(p, l, s, s, 0, ch, t);
    var s1 := Run(p, s, ch, t, a);
    assert OpenMaps(l, s, 0) == [] && s1.closed == s1.closed + [];
    var b := MapsRun(p, l, s, s1, 0, s1.closed, ch, t + a);
    RunThen(p, s, ch, t, a, b);
    LastSteps(p, l, s, Run(p, s, ch, t, a + b), ch, t + (a + b));
    RunThen(p, s, ch, t, a + b, 2);
    n := a + b + 2;
  }

  lemma CleanupEnd(p: Code, l: Layout)
    requires Cleanup(p, l)
    ensures l.body == l.clean + 3 * l.slots + CloseLen(l.debug) * l.maps + 2 <= |p|
  {
  }

  lemma LastSteps(p: Code, l: Layout, s0: State, s: State, ch: nat -> Choice, t: nat)
    requires Cleanup(p, l) && Cleaning(s0, s) && s.pc == l.body - 2
    ensures var s' := Run(p, s, ch, t, 2);
      s'.halted && |s'.regs| == NR_REGS && s'.regs[0] == s0.regs[7] && s'.last == s0.last && s'.closed == s.closed
  {
    Unroll(p, s, ch, t);
    var s1 := Step(p, s, ch(t));
    assert s1 == s.(pc := s.pc + 1, regs := s.regs[0 := s.regs[7]]);
  }

  // -------------------------------------------------------------------- the body

  /** R0 holds the result of the command at `k`, and there is no other way to `pc`. */
  predicate CalledAt(p: Code, body: nat, pc: int, k: int) {
    && body <= k < pc <= |p| && p[k].Call? && IsCommand(p[k].f)
    && (forall j :: k < j < pc ==> KeepsR0(p[j]))
    && NoEntry(p, body, k, pc)
  }

  ghost predicate JustCalled(p: Code, body: nat, pc: int) {
    exists k :: CalledAt(p, body, pc, k)
  }

  /** A state of the body: at the start of an instruction, with R7 the last result
      wherever the program relies on that. */
  ghost predicate InBody(p: Code, l: Layout, s: State) {
    && !s.halted && |s.regs| == NR_REGS && l.body <= s.pc <= |p| && (s.pc < |p| ==> !p[s.pc].Ld64Hi?)
    && s.regs[10] == Val(StackMem, 0) && s.regs[6] == Val(CtxMem, 0)
    && (forall r: nat, x :: Known(p, l.body, s.pc, r, x) ==> s.regs[r] == Val(BlobMem, x))
    && (Fresh(p, l.body, s.pc) ==> s.regs[7] == Val(Scalar, s.last))
    && (JustCalled(p, l.body, s.pc) ==> s.regs[0] == Val(Scalar, s.last))
  }

  /** A failed command has sent the run to the cleanup code. */
  ghost predicate Failed(l: Layout, s: State) {
    !s.halted && |s.regs| == NR_REGS && s.pc == l.clean && s.regs[10] == Val(StackMem, 0) &&
    s.regs[7] == Val(Scalar, s.last) && s.last < 0
  }

  /** The program followed by the two instructions of bpf_gen__finish. */
  function Finished(p: Code): Code { p + [MovImm(0, 0), Exit] }

  /** One instruction of the body: onwards, or to the cleanup code. */
  lemma BodyStep(p: Code, l: Layout, s: State, ch: Choice)
    requires Body(p, l) && InBody(p, l, s) && s.pc < |p|
    ensures var s' := Step(Finished(p), s, ch);
      Failed(l, s') || (InBody(p, l, s') && s'.pc > s.pc)
  {
    var i, s' := p[s.pc], Step(Finished(p), s, ch);
    assert Finished(p)[s.pc] == i && BodyInsn(p, l, s.pc);
    StepGoes(p, l, s, ch);
    if !Failed(l, s') {
      if Fresh(p, l.body, s'.pc) {
        var k, m :| FreshSince(p, l.body, s'.pc, k, m);
        assert BodyInsn(p, l, s.pc);
        if s.pc > m {
          assert FreshSince(p, l.body, s.pc, k, m);
          assert KeepsResult(i);
        } else {
          assert s.pc == m;
          assert CalledAt(p, l.body, s.pc, k);
        }
      }
      if JustCalled(p, l.body, s'.pc) {
        var k :| CalledAt(p, l.body, s'.pc, k);
        if s.pc > k { assert CalledAt(p, l.body, s.pc, k) && KeepsR0(i); }
      }
      KnownStep(p, l, s, ch);
    }
  }

  /** What is known of a register stays so. */
  lemma KnownStep(p: Code, l: Layout, s: State, ch: Choice)
    requires Body(p, l) && InBody(p, l, s) && s.pc < |p| && !Failed(l, Step(Finished(p), s, ch))
    ensures var s' := Step(Finished(p), s, ch);
      |s'.regs| == NR_REGS && forall r: nat, x :: Known(p, l.body, s'.pc, r, x) ==> s'.regs[r] == Val(BlobMem, x)
  {
    hide Fresh, JustCalled, FreshSince, Failed, Write, Read, CallMem;
    var i, s' := p[s.pc], Step(Finished(p), s, ch);
    assert Finished(p)[s.pc] == i && BodyInsn(p, l, s.pc);
    StepGoes(p, l, s, ch);
    forall r: nat, x | Known(p, l.body, s'.pc, r, x) ensures s'.regs[r] == Val(BlobMem, x) {
      var k :| KnownSince(p, l.body, s'.pc, r, x, k);
      if s.pc == k {
        assert s'.regs[r] == Val(BlobMem, x);
      } else {
        assert BodyInsn(p, l, k);
        assert KnownSince(p, l.body, s.pc, r, x, k);
        KeptStep(p, s, ch, r);
      }
    }
  }

  lemma KeptStep(p: Code, s: State, ch: Choice, r: nat)
    requires 0 <= s.pc < |p| && |s.regs| == NR_REGS && r < NR_REGS && !Clobbers(p[s.pc], r)
    ensures |Step(Finished(p), s, ch).regs| == NR_REGS && Step(Finished(p), s, ch).regs[r] == s.regs[r]
  {
    hide Write, Read, CallMem;
    assert Finished(p)[s.pc] == p[s.pc];
  }

  /** Where one instruction of the body goes, and what it does to the registers that matter. */
  lemma StepGoes(p: Code, l: Layout, s: State, ch: Choice)
    requires Body(p, l) && InBody(p, l, s) && s.pc < |p|
    ensures var i, s' := p[s.pc], Step(Finished(p), s, ch);
      && !s'.halted && |s'.regs| == NR_REGS && s'.regs[10] == s.regs[10] && s'.regs[6] == s.regs[6]
      && (KeepsResult(i) ==> s'.regs[7] == s.regs[7] && s'.last == s.last)
      && (i == MovReg(7, 0) ==> s'.regs[7] == s.regs[0] && s'.last == s.last)
      && (KeepsR0(i) ==> s'.regs[0] == s.regs[0] && s'.last == s.last)
      && (i.Call? && IsCommand(i.f) ==> s'.regs[0] == Val(Scalar, s'.last) && s'.pc == s.pc + 1)
      && (Failed(l, s') || (s.pc < s'.pc <= |p| && (s'.pc < |p| ==> !p[s'.pc].Ld64Hi?) &&
                            (s'.pc == s.pc + 1 || s'.pc == Target(i, s.pc) || (i.Ld64? && s'.pc == s.pc + 2))))
  {
    hide Write, CallMem, Read, Fresh, FreshSince;
    var i := p[s.pc];
    assert Finished(p)[s.pc] == i && BodyInsn(p, l, s.pc);
    if s.pc + 1 < |p| { assert BodyInsn(p, l, s.pc + 1); }
    if i.Ld64? && s.pc + 2 < |p| { assert BodyInsn(p, l, s.pc + 2); }
    if i.Jump? && IsCheck(l, i, s.pc) && Fresh(p, l.body, s.pc) { assert s.regs[7] == Val(Scalar, s.last); }
  }

  /** From anywhere in the body the run ends with 0, or a command has failed. */
  lemma {:induction false} BodyRuns(p: Code, l: Layout, s: State, ch: nat -> Choice, t: nat) returns (n: nat)
    requires Body(p, l) && InBody(p, l, s)
    ensures var s' := Run(Finished(p), s, ch, t, n);
      Failed(l, s') || (s'.halted && |s'.regs| == NR_REGS && s'.regs[0] == Val(Scalar, 0))
    decreases |p| - s.pc
  {
    hide Step, InBody, Body;
    InBodyIn(p, l, s);
    Unroll(Finished(p), s, ch, t);
    if s.pc == |p| {
      EndSteps(p, l, s, ch, t);
      n := 2;
    } else {
      BodyStep(p, l, s, ch(t));
      var s1 := Step(Finished(p), s, ch(t));
      n := 1;
      if !Failed(l, s1) {
        InBodyIn(p, l, s1);
        n := BodyRuns(p, l, s1, ch, t + 1);
        RunThen(Finished(p), s, ch, t, 1, n);
        n := 1 + n;
      }
    }
  }

  lemma InBodyIn(p: Code, l: Layout, s: State)
    requires InBody(p, l, s)
    ensures l.body <= s.pc <= |p|
  {
  }

  lemma EndSteps(p: Code, l: Layout, s: State, ch: nat -> Choice, t: nat)
    requires InBody(p, l, s) && s.pc == |p|
    ensures var s' := Run(Finished(p), s, ch, t, 2);
      s'.halted && |s'.regs| == NR_REGS && s'.regs[0] == Val(Scalar, 0)
  {
    Unroll(Finished(p), s, ch, t);
    assert Finished(p)[|p|] == MovImm(0, 0) && Finished(p)[|p| + 1] == Exit;
  }

  // ----------------------------------------------------- what a command is given

  /** emit_rel_store */
  function RelStore(off: int, data: int): Code {
    [Ld64(0, data), Ld64Hi, Ld64(1, off), Ld64Hi, Store(DW, 1, 0, 0)]
  }

  /** move_blob2blob */
  function BlobToBlob(off: int, size: Size, blobOff: int): Code {
    [Ld64(2, blobOff), Ld64Hi, Load(size, 0, 2, 0), Ld64(1, off), Ld64Hi, Store(size, 1, 0, 0)]
  }

  /** move_ctx2blob; a zero in the context may leave the blob as it is. */
  function CtxToBlob(off: int, size: Size, ctxOff: int, checkNonZero: bool): Code {
    [Load(size, 0, 6, ctxOff)] + (if checkNonZero then [Jump(JEQ, 0, 0, 3)] else []) +
    [Ld64(1, off), Ld64Hi, Store(size, 1, 0, 0)]
  }

  /** move_stack2blob */
  function StackToBlob(off: int, size: Size, stackOff: int): Code {
    [Load(size, 0, 10, stackOff), Ld64(1, off), Ld64Hi, Store(size, 1, 0, 0)]
  }

  /** One field of the attributes, at `off` of the blob, and what it is filled with: the
      address of a byte of the blob, or so many bytes of the blob, the context or the stack. */
  datatype Field =
    | Address(off: int, data: int)
    | FromBlob(off: int, size: Size, src: int)
    | FromCtx(off: int, size: Size, src: int, unlessZero: bool)
    | FromStack(off: int, size: Size, src: int)

  function FieldCode(x: Field): Code {
    match x
    case Address(off, data) => RelStore(off, data)
    case FromBlob(off, size, src) => BlobToBlob(off, size, src)
    case FromCtx(off, size, src, unlessZero) => CtxToBlob(off, size, src, unlessZero)
    case FromStack(off, size, src) => StackToBlob(off, size, src)
  }

  function FieldsCode(fed: seq<Field>): Code {
    if fed == [] then [] else FieldsCode(fed[..|fed| - 1]) + FieldCode(fed[|fed| - 1])
  }

  /** The attributes of a command: where, how long, and the fields filled at run time.
      What the code does between filling them and the command stays outside the
      attributes, but for the four-byte fields `loose`. */
  datatype Task = Task(fed: seq<Field>, attr: int, size: int, loose: seq<int>)

  predicate Clear(t: Task, x: int, n: nat) {
    x + n <= t.attr || t.attr + t.size <= x || (n == 4 && x in t.loose)
  }

  /** The instruction writes no memory, or only to bytes that are not the task's. */
  ghost predicate SpareAt(p: Code, body: nat, pc: nat, t: Task)
    requires pc < |p|
  {
    match p[pc]
    case Store(sz, d, _, off) => exists x :: Known(p, body, pc, d, x) && Clear(t, x + off, Bytes(sz))
    case StoreImm(sz, d, off, _) => exists x :: Known(p, body, pc, d, x) && Clear(t, x + off, Bytes(sz))
    case Call(f) =>
      f != ProbeReadKernel && f != CopyFromUser && (f == KallsymsLookup ==> exists x :: Known(p, body, pc, 4, x) && Clear(t, x, 8))
    case _ => true
  }

  ghost predicate Spared(p: Code, body: nat, upto: nat, end: nat, t: Task) {
    end <= |p| && forall j: nat :: upto <= j < end ==> SpareAt(p, body, j, t)
  }

  /** No jump leads over the place. */
  predicate Passed(p: Code, body: nat, at: nat) {
    at <= |p| && forall j :: body <= j < at ==> Target(p[j], j) <= at
  }

  /** The fields are filled by the code from `from` up to `upto`. */
  ghost predicate FedBy(p: Code, body: nat, from: nat, upto: nat, t: Task) {
    && body <= from && from + |FieldsCode(t.fed)| == upto <= |p|
    && p[from..upto] == FieldsCode(t.fed) && Passed(p, body, from)
  }

  /** The bpf command `c.arg` gets the address and the size of its attributes, after
      their fields have been filled. */
  ghost predicate Given(p: Code, l: Layout, c: Cmd) {
    && FedBy(p, l.body, c.from, c.upto, c.task) && c.upto + 4 <= c.at <= |p|
    && (c.task.fed != [] ==> Spared(p, l.body, c.upto, c.at - 4, c.task))
    && p[c.at - 4..c.at] == [MovImm(1, c.arg), Ld64(2, c.task.attr), Ld64Hi, MovImm(3, c.task.size)]
    && Passed(p, l.body, c.at - 4)
  }

  // --------------------------------------------------------- failures that count

  predicate IsCmd(i: Insn) { i.Call? && IsCommand(i.f) }

  /** A jump over the check that follows it, for one particular result. */
  ghost predicate SkipsCheck(p: Code, l: Layout, j: int, c: int, except: int) {
    0 <= j < |p| && j == c - 1 && p[j] == Jump(JEQ, 7, except, 1) && Fresh(p, l.body, j)
  }

  /** From the command at `k` every way leads, past no other command, to the check at
      `c`, or past it for the result `except`. */
  ghost predicate CheckedBy(p: Code, l: Layout, k: int, c: int, except: int) {
    && 0 <= k < c < |p| && IsCheck(l, p[c], c)
    && forall j :: k < j < c ==> !IsCmd(p[j]) && (Target(p[j], j) <= c || SkipsCheck(p, l, j, c, except))
  }

  /** A command that has been emitted: where, which one, whether failing (with any
      result but `except`) counts, and what a bpf command is given, by the code from
      `from` up to `upto`. */
  datatype Cmd = Cmd(at: nat, f: Helper, arg: int, checked: bool, except: int, from: nat, upto: nat, task: Task)

  ghost predicate CmdOk(p: Code, l: Layout, c: Cmd) {
    && l.body <= c.at < |p| && p[c.at] == Call(c.f) && IsCommand(c.f)
    && (c.f == SysBpf ==> Given(p, l, c))
    && (c.checked ==> exists x :: CheckedBy(p, l, c.at, x, c.except))
  }

  /** These are all the commands of the body, in order. */
  ghost predicate Traced(p: Code, l: Layout, cmds: seq<Cmd>) {
    && (forall i :: 0 <= i < |cmds| ==> CmdOk(p, l, cmds[i]))
    && (forall i, j :: 0 <= i < j < |cmds| ==> cmds[i].at < cmds[j].at)
    && forall k :: l.body <= k < |p| && IsCmd(p[k]) ==> exists i :: 0 <= i < |cmds| && cmds[i].at == k
  }

  lemma LastKept(p: Code, s: State, ch: Choice)
    requires 0 <= s.pc < |p| && !IsCmd(p[s.pc])
    ensures Step(p, s, ch).last == s.last
  {
    hide Write, CallMem, Read;
  }

  /** One step after a failed command: its result is kept, up to the check. */
  lemma FailedStep(p: Code, l: Layout, s: State, k: int, c: int, except: int, ch: Choice)
    requires Body(p, l) && InBody(p, l, s) && CheckedBy(p, l, k, c, except) && k < s.pc <= c
    requires s.last < 0 && s.last != except
    ensures var s' := Step(Finished(p), s, ch);
      s'.last == s.last && (Failed(l, s') || (InBody(p, l, s') && s.pc < s'.pc <= c))
  {
    hide Write, CallMem, Read, FreshSince, RegsOk;
    BodyStep(p, l, s, ch);
    StepGoes(p, l, s, ch);
    var i := p[s.pc];
    assert Finished(p)[s.pc] == i && BodyInsn(p, l, s.pc);
    LastKept(Finished(p), s, ch);
    if s.pc == c {
      assert Fresh(p, l.body, c);
      assert s.regs[7] == Val(Scalar, s.last);
    } else if SkipsCheck(p, l, s.pc, c, except) {
      assert s.regs[7] == Val(Scalar, s.last);
    } else if i.Ld64? {
      assert p[s.pc + 1].Ld64Hi?;
    }
  }

  lemma {:induction false} FailureReached(p: Code, l: Layout, s: State, k: int, c: int, except: int, ch: nat -> Choice, t: nat)
    returns (n: nat)
    requires Body(p, l) && InBody(p, l, s) && CheckedBy(p, l, k, c, except) && k < s.pc <= c
    requires s.last < 0 && s.last != except
    ensures Failed(l, Run(Finished(p), s, ch, t, n)) && Run(Finished(p), s, ch, t, n).last == s.last
    decreases c - s.pc
  {
    hide Step, InBody, Body, Failed, CheckedBy;
    FailedStep(p, l, s, k, c, except, ch(t));
    RunStep(Finished(p), s, ch, t);
    var s1 := Step(Finished(p), s, ch(t));
    n := 1;
    if !Failed(l, s1) {
      n := FailureReached(p, l, s1, k, c, except, ch, t + 1);
      RunThen(Finished(p), s, ch, t, 1, n);
      n := 1 + n;
    }
  }

  /** No failure of a checked command goes unnoticed: the run ends with its result in
      R0, and everything has been closed. */
  lemma FailureSeen(p: Code, l: Layout, cmds: seq<Cmd>, i: nat, s: State, ch: nat -> Choice, t: nat) returns (m: nat, n: nat)
    requires Shape(p, l) && Traced(p, l, cmds) && i < |cmds| && cmds[i].checked
    requires InBody(p, l, s) && s.pc == cmds[i].at && ch(t).ret < 0 && ch(t).ret != cmds[i].except
    ensures var at, s' := Run(Finished(p), s, ch, t, m), Run(Finished(p), s, ch, t, n);
      Failed(l, at) && Ended(l, at, s') && s'.regs[0] == Val(Scalar, ch(t).ret)
  {
    hide Step, Body, Failed, CheckedBy, OpenSlots, OpenMaps, Run, Cleanup, Prologue;
    var q := Finished(p);
    assert CmdOk(p, l, cmds[i]);
    var c :| CheckedBy(p, l, cmds[i].at, c, cmds[i].except);
    CommandStep(p, l, s, ch(t));
    RunStep(q, s, ch, t);
    CheckAfter(p, l, cmds[i].at, c, cmds[i].except);
    var a := FailureReached(p, l, Step(q, s, ch(t)), cmds[i].at, c, cmds[i].except, ch, t + 1);
    RunThen(q, s, ch, t, 1, a);
    m := 1 + a;
    CleanupKept(p, l);
    var at := Run(q, s, ch, t, m);
    FailedIs(l, at);
    var b := CleanupRuns(q, l, at, ch, t + m);
    RunThen(q, s, ch, t, m, b);
    n := m + b;
  }

  lemma CheckAfter(p: Code, l: Layout, k: int, c: int, except: int)
    requires CheckedBy(p, l, k, c, except)
    ensures k < c
  {
  }

  lemma FailedIs(l: Layout, s: State)
    requires Failed(l, s)
    ensures !s.halted && |s.regs| == NR_REGS && s.pc == l.clean && s.regs[7] == Val(Scalar, s.last)
  {
  }

  /** The command itself: its result is the last one, and it is followed by something. */
  lemma CommandStep(p: Code, l: Layout, s: State, ch: Choice)
    requires Body(p, l) && InBody(p, l, s) && s.pc < |p| && IsCmd(p[s.pc])
    ensures var s' := Step(Finished(p), s, ch); InBody(p, l, s') && s'.pc == s.pc + 1 && s'.last == ch.ret
  {
    hide CallMem, FreshSince, Fresh;
    BodyStep(p, l, s, ch);
    StepGoes(p, l, s, ch);
    assert Finished(p)[s.pc] == p[s.pc] && BodyInsn(p, l, s.pc);
  }

  /** What the kernel starts a program with: the context in R1, the frame pointer in R10. */
  predicate Initial(s: State) {
    s.pc == 0 && |s.regs| == NR_REGS && s.regs[1] == Val(CtxMem, 0) && s.regs[10] == Val(StackMem, 0) &&
    !s.halted && s.closed == []
  }

  /** The run as far as the end of the cleanup code's jump-over. */
  lemma PrologueRuns(p: Code, l: Layout, s: State, ch: nat -> Choice)
    requires Shape(p, l) && Initial(s)
    ensures InBody(p, l, Run(Finished(p), s, ch, 0, 7)) && Run(Finished(p), s, ch, 0, 7).pc == l.body
  {
    hide Step, Body, Cleanup, Write, Read;
    var q := Finished(p);
    assert q[..7] == p[..7];
    RunThen(q, s, ch, 0, 3, 3);
    RunThen(q, s, ch, 0, 6, 1);
    Unroll(q, s, ch, 0);
    FirstStep(q, s, ch(0));
    var s1 := Step(q, s, ch(0));
    FirstStep(q, s1, ch(1));
    var s2 := Step(q, s1, ch(1));
    FirstStep(q, s2, ch(2));
    var s3 := Step(q, s2, ch(2));
    Unroll(q, s3, ch, 3);
    FirstStep(q, s3, ch(3));
    var s4 := Step(q, s3, ch(3));
    FirstStep(q, s4, ch(4));
    var s5 := Step(q, s4, ch(4));
    FirstStep(q, s5, ch(5));
    var s6 := Step(q, s5, ch(5));
    Unroll(q, s6, ch, 6);
    FirstStep(q, s6, ch(6));
    EntersBody(p, l, Step(q, s6, ch(6)));
  }

  /** The instructions of the prologue. */
  lemma FirstStep(p: Code, s: State, ch: Choice)
    requires 0 <= s.pc < |p| && |s.regs| == NR_REGS && !s.halted && RegsOk(p[s.pc]) && Writes(p[s.pc]) != 10
    requires Writes(p[s.pc]) == 6 ==> p[s.pc] == MovReg(6, 1)
    requires p[s.pc].MovReg? || p[s.pc].AddImm? || p[s.pc].MovImm? || p[s.pc] == Call(ProbeReadKernel) || p[s.pc].Always?
    ensures var s' := Step(p, s, ch);
      |s'.regs| == NR_REGS && !s'.halted && s'.regs[10] == s.regs[10] && s'.pc == Target(p[s.pc], s.pc) &&
      s'.regs[6] == if p[s.pc] == MovReg(6, 1) then s.regs[1] else s.regs[6]
  {
    hide CallMem;
  }

  lemma EntersBody(p: Code, l: Layout, s: State)
    requires Shape(p, l) && s.pc == l.body && |s.regs| == NR_REGS && !s.halted && s.regs[10] == Val(StackMem, 0)
    requires s.regs[6] == Val(CtxMem, 0)
    ensures InBody(p, l, s)
  {
  }

  /** How a run of the loader may end: with 0, or, after the command whose result
      is left in R0 has failed in state `at`, with everything closed that the slots
      and the map array held then. */
  ghost predicate Ended(l: Layout, at: State, s: State) {
    && s.halted && |s.regs| == NR_REGS
    && (s.regs[0] == Val(Scalar, 0) ||
        (Failed(l, at) && s.regs[0] == Val(Scalar, at.last) &&
         s.closed == at.closed + OpenSlots(at, l.slots) + OpenMaps(l, at, l.maps)))
  }

  /** Every run of a program of the right shape ends, and ends in one of these ways. */
  lemma LoaderRuns(p: Code, l: Layout, s: State, ch: nat -> Choice) returns (m: nat, n: nat)
    requires Shape(p, l) && Initial(s)
    ensures Ended(l, Run(Finished(p), s, ch, 0, m), Run(Finished(p), s, ch, 0, n))
  {
    hide Step, Run, Body, Prologue, InBody, OpenSlots, OpenMaps;
    var q := Finished(p);
    PrologueRuns(p, l, s, ch);
    var a := BodyRuns(p, l, Run(q, s, ch, 0, 7), ch, 7);
    RunThen(q, s, ch, 0, 7, a);
    m := 7 + a;
    var at := Run(q, s, ch, 0, m);
    if Failed(l, at) {
      CleanupKept(p, l);
      var b := CleanupRuns(q, l, at, ch, m);
      RunThen(q, s, ch, 0, m, b);
      n := m + b;
    } else {
      n := m;
    }
  }

  lemma CleanupKept(p: Code, l: Layout)
    requires Cleanup(p, l)
    ensures Cleanup(Finished(p), l)
  {
    var q := Finished(p);
    forall i: nat | i < l.slots ensures ClosesSlot(q, l.clean + 3 * i, i) { assert ClosesSlot(p, l.clean + 3 * i, i); }
    forall i: nat | i < l.maps
      ensures ClosesBlob(q, l.clean + 3 * l.slots + CloseLen(l.debug) * i, l.fdArray + 4 * i, l.debug)
    {
      assert ClosesBlob(p, l.clean + 3 * l.slots + CloseLen(l.debug) * i, l.fdArray + 4 * i, l.debug);
    }
  }
}
