/** The loader generator (`struct bpf_gen`): it appends instructions with jump
    distances counted by hand, and whatever sequence of calls is made, what it
    has emitted keeps the shape that LoaderMachine relies on. */
module LoaderGen {
  import opened LoaderMachine

  const MAX_USED_MAPS := 64
  const MAX_KFUNC_DESCS := 256
  const MAX_FD_ARRAY_SZ := MAX_USED_MAPS + MAX_KFUNC_DESCS
  const INT32_MAX := 0x7fff_ffff
  const INT16_MAX := 0x7fff
  // struct bpf_loader_ctx, bpf_map_desc and bpf_prog_desc
  const CTX_FLAGS := 4
  const CTX_LOG_LEVEL := 8
  const CTX_LOG_SIZE := 12
  const CTX_LOG_BUF := 16
  const CTX_SZ := 24
  const MAP_DESC_SZ := 16
  const MAP_MAX_ENTRIES := 4
  const MAP_INITIAL_VALUE := 8
  const PROG_DESC_SZ := 4

  const SKEL_KERNEL := 1

  // enum bpf_cmd
  const MAP_CREATE := 0
  const MAP_UPDATE_ELEM := 2
  const PROG_LOAD := 5
  const BTF_LOAD := 18
  const MAP_FREEZE := 22

  const ENOENT := 2
  const E2BIG := 7
  const EFAULT := 14
  const ENOSPC := 28
  const EDOM := 33
  const ERANGE := 34

  function MapDescOff(i: int): int { CTX_SZ + MAP_DESC_SZ * i }

  // ---------------------------------------------------- pieces of emitted code

  /** An instruction of a piece of code whose jumps stay within the piece. */
  ghost predicate LocalInsn(code: Code, used: nat, i: nat)
    requires i < |code|
  {
    var x := code[i];
    && RegsOk(x) && Writes(x) != 10 && Writes(x) != 6 && !x.Exit?
    && (x.Ld64? ==> i + 1 < |code| && code[i + 1].Ld64Hi?)
    && (x.Ld64Hi? ==> i > 0 && code[i - 1].Ld64?)
    && (x.Jump? || x.Always? ==> Lands(code, i, Target(x, i)))
    && (x.Store? && x.dst == 10 ==> exists k: nat :: k < used && x.off == SlotOff(k))
  }

  ghost predicate Inside(code: Code, used: nat) {
    forall i :: 0 <= i < |code| ==> LocalInsn(code, used, i)
  }

  predicate NoCmds(code: Code) {
    forall i :: 0 <= i < |code| ==> !IsCmd(code[i])
  }

  /** A piece of code without commands whose jumps stay within it. */
  ghost predicate Local(code: Code, used: nat) {
    Inside(code, used) && NoCmds(code)
  }

  /** Nothing in the piece disturbs the result of the last command. */
  predicate Quiet(code: Code) {
    forall i :: 0 <= i < |code| ==> KeepsResult(code[i])
  }

  lemma FreshKept(p: Code, code: Code, body: nat, pc: int)
    requires Fresh(p, body, pc)
    ensures Fresh(p + code, body, pc)
  {
    var k, m :| FreshSince(p, body, pc, k, m);
    assert FreshSince(p + code, body, pc, k, m);
  }

  /** A piece of code whose jumps stay inside may be added at the end. */
  lemma AppendLocal(p: Code, l: Layout, code: Code)
    requires Body(p, l) && Inside(code, l.used)
    ensures Body(p + code, l)
  {
    var q := p + code;
    forall pc | l.body <= pc < |q| ensures BodyInsn(q, l, pc) {
      if pc < |p| {
        assert BodyInsn(p, l, pc);
        if IsCheck(l, p[pc], pc) && Fresh(p, l.body, pc) { FreshKept(p, code, l.body, pc); }
        if code != [] { assert LocalInsn(code, l.used, 0); }
      } else {
        assert LocalInsn(code, l.used, pc - |p|);
      }
    }
    if code != [] { assert LocalInsn(code, l.used, 0); }
  }

  /** The jump of emit_check_err, right after a command. */
  function CheckErr(p: Code, l: Layout): Insn { Jump(JSLT, 7, 0, l.clean - |p| - 1) }

  lemma AppendCheck(p: Code, l: Layout)
    requires Body(p, l) && Fresh(p, l.body, |p|)
    ensures Body(p + [CheckErr(p, l)], l)
  {
    var q := p + [CheckErr(p, l)];
    FreshKept(p, [CheckErr(p, l)], l.body, |p|);
    forall pc | l.body <= pc < |q| ensures BodyInsn(q, l, pc) {
      if pc < |p| {
        assert BodyInsn(p, l, pc);
        if IsCheck(l, p[pc], pc) && Fresh(p, l.body, pc) { FreshKept(p, [CheckErr(p, l)], l.body, pc); }
      }
    }
  }

  /** A check that one particular error skips. */
  lemma AppendSkippedCheck(p: Code, l: Layout, imm: int)
    requires Body(p, l) && Fresh(p, l.body, |p|)
    ensures var p1 := p + [Jump(JEQ, 7, imm, 1)]; Body(p1 + [CheckErr(p1, l)], l)
  {
    hide FreshSince, Fresh;
    var p1 := p + [Jump(JEQ, 7, imm, 1)];
    var q := p1 + [CheckErr(p1, l)];
    FreshOn(p, l, [Jump(JEQ, 7, imm, 1)]);
    FreshKept(p1, [CheckErr(p1, l)], l.body, |p1|);
    forall pc | l.body <= pc < |q| ensures BodyInsn(q, l, pc) {
      if pc < |p| {
        assert BodyInsn(p, l, pc);
        if IsCheck(l, p[pc], pc) && Fresh(p, l.body, pc) {
          FreshKept(p, [Jump(JEQ, 7, imm, 1)], l.body, pc);
          FreshKept(p1, [CheckErr(p1, l)], l.body, pc);
        }
      }
    }
  }

  /** R7 still holds the result of the last command after a quiet piece of code. */
  lemma FreshOn(p: Code, l: Layout, code: Code)
    requires Body(p, l) && Fresh(p, l.body, |p|) && Quiet(code)
    ensures Fresh(p + code, l.body, |p + code|)
  {
    var k, m :| FreshSince(p, l.body, |p|, k, m);
    var q := p + code;
    forall j | l.body <= j < k ensures Target(q[j], j) <= k { assert q[j] == p[j] && BodyInsn(p, l, j); }
    forall j | m < j < |q| ensures KeepsResult(q[j]) { if j >= |p| { assert q[j] == code[j - |p|]; } }
    assert FreshSince(q, l.body, |q|, k, m);
  }

  /** Right after a command whose result has been copied to R7. */
  lemma FreshCommand(p: Code, l: Layout, f: Helper, between: Code)
    requires Body(p, l) && IsCommand(f) && forall i :: 0 <= i < |between| ==> KeepsR0(between[i])
    ensures var q := p + ([Call(f)] + between + [MovReg(7, 0)]); Fresh(q, l.body, |q|)
  {
    var q, k := p + ([Call(f)] + between + [MovReg(7, 0)]), |p|;
    forall j | l.body <= j < k ensures Target(q[j], j) <= k { assert q[j] == p[j] && BodyInsn(p, l, j); }
    forall j | k < j < |q| - 1 ensures KeepsR0(q[j]) { assert q[j] == between[j - k - 1]; }
    assert FreshSince(q, l.body, |q|, k, |q| - 1);
  }

  lemma LocalConcat(a: Code, b: Code, used: nat)
    requires Inside(a, used) && Inside(b, used)
    ensures Inside(a + b, used) && (NoCmds(a) && NoCmds(b) ==> Local(a + b, used))
  {
    forall i | 0 <= i < |a + b| ensures LocalInsn(a + b, used, i) {
      if i < |a| {
        assert LocalInsn(a, used, i);
        if b != [] { assert LocalInsn(b, used, 0); }
      } else {
        assert LocalInsn(b, used, i - |a|);
      }
    }
  }

  // ------------------------------------------------------------ the commands

  /** What matters of a command, besides where it is. */
  datatype Kind = Kind(f: Helper, arg: int, checked: bool, except: int, tight: bool, task: Task)

  const NO_TASK := Task([], 0, 0, [])

  /** A bpf command whose failure counts, right after its fields have been filled. */
  function Bpf(cmd: int, task: Task): Kind { Kind(SysBpf, cmd, true, 0, true, task) }

  /** The lookup of a symbol. */
  function Lookup(f: Helper, checked: bool, except: int): Kind { Kind(f, 0, checked, except, false, NO_TASK) }

  function KindOfCmd(c: Cmd): Kind { Kind(c.f, c.arg, c.checked, c.except, c.upto + 4 == c.at, c.task) }

  ghost function Kinds(cmds: seq<Cmd>): (s: seq<Kind>)
    ensures |s| == |cmds|
  {
    seq(|cmds|, i requires 0 <= i < |cmds| => KindOfCmd(cmds[i]))
  }

  /** The last command checked, for all results but one. */
  ghost function Checked(cmds: seq<Cmd>, except: int): (s: seq<Cmd>)
    requires cmds != []
  {
    cmds[..|cmds| - 1] + [cmds[|cmds| - 1].(checked := true, except := except)]
  }

  ghost function CheckedKinds(kinds: seq<Kind>, except: int): seq<Kind>
    requires kinds != []
  {
    kinds[..|kinds| - 1] + [kinds[|kinds| - 1].(checked := true, except := except)]
  }

  lemma KindsChecked(cmds: seq<Cmd>, except: int)
    requires cmds != []
    ensures Kinds(Checked(cmds, except)) == CheckedKinds(Kinds(cmds), except)
  {
  }

  lemma KindsMore(cmds: seq<Cmd>, c: Cmd)
    ensures Kinds(cmds + [c]) == Kinds(cmds) + [KindOfCmd(c)]
  {
  }

  lemma CmdKept(p: Code, l: Layout, code: Code, c: Cmd)
    requires CmdOk(p, l, c)
    ensures CmdOk(p + code, l, c)
  {
    hide Given, Fresh;
    if c.f == SysBpf { GivenKept(p, l, code, c); }
    if c.checked {
      var x :| CheckedBy(p, l, c.at, x, c.except);
      forall j | c.at < j < x && SkipsCheck(p, l, j, x, c.except) ensures SkipsCheck(p + code, l, j, x, c.except) {
        FreshKept(p, code, l.body, j);
      }
      assert CheckedBy(p + code, l, c.at, x, c.except);
    }
  }

  /** Code without commands leaves the commands as they are. */
  lemma TraceKept(p: Code, l: Layout, cmds: seq<Cmd>, code: Code)
    requires Traced(p, l, cmds) && NoCmds(code)
    ensures Traced(p + code, l, cmds)
  {
    hide CmdOk;
    forall i | 0 <= i < |cmds| ensures CmdOk(p + code, l, cmds[i]) { CmdKept(p, l, code, cmds[i]); }
    forall k | l.body <= k < |p + code| && IsCmd((p + code)[k]) ensures exists i :: 0 <= i < |cmds| && cmds[i].at == k {
      assert k < |p|;
    }
  }

  /** One more command. */
  lemma TraceMore(p: Code, l: Layout, cmds: seq<Cmd>, c: Cmd, between: Code)
    requires Traced(p, l, cmds) && IsCommand(c.f) && NoCmds(between) && l.body <= |p| == c.at && !c.checked
    requires c.f == SysBpf ==> Given(p, l, c)
    ensures Traced(p + ([Call(c.f)] + between + [MovReg(7, 0)]), l, cmds + [c])
  {
    hide CmdOk, Given;
    var code := [Call(c.f)] + between + [MovReg(7, 0)];
    var q, more := p + code, cmds + [c];
    forall i | 0 <= i < |more| ensures CmdOk(q, l, more[i]) {
      if i < |cmds| { CmdKept(p, l, code, cmds[i]); } else { NewCmd(p, l, code, c); }
    }
    forall i, j | 0 <= i < j < |more| ensures more[i].at < more[j].at { CmdBefore(p, l, cmds[i]); }
    forall k | l.body <= k < |q| && IsCmd(q[k]) ensures exists i :: 0 <= i < |more| && more[i].at == k {
      if k < |p| {
        var i :| 0 <= i < |cmds| && cmds[i].at == k;
        assert more[i].at == k;
      } else {
        assert more[|cmds|].at == |p|;
      }
    }
  }

  lemma CmdBefore(p: Code, l: Layout, c: Cmd)
    requires CmdOk(p, l, c)
    ensures c.at < |p|
  {
  }

  lemma NewCmd(p: Code, l: Layout, code: Code, c: Cmd)
    requires code != [] && code[0] == Call(c.f) && IsCommand(c.f) && c.at == |p| >= l.body && !c.checked
    requires c.f == SysBpf ==> Given(p, l, c)
    ensures CmdOk(p + code, l, c)
  {
    hide Given;
    if c.f == SysBpf { GivenKept(p, l, code, c); }
  }

  /** The check of the last command. */
  lemma TraceChecked(p: Code, l: Layout, cmds: seq<Cmd>)
    requires Traced(p, l, cmds) && cmds != [] && Body(p, l)
    ensures Traced(p + [CheckErr(p, l)], l, Checked(cmds, 0))
  {
    var q, n := p + [CheckErr(p, l)], |cmds| - 1;
    TraceKept(p, l, cmds, [CheckErr(p, l)]);
    AfterLast(p, l, cmds);
    forall j | cmds[n].at < j < |p| ensures !IsCmd(q[j]) && Target(q[j], j) <= |p| { assert q[j] == p[j]; }
    assert CheckedBy(q, l, cmds[n].at, |p|, 0);
    TraceRenamed(q, l, cmds, |p|, 0);
  }

  /** The check of the last command, after a jump over it for one result. */
  lemma TraceSkipped(p: Code, l: Layout, cmds: seq<Cmd>, imm: int)
    requires Traced(p, l, cmds) && cmds != [] && Body(p, l) && Fresh(p, l.body, |p|)
    ensures var p1 := p + [Jump(JEQ, 7, imm, 1)]; Traced(p1 + [CheckErr(p1, l)], l, Checked(cmds, imm))
  {
    hide Traced, Body, Fresh, CheckedBy, Checked;
    var p1, k := p + [Jump(JEQ, 7, imm, 1)], cmds[|cmds| - 1].at;
    var code := [Jump(JEQ, 7, imm, 1), CheckErr(p1, l)];
    assert p1 + [CheckErr(p1, l)] == p + code;
    TraceKept(p, l, cmds, code);
    AfterLast(p, l, cmds);
    SkippedBy(p, l, k, imm);
    TraceRenamed(p + code, l, cmds, |p1|, imm);
  }

  lemma SkippedBy(p: Code, l: Layout, k: nat, imm: int)
    requires k < |p| && Fresh(p, l.body, |p|)
    requires forall j :: k < j < |p| ==> !IsCmd(p[j]) && Target(p[j], j) <= |p|
    ensures var p1 := p + [Jump(JEQ, 7, imm, 1)];
      CheckedBy(p + [Jump(JEQ, 7, imm, 1), CheckErr(p1, l)], l, k, |p1|, imm)
  {
    hide FreshSince, Fresh;
    var p1 := p + [Jump(JEQ, 7, imm, 1)];
    var code := [Jump(JEQ, 7, imm, 1), CheckErr(p1, l)];
    var q := p + code;
    FreshKept(p, code, l.body, |p|);
    forall j | k < j < |p1| ensures !IsCmd(q[j]) && (Target(q[j], j) <= |p1| || SkipsCheck(q, l, j, |p1|, imm)) {
      if j < |p| { assert q[j] == p[j]; }
    }
  }

  /** After the last command there are no others, and no jump leads past the end. */
  lemma AfterLast(p: Code, l: Layout, cmds: seq<Cmd>)
    requires Traced(p, l, cmds) && cmds != [] && Body(p, l)
    ensures l.body <= cmds[|cmds| - 1].at < |p|
    ensures forall j :: cmds[|cmds| - 1].at < j < |p| ==> !IsCmd(p[j]) && Target(p[j], j) <= |p|
  {
    var n := |cmds| - 1;
    assert CmdOk(p, l, cmds[n]);
    assert forall i :: 0 <= i < |cmds| ==> cmds[i].at <= cmds[n].at;
    forall j | cmds[n].at < j < |p| ensures !IsCmd(p[j]) && Target(p[j], j) <= |p| {
      assert BodyInsn(p, l, j);
    }
  }

  lemma TraceRenamed(p: Code, l: Layout, cmds: seq<Cmd>, x: int, except: int)
    requires Traced(p, l, cmds) && cmds != [] && CheckedBy(p, l, cmds[|cmds| - 1].at, x, except)
    ensures Traced(p, l, Checked(cmds, except))
  {
    hide CmdOk, CheckedBy;
    var n, more := |cmds| - 1, Checked(cmds, except);
    CmdRenamed(p, l, cmds[n], x, except);
    forall i | 0 <= i < |more| ensures CmdOk(p, l, more[i]) { assert i < n ==> CmdOk(p, l, cmds[i]) && more[i] == cmds[i]; }
    SameCommands(p, l, cmds, more);
  }

  lemma CmdRenamed(p: Code, l: Layout, c: Cmd, x: int, except: int)
    requires CmdOk(p, l, c) && CheckedBy(p, l, c.at, x, except)
    ensures CmdOk(p, l, c.(checked := true, except := except))
  {
    hide CheckedBy;
  }

  lemma SameCommands(p: Code, l: Layout, cmds: seq<Cmd>, more: seq<Cmd>)
    requires |cmds| == |more| && forall i :: 0 <= i < |cmds| ==> cmds[i].at == more[i].at
    requires forall k :: l.body <= k < |p| && IsCmd(p[k]) ==> exists i :: 0 <= i < |cmds| && cmds[i].at == k
    ensures forall k :: l.body <= k < |p| && IsCmd(p[k]) ==> exists i :: 0 <= i < |more| && more[i].at == k
  {
    forall k | l.body <= k < |p| && IsCmd(p[k]) ensures exists i :: 0 <= i < |more| && more[i].at == k {
      var i :| 0 <= i < |cmds| && cmds[i].at == k;
      assert more[i].at == k;
    }
  }

  lemma GivenUsed(p: Code, l: Layout, used: nat, c: Cmd)
    ensures Given(p, l, c) ==> Given(p, l.(used := used), c)
  {
  }

  lemma KnownKept(p: Code, code: Code, body: nat, pc: nat, r: nat, x: int)
    requires Known(p, body, pc, r, x)
    ensures Known(p + code, body, pc, r, x)
  {
    var k :| KnownSince(p, body, pc, r, x, k);
    assert KnownSince(p + code, body, pc, r, x, k);
  }

  lemma SpareKept(p: Code, code: Code, body: nat, pc: nat, t: Task)
    requires pc < |p| && SpareAt(p, body, pc, t)
    ensures SpareAt(p + code, body, pc, t)
  {
    hide Known, Clear;
    match p[pc] {
      case Store(sz, d, _, off) =>
        var x :| Known(p, body, pc, d, x) && Clear(t, x + off, Bytes(sz));
        KnownKept(p, code, body, pc, d, x);
      case StoreImm(sz, d, off, _) =>
        var x :| Known(p, body, pc, d, x) && Clear(t, x + off, Bytes(sz));
        KnownKept(p, code, body, pc, d, x);
      case Call(f) =>
        if f == KallsymsLookup {
          var x :| Known(p, body, pc, 4, x) && Clear(t, x, 8);
          KnownKept(p, code, body, pc, 4, x);
        }
      case _ =>
    }
  }

  lemma SparedKept(p: Code, code: Code, body: nat, upto: nat, end: nat, t: Task)
    requires Spared(p, body, upto, end, t)
    ensures Spared(p + code, body, upto, end, t)
  {
    hide SpareAt;
    forall j: nat | upto <= j < end ensures SpareAt(p + code, body, j, t) { SpareKept(p, code, body, j, t); }
  }

  lemma FedKept(p: Code, code: Code, body: nat, from: nat, upto: nat, t: Task)
    requires FedBy(p, body, from, upto, t)
    ensures FedBy(p + code, body, from, upto, t)
  {
    hide FieldsCode;
    assert (p + code)[from..upto] == p[from..upto];
  }

  lemma GivenKept(p: Code, l: Layout, code: Code, c: Cmd)
    requires Given(p, l, c)
    ensures Given(p + code, l, c)
  {
    hide FedBy, Spared;
    FedKept(p, code, l.body, c.from, c.upto, c.task);
    if c.task.fed != [] { SparedKept(p, code, l.body, c.upto, c.at - 4, c.task); }
    assert (p + code)[c.at - 4..c.at] == p[c.at - 4..c.at];
  }

  lemma NothingTraced(p: Code, l: Layout)
    requires |p| == l.body
    ensures Traced(p, l, [])
  {
  }

  lemma TraceUsed(p: Code, l: Layout, cmds: seq<Cmd>, used: nat)
    requires Traced(p, l, cmds)
    ensures Traced(p, l.(used := used), cmds)
  {
    var l' := l.(used := used);
    hide Given;
    forall i | 0 <= i < |cmds| ensures CmdOk(p, l', cmds[i]) {
      assert CmdOk(p, l, cmds[i]);
      var c := cmds[i];
      GivenUsed(p, l, used, c);
      if c.checked {
        var x :| CheckedBy(p, l, c.at, x, c.except);
        forall j | c.at < j < x && SkipsCheck(p, l, j, x, c.except) ensures SkipsCheck(p, l', j, x, c.except) {}
        assert CheckedBy(p, l', c.at, x, c.except);
      }
    }
  }

  // ----------------------------------------------------------------- the pieces

  /** move_blob2ctx */
  function BlobToCtx(ctxOff: int, size: Size, blobOff: int): Code {
    [Ld64(1, blobOff), Ld64Hi, Load(size, 0, 1, 0), Store(size, 6, 0, ctxOff)]
  }

  /** move_stack2ctx */
  function StackToCtx(ctxOff: int, size: Size, stackOff: int): Code {
    [Load(size, 0, 10, stackOff), Store(size, 6, 0, ctxOff)]
  }

  /** emit_debug */
  function Debug(addr: int, len: nat, regs: seq<nat>): Code {
    [Ld64(1, addr), Ld64Hi, MovImm(2, len)] + (if |regs| > 0 then [MovReg(3, regs[0])] else []) +
    (if |regs| > 1 then [MovReg(4, regs[1])] else []) + [Call(TracePrintk)]
  }

  lemma CopiesLocal(off: int, data: int, size: Size, used: nat)
    ensures Local(RelStore(off, data), used) && Quiet(RelStore(off, data))
    ensures Local(BlobToBlob(off, size, data), used) && Quiet(BlobToBlob(off, size, data))
    ensures Local(BlobToCtx(off, size, data), used) && Quiet(BlobToCtx(off, size, data))
  {
    hide RelStore, BlobToBlob;
    StoreLocal(off, data, used);
    BlobLocal(off, size, data, used);
  }

  lemma StoreLocal(off: int, data: int, used: nat)
    ensures Local(RelStore(off, data), used) && Quiet(RelStore(off, data))
  {
  }

  lemma BlobLocal(off: int, size: Size, data: int, used: nat)
    ensures Local(BlobToBlob(off, size, data), used) && Quiet(BlobToBlob(off, size, data))
  {
  }

  lemma MovesLocal(off: int, data: int, size: Size, checkNonZero: bool, used: nat)
    ensures Local(CtxToBlob(off, size, data, checkNonZero), used) && Quiet(CtxToBlob(off, size, data, checkNonZero))
    ensures Local(StackToBlob(off, size, data), used) && Quiet(StackToBlob(off, size, data))
    ensures Local(StackToCtx(off, size, data), used) && Quiet(StackToCtx(off, size, data))
  {
  }

  lemma DebugLocal(addr: int, len: nat, regs: seq<nat>, used: nat)
    requires |regs| <= 2 && forall r :: r in regs ==> r < NR_REGS
    ensures Local(Debug(addr, len, regs), used) && Quiet(Debug(addr, len, regs))
    ensures |Debug(addr, len, regs)| == 4 + |regs|
  {
    var q := Debug(addr, len, regs);
    assert forall i :: 0 <= i < |regs| ==> regs[i] in regs;
    if |regs| == 1 {
      assert q == [Ld64(1, addr), Ld64Hi, MovImm(2, len), MovReg(3, regs[0]), Call(TracePrintk)];
    } else if |regs| == 2 {
      assert q == [Ld64(1, addr), Ld64Hi, MovImm(2, len), MovReg(3, regs[0]), MovReg(4, regs[1]), Call(TracePrintk)];
    } else {
      assert q == [Ld64(1, addr), Ld64Hi, MovImm(2, len), Call(TracePrintk)];
    }
  }

  /** __emit_sys_close with its debug output: the jump leaps over all of it. */
  function SysClose3(debug: bool): Code {
    [Jump(JSLE, 1, 0, if debug then 8 else 2), MovReg(9, 1), Call(SysClose)]
  }

  function LoadBlob(blobOff: int): Code { [Ld64(0, blobOff), Ld64Hi, Load(W, 1, 0, 0)] }

  lemma LoadsLocal(off: int, used: nat)
    ensures Local([Load(W, 1, 10, off)], used) && Quiet([Load(W, 1, 10, off)])
    ensures Local(LoadBlob(off), used) && Quiet(LoadBlob(off))
  {
  }

  /** Remembers R7 in stack slot `i`, or at a place of the blob. */
  function KeepIn(i: nat): Code { [Store(W, 10, 7, SlotOff(i))] }

  function KeepMap(off: int): Code { [Ld64(1, off), Ld64Hi, Store(W, 1, 7, 0)] }

  // -------------------------------------------------- filling the fields of a command

  datatype Base = NoBase | At(x: int)

  /** The attributes being filled: since where, up to where, and the address that R8
      holds while the code in between is emitted.  `live` between the first field
      and the command. */
  datatype Prep = Prep(live: bool, from: nat, upto: nat, task: Task, base: Base)

  ghost predicate PrepOk(p: Code, body: nat, w: Prep) {
    w.live ==>
      && FedBy(p, body, w.from, w.upto, w.task) && Spared(p, body, w.upto, |p|, w.task)
      && (w.base.At? ==> Known(p, body, |p|, 8, w.base.x))
  }

  /** An instruction of a piece of code that spares the task and leaves R8 alone. */
  ghost predicate SpareInsn(code: Code, i: nat, w: Prep)
    requires i < |code|
  {
    Writes(code[i]) != 8 &&
    match code[i]
    case Store(sz, d, _, off) => ToKnown(code, i, w, d, off, Bytes(sz))
    case StoreImm(sz, d, off, _) => ToKnown(code, i, w, d, off, Bytes(sz))
    case Call(f) => f != ProbeReadKernel && f != CopyFromUser && f != KallsymsLookup
    case _ => true
  }

  ghost predicate ToKnown(code: Code, i: nat, w: Prep, d: nat, off: int, n: nat) {
    (d == 8 && w.base.At? && Clear(w.task, w.base.x + off, n)) || exists x :: Known(code, 0, i, d, x) && Clear(w.task, x + off, n)
  }

  ghost predicate SpareCode(code: Code, w: Prep) {
    forall i: nat :: i < |code| ==> SpareInsn(code, i, w)
  }

  /** What is known within a piece is known where it has been added. */
  lemma KnownWithin(p: Code, l: Layout, code: Code, i: nat, r: nat, x: int)
    requires Body(p, l) && i <= |code| && Known(code, 0, i, r, x)
    ensures Known(p + code, l.body, |p| + i, r, x)
  {
    var k :| KnownSince(code, 0, i, r, x, k);
    var q := p + code;
    forall j | l.body <= j < |p| + k ensures Target(q[j], j) <= |p| + k || Target(q[j], j) > |p| + i {
      if j < |p| { assert q[j] == p[j] && BodyInsn(p, l, j); } else { assert q[j] == code[j - |p|]; }
    }
    forall j | |p| + k < j < |p| + i ensures !Clobbers(q[j], r) { assert q[j] == code[j - |p|]; }
    assert KnownSince(q, l.body, |p| + i, r, x, |p| + k);
  }

  /** What is known before a piece that leaves the register alone stays known. */
  lemma KnownOn(p: Code, l: Layout, code: Code, i: nat, r: nat, x: int)
    requires Body(p, l) && i <= |code| && Known(p, l.body, |p|, r, x) && forall j :: 0 <= j < i ==> !Clobbers(code[j], r)
    ensures Known(p + code, l.body, |p| + i, r, x)
  {
    var k :| KnownSince(p, l.body, |p|, r, x, k);
    var q := p + code;
    forall j | l.body <= j < k ensures Target(q[j], j) <= k { assert q[j] == p[j] && BodyInsn(p, l, j); }
    forall j | k < j < |p| + i ensures !Clobbers(q[j], r) { if j >= |p| { assert q[j] == code[j - |p|]; } }
    assert KnownSince(q, l.body, |p| + i, r, x, k);
  }

  lemma SpareThere(p: Code, l: Layout, code: Code, w: Prep, i: nat)
    requires Body(p, l) && PrepOk(p, l.body, w) && w.live && SpareCode(code, w) && i < |code|
    ensures SpareAt(p + code, l.body, |p| + i, w.task)
  {
    hide Known, Clear, FedBy, Spared, Body;
    assert (p + code)[|p| + i] == code[i] && SpareInsn(code, i, w);
    match code[i] {
      case Store(sz, d, _, off) => StoreSpares(p, l, code, w, i, |p| + i, d, off, Bytes(sz));
      case StoreImm(sz, d, off, _) => StoreSpares(p, l, code, w, i, |p| + i, d, off, Bytes(sz));
      case _ =>
    }
  }

  lemma StoreSpares(p: Code, l: Layout, code: Code, w: Prep, i: nat, at: nat, d: nat, off: int, n: nat)
    requires Body(p, l) && PrepOk(p, l.body, w) && w.live && SpareCode(code, w) && i < |code| && ToKnown(code, i, w, d, off, n)
    requires at == |p| + i
    ensures exists x :: Known(p + code, l.body, at, d, x) && Clear(w.task, x + off, n)
  {
    hide Known, Clear, FedBy, Spared, Body;
    if d == 8 && w.base.At? && Clear(w.task, w.base.x + off, n) {
      forall j: nat | j < i ensures !Clobbers(code[j], 8) { assert SpareInsn(code, j, w); }
      KnownOn(p, l, code, i, 8, w.base.x);
    } else {
      var x :| Known(code, 0, i, d, x) && Clear(w.task, x + off, n);
      KnownWithin(p, l, code, i, d, x);
    }
  }

  /** A sparing piece goes well with attributes being filled. */
  lemma PrepOn(p: Code, l: Layout, code: Code, w: Prep)
    requires Body(p, l) && PrepOk(p, l.body, w) && (w.live ==> SpareCode(code, w))
    ensures PrepOk(p + code, l.body, w)
  {
    hide Known, FedBy, Body, SpareAt;
    if w.live {
      FedKept(p, code, l.body, w.from, w.upto, w.task);
      SparedKept(p, code, l.body, w.upto, |p|, w.task);
      forall j: nat | w.upto <= j < |p + code| ensures SpareAt(p + code, l.body, j, w.task) {
        if j >= |p| { SpareThere(p, l, code, w, j - |p|); }
      }
      if w.base.At? {
        forall j: nat | j < |code| ensures !Clobbers(code[j], 8) { assert SpareInsn(code, j, w); }
        KnownOn(p, l, code, |code|, 8, w.base.x);
      }
    }
  }

  lemma PrepMore(p: Code, l: Layout, w: Prep, x: Field)
    requires Body(p, l) && PrepOk(p, l.body, w) && w.live && w.upto == |p| && w.base == NoBase
    ensures PrepOk(p + FieldCode(x), l.body, Fed(w, x)) && Fed(w, x).upto == |p + FieldCode(x)|
  {
    hide FieldCode, Spared, Body;
    var q, fed := p + FieldCode(x), w.task.fed + [x];
    assert fed[..|fed| - 1] == w.task.fed;
    assert q[w.from..|q|] == p[w.from..w.upto] + FieldCode(x);
    NothingSpared(q, l.body, Fed(w, x).task);
  }

  lemma NothingSpared(p: Code, body: nat, t: Task)
    ensures Spared(p, body, |p|, |p|, t)
  {
  }

  function Fed(w: Prep, x: Field): Prep {
    w.(upto := w.upto + |FieldCode(x)|, task := With(w.task, x))
  }

  /** One more field. */
  function With(t: Task, x: Field): Task { t.(fed := t.fed + [x]) }

  lemma PrepStart(p: Code, l: Layout, w: Prep)
    requires Body(p, l) && w.from == w.upto == |p| && w.task.fed == [] && w.base == NoBase
    ensures PrepOk(p, l.body, w)
  {
    forall j | l.body <= j < |p| ensures Target(p[j], j) <= |p| { assert BodyInsn(p, l, j); }
  }

  /** R1, R2 and R3 set up for the command. */
  function Setup(cmd: int, t: Task): Code { [MovImm(1, cmd), Ld64(2, t.attr), Ld64Hi, MovImm(3, t.size)] }

  lemma SetupGives(p: Code, l: Layout, w: Prep, c: Cmd)
    requires Body(p, l) && PrepOk(p, l.body, w) && w.live && c.from == w.from && c.upto == w.upto && c.task == w.task
    requires c.at == |p| + 4
    ensures Given(p + Setup(c.arg, w.task), l, c)
  {
    hide FedBy, Spared;
    var code := Setup(c.arg, w.task);
    var q := p + code;
    FedUpto(p, l.body, w);
    FedKept(p, code, l.body, w.from, w.upto, w.task);
    SparedKept(p, code, l.body, w.upto, |p|, w.task);
    forall j | l.body <= j < |p| ensures Target(q[j], j) <= |p| { assert q[j] == p[j] && BodyInsn(p, l, j); }
    assert q[c.at - 4..c.at] == code;
  }

  lemma FedUpto(p: Code, body: nat, w: Prep)
    requires PrepOk(p, body, w) && w.live
    ensures w.upto <= |p|
  {
  }

  /** emit_sys_bpf */
  function SysBpfCode(cmd: int, t: Task): Code {
    Setup(cmd, t) + ([Call(SysBpf)] + [] + [MovReg(7, 0)])
  }

  predicate EndsIn(p: Code, tail: Code) { |tail| <= |p| && p[|p| - |tail|..] == tail }

  /** What bpf_gen__finish copies to the context: program descriptors, then map descriptors. */
  ghost function CopyProgs(nrMaps: nat, n: nat): Code {
    if n == 0 then []
    else CopyProgs(nrMaps, n - 1) + StackToCtx(CTX_SZ + MAP_DESC_SZ * nrMaps + PROG_DESC_SZ * (n - 1), W, SlotOff(2 + (n - 1)))
  }

  ghost function CopyMaps(fdArray: int, n: nat): Code {
    if n == 0 then [] else CopyMaps(fdArray, n - 1) + BlobToCtx(MapDescOff(n - 1), W, fdArray + 4 * (n - 1))
  }

  /** All of it, with the format string at `addr`. */
  function CloseCode(addr: int, debug: bool): Code {
    SysClose3(debug) + if debug then Debug(addr, 16, [9, 0]) else []
  }

  lemma CloseLocal(first: Code, addr: int, debug: bool, used: nat)
    requires Local(first, used) && Quiet(first)
    ensures Local(first + CloseCode(addr, debug), used) && Quiet(first + CloseCode(addr, debug))
  {
    var printed := if debug then Debug(addr, 16, [9, 0]) else [];
    DebugLocal(addr, 16, [9, 0], used);
    var q := SysClose3(debug) + printed;
    forall i | 0 <= i < |q| ensures LocalInsn(q, used, i) && KeepsResult(q[i]) {
      if i >= 3 { assert LocalInsn(printed, used, i - 3) && q[i] == printed[i - 3]; }
    }
    LocalConcat(first, q, used);
  }

  // -------------------------------------------------------------- the generator

  /** An extern symbol to resolve when the program is loaded. */
  datatype Relo = Relo(name: string, isWeak: bool, isTypeless: bool, isLd64: bool, kind: int, insnIdx: nat)

  /** A symbol already looked up. */
  datatype Ksym = Ksym(name: string, refs: nat, kind: int, off: int, typeless: bool, insn: int, isLd64: bool)

  /** What a symbol is known by. */
  datatype Key = Key(kind: int, isLd64: bool, name: string)

  function KeyOf(k: Ksym): Key { Key(k.kind, k.isLd64, k.name) }

  function ReloKey(r: Relo): Key { Key(r.kind, r.isLd64, r.name) }

  ghost function Keys(ksyms: seq<Ksym>): set<Key> {
    set i | 0 <= i < |ksyms| :: KeyOf(ksyms[i])
  }

  lemma KeysSame(a: seq<Ksym>, b: seq<Ksym>, k: nat)
    requires k < |a| == |b| && KeyOf(a[k]) == KeyOf(b[k]) && forall i :: 0 <= i < |a| && i != k ==> a[i] == b[i]
    ensures Keys(a) == Keys(b) && KeyOf(a[k]) in Keys(a)
  {
    forall x | x in Keys(a) ensures x in Keys(b) {
      var i :| 0 <= i < |a| && KeyOf(a[i]) == x;
      assert KeyOf(b[i]) == x;
    }
    forall x | x in Keys(b) ensures x in Keys(a) {
      var i :| 0 <= i < |b| && KeyOf(b[i]) == x;
      assert KeyOf(a[i]) == x;
    }
  }

  lemma KeysMore(a: seq<Ksym>, k: Ksym)
    ensures Keys(a + [k]) == Keys(a) + {KeyOf(k)}
  {
    var b := a + [k];
    forall x | x in Keys(a) + {KeyOf(k)} ensures x in Keys(b) {
      if x in Keys(a) {
        var i :| 0 <= i < |a| && KeyOf(a[i]) == x;
        assert KeyOf(b[i]) == x;
      } else {
        assert KeyOf(b[|a|]) == x;
      }
    }
  }

  /** The symbols known after the first `n` relocations, and the lookups they need: one
      for each symbol that is new. */
  ghost function KnownAfter(relos: seq<Relo>, known: set<Key>, n: nat): set<Key>
    requires n <= |relos|
  {
    if n == 0 then known else KnownAfter(relos, known, n - 1) + {ReloKey(relos[n - 1])}
  }

  function LookupOf(r: Relo): Kind {
    if r.isLd64 && r.isTypeless then Lookup(KallsymsLookup, true, -ENOENT) else Lookup(FindByNameKind, !r.isWeak, 0)
  }

  ghost function ReloKinds(relos: seq<Relo>, known: set<Key>, n: nat): seq<Kind>
    requires n <= |relos|
  {
    if n == 0 then []
    else ReloKinds(relos, known, n - 1) +
         if ReloKey(relos[n - 1]) in KnownAfter(relos, known, n - 1) then [] else [LookupOf(relos[n - 1])]
  }

  ghost function LookupsFor(attachKind: int, relos: seq<Relo>, known: set<Key>): seq<Kind> {
    (if attachKind != 0 then [Lookup(FindByNameKind, true, 0)] else []) + ReloKinds(relos, known, |relos|)
  }

  /** Where the fields of `union bpf_attr` are, and how long the attributes of each
      command: fixed by the kernel headers. */
  datatype Abi = Abi(attrOff: string -> int, attrSize: string -> nat)

  /** BTF_LOAD: the user's log settings, and the BTF data. */
  function BtfTask(abi: Abi, attr: int, data: int): Task {
    Task([FromCtx(attr + abi.attrOff("btf_log_level"), W, CTX_LOG_LEVEL, false),
          FromCtx(attr + abi.attrOff("btf_log_size"), W, CTX_LOG_SIZE, false),
          FromCtx(attr + abi.attrOff("btf_log_buf"), DW, CTX_LOG_BUF, false),
          Address(attr + abi.attrOff("btf"), data)],
         attr, abi.attrSize("btf_load"), [])
  }

  /** MAP_CREATE: the BTF descriptor if there are types, the inner map if maps are the
      values, and the number of entries if the user has set one. */
  function CreateTask(abi: Abi, attr: int, mapInMap: bool, valueTypeId: nat, mapIdx: int): Task {
    Task((if valueTypeId != 0 then [FromStack(attr + abi.attrOff("btf_fd"), W, SlotOff(0))] else []) +
         (if mapInMap then [FromStack(attr + abi.attrOff("inner_map_fd"), W, SlotOff(1))] else []) +
         (if mapIdx >= 0 then [FromCtx(attr + abi.attrOff("max_entries"), W, MapDescOff(mapIdx) + MAP_MAX_ENTRIES, true)] else []),
         attr, abi.attrSize("map_create"), [])
  }

  /** MAP_UPDATE_ELEM: the descriptor of the map, the key, and the value. */
  function UpdateTask(abi: Abi, attr: int, slot: int, key: int, value: int): Task {
    Task([FromBlob(attr + abi.attrOff("map_fd"), W, slot), Address(attr + abi.attrOff("key"), key), Address(attr + abi.attrOff("value"), value)],
         attr, abi.attrSize("map_update_elem"), [])
  }

  /** MAP_FREEZE: the descriptor of the map. */
  function FreezeTask(abi: Abi, attr: int, slot: int): Task {
    Task([FromBlob(attr + abi.attrOff("map_fd"), W, slot)], attr, abi.attrSize("map_freeze"), [])
  }

  // the tasks, field by field

  lemma BtfFilled(abi: Abi, attr: int, data: int)
    ensures With(With(With(With(Task([], attr, abi.attrSize("btf_load"), []),
        FromCtx(attr + abi.attrOff("btf_log_level"), W, CTX_LOG_LEVEL, false)),
        FromCtx(attr + abi.attrOff("btf_log_size"), W, CTX_LOG_SIZE, false)),
        FromCtx(attr + abi.attrOff("btf_log_buf"), DW, CTX_LOG_BUF, false)),
        Address(attr + abi.attrOff("btf"), data)) == BtfTask(abi, attr, data)
    ensures BtfTask(abi, attr, data).attr == attr && BtfTask(abi, attr, data).size == abi.attrSize("btf_load")
  {
  }

  lemma UpdateFilled(abi: Abi, attr: int, slot: int, key: int, value: int)
    ensures With(With(With(Task([], attr, abi.attrSize("map_update_elem"), []),
        FromBlob(attr + abi.attrOff("map_fd"), W, slot)),
        Address(attr + abi.attrOff("key"), key)),
        Address(attr + abi.attrOff("value"), value)) == UpdateTask(abi, attr, slot, key, value)
    ensures var t := UpdateTask(abi, attr, slot, key, value); t.attr == attr && t.size == abi.attrSize("map_update_elem")
  {
  }

  lemma FreezeFilled(abi: Abi, attr: int, slot: int)
    ensures With(Task([], attr, abi.attrSize("map_freeze"), []), FromBlob(attr + abi.attrOff("map_fd"), W, slot)) == FreezeTask(abi, attr, slot)
  {
  }

  lemma CreateFilled(abi: Abi, attr: int, mapInMap: bool, valueTypeId: nat, mapIdx: int)
    ensures
      var t0 := Task([], attr, abi.attrSize("map_create"), []);
      var t1 := if valueTypeId != 0 then With(t0, FromStack(attr + abi.attrOff("btf_fd"), W, SlotOff(0))) else t0;
      var t2 := if mapInMap then With(t1, FromStack(attr + abi.attrOff("inner_map_fd"), W, SlotOff(1))) else t1;
      var t3 := if mapIdx >= 0 then With(t2, FromCtx(attr + abi.attrOff("max_entries"), W, MapDescOff(mapIdx) + MAP_MAX_ENTRIES, true)) else t2;
      t3 == CreateTask(abi, attr, mapInMap, valueTypeId, mapIdx)
  {
  }

  lemma AddressesFilled(abi: Abi, t: Task, attr: int, d: ProgData, fdArray: int)
    requires t.fed == []
    ensures With(With(With(With(With(With(t,
        Address(attr + abi.attrOff("license"), d.license)),
        Address(attr + abi.attrOff("insns"), d.insns)),
        Address(attr + abi.attrOff("func_info"), d.funcInfo)),
        Address(attr + abi.attrOff("line_info"), d.lineInfo)),
        Address(attr + abi.attrOff("core_relos"), d.coreRelos)),
        Address(attr + abi.attrOff("fd_array"), fdArray)) == t.(fed := ProgAddresses(abi, attr, d, fdArray))
  {
  }

  lemma SettingsFilled(abi: Abi, t: Task, attr: int)
    ensures With(With(With(With(t,
        FromCtx(attr + abi.attrOff("log_level"), W, CTX_LOG_LEVEL, false)),
        FromCtx(attr + abi.attrOff("log_size"), W, CTX_LOG_SIZE, false)),
        FromCtx(attr + abi.attrOff("log_buf"), DW, CTX_LOG_BUF, false)),
        FromStack(attr + abi.attrOff("prog_btf_fd"), W, SlotOff(0))) == t.(fed := t.fed + ProgSettings(abi, attr))
  {
  }

  lemma ProgFilled(abi: Abi, attr: int, d: ProgData, fdArray: int)
    ensures var t := ProgTask(abi, attr, d, fdArray); t.attr == attr && t.size == abi.attrSize("prog_load") && t.loose == TargetFields(abi, attr)
  {
  }

  /** Where the data of a program is. */
  datatype ProgData = ProgData(license: int, insns: int, funcInfo: int, lineInfo: int, coreRelos: int)

  /** PROG_LOAD: the data of the program, the array of descriptors, the user's log
      settings and the BTF descriptor.  The attach target is looked up in between. */
  function ProgTask(abi: Abi, attr: int, d: ProgData, fdArray: int): Task {
    Task(ProgAddresses(abi, attr, d, fdArray) + ProgSettings(abi, attr), attr, abi.attrSize("prog_load"), TargetFields(abi, attr))
  }

  function ProgAddresses(abi: Abi, attr: int, d: ProgData, fdArray: int): seq<Field> {
    [Address(attr + abi.attrOff("license"), d.license),
     Address(attr + abi.attrOff("insns"), d.insns),
     Address(attr + abi.attrOff("func_info"), d.funcInfo),
     Address(attr + abi.attrOff("line_info"), d.lineInfo),
     Address(attr + abi.attrOff("core_relos"), d.coreRelos),
     Address(attr + abi.attrOff("fd_array"), fdArray)]
  }

  function ProgSettings(abi: Abi, attr: int): seq<Field> {
    [FromCtx(attr + abi.attrOff("log_level"), W, CTX_LOG_LEVEL, false),
     FromCtx(attr + abi.attrOff("log_size"), W, CTX_LOG_SIZE, false),
     FromCtx(attr + abi.attrOff("log_buf"), DW, CTX_LOG_BUF, false),
     FromStack(attr + abi.attrOff("prog_btf_fd"), W, SlotOff(0))]
  }

  function TargetFields(abi: Abi, attr: int): seq<int> {
    [attr + abi.attrOff("attach_btf_id"), attr + abi.attrOff("attach_btf_obj_fd")]
  }

  /** How many bytes of an instruction a relocation may change. */
  function Room(isLd64: bool): nat { if isLd64 then 16 else 8 }

  /** All relocations are in instructions of the program. */
  predicate RelosInside(relos: seq<Relo>, insnCnt: nat) {
    forall i :: 0 <= i < |relos| ==> 8 * relos[i].insnIdx + Room(relos[i].isLd64) <= 8 * insnCnt
  }

  ghost predicate DataFine(fdArray: int, dataLen: int, w: Prep) {
    && fdArray >= 0 && fdArray % 8 == 0 && dataLen % 8 == 0 && fdArray + 4 * MAX_FD_ARRAY_SZ <= dataLen
    && (w.live ==> fdArray + 4 * MAX_FD_ARRAY_SZ <= w.task.attr && w.task.attr + w.task.size <= dataLen)
  }

  class Gen {
    const abi: Abi
    var insns: Code         // insn_start up to insn_cur
    var dataLen: nat        // data_cur - data_start
    var cleanupLabel: nat   // in instructions
    var error: int
    var nrProgs: nat
    var nrMaps: nat
    var logLevel: nat
    var relos: seq<Relo>
    var ksyms: seq<Ksym>
    var coreReloCnt: nat
    var attachKind: int
    var attachTarget: string
    var fdArray: int
    var nrFdArray: int
    ghost var layout: Layout
    ghost var cmds: seq<Cmd>
    ghost var prep: Prep    // the attributes being filled

    constructor (abi: Abi)
      ensures insns == [] && dataLen == 0 && error == 0 && nrProgs == 0 && nrMaps == 0 && this.abi == abi
      ensures relos == [] && ksyms == [] && attachKind == 0 && nrFdArray == 0 && cmds == [] && !prep.live
    {
      this.abi := abi;
      insns, dataLen, error, nrProgs, nrMaps, logLevel := [], 0, 0, 0, 0, 0;
      relos, ksyms, coreReloCnt, attachKind, attachTarget := [], [], 0, 0, "";
      fdArray, nrFdArray, cleanupLabel := 0, 0, 0;
      layout, cmds := Layout(0, 0, 0, 0, 0, false, 0), [];
      prep := Prep(false, 0, 0, NO_TASK, NoBase);
    }

    /** Between calls: as long as no error has occurred, what has been emitted has
        the right shape, stores only to stack slots in use, and holds the commands
        that have been recorded. */
    ghost predicate Valid()
      reads this
    {
      && (forall k :: 0 <= k < |ksyms| ==> ksyms[k].refs >= 1) && nrFdArray <= MAX_KFUNC_DESCS
      && (error == 0 ==> PrepOk(insns, layout.body, prep) && DataOk())
      && (error == 0 ==>
            Shape(insns, layout) && layout.debug == (logLevel > 0) && cleanupLabel == layout.clean &&
            layout.used == 2 + nrProgs && layout.fdArray == fdArray && Traced(insns, layout, cmds))
    }

    /** The data so far: the descriptors come first, attributes being filled later. */
    ghost predicate DataOk()
      reads this
    {
      DataFine(fdArray, dataLen, prep)
    }

    function FdArrayEnd(): int
      reads this
    {
      fdArray + 4 * MAX_FD_ARRAY_SZ
    }

    /** No attributes are half filled. */
    ghost predicate Ready()
      reads this
    {
      Valid() && !prep.live
    }

    /** The fields filled so far are at the end of what has been emitted. */
    ghost predicate Filling()
      reads this
    {
      prep.live && prep.upto == |insns| && prep.base == NoBase
    }

    /** The commands that the program has so far. */
    ghost function Ran(): seq<Kind>
      reads this
    {
      Kinds(cmds)
    }

    /** R7 holds the result of the command emitted last. */
    ghost predicate ResultKnown()
      reads this
    {
      error == 0 ==> Fresh(insns, layout.body, |insns|)
    }

    /** emit: the buffer is limited, and nothing is emitted after an error. */
    method Emit(i: Insn)
      modifies `insns, `error
      ensures error == 0 ==> old(error) == 0 && insns == old(insns) + [i]
    {
      if error != 0 {
        return;
      }
      if 8 * |insns| + 8 > INT32_MAX {
        error := -ERANGE;
        return;
      }
      insns := insns + [i];
    }

    /** A run of calls to emit. */
    method EmitAll(code: Code)
      modifies `insns, `error
      ensures error == 0 ==> old(error) == 0 && insns == old(insns) + code
    {
      var i := 0;
      while i < |code|
        invariant 0 <= i <= |code|
        invariant error == 0 ==> old(error) == 0 && insns == old(insns) + code[..i]
      {
        Emit(code[i]);
        i := i + 1;
      }
    }

    /** add_data: data is padded to a multiple of 8. */
    method AddData(size: nat) returns (off: int)
      modifies `dataLen, `error
      ensures dataLen >= old(dataLen)
      ensures error == 0 ==> old(error) == 0 && off == old(dataLen) && off + size <= dataLen
      ensures error == 0 && old(DataOk()) ==> DataOk() && FdArrayEnd() <= off
      ensures old(Valid()) ==> Valid() && (error == 0 ==> FdArrayEnd() <= off)
      ensures old(Filling()) ==> Filling()
      ensures error == 0 && old(dataLen) == 0 ==> dataLen % 8 == 0
    {
      hide Shape, Traced, PrepOk;
      RoundUp(size, dataLen);
      var size8 := (size + 7) / 8 * 8;
      if error != 0 {
        return 0;
      }
      if size8 > INT32_MAX || dataLen + size8 > INT32_MAX {
        error := -ERANGE;
        return 0;
      }
      off := dataLen;
      dataLen := dataLen + size8;
    }

    /** Emits a piece of code whose jumps stay inside it. */
    method EmitPiece(code: Code)
      requires Valid() && (error == 0 ==> Local(code, layout.used) && (prep.live ==> SpareCode(code, prep)))
      modifies `insns, `error
      ensures Valid() && (error == 0 ==> old(error) == 0 && insns == old(insns) + code)
      ensures old(ResultKnown()) && Quiet(code) ==> ResultKnown()
    {
      hide Inside, LocalInsn, Shape, Traced, PrepOk, SpareCode, DataFine;
      ghost var p := insns;
      EmitAll(code);
      if error == 0 {
        ShapeBody(p, layout);
        PrepOn(p, layout, code, prep);
        ShapePiece(p, layout, code);
        TraceKept(p, layout, cmds, code);
      }
    }

    /** A command's attributes are to be filled from here on. */
    ghost method StartTask(attr: int, size: nat, loose: seq<int>)
      requires Valid() && (error == 0 ==> FdArrayEnd() <= attr && attr + size <= dataLen)
      modifies `prep
      ensures Valid() && Filling() && prep == Prep(true, |insns|, |insns|, Task([], attr, size, loose), NoBase)
    {
      hide Shape, Traced, PrepOk;
      prep := Prep(true, |insns|, |insns|, Task([], attr, size, loose), NoBase);
      if error == 0 {
        ShapeBody(insns, layout);
        PrepStart(insns, layout, prep);
      }
    }

    /** The code that fills a field. */
    method EmitField(code: Code, ghost x: Field)
      requires Valid() && code == FieldCode(x) && (error == 0 ==> Filling() && Local(code, layout.used))
      modifies `insns, `error, `prep
      ensures Valid() && (error == 0 ==> old(error) == 0 && Filling() && insns == old(insns) + code)
      ensures error == 0 ==> prep.task == With(old(prep).task, x)
    {
      hide Inside, LocalInsn, Shape, Traced, PrepOk, FieldCode;
      ghost var p := insns;
      EmitAll(code);
      if error == 0 {
        ShapeBody(p, layout);
        PrepMore(p, layout, prep, x);
        ShapePiece(p, layout, code);
        TraceKept(p, layout, cmds, code);
        prep := Fed(prep, x);
      }
    }

    /** emit_debug: a format string and up to two registers, if anything is logged. */
    method EmitDebug(len: nat, regs: seq<nat>)
      requires Valid() && |regs| <= 2 && forall r :: r in regs ==> r < NR_REGS
      modifies `insns, `error, `dataLen
      ensures dataLen >= old(dataLen)
      ensures Valid() && (error == 0 ==> old(error) == 0 && old(insns) <= insns)
      ensures old(ResultKnown()) ==> ResultKnown()
    {
      if logLevel == 0 {
        return;
      }
      var addr := AddData(len);
      DebugLocal(addr, len, regs, layout.used);
      DebugSpares(addr, len, regs, prep);
      EmitPiece(Debug(addr, len, regs));
    }

    /** A command: its result goes to R7, perhaps after some other instructions. */
    method EmitCommand(f: Helper, between: Code, ghost c: Cmd)
      requires Valid() && IsCommand(f) && (error == 0 ==> Local(between, layout.used))
      requires forall i :: 0 <= i < |between| ==> KeepsR0(between[i]) && Plain(between[i])
      requires error == 0 ==> c.at == |insns| && c.f == f && !c.checked && (f == SysBpf ==> Given(insns, layout, c))
      requires error == 0 && prep.live && f == KallsymsLookup ==> AddressClear(insns, layout.body, prep)
      modifies `insns, `error, `cmds
      ensures Valid() && ResultKnown()
      ensures error == 0 ==> old(error) == 0 && insns == old(insns) + ([Call(f)] + between + [MovReg(7, 0)])
      ensures error == 0 ==> cmds != [] && Ran() == old(Ran()) + [KindOfCmd(c)]
    {
      hide Inside, LocalInsn, Shape, Traced, Fresh, Kinds, PrepOk, Given, DataFine, AddressClear, KindOfCmd;
      ghost var p := insns;
      EmitAll([Call(f)] + between + [MovReg(7, 0)]);
      if error == 0 {
        CommandLocal(f, between, layout.used);
        ShapeBody(p, layout);
        ShapePiece(p, layout, [Call(f)] + between + [MovReg(7, 0)]);
        FreshCommand(p, layout, f, between);
        TraceMore(p, layout, cmds, c, between);
        PrepCommand(p, layout, f, between, prep);
        KindsMore(cmds, c);
      }
      cmds := cmds + [c];
    }

    /** emit_sys_bpf: the attributes being filled are the command's. */
    method EmitSysBpf(cmd: int, attr: int, attrSize: nat)
      requires Valid() && (error == 0 ==> prep.live && prep.task.attr == attr && prep.task.size == attrSize)
      modifies `insns, `error, `cmds, `prep
      ensures Ready() && ResultKnown() && (error == 0 ==> old(error) == 0)
      ensures error == 0 ==> cmds != []
      ensures error == 0 ==> Ran() == old(Ran()) + [Kind(SysBpf, cmd, false, 0, old(prep).upto == |old(insns)|, old(prep).task)]
      ensures error == 0 ==> insns == old(insns) + SysBpfCode(cmd, old(prep).task)
    {
      hide Shape, Traced, Fresh, Kinds, PrepOk, Given;
      ghost var p, w, c := insns, prep, Cmd(|insns| + 4, SysBpf, cmd, false, 0, prep.from, prep.upto, prep.task);
      prep := prep.(live := false);
      SetupLocal(cmd, w.task, layout.used);
      NotLive(p, layout.body, prep);
      EmitPiece([MovImm(1, cmd), Ld64(2, attr), Ld64Hi, MovImm(3, attrSize)]);
      if error == 0 {
        ShapeBody(p, layout);
        SetupGives(p, layout, w, c);
      }
      EmitCommand(SysBpf, [], c);
    }

    /** emit_check_err: if R7 is negative, to the cleanup code, provided that a jump
        reaches that far. */
    method EmitCheckErr()
      requires Valid() && ResultKnown() && (error == 0 ==> cmds != [])
      modifies `insns, `error, `cmds
      ensures Valid() && (error == 0 ==> old(error) == 0 && insns == old(insns) + [CheckErr(old(insns), layout)])
      ensures error == 0 ==> cmds != [] && Ran() == CheckedKinds(old(Ran()), 0)
    {
      hide Traced, Fresh, Body, Cleanup, Kinds, PrepOk, DataFine;
      ghost var p := insns;
      var off := -(|insns| - cleanupLabel) - 1;
      if -0x8000 <= off < 0x8000 {
        Emit(Jump(JSLT, 7, 0, off));
        if error == 0 {
          ShapeBody(p, layout);
          AppendCheck(p, layout);
          ShapeOn(p, layout, [CheckErr(p, layout)]);
          JumpsSpare(p, layout, 0, prep);
          PrepOn(p, layout, [CheckErr(p, layout)], prep);
          TraceChecked(p, layout, cmds);
          KindsChecked(cmds, 0);
          cmds := Checked(cmds, 0);
        }
      } else {
        error := -ERANGE;
      }
    }

    /** A check that one error skips: the jump over it comes first. */
    method EmitSkippedCheck(imm: int)
      requires Valid() && ResultKnown() && (error == 0 ==> cmds != [])
      modifies `insns, `error, `cmds
      ensures Valid() && (error == 0 ==> old(error) == 0)
      ensures error == 0 ==> cmds != [] && Ran() == CheckedKinds(old(Ran()), imm)
    {
      hide Shape, Fresh, Traced, Kinds, PrepOk, DataFine;
      ghost var p := insns;
      Emit(Jump(JEQ, 7, imm, 1));
      var off := -(|insns| - cleanupLabel) - 1;
      if -0x8000 <= off < 0x8000 {
        Emit(Jump(JSLT, 7, 0, off));
        if error == 0 {
          SkippedCheckShape(p, layout, imm);
          ShapeBody(p, layout);
          TraceSkipped(p, layout, cmds, imm);
          JumpsSpare(p, layout, imm, prep);
          PrepSkipped(p, layout, imm, prep);
          KindsChecked(cmds, imm);
          cmds := Checked(cmds, imm);
        }
      } else {
        error := -ERANGE;
      }
    }

    /** __emit_sys_close, after the code that loads R1: closes what R1 holds if it is positive. */
    method EmitClose(first: Code) returns (ghost addr: int)
      modifies `insns, `error, `dataLen
      ensures dataLen >= old(dataLen)
      ensures error == 0 ==> old(error) == 0 && insns == old(insns) + (first + CloseCode(addr, logLevel > 0))
      ensures error == 0 && old(DataOk()) ==> DataOk()
    {
      var at := 0;
      EmitAll(first);
      ghost var p := insns;
      EmitAll(SysClose3(logLevel > 0));
      if logLevel > 0 {
        at := AddData(16);
        EmitAll(Debug(at, 16, [9, 0]));
      }
      addr := at;
    }

    method EmitSysCloseStack(stackOff: int) returns (ghost addr: int)
      requires Ready()
      modifies `insns, `error, `dataLen
      ensures dataLen >= old(dataLen)
      ensures Ready() && (error == 0 ==> old(error) == 0) && (old(ResultKnown()) ==> ResultKnown())
      ensures error == 0 ==> insns == old(insns) + ([Load(W, 1, 10, stackOff)] + CloseCode(addr, logLevel > 0))
    {
      hide Shape, Inside, CloseCode, Traced;
      ghost var p, first := insns, [Load(W, 1, 10, stackOff)];
      addr := EmitClose([Load(W, 1, 10, stackOff)]);
      if error == 0 {
        LoadsLocal(stackOff, layout.used);
        CloseLocal(first, addr, logLevel > 0, layout.used);
        ShapePiece(p, layout, first + CloseCode(addr, logLevel > 0));
        TraceKept(p, layout, cmds, first + CloseCode(addr, logLevel > 0));
      }
    }

    method EmitSysCloseBlob(blobOff: int) returns (ghost addr: int)
      requires Ready()
      modifies `insns, `error, `dataLen
      ensures dataLen >= old(dataLen)
      ensures Ready() && (error == 0 ==> old(error) == 0) && (old(ResultKnown()) ==> ResultKnown())
      ensures error == 0 ==> insns == old(insns) + (LoadBlob(blobOff) + CloseCode(addr, logLevel > 0))
    {
      hide Shape, Inside, CloseCode, Traced;
      ghost var p, first := insns, LoadBlob(blobOff);
      addr := EmitClose(LoadBlob(blobOff));
      if error == 0 {
        LoadsLocal(blobOff, layout.used);
        CloseLocal(first, addr, logLevel > 0, layout.used);
        ShapePiece(p, layout, first + CloseCode(addr, logLevel > 0));
        TraceKept(p, layout, cmds, first + CloseCode(addr, logLevel > 0));
      }
    }

    method EmitRelStore(off: int, data: int)
      requires Valid() && (error == 0 ==> Filling())
      modifies `insns, `error, `prep
      ensures Valid() && (error == 0 ==> old(error) == 0 && Filling() && old(insns) <= insns)
      ensures error == 0 ==> prep.task == With(old(prep).task, Address(off, data))
    {
      CopiesLocal(off, data, W, layout.used);
      EmitField(RelStore(off, data), Address(off, data));
    }

    method MoveBlobToBlob(off: int, size: Size, blobOff: int)
      requires Valid() && (error == 0 ==> Filling())
      modifies `insns, `error, `prep
      ensures Valid() && (error == 0 ==> old(error) == 0 && Filling() && old(insns) <= insns)
      ensures error == 0 ==> prep.task == With(old(prep).task, FromBlob(off, size, blobOff))
    {
      CopiesLocal(off, blobOff, size, layout.used);
      EmitField(BlobToBlob(off, size, blobOff), FromBlob(off, size, blobOff));
    }

    method MoveCtxToBlob(off: int, size: Size, ctxOff: int, checkNonZero: bool)
      requires Valid() && (error == 0 ==> Filling())
      modifies `insns, `error, `prep
      ensures Valid() && (error == 0 ==> old(error) == 0 && Filling() && old(insns) <= insns)
      ensures error == 0 ==> prep.task == With(old(prep).task, FromCtx(off, size, ctxOff, checkNonZero))
    {
      MovesLocal(off, ctxOff, size, checkNonZero, layout.used);
      EmitField(CtxToBlob(off, size, ctxOff, checkNonZero), FromCtx(off, size, ctxOff, checkNonZero));
    }

    method MoveStackToBlob(off: int, size: Size, stackOff: int)
      requires Valid() && (error == 0 ==> Filling())
      modifies `insns, `error, `prep
      ensures Valid() && (error == 0 ==> old(error) == 0 && Filling() && old(insns) <= insns)
      ensures error == 0 ==> prep.task == With(old(prep).task, FromStack(off, size, stackOff))
    {
      MovesLocal(off, stackOff, size, false, layout.used);
      EmitField(StackToBlob(off, size, stackOff), FromStack(off, size, stackOff));
    }

    /** move_blob2blob, to a part of an instruction. */
    method CopyInBlob(off: int, size: Size, blobOff: int)
      requires Valid() && (error == 0 && prep.live ==> Clear(prep.task, off, Bytes(size)))
      modifies `insns, `error
      ensures Valid() && (error == 0 ==> old(error) == 0 && insns == old(insns) + BlobToBlob(off, size, blobOff))
    {
      CopiesLocal(off, blobOff, size, layout.used);
      CopySpares(off, size, blobOff, prep);
      EmitPiece(BlobToBlob(off, size, blobOff));
    }

    /** Remembers R7 in stack slot `i`. */
    method StoreInSlot(i: nat)
      requires Ready() && i < 2
      modifies `insns, `error
      ensures Ready() && (error == 0 ==> old(error) == 0 && insns == old(insns) + KeepIn(i))
    {
      EmitPiece(KeepIn(i));
    }

    function FdArrayOff(index: int): int
      reads this
    {
      fdArray + 4 * index
    }

    /** add_map_fd */
    method AddMapFd() returns (idx: nat)
      requires Ready()
      modifies `nrMaps, `error
      ensures Ready() && (error == 0 ==> old(error) == 0 && idx == old(nrMaps) && nrMaps == idx + 1 <= MAX_USED_MAPS)
    {
      if nrMaps >= MAX_USED_MAPS {
        error := -E2BIG;
        return 0;
      }
      idx := nrMaps;
      nrMaps := nrMaps + 1;
    }

    /** Remembers R7 in the map array. */
    method StoreMapFd(idx: nat)
      requires Ready()
      modifies `insns, `error
      ensures Ready() && (error == 0 ==> old(error) == 0 && insns == old(insns) + KeepMap(FdArrayOff(idx)))
    {
      hide Shape, Traced, PrepOk, DataFine;
      EmitPiece(KeepMap(FdArrayOff(idx)));
    }

    /** bpf_gen__load_btf */
    method LoadBtf(btfRawSize: nat) returns (ghost attr: int, ghost data: int)
      requires Ready()
      modifies `insns, `error, `dataLen, `cmds, `prep
      ensures dataLen >= old(dataLen)
      ensures Ready() && (error == 0 ==> old(error) == 0)
      ensures error == 0 ==> Ran() == old(Ran()) + [Bpf(BTF_LOAD, BtfTask(abi, attr, data))] && EndsIn(insns, KeepIn(0))
      ensures error == 0 ==> old(dataLen) <= data && data + btfRawSize <= attr && attr + abi.attrSize("btf_load") <= dataLen
    {
      hide BtfTask, Valid, With, DataFine, Shape, Fresh, Traced, Kinds, PrepOk;
      var btfData := AddData(btfRawSize);
      var at := AddData(abi.attrSize("btf_load"));
      attr, data := at, btfData;
      StartTask(at, abi.attrSize("btf_load"), []);
      FillBtf(at, btfData);
      EmitSysBpf(BTF_LOAD, at, abi.attrSize("btf_load"));
      EmitDebug(1024, [7]);
      EmitCheckErr();
      StoreInSlot(0);
    }

    /** What BTF_LOAD takes from the context, and where its data is. */
    method FillBtf(attr: int, data: int)
      requires Valid() && (error == 0 ==> Filling() && prep.task == Task([], attr, abi.attrSize("btf_load"), []))
      modifies `insns, `error, `prep
      ensures Valid() && (error == 0 ==> old(error) == 0 && Filling() && prep.task == BtfTask(abi, attr, data))
      ensures error == 0 ==> prep.task.attr == attr && prep.task.size == abi.attrSize("btf_load")
    {
      hide Valid, With, BtfTask, Shape;
      MoveCtxToBlob(attr + abi.attrOff("btf_log_level"), W, CTX_LOG_LEVEL, false);
      MoveCtxToBlob(attr + abi.attrOff("btf_log_size"), W, CTX_LOG_SIZE, false);
      MoveCtxToBlob(attr + abi.attrOff("btf_log_buf"), DW, CTX_LOG_BUF, false);
      EmitRelStore(attr + abi.attrOff("btf"), data);
      BtfFilled(abi, attr, data);
    }

    /** bpf_gen__map_create; map_idx is negative for an inner map.  An inner map that has
        served its purpose is closed at the end. */
    method MapCreate(mapInMap: bool, valueTypeId: nat, mapIdx: int) returns (ghost kept: Code, ghost addr: int, ghost attr: int)
      requires Ready()
      modifies `insns, `error, `dataLen, `nrMaps, `cmds, `prep
      ensures dataLen >= old(dataLen)
      ensures Ready() && (error == 0 ==> old(error) == 0)
      ensures error == 0 ==> nrMaps == old(nrMaps) + (if mapIdx < 0 then 0 else 1) && (mapIdx < 0 || mapIdx == old(nrMaps))
      ensures error == 0 ==> Ran() == old(Ran()) + [Bpf(MAP_CREATE, CreateTask(abi, attr, mapInMap, valueTypeId, mapIdx))]
      ensures error == 0 ==> old(dataLen) <= attr && attr + abi.attrSize("map_create") <= dataLen
      ensures error == 0 ==> EndsIn(kept, if mapIdx < 0 then KeepIn(1) else KeepMap(FdArrayOff(mapIdx)))
      ensures error == 0 ==> insns == if mapInMap then kept + ([Load(W, 1, 10, SlotOff(1))] + CloseCode(addr, logLevel > 0)) else kept
    {
      hide Shape, Fresh, Traced, Kinds, CloseCode, KeepIn, KeepMap, EndsIn, Valid;
      addr := 0;
      attr := EmitMapCommand(mapInMap, valueTypeId, mapIdx);
      KeepMapFd(mapIdx);
      kept := insns;
      if error == 0 && mapInMap {
        addr := EmitSysCloseStack(SlotOff(1));
      }
    }

    /** The MAP_CREATE command, and its check. */
    method EmitMapCommand(mapInMap: bool, valueTypeId: nat, mapIdx: int) returns (ghost attr: int)
      requires Ready()
      modifies `insns, `error, `dataLen, `cmds, `prep
      ensures dataLen >= old(dataLen)
      ensures Ready() && (error == 0 ==> old(error) == 0)
      ensures error == 0 ==> Ran() == old(Ran()) + [Bpf(MAP_CREATE, CreateTask(abi, attr, mapInMap, valueTypeId, mapIdx))]
      ensures error == 0 ==> old(dataLen) <= attr && attr + abi.attrSize("map_create") <= dataLen
    {
      hide Valid, With, DataFine, Shape, Fresh, Traced, Kinds, PrepOk, CreateTask;
      var at := AddData(abi.attrSize("map_create"));
      attr := at;
      StartTask(at, abi.attrSize("map_create"), []);
      FillCreate(at, mapInMap, valueTypeId, mapIdx);
      EmitSysBpf(MAP_CREATE, at, abi.attrSize("map_create"));
      EmitDebug(1024, [7]);
      EmitCheckErr();
    }

    /** What MAP_CREATE takes from the stack and the context. */
    method FillCreate(attr: int, mapInMap: bool, valueTypeId: nat, mapIdx: int)
      requires Valid() && (error == 0 ==> Filling() && prep.task == Task([], attr, abi.attrSize("map_create"), []))
      modifies `insns, `error, `prep
      ensures Valid() && (error == 0 ==> old(error) == 0 && Filling() && prep.task == CreateTask(abi, attr, mapInMap, valueTypeId, mapIdx))
      ensures error == 0 ==> prep.task.attr == attr && prep.task.size == abi.attrSize("map_create")
    {
      hide Valid, With, DataFine, Shape, Traced, PrepOk;
      if valueTypeId != 0 {
        MoveStackToBlob(attr + abi.attrOff("btf_fd"), W, SlotOff(0));
      }
      if mapInMap {
        MoveStackToBlob(attr + abi.attrOff("inner_map_fd"), W, SlotOff(1));
      }
      if mapIdx >= 0 {
        MoveCtxToBlob(attr + abi.attrOff("max_entries"), W, MapDescOff(mapIdx) + MAP_MAX_ENTRIES, true);
      }
      CreateFilled(abi, attr, mapInMap, valueTypeId, mapIdx);
    }

    /** Remembers the descriptor of the map just created. */
    method KeepMapFd(mapIdx: int)
      requires Ready()
      modifies `insns, `error, `nrMaps
      ensures Ready() && (error == 0 ==> old(error) == 0)
      ensures error == 0 ==> nrMaps == old(nrMaps) + (if mapIdx < 0 then 0 else 1) && (mapIdx < 0 || mapIdx == old(nrMaps))
      ensures error == 0 ==> insns == old(insns) + if mapIdx < 0 then KeepIn(1) else KeepMap(FdArrayOff(mapIdx))
      ensures error == 0 ==> EndsIn(insns, if mapIdx < 0 then KeepIn(1) else KeepMap(FdArrayOff(mapIdx)))
    {
      hide Shape, Traced;
      if mapIdx < 0 {
        StoreInSlot(1);
      } else if mapIdx != nrMaps {
        error := -EDOM; // maps are created in the order of their numbers
        return;
      } else {
        var idx := AddMapFd();
        StoreMapFd(idx);
      }
    }

    /** bpf_gen__init: clears the stack, emits the cleanup code and a jump over it. */
    method Init(logLevel: nat, nrProgs: nat, nrMaps: nat)
      requires insns == [] && error == 0 && this.nrProgs == 0 && ksyms == [] && cmds == [] && dataLen == 0 && nrFdArray == 0 && !prep.live
      modifies `insns, `error, `dataLen, `fdArray, `logLevel, `cleanupLabel, `layout
      ensures Ready() && layout.slots == 2 + nrProgs && layout.maps == nrMaps
    {
      hide PrepOk, CloseCode, Prologue, Shape, Skips, SlotsClosed, AllClosed, Traced, CloseLen, Fresh, Body;
      fdArray := AddData(4 * MAX_FD_ARRAY_SZ);
      this.logLevel := logLevel;
      var nrProgsSz := 8 + 4 * nrProgs;
      // how much the first jump leaps over
      var skip := nrProgsSz / 4 * 3 + 2 + nrMaps * (6 + if logLevel > 0 then 6 else 0);
      EmitPrologue(skip);
      cleanupLabel := 7;
      layout := Layout(7, 7 + skip, 2 + nrProgs, nrMaps, fdArray, logLevel > 0, 2);
      CleanupLen(layout, skip, nrProgs);
      EmitCleanup(nrProgsSz, nrMaps, skip, layout);
      if error == 0 {
        NothingTraced(insns, layout);
        NotLive(insns, layout.body, prep);
      }
    }

    /** The cleanup code. */
    method EmitCleanup(nrProgsSz: nat, nrMaps: nat, ghost skip: int, ghost l: Layout)
      requires error == 0 ==> SlotsClosed(insns, 0) && Skips(insns, skip)
      requires nrProgsSz == 4 * l.slots && nrMaps == l.maps && fdArray == l.fdArray && l.debug == (logLevel > 0)
      requires l.clean == 7 && l.body == 7 + skip && skip == 3 * l.slots + 2 + l.maps * CloseLen(l.debug)
      modifies `insns, `error, `dataLen
      ensures dataLen >= old(dataLen) && (error == 0 && old(DataOk()) ==> DataOk())
      ensures error == 0 ==> old(error) == 0 && Shape(insns, l) && |insns| == l.body
    {
      hide Shape, Skips, SlotsClosed, AllClosed, CloseLen, DataFine;
      EmitSlotCleanup(nrProgsSz, skip, l);
      EmitMapCleanup(nrMaps, skip, l);
      ghost var p := insns;
      EmitAll([MovReg(0, 7), Exit]);
      if error == 0 { InitialShape(p, l, skip); }
    }

    /** The first seven instructions: the stack cleared, the cleanup code skipped. */
    method EmitPrologue(skip: nat)
      requires insns == []
      modifies `insns, `error
      ensures error == 0 ==> old(error) == 0 && SlotsClosed(insns, 0) && Skips(insns, skip)
    {
      EmitAll([MovReg(6, 1), MovReg(1, 10), AddImm(1, -STACK_SZ), MovImm(2, STACK_SZ), MovImm(3, 0), Call(ProbeReadKernel)]);
      Emit(Always(skip));
    }

    /** Closing the stack slots, four bytes each. */
    method EmitSlotCleanup(nrProgsSz: nat, ghost skip: int, ghost l: Layout)
      requires error == 0 ==> SlotsClosed(insns, 0) && Skips(insns, skip)
      requires nrProgsSz == 4 * l.slots
      modifies `insns, `error
      ensures error == 0 ==> old(error) == 0 && AllClosed(insns, l, 0) && Skips(insns, skip)
    {
      hide Skips, SlotsClosed, AllClosed;
      var i := 0;
      while 4 * i < nrProgsSz
        invariant 0 <= i <= l.slots
        invariant error == 0 ==> old(error) == 0 && SlotsClosed(insns, i) && Skips(insns, skip)
      {
        ghost var p := insns;
        EmitAll([Load(W, 1, 10, -STACK_SZ + 4 * i), Jump(JSLE, 1, 0, 1), Call(SysClose)]);
        if error == 0 { SlotsMore(p, i, skip); }
        i := i + 1;
      }
      if error == 0 { AllSlots(insns, l); }
    }

    /** Closing the map descriptors. */
    method EmitMapCleanup(nrMaps: nat, ghost skip: int, ghost l: Layout)
      requires error == 0 ==> AllClosed(insns, l, 0) && Skips(insns, skip)
      requires nrMaps == l.maps && fdArray == l.fdArray && l.debug == (logLevel > 0)
      modifies `insns, `error, `dataLen
      ensures dataLen >= old(dataLen)
      ensures error == 0 ==> old(error) == 0 && AllClosed(insns, l, l.maps) && Skips(insns, skip)
      ensures error == 0 && old(DataOk()) ==> DataOk()
    {
      hide Skips, AllClosed, CloseCode;
      var i := 0;
      while i < nrMaps
        invariant 0 <= i <= nrMaps
        invariant error == 0 ==> old(error) == 0 && AllClosed(insns, l, i) && Skips(insns, skip)
        invariant dataLen >= old(dataLen) && (error == 0 && old(DataOk()) ==> DataOk())
      {
        ghost var p := insns;
        ghost var addr := EmitClose(LoadBlob(FdArrayOff(i)));
        if error == 0 { MapsMore(p, l, i, addr, skip); }
        i := i + 1;
      }
    }

    /** bpf_gen__finish: closes the BTF, and hands the descriptors of programs and maps
        to the context.  `p` is all but the last two instructions. */
    method Finish(nrProgs: nat, nrMaps: nat) returns (err: int, ghost p: Code, ghost addr: int)
      requires Ready()
      modifies `insns, `error, `dataLen
      ensures dataLen >= old(dataLen)
      ensures err == error && (old(error) == 0 && (nrProgs < this.nrProgs || nrMaps != this.nrMaps) ==> err == -EFAULT)
      ensures err == 0 ==> insns == Finished(p) && Shape(p, layout) && layout.used == 2 + this.nrProgs && Traced(p, layout, cmds)
      ensures err == 0 ==> old(error) == 0 && this.nrProgs <= nrProgs && this.nrMaps == nrMaps
      ensures err == 0 ==> p == old(insns) + ([Load(W, 1, 10, SlotOff(0))] + CloseCode(addr, logLevel > 0)) +
                                CopyProgs(this.nrMaps, this.nrProgs) + CopyMaps(fdArray, this.nrMaps)
    {
      hide Shape, Traced, CloseCode, CopyProgs, CopyMaps;
      p, addr := insns, 0;
      if nrProgs < this.nrProgs || nrMaps != this.nrMaps {
        error := -EFAULT;
        return error, p, addr;
      }
      addr := EmitSysCloseStack(SlotOff(0));
      CopyProgFds();
      CopyMapFds();
      p := insns;
      Emit(MovImm(0, 0));
      Emit(Exit);
      if error == 0 {
        assert insns == Finished(p);
      }
      return error, p, addr;
    }

    method CopyProgFds()
      requires Ready()
      modifies `insns, `error
      ensures Ready() && (error == 0 ==> old(error) == 0 && insns == old(insns) + CopyProgs(nrMaps, nrProgs))
    {
      hide Shape, Traced, PrepOk, DataFine;
      var i := 0;
      while i < nrProgs
        invariant 0 <= i <= nrProgs && Ready()
        invariant error == 0 ==> old(error) == 0 && insns == old(insns) + CopyProgs(nrMaps, i)
      {
        MovesLocal(CTX_SZ + MAP_DESC_SZ * nrMaps + PROG_DESC_SZ * i, SlotOff(2 + i), W, false, layout.used);
        EmitPiece(StackToCtx(CTX_SZ + MAP_DESC_SZ * nrMaps + PROG_DESC_SZ * i, W, SlotOff(2 + i)));
        i := i + 1;
      }
    }

    method CopyMapFds()
      requires Ready()
      modifies `insns, `error
      ensures Ready() && (error == 0 ==> old(error) == 0 && insns == old(insns) + CopyMaps(fdArray, nrMaps))
    {
      hide Shape, Traced;
      var i := 0;
      while i < nrMaps
        invariant 0 <= i <= nrMaps && Ready()
        invariant error == 0 ==> old(error) == 0 && insns == old(insns) + CopyMaps(fdArray, i)
      {
        CopiesLocal(MapDescOff(i), FdArrayOff(i), W, layout.used);
        EmitPiece(BlobToCtx(MapDescOff(i), W, FdArrayOff(i)));
        i := i + 1;
      }
    }

    /** bpf_gen__record_attach_target */
    method RecordAttachTarget(target: string, kind: int)
      requires Valid()
      modifies `attachKind, `attachTarget, `error
      ensures Valid() && (error == 0 ==> old(error) == 0)
    {
      attachKind := kind;
      attachTarget := target;
      if |target| >= 128 {
        error := -ENOSPC;
      }
    }

    /** bpf_gen__record_extern */
    method RecordExtern(relo: Relo)
      requires Valid()
      modifies `relos
      ensures Valid() && relos == old(relos) + [relo]
    {
      relos := relos + [relo];
    }

    /** The lookup of a name in BTF, leaving its result in R7. */
    method EmitFindByName(nameLen: nat, kind: int)
      requires Valid()
      modifies `insns, `error, `dataLen, `cmds
      ensures dataLen >= old(dataLen)
      ensures Valid() && ResultKnown() && (error == 0 ==> old(error) == 0)
      ensures error == 0 ==> cmds != [] && Ran() == old(Ran()) + [Lookup(FindByNameKind, false, 0)]
    {
      hide Shape, Fresh, Traced, Kinds, Valid;
      var name := AddData(nameLen + 1);
      NameLoaded(name, nameLen + 1, kind, prep);
      EmitPiece([Ld64(1, name), Ld64Hi, MovImm(2, nameLen + 1), MovImm(3, kind), MovImm(4, 0)]);
      EmitCommand(FindByNameKind, [], Cmd(|insns|, FindByNameKind, 0, false, 0, |insns|, |insns|, NO_TASK));
      EmitDebug(1024, [7]);
    }

    /** The arguments of a symbol lookup, and a place for its result. */
    method LoadSymbol(nameLen: nat)
      requires Valid()
      modifies `insns, `error, `dataLen
      ensures dataLen >= old(dataLen)
      ensures Valid() && (error == 0 ==> old(error) == 0 && (prep.live ==> AddressClear(insns, layout.body, prep)))
    {
      hide Shape, Traced, PrepOk, AddressClear, Local;
      var name := AddData(nameLen + 1);
      var res := AddData(8);
      ghost var p := insns;
      ArgsLocal(name, nameLen + 1, res, layout.used);
      SymbolLoaded(name, nameLen + 1, res, prep);
      EmitPiece(KallsymsArgs(name, nameLen + 1, res));
      if error == 0 {
        ShapeBody(p, layout);
        ResultKnownAt(p, layout, name, nameLen + 1, res, prep);
      }
    }

    /** emit_bpf_kallsyms_lookup_name: the address found goes to R9. */
    method EmitKallsyms(nameLen: nat)
      requires Valid()
      modifies `insns, `error, `dataLen, `cmds
      ensures dataLen >= old(dataLen)
      ensures Valid() && ResultKnown() && (error == 0 ==> old(error) == 0)
      ensures error == 0 ==> cmds != [] && Ran() == old(Ran()) + [Lookup(KallsymsLookup, false, 0)]
    {
      hide Valid, Shape, Fresh, Traced, Kinds, PrepOk, AddressClear;
      LoadSymbol(nameLen);
      EmitCommand(KallsymsLookup, [Load(DW, 9, 7, 0)], Cmd(|insns|, KallsymsLookup, 0, false, 0, |insns|, |insns|, NO_TASK));
      EmitDebug(1024, [7]);
    }

    /** get_ksym_desc: the entry of a symbol, with one more reference. */
    method GetKsymDesc(relo: Relo) returns (k: nat)
      requires forall k :: 0 <= k < |ksyms| ==> ksyms[k].refs >= 1
      modifies `ksyms
      ensures k < |ksyms| && KeyOf(ksyms[k]) == ReloKey(relo) && forall i :: 0 <= i < |ksyms| ==> ksyms[i].refs >= 1
      ensures if ReloKey(relo) in Keys(old(ksyms))
              then k < |old(ksyms)| && ksyms[k].refs > 1 && ksyms == old(ksyms)[k := old(ksyms)[k].(refs := ksyms[k].refs)]
              else k == |old(ksyms)| && ksyms == old(ksyms) + [ksyms[k]] && ksyms[k].refs == 1
      ensures Keys(ksyms) == Keys(old(ksyms)) + {ReloKey(relo)}
    {
      k := 0;
      while k < |ksyms|
        invariant k <= |ksyms| && ksyms == old(ksyms) && forall i :: 0 <= i < k ==> KeyOf(ksyms[i]) != ReloKey(relo)
      {
        if ksyms[k].kind == relo.kind && ksyms[k].isLd64 == relo.isLd64 && ksyms[k].name == relo.name {
          ksyms := ksyms[k := ksyms[k].(refs := ksyms[k].refs + 1)];
          KeysSame(old(ksyms), ksyms, k);
          return;
        }
        k := k + 1;
      }
      var typeless: bool := *; // left unset in the new entry
      ksyms := ksyms + [Ksym(relo.name, 1, relo.kind, 0, typeless, 0, relo.isLd64)];
      KeysMore(old(ksyms), ksyms[k]);
    }

    /** add_kfunc_btf_fd */
    method AddKfuncBtfFd() returns (idx: int)
      requires Valid()
      modifies `nrFdArray, `dataLen, `error
      ensures dataLen >= old(dataLen)
      ensures Valid() && (error == 0 ==> old(error) == 0 && (prep.live ==> Clear(prep.task, FdArrayOff(idx), 4)))
    {
      hide Shape, Traced, PrepOk;
      if nrFdArray == MAX_KFUNC_DESCS {
        var cur := AddData(4);
        SlotAt(cur, fdArray);
        return (cur - fdArray) / 4;
      }
      idx := MAX_USED_MAPS + nrFdArray;
      nrFdArray := nrFdArray + 1;
    }

    /** R8 holds the address of the instruction, so many bytes of which may be changed. */
    ghost predicate AtInsn(insn: int, room: nat)
      reads this
    {
      prep.base == At(insn) && insn + room <= prep.task.attr
    }

    /** emit_relo_kfunc_btf, for the instruction at `insn` of the blob. */
    method EmitReloKfunc(relo: Relo, insn: int)
      requires Valid() && (error == 0 && prep.live ==> AtInsn(insn, 8))
      modifies `insns, `error, `dataLen, `ksyms, `nrFdArray, `cmds
      ensures dataLen >= old(dataLen)
      ensures Valid() && (error == 0 ==> old(error) == 0) && Keys(ksyms) == Keys(old(ksyms)) + {ReloKey(relo)}
      ensures error == 0 ==>
        Ran() == old(Ran()) + if ReloKey(relo) in Keys(old(ksyms)) then [] else [Lookup(FindByNameKind, !relo.isWeak, 0)]
    {
      hide Shape, Fresh, Local, Traced, Kinds, Keys, DataFine, PrepOk;
      var k := GetKsymDesc(relo);
      if ksyms[k].refs > 1 {
        CopyInBlob(insn + 4, W, ksyms[k].insn + 4);
        CopyInBlob(insn + 2, H, ksyms[k].insn + 2);
      } else {
        var found := FindKfunc(relo, insn, k);
        if !found {
          return;
        }
      }
      LogKfunc(ksyms[k].off);
    }

    /** A kernel function met for the first time. */
    method FindKfunc(relo: Relo, insn: int, k: nat) returns (found: bool)
      requires Valid() && k < |ksyms| && (error == 0 && prep.live ==> AtInsn(insn, 8))
      modifies `insns, `error, `dataLen, `ksyms, `nrFdArray, `cmds
      ensures dataLen >= old(dataLen)
      ensures Valid() && (error == 0 ==> old(error) == 0) && Keys(ksyms) == Keys(old(ksyms)) && |ksyms| == |old(ksyms)|
      ensures error == 0 ==> Ran() == old(Ran()) + [Lookup(FindByNameKind, !relo.isWeak, 0)]
      ensures !found ==> error == -E2BIG
    {
      hide Shape, Fresh, Local, Traced, Kinds, Keys, DataFine, PrepOk;
      KeysSame(ksyms, ksyms[k := ksyms[k].(insn := insn)], k);
      ksyms := ksyms[k := ksyms[k].(insn := insn)];
      EmitFindByName(|relo.name|, relo.kind);
      if !relo.isWeak {
        EmitCheckErr();
      }
      var idx := AddKfuncBtfFd();
      if idx > INT16_MAX {
        error := -E2BIG;
        return false;
      }
      StoreKfunc(insn, k, idx);
      return true;
    }

    /** The index of its descriptor, and the code that stores what was found. */
    method StoreKfunc(ghost insn: int, k: nat, idx: int)
      requires Valid() && k < |ksyms|
      requires error == 0 && prep.live ==> AtInsn(insn, 8) && Clear(prep.task, FdArrayOff(idx), 4)
      modifies `insns, `error, `ksyms
      ensures Valid() && (error == 0 ==> old(error) == 0) && Keys(ksyms) == Keys(old(ksyms)) && |ksyms| == |old(ksyms)|
    {
      hide Shape, Fresh, Local, Traced, Keys, DataFine, PrepOk;
      KeysSame(ksyms, ksyms[k := ksyms[k].(off := idx)], k);
      ksyms := ksyms[k := ksyms[k].(off := idx)];
      KfuncLocal(FdArrayOff(idx), idx, layout.used);
      KfuncSpares(FdArrayOff(idx), idx, prep);
      EmitPiece(KfuncStore(FdArrayOff(idx), idx));
    }

    method LogKfunc(off: int)
      requires Valid()
      modifies `insns, `error, `dataLen
      ensures dataLen >= old(dataLen)
      ensures Valid() && (error == 0 ==> old(error) == 0)
    {
      hide Shape, Fresh, Local, Traced;
      if logLevel == 0 {
        return;
      }
      LogLocal(FdArrayOff(off), layout.used);
      LogSpares(FdArrayOff(off), prep);
      EmitPiece(LogInsn(2));
      EmitDebug(1024, [7, 9]);
      EmitPiece(LogFd(FdArrayOff(off)));
      EmitDebug(1024, [9]);
    }

    /** emit_ksym_relo_log */
    method EmitKsymReloLog()
      requires Valid()
      modifies `insns, `error, `dataLen
      ensures dataLen >= old(dataLen)
      ensures Valid() && (error == 0 ==> old(error) == 0)
    {
      hide Shape, Fresh, Local;
      if logLevel == 0 {
        return;
      }
      LogLocal(0, layout.used);
      LogSpares(0, prep);
      EmitPiece(LogInsn(12));
      EmitDebug(1024, [7, 9]);
      EmitPiece(LogReg());
      EmitDebug(1024, [9]);
    }

    /** emit_relo_ksym_typeless */
    method EmitReloTypeless(relo: Relo, insn: int)
      requires Valid() && (error == 0 && prep.live ==> AtInsn(insn, 16))
      modifies `insns, `error, `dataLen, `ksyms, `cmds
      ensures dataLen >= old(dataLen)
      ensures Valid() && (error == 0 ==> old(error) == 0) && Keys(ksyms) == Keys(old(ksyms)) + {ReloKey(relo)}
      ensures error == 0 ==>
        Ran() == old(Ran()) + if ReloKey(relo) in Keys(old(ksyms)) then [] else [Lookup(KallsymsLookup, true, -ENOENT)]
    {
      hide Shape, Fresh, Local, Traced, Kinds, Keys, DataFine, PrepOk;
      var k := GetKsymDesc(relo);
      if ksyms[k].refs > 1 {
        CopyInBlob(insn + 4, W, ksyms[k].insn + 4);
        CopyInBlob(insn + 12, W, ksyms[k].insn + 12);
      } else {
        KeysSame(ksyms, ksyms[k := ksyms[k].(insn := insn, typeless := true)], k);
        ksyms := ksyms[k := ksyms[k].(insn := insn, typeless := true)];
        EmitKallsyms(|relo.name|);
        EmitSkippedCheck(-ENOENT);
        LogLocal(0, layout.used);
        AddrSpares(prep);
        EmitPiece(StoreAddr());
      }
      EmitKsymReloLog();
    }

    /** emit_relo_ksym_btf */
    method EmitReloBtf(relo: Relo, insn: int)
      requires Valid() && (error == 0 && prep.live ==> AtInsn(insn, 16))
      modifies `insns, `error, `dataLen, `ksyms, `cmds
      ensures dataLen >= old(dataLen)
      ensures Valid() && (error == 0 ==> old(error) == 0) && Keys(ksyms) == Keys(old(ksyms)) + {ReloKey(relo)}
      ensures error == 0 ==>
        Ran() == old(Ran()) + if ReloKey(relo) in Keys(old(ksyms)) then [] else [Lookup(FindByNameKind, !relo.isWeak, 0)]
    {
      hide Shape, Fresh, Local, Traced, Kinds, Keys, DataFine, PrepOk, KsymStore, ClearSrcReg, BlobToBlob;
      var k := GetKsymDesc(relo);
      KsymLocal(layout.used);
      KsymSpares(prep);
      if ksyms[k].refs > 1 {
        CopyInBlob(insn + 12, W, ksyms[k].insn + 12);
        CopyInBlob(insn + 4, W, ksyms[k].insn + 4);
        EmitPiece([Jump(JNE, 0, 0, 3)] + ClearSrcReg());
      } else {
        KeysSame(ksyms, ksyms[k := ksyms[k].(insn := insn)], k);
        ksyms := ksyms[k := ksyms[k].(insn := insn)];
        EmitFindByName(|relo.name|, relo.kind);
        if !relo.isWeak {
          EmitCheckErr();
        }
        EmitPiece(KsymStore() + ClearSrcReg());
      }
      EmitKsymReloLog();
    }

    /** emit_relos */
    method EmitRelos(insnsOff: int, ghost insnCnt: nat)
      requires Valid() && (error == 0 && prep.live ==> RelosInside(relos, insnCnt) && insnsOff + 8 * insnCnt <= prep.task.attr)
      modifies `insns, `error, `dataLen, `ksyms, `nrFdArray, `cmds, `prep
      ensures dataLen >= old(dataLen)
      ensures Valid() && (error == 0 ==> old(error) == 0) && prep == old(prep).(base := prep.base)
      ensures error == 0 ==> Ran() == old(Ran()) + ReloKinds(relos, Keys(old(ksyms)), |relos|)
    {
      hide Shape, Fresh, Traced, Kinds, Keys;
      var i := 0;
      while i < |relos|
        invariant 0 <= i <= |relos| && Valid() && Keys(ksyms) == KnownAfter(relos, Keys(old(ksyms)), i)
        invariant prep == old(prep).(base := prep.base) && dataLen >= old(dataLen)
        invariant error == 0 ==> old(error) == 0 && Ran() == old(Ran()) + ReloKinds(relos, Keys(old(ksyms)), i)
      {
        EmitRelo(relos[i], insnsOff + 8 * relos[i].insnIdx);
        i := i + 1;
      }
    }

    /** R8 points to the instruction from here on. */
    method EmitBase(insn: int)
      requires Valid()
      modifies `insns, `error, `prep
      ensures Valid() && (error == 0 ==> old(error) == 0 && insns == old(insns) + [Ld64(8, insn), Ld64Hi])
      ensures prep == old(prep).(base := At(insn))
    {
      hide Shape, Traced, PrepOk, Inside, LocalInsn;
      ghost var p := insns;
      EmitAll([Ld64(8, insn), Ld64Hi]);
      if error == 0 {
        BaseLocal(insn, layout.used);
        ShapeBody(p, layout);
        PrepBase(p, layout, prep, insn);
        ShapePiece(p, layout, [Ld64(8, insn), Ld64Hi]);
        TraceKept(p, layout, cmds, [Ld64(8, insn), Ld64Hi]);
      }
      prep := prep.(base := At(insn));
    }

    /** emit_relo */
    method EmitRelo(relo: Relo, insn: int)
      requires Valid() && (error == 0 && prep.live ==> insn + Room(relo.isLd64) <= prep.task.attr)
      modifies `insns, `error, `dataLen, `ksyms, `nrFdArray, `cmds, `prep
      ensures dataLen >= old(dataLen)
      ensures Valid() && (error == 0 ==> old(error) == 0) && Keys(ksyms) == Keys(old(ksyms)) + {ReloKey(relo)}
      ensures prep == old(prep).(base := prep.base)
      ensures error == 0 ==> Ran() == old(Ran()) + if ReloKey(relo) in Keys(old(ksyms)) then [] else [LookupOf(relo)]
    {
      hide Shape, Fresh, Traced, Kinds, Keys, PrepOk, DataFine;
      EmitBase(insn);
      if !relo.isLd64 {
        EmitReloKfunc(relo, insn);
      } else if relo.isTypeless {
        EmitReloTypeless(relo, insn);
      } else {
        EmitReloBtf(relo, insn);
      }
    }

    /** cleanup_relos: whatever the result in R7, module descriptors are closed. */
    method CleanupRelos()
      requires Ready()
      modifies `insns, `error, `dataLen, `ksyms, `relos, `coreReloCnt, `nrFdArray
      ensures dataLen >= old(dataLen)
      ensures Ready() && (error == 0 ==> old(error) == 0) && (old(ResultKnown()) ==> ResultKnown())
      ensures ksyms == [] && relos == []
    {
      hide Shape, Fresh, Traced, CloseCode, PrepOk, DataFine;
      var i := 0;
      while i < |ksyms|
        invariant Ready() && (error == 0 ==> old(error) == 0) && (old(ResultKnown()) ==> ResultKnown()) && ksyms == old(ksyms)
        invariant dataLen >= old(dataLen)
      {
        var k := ksyms[i];
        if k.isLd64 && !k.typeless {
          // the descriptor recorded in the second half of the load
          ghost var addr := EmitSysCloseBlob(k.insn + 8 + 4);
        } else if !k.isLd64 {
          ghost var addr := EmitSysCloseBlob(FdArrayOff(k.off));
          if k.off < MAX_FD_ARRAY_SZ {
            nrFdArray := nrFdArray - 1;
          }
        }
        i := i + 1;
      }
      ksyms, relos, coreReloCnt := [], [], 0;
    }

    /** Remembers the descriptor of the program just loaded. */
    method StoreProgFd()
      requires Ready()
      modifies `insns, `error, `nrProgs, `layout
      ensures Ready() && (error == 0 ==> old(error) == 0) && nrProgs == old(nrProgs) + 1
      ensures layout == old(layout).(used := layout.used)
      ensures error == 0 ==> insns == old(insns) + KeepIn(2 + old(nrProgs))
    {
      hide Shape, Inside, LocalInsn, Traced;
      ghost var l := layout.(used := layout.used + 1);
      ghost var p := insns;
      Emit(Store(W, 10, 7, SlotOff(2 + nrProgs)));
      nrProgs := nrProgs + 1;
      layout := l;
      if error == 0 {
        OneMoreSlot(p, old(layout));
        TraceUsed(p, old(layout), cmds, l.used);
        SlotLocal(l.used);
        ShapePiece(p, l, [Store(W, 10, 7, SlotOff(l.used - 1))]);
        TraceKept(p, l, cmds, [Store(W, 10, 7, SlotOff(l.used - 1))]);
      }
    }

    /** The attach target's BTF ID and object, put where PROG_LOAD expects them. */
    method EmitAttachTarget(progLoadAttr: int)
      requires Valid() && (error == 0 && prep.live ==> prep.task.loose == TargetFields(abi, progLoadAttr))
      modifies `insns, `error, `dataLen, `cmds
      ensures dataLen >= old(dataLen)
      ensures Valid() && (error == 0 ==> old(error) == 0)
      ensures error == 0 ==> Ran() == old(Ran()) + [Lookup(FindByNameKind, true, 0)]
      ensures error == 0 ==> EndsIn(insns, StoreTarget(progLoadAttr, abi.attrOff("attach_btf_id"), abi.attrOff("attach_btf_obj_fd")))
    {
      hide Shape, Fresh, Traced, Kinds, Local;
      EmitFindByName(|attachTarget|, attachKind);
      EmitCheckErr();
      TargetLocal(progLoadAttr, abi.attrOff("attach_btf_id"), abi.attrOff("attach_btf_obj_fd"), layout.used);
      TargetSpares(abi, progLoadAttr, prep);
      EmitPiece(StoreTarget(progLoadAttr, abi.attrOff("attach_btf_id"), abi.attrOff("attach_btf_obj_fd")));
    }

    /** The pointers that PROG_LOAD takes. */
    method FillAddresses(attr: int, d: ProgData)
      requires Valid() && (error == 0 ==> Filling() && prep.task.fed == [])
      modifies `insns, `error, `prep
      ensures Valid() && (error == 0 ==> old(error) == 0 && Filling())
      ensures error == 0 ==> prep.task == old(prep).task.(fed := ProgAddresses(abi, attr, d, fdArray))
    {
      hide Valid, With, ProgAddresses;
      FillProgram(attr, d);
      EmitRelStore(attr + abi.attrOff("line_info"), d.lineInfo);
      EmitRelStore(attr + abi.attrOff("core_relos"), d.coreRelos);
      EmitRelStore(attr + abi.attrOff("fd_array"), fdArray);
      if error == 0 { AddressesFilled(abi, old(prep).task, attr, d, fdArray); }
    }

    /** License, instructions and function info. */
    method FillProgram(attr: int, d: ProgData)
      requires Valid() && (error == 0 ==> Filling())
      modifies `insns, `error, `prep
      ensures Valid() && (error == 0 ==> old(error) == 0 && Filling())
      ensures error == 0 ==> prep.task == With(With(With(old(prep).task,
        Address(attr + abi.attrOff("license"), d.license)),
        Address(attr + abi.attrOff("insns"), d.insns)),
        Address(attr + abi.attrOff("func_info"), d.funcInfo))
    {
      hide Valid, With;
      EmitRelStore(attr + abi.attrOff("license"), d.license);
      EmitRelStore(attr + abi.attrOff("insns"), d.insns);
      EmitRelStore(attr + abi.attrOff("func_info"), d.funcInfo);
    }

    /** The numbers that PROG_LOAD takes from the context and the stack. */
    method FillSettings(attr: int)
      requires Valid() && (error == 0 ==> Filling())
      modifies `insns, `error, `prep
      ensures Valid() && (error == 0 ==> old(error) == 0 && Filling())
      ensures error == 0 ==> prep.task == old(prep).task.(fed := old(prep).task.fed + ProgSettings(abi, attr))
    {
      hide Valid, With, ProgSettings;
      MoveCtxToBlob(attr + abi.attrOff("log_level"), W, CTX_LOG_LEVEL, false);
      MoveCtxToBlob(attr + abi.attrOff("log_size"), W, CTX_LOG_SIZE, false);
      MoveCtxToBlob(attr + abi.attrOff("log_buf"), DW, CTX_LOG_BUF, false);
      MoveStackToBlob(attr + abi.attrOff("prog_btf_fd"), W, SlotOff(0));
      SettingsFilled(abi, old(prep).task, attr);
    }

    /** bpf_gen__prog_load.  `load` is the command; its attributes are as they should be
        if no relocation is outside the program. */
    method ProgLoad(licenseLen: nat, insnCnt: nat, funcInfoSz: nat, lineInfoSz: nat)
      returns (ghost load: Kind, ghost attr: int, ghost d: ProgData)
      requires Ready()
      modifies `insns, `error, `dataLen, `ksyms, `relos, `coreReloCnt, `nrFdArray, `attachKind, `nrProgs, `layout, `cmds, `prep
      ensures dataLen >= old(dataLen)
      ensures Ready() && (error == 0 ==> old(error) == 0) && layout == old(layout).(used := layout.used)
      ensures nrProgs == old(nrProgs) + 1
      ensures relos == [] && ksyms == [] && attachKind == 0
      ensures error == 0 ==> Ran() == old(Ran()) + LookupsFor(old(attachKind), old(relos), Keys(old(ksyms))) + [load]
      ensures error == 0 ==> load.f == SysBpf && load.arg == PROG_LOAD && load.checked && load.except == 0
      ensures error == 0 ==> load.task.attr == attr && load.task.size == abi.attrSize("prog_load")
      ensures error == 0 && RelosInside(old(relos), insnCnt) ==> load.task == ProgTask(abi, attr, d, fdArray)
      ensures error == 0 ==> InOrder(old(dataLen), licenseLen, insnCnt, funcInfoSz, lineInfoSz, 16 * old(coreReloCnt), d, attr)
      ensures error == 0 ==> attr + abi.attrSize("prog_load") <= dataLen && EndsIn(insns, KeepIn(2 + old(nrProgs)))
    {
      hide Valid, ProgTask, Shape, Fresh, Traced, Kinds, Keys, LookupsFor, PrepOk, RelosInside, DataFine, InOrder;
      var at, data := PrepareAttr(licenseLen, insnCnt, funcInfoSz, lineInfoSz);
      attr, d := at, data;
      InsnsBefore(old(dataLen), licenseLen, insnCnt, funcInfoSz, lineInfoSz, 16 * coreReloCnt, data, at);
      load := LoadProgram(at, data, insnCnt);
      StoreProgFd();
    }

    /** The lookups, and the command. */
    method LoadProgram(attr: int, d: ProgData, ghost insnCnt: nat) returns (ghost load: Kind)
      requires Valid() && (error == 0 ==> Filling() && prep.task == ProgTask(abi, attr, d, fdArray))
      requires error == 0 ==> FdArrayEnd() <= attr && attr + abi.attrSize("prog_load") <= dataLen && d.insns + 8 * insnCnt <= attr
      modifies `insns, `error, `dataLen, `ksyms, `relos, `coreReloCnt, `nrFdArray, `attachKind, `cmds, `prep
      ensures Ready() && (error == 0 ==> old(error) == 0) && dataLen >= old(dataLen)
      ensures relos == [] && ksyms == [] && attachKind == 0
      ensures error == 0 ==> Ran() == old(Ran()) + LookupsFor(old(attachKind), old(relos), Keys(old(ksyms))) + [load]
      ensures error == 0 ==> load.f == SysBpf && load.arg == PROG_LOAD && load.checked && load.except == 0
      ensures error == 0 ==> load.task.attr == attr && load.task.size == abi.attrSize("prog_load")
      ensures error == 0 && RelosInside(old(relos), insnCnt) ==> load.task == ProgTask(abi, attr, d, fdArray)
    {
      hide Valid, Kinds, Keys, LookupsFor, RelosInside, ProgTask;
      ghost var inside := RelosInside(relos, insnCnt);
      ghost var task := if inside then ProgTask(abi, attr, d, fdArray) else Task([], attr, abi.attrSize("prog_load"), []);
      ProgFilled(abi, attr, d, fdArray);
      Wanted(insnCnt);
      EmitLookups(attr, d.insns, insnCnt);
      ghost var tight := EmitLoadCommand(attr, task);
      load := Kind(SysBpf, PROG_LOAD, true, 0, tight, task);
    }

    /** If a relocation is outside the program, nothing is known of the attributes. */
    ghost method Wanted(insnCnt: nat)
      requires Valid()
      modifies `prep
      ensures Valid() && prep == if RelosInside(relos, insnCnt) then old(prep) else old(prep).(live := false)
    {
      hide Shape, Traced, RelosInside;
      if !RelosInside(relos, insnCnt) { prep := prep.(live := false); }
    }

    /** The data of a program, and the attributes of PROG_LOAD. */
    method PrepareAttr(licenseLen: nat, insnCnt: nat, funcInfoSz: nat, lineInfoSz: nat) returns (attr: int, d: ProgData)
      requires Ready()
      modifies `insns, `error, `dataLen, `prep
      ensures dataLen >= old(dataLen)
      ensures Valid() && (error == 0 ==> old(error) == 0)
      ensures error == 0 ==> Filling() && prep.task == ProgTask(abi, attr, d, fdArray)
      ensures error == 0 ==> FdArrayEnd() <= attr && attr + abi.attrSize("prog_load") <= dataLen
      ensures error == 0 ==> InOrder(old(dataLen), licenseLen, insnCnt, funcInfoSz, lineInfoSz, 16 * coreReloCnt, d, attr)
    {
      hide Valid, With, DataFine, Shape, Fresh, Traced, PrepOk;
      var license := AddData(licenseLen + 1);
      var insnsOff := AddData(8 * insnCnt);
      var funcInfo := AddData(funcInfoSz);
      var lineInfo := AddData(lineInfoSz);
      var cores := AddData(16 * coreReloCnt);
      attr := AddData(abi.attrSize("prog_load"));
      d := ProgData(license, insnsOff, funcInfo, lineInfo, cores);
      StartTask(attr, abi.attrSize("prog_load"), TargetFields(abi, attr));
      FillAddresses(attr, d);
      FillSettings(attr);
    }

    /** What has to be looked up before a program can be loaded: the attach target, and
        each symbol once. */
    method EmitLookups(attr: int, insnsOff: int, ghost insnCnt: nat)
      requires Valid() && (error == 0 && prep.live ==> RelosInside(relos, insnCnt) && insnsOff + 8 * insnCnt <= prep.task.attr)
      requires error == 0 && prep.live ==> prep.task.loose == TargetFields(abi, attr)
      modifies `insns, `error, `dataLen, `ksyms, `nrFdArray, `cmds, `prep
      ensures Valid() && (error == 0 ==> old(error) == 0) && prep == old(prep).(base := prep.base) && dataLen >= old(dataLen)
      ensures error == 0 ==> Ran() == old(Ran()) + LookupsFor(attachKind, relos, Keys(old(ksyms)))
    {
      hide Shape, Fresh, Traced, Kinds, Keys, ReloKinds, PrepOk, DataFine, RelosInside;
      if attachKind != 0 {
        EmitAttachTarget(attr);
      }
      EmitRelos(insnsOff, insnCnt);
    }

    /** The PROG_LOAD command, the closing of what it needed, and the check of its result. */
    method EmitLoadCommand(attr: int, ghost task: Task) returns (ghost tight: bool)
      requires Valid() && (error == 0 ==> task.attr == attr && task.size == abi.attrSize("prog_load"))
      requires error == 0 ==> FdArrayEnd() <= attr && attr + task.size <= dataLen
      requires error == 0 ==> if prep.live then prep.task == task else task == Task([], attr, abi.attrSize("prog_load"), [])
      modifies `insns, `error, `dataLen, `ksyms, `relos, `coreReloCnt, `nrFdArray, `attachKind, `cmds, `prep
      ensures Ready() && (error == 0 ==> old(error) == 0) && dataLen >= old(dataLen)
      ensures relos == [] && ksyms == [] && attachKind == 0
      ensures error == 0 ==> Ran() == old(Ran()) + [Kind(SysBpf, PROG_LOAD, true, 0, tight, task)]
    {
      hide Shape, Fresh, Traced, Kinds, CloseCode, PrepOk, Given, DataFine;
      if !prep.live { StartTask(attr, abi.attrSize("prog_load"), []); }
      tight := prep.upto == |insns|;
      EmitSysBpf(PROG_LOAD, attr, abi.attrSize("prog_load"));
      EmitDebug(1024, [7]);
      // R7 keeps the result of PROG_LOAD meanwhile
      CloseBtfs(attr);
      EmitCheckErr();
    }

    /** Successful or not, the descriptors of other BTF objects are closed. */
    method CloseBtfs(attr: int)
      requires Ready()
      modifies `insns, `error, `dataLen, `ksyms, `relos, `coreReloCnt, `nrFdArray, `attachKind
      ensures Ready() && (error == 0 ==> old(error) == 0) && dataLen >= old(dataLen)
      ensures (old(ResultKnown()) ==> ResultKnown()) && relos == [] && ksyms == [] && attachKind == 0
    {
      hide Shape, Fresh, Traced, CloseCode, PrepOk, DataFine;
      CleanupRelos();
      if attachKind != 0 {
        ghost var addr := EmitSysCloseBlob(attr + abi.attrOff("attach_btf_obj_fd"));
        attachKind := 0;
      }
    }

    /** bpf_gen__map_update_elem: the initial value comes from user space or the kernel. */
    method MapUpdateElem(mapIdx: int, valueSize: nat) returns (ghost attr: int, ghost key: int, ghost value: int)
      requires Ready()
      modifies `insns, `error, `dataLen, `cmds, `prep
      ensures dataLen >= old(dataLen)
      ensures Ready() && (error == 0 ==> old(error) == 0)
      ensures error == 0 ==> old(insns) + InitialValue(MapDescOff(mapIdx) + MAP_INITIAL_VALUE, value, valueSize) <= insns
      ensures error == 0 ==> Ran() == old(Ran()) + [Bpf(MAP_UPDATE_ELEM, UpdateTask(abi, attr, FdArrayOff(mapIdx), key, value))]
      ensures error == 0 ==> old(dataLen) <= value && value + valueSize <= key && key + 4 <= attr
      ensures error == 0 ==> FdArrayEnd() <= attr && attr + abi.attrSize("map_update_elem") <= dataLen
    {
      hide Valid, With, DataFine, Shape, Fresh, Local, Traced, Kinds, PrepOk;
      var v := AddData(valueSize);
      var k := AddData(4);
      InitialValueLocal(MapDescOff(mapIdx) + MAP_INITIAL_VALUE, v, valueSize, layout.used);
      EmitPiece(InitialValue(MapDescOff(mapIdx) + MAP_INITIAL_VALUE, v, valueSize));
      var at := AddData(abi.attrSize("map_update_elem"));
      attr, key, value := at, k, v;
      EmitUpdate(at, FdArrayOff(mapIdx), k, v);
    }

    /** The MAP_UPDATE_ELEM command, and its check. */
    method EmitUpdate(attr: int, slot: int, key: int, value: int)
      requires Ready() && (error == 0 ==> FdArrayEnd() <= attr && attr + abi.attrSize("map_update_elem") <= dataLen)
      modifies `insns, `error, `dataLen, `cmds, `prep
      ensures Ready() && (error == 0 ==> old(error) == 0 && old(insns) <= insns) && dataLen >= old(dataLen)
      ensures error == 0 ==> Ran() == old(Ran()) + [Bpf(MAP_UPDATE_ELEM, UpdateTask(abi, attr, slot, key, value))]
    {
      hide UpdateTask, Valid, With, DataFine, Shape, Fresh, Traced, Kinds, PrepOk;
      StartTask(attr, abi.attrSize("map_update_elem"), []);
      FillUpdate(attr, slot, key, value);
      EmitSysBpf(MAP_UPDATE_ELEM, attr, abi.attrSize("map_update_elem"));
      EmitDebug(1024, [7]);
      EmitCheckErr();
    }

    /** What MAP_UPDATE_ELEM takes from the array of descriptors, and where key and value are. */
    method FillUpdate(attr: int, slot: int, key: int, value: int)
      requires Valid() && (error == 0 ==> Filling() && prep.task == Task([], attr, abi.attrSize("map_update_elem"), []))
      modifies `insns, `error, `prep
      ensures Valid() && (error == 0 ==> old(error) == 0 && Filling() && old(insns) <= insns && prep.task == UpdateTask(abi, attr, slot, key, value))
      ensures error == 0 ==> prep.task.attr == attr && prep.task.size == abi.attrSize("map_update_elem")
    {
      hide Valid, With, UpdateTask;
      MoveBlobToBlob(attr + abi.attrOff("map_fd"), W, slot);
      EmitRelStore(attr + abi.attrOff("key"), key);
      EmitRelStore(attr + abi.attrOff("value"), value);
      UpdateFilled(abi, attr, slot, key, value);
    }

    /** bpf_gen__populate_outer_map */
    method PopulateOuterMap(outerIdx: int, innerIdx: int) returns (ghost attr: int, ghost key: int)
      requires Ready()
      modifies `insns, `error, `dataLen, `cmds, `prep
      ensures dataLen >= old(dataLen)
      ensures Ready() && (error == 0 ==> old(error) == 0)
      ensures error == 0 ==>
        Ran() == old(Ran()) + [Bpf(MAP_UPDATE_ELEM, UpdateTask(abi, attr, FdArrayOff(outerIdx), key, FdArrayOff(innerIdx)))]
      ensures error == 0 ==> old(dataLen) <= key && key + 4 <= attr
      ensures error == 0 ==> FdArrayEnd() <= attr && attr + abi.attrSize("map_update_elem") <= dataLen
    {
      hide Valid, With, DataFine, Shape, Fresh, Traced, Kinds, PrepOk;
      var k := AddData(4);
      var at := AddData(abi.attrSize("map_update_elem"));
      attr, key := at, k;
      EmitUpdate(at, FdArrayOff(outerIdx), k, FdArrayOff(innerIdx));
    }

    /** bpf_gen__map_freeze */
    method MapFreeze(mapIdx: int) returns (ghost attr: int)
      requires Ready()
      modifies `insns, `error, `dataLen, `cmds, `prep
      ensures dataLen >= old(dataLen)
      ensures Ready() && (error == 0 ==> old(error) == 0)
      ensures error == 0 ==> Ran() == old(Ran()) + [Bpf(MAP_FREEZE, FreezeTask(abi, attr, FdArrayOff(mapIdx)))]
      ensures error == 0 ==> FdArrayEnd() <= attr && old(dataLen) <= attr && attr + abi.attrSize("map_freeze") <= dataLen
    {
      hide Valid, With, DataFine, Shape, Fresh, Traced, Kinds, PrepOk;
      var at := AddData(abi.attrSize("map_freeze"));
      attr := at;
      StartTask(at, abi.attrSize("map_freeze"), []);
      MoveBlobToBlob(at + abi.attrOff("map_fd"), W, FdArrayOff(mapIdx));
      FreezeFilled(abi, at, FdArrayOff(mapIdx));
      EmitSysBpf(MAP_FREEZE, at, abi.attrSize("map_freeze"));
      EmitDebug(1024, [7]);
      EmitCheckErr();
    }
  }

  /** The data of a program and the attributes are laid out one after the other. */
  predicate InOrder(start: int, licenseLen: nat, insnCnt: nat, funcInfoSz: nat, lineInfoSz: nat, coreSz: nat, d: ProgData, attr: int) {
    && start <= d.license && d.license + licenseLen + 1 <= d.insns && d.insns + 8 * insnCnt <= d.funcInfo
    && d.funcInfo + funcInfoSz <= d.lineInfo && d.lineInfo + lineInfoSz <= d.coreRelos && d.coreRelos + coreSz <= attr
  }

  lemma InsnsBefore(start: int, licenseLen: nat, insnCnt: nat, funcInfoSz: nat, lineInfoSz: nat, coreSz: nat, d: ProgData, attr: int)
    ensures InOrder(start, licenseLen, insnCnt, funcInfoSz, lineInfoSz, coreSz, d, attr) ==> d.insns + 8 * insnCnt <= attr
  {
  }

  // ------------------------------------------------- pieces that spare the attributes

  lemma SlotAt(cur: int, start: int)
    ensures cur % 8 == 0 && start % 8 == 0 ==> start + 4 * ((cur - start) / 4) == cur
  {
  }

  lemma RoundUp(size: nat, start: int)
    ensures size <= (size + 7) / 8 * 8 && (size + 7) / 8 * 8 % 8 == 0
    ensures start % 8 == 0 ==> (start + (size + 7) / 8 * 8) % 8 == 0
  {
  }

  /** Neither a store, nor a call, nor a change of R8. */
  predicate Plain(i: Insn) { !i.Store? && !i.StoreImm? && !i.Call? && Writes(i) != 8 }

  lemma PlainSpares(code: Code, w: Prep)
    requires forall i :: 0 <= i < |code| ==> Plain(code[i]) || code[i] == Call(TracePrintk) || code[i] == Call(SysClose)
    ensures SpareCode(code, w)
  {
  }

  lemma DebugSpares(addr: int, len: nat, regs: seq<nat>, w: Prep)
    requires |regs| <= 2
    ensures SpareCode(Debug(addr, len, regs), w)
  {
    PlainSpares(Debug(addr, len, regs), w);
  }

  lemma JumpsSpare(p: Code, l: Layout, imm: int, w: Prep)
    ensures SpareCode([CheckErr(p, l)], w) && SpareCode([Jump(JEQ, 7, imm, 1)], w)
    ensures var p1 := p + [Jump(JEQ, 7, imm, 1)]; SpareCode([Jump(JEQ, 7, imm, 1), CheckErr(p1, l)], w)
  {
    var p1 := p + [Jump(JEQ, 7, imm, 1)];
    PlainSpares([CheckErr(p, l)], w);
    PlainSpares([Jump(JEQ, 7, imm, 1)], w);
    PlainSpares([Jump(JEQ, 7, imm, 1), CheckErr(p1, l)], w);
  }

  lemma PrepSkipped(p: Code, l: Layout, imm: int, w: Prep)
    requires Body(p, l) && PrepOk(p, l.body, w)
    ensures var p1 := p + [Jump(JEQ, 7, imm, 1)]; PrepOk(p1 + [CheckErr(p1, l)], l.body, w)
  {
    hide Body, PrepOk, SpareCode;
    var p1 := p + [Jump(JEQ, 7, imm, 1)];
    JumpsSpare(p, l, imm, w);
    assert p1 + [CheckErr(p1, l)] == p + [Jump(JEQ, 7, imm, 1), CheckErr(p1, l)];
    PrepOn(p, l, [Jump(JEQ, 7, imm, 1), CheckErr(p1, l)], w);
  }

  lemma NotLive(p: Code, body: nat, w: Prep)
    requires !w.live
    ensures PrepOk(p, body, w)
  {
  }

  lemma SetupLocal(cmd: int, t: Task, used: nat)
    ensures Local(Setup(cmd, t), used)
  {
  }

  /** R4 holds the address where the result of a symbol lookup may be written. */
  ghost predicate AddressClear(p: Code, body: nat, w: Prep) {
    exists x :: Known(p, body, |p|, 4, x) && Clear(w.task, x, 8)
  }

  /** A command goes well with attributes being filled. */
  lemma PrepCommand(p: Code, l: Layout, f: Helper, between: Code, w: Prep)
    requires Body(p, l) && PrepOk(p, l.body, w) && IsCommand(f)
    requires w.live && f == KallsymsLookup ==> AddressClear(p, l.body, w)
    requires forall i :: 0 <= i < |between| ==> Plain(between[i])
    ensures PrepOk(p + ([Call(f)] + between + [MovReg(7, 0)]), l.body, w)
  {
    hide Known, FedBy, Body, SpareAt;
    var code := [Call(f)] + between + [MovReg(7, 0)];
    var q := p + code;
    if w.live {
      FedKept(p, code, l.body, w.from, w.upto, w.task);
      SparedKept(p, code, l.body, w.upto, |p|, w.task);
      CallSpares(p, l, code, f, w);
      forall i: nat | 0 < i < |code| ensures Plain(code[i]) { if i < |code| - 1 { assert code[i] == between[i - 1]; } }
      forall j: nat | w.upto <= j < |q| ensures SpareAt(q, l.body, j, w.task) {
        if j > |p| { PlainAt(q, l.body, j, w.task); }
      }
      if w.base.At? { KnownOn(p, l, code, |code|, 8, w.base.x); }
    }
  }

  lemma PlainAt(p: Code, body: nat, j: nat, t: Task)
    requires j < |p| && Plain(p[j])
    ensures SpareAt(p, body, j, t)
  {
  }

  lemma CallSpares(p: Code, l: Layout, code: Code, f: Helper, w: Prep)
    requires code != [] && code[0] == Call(f) && IsCommand(f) && (f == KallsymsLookup ==> AddressClear(p, l.body, w))
    ensures SpareAt(p + code, l.body, |p|, w.task)
  {
    hide Known, Clear;
    if f == KallsymsLookup {
      var x :| Known(p, l.body, |p|, 4, x) && Clear(w.task, x, 8);
      KnownKept(p, code, l.body, |p|, 4, x);
    }
  }

  lemma NameLoaded(name: int, len: int, kind: int, w: Prep)
    ensures SpareCode([Ld64(1, name), Ld64Hi, MovImm(2, len), MovImm(3, kind), MovImm(4, 0)], w)
  {
    PlainSpares([Ld64(1, name), Ld64Hi, MovImm(2, len), MovImm(3, kind), MovImm(4, 0)], w);
  }

  function KallsymsArgs(name: int, len: int, res: int): Code {
    [Ld64(1, name), Ld64Hi, MovImm(2, len), MovImm(3, 0), Ld64(4, res), Ld64Hi, MovReg(7, 4)]
  }

  lemma ArgsLocal(name: int, len: int, res: int, used: nat)
    ensures Local(KallsymsArgs(name, len, res), used)
  {
  }

  lemma SymbolLoaded(name: int, len: int, res: int, w: Prep)
    ensures SpareCode(KallsymsArgs(name, len, res), w)
  {
    PlainSpares(KallsymsArgs(name, len, res), w);
  }

  lemma ResultKnownAt(p: Code, l: Layout, name: int, len: int, res: int, w: Prep)
    requires Body(p, l)
    ensures Clear(w.task, res, 8) ==> AddressClear(p + KallsymsArgs(name, len, res), l.body, w)
  {
    hide Known, Clear, Body;
    var code := KallsymsArgs(name, len, res);
    KnownFrom(code, 7, 4, res, 4);
    KnownWithin(p, l, code, 7, 4, res);
  }

  lemma CopySpares(off: int, size: Size, src: int, w: Prep)
    ensures Clear(w.task, off, Bytes(size)) ==> SpareCode(BlobToBlob(off, size, src), w)
  {
    hide Clear, Known;
    if Clear(w.task, off, Bytes(size)) {
      var code := BlobToBlob(off, size, src);
      KnownFrom(code, 5, 1, off, 3);
      assert Clear(w.task, off + 0, Bytes(size));
      forall i: nat | i < |code| ensures SpareInsn(code, i, w) {}
    }
  }

  lemma KnownFrom(code: Code, i: nat, r: nat, x: int, k: nat)
    requires KnownSince(code, 0, i, r, x, k)
    ensures Known(code, 0, i, r, x)
  {
  }

  lemma KfuncSpares(fdOff: int, idx: int, w: Prep)
    ensures w.base.At? && w.base.x + 8 <= w.task.attr && Clear(w.task, fdOff, 4) ==> SpareCode(KfuncStore(fdOff, idx), w)
  {
    hide Known;
    var code := KfuncStore(fdOff, idx);
    if w.base.At? && w.base.x + 8 <= w.task.attr && Clear(w.task, fdOff, 4) {
      KnownFrom(code, 12, 0, fdOff, 10);
      assert Clear(w.task, fdOff + 0, 4);
      forall i: nat | i < |code| ensures SpareInsn(code, i, w) {}
    }
  }

  lemma LogSpares(fdOff: int, w: Prep)
    ensures SpareCode(LogInsn(2), w) && SpareCode(LogInsn(12), w) && SpareCode(LogFd(fdOff), w) && SpareCode(LogReg(), w)
  {
    PlainSpares(LogInsn(2), w);
    PlainSpares(LogInsn(12), w);
    PlainSpares(LogFd(fdOff), w);
    PlainSpares(LogReg(), w);
  }

  lemma AddrSpares(w: Prep)
    ensures w.base.At? && w.base.x + 16 <= w.task.attr ==> SpareCode(StoreAddr(), w)
  {
  }

  lemma KsymSpares(w: Prep)
    ensures w.base.At? && w.base.x + 16 <= w.task.attr ==>
      SpareCode([Jump(JNE, 0, 0, 3)] + ClearSrcReg(), w) && SpareCode(KsymStore() + ClearSrcReg(), w)
  {
    hide Known;
    if w.base.At? && w.base.x + 16 <= w.task.attr {
      var a, b := [Jump(JNE, 0, 0, 3)] + ClearSrcReg(), KsymStore() + ClearSrcReg();
      forall i: nat | i < |a| ensures SpareInsn(a, i, w) {}
      forall i: nat | i < |b| ensures SpareInsn(b, i, w) {}
    }
  }

  lemma BaseLocal(x: int, used: nat)
    ensures Local([Ld64(8, x), Ld64Hi], used)
  {
  }

  lemma PrepBase(p: Code, l: Layout, w: Prep, x: int)
    requires Body(p, l) && PrepOk(p, l.body, w)
    ensures PrepOk(p + [Ld64(8, x), Ld64Hi], l.body, w.(base := At(x)))
  {
    hide Known, FedBy, Body, SpareAt;
    var code := [Ld64(8, x), Ld64Hi];
    var q := p + code;
    if w.live {
      FedKept(p, code, l.body, w.from, w.upto, w.task);
      SparedKept(p, code, l.body, w.upto, |p|, w.task);
      forall j: nat | w.upto <= j < |q| ensures SpareAt(q, l.body, j, w.task) {
        if j >= |p| { assert q[j] == code[j - |p|]; LoadSpares(q, l.body, j, w.task); }
      }
      KnownFrom(code, 2, 8, x, 0);
      KnownWithin(p, l, code, 2, 8, x);
    }
  }

  lemma LoadSpares(p: Code, body: nat, j: nat, t: Task)
    requires j < |p| && (p[j].Ld64? || p[j].Ld64Hi?)
    ensures SpareAt(p, body, j, t)
  {
  }

  lemma TargetSpares(abi: Abi, attr: int, w: Prep)
    ensures w.task.loose == TargetFields(abi, attr) ==>
      SpareCode(StoreTarget(attr, abi.attrOff("attach_btf_id"), abi.attrOff("attach_btf_obj_fd")), w)
  {
    hide Known;
    var idOff, fdOff := abi.attrOff("attach_btf_id"), abi.attrOff("attach_btf_obj_fd");
    var code := StoreTarget(attr, idOff, fdOff);
    if w.task.loose == TargetFields(abi, attr) {
      assert w.task.loose[0] == attr + idOff && w.task.loose[1] == attr + fdOff;
      KnownFrom(code, 2, 0, attr, 0);
      KnownFrom(code, 4, 0, attr, 0);
      forall i: nat | i < |code| ensures SpareInsn(code, i, w) {}
    }
  }

  /** The 14 instructions that store what was found for a kernel function. */
  function KfuncStore(fdOff: int, idx: int): Code {
    [Jump(JSGE, 7, 0, 3), StoreImm(W, 8, 4, 0), StoreImm(H, 8, 2, 0), Always(10),
     Store(W, 8, 7, 4), MovReg(9, 7), RshImm(9, 32), Jump(JNE, 9, 0, 2), StoreImm(H, 8, 2, 0), Always(4),
     Ld64(0, fdOff), Ld64Hi, Store(W, 0, 9, 0), StoreImm(H, 8, 2, idx)]
  }

  lemma KfuncLocal(fdOff: int, idx: int, used: nat)
    ensures Local(KfuncStore(fdOff, idx), used)
  {
    var q := KfuncStore(fdOff, idx);
    forall i | 0 <= i < |q| ensures LocalInsn(q, used, i) {}
  }

  /** Stores what was found for the attach target. */
  function StoreTarget(attr: int, idOff: int, fdOff: int): Code {
    [Ld64(0, attr), Ld64Hi, Store(W, 0, 7, idOff), RshImm(7, 32), Store(W, 0, 7, fdOff)]
  }

  lemma TargetLocal(attr: int, idOff: int, fdOff: int, used: nat)
    ensures Local(StoreTarget(attr, idOff, fdOff), used)
  {
  }

  /** Clears the source register of the load that R8 points to. */
  function ClearSrcReg(): Code {
    [Load(B, 9, 8, 1), AndImm(9, 0x0f), Store(B, 8, 9, 1)]
  }

  /** The instructions that store what was found for a typed symbol. */
  function KsymStore(): Code {
    [Jump(JSGE, 7, 0, 3), StoreImm(W, 8, 4, 0), StoreImm(W, 8, 12, 0), Always(4),
     Store(W, 8, 7, 4), RshImm(7, 32), Store(W, 8, 7, 12), Always(3)]
  }

  lemma KsymLocal(used: nat)
    ensures Local([Jump(JNE, 0, 0, 3)] + ClearSrcReg(), used) && Local(KsymStore() + ClearSrcReg(), used)
  {
    var a, b := [Jump(JNE, 0, 0, 3)] + ClearSrcReg(), KsymStore() + ClearSrcReg();
    forall i | 0 <= i < |a| ensures LocalInsn(a, used, i) {}
    forall i | 0 <= i < |b| ensures LocalInsn(b, used, i) {}
  }

  /** Stores the two halves of an address. */
  function StoreAddr(): Code {
    [Store(W, 8, 9, 4), RshImm(9, 32), Store(W, 8, 9, 12)]
  }

  function LogInsn(second: int): Code { [Load(W, 7, 8, 4), Load(H, 9, 8, second)] }

  function LogFd(fdOff: int): Code { [Ld64(0, fdOff), Ld64Hi, Load(W, 9, 0, 0)] }

  function LogReg(): Code { [Load(B, 9, 8, 1)] }

  lemma LogLocal(fdOff: int, used: nat)
    ensures Local(LogInsn(2), used) && Local(LogInsn(12), used) && Local(LogFd(fdOff), used) && Local(LogReg(), used)
    ensures Local(StoreAddr(), used)
  {
  }

  /** Copies an initial value into the blob, if the context has one. */
  function InitialValue(ctxOff: int, value: int, size: nat): Code {
    [Load(DW, 3, 6, ctxOff), Jump(JEQ, 3, 0, 8), Ld64(1, value), Ld64Hi, MovImm(2, size), Load(W, 0, 6, CTX_FLAGS),
     Jump(JSET, 0, SKEL_KERNEL, 2), Call(CopyFromUser), Always(1), Call(ProbeReadKernel)]
  }

  lemma InitialValueLocal(ctxOff: int, value: int, size: nat, used: nat)
    ensures Local(InitialValue(ctxOff, value, size), used)
  {
    var q := InitialValue(ctxOff, value, size);
    forall i | 0 <= i < |q| ensures LocalInsn(q, used, i) {}
  }

  lemma OneMoreSlot(p: Code, l: Layout)
    requires Shape(p, l)
    ensures Shape(p, l.(used := l.used + 1))
  {
    var l' := l.(used := l.used + 1);
    forall pc | l.body <= pc < |p| ensures BodyInsn(p, l', pc) { assert BodyInsn(p, l, pc); }
  }

  lemma SlotLocal(used: nat)
    requires used > 0
    ensures Local([Store(W, 10, 7, SlotOff(used - 1))], used)
  {
  }

  /** The program starts with the prologue and the jump over the cleanup code. */
  ghost predicate Skips(p: Code, skip: int) {
    |p| >= 7 &&
    p[..7] == [MovReg(6, 1), MovReg(1, 10), AddImm(1, -STACK_SZ), MovImm(2, STACK_SZ), MovImm(3, 0), Call(ProbeReadKernel), Always(skip)]
  }

  /** The cleanup code for the first `n` stack slots is there. */
  ghost predicate SlotsClosed(p: Code, n: nat) {
    |p| == 7 + 3 * n && forall i: nat :: i < n ==> ClosesSlot(p, 7 + 3 * i, i)
  }

  /** So is that for all stack slots and the first `n` map descriptors. */
  ghost predicate AllClosed(p: Code, l: Layout, n: nat) {
    && |p| == 7 + 3 * l.slots + CloseLen(l.debug) * n
    && (forall i: nat :: i < l.slots ==> ClosesSlot(p, 7 + 3 * i, i))
    && (forall i: nat :: i < n ==> ClosesBlob(p, 7 + 3 * l.slots + CloseLen(l.debug) * i, l.fdArray + 4 * i, l.debug))
  }

  lemma CleanupLen(l: Layout, skip: nat, nrProgs: nat)
    requires l.slots == 2 + nrProgs && skip == (8 + 4 * nrProgs) / 4 * 3 + 2 + l.maps * (6 + if l.debug then 6 else 0)
    ensures skip == 3 * l.slots + 2 + l.maps * CloseLen(l.debug)
  {
  }

  lemma AllSlots(p: Code, l: Layout)
    requires SlotsClosed(p, l.slots)
    ensures AllClosed(p, l, 0)
  {
  }

  lemma SlotsMore(p: Code, n: nat, skip: int)
    requires SlotsClosed(p, n) && Skips(p, skip)
    ensures var q := p + [Load(W, 1, 10, -STACK_SZ + 4 * n), Jump(JSLE, 1, 0, 1), Call(SysClose)];
      SlotsClosed(q, n + 1) && Skips(q, skip)
  {
    var q := p + [Load(W, 1, 10, -STACK_SZ + 4 * n), Jump(JSLE, 1, 0, 1), Call(SysClose)];
    assert q[..7] == p[..7];
    forall i: nat | i < n + 1 ensures ClosesSlot(q, 7 + 3 * i, i) {
      if i < n { assert ClosesSlot(p, 7 + 3 * i, i); }
    }
  }

  lemma MapsMore(p: Code, l: Layout, n: nat, addr: int, skip: int)
    requires AllClosed(p, l, n) && Skips(p, skip)
    ensures var q := p + (LoadBlob(l.fdArray + 4 * n) + CloseCode(addr, l.debug));
      AllClosed(q, l, n + 1) && Skips(q, skip)
  {
    hide ClosesSlot, ClosesBlob, CloseCode, LoadBlob;
    var code := LoadBlob(l.fdArray + 4 * n) + CloseCode(addr, l.debug);
    var q, len := p + code, CloseLen(l.debug);
    assert q[..7] == p[..7];
    assert len * (n + 1) == len * n + len;
    BlobCodeCloses(p, l.fdArray + 4 * n, addr, l.debug);
    forall i: nat | i < l.slots ensures ClosesSlot(q, 7 + 3 * i, i) { SlotOn(p, code, 7 + 3 * i, i); }
    forall i: nat | i < n ensures ClosesBlob(q, 7 + 3 * l.slots + len * i, l.fdArray + 4 * i, l.debug) {
      BlobOn(p, code, 7 + 3 * l.slots + len * i, l.fdArray + 4 * i, l.debug);
    }
  }

  lemma SlotOn(p: Code, code: Code, at: nat, i: nat)
    requires ClosesSlot(p, at, i)
    ensures ClosesSlot(p + code, at, i)
  {
  }

  lemma BlobOn(p: Code, code: Code, at: nat, off: int, debug: bool)
    requires ClosesBlob(p, at, off, debug)
    ensures ClosesBlob(p + code, at, off, debug)
  {
  }

  lemma BlobCodeCloses(p: Code, off: int, addr: int, debug: bool)
    ensures ClosesBlob(p + (LoadBlob(off) + CloseCode(addr, debug)), |p|, off, debug)
    ensures |LoadBlob(off) + CloseCode(addr, debug)| == CloseLen(debug)
  {
    var code := LoadBlob(off) + CloseCode(addr, debug);
    if debug {
      assert code == [Ld64(0, off), Ld64Hi, Load(W, 1, 0, 0), Jump(JSLE, 1, 0, 8), MovReg(9, 1), Call(SysClose),
                      Ld64(1, addr), Ld64Hi, MovImm(2, 16), MovReg(3, 9), MovReg(4, 0), Call(TracePrintk)];
      Shifted(p, code, 12);
      PrintsAt(p + code, code, |p|);
    } else {
      assert code == [Ld64(0, off), Ld64Hi, Load(W, 1, 0, 0), Jump(JSLE, 1, 0, 2), MovReg(9, 1), Call(SysClose)];
      Shifted(p, code, 6);
    }
  }

  lemma Shifted(p: Code, code: Code, n: nat)
    requires |code| == n >= 6
    ensures var q, at := p + code, |p|;
      q[at] == code[0] && q[at + 1] == code[1] && q[at + 2] == code[2] && q[at + 3] == code[3] && q[at + 4] == code[4] && q[at + 5] == code[5]
    ensures forall i: nat :: i < n ==> (p + code)[|p| + i] == code[i]
  {
  }

  lemma PrintsAt(q: Code, code: Code, at: nat)
    requires |code| == 12 && at + 12 <= |q| && forall i: nat :: i < 12 ==> q[at + i] == code[i]
    requires PrintsTwo(code, 6)
    ensures PrintsTwo(q, at + 6)
  {
    assert q[at + 6] == code[6] && q[at + 7] == code[7] && q[at + 8] == code[8];
    assert q[at + 9] == code[9] && q[at + 10] == code[10] && q[at + 11] == code[11];
  }

  lemma InitialShape(p: Code, l: Layout, skip: int)
    requires l.clean == 7 && l.body == 7 + skip && skip == 3 * l.slots + 2 + l.maps * CloseLen(l.debug)
    requires AllClosed(p, l, l.maps) && Skips(p, skip)
    ensures Shape(p + [MovReg(0, 7), Exit], l) && |p| + 2 == l.body
  {
    hide ClosesSlot, ClosesBlob;
    var end := [MovReg(0, 7), Exit];
    var q, len := p + end, CloseLen(l.debug);
    assert q[..7] == p[..7] && l.maps * len == len * l.maps;
    forall i: nat | i < l.slots ensures ClosesSlot(q, 7 + 3 * i, i) { SlotOn(p, end, 7 + 3 * i, i); }
    forall i: nat | i < l.maps ensures ClosesBlob(q, 7 + 3 * l.slots + len * i, l.fdArray + 4 * i, l.debug) {
      BlobOn(p, end, 7 + 3 * l.slots + len * i, l.fdArray + 4 * i, l.debug);
    }
  }

  lemma ShapeBody(p: Code, l: Layout)
    requires Shape(p, l)
    ensures Body(p, l) && l.clean == 7
  {
  }

  lemma SkippedCheckShape(p: Code, l: Layout, imm: int)
    requires Shape(p, l) && Fresh(p, l.body, |p|)
    ensures var p1 := p + [Jump(JEQ, 7, imm, 1)]; Shape(p1 + [CheckErr(p1, l)], l) && l.clean == 7
  {
    hide Body, Fresh, Cleanup;
    ShapeBody(p, l);
    AppendSkippedCheck(p, l, imm);
    var p1 := p + [Jump(JEQ, 7, imm, 1)];
    assert p1 + [CheckErr(p1, l)] == p + [Jump(JEQ, 7, imm, 1), CheckErr(p1, l)];
    ShapeOn(p, l, [Jump(JEQ, 7, imm, 1), CheckErr(p1, l)]);
  }

  lemma CommandLocal(f: Helper, between: Code, used: nat)
    requires Local(between, used)
    ensures Inside([Call(f)] + between + [MovReg(7, 0)], used)
  {
    LocalConcat([Call(f)], between, used);
    LocalConcat([Call(f)] + between, [MovReg(7, 0)], used);
  }

  /** A piece keeps the shape, and a quiet one what is known of R7. */
  lemma ShapePiece(p: Code, l: Layout, code: Code)
    requires Shape(p, l) && Inside(code, l.used)
    ensures Shape(p + code, l)
    ensures Fresh(p, l.body, |p|) && Quiet(code) ==> Fresh(p + code, l.body, |p + code|)
  {
    AppendLocal(p, l, code);
    ShapeOn(p, l, code);
    if Fresh(p, l.body, |p|) && Quiet(code) { FreshOn(p, l, code); }
  }

  lemma ShapeOn(p: Code, l: Layout, code: Code)
    requires Shape(p, l) && Body(p + code, l)
    ensures Shape(p + code, l)
  {
    hide Body, ClosesSlot, ClosesBlob;
    var q := p + code;
    assert q[..7] == p[..7];
    forall i: nat | i < l.slots ensures ClosesSlot(q, l.clean + 3 * i, i) { SlotOn(p, code, l.clean + 3 * i, i); }
    forall i: nat | i < l.maps
      ensures ClosesBlob(q, l.clean + 3 * l.slots + CloseLen(l.debug) * i, l.fdArray + 4 * i, l.debug)
    {
      BlobOn(p, code, l.clean + 3 * l.slots + CloseLen(l.debug) * i, l.fdArray + 4 * i, l.debug);
    }
  }

  /** In a finished program every jump of the body goes to the cleanup code, and
      then it is a check of the last command's result, or forward to the start of an
      instruction of the program.  What the body stores on the stack goes to slots
      the cleanup code closes, provided it was laid out for that many programs. */
  lemma JumpsLand(p: Code, l: Layout, pc: int)
    requires Shape(p, l) && l.used <= l.slots && l.body <= pc < |Finished(p)|
    ensures var q := Finished(p);
      && (q[pc].Jump? || q[pc].Always? ==>
            (IsCheck(l, q[pc], pc) && Fresh(q, l.body, pc)) ||
            (pc < Target(q[pc], pc) < |q| && !q[Target(q[pc], pc)].Ld64Hi?))
      && (q[pc].Store? && q[pc].dst == 10 ==> exists k: nat :: k < l.slots && q[pc].off == SlotOff(k))
      && (q[pc].Exit? ==> pc == |q| - 1 && q[pc - 1] == MovImm(0, 0))
  {
    if pc < |p| {
      assert Finished(p)[pc] == p[pc] && BodyInsn(p, l, pc);
      if Fresh(p, l.body, pc) { FreshKept(p, [MovImm(0, 0), Exit], l.body, pc); }
    }
  }
}
