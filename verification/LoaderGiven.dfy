/** What each bpf command of a generated loader is given, in any run that reaches it,
    provided that the fields of the attributes do not overlap. */
module LoaderGiven {
  import opened LoaderMachine
  import opened LoaderFeed
  import opened LoaderGen

  /** A field of `union bpf_attr`. */
  datatype Slot = Slot(name: string, size: Size)

  /** The fields are within the attributes, and no two of them overlap. */
  predicate AbiApart(abi: Abi, slots: seq<Slot>, total: int) {
    && (forall i :: 0 <= i < |slots| ==> 0 <= abi.attrOff(slots[i].name) && abi.attrOff(slots[i].name) + Bytes(slots[i].size) <= total)
    && forall i, j :: 0 <= i < j < |slots| ==> SlotsApart(abi, slots[i], slots[j])
  }

  predicate SlotsApart(abi: Abi, a: Slot, b: Slot) {
    abi.attrOff(a.name) + Bytes(a.size) <= abi.attrOff(b.name) || abi.attrOff(b.name) + Bytes(b.size) <= abi.attrOff(a.name)
  }

  /** The fields filled are these, in this order; what they are copied from comes
      before the attributes. */
  predicate Are(abi: Abi, fed: seq<Field>, slots: seq<Slot>, attr: int) {
    |fed| <= |slots| && forall i :: 0 <= i < |fed| ==> Is(abi, fed[i], slots[i], attr)
  }

  predicate Is(abi: Abi, x: Field, slot: Slot, attr: int) {
    x.off == attr + abi.attrOff(slot.name) && Width(x) == slot.size && (x.FromBlob? ==> x.src + Bytes(x.size) <= attr)
  }

  lemma FieldsApart(abi: Abi, fed: seq<Field>, slots: seq<Slot>, attr: int, total: int)
    requires AbiApart(abi, slots, total) && Are(abi, fed, slots, attr)
    ensures Apart(fed)
  {
    hide Is, SlotsApart, ApartFrom, SourceApart;
    forall i | 0 <= i < |fed| ensures SourceApart(fed[i], fed[i]) { SourceBefore(abi, fed[i], fed[i], slots[i], slots[i], attr); }
    forall i, j | 0 <= i < j < |fed| ensures ApartFrom(fed[i], fed[j]) {
      assert SlotsApart(abi, slots[i], slots[j]);
      SourceBefore(abi, fed[i], fed[j], slots[i], slots[j], attr);
      DestApart(abi, fed[i], fed[j], slots[i], slots[j], attr);
    }
  }

  lemma SourceBefore(abi: Abi, x: Field, y: Field, a: Slot, b: Slot, attr: int)
    requires Is(abi, x, a, attr) && Is(abi, y, b, attr) && abi.attrOff(b.name) >= 0
    ensures SourceApart(x, y)
  {
  }

  lemma DestApart(abi: Abi, x: Field, y: Field, a: Slot, b: Slot, attr: int)
    requires Is(abi, x, a, attr) && Is(abi, y, b, attr) && SlotsApart(abi, a, b) && SourceApart(x, y)
    ensures ApartFrom(x, y)
  {
  }

  /** A run of the finished loader that is at its command number `i`. */
  ghost predicate AtCommand(p: Code, l: Layout, cmds: seq<Cmd>, i: nat, s: State, ch: nat -> Choice, n: nat) {
    && Shape(p, l) && Traced(p, l, cmds) && i < |cmds| && Initial(s)
    && var s' := Run(Finished(p), s, ch, 0, n); !s'.halted && s'.pc == cmds[i].at
  }

  /** The command's fields hold what they should. */
  lemma TightGiven(abi: Abi, p: Code, l: Layout, cmds: seq<Cmd>, i: nat, s: State, ch: nat -> Choice, n: nat, slots: seq<Slot>)
    requires AtCommand(p, l, cmds, i, s, ch, n) && cmds[i].f == SysBpf && cmds[i].upto + 4 == cmds[i].at
    requires AbiApart(abi, slots, cmds[i].task.size) && Are(abi, cmds[i].task.fed, slots, cmds[i].task.attr)
    ensures var s' := Run(Finished(p), s, ch, 0, n);
      Passing(s', cmds[i].arg, cmds[i].task.attr, cmds[i].task.size) && AllHold(cmds[i].task.fed, s'.mem)
  {
    hide Shape, Traced, Run, AbiApart, Are, Apart, AllHold, Passing;
    FieldsApart(abi, cmds[i].task.fed, slots, cmds[i].task.attr, cmds[i].task.size);
    CommandGiven(p, l, cmds, i, s, ch, n);
  }

  /** The number in the field of `slot`. */
  function At(abi: Abi, attr: int, name: string, size: Size, mem: map<Val, nat>): nat {
    Read(mem, Val(BlobMem, attr + abi.attrOff(name)), Bytes(size))
  }

  const UPDATE_SLOTS := [Slot("map_fd", W), Slot("key", DW), Slot("value", DW)]

  /** MAP_UPDATE_ELEM is given the descriptor from the map's place in the array, the
      address of the key and that of the value. */
  lemma UpdateGiven(abi: Abi, p: Code, l: Layout, cmds: seq<Cmd>, i: nat, s: State, ch: nat -> Choice, n: nat,
                    attr: int, slot: int, key: int, value: int)
    requires AtCommand(p, l, cmds, i, s, ch, n)
    requires KindOfCmd(cmds[i]) == Bpf(MAP_UPDATE_ELEM, UpdateTask(abi, attr, slot, key, value))
    requires AbiApart(abi, UPDATE_SLOTS, abi.attrSize("map_update_elem")) && slot + 4 <= attr
    ensures var s' := Run(Finished(p), s, ch, 0, n);
      && Passing(s', MAP_UPDATE_ELEM, attr, abi.attrSize("map_update_elem"))
      && At(abi, attr, "map_fd", W, s'.mem) == Read(s'.mem, Val(BlobMem, slot), 4)
      && At(abi, attr, "key", DW, s'.mem) == Unsigned(key)
      && At(abi, attr, "value", DW, s'.mem) == Unsigned(value)
  {
    hide Shape, Traced, Run, AbiApart, Passing, Read, Unsigned;
    var s' := Run(Finished(p), s, ch, 0, n);
    var fed := UpdateTask(abi, attr, slot, key, value).fed;
    TightGiven(abi, p, l, cmds, i, s, ch, n, UPDATE_SLOTS);
    assert Holds(fed[0], s'.mem) && Holds(fed[1], s'.mem) && Holds(fed[2], s'.mem);
  }

  const FREEZE_SLOTS := [Slot("map_fd", W)]

  /** MAP_FREEZE is given the descriptor from the map's place in the array. */
  lemma FreezeGiven(abi: Abi, p: Code, l: Layout, cmds: seq<Cmd>, i: nat, s: State, ch: nat -> Choice, n: nat, attr: int, slot: int)
    requires AtCommand(p, l, cmds, i, s, ch, n) && KindOfCmd(cmds[i]) == Bpf(MAP_FREEZE, FreezeTask(abi, attr, slot))
    requires AbiApart(abi, FREEZE_SLOTS, abi.attrSize("map_freeze")) && slot + 4 <= attr
    ensures var s' := Run(Finished(p), s, ch, 0, n);
      && Passing(s', MAP_FREEZE, attr, abi.attrSize("map_freeze"))
      && At(abi, attr, "map_fd", W, s'.mem) == Read(s'.mem, Val(BlobMem, slot), 4)
  {
    hide Shape, Traced, Run, AbiApart, Passing, Read, Unsigned;
    var s' := Run(Finished(p), s, ch, 0, n);
    var fed := FreezeTask(abi, attr, slot).fed;
    TightGiven(abi, p, l, cmds, i, s, ch, n, FREEZE_SLOTS);
    assert Holds(fed[0], s'.mem);
  }

  const BTF_SLOTS := [Slot("btf_log_level", W), Slot("btf_log_size", W), Slot("btf_log_buf", DW), Slot("btf", DW)]

  /** BTF_LOAD is given the user's log settings from the context and the address of the data. */
  lemma BtfGiven(abi: Abi, p: Code, l: Layout, cmds: seq<Cmd>, i: nat, s: State, ch: nat -> Choice, n: nat, attr: int, data: int)
    requires AtCommand(p, l, cmds, i, s, ch, n) && KindOfCmd(cmds[i]) == Bpf(BTF_LOAD, BtfTask(abi, attr, data))
    requires AbiApart(abi, BTF_SLOTS, abi.attrSize("btf_load"))
    ensures var s' := Run(Finished(p), s, ch, 0, n);
      && Passing(s', BTF_LOAD, attr, abi.attrSize("btf_load"))
      && At(abi, attr, "btf_log_level", W, s'.mem) == Read(s'.mem, Val(CtxMem, CTX_LOG_LEVEL), 4)
      && At(abi, attr, "btf_log_size", W, s'.mem) == Read(s'.mem, Val(CtxMem, CTX_LOG_SIZE), 4)
      && At(abi, attr, "btf_log_buf", DW, s'.mem) == Read(s'.mem, Val(CtxMem, CTX_LOG_BUF), 8)
      && At(abi, attr, "btf", DW, s'.mem) == Unsigned(data)
  {
    hide Shape, Traced, Run, AbiApart, Passing, Read, Unsigned;
    var s' := Run(Finished(p), s, ch, 0, n);
    var fed := BtfTask(abi, attr, data).fed;
    TightGiven(abi, p, l, cmds, i, s, ch, n, BTF_SLOTS);
    assert Holds(fed[0], s'.mem) && Holds(fed[1], s'.mem) && Holds(fed[2], s'.mem) && Holds(fed[3], s'.mem);
  }

  /** The fields that MAP_CREATE has filled, depending on the map. */
  function CreateSlots(mapInMap: bool, valueTypeId: nat, mapIdx: int): seq<Slot> {
    (if valueTypeId != 0 then [Slot("btf_fd", W)] else []) + (if mapInMap then [Slot("inner_map_fd", W)] else []) +
    (if mapIdx >= 0 then [Slot("max_entries", W)] else [])
  }

  lemma CreateAre(abi: Abi, attr: int, mapInMap: bool, valueTypeId: nat, mapIdx: int)
    ensures Are(abi, CreateTask(abi, attr, mapInMap, valueTypeId, mapIdx).fed, CreateSlots(mapInMap, valueTypeId, mapIdx), attr)
  {
  }

  lemma CreateRead(abi: Abi, attr: int, mapInMap: bool, valueTypeId: nat, mapIdx: int, fed: seq<Field>, mem: map<Val, nat>)
    requires AllHold(fed, mem) && fed == CreateTask(abi, attr, mapInMap, valueTypeId, mapIdx).fed
    ensures valueTypeId != 0 ==> At(abi, attr, "btf_fd", W, mem) == Read(mem, Val(StackMem, SlotOff(0)), 4)
    ensures mapInMap ==> At(abi, attr, "inner_map_fd", W, mem) == Read(mem, Val(StackMem, SlotOff(1)), 4)
    ensures
      var entries := Read(mem, Val(CtxMem, MapDescOff(mapIdx) + MAP_MAX_ENTRIES), 4);
      mapIdx >= 0 && entries != 0 ==> At(abi, attr, "max_entries", W, mem) == entries
  {
    hide Read;
    if valueTypeId != 0 { assert fed[0] == FromStack(attr + abi.attrOff("btf_fd"), W, SlotOff(0)) && Holds(fed[0], mem); }
    if mapInMap {
      var k := if valueTypeId != 0 then 1 else 0;
      assert fed[k] == FromStack(attr + abi.attrOff("inner_map_fd"), W, SlotOff(1)) && Holds(fed[k], mem);
    }
    if mapIdx >= 0 {
      var k := |fed| - 1;
      assert fed[k] == FromCtx(attr + abi.attrOff("max_entries"), W, MapDescOff(mapIdx) + MAP_MAX_ENTRIES, true) && Holds(fed[k], mem);
    }
  }

  /** MAP_CREATE is given the descriptors of the BTF and of the inner map that are on the
      stack, and the number of entries in the context unless that is zero. */
  lemma CreateGiven(abi: Abi, p: Code, l: Layout, cmds: seq<Cmd>, i: nat, s: State, ch: nat -> Choice, n: nat,
                    attr: int, mapInMap: bool, valueTypeId: nat, mapIdx: int)
    requires AtCommand(p, l, cmds, i, s, ch, n)
    requires KindOfCmd(cmds[i]) == Bpf(MAP_CREATE, CreateTask(abi, attr, mapInMap, valueTypeId, mapIdx))
    requires AbiApart(abi, CreateSlots(mapInMap, valueTypeId, mapIdx), abi.attrSize("map_create"))
    ensures var s' := Run(Finished(p), s, ch, 0, n);
      var entries := Read(s'.mem, Val(CtxMem, MapDescOff(mapIdx) + MAP_MAX_ENTRIES), 4);
      && Passing(s', MAP_CREATE, attr, abi.attrSize("map_create"))
      && (valueTypeId != 0 ==> At(abi, attr, "btf_fd", W, s'.mem) == Read(s'.mem, Val(StackMem, SlotOff(0)), 4))
      && (mapInMap ==> At(abi, attr, "inner_map_fd", W, s'.mem) == Read(s'.mem, Val(StackMem, SlotOff(1)), 4))
      && (mapIdx >= 0 && entries != 0 ==> At(abi, attr, "max_entries", W, s'.mem) == entries)
  {
    hide Shape, Traced, Run, AbiApart, Passing, Read, Unsigned, AllHold, At;
    CreateAre(abi, attr, mapInMap, valueTypeId, mapIdx);
    var s' := Run(Finished(p), s, ch, 0, n);
    TightGiven(abi, p, l, cmds, i, s, ch, n, CreateSlots(mapInMap, valueTypeId, mapIdx));
    CreateRead(abi, attr, mapInMap, valueTypeId, mapIdx, cmds[i].task.fed, s'.mem);
  }

  const PROG_SLOTS := [Slot("license", DW), Slot("insns", DW), Slot("func_info", DW), Slot("line_info", DW), Slot("core_relos", DW),
                       Slot("fd_array", DW), Slot("log_level", W), Slot("log_size", W), Slot("log_buf", DW), Slot("prog_btf_fd", W),
                       Slot("attach_btf_id", W), Slot("attach_btf_obj_fd", W)]

  lemma ProgFits(abi: Abi, attr: int, d: ProgData, fdArray: int, c: Cmd)
    requires c.task == ProgTask(abi, attr, d, fdArray) && AbiApart(abi, PROG_SLOTS, abi.attrSize("prog_load"))
    ensures Fits(c)
  {
    hide Apart, Safe;
    var fed := c.task.fed;
    ProgAre(abi, attr, d, fdArray);
    FieldsApart(abi, fed, PROG_SLOTS, attr, abi.attrSize("prog_load"));
    forall i | 0 <= i < |fed| ensures Safe(c.task, fed[i]) { ProgSafe(abi, attr, d, fdArray, c.task, i); }
  }

  lemma ProgAre(abi: Abi, attr: int, d: ProgData, fdArray: int)
    ensures Are(abi, ProgTask(abi, attr, d, fdArray).fed, PROG_SLOTS, attr) && |ProgTask(abi, attr, d, fdArray).fed| == 10
  {
    var fed := ProgTask(abi, attr, d, fdArray).fed;
    forall i | 0 <= i < 10 ensures Is(abi, fed[i], PROG_SLOTS[i], attr) {}
  }

  lemma ProgSafe(abi: Abi, attr: int, d: ProgData, fdArray: int, t: Task, i: nat)
    requires t == ProgTask(abi, attr, d, fdArray) && AbiApart(abi, PROG_SLOTS, abi.attrSize("prog_load")) && i < |t.fed|
    ensures Safe(t, t.fed[i])
  {
    hide ProgAddresses, ProgSettings;
    ProgAre(abi, attr, d, fdArray);
    assert Is(abi, t.fed[i], PROG_SLOTS[i], attr);
    assert SlotsApart(abi, PROG_SLOTS[i], PROG_SLOTS[10]) && SlotsApart(abi, PROG_SLOTS[i], PROG_SLOTS[11]);
    NotFromBlob(abi, attr, d, fdArray, i);
  }

  lemma NotFromBlob(abi: Abi, attr: int, d: ProgData, fdArray: int, i: nat)
    requires i < |ProgTask(abi, attr, d, fdArray).fed|
    ensures !ProgTask(abi, attr, d, fdArray).fed[i].FromBlob?
  {
  }

  lemma AddressesRead(abi: Abi, attr: int, d: ProgData, fdArray: int, fed: seq<Field>, mem: map<Val, nat>)
    requires AllHold(fed, mem) && fed == ProgTask(abi, attr, d, fdArray).fed
    ensures At(abi, attr, "license", DW, mem) == Unsigned(d.license) && At(abi, attr, "insns", DW, mem) == Unsigned(d.insns)
    ensures At(abi, attr, "func_info", DW, mem) == Unsigned(d.funcInfo) && At(abi, attr, "line_info", DW, mem) == Unsigned(d.lineInfo)
    ensures At(abi, attr, "core_relos", DW, mem) == Unsigned(d.coreRelos) && At(abi, attr, "fd_array", DW, mem) == Unsigned(fdArray)
  {
    hide Read, Unsigned;
    assert Holds(fed[0], mem) && Holds(fed[1], mem) && Holds(fed[2], mem) && Holds(fed[3], mem) && Holds(fed[4], mem) && Holds(fed[5], mem);
  }

  lemma SettingsRead(abi: Abi, attr: int, d: ProgData, fdArray: int, fed: seq<Field>, mem: map<Val, nat>)
    requires AllHold(fed, mem) && fed == ProgTask(abi, attr, d, fdArray).fed
    ensures At(abi, attr, "log_level", W, mem) == Read(mem, Val(CtxMem, CTX_LOG_LEVEL), 4)
    ensures At(abi, attr, "log_size", W, mem) == Read(mem, Val(CtxMem, CTX_LOG_SIZE), 4)
    ensures At(abi, attr, "log_buf", DW, mem) == Read(mem, Val(CtxMem, CTX_LOG_BUF), 8)
    ensures At(abi, attr, "prog_btf_fd", W, mem) == Read(mem, Val(StackMem, SlotOff(0)), 4)
  {
    hide Read, Unsigned;
    assert Holds(fed[6], mem) && Holds(fed[7], mem) && Holds(fed[8], mem) && Holds(fed[9], mem);
  }

  /** PROG_LOAD is given the addresses of the program's data and of the array of
      descriptors, the user's log settings and the BTF descriptor, whatever has been
      looked up in between. */
  lemma ProgGiven(abi: Abi, p: Code, l: Layout, cmds: seq<Cmd>, i: nat, s: State, ch: nat -> Choice, n: nat,
                  attr: int, d: ProgData, fdArray: int)
    requires AtCommand(p, l, cmds, i, s, ch, n) && cmds[i].f == SysBpf && cmds[i].arg == PROG_LOAD
    requires cmds[i].task == ProgTask(abi, attr, d, fdArray) && AbiApart(abi, PROG_SLOTS, abi.attrSize("prog_load"))
    ensures var s' := Run(Finished(p), s, ch, 0, n);
      && Passing(s', PROG_LOAD, attr, abi.attrSize("prog_load"))
      && At(abi, attr, "license", DW, s'.mem) == Unsigned(d.license) && At(abi, attr, "insns", DW, s'.mem) == Unsigned(d.insns)
      && At(abi, attr, "func_info", DW, s'.mem) == Unsigned(d.funcInfo)
      && At(abi, attr, "line_info", DW, s'.mem) == Unsigned(d.lineInfo)
      && At(abi, attr, "core_relos", DW, s'.mem) == Unsigned(d.coreRelos)
      && At(abi, attr, "fd_array", DW, s'.mem) == Unsigned(fdArray)
      && At(abi, attr, "log_level", W, s'.mem) == Read(s'.mem, Val(CtxMem, CTX_LOG_LEVEL), 4)
      && At(abi, attr, "log_size", W, s'.mem) == Read(s'.mem, Val(CtxMem, CTX_LOG_SIZE), 4)
      && At(abi, attr, "log_buf", DW, s'.mem) == Read(s'.mem, Val(CtxMem, CTX_LOG_BUF), 8)
      && At(abi, attr, "prog_btf_fd", W, s'.mem) == Read(s'.mem, Val(StackMem, SlotOff(0)), 4)
  {
    hide Shape, Traced, Run, AbiApart, Passing, Read, Unsigned, Fits, AllHold, At;
    var s' := Run(Finished(p), s, ch, 0, n);
    ProgFits(abi, attr, d, fdArray, cmds[i]);
    CommandGiven(p, l, cmds, i, s, ch, n);
    AddressesRead(abi, attr, d, fdArray, cmds[i].task.fed, s'.mem);
    SettingsRead(abi, attr, d, fdArray, cmds[i].task.fed, s'.mem);
  }

  /** Memory after the copy of an initial value: nothing happens without one; else it
      is read, by the one helper or the other, into the value's bytes. */
  function AfterInitial(mem: map<Val, nat>, ctxOff: int, value: int, size: nat, bytes: nat -> nat): map<Val, nat> {
    if Read(mem, Val(CtxMem, ctxOff), 8) == 0 || size == 0 then mem else Write(mem, Val(BlobMem, value), size, bytes)
  }

  /** Which helper reads the initial value. */
  function Reader(mem: map<Val, nat>): Helper {
    if And(Unsigned(Read(mem, Val(CtxMem, CTX_FLAGS), 4)), SKEL_KERNEL) != 0 then ProbeReadKernel else CopyFromUser
  }

  lemma BranchStep(p: Code, s: State, ch: Choice, c: Cond, r: nat, imm: int, off: int)
    requires Running(s) && 0 <= s.pc < |p| && p[s.pc] == Jump(c, r, imm, off) && r < NR_REGS
    ensures Step(p, s, ch) == s.(pc := s.pc + 1 + if Taken(c, s.regs[r].n, imm) then off else 0)
  {
  }

  lemma SizeStep(p: Code, s: State, ch: Choice, n: int)
    requires Running(s) && 0 <= s.pc < |p| && p[s.pc] == MovImm(2, n)
    ensures Step(p, s, ch) == s.(pc := s.pc + 1, regs := s.regs[2 := Val(Scalar, n)])
  {
  }

  /** The arguments of the call that reads the initial value. */
  predicate Reading(s: State, value: int, size: nat, src: int) {
    Running(s) && s.regs[1] == Val(BlobMem, value) && s.regs[2] == Val(Scalar, size) && s.regs[3] == Val(Scalar, src)
  }

  lemma ReadStep(p: Code, s: State, ch: Choice, f: Helper, value: int, size: nat, src: int)
    requires Reading(s, value, size, src) && src != 0 && 0 <= s.pc < |p| && p[s.pc] == Call(f)
    requires f == ProbeReadKernel || f == CopyFromUser
    ensures Reached(s, Step(p, s, ch), s.pc + 1, if size == 0 then s.mem else Write(s.mem, Val(BlobMem, value), size, ch.bytes))
  {
    hide Write;
  }

  /** The four steps that set up the call and choose the helper. */
  lemma Fetches(p: Code, s: State, ch: nat -> Choice, t: nat, ctxOff: int, value: int, size: nat)
    requires Running(s) && s.pc >= 2 && CodeAt(p, s.pc - 2, InitialValue(ctxOff, value, size))
    ensures var s' := Run(p, s, ch, t, 4);
      Reached(s, s', s.pc + (if Reader(s.mem) == ProbeReadKernel then 7 else 5), s.mem) &&
      (s.regs[3].region == Scalar ==> Reading(s', value, size, s.regs[3].n))
  {
    hide Step, Run, Write, Read, CodeAt, And, Unsigned;
    var code := InitialValue(ctxOff, value, size);
    AtCode(p, s.pc - 2, code);
    assert p[s.pc] == code[2] && p[s.pc + 2] == code[4] && p[s.pc + 3] == code[5] && p[s.pc + 4] == code[6];
    Unroll(p, s, ch, t);
    RunThen(p, s, ch, t, 3, 1);
    Ld64Step(p, s, ch(t), 1, value);
    var s1 := Step(p, s, ch(t));
    SizeStep(p, s1, ch(t + 1), size);
    var s2 := Step(p, s1, ch(t + 1));
    LoaderFeed.LoadStep(p, s2, ch(t + 2), W, 0, 6, CTX_FLAGS);
    var s3 := Step(p, s2, ch(t + 2));
    RunStep(p, s3, ch, t + 3);
    BranchStep(p, s3, ch(t + 3), JSET, 0, SKEL_KERNEL, 2);
    KernelFlag();
  }

  lemma KernelFlag()
    ensures Unsigned(SKEL_KERNEL) == SKEL_KERNEL
  {
  }

  /** The call, and the way to the end. */
  lemma Fetched(p: Code, s: State, ch: nat -> Choice, t: nat, base: int, ctxOff: int, value: int, size: nat, src: int) returns (n: nat)
    requires Reading(s, value, size, src) && src != 0 && CodeAt(p, base, InitialValue(ctxOff, value, size)) && (s.pc == base + 7 || s.pc == base + 9)
    ensures Reached(s, Run(p, s, ch, t, n), base + 10, if size == 0 then s.mem else Write(s.mem, Val(BlobMem, value), size, ch(t).bytes))
  {
    hide Step, Run, Write, Read, CodeAt;
    var code := InitialValue(ctxOff, value, size);
    AtCode(p, base, code);
    assert p[base + 7] == code[7] && p[base + 8] == code[8] && p[base + 9] == code[9];
    Unroll(p, s, ch, t);
    ReadStep(p, s, ch(t), if s.pc == base + 7 then CopyFromUser else ProbeReadKernel, value, size, src);
    n := 1;
    if s.pc == base + 7 {
      LeapStep(p, Step(p, s, ch(t)), ch(t + 1));
      n := 2;
    }
  }

  lemma LeapStep(p: Code, s: State, ch: Choice)
    requires !s.halted && |s.regs| == NR_REGS && 0 <= s.pc < |p| && p[s.pc] == Always(1)
    ensures Step(p, s, ch) == s.(pc := s.pc + 2)
  {
  }

  /** The code of bpf_gen__map_update_elem that fetches the initial value: `at` is when
      the helper is called. */
  lemma InitialValueRuns(p: Code, s: State, ch: nat -> Choice, t: nat, ctxOff: int, value: int, size: nat) returns (n: nat, at: nat)
    requires Running(s) && CodeAt(p, s.pc, InitialValue(ctxOff, value, size))
    ensures Reached(s, Run(p, s, ch, t, n), s.pc + 10, AfterInitial(s.mem, ctxOff, value, size, ch(t + at).bytes))
    ensures Read(s.mem, Val(CtxMem, ctxOff), 8) != 0 ==>
      var s' := Run(p, s, ch, t, at);
      Reading(s', value, size, Read(s.mem, Val(CtxMem, ctxOff), 8)) && 0 <= s'.pc < |p| && p[s'.pc] == Call(Reader(s.mem))
  {
    hide Step, Run, Write, Read, CodeAt, And, Unsigned;
    var code, src := InitialValue(ctxOff, value, size), Read(s.mem, Val(CtxMem, ctxOff), 8);
    AtCode(p, s.pc, code);
    assert p[s.pc] == code[0] && p[s.pc + 1] == code[1] && p[s.pc + 7] == code[7] && p[s.pc + 9] == code[9];
    Unroll(p, s, ch, t);
    LoaderFeed.LoadStep(p, s, ch(t), DW, 3, 6, ctxOff);
    var s1 := Step(p, s, ch(t));
    BranchStep(p, s1, ch(t + 1), JEQ, 3, 0, 8);
    var s2 := Step(p, s1, ch(t + 1));
    n, at := 2, 0;
    if src != 0 {
      Fetches(p, s2, ch, t + 2, ctxOff, value, size);
      RunThen(p, s, ch, t, 2, 4);
      at := 6;
      var a := Fetched(p, Run(p, s2, ch, t + 2, 4), ch, t + 6, s.pc, ctxOff, value, size, src);
      RunThen(p, s, ch, t, 6, a);
      n := 6 + a;
    }
  }

  lemma StoreAt(p: Code, s: State, ch: Choice, off: int)
    requires Running(s) && 0 <= s.pc < |p| && p[s.pc] == Store(W, 0, 7, off)
    ensures Step(p, s, ch) == s.(pc := s.pc + 1, mem := Write(s.mem, Shift(s.regs[0], off), 4, ByteOf(s.regs[7].n, 4)))
  {
  }

  lemma HighStep(p: Code, s: State, ch: Choice)
    requires Running(s) && 0 <= s.pc < |p| && p[s.pc] == RshImm(7, 32)
    ensures Step(p, s, ch) == s.(pc := s.pc + 1, regs := s.regs[7 := Val(Scalar, Unsigned(s.regs[7].n) / Pow2(32))])
  {
  }

  /** Two numbers of four bytes written one after the other. */
  lemma TwoWritten(mem: map<Val, nat>, a: Val, b: Val, v: int, w: int)
    requires Disjoint(a, 4, b, 4)
    ensures var mem' := Write(Write(mem, a, 4, ByteOf(v, 4)), b, 4, ByteOf(w, 4));
      Read(mem', a, 4) == Unsigned(v) % Pow2(32) && Read(mem', b, 4) == Unsigned(w) % Pow2(32)
  {
    hide Read, Write, ByteOf, Unsigned, Pow2, ByteAt;
    var mem1 := Write(mem, a, 4, ByteOf(v, 4));
    var mem' := Write(mem1, b, 4, ByteOf(w, 4));
    ReadWritten(mem, a, 4, v);
    ReadWritten(mem1, b, 4, w);
    forall x | Within(x, a, 4) ensures ByteAt(mem1, x) == ByteAt(mem', x) { WriteOutside(mem1, b, 4, ByteOf(w, 4), x); }
    ReadSame(mem1, mem', a, 4);
  }

  lemma HighHalf(v: int)
    ensures Unsigned(Unsigned(v) / 0x1_0000_0000) % 0x1_0000_0000 == Unsigned(v) / 0x1_0000_0000
  {
  }

  /** The code that stores what was found for the attach target: the ID is in the lower
      half of R7, the descriptor of its object in the upper. */
  lemma TargetStored(p: Code, s: State, ch: nat -> Choice, t: nat, attr: int, idOff: int, fdOff: int)
    requires Running(s) && CodeAt(p, s.pc, StoreTarget(attr, idOff, fdOff)) && (idOff + 4 <= fdOff || fdOff + 4 <= idOff)
    ensures var s', r := Run(p, s, ch, t, 4), Unsigned(s.regs[7].n);
      && s'.pc == s.pc + 5
      && Read(s'.mem, Val(BlobMem, attr + idOff), 4) == r % 0x1_0000_0000
      && Read(s'.mem, Val(BlobMem, attr + fdOff), 4) == r / 0x1_0000_0000
  {
    hide Step, Run, Write, Read, CodeAt, ByteOf, Pow2, Unsigned;
    var code := StoreTarget(attr, idOff, fdOff);
    AtCode(p, s.pc, code);
    assert p[s.pc] == code[0] && p[s.pc + 2] == code[2] && p[s.pc + 3] == code[3] && p[s.pc + 4] == code[4];
    Unroll(p, s, ch, t);
    RunThen(p, s, ch, t, 3, 1);
    Ld64Step(p, s, ch(t), 0, attr);
    var s1 := Step(p, s, ch(t));
    StoreAt(p, s1, ch(t + 1), idOff);
    var s2 := Step(p, s1, ch(t + 1));
    HighStep(p, s2, ch(t + 2));
    var s3 := Step(p, s2, ch(t + 2));
    RunStep(p, s3, ch, t + 3);
    StoreAt(p, s3, ch(t + 3), fdOff);
    PowersUpTo64();
    HighHalf(s.regs[7].n);
    TwoWritten(s.mem, Val(BlobMem, attr + idOff), Val(BlobMem, attr + fdOff), s.regs[7].n, Unsigned(s.regs[7].n) / Pow2(32));
  }
}
