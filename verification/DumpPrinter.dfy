/** The printer behind btf_dump_emit_type_decl: type IDs are collected on a
    stack shared by nested declarations, then printed from the base outwards. */
module DumpPrinter {
  import opened BtfWords
  import opened DumpDecl

  /** Kinds that are a step between the declared type and its base type. */
  predicate IsStepKind(k: nat) {
    k == KIND_PTR || k == KIND_VOLATILE || k == KIND_CONST || k == KIND_RESTRICT || k == KIND_ARRAY || k == KIND_FUNC_PROTO
  }

  /** Kinds at which a declaration starts. */
  predicate IsBaseKind(k: nat) {
    k == KIND_INT || k == KIND_FLOAT || k == KIND_STRUCT || k == KIND_UNION || k == KIND_ENUM || k == KIND_ENUM64 ||
    k == KIND_FWD || k == KIND_TYPEDEF
  }

  /** Word `p` of a record of this kind is the next type of a declaration. */
  predicate IsDeclRef(k: nat, p: nat) {
    if k == KIND_ARRAY then p == 3
    else if k == KIND_FUNC_PROTO then p == 2 || (p >= 3 && p % 2 == 0)
    else p == 2
  }

  /** The types one can declare things of: void, base kinds, and steps that lead
      to them without going in a circle. */
  ghost predicate Declarable(g: TypeGraph, rank: seq<nat>) {
    && WellFormed(g) && |rank| == |g|
    && forall i, p: nat :: 0 <= i < |g| && 3 <= |g[i]| && p < |g[i]| && IsStepKind(Kind(g[i])) && IsDeclRef(Kind(g[i]), p) ==>
         g[i][p] < |g| && rank[g[i][p]] < rank[i] && CanDeclare(g, g[i][p])
  }

  ghost predicate CanDeclare(g: TypeGraph, id: nat) {
    id < |g| && 3 <= |g[id]| && (id == 0 || (WellSized(g[id]) && (IsStepKind(Kind(g[id])) || IsBaseKind(Kind(g[id])))))
  }

  /** The type that follows `id` on the way to the base type. */
  function NextOf(g: TypeGraph, id: nat): nat
    requires id < |g| && WellSized(g[id]) && IsStepKind(Kind(g[id]))
  {
    if Kind(g[id]) == KIND_ARRAY then g[id][3] else g[id][2]
  }

  ghost predicate IsStep(g: TypeGraph, id: nat) {
    id < |g| && id != 0 && 3 <= |g[id]| && IsStepKind(Kind(g[id]))
  }

  /** The chain of a type, base type first. */
  ghost function LayersOf(g: TypeGraph, rank: seq<nat>, id: nat): (w: seq<Layer>)
    requires Declarable(g, rank) && CanDeclare(g, id)
    ensures w != []
    decreases rank[id], 2
  {
    if IsStep(g, id) then LayersOf(g, rank, NextOf(g, id)) + [LayerAt(g, rank, id)] else [Base(id)]
  }

  ghost function LayerAt(g: TypeGraph, rank: seq<nat>, id: nat): Layer
    requires Declarable(g, rank) && CanDeclare(g, id)
    decreases rank[id], 1
  {
    if !IsStep(g, id) then Base(id)
    else
      var k := Kind(g[id]);
      if k == KIND_PTR then Ptr
      else if k == KIND_VOLATILE then Qual(Volatile)
      else if k == KIND_CONST then Qual(Const)
      else if k == KIND_RESTRICT then Qual(Restrict)
      else if k == KIND_ARRAY then Array(g[id][5])
      else Func(ParamsOf(g, rank, id, 0))
  }

  /** The parameters of a function prototype from the `i`-th on. */
  ghost function ParamsOf(g: TypeGraph, rank: seq<nat>, id: nat, i: nat): (ps: seq<Param>)
    requires Declarable(g, rank) && IsStep(g, id) && WellSized(g[id]) && Kind(g[id]) == KIND_FUNC_PROTO && i <= Vlen(g[id])
    ensures |ps| == Vlen(g[id]) - i
    decreases rank[id], 0, Vlen(g[id]) - i
  {
    if i == Vlen(g[id]) then []
    else
      ParamRefs(g[id], i);
      [Param(g[id][3 + 2 * i], LayersOf(g, rank, g[id][ParamTypePos(i)]))] + ParamsOf(g, rank, id, i + 1)
  }

  lemma {:induction false} LayersAreChain(g: TypeGraph, rank: seq<nat>, id: nat)
    requires Declarable(g, rank) && CanDeclare(g, id)
    ensures Chain(LayersOf(g, rank, id))
    decreases rank[id], 2
  {
    if IsStep(g, id) {
      var next := NextOf(g, id);
      LayersAreChain(g, rank, next);
      StepIsChain(g, rank, id);
      AppendStep(LayersOf(g, rank, next), LayerAt(g, rank, id));
    }
  }

  lemma {:induction false} StepIsChain(g: TypeGraph, rank: seq<nat>, id: nat)
    requires Declarable(g, rank) && CanDeclare(g, id) && IsStep(g, id)
    ensures !LayerAt(g, rank, id).Base?
    ensures LayerAt(g, rank, id).Func? ==> ChainParams(LayerAt(g, rank, id).params)
    decreases rank[id], 1
  {
    if Kind(g[id]) == KIND_FUNC_PROTO { ParamsAreChains(g, rank, id, 0); }
  }

  lemma {:induction false} ParamsAreChains(g: TypeGraph, rank: seq<nat>, id: nat, i: nat)
    requires Declarable(g, rank) && IsStep(g, id) && WellSized(g[id]) && Kind(g[id]) == KIND_FUNC_PROTO && i <= Vlen(g[id])
    ensures ChainParams(ParamsOf(g, rank, id, i))
    decreases rank[id], 0, Vlen(g[id]) - i
  {
    if i < Vlen(g[id]) {
      ParamRefs(g[id], i);
      LayersAreChain(g, rank, g[id][ParamTypePos(i)]);
      ParamsAreChains(g, rank, id, i + 1);
    }
  }

  lemma AppendStep(w: seq<Layer>, l: Layer)
    requires Chain(w) && !l.Base? && (l.Func? ==> ChainParams(l.params))
    ensures Chain(w + [l])
  {
    StepsAppend(w[1..], l);
    assert (w + [l])[1..] == w[1..] + [l];
  }

  lemma {:induction false} StepsAppend(w: seq<Layer>, l: Layer)
    requires Steps(w) && !l.Base? && (l.Func? ==> ChainParams(l.params))
    ensures Steps(w + [l])
    decreases |w|
  {
    if w == [] {
      assert w + [l] == [l] && [l][1..] == [];
    } else {
      StepsAppend(w[1..], l);
      assert (w + [l])[1..] == w[1..] + [l];
    }
  }

  /** The IDs `ids`, top of the stack last, are the steps `w`, next to print first. */
  ghost predicate Frame(g: TypeGraph, rank: seq<nat>, ids: seq<nat>, w: seq<Layer>)
    requires Declarable(g, rank)
  {
    if ids == [] then w == []
    else
      var top := ids[|ids| - 1];
      w != [] && CanDeclare(g, top) && LayerAt(g, rank, top) == w[0] && Frame(g, rank, ids[..|ids| - 1], w[1..])
  }

  /** The steps of `w` that the loop has still to print; a base type is only ever
      the first of them. */
  ghost function Remaining(w: seq<Layer>, name: nat, lastWasPtr: bool): seq<Token> {
    if w != [] && w[0].Base? then SpacedDeclaration(w, name) else Spaced(w, name, lastWasPtr)
  }

  ghost predicate Printable(w: seq<Layer>) {
    Chain(w) || Steps(w)
  }

  class Printer {
    const g: TypeGraph        // btf
    var declStack: seq<nat>   // decl_stack, up to decl_stack_cnt
    var out: seq<Token>       // what has been printed
    ghost const rank: seq<nat>

    ghost predicate Valid() { Declarable(g, rank) }

    constructor (g: TypeGraph, ghost rank: seq<nat>)
      requires Declarable(g, rank)
      ensures Valid() && this.g == g && this.rank == rank && declStack == [] && out == []
    {
      this.g, this.rank := g, rank;
      declStack, out := [], [];
    }

    /** btf_dump_emit_type_decl: prints the declaration of `name` with type `id`
        and leaves the shared stack as it was. */
    method EmitTypeDecl(id: nat, name: nat)
      requires Valid() && CanDeclare(g, id)
      modifies `declStack, `out
      ensures declStack == old(declStack)
      ensures out == old(out) + SpacedDeclaration(LayersOf(g, rank, id), name)
      decreases Size(LayersOf(g, rank, id)), 3
    {
      var stackStart := |declStack|;
      ghost var w := LayersOf(g, rank, id);
      LayersAreChain(g, rank, id);
      PushChain(id);
      assert declStack[stackStart..|declStack|] == declStack[stackStart..];
      EmitTypeChain(this, stackStart, |declStack| - stackStart, name, w);
      declStack := declStack[..stackStart];
    }

    /** The loop that collects the chain. */
    method PushChain(id0: nat)
      requires Valid() && CanDeclare(g, id0)
      modifies `declStack
      ensures |declStack| > |old(declStack)| && declStack[..|old(declStack)|] == old(declStack)
      ensures Frame(g, rank, declStack[|old(declStack)|..], LayersOf(g, rank, id0))
    {
      hide Declarable, Frame, LayersOf, LayerAt;
      var id := id0;
      ghost var start, w := |declStack|, [];
      FrameStart(g, rank);
      assert declStack[start..] == [] && LayersOf(g, rank, id) + [] == LayersOf(g, rank, id0);
      while true
        invariant CanDeclare(g, id) && start <= |declStack| && declStack[..start] == old(declStack)
        invariant LayersOf(g, rank, id) + w == LayersOf(g, rank, id0)
        invariant Frame(g, rank, declStack[start..], w)
        decreases rank[id]
      {
        FramePush(g, rank, declStack[start..], w, id);
        LayerMove(g, rank, id, w);
        assert (declStack + [id])[start..] == declStack[start..] + [id];
        declStack := declStack + [id];
        w := [LayerAt(g, rank, id)] + w;
        if id == 0 || !IsStepKind(Kind(g[id])) {
          break;
        }
        NextDeclarable(g, rank, id);
        id := NextOf(g, id);
      }
    }
  }

  lemma FrameStart(g: TypeGraph, rank: seq<nat>)
    requires Declarable(g, rank)
    ensures Frame(g, rank, [], []) && |rank| == |g|
  {
  }

  lemma LayerMove(g: TypeGraph, rank: seq<nat>, id: nat, w: seq<Layer>)
    requires Declarable(g, rank) && CanDeclare(g, id)
    ensures IsStep(g, id) ==>
      LayersOf(g, rank, id) + w == LayersOf(g, rank, NextOf(g, id)) + ([LayerAt(g, rank, id)] + w)
    ensures !IsStep(g, id) ==> LayersOf(g, rank, id) + w == [LayerAt(g, rank, id)] + w
  {
  }

  lemma NextDeclarable(g: TypeGraph, rank: seq<nat>, id: nat)
    requires Declarable(g, rank) && CanDeclare(g, id) && IsStep(g, id)
    ensures CanDeclare(g, NextOf(g, id)) && rank[NextOf(g, id)] < rank[id]
  {
    var p := if Kind(g[id]) == KIND_ARRAY then 3 else 2;
    assert IsDeclRef(Kind(g[id]), p);
  }

  lemma FramePush(g: TypeGraph, rank: seq<nat>, ids: seq<nat>, w: seq<Layer>, id: nat)
    requires Declarable(g, rank) && Frame(g, rank, ids, w) && CanDeclare(g, id)
    ensures Frame(g, rank, ids + [id], [LayerAt(g, rank, id)] + w)
  {
    assert (ids + [id])[..|ids|] == ids && ([LayerAt(g, rank, id)] + w)[1..] == w;
  }

  /** The frame of a declaration being printed: `cnt` IDs from `start` on. */
  ghost predicate FrameAt(p: Printer, start: nat, cnt: nat, w: seq<Layer>)
    reads p
  {
    p.Valid() && start + cnt <= |p.declStack| && Frame(p.g, p.rank, p.declStack[start..start + cnt], w)
  }

  lemma FramePop(g: TypeGraph, rank: seq<nat>, stack: seq<nat>, start: nat, cnt: nat, w: seq<Layer>)
    requires Declarable(g, rank) && start + cnt <= |stack| && Frame(g, rank, stack[start..start + cnt], w) && cnt > 0
    ensures w != [] && CanDeclare(g, stack[start + cnt - 1]) && LayerAt(g, rank, stack[start + cnt - 1]) == w[0]
    ensures Frame(g, rank, stack[start..start + cnt - 1], w[1..])
  {
    var ids := stack[start..start + cnt];
    assert ids[..|ids| - 1] == stack[start..start + cnt - 1];
  }

  lemma FrameEmpty(g: TypeGraph, rank: seq<nat>, stack: seq<nat>, start: nat, cnt: nat, w: seq<Layer>)
    requires Declarable(g, rank) && start + cnt <= |stack| && Frame(g, rank, stack[start..start + cnt], w)
    ensures cnt == 0 <==> w == []
  {
  }

  function QualifierOf(k: nat): Qualifier {
    if k == KIND_VOLATILE then Volatile else if k == KIND_CONST then Const else Restrict
  }

  predicate IsModKind(k: nat) { k == KIND_VOLATILE || k == KIND_CONST || k == KIND_RESTRICT }

  /** btf_dump_emit_mods: prints and pops the qualifiers on top. */
  method EmitMods(p: Printer, start: nat, cnt0: nat, ghost w0: seq<Layer>) returns (cnt: nat)
    requires FrameAt(p, start, cnt0, w0)
    modifies p`out
    ensures cnt <= cnt0 && FrameAt(p, start, cnt, DropQuals(w0))
    ensures p.out == old(p.out) + SpacedQuals(w0)
  {
    hide Declarable, Frame;
    cnt := cnt0;
    ghost var w := w0;
    while cnt > 0
      invariant cnt <= cnt0 && FrameAt(p, start, cnt, w) && DropQuals(w) == DropQuals(w0)
      invariant p.out + SpacedQuals(w) == old(p.out) + SpacedQuals(w0)
    {
      FramePop(p.g, p.rank, p.declStack, start, cnt, w);
      var id := p.declStack[start + cnt - 1];
      var t := p.g[id];
      if !IsModKind(Kind(t)) {
        NoMod(p.g, p.rank, id);
        return;
      }
      ModIsQual(p.g, p.rank, id);
      QualsMove(p.out, w);
      p.out := p.out + [QualWord(QualifierOf(Kind(t))), Space];
      w := w[1..];
      cnt := cnt - 1;
    }
    FrameEmpty(p.g, p.rank, p.declStack, start, cnt, w);
  }

  lemma NoMod(g: TypeGraph, rank: seq<nat>, id: nat)
    requires Declarable(g, rank) && CanDeclare(g, id) && !IsModKind(Kind(g[id]))
    ensures !LayerAt(g, rank, id).Qual?
  {
  }

  lemma ModIsQual(g: TypeGraph, rank: seq<nat>, id: nat)
    requires Declarable(g, rank) && CanDeclare(g, id) && IsModKind(Kind(g[id]))
    ensures LayerAt(g, rank, id) == Qual(QualifierOf(Kind(g[id])))
  {
  }

  lemma QualsMove(out: seq<Token>, w: seq<Layer>)
    requires w != [] && w[0].Qual?
    ensures out + SpacedQuals(w) == out + [QualWord(w[0].q), Space] + SpacedQuals(w[1..])
  {
  }

  /** btf_dump_drop_mods: pops the qualifiers on top without printing them. */
  method DropMods(p: Printer, start: nat, cnt0: nat, ghost w0: seq<Layer>) returns (cnt: nat)
    requires FrameAt(p, start, cnt0, w0)
    ensures cnt <= cnt0 && FrameAt(p, start, cnt, DropQuals(w0))
  {
    hide Declarable, Frame;
    cnt := cnt0;
    ghost var w := w0;
    while cnt > 0
      invariant cnt <= cnt0 && FrameAt(p, start, cnt, w) && DropQuals(w) == DropQuals(w0)
    {
      FramePop(p.g, p.rank, p.declStack, start, cnt, w);
      var id := p.declStack[start + cnt - 1];
      if !IsModKind(Kind(p.g[id])) {
        NoMod(p.g, p.rank, id);
        return;
      }
      ModIsQual(p.g, p.rank, id);
      w := w[1..];
      cnt := cnt - 1;
    }
    FrameEmpty(p.g, p.rank, p.declStack, start, cnt, w);
  }

  lemma BaseMove(out: seq<Token>, w: seq<Layer>, name: nat, lastWasPtr: bool)
    requires Printable(w) && w != [] && w[0].Base?
    ensures Printable(DropQuals(w[1..])) && Size(DropQuals(w[1..])) < Size(w)
    ensures out + Remaining(w, name, lastWasPtr)
            == out + SpacedQuals(w[1..]) + [TypeWord(w[0].id)] + Remaining(DropQuals(w[1..]), name, false)
  {
    DropSteps(w[1..]);
    DropSize(w[1..]);
  }

  lemma StepMove(out: seq<Token>, w: seq<Layer>, name: nat, lastWasPtr: bool)
    requires Printable(w) && w != [] && (w[0].Ptr? || w[0].Qual?)
    ensures Printable(w[1..]) && Size(w[1..]) < Size(w)
    ensures w[0].Ptr? ==> (
      out + Remaining(w, name, lastWasPtr) == out + (if lastWasPtr then [Star] else [Space, Star]) + Remaining(w[1..], name, true))
    ensures w[0].Qual? ==> (
      out + Remaining(w, name, lastWasPtr) == out + [Space, QualWord(w[0].q)] + Remaining(w[1..], name, false))
  {
    StepSpaced(w, name, lastWasPtr);
    if w[0].Ptr? {
      Reassociate(out, if lastWasPtr then [Star] else [Space, Star], Remaining(w[1..], name, true));
    } else {
      Reassociate(out, [Space, QualWord(w[0].q)], Remaining(w[1..], name, false));
    }
  }

  lemma StepSpaced(w: seq<Layer>, name: nat, lastWasPtr: bool)
    requires Printable(w) && w != [] && (w[0].Ptr? || w[0].Qual?)
    ensures w[0].Ptr? ==>
      Remaining(w, name, lastWasPtr) == (if lastWasPtr then [Star] else [Space, Star]) + Remaining(w[1..], name, true)
    ensures w[0].Qual? ==> Remaining(w, name, lastWasPtr) == [Space, QualWord(w[0].q)] + Remaining(w[1..], name, false)
  {
    assert Steps(w) && Steps(w[1..]);
  }

  lemma Reassociate(a: seq<Token>, b: seq<Token>, c: seq<Token>)
    ensures a + (b + c) == a + b + c
  {
  }

  lemma ArrayMove(out: seq<Token>, w: seq<Layer>, name: nat, lastWasPtr: bool)
    requires w != [] && w[0].Array?
    ensures out + SpacedArray(DropQuals(w[1..]), name, lastWasPtr) + [Dim(w[0].n)] == out + Remaining(w, name, lastWasPtr)
  {
    assert Spaced(w, name, lastWasPtr) == SpacedArray(DropQuals(w[1..]), name, lastWasPtr) + [Dim(w[0].n)];
    Reassociate(out, SpacedArray(DropQuals(w[1..]), name, lastWasPtr), [Dim(w[0].n)]);
  }

  lemma FuncMove(out: seq<Token>, w: seq<Layer>, name: nat, lastWasPtr: bool)
    requires w != [] && w[0].Func?
    ensures out + SpacedFunc(DropQuals(w[1..]), name, lastWasPtr) + [Open] + SpacedParams(w[0].params) + [Close]
            == out + Remaining(w, name, lastWasPtr)
  {
    var f, ps := SpacedFunc(DropQuals(w[1..]), name, lastWasPtr), SpacedParams(w[0].params);
    FuncSpacedIs(w, name, lastWasPtr);
    assert out + f + [Open] + ps + [Close] == out + (f + [Open] + ps + [Close]);
  }

  lemma FuncSpacedIs(w: seq<Layer>, name: nat, lastWasPtr: bool)
    requires w != [] && w[0].Func?
    ensures Remaining(w, name, lastWasPtr)
            == SpacedFunc(DropQuals(w[1..]), name, lastWasPtr) + [Open] + SpacedParams(w[0].params) + [Close]
  {
  }

  lemma SuffixSteps(w: seq<Layer>)
    requires Printable(w) && w != [] && (w[0].Array? || w[0].Func?)
    ensures Steps(DropQuals(w[1..])) && Size(DropQuals(w[1..])) < Size(w)
    ensures w[0].Func? ==> ParamsSize(w[0].params) < Size(w)
  {
    DropSteps(w[1..]);
    DropSize(w[1..]);
    if w[0].Func? { assert LayerSize(w[0]) == 1 + ParamsSize(w[0].params); }
  }

  lemma KindOfLayer(g: TypeGraph, rank: seq<nat>, id: nat)
    requires Declarable(g, rank) && CanDeclare(g, id)
    ensures var l, k := LayerAt(g, rank, id), Kind(g[id]);
      (l.Base? <==> id == 0 || IsBaseKind(k)) && (l.Base? ==> l.id == id) &&
      (id != 0 ==> (l.Ptr? <==> k == KIND_PTR)) && (id != 0 ==> (l.Qual? <==> IsModKind(k))) && (l.Qual? ==> l.q == QualifierOf(k)) &&
      (id != 0 ==> (l.Array? <==> k == KIND_ARRAY)) && (l.Array? ==> WellSized(g[id]) && l.n == g[id][5]) &&
      (l.Func? ==> WellSized(g[id]) && k == KIND_FUNC_PROTO && l.params == ParamsOf(g, rank, id, 0))
  {
  }

  /** btf_dump_emit_type_chain */
  method EmitTypeChain(p: Printer, start: nat, cnt0: nat, name: nat, ghost w0: seq<Layer>)
    requires FrameAt(p, start, cnt0, w0) && Printable(w0)
    modifies p`out, p`declStack
    ensures p.declStack == old(p.declStack)
    ensures p.out == old(p.out) + Remaining(w0, name, true)
    decreases Size(w0), 2
  {
    hide Remaining, Printable, Declarable, Frame;
    var lastWasPtr, cnt := true, cnt0;
    ghost var w, stack, all := w0, p.declStack, p.out + Remaining(w0, name, true);
    while cnt > 0
      invariant FrameAt(p, start, cnt, w) && Printable(w) && Size(w) <= Size(w0)
      invariant p.declStack == stack && p.out + Remaining(w, name, lastWasPtr) == all
    {
      FramePop(p.g, p.rank, p.declStack, start, cnt, w);
      cnt := cnt - 1;
      var id := p.declStack[start + cnt];
      var kind := Kind(p.g[id]);
      KindOfLayer(p.g, p.rank, id);
      if id == 0 || IsBaseKind(kind) {
        BaseMove(p.out, w, name, lastWasPtr);
        cnt := EmitMods(p, start, cnt, w[1..]);
        p.out := p.out + [TypeWord(id)];
        w := DropQuals(w[1..]);
        lastWasPtr := false;
      } else if kind == KIND_PTR {
        StepMove(p.out, w, name, lastWasPtr);
        p.out := p.out + if lastWasPtr then [Star] else [Space, Star];
        w := w[1..];
        lastWasPtr := true;
      } else if IsModKind(kind) {
        StepMove(p.out, w, name, lastWasPtr);
        p.out := p.out + [Space, QualWord(QualifierOf(kind))];
        w := w[1..];
        lastWasPtr := false;
      } else if kind == KIND_ARRAY {
        EmitArray(p, id, start, cnt, name, lastWasPtr, w);
        return;
      } else {
        EmitFunc(p, id, start, cnt, name, lastWasPtr, w);
        return;
      }
    }
    FrameEmpty(p.g, p.rank, p.declStack, start, cnt, w);
    NameMove(name, lastWasPtr);
    EmitName(p, name, lastWasPtr);
  }

  lemma NameMove(name: nat, lastWasPtr: bool)
    ensures Remaining([], name, lastWasPtr) == EmittedName(name, lastWasPtr)
  {
  }

  method EmitName(p: Printer, name: nat, lastWasPtr: bool)
    modifies p`out
    ensures p.out == old(p.out) + EmittedName(name, lastWasPtr)
  {
    var separate := name != 0 && !lastWasPtr;
    if separate {
      p.out := p.out + [Space];
    }
    if name != 0 {
      p.out := p.out + [Name(name)];
    }
  }

  /** The array case: what the size applies to, then the size. */
  method EmitArray(p: Printer, id: nat, start: nat, cnt0: nat, name: nat, lastWasPtr: bool, ghost w: seq<Layer>)
    requires w != [] && w[0].Array? && Printable(w) && FrameAt(p, start, cnt0, w[1..])
    requires CanDeclare(p.g, id) && 6 <= |p.g[id]| && p.g[id][5] == w[0].n
    modifies p`out, p`declStack
    ensures p.declStack == old(p.declStack)
    ensures p.out == old(p.out) + Remaining(w, name, lastWasPtr)
    decreases Size(w), 1
  {
    hide Declarable, Frame, Spaced, SpacedArray, Printable, Remaining;
    ghost var inner := DropQuals(w[1..]);
    SuffixSteps(w);
    ArrayMove(p.out, w, name, lastWasPtr);
    // Kept drops these as well
    var cnt := DropMods(p, start, cnt0, w[1..]);
    FrameEmpty(p.g, p.rank, p.declStack, start, cnt, inner);
    if cnt == 0 {
      InnerEmpty(name, lastWasPtr);
      EmitName(p, name, lastWasPtr);
    } else {
      EmitSized(p, start, cnt, name, lastWasPtr, inner);
    }
    p.out := p.out + [Dim(p.g[id][5])];
  }

  lemma InnerEmpty(name: nat, lastWasPtr: bool)
    ensures SpacedArray([], name, lastWasPtr) == EmittedName(name, lastWasPtr)
    ensures SpacedFunc([], name, lastWasPtr) == EmittedName(name, lastWasPtr)
  {
  }

  /** What an array size applies to when that is not just a name. */
  method EmitSized(p: Printer, start: nat, cnt: nat, name: nat, lastWasPtr: bool, ghost inner: seq<Layer>)
    requires inner != [] && Steps(inner) && FrameAt(p, start, cnt, inner)
    modifies p`out, p`declStack
    ensures p.declStack == old(p.declStack)
    ensures p.out == old(p.out) + SpacedArray(inner, name, lastWasPtr)
    decreases Size(inner), 3
  {
    hide Declarable, Frame, Spaced;
    FrameEmpty(p.g, p.rank, p.declStack, start, cnt, inner);
    FramePop(p.g, p.rank, p.declStack, start, cnt, inner);
    var nextId := p.declStack[start + cnt - 1];
    KindOfLayer(p.g, p.rank, nextId);
    var multidim := nextId != 0 && Kind(p.g[nextId]) == KIND_ARRAY;
    if name != 0 && !lastWasPtr {
      p.out := p.out + [Space];
    }
    // a size follows a size directly
    if !multidim {
      p.out := p.out + [Open];
    }
    EmitTypeChain(p, start, cnt, name, inner);
    if !multidim {
      p.out := p.out + [Close];
    }
  }

  /** The function case: what the parameter list applies to, then the list. */
  method EmitFunc(p: Printer, id: nat, start: nat, cnt0: nat, name: nat, lastWasPtr: bool, ghost w: seq<Layer>)
    requires w != [] && w[0].Func? && Printable(w) && FrameAt(p, start, cnt0, w[1..])
    requires CanDeclare(p.g, id) && IsStep(p.g, id) && Kind(p.g[id]) == KIND_FUNC_PROTO
    requires w[0].params == ParamsOf(p.g, p.rank, id, 0)
    modifies p`out, p`declStack
    ensures p.declStack == old(p.declStack)
    ensures p.out == old(p.out) + Remaining(w, name, lastWasPtr)
    decreases Size(w), 1
  {
    hide Declarable, Frame, Spaced, SpacedFunc, Printable, Remaining, SpacedParams, ParamsOf, ParamsSize;
    ghost var inner := DropQuals(w[1..]);
    SuffixSteps(w);
    FuncMove(p.out, w, name, lastWasPtr);
    var cnt := DropMods(p, start, cnt0, w[1..]);
    FrameEmpty(p.g, p.rank, p.declStack, start, cnt, inner);
    if cnt > 0 {
      EmitCalled(p, start, cnt, name, lastWasPtr, inner);
    } else {
      InnerEmpty(name, lastWasPtr);
      EmitName(p, name, lastWasPtr);
    }
    p.out := p.out + [Open];
    EmitParams(p, id);
    p.out := p.out + [Close];
  }

  /** What a parameter list applies to when that is not just a name. */
  method EmitCalled(p: Printer, start: nat, cnt: nat, name: nat, lastWasPtr: bool, ghost inner: seq<Layer>)
    requires inner != [] && Steps(inner) && FrameAt(p, start, cnt, inner)
    modifies p`out, p`declStack
    ensures p.declStack == old(p.declStack)
    ensures p.out == old(p.out) + SpacedFunc(inner, name, lastWasPtr)
    decreases Size(inner), 3
  {
    hide Declarable, Frame, Spaced;
    p.out := p.out + [Space, Open];
    EmitTypeChain(p, start, cnt, name, inner);
    p.out := p.out + [Close];
  }

  /** The parameter list, without its parentheses. */
  method EmitParams(p: Printer, id: nat)
    requires p.Valid() && CanDeclare(p.g, id) && IsStep(p.g, id) && Kind(p.g[id]) == KIND_FUNC_PROTO
    modifies p`out, p`declStack
    ensures p.declStack == old(p.declStack)
    ensures p.out == old(p.out) + SpacedParams(ParamsOf(p.g, p.rank, id, 0))
    decreases ParamsSize(ParamsOf(p.g, p.rank, id, 0)), 4
  {
    hide Declarable, ParamsOf, SpacedList, SpacedParam, LayersOf, Size, ParamsSize, SpacedDeclaration, KindOf, WellFormed;
    var vlen := Vlen(p.g[id]);
    ghost var ps, all := ParamsOf(p.g, p.rank, id, 0), p.out + SpacedParams(ParamsOf(p.g, p.rank, id, 0));
    // a single void parameter stands for none
    if vlen > 0 { ParamAt(p.g, p.rank, id, 0); }
    if vlen == 1 && p.g[id][4] == 0 {
      return;
    }
    ListEmpty(p.out);
    ghost var rest := ps;
    var i := 0;
    while i < vlen
      invariant i <= vlen == Vlen(p.g[id]) && p.declStack == old(p.declStack)
      invariant rest == ParamsOf(p.g, p.rank, id, i) && ParamsSize(rest) <= ParamsSize(ps)
      invariant if 0 < i == vlen then p.out == all
                else p.out + (if i > 0 then [Comma, Space] else []) + SpacedList(rest) == all
    {
      ParamAt(p.g, p.rank, id, i);
      ListMove(p.out + (if i > 0 then [Comma, Space] else []), rest);
      if i > 0 {
        p.out := p.out + [Comma, Space];
      }
      var pname, ptype := p.g[id][3 + 2 * i], p.g[id][3 + 2 * i + 1];
      // a void at the end stands for any further arguments
      if i == vlen - 1 && ptype == 0 {
        p.out := p.out + [Ellipsis];
        break;
      }
      p.EmitTypeDecl(ptype, pname);
      rest := rest[1..];
      i := i + 1;
    }
  }

  lemma ListEmpty(out: seq<Token>)
    ensures out + [] + SpacedList([]) == out && SpacedParams([]) == []
  {
  }

  lemma ListMove(out: seq<Token>, ps: seq<Param>)
    requires ps != []
    ensures |ps| == 1 ==> out + SpacedList(ps) == out + SpacedParam(ps[0], true)
    ensures |ps| > 1 ==> out + SpacedList(ps) == out + SpacedDeclaration(ps[0].layers, ps[0].name) + [Comma, Space] + SpacedList(ps[1..])
    ensures ps[0].layers == VOID_LAYERS ==> SpacedParam(ps[0], true) == [Ellipsis]
    ensures ps[0].layers != VOID_LAYERS ==> SpacedParam(ps[0], true) == SpacedDeclaration(ps[0].layers, ps[0].name)
  {
    if |ps| > 1 {
      ListSplit(ps);
      Reassociate3(out, SpacedDeclaration(ps[0].layers, ps[0].name), [Comma, Space], SpacedList(ps[1..]));
    }
  }

  lemma ListSplit(ps: seq<Param>)
    requires |ps| > 1
    ensures SpacedList(ps) == SpacedDeclaration(ps[0].layers, ps[0].name) + [Comma, Space] + SpacedList(ps[1..])
  {
  }

  lemma Reassociate3(a: seq<Token>, b: seq<Token>, c: seq<Token>, d: seq<Token>)
    ensures a + (b + c + d) == a + b + c + d
  {
  }

  lemma ParamAt(g: TypeGraph, rank: seq<nat>, id: nat, i: nat)
    requires Declarable(g, rank) && IsStep(g, id) && WellSized(g[id]) && Kind(g[id]) == KIND_FUNC_PROTO && i < Vlen(g[id])
    ensures ParamTypePos(i) < |g[id]| && CanDeclare(g, g[id][ParamTypePos(i)])
    ensures var ps, w := ParamsOf(g, rank, id, i), LayersOf(g, rank, g[id][ParamTypePos(i)]);
      ps[0] == Param(g[id][3 + 2 * i], w) && ps[1..] == ParamsOf(g, rank, id, i + 1) && Size(w) < ParamsSize(ps) &&
      ParamsSize(ps[1..]) < ParamsSize(ps) && (w == VOID_LAYERS <==> g[id][ParamTypePos(i)] == 0)
  {
    ParamRefs(g[id], i);
    assert IsDeclRef(KIND_FUNC_PROTO, ParamTypePos(i));
  }

  /** The declaration printed for a type denotes that type: its words are kept
      apart, and read by the rules of C they give back the chain, but for what C
      does not keep of it, and the name. */
  lemma PrintedReadsBack(g: TypeGraph, rank: seq<nat>, id: nat, name: nat)
    requires Declarable(g, rank) && CanDeclare(g, id)
    ensures var printed, w := SpacedDeclaration(LayersOf(g, rank, id), name), LayersOf(g, rank, id);
      Apart(false, printed) && ReadDeclaration(Unspaced(printed)) == Read(Param(name, Kept(w)), [])
  {
    var w := LayersOf(g, rank, id);
    LayersAreChain(g, rank, id);
    DeclarationSpaced(w, name);
    DeclarationReads(w, name, []);
    assert Declaration(w, name) + [] == Declaration(w, name);
  }
}
