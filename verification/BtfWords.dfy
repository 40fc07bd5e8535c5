/** A BTF type record as the 32-bit words it occupies in the type section:
    word 0 is the name offset, word 1 the info word, word 2 the size or the
    referenced type ID, and the rest is the kind-specific tail (members,
    parameters, enumerators and so on). */
module BtfWords {

  type Words = seq<nat>
  type TypeGraph = seq<Words>

  const KIND_UNKN := 0
  const KIND_INT := 1
  const KIND_PTR := 2
  const KIND_ARRAY := 3
  const KIND_STRUCT := 4
  const KIND_UNION := 5
  const KIND_ENUM := 6
  const KIND_FWD := 7
  const KIND_TYPEDEF := 8
  const KIND_VOLATILE := 9
  const KIND_CONST := 10
  const KIND_RESTRICT := 11
  const KIND_FUNC := 12
  const KIND_FUNC_PROTO := 13
  const KIND_VAR := 14
  const KIND_DATASEC := 15
  const KIND_FLOAT := 16
  const KIND_DECL_TAG := 17
  const KIND_TYPE_TAG := 18
  const KIND_ENUM64 := 19

  /** Largest number of types; a larger value in `map` is not a type ID. */
  const BTF_MAX_NR_TYPES: nat := 0x7fffffff

  const EINVAL: int := 22
  const ELOOP: int := 40

  /** The record that stands for type ID 0. */
  const VOID: Words := [0, 0, 0]

  function KindOf(info: nat): nat { info / 0x1000000 % 32 }

  function VlenOf(info: nat): nat { info % 0x10000 }

  function Kind(t: Words): nat
    requires |t| >= 3
  {
    KindOf(t[1])
  }

  function Vlen(t: Words): nat
    requires |t| >= 3
  {
    VlenOf(t[1])
  }

  predicate KFlag(t: Words)
    requires |t| >= 3
  {
    t[1] / 0x80000000 % 2 == 1
  }

  /** Number of words of a record with the given info word, or -EINVAL. */
  function SizeOf(info: nat): int {
    var kind := KindOf(info);
    var vlen := VlenOf(info);
    if IsSingleRefKind(kind) || kind == KIND_FWD || kind == KIND_FLOAT then 3
    else if kind == KIND_INT || kind == KIND_VAR || kind == KIND_DECL_TAG then 3 + 1
    else if kind == KIND_ENUM || kind == KIND_FUNC_PROTO then 3 + 2 * vlen
    else if IsCompositeKind(kind) || kind == KIND_ENUM64 || kind == KIND_DATASEC then 3 + 3 * vlen
    else if kind == KIND_ARRAY then 3 + 3
    else -EINVAL
  }

  /** A record of a known kind that has exactly the words its info word announces. */
  predicate WellSized(t: Words) {
    |t| >= 3 && |t| == SizeOf(t[1])
  }

  /** Word `p` of a record of this kind holds a type ID. */
  predicate IsRefPos(kind: nat, p: nat) {
    if IsSingleRefKind(kind) || kind == KIND_FWD || kind == KIND_VAR || kind == KIND_DECL_TAG then p == 2
    else if kind == KIND_ARRAY then p == 3 || p == 4
    else if kind == KIND_STRUCT || kind == KIND_UNION then p >= 3 && p % 3 == 1
    else if kind == KIND_FUNC_PROTO then p == 2 || (p >= 3 && p % 2 == 0)
    else if kind == KIND_DATASEC then p >= 3 && p % 3 == 0
    else false
  }

  predicate IsRef(t: Words, p: nat) {
    3 <= |t| && p < |t| && IsRefPos(Kind(t), p)
  }

  predicate IsCompositeKind(k: nat) { k == KIND_STRUCT || k == KIND_UNION }

  predicate IsEnumKind(k: nat) { k == KIND_ENUM || k == KIND_ENUM64 }

  /** Kinds the primitive pass deduplicates. */
  predicate IsPrimKind(k: nat) {
    k == KIND_INT || IsEnumKind(k) || k == KIND_FWD || k == KIND_FLOAT
  }

  /** Kinds with a single reference that plays no other role than to name its target. */
  predicate IsSingleRefKind(k: nat) {
    k == KIND_CONST || k == KIND_VOLATILE || k == KIND_RESTRICT || k == KIND_PTR ||
    k == KIND_TYPEDEF || k == KIND_FUNC || k == KIND_TYPE_TAG
  }

  /** Kinds the reference pass deduplicates. */
  predicate IsRefKind(k: nat) {
    IsSingleRefKind(k) || k == KIND_DECL_TAG || k == KIND_ARRAY || k == KIND_FUNC_PROTO
  }

  predicate IsVarKind(k: nat) { k == KIND_VAR || k == KIND_DATASEC }

  predicate IsComposite(t: Words) requires |t| >= 3 { IsCompositeKind(Kind(t)) }

  predicate IsAnyEnum(t: Words) requires |t| >= 3 { IsEnumKind(Kind(t)) }

  predicate IsFwd(t: Words) requires |t| >= 3 { Kind(t) == KIND_FWD }

  /** An enum without enumerators, which is how a forward-declared enum appears. */
  predicate IsEnumFwd(t: Words) requires |t| >= 3 { IsAnyEnum(t) && Vlen(t) == 0 }

  /** The composite kind a forward declaration announces. */
  function FwdKind(t: Words): nat requires |t| >= 3 {
    if KFlag(t) then KIND_UNION else KIND_STRUCT
  }

  /** A whole BTF: ID 0 is void, every other record is well sized, every reference is in range. */
  ghost predicate WellFormed(g: TypeGraph) {
    && 1 <= |g| <= BTF_MAX_NR_TYPES
    && g[0] == VOID
    && (forall i :: 1 <= i < |g| ==> WellSized(g[i]))
    && (forall i, p: nat :: 0 <= i < |g| && IsRef(g[i], p) ==> g[i][p] < |g|)
  }

  function WithWord(t: Words, p: nat, v: nat): (u: Words)
    requires p < |t|
  {
    t[..p] + [v] + t[p + 1..]
  }

  /** The graph with word `p` of record `id` replaced by `v`. */
  function Update(g: TypeGraph, id: nat, p: nat, v: nat): TypeGraph
    requires id < |g| && p < |g[id]|
  {
    g[..id] + [WithWord(g[id], p, v)] + g[id + 1..]
  }

  /** Word index of the type ID of member, parameter or section variable `i`. */
  function MemberTypePos(i: nat): nat { 3 + 3 * i + 1 }

  function ParamTypePos(i: nat): nat { 3 + 2 * i + 1 }

  function SecInfoTypePos(i: nat): nat { 3 + 3 * i }

  /** The type IDs of a struct or union are exactly those of its members. */
  lemma MemberRefs(t: Words, i: nat)
    requires WellSized(t) && IsComposite(t) && i <= Vlen(t)
    ensures i < Vlen(t) ==> IsRef(t, MemberTypePos(i))
    ensures forall p: nat :: IsRef(t, p) && p < MemberTypePos(i) + 2 ==> p < MemberTypePos(i) - 1 || p == MemberTypePos(i)
    ensures i == 0 ==> forall p: nat :: IsRef(t, p) ==> MemberTypePos(0) <= p
    ensures i == Vlen(t) ==> forall p: nat :: IsRef(t, p) ==> p < MemberTypePos(i) - 1
  {
  }

  /** The type IDs of a function prototype are its result and its parameters. */
  lemma ParamRefs(t: Words, i: nat)
    requires WellSized(t) && Kind(t) == KIND_FUNC_PROTO && i <= Vlen(t)
    ensures i < Vlen(t) ==> IsRef(t, ParamTypePos(i))
    ensures forall p: nat :: IsRef(t, p) && p < ParamTypePos(i) + 1 ==> p < ParamTypePos(i) - 1 || p == ParamTypePos(i)
    ensures i == 0 ==> IsRef(t, 2) && forall p: nat :: IsRef(t, p) && p < 3 ==> p == 2
    ensures i == Vlen(t) ==> forall p: nat :: IsRef(t, p) ==> p < ParamTypePos(i) - 1
  {
  }

  lemma SecInfoRefs(t: Words, i: nat)
    requires WellSized(t) && Kind(t) == KIND_DATASEC && i <= Vlen(t)
    ensures i < Vlen(t) ==> IsRef(t, SecInfoTypePos(i))
    ensures forall p: nat :: IsRef(t, p) && p < SecInfoTypePos(i) + 3 ==> p < SecInfoTypePos(i) || p == SecInfoTypePos(i)
    ensures i == 0 ==> forall p: nat :: IsRef(t, p) ==> SecInfoTypePos(0) <= p
    ensures i == Vlen(t) ==> forall p: nat :: IsRef(t, p) ==> p < SecInfoTypePos(i)
  {
  }

  lemma KindOfWellSized(t: Words)
    requires WellSized(t)
    ensures 1 <= Kind(t) <= KIND_ENUM64
    ensures IsPrimKind(Kind(t)) || IsCompositeKind(Kind(t)) || IsRefKind(Kind(t)) || IsVarKind(Kind(t))
  {
  }
}
