/** Signature hashes and structural comparisons of two type records. */
module BtfCompare {
  import opened BtfWords
  import opened TypeMeaning

  /** Two's complement wrap-around of a 64-bit `long`. */
  function WrapLong(x: int): int {
    (x + 0x8000000000000000) % 0x10000000000000000 - 0x8000000000000000
  }

  function HashCombine(h: int, value: int): int {
    WrapLong(h * 31 + value)
  }

  function HashCommon(t: Words): int
    requires 3 <= |t|
  {
    HashCombine(HashCombine(HashCombine(0, t[0]), t[1]), t[2])
  }

  function HashIntDeclTag(t: Words): int
    requires 4 <= |t|
  {
    HashCombine(HashCommon(t), t[3])
  }

  function HashEnum(t: Words): int
    requires 3 <= |t|
  {
    HashCombine(0, t[0])
  }

  function HashArray(t: Words): int
    requires 6 <= |t|
  {
    HashCombine(HashCombine(HashCombine(HashCommon(t), t[3]), t[4]), t[5])
  }

  /** The hash after the first `n` members: name and offset, not the type ID. */
  ghost function StructHash(t: Words, n: nat): int
    requires 3 + 3 * n <= |t|
  {
    if n == 0 then HashCommon(t)
    else HashCombine(HashCombine(StructHash(t, n - 1), t[3 * n]), t[3 * n + 2])
  }

  /** The hash after the first `n` parameters: name and type ID. */
  ghost function FnprotoHash(t: Words, n: nat): int
    requires 3 + 2 * n <= |t|
  {
    if n == 0 then HashCommon(t)
    else HashCombine(HashCombine(FnprotoHash(t, n - 1), t[2 * n + 1]), t[2 * n + 2])
  }

  /** The signature hash under which a canonical record is filed. */
  ghost function SignatureHash(t: Words): int
    requires WellSized(t)
  {
    var k := Kind(t);
    if k == KIND_INT || k == KIND_DECL_TAG then HashIntDeclTag(t)
    else if IsEnumKind(k) then HashEnum(t)
    else if IsCompositeKind(k) then StructHash(t, Vlen(t))
    else if k == KIND_ARRAY then HashArray(t)
    else if k == KIND_FUNC_PROTO then FnprotoHash(t, Vlen(t))
    else HashCommon(t)
  }

  method HashStruct(t: Words) returns (h: int)
    requires WellSized(t) && IsComposite(t)
    ensures h == SignatureHash(t)
  {
    h := HashCommon(t);
    var i := 0;
    while i < Vlen(t)
      invariant 0 <= i <= Vlen(t) && h == StructHash(t, i)
    {
      h := HashCombine(h, t[3 + 3 * i]);
      h := HashCombine(h, t[3 + 3 * i + 2]);
      i := i + 1;
    }
  }

  method HashFnproto(t: Words) returns (h: int)
    requires WellSized(t) && Kind(t) == KIND_FUNC_PROTO
    ensures h == SignatureHash(t)
  {
    h := HashCommon(t);
    var i := 0;
    while i < Vlen(t)
      invariant 0 <= i <= Vlen(t) && h == FnprotoHash(t, i)
    {
      h := HashCombine(h, t[3 + 2 * i]);
      h := HashCombine(h, t[3 + 2 * i + 1]);
      i := i + 1;
    }
  }

  lemma {:induction false} StructHashSame(t: Words, u: Words, n: nat)
    requires SameLabel(t, u) && IsComposite(t) && 3 + 3 * n <= |t|
    ensures StructHash(t, n) == StructHash(u, n)
  {
    if n == 0 {
      assert !IsRef(t, 0) && !IsRef(t, 2);
    } else {
      StructHashSame(t, u, n - 1);
      assert !IsRef(t, 3 * n) && !IsRef(t, 3 * n + 2);
    }
  }

  /** Structs, unions and primitive types that agree on everything but type
      IDs are filed under the same hash. */
  lemma SameLabelSameHash(t: Words, u: Words)
    requires WellSized(t) && WellSized(u) && SameLabel(t, u)
    requires IsComposite(t) || (IsPrimKind(Kind(t)) && !IsFwd(t))
    ensures SignatureHash(t) == SignatureHash(u)
  {
    SameLabelRefs(t, u);
    if IsComposite(t) {
      StructHashSame(t, u, Vlen(t));
    } else {
      SameLabelNoRefs(t, u);
    }
  }

  /** A record without type IDs is determined by its label. */
  lemma SameLabelNoRefs(t: Words, u: Words)
    requires SameLabel(t, u) && IsPrimKind(Kind(t)) && !IsFwd(t)
    ensures t == u
  {
    forall p | 0 <= p < |t| ensures t[p] == u[p] { assert !IsRef(t, p); }
  }

  predicate EqualCommon(t: Words, u: Words)
    requires 3 <= |t| && 3 <= |u|
  {
    t[0] == u[0] && t[1] == u[1] && t[2] == u[2]
  }

  predicate EqualIntTag(t: Words, u: Words)
    requires WellSized(t) && WellSized(u) && (Kind(t) == KIND_INT || Kind(t) == KIND_DECL_TAG)
  {
    EqualCommon(t, u) && t[3] == u[3]
  }

  predicate EqualArray(t: Words, u: Words)
    requires WellSized(t) && WellSized(u) && Kind(t) == KIND_ARRAY
  {
    EqualCommon(t, u) && t[3] == u[3] && t[4] == u[4] && t[5] == u[5]
  }

  predicate CompatArray(t: Words, u: Words)
    requires WellSized(t) && WellSized(u) && Kind(t) == KIND_ARRAY
  {
    EqualCommon(t, u) && t[5] == u[5]
  }

  lemma EqualIntTagMeansEqual(t: Words, u: Words)
    requires WellSized(t) && WellSized(u) && (Kind(t) == KIND_INT || Kind(t) == KIND_DECL_TAG)
    ensures EqualIntTag(t, u) <==> t == u
  {
    if EqualIntTag(t, u) {
      assert t == [t[0], t[1], t[2], t[3]] && u == [u[0], u[1], u[2], u[3]];
    }
  }

  /** Records that are all header are compared completely by btf_equal_common. */
  lemma EqualCommonMeansEqual(t: Words, u: Words)
    requires WellSized(t) && WellSized(u)
    requires IsSingleRefKind(Kind(t)) || Kind(t) == KIND_FWD || Kind(t) == KIND_FLOAT
    ensures EqualCommon(t, u) <==> t == u
  {
    if EqualCommon(t, u) {
      assert t == [t[0], t[1], t[2]] && u == [u[0], u[1], u[2]];
    }
  }

  lemma EqualArrayMeansEqual(t: Words, u: Words)
    requires WellSized(t) && WellSized(u) && Kind(t) == KIND_ARRAY
    ensures EqualArray(t, u) <==> t == u
    ensures CompatArray(t, u) <==> SameLabel(t, u)
  {
    if EqualArray(t, u) {
      assert t == [t[0], t[1], t[2], t[3], t[4], t[5]] && u == [u[0], u[1], u[2], u[3], u[4], u[5]];
    }
    if SameLabel(t, u) {
      assert !IsRef(t, 0) && !IsRef(t, 2) && !IsRef(t, 5);
    }
  }

  /** btf_equal_enum: the records are equal word for word. */
  method EqualEnum(t: Words, u: Words) returns (eq: bool)
    requires WellSized(t) && WellSized(u) && IsAnyEnum(t)
    ensures eq <==> t == u
  {
    if !EqualCommon(t, u) {
      return false;
    }
    var width := if Kind(t) == KIND_ENUM then 2 else 3;
    var at, i := 3, 0;
    while i < Vlen(t)
      invariant 0 <= i <= Vlen(t) && at == 3 + width * i
      invariant t[..at] == u[..at]
    {
      if t[at] != u[at] || t[at + 1] != u[at + 1] || (width == 3 && t[at + 2] != u[at + 2]) {
        return false;
      }
      at := at + width;
      i := i + 1;
    }
    assert t == t[..at] && u == u[..at];
    return true;
  }

  /** What btf_compat_enum accepts: a forward-declared enum matches any enum of its name. */
  ghost predicate EnumsCompatible(t: Words, u: Words)
    requires WellSized(t) && WellSized(u)
  {
    if !IsEnumFwd(t) && !IsEnumFwd(u) then t == u
    else t[0] == u[0] && IsAnyEnum(t) && IsAnyEnum(u)
  }

  method CompatEnum(t: Words, u: Words) returns (eq: bool)
    requires WellSized(t) && WellSized(u) && IsAnyEnum(t)
    ensures eq <==> EnumsCompatible(t, u)
  {
    if !IsEnumFwd(t) && !IsEnumFwd(u) {
      eq := EqualEnum(t, u);
    } else {
      eq := t[0] == u[0] && IsAnyEnum(t) && IsAnyEnum(u);
    }
  }

  /** btf_shallow_equal_struct: equal in everything but the members' type IDs. */
  method ShallowEqualStruct(t: Words, u: Words) returns (eq: bool)
    requires WellSized(t) && WellSized(u) && IsComposite(t)
    ensures eq <==> SameLabel(t, u)
  {
    if !EqualCommon(t, u) {
      assert !IsRef(t, 0) && !IsRef(t, 1) && !IsRef(t, 2);
      return false;
    }
    var i := 0;
    while i < Vlen(t)
      invariant 0 <= i <= Vlen(t)
      invariant forall p: nat :: p < 3 + 3 * i && !IsRef(t, p) ==> t[p] == u[p]
    {
      var at := 3 + 3 * i;
      if t[at] != u[at] || t[at + 2] != u[at + 2] {
        assert !IsRef(t, at) && !IsRef(t, at + 2);
        return false;
      }
      assert IsRef(t, at + 1);
      i := i + 1;
    }
    return true;
  }

  /** btf_equal_fnproto: the records are equal word for word. */
  method EqualFnproto(t: Words, u: Words) returns (eq: bool)
    requires WellSized(t) && WellSized(u) && Kind(t) == KIND_FUNC_PROTO
    ensures eq <==> t == u
  {
    if !EqualCommon(t, u) {
      return false;
    }
    var i := 0;
    while i < Vlen(t)
      invariant 0 <= i <= Vlen(t) && t[..3 + 2 * i] == u[..3 + 2 * i]
    {
      var at := 3 + 2 * i;
      if t[at] != u[at] || t[at + 1] != u[at + 1] {
        return false;
      }
      i := i + 1;
    }
    assert t == t[..3 + 2 * i] && u == u[..3 + 2 * i];
    return true;
  }

  /** btf_compat_fnproto: equal in everything but the type IDs. */
  method CompatFnproto(t: Words, u: Words) returns (eq: bool)
    requires WellSized(t) && WellSized(u) && Kind(t) == KIND_FUNC_PROTO
    ensures eq <==> SameLabel(t, u)
  {
    if t[0] != u[0] || t[1] != u[1] {
      assert !IsRef(t, 0) && !IsRef(t, 1);
      return false;
    }
    assert IsRef(t, 2);
    var i := 0;
    while i < Vlen(t)
      invariant 0 <= i <= Vlen(t)
      invariant forall p: nat :: p < 3 + 2 * i && !IsRef(t, p) ==> t[p] == u[p]
    {
      var at := 3 + 2 * i;
      if t[at] != u[at] {
        assert !IsRef(t, at);
        return false;
      }
      assert IsRef(t, at + 1);
      i := i + 1;
    }
    return true;
  }
}
