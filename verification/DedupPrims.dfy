/** btf_dedup_prim_types: deduplication of the types that refer to no other type. */
module DedupPrims {
  import opened BtfWords
  import opened IdMaps
  import opened TypeMeaning
  import opened BtfSection
  import opened BtfCompare
  import opened DedupState
  import opened DedupEquiv

  /** Records without references that are equal, or enums one of which is only
      declared, mean the same. */
  lemma PrimsBisim(g: TypeGraph, a: nat, b: nat)
    requires WellFormed(g) && a < |g| && b < |g| && 3 <= |g[a]| && 3 <= |g[b]|
    requires g[a] == g[b] ||
             (g[a][0] == g[b][0] && IsAnyEnum(g[a]) && IsAnyEnum(g[b]) && (IsEnumFwd(g[a]) || IsEnumFwd(g[b])))
    ensures Bisim(g, a, b)
  {
    if g[a] == g[b] {
      EqualWordsBisim(g, a, b);
    } else {
      WordsOfId(g, a);
      WordsOfId(g, b);
      TagPair(g, a, b);
    }
  }

  /** Between two types of this pass, every link leads to an ID that is itself
      decided, and every candidate but a forward-declared enum is canonical. */
  ghost predicate PrimLinks(g: TypeGraph, m: IdMap, table: Table)
    requires WellFormed(g)
  {
    && InRange(m, |g|)
    && (forall i :: 0 <= i < |m| && Mapped(m[i]) ==> Mapped(m[m[i]]))
    && (forall h, x: nat :: InTable(table, h, x) ==>
          1 <= x < |g| && Mapped(m[x]) && IsPrimKind(Kind(g[x])) && (!IsEnumFwd(g[x]) ==> m[x] == x))
  }

  /** The candidate at hand: it may already have been redirected to this type. */
  ghost predicate Redirected(g: TypeGraph, m0: IdMap, m: IdMap, id: nat)
    requires WellFormed(g) && id < |g|
  {
    && |m| == |m0| == |g|
    && forall i :: 0 <= i < |g| ==>
         (m[i] == m0[i] ||
          (m[i] == id && i != id && 3 <= |g[i]| && IsEnumFwd(g[i]) && !IsEnumFwd(g[id]) && Mapped(m0[i])))
  }

  /** Every canonical type is filed under its signature hash. */
  ghost predicate Filed(g: TypeGraph, m: IdMap, table: Table)
    requires WellFormed(g) && |m| == |g|
  {
    forall i :: 1 <= i < |g| && m[i] == i && !IsVarKind(Kind(g[i])) ==>
      InTable(table, SignatureHash(g[i]), i)
  }

  /** No two canonical types of these kinds mean the same. */
  ghost predicate Unique(g: TypeGraph, m: IdMap, composite: bool)
    requires WellFormed(g) && |m| == |g|
  {
    forall i, j ::
      (1 <= i < |g| && 1 <= j < |g| && m[i] == i && m[j] == j && Bisim(g, i, j) &&
       (if composite then IsComposite(g[i]) else IsPrimKind(Kind(g[i])))) ==> i == j
  }

  /** Which IDs this pass has decided: the variables, and the primitive types below `n`. */
  ghost predicate PrimsDone(g: TypeGraph, m: IdMap, n: nat)
    requires WellFormed(g) && |m| == |g|
  {
    forall i :: 0 <= i < |g| ==>
      (Mapped(m[i]) <==> i == 0 || IsVarKind(Kind(g[i])) || (i < n && IsPrimKind(Kind(g[i])))) &&
      (i == 0 || IsVarKind(Kind(g[i])) ==> m[i] == i) &&
      (Mapped(m[i]) || m[i] == BTF_UNPROCESSED_ID)
  }

  /** What holds of the map and the table after the types below `n` have been through the pass. */
  ghost predicate PrimInv(g: TypeGraph, m: IdMap, table: Table, n: nat)
    requires WellFormed(g)
  {
    && Sound(g, m) && PrimLinks(g, m, table) && PrimsDone(g, m, n) && Filed(g, m, table)
    && EnumsSettled(g, m, n) && (Complete(g) ==> Unique(g, m, false))
  }

  ghost predicate PrimState(d: Dedup, n: nat)
    reads d`table, d.btf, d.btf.data, d.btf.offs, d.typeMap
  {
    d.Valid() && d.Untouched() && PrimInv(d.orig, d.typeMap[..], d.table, n)
  }

  /** What the search through the candidates for type `id` ends with. */
  ghost predicate Chosen(g: TypeGraph, m0: IdMap, m: IdMap, table: Table, h: int, id: nat, newId: nat)
    requires WellFormed(g) && 1 <= id < |g|
  {
    && Redirected(g, m0, m, id)
    && (if newId == id then forall c: nat :: InTable(table, h, c) && c < |g| ==> g[c] != g[id]
        else InTable(table, h, newId) && newId < |g| &&
             (g[newId] == g[id] ||
              (IsEnumFwd(g[id]) && 3 <= |g[newId]| && IsAnyEnum(g[newId]) && g[newId][0] == g[id][0])))
    && (IsEnumFwd(g[id]) ==> m == m0)
    && (Complete(g) ==> m == m0)
    && (newId == id ==> forall c: nat :: InTable(table, h, c) && SameNamedEnums(g, c, id) ==> IsFullEnum(g, id) && (IsFullEnum(g, c) || m[c] == id))
  }

  predicate IsFullEnum(g: TypeGraph, x: nat) { x < |g| && 3 <= |g[x]| && IsAnyEnum(g[x]) && !IsEnumFwd(g[x]) }

  predicate SameNamedEnums(g: TypeGraph, x: nat, y: nat) {
    x < |g| && y < |g| && 3 <= |g[x]| && 3 <= |g[y]| && IsAnyEnum(g[x]) && IsAnyEnum(g[y]) && g[x][0] == g[y][0]
  }

  /** Enums with enumerators are linked to equal ones only; and a declared-only enum
      below `n` is not canonical if below `n` there is one of its name with enumerators. */
  ghost predicate EnumsSettled(g: TypeGraph, m: IdMap, n: nat)
    requires WellFormed(g) && |m| == |g|
  {
    && (forall i :: 0 <= i < |g| && IsFullEnum(g, i) && Mapped(m[i]) ==> m[i] < |g| && g[m[i]] == g[i])
    && (forall x, y :: 1 <= x < n && 1 <= y < n && SameNamedEnums(g, x, y) && !IsFullEnum(g, x) && IsFullEnum(g, y) ==> m[x] != x)
  }

  lemma {:induction false} FullRoot(g: TypeGraph, m: IdMap, i: nat, n: nat)
    requires WellFormed(g) && |m| == |g| && EnumsSettled(g, m, 0) && InRange(m, |m|) && i < |m| && IsFullEnum(g, i) && Ends(m, i, n)
    ensures g[RootWithin(m, i, n)] == g[i]
    decreases n
  {
    if !IsRoot(m, i) { FullRoot(g, m, m[i], n - 1); }
  }

  /** A full enum that has been decided has an equal canonical one in the bucket of its name. */
  lemma FullFiled(g: TypeGraph, m: IdMap, table: Table, y: nat) returns (r: nat)
    requires WellFormed(g) && Sound(g, m) && PrimLinks(g, m, table) && Filed(g, m, table) && EnumsSettled(g, m, 0)
    requires 1 <= y < |g| && IsFullEnum(g, y) && Mapped(m[y])
    ensures InTable(table, SignatureHash(g[y]), r) && r < |g| && g[r] == g[y]
  {
    r := Root(m, y);
    assert Ends(m, y, Height(m));
    FullRoot(g, m, y, Height(m));
    MappedRoot(m, y, Height(m));
    WordsOfId(g, y);
  }

  lemma SameNameSameBucket(g: TypeGraph, x: nat, y: nat)
    requires WellFormed(g) && x < |g| && y < |g| && SameNamedEnums(g, x, y)
    ensures SignatureHash(g[x]) == SignatureHash(g[y])
  {
  }

  lemma ChosenSettled(g: TypeGraph, m0: IdMap, table: Table, m: IdMap, id: nat, newId: nat)
    requires WellFormed(g) && 1 <= id < |g| && newId < |g| && IsPrimKind(Kind(g[id]))
    requires PrimInv(g, m0, table, id) && Chosen(g, m0, m, table, SignatureHash(g[id]), id, newId)
    ensures EnumsSettled(g, m[id := newId], id + 1)
  {
    hide SignatureHash, Unique, Bisim, KindOf, InTable, Forest;
    var m', h := m[id := newId], SignatureHash(g[id]);
    forall x, y | 1 <= x < id + 1 && 1 <= y < id + 1 && SameNamedEnums(g, x, y) && !IsFullEnum(g, x) && IsFullEnum(g, y)
      ensures m'[x] != x
    {
      SameNameSameBucket(g, x, y);
      if x == id {
        DeclaredNotAlone(g, m0, table, m, id, newId, y);
      } else if y == id && newId != id {
        assert newId < id && SameNamedEnums(g, x, newId) && IsFullEnum(g, newId);
      } else if y == id && m0[x] == x {
        FiledEnum(g, m0, table, x);
      }
    }
  }

  /** A declared-only enum finds one with enumerators of its name, if there is one. */
  lemma DeclaredNotAlone(g: TypeGraph, m0: IdMap, table: Table, m: IdMap, id: nat, newId: nat, y: nat)
    requires WellFormed(g) && 1 <= id < |g| && newId < |g| && IsPrimKind(Kind(g[id])) && 1 <= y <= id
    requires PrimInv(g, m0, table, id) && Chosen(g, m0, m, table, SignatureHash(g[id]), id, newId)
    requires SameNamedEnums(g, id, y) && !IsFullEnum(g, id) && IsFullEnum(g, y)
    ensures newId != id
  {
    hide SignatureHash, Unique, Bisim, KindOf, InTable, Forest;
    var r := FullFiled(g, m0, table, y);
    SameNameSameBucket(g, id, y);
    assert SameNamedEnums(g, r, id);
  }

  lemma FiledEnum(g: TypeGraph, m: IdMap, table: Table, x: nat)
    requires WellFormed(g) && |m| == |g| && Filed(g, m, table) && 1 <= x < |g| && 3 <= |g[x]| && IsAnyEnum(g[x]) && m[x] == x
    ensures InTable(table, SignatureHash(g[x]), x)
  {
  }

  /** Recording the choice keeps the map sound. */
  lemma ChosenSound(g: TypeGraph, m0: IdMap, table: Table, m: IdMap, h: int, id: nat, newId: nat)
    requires WellFormed(g) && 1 <= id < |g| && newId < |g|
    requires Sound(g, m0) && Sound(g, m) && PrimLinks(g, m0, table) && !Mapped(m0[id])
    requires Chosen(g, m0, m, table, h, id, newId)
    ensures Sound(g, m[id := newId])
  {
    var m' := m[id := newId];
    if newId == id {
      MakeRoot(m, id, id);
      BisimRefl(g, id);
    } else {
      PrimsBisim(g, id, newId);
      if IsEnumFwd(g[id]) {
        assert Ends(m0, newId, Height(m0));
        MappedRoot(m0, newId, Height(m0));
        LinkRoot(m, id, newId);
      } else {
        assert m[newId] == newId;
        LinkToRoot(m, id, newId);
      }
    }
  }

  /** Recording the choice keeps every link leading to a decided ID. */
  lemma ChosenLinks(g: TypeGraph, m0: IdMap, table: Table, m: IdMap, h: int, id: nat, newId: nat)
    requires WellFormed(g) && 1 <= id < |g| && newId < |g|
    requires PrimLinks(g, m0, table) && !Mapped(m0[id]) && IsPrimKind(Kind(g[id]))
    requires Chosen(g, m0, m, table, h, id, newId)
    ensures PrimLinks(g, m[id := newId], TableAfter(table, h, id, newId))
  {
    FiledEntry(table, h, id, newId);
  }

  /** Recording the choice keeps the canonical types filed and without duplicates. */
  lemma ChosenUnique(g: TypeGraph, m0: IdMap, table: Table, m: IdMap, h: int, id: nat, newId: nat)
    requires WellFormed(g) && 1 <= id < |g| && newId < |g|
    requires PrimLinks(g, m0, table) && !Mapped(m0[id]) && IsPrimKind(Kind(g[id])) && h == SignatureHash(g[id])
    requires Chosen(g, m0, m, table, h, id, newId)
    requires Filed(g, m0, table)
    ensures Filed(g, m[id := newId], TableAfter(table, h, id, newId))
    ensures Complete(g) && Unique(g, m0, false) ==> Unique(g, m[id := newId], false)
  {
    FiledEntry(table, h, id, newId);
    if Complete(g) && Unique(g, m0, false) {
      forall j | 1 <= j < |g| && m0[j] == j && newId == id && j != id
        ensures !Bisim(g, id, j) && !Bisim(g, j, id)
      {
        if Bisim(g, j, id) { BisimSym(g, j, id); }
        if Bisim(g, id, j) {
          BisimUnfold(g, id, j);
          WordsOfId(g, id);
          SameLabelRefs(g[id], g[j]);
          SameLabelNoRefs(g[id], g[j]);
        }
      }
    }
  }

  /** The first `k` candidates differ from the type. */
  ghost predicate NoneEqual(g: TypeGraph, cands: seq<nat>, k: nat, id: nat)
    requires k <= |cands| && id < |g|
  {
    forall j :: 0 <= j < k ==> cands[j] < |g| && g[cands[j]] != g[id]
  }

  ghost predicate CandsOk(g: TypeGraph, m: IdMap, cands: seq<nat>, table: Table, h: int, id: nat) {
    |m| == |g| &&
    forall j :: 0 <= j < |cands| ==> 1 <= cands[j] < |g| && cands[j] != id && InTable(table, h, cands[j]) && Mapped(m[cands[j]])
  }

  /** The candidates for an INT, FWD or FLOAT: the first equal one wins. */
  method FindEqualPrim(d: Dedup, id: nat, cands: seq<nat>, ghost h: int) returns (newId: nat)
    requires d.Valid() && d.Untouched() && 1 <= id < |d.orig|
    requires IsPrimKind(Kind(d.orig[id])) && !IsAnyEnum(d.orig[id])
    requires CandsOk(d.orig, d.typeMap[..], cands, d.table, h, id)
    ensures newId < |d.orig|
    ensures if newId == id then NoneEqual(d.orig, cands, |cands|, id)
            else InTable(d.table, h, newId) && d.orig[newId] == d.orig[id]
  {
    hide Nested, KindOf, VlenOf, SizeOf, IsRefPos, NoneEqual, WellSized;
    newId := id;
    var t := d.btf.TypeById(id);
    WordsOfId(d.orig, id);
    NoneYet(d.orig, cands, id);
    var k := 0;
    while k < |cands|
      invariant 0 <= k <= |cands| && NoneEqual(d.orig, cands, k, id)
    {
      var cand := d.btf.TypeById(cands[k]);
      WordsOfId(d.orig, cands[k]);
      var same := EqualPrim(t, cand);
      if same {
        newId := cands[k];
        return;
      }
      NoneMore(d.orig, cands, k, id);
      k := k + 1;
    }
  }

  lemma NoneYet(g: TypeGraph, cands: seq<nat>, id: nat)
    requires id < |g|
    ensures NoneEqual(g, cands, 0, id)
  {
  }

  lemma NoneMore(g: TypeGraph, cands: seq<nat>, k: nat, id: nat)
    requires k < |cands| && id < |g| && NoneEqual(g, cands, k, id) && cands[k] < |g| && g[cands[k]] != g[id]
    ensures NoneEqual(g, cands, k + 1, id)
  {
  }

  /** btf_equal_int_tag for INT, btf_equal_common for FWD and FLOAT. */
  method EqualPrim(t: Words, cand: Words) returns (same: bool)
    requires WellSized(t) && WellSized(cand) && IsPrimKind(Kind(t)) && !IsAnyEnum(t)
    ensures same <==> t == cand
  {
    if Kind(t) == KIND_INT {
      EqualIntTagMeansEqual(t, cand);
      same := EqualIntTag(t, cand);
    } else {
      EqualCommonMeansEqual(t, cand);
      same := EqualCommon(t, cand);
    }
  }

  /** The candidates for an ENUM or ENUM64.  A forward-declared enum takes the
      first enum of its name; a full one redirects the forward-declared
      candidates it passes to itself. */
  method FindEnum(d: Dedup, id: nat, cands: seq<nat>, ghost h: int) returns (newId: nat)
    requires d.Valid() && d.Untouched() && 1 <= id < |d.orig| && IsAnyEnum(d.orig[id])
    requires Sound(d.orig, d.typeMap[..]) && !Mapped(d.typeMap[id])
    requires CandsOk(d.orig, d.typeMap[..], cands, d.table, h, id)
    modifies d.typeMap
    ensures newId < |d.orig| && Sound(d.orig, d.typeMap[..])
    ensures newId == id || Chosen(d.orig, old(d.typeMap[..]), d.typeMap[..], d.table, h, id, newId)
    ensures newId == id ==> Passing(d.orig, old(d.typeMap[..]), d.typeMap[..], cands, |cands|, id)
  {
    hide Nested, KindOf, Sound, Passing, Chosen, EnumsCompatible, VlenOf, SizeOf, IsRefPos, Forest, NoneEqual, InTable, Bisim;
    ghost var g, m0 := d.orig, d.typeMap[..];
    newId := id;
    PassingStart(g, m0, cands, id);
    var k := 0;
    while k < |cands|
      invariant 0 <= k <= |cands|
      invariant Sound(g, d.typeMap[..]) && Passing(g, m0, d.typeMap[..], cands, k, id)
    {
      var taken := TryEnum(d, id, cands, k, m0, h);
      if taken {
        return cands[k];
      }
      k := k + 1;
    }
  }

  /** One candidate for an enum: taken, or passed. */
  method TryEnum(d: Dedup, id: nat, cands: seq<nat>, k: nat, ghost m0: IdMap, ghost h: int) returns (taken: bool)
    requires d.Valid() && d.Untouched() && 1 <= id < |d.orig| && IsAnyEnum(d.orig[id]) && k < |cands|
    requires |m0| == |d.orig| && Sound(d.orig, d.typeMap[..]) && !Mapped(m0[id])
    requires CandsOk(d.orig, m0, cands, d.table, h, id) && Passing(d.orig, m0, d.typeMap[..], cands, k, id)
    modifies d.typeMap
    ensures Sound(d.orig, d.typeMap[..])
    ensures if taken then cands[k] < |d.orig| && Chosen(d.orig, m0, d.typeMap[..], d.table, h, id, cands[k])
            else Passing(d.orig, m0, d.typeMap[..], cands, k + 1, id)
  {
    hide Nested, KindOf, Sound, Passing, Chosen, EnumsCompatible, VlenOf, SizeOf, IsRefPos, Forest, NoneEqual, InTable, Bisim;
    ghost var g, m := d.orig, d.typeMap[..];
    var candId := cands[k];
    var t := d.btf.TypeById(id);
    var cand := d.btf.TypeById(candId);
    WordsOfId(g, id);
    WordsOfId(g, candId);
    var same := EqualEnum(t, cand);
    if same {
      MatchedChosen(g, m0, m, cands, d.table, h, k, id);
      return true;
    }
    var compat := CompatEnum(t, cand);
    if compat {
      if IsEnumFwd(t) {
        // this type is only declared: the candidate stands for it
        MatchedChosen(g, m0, m, cands, d.table, h, k, id);
        return true;
      }
      // the candidate is only declared: this type stands for it
      RedirectStep(g, m0, m, cands, d.table, h, k, id);
      d.typeMap[candId] := id;
      assert d.typeMap[..] == m[candId := id];
    } else {
      Incompatible(g, candId, id);
      PassingStep(g, m0, m, cands, k, id);
    }
    return false;
  }

  lemma Incompatible(g: TypeGraph, c: nat, id: nat)
    requires c < |g| && id < |g| && WellSized(g[c]) && WellSized(g[id]) && !EnumsCompatible(g[id], g[c])
    ensures SameNamedEnums(g, c, id) ==> IsFullEnum(g, id) && IsFullEnum(g, c)
  {
  }

  /** The search has passed `k` candidates without a match. */
  ghost predicate Passing(g: TypeGraph, m0: IdMap, m: IdMap, cands: seq<nat>, k: nat, id: nat)
    requires WellFormed(g) && 1 <= id < |g| && k <= |cands|
  {
    && Redirected(g, m0, m, id) && NoneEqual(g, cands, k, id) && EnumsPassed(g, m, cands, k, id)
    && (IsEnumFwd(g[id]) ==> m == m0)
    && (Complete(g) ==> m == m0)
  }

  /** Of the first `k` candidates, those that are enums of the type's name have been
      redirected to it if they are only declared; and it is not only declared itself. */
  ghost predicate EnumsPassed(g: TypeGraph, m: IdMap, cands: seq<nat>, k: nat, id: nat)
    requires k <= |cands| && |m| == |g|
  {
    forall j :: 0 <= j < k && SameNamedEnums(g, cands[j], id) ==> IsFullEnum(g, id) && (IsFullEnum(g, cands[j]) || m[cands[j]] == id)
  }

  lemma PassingStart(g: TypeGraph, m0: IdMap, cands: seq<nat>, id: nat)
    requires WellFormed(g) && 1 <= id < |g| && |m0| == |g|
    ensures Passing(g, m0, m0, cands, 0, id)
  {
  }

  lemma PassingStep(g: TypeGraph, m0: IdMap, m: IdMap, cands: seq<nat>, k: nat, id: nat)
    requires WellFormed(g) && 1 <= id < |g| && k < |cands| && Passing(g, m0, m, cands, k, id)
    requires cands[k] < |g| && g[cands[k]] != g[id]
    requires SameNamedEnums(g, cands[k], id) ==> IsFullEnum(g, id) && IsFullEnum(g, cands[k])
    ensures Passing(g, m0, m, cands, k + 1, id)
  {
  }

  lemma PassingEqual(g: TypeGraph, m0: IdMap, cands: seq<nat>, id: nat)
    requires WellFormed(g) && 1 <= id < |g| && |m0| == |g| && NoneEqual(g, cands, |cands|, id) && 3 <= |g[id]| && !IsAnyEnum(g[id])
    ensures Passing(g, m0, m0, cands, |cands|, id)
  {
  }

  lemma FoundChosen(g: TypeGraph, m0: IdMap, table: Table, h: int, id: nat, newId: nat)
    requires WellFormed(g) && 1 <= id < |g| && |m0| == |g| && newId < |g| && newId != id
    requires InTable(table, h, newId) && g[newId] == g[id]
    ensures Chosen(g, m0, m0, table, h, id, newId)
  {
  }

  lemma MatchedChosen(g: TypeGraph, m0: IdMap, m: IdMap, cands: seq<nat>, table: Table, h: int, k: nat, id: nat)
    requires WellFormed(g) && 1 <= id < |g| && k < |cands| && CandsOk(g, m0, cands, table, h, id)
    requires Passing(g, m0, m, cands, k, id)
    requires WellSized(g[id]) && WellSized(g[cands[k]]) && IsAnyEnum(g[id])
    requires g[cands[k]] == g[id] || (IsEnumFwd(g[id]) && EnumsCompatible(g[id], g[cands[k]]))
    ensures Chosen(g, m0, m, table, h, id, cands[k])
  {
  }

  lemma RedirectStep(g: TypeGraph, m0: IdMap, m: IdMap, cands: seq<nat>, table: Table, h: int, k: nat, id: nat)
    requires WellFormed(g) && 1 <= id < |g| && k < |cands| && CandsOk(g, m0, cands, table, h, id)
    requires Passing(g, m0, m, cands, k, id) && Sound(g, m) && !Mapped(m0[id])
    requires WellSized(g[id]) && WellSized(g[cands[k]]) && IsAnyEnum(g[id])
    requires g[cands[k]] != g[id] && !IsEnumFwd(g[id]) && EnumsCompatible(g[id], g[cands[k]])
    ensures Sound(g, m[cands[k] := id]) && Passing(g, m0, m[cands[k] := id], cands, k + 1, id)
  {
    WordsOfId(g, cands[k]);
    assert m[id] == m0[id];
    PrimsBisim(g, cands[k], id);
    LinkToRoot(m, cands[k], id);
  }

  lemma PassedAll(g: TypeGraph, m0: IdMap, m: IdMap, cands: seq<nat>, table: Table, h: int, id: nat)
    requires WellFormed(g) && 1 <= id < |g| && Passing(g, m0, m, cands, |cands|, id)
    requires forall x: nat :: InTable(table, h, x) ==> x in cands
    ensures Chosen(g, m0, m, table, h, id, id)
  {
  }

  lemma ChosenDone(g: TypeGraph, m0: IdMap, m: IdMap, table: Table, h: int, id: nat, newId: nat)
    requires WellFormed(g) && 1 <= id < |g| && newId < |g|
    requires Chosen(g, m0, m, table, h, id, newId) && PrimsDone(g, m0, id) && IsPrimKind(Kind(g[id]))
    ensures PrimsDone(g, m[id := newId], id + 1)
  {
  }

  lemma ChosenInv(g: TypeGraph, m0: IdMap, table: Table, m: IdMap, id: nat, newId: nat)
    requires WellFormed(g) && 1 <= id < |g| && newId < |g| && IsPrimKind(Kind(g[id]))
    requires PrimInv(g, m0, table, id) && Sound(g, m)
    requires Chosen(g, m0, m, table, SignatureHash(g[id]), id, newId)
    ensures PrimInv(g, m[id := newId], TableAfter(table, SignatureHash(g[id]), id, newId), id + 1)
  {
    var h := SignatureHash(g[id]);
    ChosenSound(g, m0, table, m, h, id, newId);
    ChosenLinks(g, m0, table, m, h, id, newId);
    ChosenUnique(g, m0, table, m, h, id, newId);
    ChosenDone(g, m0, m, table, h, id, newId);
    ChosenSettled(g, m0, table, m, id, newId);
  }

  /** Types of other kinds are left for later passes. */
  lemma SkipInv(g: TypeGraph, m: IdMap, table: Table, id: nat)
    requires WellFormed(g) && 1 <= id < |g| && !IsPrimKind(Kind(g[id])) && PrimInv(g, m, table, id)
    ensures PrimInv(g, m, table, id + 1)
  {
  }

  lemma CandidatesOk(g: TypeGraph, m: IdMap, table: Table, h: int, cands: seq<nat>, id: nat)
    requires WellFormed(g) && PrimLinks(g, m, table) && id < |g| && !Mapped(m[id])
    requires forall x: nat :: x in cands <==> InTable(table, h, x)
    ensures CandsOk(g, m, cands, table, h, id)
  {
    forall j | 0 <= j < |cands| ensures InTable(table, h, cands[j]) { assert cands[j] in cands; }
  }

  lemma NotYetDecided(g: TypeGraph, m: IdMap, table: Table, id: nat)
    requires WellFormed(g) && 1 <= id < |g| && PrimInv(g, m, table, id) && IsPrimKind(Kind(g[id]))
    ensures |m| == |g| && !Mapped(m[id]) && Sound(g, m) && PrimLinks(g, m, table)
  {
  }

  /** The signature hash of a record of a primitive kind. */
  method HashPrim(t: Words) returns (h: int)
    requires WellSized(t) && IsPrimKind(Kind(t))
    ensures h == SignatureHash(t)
  {
    h := if IsAnyEnum(t) then HashEnum(t) else if Kind(t) == KIND_INT then HashIntDeclTag(t) else HashCommon(t);
  }

  /** The choice for one primitive type. */
  method ChoosePrim(d: Dedup, id: nat) returns (newId: nat, h: int)
    requires 1 <= id < |d.orig| && PrimState(d, id) && IsPrimKind(Kind(d.orig[id]))
    modifies d.typeMap
    ensures d.Valid() && d.Untouched() && newId < |d.orig| && h == SignatureHash(d.orig[id])
    ensures Sound(d.orig, d.typeMap[..])
    ensures Chosen(d.orig, old(d.typeMap[..]), d.typeMap[..], d.table, h, id, newId)
  {
    hide PrimInv, Chosen, Passing, CandsOk, NoneEqual, Nested, Sound, PrimLinks, SignatureHash, KindOf, SizeOf, HashCombine, InTable, VlenOf, IsRefPos, Forest, HypotOk;
    ghost var g, m0 := d.orig, d.typeMap[..];
    var t := d.btf.TypeById(id);
    WordsOfId(g, id);
    NotYetDecided(g, m0, d.table, id);
    h := HashPrim(t);
    var cands := d.Candidates(h);
    CandidatesOk(g, m0, d.table, h, cands, id);
    newId := ChooseAmong(d, id, cands, h);
  }

  /** The choice among the candidates. */
  method ChooseAmong(d: Dedup, id: nat, cands: seq<nat>, ghost h: int) returns (newId: nat)
    requires d.Valid() && d.Untouched() && 1 <= id < |d.orig| && IsPrimKind(Kind(d.orig[id]))
    requires Sound(d.orig, d.typeMap[..]) && !Mapped(d.typeMap[id])
    requires CandsOk(d.orig, d.typeMap[..], cands, d.table, h, id) && forall x: nat :: InTable(d.table, h, x) ==> x in cands
    modifies d.typeMap
    ensures newId < |d.orig| && Sound(d.orig, d.typeMap[..])
    ensures Chosen(d.orig, old(d.typeMap[..]), d.typeMap[..], d.table, h, id, newId)
  {
    hide Chosen, Passing, CandsOk, NoneEqual, Nested, Sound, KindOf, SizeOf, InTable, VlenOf, IsRefPos, Forest;
    ghost var g, m0 := d.orig, d.typeMap[..];
    var t := d.btf.TypeById(id);
    if IsAnyEnum(t) {
      newId := FindEnum(d, id, cands, h);
      if newId == id {
        PassedAll(g, m0, d.typeMap[..], cands, d.table, h, id);
      }
    } else {
      newId := FindEqualPrim(d, id, cands, h);
      if newId == id {
        WordsOfId(g, id);
        PassingEqual(g, m0, cands, id);
        PassedAll(g, m0, m0, cands, d.table, h, id);
      } else {
        FoundChosen(g, m0, d.table, h, id, newId);
      }
    }
  }

  /** btf_dedup_prim_type */
  method DedupPrimType(d: Dedup, id: nat)
    requires 1 <= id < |d.orig| && PrimState(d, id)
    modifies d.typeMap, d`table
    ensures PrimState(d, id + 1)
  {
    hide PrimInv, Chosen, Nested, Sound;
    ghost var g, m0, table0 := d.orig, d.typeMap[..], d.table;
    var t := d.btf.TypeById(id);
    if !IsPrimKind(Kind(t)) {
      SkipInv(g, m0, table0, id);
      return;
    }
    var newId, h := ChoosePrim(d, id);
    ghost var m := d.typeMap[..];
    ChosenInv(g, m0, table0, m, id, newId);
    d.typeMap[id] := newId;
    assert d.typeMap[..] == m[id := newId];
    if id == newId {
      d.TableAdd(h, id);
    }
    assert d.table == TableAfter(table0, h, id, newId);
  }

  /** btf_dedup_prim_types */
  method DedupPrimTypes(d: Dedup)
    requires PrimState(d, 1)
    modifies d.typeMap, d`table
    ensures PrimState(d, |d.orig|)
  {
    hide PrimInv, Nested;
    var id := 1;
    while id < d.btf.nr + 1
      invariant 1 <= id <= |d.orig| && d.btf.nr + 1 == |d.orig|
      invariant PrimState(d, id)
    {
      DedupPrimType(d, id);
      id := id + 1;
    }
  }
}
