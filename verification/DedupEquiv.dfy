/** btf_dedup_is_equiv: the side-by-side traversal of two type graphs that
    decides whether a struct or union duplicates a canonical one. */
module DedupEquiv {
  import opened BtfWords
  import opened IdMaps
  import opened TypeMeaning
  import opened BtfSection
  import opened BtfCompare
  import opened DedupState

  // ------------------------------------------------------- nodes of the graph

  lemma SameLabelSameNodes(g: TypeGraph, a: nat, b: nat)
    requires WellFormed(g) && a < |g| && b < |g| && SameLabel(g[a], g[b])
    ensures SameNodes(g, a, b)
    ensures forall p: nat :: Followed(g, a, p) ==> IsRef(g[a], p) && IsRef(g[b], p)
  {
    SameLabelRefs(g[a], g[b]);
    assert !IsRef(g[a], 0);
    forall v: View ensures SameNode(v, g[a], g[b]) {}
  }

  /** Two tags of the same class and name, one of them incomplete: leaves of the tag view. */
  lemma TagPair(g: TypeGraph, a: nat, b: nat)
    requires WellFormed(g) && a < |g| && b < |g| && !Complete(g)
    requires 3 <= |g[a]| && 3 <= |g[b]| && ClassOf(g[a]) == ClassOf(g[b]) != NoTag && g[a][0] == g[b][0]
    ensures SameNodes(g, a, b) && Bisim(g, a, b)
    ensures forall p: nat :: !Followed(g, a, p)
  {
    forall v: View | Binding(v, g) ensures SameNode(v, g[a], g[b]) {}
    forall p: nat ensures !Followed(g, a, p) {
      forall v: View | Binding(v, g) ensures !IsChild(v, g[a], p) {}
    }
    BisimFromChildren(g, a, b);
  }

  lemma WordsOfId(g: TypeGraph, i: nat)
    requires WellFormed(g) && i < |g|
    ensures 3 <= |g[i]| && (i > 0 ==> WellSized(g[i]) && Kind(g[i]) != KIND_UNKN)
    ensures Kind(g[i]) != KIND_UNKN ==> i > 0 && WellSized(g[i])
    ensures IsFwd(g[i]) ==> !Complete(g)
    ensures IsEnumFwd(g[i]) ==> !Complete(g)
  {
    if i > 0 { KindOfWellSized(g[i]); }
  }

  /** Records equal word for word mean the same. */
  lemma EqualWordsBisim(g: TypeGraph, a: nat, b: nat)
    requires WellFormed(g) && a < |g| && b < |g| && g[a] == g[b]
    ensures Bisim(g, a, b)
  {
    WordsOfId(g, a);
    SameLabelSameNodes(g, a, b);
    forall p: nat | Followed(g, a, p) ensures Bisim(g, g[a][p], g[b][p]) {
      BisimRefl(g, g[a][p]);
    }
    BisimFromChildren(g, a, b);
  }

  // ------------------------------------------ identical arrays and structs

  /** btf_dedup_identical_arrays */
  method IdenticalArrays(d: Dedup, id1: nat, id2: nat) returns (same: bool)
    requires d.Valid() && d.Untouched() && id1 < |d.orig| && id2 < |d.orig|
    ensures same <==> Kind(d.orig[id1]) == KIND_ARRAY && d.orig[id1] == d.orig[id2]
    ensures same ==> Bisim(d.orig, id1, id2)
  {
    var t1 := d.btf.TypeById(id1);
    var t2 := d.btf.TypeById(id2);
    WordsOfId(d.orig, id1);
    WordsOfId(d.orig, id2);
    if Kind(t1) != KIND_ARRAY || Kind(t2) != KIND_ARRAY {
      return false;
    }
    EqualArrayMeansEqual(t1, t2);
    same := EqualArray(t1, t2);
    if same { EqualWordsBisim(d.orig, id1, id2); }
  }

  /** btf_dedup_identical_structs: equal down to the referenced type IDs,
      looking through directly contained arrays, structs and unions.  It ends
      because direct containment is well founded. */
  method IdenticalStructs(d: Dedup, id1: nat, id2: nat) returns (same: bool)
    requires d.Valid() && d.Untouched() && id1 < |d.orig| && id2 < |d.orig|
    ensures same ==> Bisim(d.orig, id1, id2) && Twins(d.orig, id1, id2)
    decreases if 3 <= |d.orig[id1]| && IsComposite(d.orig[id1]) then 1 + d.rank[id1] else 0
  {
    hide VlenOf, SizeOf, IsRefPos, Bisim;
    ghost var g := d.orig;
    var t1 := d.btf.TypeById(id1);
    var t2 := d.btf.TypeById(id2);
    WordsOfId(g, id1);
    WordsOfId(g, id2);
    if !IsComposite(t1) || Kind(t1) != Kind(t2) {
      return false;
    }
    var shallow := ShallowEqualStruct(t1, t2);
    if !shallow {
      return false;
    }
    SameLabelSameNodes(g, id1, id2);
    SameLabelRefs(t1, t2);
    MemberRefs(t1, 0);
    var i := 0;
    while i < Vlen(t1)
      invariant 0 <= i <= Vlen(t1)
      invariant forall p: nat :: IsRef(t1, p) && p < MemberTypePos(i) - 1 ==> Bisim(g, t1[p], t2[p])
    {
      MemberRefs(t1, i);
      var m1, m2 := t1[MemberTypePos(i)], t2[MemberTypePos(i)];
      if m1 != m2 {
        var arrays := IdenticalArrays(d, m1, m2);
        if !arrays {
          WordsOfId(g, m1);
          var structs := IdenticalStructs(d, m1, m2);
          if !structs {
            return false;
          }
        }
      } else {
        BisimRefl(g, m1);
      }
      i := i + 1;
    }
    MemberRefs(t1, i);
    BisimFromChildren(g, id1, id2);
    return true;
  }

  // ------------------------------------------------- the hypothetical map

  /** hypot_list lists exactly the IDs that hypot_map pairs. */
  ghost predicate HypotOk(d: Dedup)
    reads d`hypotList, d.hypotMap
  {
    && InRange(d.hypotMap[..], d.hypotMap.Length)
    && (forall c :: 0 <= c < d.hypotMap.Length ==> (Mapped(d.hypotMap[c]) <==> c in d.hypotList))
    && (forall c :: 0 <= c < d.hypotMap.Length && !Mapped(d.hypotMap[c]) ==> d.hypotMap[c] == BTF_UNPROCESSED_ID)
    && (forall c :: c in d.hypotList ==> c < d.hypotMap.Length)
  }

  /** The IDs that have no pair yet. */
  ghost function Free(h: IdMap): set<nat> {
    set c: nat | c < |h| && !Mapped(h[c])
  }

  /** Records that differ at most in what they refer to: arrays, or structs or unions. */
  predicate Twins(g: TypeGraph, a: nat, b: nat) {
    a < |g| && b < |g| && 3 <= |g[a]| && 3 <= |g[b]| && Kind(g[a]) == Kind(g[b]) &&
    (Kind(g[a]) == KIND_ARRAY || IsComposite(g[a]))
  }

  /** What a forward declaration that has been resolved stands for. */
  ghost function Target(g: TypeGraph, m: IdMap, x: nat): (r: nat)
    requires WellFormed(g) && |m| == |g| && Forest(m) && x < |g|
    ensures r < |g|
  {
    if 3 <= |g[x]| && IsFwd(g[x]) && 3 <= |g[Root(m, x)]| && !IsFwd(g[Root(m, x)]) then Root(m, x) else x
  }

  /** The two IDs resolve to one canonical type, or have been recorded as a pair (or
      the second is a twin of the one recorded). */
  ghost predicate Met(g: TypeGraph, m: IdMap, h: IdMap, x: nat, y: nat)
    requires WellFormed(g)
  {
    && |m| == |g| == |h| && Forest(m) && x < |g| && y < |g|
    && (Root(m, x) == Root(m, y) ||
        (Mapped(h[Target(g, m, x)]) && (h[Target(g, m, x)] == y || Twins(g, h[Target(g, m, x)], y))))
  }

  /** The two IDs mean the same by what has been recorded, and have met. */
  ghost predicate Linked(g: TypeGraph, m: IdMap, h: IdMap, x: nat, y: nat)
    requires WellFormed(g) && InRange(h, |g|) && x < |g| && y < |g|
  {
    Related(g, h, x, y) && Met(g, m, h, x, y)
  }

  /** All that the two records of a pair refer to has met as well. */
  ghost predicate Chased(g: TypeGraph, m: IdMap, h: IdMap, a: nat, b: nat)
    requires WellFormed(g)
  {
    a < |g| && b < |g| && (KindAt(g, a) == KindAt(g, b) && !IsPrimKind(KindAt(g, a)) ==>
      forall p: nat :: IsRef(g[a], p) ==> IsRef(g[b], p) && Met(g, m, h, g[a][p], g[b][p]))
  }

  function KindAt(g: TypeGraph, x: nat): nat
    requires x < |g|
  {
    if 3 <= |g[x]| then Kind(g[x]) else KIND_UNKN
  }

  /** Every pair recorded since `h0` has equal nodes, and children that are related and have met. */
  ghost predicate NewChecked(g: TypeGraph, m: IdMap, h0: IdMap, h: IdMap)
    requires WellFormed(g) && InRange(h0, |g|) && InRange(h, |g|)
  {
    forall c :: 0 <= c < |g| && Mapped(h[c]) && !Mapped(h0[c]) ==> Checked(g, h, c) && Chased(g, m, h, c, h[c])
  }

  lemma MetMonotone(g: TypeGraph, m: IdMap, h: IdMap, h': IdMap, x: nat, y: nat)
    requires WellFormed(g) && Extends(h, h') && Met(g, m, h, x, y)
    ensures Met(g, m, h', x, y)
  {
  }

  lemma ChasedMonotone(g: TypeGraph, m: IdMap, h: IdMap, h': IdMap, a: nat, b: nat)
    requires WellFormed(g) && Extends(h, h') && Chased(g, m, h, a, b)
    ensures Chased(g, m, h', a, b)
  {
    hide Met, KindOf;
    if KindAt(g, a) == KindAt(g, b) && !IsPrimKind(KindAt(g, a)) {
      forall p: nat | IsRef(g[a], p) ensures IsRef(g[b], p) && Met(g, m, h', g[a][p], g[b][p]) {
        MetMonotone(g, m, h, h', g[a][p], g[b][p]);
      }
    }
  }

  /** The pair (a, b) has been recorded and its references in `done` compared;
      all other pairs recorded since `h0` are settled. */
  ghost predicate Pending(g: TypeGraph, m: IdMap, h0: IdMap, h: IdMap, a: nat, b: nat, done: set<nat>)
    requires WellFormed(g) && a < |g| && b < |g|
  {
    && InRange(h0, |g|) && InRange(h, |g|) && Extends(h0, h)
    && !Mapped(h0[a]) && h[a] == b
    && (forall c :: 0 <= c < |g| && Mapped(h[c]) && !Mapped(h0[c]) && c != a ==> Checked(g, h, c) && Chased(g, m, h, c, h[c]))
    && (forall p :: p in done ==> IsRef(g[a], p) && IsRef(g[b], p) && Linked(g, m, h, g[a][p], g[b][p]))
  }

  lemma PendingStep(g: TypeGraph, m: IdMap, h0: IdMap, h: IdMap, h': IdMap, a: nat, b: nat, done: set<nat>, p: nat)
    requires WellFormed(g) && a < |g| && b < |g| && Pending(g, m, h0, h, a, b, done)
    requires InRange(h', |g|) && Extends(h, h') && NewChecked(g, m, h, h')
    requires IsRef(g[a], p) && IsRef(g[b], p) && Linked(g, m, h', g[a][p], g[b][p])
    ensures Pending(g, m, h0, h', a, b, done + {p})
  {
    forall c | 0 <= c < |g| && Mapped(h'[c]) && !Mapped(h0[c]) && c != a ensures Checked(g, h', c) && Chased(g, m, h', c, h'[c]) {
      if Mapped(h[c]) {
        CheckedMonotone(g, h, h', c);
        ChasedMonotone(g, m, h, h', c, h[c]);
      }
    }
    forall q | q in done ensures Linked(g, m, h', g[a][q], g[b][q]) {
      RelatedMonotone(g, h, h', g[a][q], g[b][q]);
      MetMonotone(g, m, h, h', g[a][q], g[b][q]);
    }
  }

  /** All references compared: the pair is settled. */
  lemma PendingDone(g: TypeGraph, m: IdMap, h0: IdMap, h: IdMap, a: nat, b: nat, done: set<nat>)
    requires WellFormed(g) && a < |g| && b < |g| && Pending(g, m, h0, h, a, b, done)
    requires SameNodes(g, a, b) && forall p: nat :: Followed(g, a, p) ==> p in done
    requires KindAt(g, a) == KindAt(g, b) && !IsPrimKind(KindAt(g, a)) ==> forall p: nat :: IsRef(g[a], p) ==> p in done
    ensures NewChecked(g, m, h0, h) && Related(g, h, a, b)
  {
    assert Checked(g, h, a);
    assert Chased(g, m, h, a, b);
    BisimRefl(g, a);
    BisimRefl(g, b);
  }

  /** What the comparison of one compilation unit against the rest relies on:
      no forward declarations, and among the types `own` of the candidate's unit
      no two distinct ones mean the same. */
  ghost predicate DupFree(g: TypeGraph, own: set<nat>)
    requires WellFormed(g)
  {
    && Complete(g)
    && (forall i :: i in own ==> i < |g|)
    && (forall i, p: nat :: i in own && IsRef(g[i], p) ==> g[i][p] in own)
    && (forall i, j :: i in own && j in own && Bisim(g, i, j) ==> i == j)
  }

  /** The two IDs resolve to one canonical type already, or `pairs` pairs them. */
  ghost predicate Agree(g: TypeGraph, m: IdMap, pairs: map<nat, nat>, x: nat, y: nat)
    requires WellFormed(g) && |m| == |g| && Forest(m)
  {
    x < |g| && y < |g| && (Root(m, x) == Root(m, y) || (Target(g, m, x) in pairs && pairs[Target(g, m, x)] == y))
  }

  /** Two records that could describe one type, given `pairs`: one of them only
      declares what the other is, or both are of one kind, enums that may be one, or
      equal but for type IDs, which agree. */
  ghost predicate CouldBeOne(g: TypeGraph, m: IdMap, pairs: map<nat, nat>, a: nat, b: nat)
    requires WellFormed(g) && |m| == |g| && Forest(m)
  {
    && a < |g| && b < |g| && 3 <= |g[a]| && 3 <= |g[b]| && g[a][0] == g[b][0]
    && if IsFwd(g[a]) != IsFwd(g[b]) then ClassOf(g[a]) == ClassOf(g[b])
       else Kind(g[a]) == Kind(g[b]) &&
            if IsAnyEnum(g[a]) then WellSized(g[a]) && WellSized(g[b]) && EnumsCompatible(g[b], g[a])
            else if IsPrimKind(Kind(g[a])) then g[a] == g[b]
            else SameLabel(g[b], g[a]) && forall p: nat :: IsRef(g[a], p) ==> p < |g[b]| && Agree(g, m, pairs, g[a][p], g[b][p])
  }

  /** A pairing of canonical types with types of the candidate's, each canonical type
      with one: every two that are paired could be one, and so on down. */
  ghost predicate Pairing(g: TypeGraph, m: IdMap, pairs: map<nat, nat>)
    requires WellFormed(g)
  {
    |m| == |g| && Forest(m) && forall a :: a in pairs ==> CouldBeOne(g, m, pairs, a, pairs[a])
  }

  /** Only such pairs have been recorded. */
  ghost predicate Recorded(h: IdMap, pairs: map<nat, nat>) {
    forall c :: 0 <= c < |h| && Mapped(h[c]) ==> c in pairs && pairs[c] == h[c]
  }

  /** The comparison of the two IDs must not say no. */
  ghost predicate Acceptable(g: TypeGraph, m: IdMap, h: IdMap, pairs: map<nat, nat>, canon: nat, cand: nat)
    requires WellFormed(g)
  {
    Pairing(g, m, pairs) && Recorded(h, pairs) && Agree(g, m, pairs, canon, cand)
  }

  /** The same, for IDs that are paired. */
  ghost predicate Paired(g: TypeGraph, m: IdMap, h: IdMap, pairs: map<nat, nat>, canon: nat, cand: nat)
    requires WellFormed(g)
  {
    Pairing(g, m, pairs) && Recorded(h, pairs) && canon in pairs && pairs[canon] == cand
  }

  lemma PairedChild(g: TypeGraph, m: IdMap, h: IdMap, pairs: map<nat, nat>, canon: nat, cand: nat, p: nat)
    requires WellFormed(g) && canon < |g| && IsRef(g[canon], p) && !IsPrimKind(Kind(g[canon]))
    requires cand < |g| && 3 <= |g[cand]| && !IsFwd(g[cand]) && p < |g[cand]|
    ensures Paired(g, m, h, pairs, canon, cand) ==> Acceptable(g, m, h, pairs, g[canon][p], g[cand][p])
  {
    if Paired(g, m, h, pairs, canon, cand) { assert CouldBeOne(g, m, pairs, canon, cand); }
  }

  /** The state every step of the comparison works in: the canonical map is
      sound and the types have not been touched. */
  ghost predicate Ready(d: Dedup)
    reads d`table, d`hypotList, d.btf, d.btf.data, d.btf.offs, d.typeMap, d.hypotMap
  {
    d.Valid() && d.Untouched() && Sound(d.orig, d.typeMap[..]) && HypotOk(d)
  }

  /** The pair (a, b) and every other pair recorded since `h0` is settled. */
  ghost predicate Settled(g: TypeGraph, m: IdMap, h0: IdMap, h: IdMap, a: nat, b: nat)
    requires WellFormed(g) && a < |g| && b < |g|
  {
    && InRange(h0, |g|) && InRange(h, |g|) && Extends(h0, h)
    && NewChecked(g, m, h0, h) && Related(g, h, a, b) && h[a] == b
  }

  /** What the comparison of a recorded pair (canon, cand) promises: 1 settles
      it; IDs that are paired are never rejected. */
  ghost predicate Outcome(g: TypeGraph, h0: IdMap, before: IdMap, after: IdMap,
                          canon: nat, cand: nat, m: IdMap, pairs: map<nat, nat>, eq: int)
    requires WellFormed(g) && canon < |g| && cand < |g|
  {
    && InRange(after, |g|) && Extends(before, after)
    && (eq == 1 || eq == 0 || (eq == -EINVAL && OddRefs(g)))
    && (eq == 1 ==> Settled(g, m, h0, after, canon, cand))
    && (Paired(g, m, before, pairs, canon, cand) ==> eq != 0 && Recorded(after, pairs))
  }

  /** btf_dedup_hypot_map_add */
  method HypotMapAdd(d: Dedup, from: nat, to: nat)
    requires d.Valid() && HypotOk(d) && from < |d.orig| && to < |d.orig|
    requires !Mapped(d.hypotMap[from])
    modifies d.hypotMap, d`hypotList
    ensures d.Valid() && HypotOk(d)
    ensures d.hypotMap[..] == old(d.hypotMap[..])[from := to]
    ensures d.hypotList == old(d.hypotList) + [from]
    ensures d.btf.Types() == old(d.btf.Types())
  {
    d.hypotList := d.hypotList + [from];
    d.hypotMap[from] := to;
  }

  /** btf_dedup_clear_hypot_map */
  method ClearHypotMap(d: Dedup)
    requires d.Valid() && HypotOk(d)
    modifies d.hypotMap, d`hypotList
    ensures d.Valid() && HypotOk(d)
    ensures d.hypotList == [] && forall c :: 0 <= c < |d.orig| ==> d.hypotMap[c] == BTF_UNPROCESSED_ID
    ensures d.btf.Types() == old(d.btf.Types())
  {
    var i := 0;
    while i < |d.hypotList|
      invariant 0 <= i <= |d.hypotList| && d.hypotList == old(d.hypotList)
      invariant forall c :: c in d.hypotList ==> c < d.hypotMap.Length
      invariant forall c :: 0 <= c < |d.orig| && c !in d.hypotList[i..] ==> d.hypotMap[c] == BTF_UNPROCESSED_ID
      invariant forall h, x: nat :: InTable(d.table, h, x) ==> 1 <= x < |d.orig|
    {
      assert d.hypotList[i] in d.hypotList;
      d.hypotMap[d.hypotList[i]] := BTF_UNPROCESSED_ID;
      i := i + 1;
    }
    d.hypotList := [];
  }

  // -------------------------------------------------- the graph comparison

  /** Kinds that no struct or union can contain, however deeply. */
  predicate IsOddKind(k: nat) { k == KIND_DECL_TAG || IsVarKind(k) }

  /** Some type refers to a type of such a kind, though it is of no such kind itself:
      a tag may well be on a variable, and a data section lists variables. */
  ghost predicate OddRefs(g: TypeGraph)
    requires WellFormed(g)
  {
    exists i, p: nat :: 0 <= i < |g| && IsRef(g[i], p) && !IsOddKind(Kind(g[i])) && IsOddKind(Kind(g[g[i][p]]))
  }

  ghost predicate Usual(g: TypeGraph, x: nat)
    requires WellFormed(g) && x < |g|
  {
    IsOddKind(Kind(g[x])) ==> OddRefs(g)
  }

  lemma ChildUsual(g: TypeGraph, a: nat, p: nat)
    requires WellFormed(g) && a < |g| && IsRef(g[a], p) && !IsOddKind(Kind(g[a]))
    ensures Usual(g, g[a][p])
  {
  }

  lemma OddKindFound(g: TypeGraph, a: nat, b: nat)
    requires WellFormed(g) && a < |g| && b < |g| && Usual(g, a) && (a != 0 || b != 0) && Kind(g[a]) == Kind(g[b])
    requires !IsPrimKind(Kind(g[a])) && !IsSingleRefKind(Kind(g[a])) && !IsCompositeKind(Kind(g[a]))
    requires Kind(g[a]) != KIND_ARRAY && Kind(g[a]) != KIND_FUNC_PROTO
    ensures OddRefs(g)
  {
    WordsOfId(g, a);
    WordsOfId(g, b);
    if a > 0 { KindOfWellSized(g[a]); }
  }

  /** Void is its own root, so it is never paired with itself. */
  lemma NotBothVoid(m: IdMap, cand: nat, canon0: nat, canon: nat)
    requires Forest(m) && cand < |m| && canon0 < |m| && Root(m, cand) != Root(m, canon0)
    requires canon == canon0 || canon == Root(m, canon0)
    ensures cand != canon
  {
    RootStep(m, Root(m, canon0));
  }

  /** btf_dedup_is_equiv: 1 if the graphs of `cand` and `canon` are equivalent,
      0 if not, -EINVAL on kinds that no struct can contain.

      A positive answer leaves in hypot_map a bisimulation up to what is already
      known.  A zero answer is right: there is no pairing of the two, by which each
      canonical type is matched with one type (`Acceptable`). */
  method IsEquiv(d: Dedup, cand: nat, canon0: nat, ghost pairs: map<nat, nat>) returns (eq: int)
    requires Ready(d)
    requires cand < |d.orig| && canon0 < |d.orig| && Usual(d.orig, cand)
    modifies d.hypotMap, d`hypotList
    ensures Ready(d)
    ensures Extends(old(d.hypotMap[..]), d.hypotMap[..])
    ensures old(d.hypotList) <= d.hypotList
    ensures eq == 1 || eq == 0 || (eq == -EINVAL && OddRefs(d.orig))
    ensures eq == 1 ==> Linked(d.orig, d.typeMap[..], d.hypotMap[..], canon0, cand)
    ensures eq == 1 ==> NewChecked(d.orig, d.typeMap[..], old(d.hypotMap[..]), d.hypotMap[..])
    ensures Acceptable(d.orig, d.typeMap[..], old(d.hypotMap[..]), pairs, canon0, cand) ==>
              eq != 0 && Recorded(d.hypotMap[..], pairs)
    decreases Free(d.hypotMap[..]), 1, 1
  {
    hide Bisim, Checked, Agree, Recorded, Nested, SameNodes, OddRefs, Usual, Pairing, NewChecked, Related, Linked, Chased, Met, Settled, KindOf, VlenOf, SizeOf, IsRefPos;
    ghost var g, h0 := d.orig, d.hypotMap[..];
    // one root: SameRootBisim
    var r1 := d.ResolveTypeId(cand);
    var r2 := d.ResolveTypeId(canon0);
    if r1 == r2 {
      SameRootBisim(g, d.typeMap[..], canon0, cand);
      BisimRelated(g, d.typeMap[..], h0, canon0, cand);
      return 1;
    }
    eq := EquivDistinct(d, cand, canon0, pairs);
  }

  /** The comparison of IDs with different roots. */
  method EquivDistinct(d: Dedup, cand: nat, canon0: nat, ghost pairs: map<nat, nat>) returns (eq: int)
    requires Ready(d)
    requires cand < |d.orig| && canon0 < |d.orig| && Usual(d.orig, cand) && Root(d.typeMap[..], cand) != Root(d.typeMap[..], canon0)
    modifies d.hypotMap, d`hypotList
    ensures Ready(d)
    ensures Extends(old(d.hypotMap[..]), d.hypotMap[..])
    ensures old(d.hypotList) <= d.hypotList
    ensures eq == 1 || eq == 0 || (eq == -EINVAL && OddRefs(d.orig))
    ensures eq == 1 ==> Linked(d.orig, d.typeMap[..], d.hypotMap[..], canon0, cand)
    ensures eq == 1 ==> NewChecked(d.orig, d.typeMap[..], old(d.hypotMap[..]), d.hypotMap[..])
    ensures Acceptable(d.orig, d.typeMap[..], old(d.hypotMap[..]), pairs, canon0, cand) ==>
              eq != 0 && Recorded(d.hypotMap[..], pairs)
    decreases Free(d.hypotMap[..]), 1, 0
  {
    hide Bisim, Checked, Agree, Recorded, Nested, SameNodes, OddRefs, Usual, Pairing, NewChecked, Related, Linked, Chased, Met, Settled;
    ghost var g, h0 := d.orig, d.hypotMap[..];
    var canon := d.ResolveFwdId(canon0);
    WordsOfId(g, canon0);
    WordsOfId(g, Root(d.typeMap[..], canon0));
    AgreeingTarget(g, d.typeMap[..], h0, pairs, canon0, cand);

    var hypotTypeId := d.hypotMap[canon];
    if hypotTypeId <= BTF_MAX_NR_TYPES {
      eq := SecondPairing(d, hypotTypeId, cand);
      if eq == 1 { LinkedThrough(g, d.typeMap[..], h0, canon0, canon, cand); }
      return;
    }
    NotBothVoid(d.typeMap[..], cand, canon0, canon);
    eq := EquivNewPair(d, cand, canon, pairs);
    if eq == 1 { LinkedFrom(g, d.typeMap[..], h0, d.hypotMap[..], canon0, canon, cand); }
  }

  /** A canonical ID that has a partner already. */
  lemma LinkedThrough(g: TypeGraph, m: IdMap, h: IdMap, canon0: nat, canon: nat, cand: nat)
    requires WellFormed(g) && Sound(g, m) && InRange(h, |g|) && canon0 < |g| && cand < |g| && canon == Target(g, m, canon0)
    requires Mapped(h[canon]) && Bisim(g, canon0, canon) && Bisim(g, h[canon], cand) && (h[canon] == cand || Twins(g, h[canon], cand))
    ensures Linked(g, m, h, canon0, cand) && NewChecked(g, m, h, h)
  {
    hide Bisim, Twins, Checked, Chased;
    RelatedThrough(g, h, canon0, canon, cand);
  }

  lemma BisimRelated(g: TypeGraph, m: IdMap, h: IdMap, x: nat, y: nat)
    requires WellFormed(g) && InRange(h, |g|) && x < |g| && y < |g| && |m| == |g| && Forest(m)
    ensures Bisim(g, x, y) && Root(m, x) == Root(m, y) ==> Linked(g, m, h, x, y)
    ensures NewChecked(g, m, h, h)
  {
  }

  /** IDs with different roots agree only if they are paired. */
  lemma AgreeingTarget(g: TypeGraph, m: IdMap, h: IdMap, pairs: map<nat, nat>, canon0: nat, cand: nat)
    requires WellFormed(g) && canon0 < |g| && cand < |g| && |m| == |g| && Forest(m) && Root(m, cand) != Root(m, canon0)
    requires |h| == |g|
    ensures Acceptable(g, m, h, pairs, canon0, cand) ==> Paired(g, m, h, pairs, Target(g, m, canon0), cand)
    ensures var c := Target(g, m, canon0);
      Mapped(h[c]) && Acceptable(g, m, h, pairs, canon0, cand) ==> h[c] == cand
  {
  }

  /** A canonical ID seen for the first time: record the pair and compare the records. */
  method EquivNewPair(d: Dedup, cand: nat, canon: nat, ghost pairs: map<nat, nat>) returns (eq: int)
    requires Ready(d)
    requires cand < |d.orig| && canon < |d.orig| && !Mapped(d.hypotMap[canon])
    requires Usual(d.orig, cand) && (cand != 0 || canon != 0)
    modifies d.hypotMap, d`hypotList
    ensures Ready(d)
    ensures old(d.hypotList) + [canon] <= d.hypotList && d.hypotMap[canon] == cand
    ensures eq == 1 || eq == 0 || (eq == -EINVAL && OddRefs(d.orig))
    ensures Extends(old(d.hypotMap[..]), d.hypotMap[..])
    ensures eq == 1 ==> Settled(d.orig, d.typeMap[..], old(d.hypotMap[..]), d.hypotMap[..], canon, cand)
    ensures Paired(d.orig, d.typeMap[..], old(d.hypotMap[..]), pairs, canon, cand) ==>
              eq != 0 && Recorded(d.hypotMap[..], pairs)
    decreases Free(d.hypotMap[..]), 0, 0
  {
    hide Sound, Related, Linked, Chased, Met, Checked, Bisim, DupFree, SameNodes, Nested, OddRefs, Usual;
    ghost var h0 := d.hypotMap[..];
    HypotMapAdd(d, canon, cand);
    FirstPending(d.orig, d.typeMap[..], h0, canon, cand);
    PairedAdd(d.orig, d.typeMap[..], h0, pairs, canon, cand);
    eq := EquivNodes(d, cand, canon, pairs, h0);
  }

  lemma LinkedFrom(g: TypeGraph, m: IdMap, h0: IdMap, hyp: IdMap, x: nat, c: nat, y: nat)
    requires WellFormed(g) && x < |g| && c < |g| && y < |g| && |m| == |g| && Forest(m) && c == Target(g, m, x)
    requires Bisim(g, x, c) && Settled(g, m, h0, hyp, c, y)
    ensures InRange(h0, |g|) && InRange(hyp, |g|) && Linked(g, m, hyp, x, y) && NewChecked(g, m, h0, hyp)
  {
    hide Bisim, Twins, Checked, Chased;
    if Bisim(g, c, y) {
      BisimTrans(g, x, c, y);
    } else {
      var e := Middle(g, hyp, c, y);
      BisimTrans(g, x, c, e);
    }
  }

  /** The canonical ID has a partner already: the same one, or one that is
      identical down to its type IDs. */
  method SecondPairing(d: Dedup, hypotTypeId: nat, cand: nat) returns (eq: int)
    requires d.Valid() && d.Untouched() && hypotTypeId < |d.orig| && cand < |d.orig|
    ensures eq == 0 || eq == 1
    ensures hypotTypeId == cand ==> eq == 1
    ensures eq == 1 ==> Bisim(d.orig, hypotTypeId, cand) && (hypotTypeId == cand || Twins(d.orig, hypotTypeId, cand))
  {
    if hypotTypeId == cand {
      BisimRefl(d.orig, cand);
      return 1;
    }
    var same := IdenticalArrays(d, hypotTypeId, cand);
    if same {
      return 1;
    }
    same := IdenticalStructs(d, hypotTypeId, cand);
    if same {
      return 1;
    }
    return 0;
  }

  lemma ExtendsTrans(a: IdMap, b: IdMap, c: IdMap)
    requires Extends(a, b) && Extends(b, c)
    ensures Extends(a, c)
  {
  }

  lemma FreeShrinks(h: IdMap, h': IdMap)
    requires Extends(h, h')
    ensures Free(h') <= Free(h)
  {
  }

  lemma FirstPending(g: TypeGraph, m: IdMap, h0: IdMap, a: nat, b: nat)
    requires WellFormed(g) && a < |g| && b < |g| && InRange(h0, |g|) && !Mapped(h0[a])
    ensures Pending(g, m, h0, h0[a := b], a, b, {})
    ensures a in Free(h0) && Free(h0[a := b]) == Free(h0) - {a}
  {
  }

  lemma PairedAdd(g: TypeGraph, m: IdMap, h0: IdMap, pairs: map<nat, nat>, a: nat, b: nat)
    requires WellFormed(g) && a < |h0|
    ensures Paired(g, m, h0, pairs, a, b) ==> Paired(g, m, h0[a := b], pairs, a, b)
  {
    hide Pairing;
  }

  /** The comparison of one pair of references of a pending pair. */
  method EquivChild(d: Dedup, cand: nat, canon: nat, p: nat, ghost pairs: map<nat, nat>, ghost h0: IdMap, ghost done: set<nat>)
    returns (eq: int)
    requires Ready(d)
    requires cand < |d.orig| && canon < |d.orig| && IsRef(d.orig[canon], p) && IsRef(d.orig[cand], p)
    requires !IsOddKind(Kind(d.orig[cand])) && Pending(d.orig, d.typeMap[..], h0, d.hypotMap[..], canon, cand, done)
    requires !IsPrimKind(Kind(d.orig[canon])) && !IsFwd(d.orig[cand])
    modifies d.hypotMap, d`hypotList
    ensures Ready(d)
    ensures Extends(old(d.hypotMap[..]), d.hypotMap[..])
    ensures old(d.hypotList) <= d.hypotList
    ensures eq == 1 || eq == 0 || (eq == -EINVAL && OddRefs(d.orig))
    ensures eq == 1 ==> Pending(d.orig, d.typeMap[..], h0, d.hypotMap[..], canon, cand, done + {p})
    ensures Paired(d.orig, d.typeMap[..], old(d.hypotMap[..]), pairs, canon, cand) ==>
              eq != 0 && Recorded(d.hypotMap[..], pairs)
    decreases Free(d.hypotMap[..]), 2, 0
  {
    hide Sound, Related, Linked, Chased, Met, Checked, Bisim, Agree, Recorded, SameNodes, Nested, OddRefs, Usual;
    ghost var g, h := d.orig, d.hypotMap[..];
    var candType := d.btf.TypeById(cand);
    var canonType := d.btf.TypeById(canon);
    PairedChild(g, d.typeMap[..], h, pairs, canon, cand, p);
    ChildUsual(g, cand, p);
    eq := IsEquiv(d, candType[p], canonType[p], pairs);
    if eq == 1 { PendingStep(g, d.typeMap[..], h0, h, d.hypotMap[..], canon, cand, done, p); }
  }

  /** The members of two structs or unions, in order. */
  method EquivMembers(d: Dedup, cand: nat, canon: nat, ghost pairs: map<nat, nat>, ghost h0: IdMap) returns (eq: int)
    requires Ready(d)
    requires 1 <= cand < |d.orig| && 1 <= canon < |d.orig|
    requires IsComposite(d.orig[cand]) && SameLabel(d.orig[cand], d.orig[canon])
    requires Pending(d.orig, d.typeMap[..], h0, d.hypotMap[..], canon, cand, {})
    modifies d.hypotMap, d`hypotList
    ensures Ready(d) && old(d.hypotList) <= d.hypotList
    ensures Outcome(d.orig, h0, old(d.hypotMap[..]), d.hypotMap[..], canon, cand, d.typeMap[..], pairs, eq)
    decreases Free(d.hypotMap[..]), 3, 0
  {
    hide Sound, Related, Linked, Chased, Met, Checked, Bisim, Agree, Recorded, SameNodes, Nested, OddRefs, Usual, KindOf, VlenOf, Forest;
    ghost var g, m, h, done: set<nat> := d.orig, d.typeMap[..], d.hypotMap[..], {};
    var t := d.btf.TypeById(cand);
    SameLabelRefs(g[cand], g[canon]);
    MemberRefs(t, 0);
    ghost var now := h;
    var i := 0;
    while i < Vlen(t)
      invariant 0 <= i <= Vlen(t)
      invariant Ready(d)
      invariant now == d.hypotMap[..] && Extends(h, now) && old(d.hypotList) <= d.hypotList
      invariant Pending(g, m, h0, now, canon, cand, done)
      invariant forall p: nat :: IsRef(t, p) && p < MemberTypePos(i) - 1 ==> p in done
      invariant Paired(g, m, h, pairs, canon, cand) ==> Recorded(now, pairs)
    {
      MemberRefs(t, i);
      FreeShrinks(h, now);
      eq := EquivChild(d, cand, canon, MemberTypePos(i), pairs, h0, done);
      ExtendsTrans(h, now, d.hypotMap[..]);
      now := d.hypotMap[..];
      if eq <= 0 {
        return;
      }
      done := done + {MemberTypePos(i)};
      i := i + 1;
    }
    MemberRefs(t, i);
    AllDone(g, d.typeMap[..], h0, now, canon, cand, done);
    return 1;
  }

  /** The result and then the parameters of two function prototypes. */
  method EquivFnproto(d: Dedup, cand: nat, canon: nat, ghost pairs: map<nat, nat>, ghost h0: IdMap) returns (eq: int)
    requires Ready(d)
    requires 1 <= cand < |d.orig| && 1 <= canon < |d.orig|
    requires Kind(d.orig[cand]) == KIND_FUNC_PROTO && SameLabel(d.orig[cand], d.orig[canon])
    requires Pending(d.orig, d.typeMap[..], h0, d.hypotMap[..], canon, cand, {})
    modifies d.hypotMap, d`hypotList
    ensures Ready(d) && old(d.hypotList) <= d.hypotList
    ensures Outcome(d.orig, h0, old(d.hypotMap[..]), d.hypotMap[..], canon, cand, d.typeMap[..], pairs, eq)
    decreases Free(d.hypotMap[..]), 3, 0
  {
    hide Sound, Related, Linked, Chased, Met, Checked, Bisim, Agree, Recorded, SameNodes, Nested, OddRefs, Usual;
    ghost var h := d.hypotMap[..];
    SameLabelRefs(d.orig[cand], d.orig[canon]);
    ParamRefs(d.orig[cand], 0);
    eq := EquivChild(d, cand, canon, 2, pairs, h0, {});
    if eq <= 0 {
      return;
    }
    FreeShrinks(h, d.hypotMap[..]);
    ghost var h1 := d.hypotMap[..];
    eq := EquivParams(d, cand, canon, pairs, h0);
    ExtendsTrans(h, h1, d.hypotMap[..]);
  }

  /** The parameters of two function prototypes, in order. */
  method EquivParams(d: Dedup, cand: nat, canon: nat, ghost pairs: map<nat, nat>, ghost h0: IdMap) returns (eq: int)
    requires Ready(d)
    requires 1 <= cand < |d.orig| && 1 <= canon < |d.orig|
    requires Kind(d.orig[cand]) == KIND_FUNC_PROTO && SameLabel(d.orig[cand], d.orig[canon])
    requires Pending(d.orig, d.typeMap[..], h0, d.hypotMap[..], canon, cand, {} + {2})
    modifies d.hypotMap, d`hypotList
    ensures Ready(d) && old(d.hypotList) <= d.hypotList
    ensures Outcome(d.orig, h0, old(d.hypotMap[..]), d.hypotMap[..], canon, cand, d.typeMap[..], pairs, eq)
    decreases Free(d.hypotMap[..]), 2, 1
  {
    hide Sound, Related, Linked, Chased, Met, Checked, Bisim, Agree, Recorded, SameNodes, Nested, OddRefs, Usual;
    ghost var g, m, h, done: set<nat> := d.orig, d.typeMap[..], d.hypotMap[..], {} + {2};
    var t := d.btf.TypeById(cand);
    SameLabelRefs(g[cand], g[canon]);
    ParamRefs(t, 0);
    ghost var now := h;
    var i := 0;
    while i < Vlen(t)
      invariant 0 <= i <= Vlen(t)
      invariant Ready(d)
      invariant now == d.hypotMap[..] && Extends(h, now) && old(d.hypotList) <= d.hypotList
      invariant Pending(g, m, h0, now, canon, cand, done)
      invariant forall p: nat :: IsRef(t, p) && p < ParamTypePos(i) - 1 ==> p in done
      invariant Paired(g, m, h, pairs, canon, cand) ==> Recorded(now, pairs)
    {
      ParamRefs(t, i);
      FreeShrinks(h, now);
      eq := EquivChild(d, cand, canon, ParamTypePos(i), pairs, h0, done);
      ExtendsTrans(h, now, d.hypotMap[..]);
      now := d.hypotMap[..];
      if eq <= 0 {
        return;
      }
      done := done + {ParamTypePos(i)};
      i := i + 1;
    }
    ParamRefs(t, i);
    AllDone(g, d.typeMap[..], h0, now, canon, cand, done);
    return 1;
  }

  lemma AllDone(g: TypeGraph, m: IdMap, h0: IdMap, h: IdMap, a: nat, b: nat, done: set<nat>)
    requires WellFormed(g) && a < |g| && b < |g| && Pending(g, m, h0, h, a, b, done)
    requires SameLabel(g[b], g[a]) && forall p: nat :: IsRef(g[b], p) ==> p in done
    ensures Settled(g, m, h0, h, a, b)
  {
    SameLabelRefs(g[b], g[a]);
    SameLabelSameNodes(g, a, b);
    PendingDone(g, m, h0, h, a, b, done);
  }

  /** A pair of leaves needs no further comparison. */
  lemma LeafDone(g: TypeGraph, m: IdMap, h0: IdMap, h: IdMap, a: nat, b: nat)
    requires WellFormed(g) && a < |g| && b < |g| && Pending(g, m, h0, h, a, b, {})
    requires SameNodes(g, a, b) && forall p: nat :: !Followed(g, a, p)
    requires KindAt(g, a) != KindAt(g, b) || IsPrimKind(KindAt(g, a))
    ensures Settled(g, m, h0, h, a, b)
  {
    PendingDone(g, m, h0, h, a, b, {});
  }

  /** The rest of btf_dedup_is_equiv, once the pair has been recorded. */
  method EquivNodes(d: Dedup, cand: nat, canon: nat, ghost pairs: map<nat, nat>, ghost h0: IdMap) returns (eq: int)
    requires Ready(d)
    requires cand < |d.orig| && canon < |d.orig| && Usual(d.orig, cand) && (cand != 0 || canon != 0)
    requires Pending(d.orig, d.typeMap[..], h0, d.hypotMap[..], canon, cand, {})
    modifies d.hypotMap, d`hypotList
    ensures Ready(d) && old(d.hypotList) <= d.hypotList
    ensures Outcome(d.orig, h0, old(d.hypotMap[..]), d.hypotMap[..], canon, cand, d.typeMap[..], pairs, eq)
    ensures
      var t, u := d.orig[cand], d.orig[canon];
      3 <= |t| && 3 <= |u| && t[0] == u[0] && IsFwd(t) != IsFwd(u) ==> (eq == 1 <==> ClassOf(t) == ClassOf(u))
    decreases Free(d.hypotMap[..]), 4, 0
  {
    hide Sound, Related, Linked, Chased, Met, Checked, Bisim, Agree, Recorded, SameNodes, Nested, OddRefs, Usual,
      VlenOf, SizeOf, IsRefPos, KindOf, Forest, Pending, SameLabel, EnumsCompatible, Pairing, Settled;
    ghost var g, h := d.orig, d.hypotMap[..];
    var candType := d.btf.TypeById(cand);
    var canonType := d.btf.TypeById(canon);
    WordsOfId(g, cand);
    WordsOfId(g, canon);
    var candKind, canonKind := Kind(candType), Kind(canonType);
    PairedNodes(g, d.typeMap[..], h, pairs, canon, cand);

    if candType[0] != canonType[0] {
      return 0;
    }
    // one side is only declared
    if (candKind == KIND_FWD || canonKind == KIND_FWD) && candKind != canonKind {
      eq := EquivFwd(d, cand, canon, h0);
      return;
    }
    if candKind != canonKind {
      return 0;
    }
    if IsPrimKind(candKind) {
      eq := EquivPrims(d, cand, canon, h0);
    } else if IsSingleRefKind(candKind) {
      eq := EquivSingleRef(d, cand, canon, pairs, h0);
    } else if candKind == KIND_ARRAY {
      eq := EquivArray(d, cand, canon, pairs, h0);
    } else if IsCompositeKind(candKind) {
      var shallow := ShallowEqualStruct(candType, canonType);
      SameLabelSymmetric(candType, canonType);
      if !shallow {
        return 0;
      }
      eq := EquivMembers(d, cand, canon, pairs, h0);
    } else if candKind == KIND_FUNC_PROTO {
      var compat := CompatFnproto(candType, canonType);
      SameLabelSymmetric(candType, canonType);
      if !compat {
        return 0;
      }
      eq := EquivFnproto(d, cand, canon, pairs, h0);
    } else {
      OddKindFound(g, cand, canon);
      return -EINVAL;
    }
  }

  /** A forward declaration against a struct or union of the same name. */
  method EquivFwd(d: Dedup, cand: nat, canon: nat, ghost h0: IdMap) returns (eq: int)
    requires d.Valid() && d.Untouched() && HypotOk(d)
    requires cand < |d.orig| && canon < |d.orig|
    requires 3 <= |d.orig[cand]| && 3 <= |d.orig[canon]| && d.orig[cand][0] == d.orig[canon][0]
    requires IsFwd(d.orig[cand]) != IsFwd(d.orig[canon])
    requires Pending(d.orig, d.typeMap[..], h0, d.hypotMap[..], canon, cand, {})
    ensures eq == 1 || eq == 0
    ensures eq == 1 ==> Settled(d.orig, d.typeMap[..], h0, d.hypotMap[..], canon, cand)
    ensures eq == 1 <==> ClassOf(d.orig[cand]) == ClassOf(d.orig[canon])
  {
    var candType := d.btf.TypeById(cand);
    var canonType := d.btf.TypeById(canon);
    var realKind, fwdKind;
    if Kind(candType) == KIND_FWD {
      realKind, fwdKind := Kind(canonType), FwdKind(candType);
    } else {
      realKind, fwdKind := Kind(candType), FwdKind(canonType);
    }
    if fwdKind != realKind {
      return 0;
    }
    WordsOfId(d.orig, cand);
    WordsOfId(d.orig, canon);
    TagPair(d.orig, canon, cand);
    LeafDone(d.orig, d.typeMap[..], h0, d.hypotMap[..], canon, cand);
    return 1;
  }

  /** Two types of a kind that only refers to another type. */
  method EquivSingleRef(d: Dedup, cand: nat, canon: nat, ghost pairs: map<nat, nat>, ghost h0: IdMap) returns (eq: int)
    requires Ready(d)
    requires 1 <= cand < |d.orig| && 1 <= canon < |d.orig|
    requires WellSized(d.orig[cand]) && WellSized(d.orig[canon])
    requires IsSingleRefKind(Kind(d.orig[cand])) && d.orig[cand][0] == d.orig[canon][0]
    requires Pending(d.orig, d.typeMap[..], h0, d.hypotMap[..], canon, cand, {})
    modifies d.hypotMap, d`hypotList
    ensures Ready(d) && old(d.hypotList) <= d.hypotList
    ensures Outcome(d.orig, h0, old(d.hypotMap[..]), d.hypotMap[..], canon, cand, d.typeMap[..], pairs, eq)
    decreases Free(d.hypotMap[..]), 3, 0
  {
    hide Sound, Related, Linked, Chased, Met, Checked, Bisim, Agree, Recorded, SameNodes, Nested, OddRefs, Usual;
    ghost var g, h := d.orig, d.hypotMap[..];
    var candType := d.btf.TypeById(cand);
    var canonType := d.btf.TypeById(canon);
    PairedNodes(g, d.typeMap[..], h, pairs, canon, cand);
    if candType[1] != canonType[1] {
      return 0;
    }
    SingleRefLabel(candType, canonType);
    SameLabelRefs(candType, canonType);
    eq := EquivChild(d, cand, canon, 2, pairs, h0, {});
    if eq == 1 { AllDone(g, d.typeMap[..], h0, d.hypotMap[..], canon, cand, {} + {2}); }
  }

  lemma ArrayDone(g: TypeGraph, m: IdMap, h0: IdMap, h: IdMap, a: nat, b: nat, done: set<nat>)
    requires WellFormed(g) && a < |g| && b < |g| && Pending(g, m, h0, h, a, b, done)
    requires SameLabel(g[b], g[a]) && Kind(g[b]) == KIND_ARRAY && 3 in done && 4 in done
    ensures Settled(g, m, h0, h, a, b)
  {
    AllDone(g, m, h0, h, a, b, done);
  }

  /** Two arrays: index type first, then element type. */
  method EquivArray(d: Dedup, cand: nat, canon: nat, ghost pairs: map<nat, nat>, ghost h0: IdMap) returns (eq: int)
    requires Ready(d)
    requires 1 <= cand < |d.orig| && 1 <= canon < |d.orig|
    requires Kind(d.orig[cand]) == KIND_ARRAY == Kind(d.orig[canon])
    requires WellSized(d.orig[cand]) && WellSized(d.orig[canon])
    requires Pending(d.orig, d.typeMap[..], h0, d.hypotMap[..], canon, cand, {})
    modifies d.hypotMap, d`hypotList
    ensures Ready(d) && old(d.hypotList) <= d.hypotList
    ensures Outcome(d.orig, h0, old(d.hypotMap[..]), d.hypotMap[..], canon, cand, d.typeMap[..], pairs, eq)
    decreases Free(d.hypotMap[..]), 3, 0
  {
    hide Sound, Related, Linked, Chased, Met, Checked, Bisim, Agree, Recorded, SameNodes, Nested, OddRefs, Usual;
    ghost var g, h := d.orig, d.hypotMap[..];
    var candType := d.btf.TypeById(cand);
    var canonType := d.btf.TypeById(canon);
    PairedNodes(g, d.typeMap[..], h, pairs, canon, cand);
    EqualArrayMeansEqual(candType, canonType);
    if !CompatArray(candType, canonType) {
      return 0;
    }
    SameLabelRefs(candType, canonType);
    eq := EquivChild(d, cand, canon, 4, pairs, h0, {});
    if eq <= 0 {
      return;
    }
    ghost var h1, done: set<nat> := d.hypotMap[..], {} + {4};
    FreeShrinks(h, h1);
    eq := EquivChild(d, cand, canon, 3, pairs, h0, done);
    ExtendsTrans(h, h1, d.hypotMap[..]);
    if eq == 1 { ArrayDone(g, d.typeMap[..], h0, d.hypotMap[..], canon, cand, done + {3}); }
  }

  lemma SameLabelSymmetric(t: Words, u: Words)
    ensures SameLabel(t, u) <==> SameLabel(u, t)
  {
    if SameLabel(t, u) { SameLabelRefs(t, u); }
    if SameLabel(u, t) { SameLabelRefs(u, t); }
  }

  lemma SingleRefLabel(t: Words, u: Words)
    requires WellSized(t) && WellSized(u) && IsSingleRefKind(Kind(t)) && t[0] == u[0] && t[1] == u[1]
    ensures SameLabel(t, u) && IsRef(t, 2) && forall p: nat :: IsRef(t, p) ==> p == 2
  {
  }

  /** What paired records have in common. */
  lemma PairedNodes(g: TypeGraph, m: IdMap, h: IdMap, pairs: map<nat, nat>, canon: nat, cand: nat)
    requires WellFormed(g) && canon < |g| && cand < |g| && 3 <= |g[canon]| && 3 <= |g[cand]|
    ensures Paired(g, m, h, pairs, canon, cand) ==>
      && g[cand][0] == g[canon][0]
      && (IsFwd(g[cand]) != IsFwd(g[canon]) ==> ClassOf(g[cand]) == ClassOf(g[canon]))
      && (IsFwd(g[cand]) == IsFwd(g[canon]) ==> Kind(g[cand]) == Kind(g[canon]) && LikeRecords(g[cand], g[canon]))
  {
    if Paired(g, m, h, pairs, canon, cand) {
      assert CouldBeOne(g, m, pairs, canon, cand);
      if !IsPrimKind(Kind(g[canon])) && IsFwd(g[cand]) == IsFwd(g[canon]) { SameLabelRefs(g[cand], g[canon]); }
    }
  }

  /** Records of one kind that the comparison accepts, type IDs aside. */
  ghost predicate LikeRecords(t: Words, u: Words)
    requires 3 <= |t| && 3 <= |u|
  {
    if IsAnyEnum(t) then WellSized(t) && WellSized(u) && EnumsCompatible(t, u)
    else if IsPrimKind(Kind(t)) then t == u
    else SameLabel(t, u) && SameLabel(u, t) && t[1] == u[1]
  }

  /** Types without references: INT, ENUM, ENUM64, FWD and FLOAT of equal kind. */
  method EquivPrims(d: Dedup, cand: nat, canon: nat, ghost h0: IdMap) returns (eq: int)
    requires d.Valid() && d.Untouched() && HypotOk(d)
    requires 1 <= cand < |d.orig| && 1 <= canon < |d.orig|
    requires WellSized(d.orig[cand]) && WellSized(d.orig[canon])
    requires IsPrimKind(Kind(d.orig[cand])) && Kind(d.orig[cand]) == Kind(d.orig[canon])
    requires Pending(d.orig, d.typeMap[..], h0, d.hypotMap[..], canon, cand, {})
    ensures eq == 1 || eq == 0
    ensures eq == 1 ==> Settled(d.orig, d.typeMap[..], h0, d.hypotMap[..], canon, cand)
    ensures LikeRecords(d.orig[cand], d.orig[canon]) ==> eq == 1
  {
    ghost var g := d.orig;
    var t := d.btf.TypeById(cand);
    var u := d.btf.TypeById(canon);
    var k := Kind(t);
    var same;
    if k == KIND_INT {
      EqualIntTagMeansEqual(t, u);
      same := EqualIntTag(t, u);
    } else if IsEnumKind(k) {
      same := CompatEnum(t, u);
      WordsOfId(g, cand);
      WordsOfId(g, canon);
    } else {
      EqualCommonMeansEqual(t, u);
      same := EqualCommon(t, u);
      WordsOfId(g, cand);
    }
    if same {
      if t == u {
        EqualWordsBisim(g, canon, cand);
        PrimLeaf(g, canon, cand);
      } else {
        TagPair(g, canon, cand);
      }
      LeafDone(g, d.typeMap[..], h0, d.hypotMap[..], canon, cand);
    }
    eq := if same then 1 else 0;
  }

  lemma PrimLeaf(g: TypeGraph, a: nat, b: nat)
    requires WellFormed(g) && a < |g| && b < |g| && g[a] == g[b] && 3 <= |g[a]| && IsPrimKind(Kind(g[a]))
    ensures SameNodes(g, a, b)
    ensures forall p: nat :: !Followed(g, a, p)
  {
    SameLabelSameNodes(g, a, b);
    WordsOfId(g, a);
    forall p: nat ensures !Followed(g, a, p) {
      forall v: View | Binding(v, g) ensures !IsChild(v, g[a], p) {}
    }
  }
}
