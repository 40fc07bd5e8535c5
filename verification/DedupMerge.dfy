/** btf_dedup_merge_hypot_map: what a successful comparison of two structs settles
    about the types below them. */
module DedupMerge {
  import opened BtfWords
  import opened IdMaps
  import opened TypeMeaning
  import opened BtfSection
  import opened BtfCompare
  import opened DedupState
  import opened DedupEquiv

  /** What merging may change: a forward declaration is redirected, an undecided
      struct or union is given its canonical type. */
  ghost predicate Merged(g: TypeGraph, m0: IdMap, m: IdMap)
    requires WellFormed(g)
  {
    && |m| == |m0| == |g|
    && forall i :: 0 <= i < |g| ==>
         (m[i] == m0[i] ||
          (Mapped(m[i]) && m[i] != i && 3 <= |g[i]| &&
           (IsFwd(g[i]) || (IsComposite(g[i]) && !Mapped(m0[i])))))
  }

  /** One round of btf_dedup_merge_hypot_map: what becomes of the map for the
      roots `c` and `t` of a pair. */
  function MergePair(g: TypeGraph, m: IdMap, c: nat, t: nat): (m': IdMap)
    requires c < |g| && t < |g| && |m| == |g| && 3 <= |g[c]| && 3 <= |g[t]|
  {
    if !IsFwd(g[t]) && IsFwd(g[c]) then m[c := t]
    else if IsFwd(g[t]) && !IsFwd(g[c]) then m[t := c]
    else if IsComposite(g[t]) && !IsFwd(g[c]) && Mapped(m[c]) && !Mapped(m[t]) then m[t := c]
    else m
  }

  /** Merging two roots that mean the same never closes a cycle. */
  lemma MergePairSound(g: TypeGraph, m0: IdMap, m: IdMap, c: nat, t: nat)
    requires WellFormed(g) && Sound(g, m) && Merged(g, m0, m)
    requires c < |g| && t < |g| && 3 <= |g[c]| && 3 <= |g[t]|
    requires IsRoot(m, c) && IsRoot(m, t) && Bisim(g, c, t)
    ensures Sound(g, MergePair(g, m, c, t)) && Merged(g, m0, MergePair(g, m, c, t))
  {
    BisimSym(g, c, t);
    if !IsFwd(g[t]) && IsFwd(g[c]) {
      LinkToRoot(m, c, t);
    } else if IsFwd(g[t]) && !IsFwd(g[c]) {
      LinkToRoot(m, t, c);
    } else if IsComposite(g[t]) && !IsFwd(g[c]) && Mapped(m[c]) && !Mapped(m[t]) {
      LinkToRoot(m, t, c);
    }
  }

  lemma RootsBisim(g: TypeGraph, m: IdMap, a: nat, b: nat)
    requires WellFormed(g) && Sound(g, m) && a < |g| && b < |g| && Bisim(g, a, b)
    ensures Bisim(g, Root(m, a), Root(m, b))
  {
    RootSound(g, m, a);
    RootSound(g, m, b);
    BisimTrans(g, Root(m, a), a, b);
    BisimTrans(g, Root(m, a), b, Root(m, b));
  }

  /** Every recorded pair means the same. */
  ghost predicate PairsBisim(g: TypeGraph, hyp: IdMap)
    requires WellFormed(g)
  {
    InRange(hyp, |g|) && forall c :: 0 <= c < |g| && Mapped(hyp[c]) ==> Bisim(g, c, hyp[c])
  }

  // --------------------------------------------------- what merging does to the roots

  /** The ID resolves to something other than a forward declaration. */
  ghost predicate Resolved(g: TypeGraph, m: IdMap, x: nat)
    requires WellFormed(g) && |m| == |g| && Forest(m)
  {
    x < |g| && 3 <= |g[Root(m, x)]| && !IsFwd(g[Root(m, x)])
  }

  /** IDs that resolved to one type still do, and what is resolved stays so. */
  ghost predicate Onwards(g: TypeGraph, m: IdMap, m': IdMap)
    requires WellFormed(g)
  {
    && |m| == |g| == |m'| && Forest(m) && Forest(m')
    && (forall a, b :: 0 <= a < |g| && 0 <= b < |g| && Root(m, a) == Root(m, b) ==> Root(m', a) == Root(m', b))
    && (forall a :: 0 <= a < |g| && Resolved(g, m, a) ==> Resolved(g, m', a))
  }

  lemma OnwardsLink(g: TypeGraph, m: IdMap, x: nat, s: nat)
    requires WellFormed(g) && |m| == |g| && Forest(m) && x < |g| && s < |g| && Mapped(s) && IsRoot(m, x) && IsRoot(m, s) && s != x
    requires 3 <= |g[x]| && 3 <= |g[s]| && (IsFwd(g[x]) || !IsFwd(g[s]))
    ensures Onwards(g, m, m[x := s])
  {
    LinkedRoots(m, x, s);
  }

  /** An undecided root that is made canonical. */
  lemma OnwardsSelf(g: TypeGraph, m: IdMap, x: nat)
    requires WellFormed(g) && |m| == |g| && Forest(m) && x < |g| && IsRoot(m, x)
    ensures Onwards(g, m, m[x := x])
  {
    MakeRoot(m, x, x);
    forall i | 0 <= i < |g| ensures Root(m[x := x], i) == Root(m, i) {
      assert Ends(m, i, Height(m));
      SelfRoot(m, x, i, Height(m));
    }
  }

  lemma {:induction false} SelfRoot(m: IdMap, x: nat, i: nat, n: nat)
    requires Forest(m) && x < |m| && IsRoot(m, x) && i < |m| && Ends(m, i, n) && Forest(m[x := x])
    ensures Root(m[x := x], i) == Root(m, i)
    decreases n
  {
    RootStep(m, i);
    RootStep(m[x := x], i);
    if i != x && !IsRoot(m, i) { SelfRoot(m, x, m[i], n - 1); }
  }

  lemma OnwardsRefl(g: TypeGraph, m: IdMap)
    requires WellFormed(g) && |m| == |g| && Forest(m)
    ensures Onwards(g, m, m)
  {
  }

  lemma OnwardsTrans(g: TypeGraph, m1: IdMap, m2: IdMap, m3: IdMap)
    requires WellFormed(g) && Onwards(g, m1, m2) && Onwards(g, m2, m3)
    ensures Onwards(g, m1, m3)
  {
    hide Resolved;
  }

  /** What becomes of one recorded pair: if just one of the two resolved to a forward
      declaration, none does now; and an undecided struct or union whose partner was
      canonical has been given it. */
  ghost predicate PairMerged(g: TypeGraph, m0: IdMap, m: IdMap, c: nat, t: nat)
    requires WellFormed(g) && |m0| == |g| == |m| && Forest(m0) && Forest(m)
  {
    && c < |g| && t < |g|
    && (Resolved(g, m0, c) != Resolved(g, m0, t) ==> Resolved(g, m, c) && Resolved(g, m, t))
    && var r, u := Root(m0, c), Root(m0, t);
       (3 <= |g[r]| && 3 <= |g[u]| && IsComposite(g[r]) && IsComposite(g[u]) && Mapped(m0[r]) && !Mapped(m0[u])
        ==> Mapped(m[u]))
  }

  /** Canonical structs and unions stay what they are while pairs are merged. */
  ghost predicate Progress(g: TypeGraph, m0: IdMap, m: IdMap)
    requires WellFormed(g)
  {
    && Onwards(g, m0, m) && Merged(g, m0, m)
    && forall i :: 0 <= i < |g| ==> CanonicalKept(g, m0, m, i)
  }

  ghost predicate CanonicalKept(g: TypeGraph, m0: IdMap, m: IdMap, i: nat)
    requires WellFormed(g) && |m0| == |g| == |m| && Forest(m0) && Forest(m) && i < |g|
  {
    var r := Root(m0, i);
    3 <= |g[r]| && IsComposite(g[r]) && Mapped(m0[r]) ==> Root(m, i) == r
  }

  lemma ProgressStart(g: TypeGraph, m: IdMap)
    requires WellFormed(g) && |m| == |g| && Forest(m)
    ensures Progress(g, m, m)
  {
  }

  /** One round, seen from the roots: either nothing changes, or one root is linked to the other. */
  lemma RoundLinks(g: TypeGraph, m: IdMap, c: nat, t: nat) returns (x: nat, s: nat)
    requires WellFormed(g) && |m| == |g| && Forest(m) && c < |g| && t < |g| && 3 <= |g[c]| && 3 <= |g[t]|
    requires IsRoot(m, c) && IsRoot(m, t)
    ensures x < |g| && s < |g| && 3 <= |g[x]| && 3 <= |g[s]|
    ensures MergePair(g, m, c, t) == m ||
      (MergePair(g, m, c, t) == m[x := s] && IsRoot(m, x) && IsRoot(m, s) && x != s && Mapped(s) && !IsFwd(g[s]) &&
       (IsFwd(g[x]) || (IsComposite(g[x]) && !Mapped(m[x]))))
  {
    if !IsFwd(g[t]) && IsFwd(g[c]) { x, s := c, t; } else { x, s := t, c; }
  }

  lemma ProgressStep(g: TypeGraph, m0: IdMap, m: IdMap, c: nat, t: nat)
    requires WellFormed(g) && Progress(g, m0, m) && c < |g| && t < |g| && 3 <= |g[c]| && 3 <= |g[t]|
    requires IsRoot(m, c) && IsRoot(m, t) && Merged(g, m0, MergePair(g, m, c, t))
    ensures Progress(g, m0, MergePair(g, m, c, t)) && Onwards(g, m, MergePair(g, m, c, t))
  {
    hide Onwards, Resolved, MergePair, KindOf;
    var m' := MergePair(g, m, c, t);
    OnwardsForest(g, m0, m);
    var x, s := RoundLinks(g, m, c, t);
    if m' == m {
      OnwardsRefl(g, m);
    } else {
      OnwardsLink(g, m, x, s);
      OnwardsTrans(g, m0, m, m');
      OnwardsForest(g, m, m');
      LinkedRoots(m, x, s);
      forall i | 0 <= i < |g| ensures CanonicalKept(g, m0, m', i) { assert CanonicalKept(g, m0, m, i); }
    }
  }

  lemma OnwardsForest(g: TypeGraph, m: IdMap, m': IdMap)
    requires WellFormed(g) && Onwards(g, m, m')
    ensures |m| == |g| == |m'| && Forest(m) && Forest(m')
  {
  }

  /** What a round does for its own pair. */
  lemma RoundMerges(g: TypeGraph, m0: IdMap, m: IdMap, c: nat, t: nat)
    requires WellFormed(g) && Progress(g, m0, m) && c < |g| && t < |g| && Forest(m) && |m| == |g|
    requires 3 <= |g[Root(m, c)]| && 3 <= |g[Root(m, t)]|
    requires Progress(g, m0, MergePair(g, m, Root(m, c), Root(m, t)))
    ensures Forest(m0) && Forest(MergePair(g, m, Root(m, c), Root(m, t)))
    ensures PairMerged(g, m0, MergePair(g, m, Root(m, c), Root(m, t)), c, t)
  {
    hide KindOf, Forest, Onwards, MergePair;
    var cr, tr := Root(m, c), Root(m, t);
    var m' := MergePair(g, m, cr, tr);
    OnwardsForest(g, m0, m);
    OnwardsForest(g, m0, m');
    FwdResolvedBy(g, m0, m, c, t);
    CompositeDecidedBy(g, m0, m, c, t);
  }

  lemma FwdResolvedBy(g: TypeGraph, m0: IdMap, m: IdMap, c: nat, t: nat)
    requires WellFormed(g) && Onwards(g, m0, m) && c < |g| && t < |g|
    requires 3 <= |g[Root(m, c)]| && 3 <= |g[Root(m, t)]| && Forest(MergePair(g, m, Root(m, c), Root(m, t)))
    ensures var m' := MergePair(g, m, Root(m, c), Root(m, t));
      Resolved(g, m0, c) != Resolved(g, m0, t) ==> Resolved(g, m', c) && Resolved(g, m', t)
  {
    hide KindOf, Forest;
    var x, s := RoundLinks(g, m, Root(m, c), Root(m, t));
    if MergePair(g, m, Root(m, c), Root(m, t)) != m { LinkedRoots(m, x, s); }
    RootOfRoot(m, c);
    RootOfRoot(m, t);
  }

  lemma RootOfRoot(m: IdMap, i: nat)
    requires Forest(m) && i < |m|
    ensures Root(m, Root(m, i)) == Root(m, i)
  {
    RootStep(m, Root(m, i));
  }

  lemma CompositeDecidedBy(g: TypeGraph, m0: IdMap, m: IdMap, c: nat, t: nat)
    requires WellFormed(g) && Progress(g, m0, m) && c < |g| && t < |g| && |m0| == |g| == |m| && Forest(m0) && Forest(m)
    requires 3 <= |g[Root(m, c)]| && 3 <= |g[Root(m, t)]|
    ensures
      var m', r, u := MergePair(g, m, Root(m, c), Root(m, t)), Root(m0, c), Root(m0, t);
      3 <= |g[r]| && 3 <= |g[u]| && IsComposite(g[r]) && IsComposite(g[u]) && Mapped(m0[r]) && !Mapped(m0[u]) ==> Mapped(m'[u])
  {
    hide KindOf, Forest, Resolved;
    var r, u := Root(m0, c), Root(m0, t);
    assert CanonicalKept(g, m0, m, c);
    RootOfRoot(m0, t);
    if !Mapped(m[u]) { RootStep(m, u); }
  }

  lemma PairMergedOn(g: TypeGraph, m0: IdMap, m: IdMap, m': IdMap, c: nat, t: nat)
    requires WellFormed(g) && Onwards(g, m, m') && |m0| == |g| && Forest(m0) && |m| == |g| && Forest(m) && |m'| == |g| && Forest(m')
    requires PairMerged(g, m0, m, c, t) && forall i :: 0 <= i < |g| && Mapped(m[i]) ==> Mapped(m'[i])
    ensures PairMerged(g, m0, m', c, t)
  {
    hide KindOf, Forest, Resolved;
  }

  /** The map after the first `n` recorded pairs, each round taking the roots as they are then. */
  ghost function MergedUpTo(g: TypeGraph, m0: IdMap, list: seq<nat>, hyp: IdMap, n: nat): IdMap
    requires n <= |list|
  {
    if n == 0 then m0
    else
      var m, c := MergedUpTo(g, m0, list, hyp, n - 1), list[n - 1];
      if c < |hyp| then Round(g, m, c, hyp[c]) else m
  }

  ghost function Round(g: TypeGraph, m: IdMap, c: nat, t: nat): IdMap {
    if c < |g| && t < |g| && |m| == |g| && Forest(m) && 3 <= |g[Root(m, c)]| && 3 <= |g[Root(m, t)]| then MergePair(g, m, Root(m, c), Root(m, t)) else m
  }

  /** The ID means what some recorded pair means. */
  ghost predicate Along(g: TypeGraph, hyp: IdMap, i: nat)
    requires WellFormed(g) && |hyp| == |g| && i < |g|
  {
    exists c :: 0 <= c < |hyp| && Mapped(hyp[c]) && hyp[c] < |g| && Bisim(g, c, i) && Bisim(g, hyp[c], i)
  }

  /** Nothing has changed but what some recorded pair means. */
  ghost predicate AllAlong(g: TypeGraph, m0: IdMap, m: IdMap, hyp: IdMap)
    requires WellFormed(g) && |hyp| == |g|
  {
    |m0| == |g| == |m| && forall i :: 0 <= i < |g| && m[i] != m0[i] ==> Along(g, hyp, i)
  }

  lemma RoundAlong(g: TypeGraph, m0: IdMap, m: IdMap, hyp: IdMap, c: nat)
    requires WellFormed(g) && Sound(g, m) && |hyp| == |g| && c < |g| && Mapped(hyp[c]) && hyp[c] < |g| && Bisim(g, c, hyp[c])
    requires AllAlong(g, m0, m, hyp) && 3 <= |g[Root(m, c)]| && 3 <= |g[Root(m, hyp[c])]|
    ensures AllAlong(g, m0, MergePair(g, m, Root(m, c), Root(m, hyp[c])), hyp)
  {
    hide Bisim, KindOf, Forest;
    RootSound(g, m, c);
    RootSound(g, m, hyp[c]);
    BisimTrans(g, c, hyp[c], Root(m, hyp[c]));
    BisimSym(g, c, hyp[c]);
    BisimTrans(g, hyp[c], c, Root(m, c));
  }

  /** All that a round keeps, and what it adds. */
  lemma RoundKeeps(g: TypeGraph, m0: IdMap, m: IdMap, list: seq<nat>, hyp: IdMap, n: nat)
    requires WellFormed(g) && Sound(g, m) && Progress(g, m0, m) && n < |list| && PairsBisim(g, hyp)
    requires forall i :: 0 <= i < |list| ==> list[i] < |g| && Mapped(hyp[list[i]])
    requires m == MergedUpTo(g, m0, list, hyp, n) && AllMerged(g, m0, m, list, hyp, n) && AllAlong(g, m0, m, hyp)
    ensures
      var c, t := Root(m, list[n]), Root(m, hyp[list[n]]);
      3 <= |g[c]| && 3 <= |g[t]| && (var m' := MergePair(g, m, c, t);
      Sound(g, m') && Progress(g, m0, m') && m' == MergedUpTo(g, m0, list, hyp, n + 1) && AllMerged(g, m0, m', list, hyp, n + 1) &&
      AllAlong(g, m0, m', hyp))
  {
    hide KindOf, Forest, Onwards, MergePair, Bisim, Resolved, PairMerged, Merged, CanonicalKept, VlenOf, SizeOf, IsRefPos, Along;
    RoundAlong(g, m0, m, hyp, list[n]);
    var c, t := Root(m, list[n]), Root(m, hyp[list[n]]);
    WordsOfId(g, c);
    WordsOfId(g, t);
    RootsBisim(g, m, list[n], hyp[list[n]]);
    MergePairSound(g, m0, m, c, t);
    ProgressStep(g, m0, m, c, t);
    RoundMerges(g, m0, m, list[n], hyp[list[n]]);
    MergedMaps(g, m, c, t);
    forall k | 0 <= k < n ensures PairMerged(g, m0, MergePair(g, m, c, t), list[k], hyp[list[k]]) {
      PairMergedOn(g, m0, m, MergePair(g, m, c, t), list[k], hyp[list[k]]);
    }
  }

  lemma MergedMaps(g: TypeGraph, m: IdMap, c: nat, t: nat)
    requires WellFormed(g) && c < |g| && t < |g| && |m| == |g| && 3 <= |g[c]| && 3 <= |g[t]|
    ensures forall i :: 0 <= i < |g| && Mapped(m[i]) ==> Mapped(MergePair(g, m, c, t)[i])
  {
  }

  /** The first `n` recorded pairs have been merged. */
  ghost predicate AllMerged(g: TypeGraph, m0: IdMap, m: IdMap, list: seq<nat>, hyp: IdMap, n: nat)
    requires WellFormed(g)
  {
    && |m0| == |g| == |m| == |hyp| && Forest(m0) && Forest(m) && n <= |list|
    && forall k :: 0 <= k < n ==> list[k] < |g| && PairMerged(g, m0, m, list[k], hyp[list[k]])
  }

  /** btf_dedup_merge_hypot_map */
  method MergeHypotMap(d: Dedup)
    requires Ready(d) && PairsBisim(d.orig, d.hypotMap[..])
    modifies d.typeMap
    ensures Ready(d) && Merged(d.orig, old(d.typeMap[..]), d.typeMap[..])
    ensures Onwards(d.orig, old(d.typeMap[..]), d.typeMap[..])
    ensures AllAlong(d.orig, old(d.typeMap[..]), d.typeMap[..], d.hypotMap[..])
    ensures forall c :: 0 <= c < |d.orig| && Mapped(d.hypotMap[c]) ==>
      PairMerged(d.orig, old(d.typeMap[..]), d.typeMap[..], c, d.hypotMap[c])
    ensures d.typeMap[..] == MergedUpTo(d.orig, old(d.typeMap[..]), d.hypotList, d.hypotMap[..], |d.hypotList|)
  {
    hide Sound, Progress, AllMerged, PairMerged, Nested, KindOf, PairsBisim, Merged, MergePair, MergedUpTo, Onwards, Forest, Along;
    ghost var g, m0, list, hyp := d.orig, d.typeMap[..], d.hypotList, d.hypotMap[..];
    ghost var m := m0;
    MergeStart(g, m0, list, hyp);
    ListOk(d);
    var i := 0;
    while i < |d.hypotList|
      invariant 0 <= i <= |d.hypotList| && m == d.typeMap[..] && d.hypotList == list && d.hypotMap[..] == hyp
      invariant Sound(g, m) && Progress(g, m0, m) && m == MergedUpTo(g, m0, list, hyp, i) && AllMerged(g, m0, m, list, hyp, i)
      invariant AllAlong(g, m0, m, hyp)
    {
      SoundForest(g, m);
      RoundKeeps(g, m0, m, list, hyp, i);
      var canonId := d.hypotList[i];
      MergeOne(d, canonId);
      m := d.typeMap[..];
      i := i + 1;
    }
    MergeEnd(d, g, m0, m, list, hyp);
  }

  /** One recorded pair. */
  method MergeOne(d: Dedup, canonId: nat)
    requires Ready(d) && canonId < |d.orig| && d.hypotMap[canonId] < |d.orig|
    requires 3 <= |d.orig[Root(d.typeMap[..], canonId)]| && 3 <= |d.orig[Root(d.typeMap[..], d.hypotMap[canonId])]|
    modifies d.typeMap
    ensures d.typeMap[..] == MergePair(d.orig, old(d.typeMap[..]), Root(old(d.typeMap[..]), canonId), Root(old(d.typeMap[..]), d.hypotMap[canonId]))
  {
    hide Sound, Nested, KindOf, Forest;
    SoundForest(d.orig, d.typeMap[..]);
    ghost var m := d.typeMap[..];
    var targId := d.hypotMap[canonId];
    var tId := d.ResolveTypeId(targId);
    var cId := d.ResolveTypeId(canonId);
    var t := d.btf.TypeById(tId);
    var c := d.btf.TypeById(cId);
    var tKind, cKind := Kind(t), Kind(c);
    // the declared side gives way to the definition
    if tKind != KIND_FWD && cKind == KIND_FWD {
      d.typeMap[cId] := tId;
    }
    if tKind == KIND_FWD && cKind != KIND_FWD {
      d.typeMap[tId] := cId;
    }
    if (tKind == KIND_STRUCT || tKind == KIND_UNION) && cKind != KIND_FWD &&
       Mapped(d.typeMap[cId]) && !Mapped(d.typeMap[tId]) {
      d.typeMap[tId] := cId;
    }
    assert d.typeMap[..] == MergePair(d.orig, m, cId, tId);
  }

  lemma SoundForest(g: TypeGraph, m: IdMap)
    requires WellFormed(g) && Sound(g, m)
    ensures |m| == |g| && Forest(m)
  {
  }

  lemma MergeStart(g: TypeGraph, m: IdMap, list: seq<nat>, hyp: IdMap)
    requires WellFormed(g) && Sound(g, m) && |hyp| == |g|
    ensures Progress(g, m, m) && AllMerged(g, m, m, list, hyp, 0) && MergedUpTo(g, m, list, hyp, 0) == m
  {
    ProgressStart(g, m);
  }

  lemma ListOk(d: Dedup)
    requires Ready(d)
    ensures forall i :: 0 <= i < |d.hypotList| ==> d.hypotList[i] < |d.orig| && Mapped(d.hypotMap[..][d.hypotList[i]])
    ensures forall i :: 0 <= i < |d.hypotList| ==> d.hypotMap[d.hypotList[i]] < |d.orig|
  {
    assert forall i :: 0 <= i < |d.hypotList| ==> d.hypotList[i] in d.hypotList;
  }

  lemma MergeEnd(d: Dedup, g: TypeGraph, m0: IdMap, m: IdMap, list: seq<nat>, hyp: IdMap)
    requires WellFormed(g) && Progress(g, m0, m) && AllMerged(g, m0, m, list, hyp, |list|) && |hyp| == |g|
    requires forall c :: 0 <= c < |g| && Mapped(hyp[c]) ==> c in list
    ensures Merged(g, m0, m) && Onwards(g, m0, m)
    ensures |m| == |m0| == |g| && Forest(m0) && Forest(m)
    ensures forall c :: 0 <= c < |g| && Mapped(hyp[c]) ==> PairMerged(g, m0, m, c, hyp[c])
  {
    hide PairMerged, Onwards, Forest, Merged;
    OnwardsForest(g, m0, m);
    forall c | 0 <= c < |g| && Mapped(hyp[c]) ensures PairMerged(g, m0, m, c, hyp[c]) {
      var k :| 0 <= k < |list| && list[k] == c;
      assert PairMerged(g, m0, m, list[k], hyp[list[k]]);
    }
  }
}
