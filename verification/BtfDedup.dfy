/** btf__dedup: all passes in order, and what they achieve together. */
module BtfDedup {
  import opened BtfWords
  import opened IdMaps
  import opened TypeMeaning
  import opened BtfSection
  import opened DedupState
  import opened DedupEquiv
  import opened DedupMerge
  import opened DedupHistory
  import opened DedupPrims
  import opened DedupStructs
  import opened DedupRefs
  import opened DedupCompact

  // -------------------------------------------------- from one pass to the next

  /** The initial map is a forest of single IDs. */
  lemma EnterPrims(g: TypeGraph, m: IdMap)
    requires WellFormed(g) && |m| == |g| && forall i :: 0 <= i < |g| ==> m[i] == InitialEntry(g, i)
    ensures PrimInv(g, m, map[], 1)
  {
    forall i | 0 <= i < |m| ensures Ends(m, i, 0) { WordsOfId(g, i); }
    assert Bounded(m, 0);
    forall i | 0 <= i < |m| && Mapped(m[i]) ensures Bisim(g, i, m[i]) { BisimRefl(g, i); }
    forall h, x: nat ensures !InTable(map[], h, x) {}
  }

  /** The reference pass starts with every type of another kind decided. */
  lemma EnterRefs(g: TypeGraph, m: IdMap, table: Table, units: seq<set<nat>>)
    requires WellFormed(g) && StructInv(g, m, table, |g|, units)
    ensures RefInv(g, g, m, table, map[], 0) && Idle(m)
    ensures Complete(g) ==> Unique(g, m, false)
    ensures UnitsDeduped(g, units) ==> Unique(g, m, true)
    ensures forall i :: 0 <= i < |g| && 3 <= |g[i]| && IsVarKind(Kind(g[i])) ==> m[i] == i
  {
    RewrittenRefl(g);
    forall i | 0 <= i < |g|
      ensures RefId(g, g, m, table, map[], 0, i) && m[i] != BTF_IN_PROGRESS_ID
      ensures IsRefId(g, i) ==> m[i] == BTF_UNPROCESSED_ID
      ensures 3 <= |g[i]| && IsVarKind(Kind(g[i])) ==> m[i] == i
    {
      UndecidedRef(g, m, table, units, i);
      if Mapped(m[i]) {
        SameRefKind(g, i, m[i]);
        UndecidedRef(g, m, table, units, m[i]);
      }
    }
    forall h, x: nat | InTable(table, h, x) ensures !IsRefId(g, x) { WordsOfId(g, x); }
  }

  lemma UndecidedRef(g: TypeGraph, m: IdMap, table: Table, units: seq<set<nat>>, i: nat)
    requires WellFormed(g) && StructInv(g, m, table, |g|, units) && i < |g|
    ensures IsRefId(g, i) ==> m[i] == BTF_UNPROCESSED_ID
    ensures !IsRefId(g, i) ==> Mapped(m[i])
    ensures 3 <= |g[i]| && IsVarKind(Kind(g[i])) ==> m[i] == i
  {
    assert DecidedId(g, m, |g|, i);
    WordsOfId(g, i);
    if i > 0 { KindOfWellSized(g[i]); }
  }

  /** The reference pass leaves the other kinds as they are. */
  lemma StillUnique(g: TypeGraph, m0: IdMap, m: IdMap, composite: bool)
    requires WellFormed(g) && |m0| == |g| == |m| && Unique(g, m0, composite)
    requires forall i :: 0 <= i < |g| && !IsRefId(g, i) ==> m[i] == m0[i]
    ensures Unique(g, m, composite)
  {
    forall i, j | 1 <= i < |g| && 1 <= j < |g| && m[i] == i && m[j] == j && Bisim(g, i, j) &&
                  (if composite then IsComposite(g[i]) else IsPrimKind(Kind(g[i])))
      ensures i == j
    {
      SameRefKind(g, i, j);
    }
  }

  // ---------------------------------------------------------- the whole result

  /** Record `to[i]` of the result is the canonical type `rep[i]` of `i`, with
      each type ID in it replaced by the new ID of what it resolves to. */
  ghost predicate Renumbered(g0: TypeGraph, g: TypeGraph, rep: seq<nat>, to: seq<nat>, out: TypeGraph)
    requires WellFormed(g0)
  {
    && Rewritten(g0, g) && |rep| == |to| == |g0|
    && forall i :: 0 <= i < |g0| ==>
         rep[i] < |g0| && Bisim(g0, i, rep[i]) && to[i] < |out|
         && RecordRemapped(g[rep[i]], out[to[i]], to, |g[rep[i]]|)
  }

  /** Every ID still means what it meant, under its new number, in every binding
      view and to every depth; and nothing is left over. */
  ghost predicate Preserved(g: TypeGraph, out: TypeGraph, to: seq<nat>)
    requires WellFormed(g)
  {
    && WellFormed(out) && |to| == |g| && to[0] == 0
    && (forall i :: 0 <= i < |g| ==> to[i] < |out|)
    && (forall v: View, i, n: nat :: Binding(v, g) && 0 <= i < |g| ==> Alike(v, g, i, out, to[i], n))
    && (forall k :: 0 <= k < |out| ==> k in to)
  }

  /** The two IDs unfold to exactly the same tree, however deep one looks. */
  ghost predicate SameTree(g: TypeGraph, a: nat, b: nat)
    requires WellFormed(g) && a < |g| && b < |g|
  {
    forall n: nat :: Alike(Exact, g, a, g, b, n)
  }

  /** Distinct IDs mean different things. */
  ghost predicate NoDuplicates(g: TypeGraph)
    requires WellFormed(g)
  {
    forall a, b :: 0 <= a < |g| && 0 <= b < |g| && SameTree(g, a, b) ==> a == b
  }

  lemma RemappedLabel(t: Words, u: Words, to: seq<nat>)
    requires 3 <= |t| && RecordRemapped(t, u, to, |t|)
    requires forall p: nat :: IsRef(t, p) ==> t[p] < |to|
    ensures SameLabel(t, u) && (WellSized(t) ==> WellSized(u))
    ensures forall p: nat :: IsRef(u, p) <==> IsRef(t, p)
    ensures forall p: nat :: IsRef(t, p) ==> u[p] == to[t[p]]
  {
    assert !IsRef(t, 1);
    SameLabelRefs(t, u);
  }

  /** The record of `i` in the result, seen from the types as they were given. */
  lemma ResultRecord(g0: TypeGraph, g: TypeGraph, rep: seq<nat>, to: seq<nat>, out: TypeGraph, i: nat)
    requires WellFormed(g0) && Renumbered(g0, g, rep, to, out) && i < |g0|
    ensures |rep| == |to| == |g0| && rep[i] < |g0| == |g| && to[i] < |out| && Bisim(g0, i, rep[i])
    ensures SameLabel(g0[rep[i]], out[to[i]])
    ensures rep[i] > 0 ==> WellSized(out[to[i]])
    ensures forall p: nat :: IsRef(out[to[i]], p) <==> IsRef(g0[rep[i]], p)
    ensures forall p: nat :: IsRef(g0[rep[i]], p) ==>
      IsRef(g[rep[i]], p) && g[rep[i]][p] < |g0| && Bisim(g0, g0[rep[i]][p], g[rep[i]][p]) && out[to[i]][p] == to[g[rep[i]][p]]
  {
    var r := rep[i];
    RewrittenKinds(g0, g, r);
    RemappedLabel(g[r], out[to[i]], to);
    LabelChain(g0[r], g[r], out[to[i]]);
  }

  lemma LabelChain(t: Words, x: Words, u: Words)
    requires SameLabel(t, x) && SameLabel(x, u)
    ensures SameLabel(t, u)
  {
    SameLabelRefs(t, x);
    SameLabelRefs(x, u);
  }

  lemma ResultStep(v: View, g0: TypeGraph, g: TypeGraph, rep: seq<nat>, to: seq<nat>, out: TypeGraph, i: nat, n: nat)
    requires WellFormed(g0) && WellFormed(out) && Renumbered(g0, g, rep, to, out) && i < |g0| && Binding(v, g0)
    requires forall j :: 0 <= j < |g0| ==> Alike(v, g0, j, out, to[j], n)
    ensures Alike(v, g0, i, out, to[i], n + 1)
  {
    hide Alike, Bisim, Rewritten, Renumbered, SameLabel, KindOf;
    ResultRecord(g0, g, rep, to, out, i);
    var r := rep[i];
    forall p: nat | IsRef(g0[r], p) ensures Alike(v, g0, g0[r][p], out, out[to[i]][p], n) {
      ThenAlike(v, g0, g0[r][p], g[r][p], out, to[g[r][p]], n);
    }
    AlikeStep(v, g0, r, out, to[i], n + 1);
    ThenAlike(v, g0, i, r, out, to[i], n + 1);
  }

  lemma ThenAlike(v: View, g0: TypeGraph, a: nat, b: nat, out: TypeGraph, c: nat, n: nat)
    requires WellFormed(g0) && WellFormed(out) && a < |g0| && b < |g0| && c < |out| && Binding(v, g0)
    requires Bisim(g0, a, b) && Alike(v, g0, b, out, c, n)
    ensures Alike(v, g0, a, out, c, n)
  {
    AlikeTrans(v, g0, a, g0, b, out, c, n);
  }

  /** Every ID means what it meant. */
  lemma {:induction false} ResultAlike(v: View, g0: TypeGraph, g: TypeGraph, rep: seq<nat>, to: seq<nat>, out: TypeGraph, n: nat)
    requires WellFormed(g0) && WellFormed(out) && Renumbered(g0, g, rep, to, out) && Binding(v, g0)
    ensures forall i :: 0 <= i < |g0| ==> Alike(v, g0, i, out, to[i], n)
    decreases n
  {
    hide Rewritten, RecordRemapped, Bisim, SameNode;
    if n > 0 {
      ResultAlike(v, g0, g, rep, to, out, n - 1);
      forall i | 0 <= i < |g0| ensures Alike(v, g0, i, out, to[i], n) {
        ResultStep(v, g0, g, rep, to, out, i, n - 1);
      }
    }
  }

  /** The representatives that the canonical map gives. */
  ghost function Roots(m: IdMap): (rep: seq<nat>)
    requires Forest(m)
    ensures |rep| == |m|
  {
    seq(|m|, i requires 0 <= i < |m| => Root(m, i))
  }

  /** Every ID resolves to a canonical type, which has a place in the result. */
  lemma Placed(g0: TypeGraph, s: Snap, hyp: IdMap, i: nat)
    requires WellFormed(g0) && Good(g0, s) && DecidedBelow(s.m, |g0|) && NewIdsBelow(s.m, hyp, |g0|) && i < |g0|
    ensures Forest(s.m) && s.m[Root(s.m, i)] == Root(s.m, i) && Bisim(g0, i, Root(s.m, i))
    ensures NewIds(s.m, hyp)[i] == CanonBelow(s.m, Root(s.m, i)) < CanonBelow(s.m, |g0|)
    ensures Mapped(NewIds(s.m, hyp)[i])
  {
    ResolvedRoot(g0, s.g, s.m, s.table, s.finish, s.clock, i);
    KeptAt(s.g, s.m, Root(s.m, i), |g0|);
  }

  lemma ResultRenumbered(g0: TypeGraph, s: Snap, hyp: IdMap, out: TypeGraph)
    requires WellFormed(g0) && Good(g0, s) && DecidedBelow(s.m, |g0|) && NewIdsBelow(s.m, hyp, |g0|)
    requires Forest(s.m) && Remapped(Kept(s.g, s.m, |g0|), out, NewIds(s.m, hyp))
    ensures Renumbered(g0, s.g, Roots(s.m), NewIds(s.m, hyp), out)
  {
    var to, rep := NewIds(s.m, hyp), Roots(s.m);
    forall i | 0 <= i < |g0|
      ensures rep[i] < |g0| && Bisim(g0, i, rep[i]) && to[i] < |out|
      ensures RecordRemapped(s.g[rep[i]], out[to[i]], to, |s.g[rep[i]]|)
    {
      Placed(g0, s, hyp, i);
      KeptAt(s.g, s.m, rep[i], |g0|);
    }
  }

  /** Every record of the result is the place of a canonical type. */
  lemma ResultFrom(g0: TypeGraph, s: Snap, hyp: IdMap, k: nat) returns (r: nat)
    requires WellFormed(g0) && Good(g0, s) && DecidedBelow(s.m, |g0|) && NewIdsBelow(s.m, hyp, |g0|)
    requires Forest(s.m) && k < CanonBelow(s.m, |g0|)
    ensures r < |g0| && s.m[r] == r && Roots(s.m)[r] == r && NewIds(s.m, hyp)[r] == k
  {
    r := KeptFrom(s.g, s.m, k, |g0|);
    RootStep(s.m, r);
  }

  lemma ResultWellFormed(g0: TypeGraph, s: Snap, hyp: IdMap, out: TypeGraph)
    requires WellFormed(g0) && Good(g0, s) && DecidedBelow(s.m, |g0|) && NewIdsBelow(s.m, hyp, |g0|)
    requires Forest(s.m) && Remapped(Kept(s.g, s.m, |g0|), out, NewIds(s.m, hyp))
    ensures WellFormed(out) && NewIds(s.m, hyp)[0] == 0
  {
    var to, rep := NewIds(s.m, hyp), Roots(s.m);
    ResultRenumbered(g0, s, hyp, out);
    VoidFirst(g0, s, hyp);
    forall k | 0 <= k < |out|
      ensures 1 <= k ==> WellSized(out[k])
      ensures forall p: nat :: IsRef(out[k], p) ==> out[k][p] < |out|
    {
      var r := ResultFrom(g0, s, hyp, k);
      ResultRecord(g0, s.g, rep, to, out, r);
    }
    assert RecordRemapped(Kept(s.g, s.m, |g0|)[0], out[0], to, 3);
  }

  /** Void keeps its ID. */
  lemma VoidFirst(g0: TypeGraph, s: Snap, hyp: IdMap)
    requires WellFormed(g0) && Good(g0, s) && DecidedBelow(s.m, |g0|) && NewIdsBelow(s.m, hyp, |g0|)
    ensures Forest(s.m) && Root(s.m, 0) == 0 && s.m[0] == 0 && NewIds(s.m, hyp)[0] == 0
    ensures 0 < |Kept(s.g, s.m, |g0|)| && Kept(s.g, s.m, |g0|)[0] == VOID
  {
    hide Good, Bisim, DecidedBelow, Forest;
    Placed(g0, s, hyp, 0);
    OnlyVoid(g0, Root(s.m, 0));
    GoodVoid(g0, s);
    KeptAt(s.g, s.m, 0, |g0|);
  }

  lemma GoodVoid(g0: TypeGraph, s: Snap)
    requires WellFormed(g0) && Good(g0, s)
    ensures |s.g| == |s.m| == |g0| && s.g[0] == VOID
  {
  }

  lemma OnlyVoid(g: TypeGraph, r: nat)
    requires WellFormed(g) && r < |g| && Bisim(g, 0, r)
    ensures r == 0
  {
    BisimUnfold(g, 0, r);
    assert SameNode(Tag, g[0], g[r]);
    WordsOfId(g, r);
  }

  /** Meaning is preserved by compaction and remapping. */
  lemma ResultPreserved(g0: TypeGraph, s: Snap, hyp: IdMap, out: TypeGraph)
    requires WellFormed(g0) && Good(g0, s) && DecidedBelow(s.m, |g0|) && NewIdsBelow(s.m, hyp, |g0|)
    requires Forest(s.m) && Remapped(Kept(s.g, s.m, |g0|), out, NewIds(s.m, hyp))
    ensures Preserved(g0, out, NewIds(s.m, hyp))
  {
    var to := NewIds(s.m, hyp);
    ResultRenumbered(g0, s, hyp, out);
    ResultWellFormed(g0, s, hyp, out);
    forall v: View, i, n: nat | Binding(v, g0) && 0 <= i < |g0| ensures Alike(v, g0, i, out, to[i], n) {
      ResultAlike(v, g0, s.g, Roots(s.m), to, out, n);
    }
    forall k | 0 <= k < |out| ensures k in to {
      var r := ResultFrom(g0, s, hyp, k);
    }
  }

  /** Two IDs of the result mean the same exactly when the canonical types behind them do. */
  lemma ResultBisim(g: TypeGraph, out: TypeGraph, to: seq<nat>, x: nat, y: nat)
    requires WellFormed(g) && Complete(g) && Preserved(g, out, to) && x < |g| && y < |g|
    ensures Bisim(g, x, y) <==> SameTree(out, to[x], to[y])
  {
    if Bisim(g, x, y) {
      forall n: nat ensures Alike(Exact, out, to[x], out, to[y], n) {
        AlikeSym(Exact, g, x, out, to[x], n);
        AlikeTrans(Exact, out, to[x], g, x, g, y, n);
        AlikeTrans(Exact, out, to[x], g, y, out, to[y], n);
      }
    }
    if SameTree(out, to[x], to[y]) {
      forall v: View, n: nat ensures Alike(v, g, x, g, y, n) {
        AlikeSym(Exact, g, y, out, to[y], n);
        AlikeTrans(Exact, g, x, out, to[x], out, to[y], n);
        AlikeTrans(Exact, g, x, out, to[y], g, y, n);
        if v.Tag? { ExactImpliesTag(g, x, y, n); }
      }
    }
  }

  /** The result is free of duplicates exactly when the canonical types were. */
  lemma ResultUnique(g0: TypeGraph, s: Snap, hyp: IdMap, out: TypeGraph)
    requires WellFormed(g0) && Complete(g0) && Good(g0, s) && DecidedBelow(s.m, |g0|) && NewIdsBelow(s.m, hyp, |g0|)
    requires Forest(s.m) && |out| == CanonBelow(s.m, |g0|) && Preserved(g0, out, NewIds(s.m, hyp))
    ensures NoDuplicates(out) <==> AllUnique(g0, s.m)
  {
    hide KindOf, VlenOf, SizeOf, IsRefPos, Bisim;
    var to := NewIds(s.m, hyp);
    if AllUnique(g0, s.m) {
      forall a, b | 0 <= a < |out| && 0 <= b < |out| && SameTree(out, a, b)
        ensures a == b
      {
        var x := ResultFrom(g0, s, hyp, a);
        var y := ResultFrom(g0, s, hyp, b);
        ResultBisim(g0, out, to, x, y);
      }
    }
    if NoDuplicates(out) {
      forall x, y | 0 <= x < |g0| && 0 <= y < |g0| && s.m[x] == x && s.m[y] == y && Bisim(g0, x, y)
        ensures x == y
      {
        ResultBisim(g0, out, to, x, y);
        RootStep(s.m, x);
        RootStep(s.m, y);
        if x < y { KeptOrder(s.m, x, y); }
        if y < x { KeptOrder(s.m, y, x); }
      }
    }
  }

  /** A BTF without duplicates loses nothing to another run: no two IDs are joined. */
  lemma SecondRunKeepsAll(g: TypeGraph, out: TypeGraph, to: seq<nat>, x: nat, y: nat)
    requires WellFormed(g) && Complete(g) && Preserved(g, out, to) && NoDuplicates(g)
    requires x < |g| && y < |g| && to[x] == to[y]
    ensures x == y
  {
    forall n: nat ensures Alike(Exact, out, to[x], out, to[y], n) { AlikeRefl(Exact, out, to[x], n); }
    assert SameTree(out, to[x], to[y]);
    ResultBisim(g, out, to, x, y);
    assert Bisim(g, x, y) && SameTree(g, x, y);
  }

  // ------------------------------------------------------------------ btf__dedup

  /** What deduplication of `g` may leave behind. */
  ghost predicate Deduplicated(g: TypeGraph, out: TypeGraph, to: seq<nat>, units: seq<set<nat>>)
    requires WellFormed(g)
  {
    && Preserved(g, out, to) && |out| <= |g|
    && (UnitsDeduped(g, units) ==> (NoDuplicates(out) <==> VarsDistinct(g)))
  }

  /** The new ID stands for a definition: a struct or union, if there was only a
      forward declaration. */
  ghost predicate Defined(g: TypeGraph, out: TypeGraph, to: seq<nat>, x: nat)
    requires WellFormed(g) && |to| == |g|
  {
    && x < |g| && to[x] < |out| && 3 <= |out[to[x]]| && !IsFwd(out[to[x]])
    && (IsFwdId(g, x) ==> IsComposite(out[to[x]]))
  }

  /** A declaration and a definition of one type: both are definitions now. */
  ghost predicate BothDefined(g: TypeGraph, out: TypeGraph, to: seq<nat>, x: nat, y: nat)
    requires WellFormed(g) && |to| == |g|
  {
    x < |g| && y < |g| && (IsFwdId(g, x) != IsFwdId(g, y) ==> Defined(g, out, to, x) && Defined(g, out, to, y))
  }

  /** The merge in the result: its pairs are closed under references, and no pair, nor
      what the records of a pair refer to, holds a declaration where the other side
      has a definition. */
  ghost predicate MergeDone(g: TypeGraph, out: TypeGraph, to: seq<nat>, e: Merge)
    requires WellFormed(g) && |to| == |g|
  {
    && Closed(g, e)
    && (forall c :: 0 <= c < |g| && Mapped(e.hyp[c]) ==> BothDefined(g, out, to, c, e.hyp[c]))
    && (forall c, p: nat :: 0 <= c < |g| && Mapped(e.hyp[c]) && Followable(g, c, e.hyp[c]) && IsRef(g[c], p) ==>
          IsRef(g[e.hyp[c]], p) && BothDefined(g, out, to, g[c][p], g[e.hyp[c]][p]))
  }

  predicate Followable(g: TypeGraph, a: nat, b: nat) {
    a < |g| && b < |g| && KindAt(g, a) == KindAt(g, b) && !IsPrimKind(KindAt(g, a))
  }

  /** What the merges have come to, and that every struct or union that shares its new
      ID with another was part of one. */
  ghost predicate Reported(g: TypeGraph, out: TypeGraph, to: seq<nat>, merges: seq<Merge>)
    requires WellFormed(g)
  {
    && |to| == |g| && (forall k :: 0 <= k < |merges| ==> MergeDone(g, out, to, merges[k]))
    && forall i, j :: 0 <= i < |g| && 0 <= j < |g| && i != j && IsCompositeId(g, i) && IsCompositeId(g, j) && to[i] == to[j] ==>
         exists k :: 0 <= k < |merges| && (Involves(g, merges[k], i) || Involves(g, merges[k], j))
  }

  predicate IsCompositeId(g: TypeGraph, x: nat)
    requires x < |g|
  {
    3 <= |g[x]| && IsComposite(g[x])
  }

  /** The reference pass leaves declarations and definitions where they are. */
  lemma RefsKeepTold(g: TypeGraph, m0: IdMap, m: IdMap, merges: seq<Merge>)
    requires WellFormed(g) && Sound(g, m0) && Sound(g, m) && Told(g, m0, merges) && Accounted(g, m0, merges)
    requires forall i :: 0 <= i < |g| && !IsRefId(g, i) ==> m[i] == m0[i]
    ensures |m| == |g| && Told(g, m, merges) && Accounted(g, m, merges)
  {
    hide Bisim, Forest, KindOf, Honoured, Involves;
    forall a | 0 <= a < |g| && Resolved(g, m0, a) ensures Resolved(g, m, a) { RefsKeepResolved(g, m0, m, a); }
    ToldOn(g, m0, m, merges);
    forall i | 0 <= i < |g| && NotCanonical(g, m, i) ensures exists k :: 0 <= k < |merges| && Involves(g, merges[k], i) {
      assert NotCanonical(g, m0, i);
    }
  }

  lemma RefsKeepResolved(g: TypeGraph, m0: IdMap, m: IdMap, a: nat)
    requires WellFormed(g) && Sound(g, m0) && Sound(g, m) && a < |g| && Resolved(g, m0, a)
    requires forall i :: 0 <= i < |g| && !IsRefId(g, i) ==> m[i] == m0[i]
    ensures Resolved(g, m, a)
  {
    hide Bisim, KindOf;
    RootSound(g, m, a);
    SameRefKind(g, a, Root(m, a));
    WordsOfId(g, Root(m, a));
    if !IsRefId(g, a) {
      assert Ends(m0, a, Height(m0));
      SameRoots(g, m0, m, a, Height(m0));
    }
  }

  lemma {:induction false} SameRoots(g: TypeGraph, m0: IdMap, m: IdMap, a: nat, n: nat)
    requires WellFormed(g) && Sound(g, m0) && Sound(g, m) && a < |g| && !IsRefId(g, a) && Ends(m0, a, n)
    requires forall i :: 0 <= i < |g| && !IsRefId(g, i) ==> m[i] == m0[i]
    ensures Root(m, a) == Root(m0, a)
    decreases n
  {
    hide Bisim;
    RootStep(m0, a);
    RootStep(m, a);
    if !IsRoot(m0, a) {
      SameRefKind(g, a, m0[a]);
      SameRoots(g, m0, m, m0[a], n - 1);
    }
  }

  lemma ResolvedDefined(g0: TypeGraph, g: TypeGraph, m: IdMap, to: seq<nat>, out: TypeGraph, x: nat)
    requires WellFormed(g0) && Sound(g0, m) && Renumbered(g0, g, Roots(m), to, out) && x < |g0| && Resolved(g0, m, x)
    ensures |to| == |g0| && Defined(g0, out, to, x)
  {
    hide Bisim, KindOf, KFlag;
    ResultRecord(g0, g, Roots(m), to, out, x);
    SameLabelRefs(g0[Root(m, x)], out[to[x]]);
    if IsFwdId(g0, x) { FwdToComposite(g0, m, x); }
  }

  lemma FwdToComposite(g: TypeGraph, m: IdMap, x: nat)
    requires WellFormed(g) && Sound(g, m) && x < |g| && IsFwdId(g, x) && Resolved(g, m, x)
    ensures IsComposite(g[Root(m, x)])
  {
    hide Forest, KFlag;
    RootSound(g, m, x);
    BisimUnfold(g, x, Root(m, x));
    WordsOfId(g, x);
    assert SameNode(Tag, g[x], g[Root(m, x)]);
  }

  lemma PairDone(g0: TypeGraph, g: TypeGraph, m: IdMap, to: seq<nat>, out: TypeGraph, x: nat, y: nat)
    requires WellFormed(g0) && Sound(g0, m) && Renumbered(g0, g, Roots(m), to, out) && PairResolved(g0, m, x, y)
    ensures |to| == |g0| && BothDefined(g0, out, to, x, y)
  {
    hide Bisim, KindOf, Renumbered, Resolved, Defined, Forest;
    if IsFwdId(g0, x) != IsFwdId(g0, y) {
      ResolvedDefined(g0, g, m, to, out, x);
      ResolvedDefined(g0, g, m, to, out, y);
    } else {
      RenumberedSize(g0, g, Roots(m), to, out);
    }
  }

  lemma RenumberedSize(g0: TypeGraph, g: TypeGraph, rep: seq<nat>, to: seq<nat>, out: TypeGraph)
    requires WellFormed(g0) && Renumbered(g0, g, rep, to, out)
    ensures |to| == |g0|
  {
  }

  lemma MergeKept(g0: TypeGraph, g: TypeGraph, m: IdMap, to: seq<nat>, out: TypeGraph, e: Merge)
    requires WellFormed(g0) && Sound(g0, m) && Renumbered(g0, g, Roots(m), to, out) && Honoured(g0, m, e)
    ensures |to| == |g0| && MergeDone(g0, out, to, e)
  {
    hide Bisim, KindOf, Renumbered, BothDefined, Met, Chased, PairResolved, Forest, Sound;
    RenumberedSize(g0, g, Roots(m), to, out);
    ClosedRange(g0, e);
    forall c | 0 <= c < |g0| && Mapped(e.hyp[c])
      ensures BothDefined(g0, out, to, c, e.hyp[c])
      ensures forall p: nat :: Followable(g0, c, e.hyp[c]) && IsRef(g0[c], p) ==>
                IsRef(g0[e.hyp[c]], p) && BothDefined(g0, out, to, g0[c][p], g0[e.hyp[c]][p])
    {
      PairDone(g0, g, m, to, out, c, e.hyp[c]);
      forall p: nat | Followable(g0, c, e.hyp[c]) && IsRef(g0[c], p)
        ensures IsRef(g0[e.hyp[c]], p) && BothDefined(g0, out, to, g0[c][p], g0[e.hyp[c]][p])
      {
        ChildResolved(g0, m, e, c, p);
        PairDone(g0, g, m, to, out, g0[c][p], g0[e.hyp[c]][p]);
      }
    }
  }

  /** What has been told of the merges, in the result. */
  lemma ResultReported(g0: TypeGraph, s: Snap, hyp: IdMap, out: TypeGraph, merges: seq<Merge>)
    requires WellFormed(g0) && Good(g0, s) && DecidedBelow(s.m, |g0|) && NewIdsBelow(s.m, hyp, |g0|)
    requires Forest(s.m) && Remapped(Kept(s.g, s.m, |g0|), out, NewIds(s.m, hyp))
    requires |s.m| == |g0| && Sound(g0, s.m) && Told(g0, s.m, merges) && Accounted(g0, s.m, merges)
    ensures Reported(g0, out, NewIds(s.m, hyp), merges)
  {
    hide Bisim, KindOf, Honoured, Involves, MergeDone, Renumbered, Good, Remapped, Kept, NewIds, DecidedBelow;
    var to := NewIds(s.m, hyp);
    ResultRenumbered(g0, s, hyp, out);
    RenumberedSize(g0, s.g, Roots(s.m), to, out);
    forall k | 0 <= k < |merges| ensures MergeDone(g0, out, to, merges[k]) { MergeKept(g0, s.g, s.m, to, out, merges[k]); }
    forall i, j | 0 <= i < |g0| && 0 <= j < |g0| && i != j && IsCompositeId(g0, i) && IsCompositeId(g0, j) && to[i] == to[j]
      ensures exists k :: 0 <= k < |merges| && (Involves(g0, merges[k], i) || Involves(g0, merges[k], j))
    {
      OneNotCanonical(g0, s, hyp, i, j);
      if NotCanonical(g0, s.m, i) {
        var k :| 0 <= k < |merges| && Involves(g0, merges[k], i);
      } else {
        var k :| 0 <= k < |merges| && Involves(g0, merges[k], j);
      }
    }
  }

  /** Distinct canonical types have distinct new IDs. */
  lemma OneNotCanonical(g0: TypeGraph, s: Snap, hyp: IdMap, i: nat, j: nat)
    requires WellFormed(g0) && Good(g0, s) && DecidedBelow(s.m, |g0|) && NewIdsBelow(s.m, hyp, |g0|) && Forest(s.m) && |s.m| == |g0|
    requires i < |g0| && j < |g0| && i != j && IsCompositeId(g0, i) && IsCompositeId(g0, j)
    requires |NewIds(s.m, hyp)| == |g0| && NewIds(s.m, hyp)[i] == NewIds(s.m, hyp)[j]
    ensures NotCanonical(g0, s.m, i) || NotCanonical(g0, s.m, j)
  {
    hide Bisim, KindOf, Good;
    Placed(g0, s, hyp, i);
    Placed(g0, s, hyp, j);
    assert Mapped(s.m[i]) && Mapped(s.m[j]);
    if s.m[i] == i && s.m[j] == j {
      RootStep(s.m, i);
      RootStep(s.m, j);
      if i < j { KeptOrder(s.m, i, j); } else { KeptOrder(s.m, j, i); }
    }
  }

  /** The state of a run up to the point where every type has its canonical type. */
  ghost predicate Canonized(d: Dedup, units: seq<set<nat>>)
    reads d`table, d`finish, d`clock, d.btf, d.btf.data, d.btf.offs, d.typeMap
  {
    && RefState(d) && DecidedBelow(d.typeMap[..], |d.orig|) && !HasRefCycle(d.orig)
    && (UnitsDeduped(d.orig, units) ==> Complete(d.orig) && (AllUnique(d.orig, d.typeMap[..]) <==> VarsDistinct(d.orig)))
  }

  /** What the struct pass has merged. */
  ghost predicate OnRecord(d: Dedup, merges: seq<Merge>)
    reads d.typeMap
  {
    WellFormed(d.orig) && Sound(d.orig, d.typeMap[..]) && Told(d.orig, d.typeMap[..], merges) && Accounted(d.orig, d.typeMap[..], merges)
  }

  lemma InitialHypot(d: Dedup)
    requires d.hypotList == [] && forall i :: 0 <= i < d.hypotMap.Length ==> d.hypotMap[i] == BTF_UNPROCESSED_ID
    ensures HypotOk(d)
  {
  }

  lemma CanonizedUnique(g: TypeGraph, m0: IdMap, s: Snap, units: seq<set<nat>>)
    requires WellFormed(g) && Good(g, s) && DecidedBelow(s.m, |g|) && |m0| == |g| == |s.m|
    requires forall i :: 0 <= i < |g| && !IsRefId(g, i) ==> s.m[i] == m0[i]
    requires forall i :: 0 <= i < |g| && 3 <= |g[i]| && IsVarKind(Kind(g[i])) ==> m0[i] == i
    requires Complete(g) ==> Unique(g, m0, false)
    requires UnitsDeduped(g, units) ==> Unique(g, m0, true)
    ensures UnitsDeduped(g, units) ==> Complete(g) && (AllUnique(g, s.m) <==> VarsDistinct(g))
  {
    if UnitsDeduped(g, units) {
      assert DupFree(g, units[0]);
      StillUnique(g, m0, s.m, false);
      StillUnique(g, m0, s.m, true);
      CanonicalsUnique(g, s);
    }
  }

  /** The four passes that decide what is canonical. */
  method Canonize(d: Dedup, ghost units: seq<set<nat>>) returns (err: int, ghost merges: seq<Merge>)
    requires d.Valid() && d.Untouched() && d.hypotList == [] && d.table == map[] && d.finish == map[] && d.clock == 0
    requires forall i :: 0 <= i < |d.orig| ==> d.hypotMap[i] == BTF_UNPROCESSED_ID
    requires forall i :: 0 <= i < |d.orig| ==> d.typeMap[i] == InitialEntry(d.orig, i)
    modifies d.btf.data, d.typeMap, d.hypotMap, d`hypotList, d`table, d`finish, d`clock
    ensures d.Valid()
    ensures err == 0 || (err == -EINVAL && OddRefs(d.orig)) || (err == -ELOOP && HasRefCycle(d.orig))
    ensures err == 0 ==> Canonized(d, units) && OnRecord(d, merges)
  {
    hide PrimInv, StructInv, Sound, HypotOk, Nested, OddRefs, HasRefCycle, RefInv, Good, Unique, UnitsDeduped, Complete,
      InitialEntry, AllUnique, VarsDistinct, DecidedBelow, Idle, IsRefId, Told, Accounted;
    ghost var g := d.orig;
    InitialHypot(d);
    EnterPrims(g, d.typeMap[..]);
    DedupPrimTypes(d);
    EnterStructs(g, d.typeMap[..], d.table, units);
    PrimSound(g, d.typeMap[..], d.table);
    err, merges := DedupStructTypes(d, units);
    if err != 0 {
      return;
    }
    ResolveFwds(d, units, merges);
    ghost var m0 := d.typeMap[..];
    EnterRefs(g, m0, d.table, units);
    StartsGood(g, m0, d.table);
    err := DedupRefTypes(d);
    if err != 0 {
      return;
    }
    CanonizedUnique(g, m0, SnapOf(d), units);
    GoodSound(g, SnapOf(d));
    RefsKeepTold(g, m0, d.typeMap[..], merges);
  }

  lemma GoodSound(g0: TypeGraph, s: Snap)
    requires WellFormed(g0) && Good(g0, s)
    ensures Sound(g0, s.m)
  {
  }

  lemma PrimSound(g: TypeGraph, m: IdMap, table: Table)
    requires WellFormed(g) && PrimInv(g, m, table, |g|)
    ensures Sound(g, m)
  {
  }

  lemma StartsGood(g: TypeGraph, m: IdMap, table: Table)
    requires WellFormed(g) && RefInv(g, g, m, table, map[], 0)
    ensures Good(g, Snap(g, m, table, map[], 0))
  {
  }

  /** Compaction and renumbering of a decided run. */
  method Compact(d: Dedup, ghost units: seq<set<nat>>, ghost merges: seq<Merge>) returns (err: int, ghost newId: seq<nat>)
    requires Canonized(d, units) && OnRecord(d, merges)
    modifies d.hypotMap, d.btf`nr, d.btf`len, d.btf.data, d.btf.offs
    ensures err == 0 && d.btf.Valid() && Deduplicated(d.orig, d.btf.Types(), newId, units)
    ensures Reported(d.orig, d.btf.Types(), newId, merges)
  {
    hide Good, Told, Accounted, Reported, Sound, DecidedBelow, HasRefCycle, AllUnique, VarsDistinct, UnitsDeduped, Complete, Nested, NewIdsBelow,
      Tiles, NoDuplicates, Preserved, Kept, Remapped, Unplaced;
    ghost var g0, s := d.orig, SnapOf(d);
    ghost var kept := Kept(s.g, s.m, |g0|);
    VoidDecided(g0, s);
    CompactTypes(d);
    ghost var hyp := d.hypotMap[..];
    ToRemap(g0, s, hyp);
    newId := NewIds(s.m, hyp);
    err := RemapTypes(d, kept, newId);
    NonePlacedWrongly(g0, s, hyp);
    ghost var out := d.btf.Types();
    RemappedSize(kept, out, newId);
    ResultPreserved(g0, s, hyp, out);
    ResultFor(g0, s, hyp, out, units);
    ResultReported(g0, s, hyp, out, merges);
  }

  lemma RemappedSize(g: TypeGraph, g': TypeGraph, to: seq<nat>)
    requires Remapped(g, g', to)
    ensures |g'| == |g|
  {
  }

  lemma VoidDecided(g0: TypeGraph, s: Snap)
    requires WellFormed(g0) && Good(g0, s) && DecidedBelow(s.m, |g0|)
    ensures |s.m| == |g0| == |s.g| && s.m[0] == 0
  {
    ghost var hyp: IdMap := seq(|s.m|, i requires 0 <= i < |s.m| => if s.m[i] == i then CanonBelow(s.m, i) else BTF_UNPROCESSED_ID);
    VoidFirst(g0, s, hyp);
  }

  lemma ToRemap(g0: TypeGraph, s: Snap, hyp: IdMap)
    requires WellFormed(g0) && Good(g0, s) && DecidedBelow(s.m, |g0|) && NewIdsBelow(s.m, hyp, |g0|)
    ensures Forest(s.m) && |s.m| == |s.g| == |g0|
    ensures forall k :: 1 <= k < CanonBelow(s.m, |g0|) ==> WellSized(Kept(s.g, s.m, |g0|)[k])
    ensures forall k, p: nat :: 0 <= k < CanonBelow(s.m, |g0|) && IsRef(Kept(s.g, s.m, |g0|)[k], p) ==>
              Kept(s.g, s.m, |g0|)[k][p] < |g0|
  {
    VoidFirst(g0, s, hyp);
    forall k | 0 <= k < CanonBelow(s.m, |g0|)
      ensures 1 <= k ==> WellSized(Kept(s.g, s.m, |g0|)[k])
      ensures forall p: nat :: IsRef(Kept(s.g, s.m, |g0|)[k], p) ==> Kept(s.g, s.m, |g0|)[k][p] < |g0|
    {
      var r := ResultFrom(g0, s, hyp, k);
      Placed(g0, s, hyp, r);
      KeptAt(s.g, s.m, r, |g0|);
    }
  }

  /** Remapping never meets its error case: everything resolves to a kept type. */
  lemma NonePlacedWrongly(g0: TypeGraph, s: Snap, hyp: IdMap)
    requires WellFormed(g0) && Good(g0, s) && DecidedBelow(s.m, |g0|) && NewIdsBelow(s.m, hyp, |g0|)
    ensures Forest(s.m) && |hyp| == |s.m| && !Unplaced(NewIds(s.m, hyp))
  {
    Placed(g0, s, hyp, 0);
    forall x | 0 <= x < |g0| ensures Mapped(NewIds(s.m, hyp)[x]) { Placed(g0, s, hyp, x); }
  }

  lemma ResultFor(g0: TypeGraph, s: Snap, hyp: IdMap, out: TypeGraph, units: seq<set<nat>>)
    requires WellFormed(g0) && Good(g0, s) && DecidedBelow(s.m, |g0|) && NewIdsBelow(s.m, hyp, |g0|)
    requires Forest(s.m) && |out| == CanonBelow(s.m, |g0|) && Preserved(g0, out, NewIds(s.m, hyp))
    requires UnitsDeduped(g0, units) ==> Complete(g0) && (AllUnique(g0, s.m) <==> VarsDistinct(g0))
    ensures Deduplicated(g0, out, NewIds(s.m, hyp), units)
  {
    if UnitsDeduped(g0, units) { ResultUnique(g0, s, hyp, out); }
  }

  /** btf__dedup, for a BTF that is not split, whose names are unique, and in
      which direct containment is well founded.

      It fails only when references run in a circle, or when some type refers to
      a kind that cannot be a struct member.  Otherwise every ID keeps its
      meaning under its new number.  Where structs were found equivalent, a forward
      declaration on one side and a definition on the other have both become
      definitions.  If each compilation unit was free of
      duplicates to begin with, duplicate variables are the only duplicates
      that can remain. */
  method DedupTypes(btf: Section, ghost rank: seq<nat>, ghost units: seq<set<nat>>)
    returns (err: int, ghost newId: seq<nat>, ghost merges: seq<Merge>)
    requires btf.Valid() && WellFormed(btf.Types()) && Nested(btf.Types(), rank)
    modifies btf`nr, btf`len, btf.data, btf.offs
    ensures err == 0 || (err == -EINVAL && OddRefs(old(btf.Types()))) || (err == -ELOOP && HasRefCycle(old(btf.Types())))
    ensures err == 0 ==> !HasRefCycle(old(btf.Types()))
    ensures err == 0 ==> btf.Valid() && Deduplicated(old(btf.Types()), btf.Types(), newId, units)
    ensures err == 0 ==> Reported(old(btf.Types()), btf.Types(), newId, merges)
  {
    hide Reported, Told, Accounted, Nested, OddRefs, HasRefCycle, Deduplicated, InitialEntry, Good, DecidedBelow, UnitsDeduped, AllUnique, VarsDistinct;
    newId, merges := [], [];
    var d := new Dedup(btf, rank);
    err, merges := Canonize(d, units);
    if err != 0 {
      return;
    }
    err, newId := Compact(d, units, merges);
  }
}
