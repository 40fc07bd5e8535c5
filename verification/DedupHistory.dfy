/** What the struct pass leaves on record: each merge of two structs or unions that were
    found equivalent, with all the pairs of types that the comparison went through. */
module DedupHistory {
  import opened BtfWords
  import opened IdMaps
  import opened TypeMeaning
  import opened DedupState
  import opened DedupEquiv
  import opened DedupMerge

  /** A successful comparison of `id` with the canonical `cand`: the pairs that it has
      recorded, and the canonical map that it worked with. */
  datatype Merge = Merge(cand: nat, id: nat, hyp: IdMap, known: IdMap)

  /** The two IDs have met, all recorded pairs mean the same, and what two records of
      a pair refer to has met in turn. */
  ghost predicate Closed(g: TypeGraph, e: Merge)
    requires WellFormed(g)
  {
    && InRange(e.hyp, |g|) && Sound(g, e.known) && Met(g, e.known, e.hyp, e.cand, e.id)
    && forall c :: 0 <= c < |g| && Mapped(e.hyp[c]) ==> Bisim(g, c, e.hyp[c]) && Chased(g, e.known, e.hyp, c, e.hyp[c])
  }

  predicate IsFwdId(g: TypeGraph, x: nat)
    requires x < |g|
  {
    3 <= |g[x]| && IsFwd(g[x])
  }

  /** If one of the two is a forward declaration and the other a definition, both resolve to a definition. */
  ghost predicate PairResolved(g: TypeGraph, m: IdMap, c: nat, t: nat)
    requires WellFormed(g) && |m| == |g| && Forest(m)
  {
    c < |g| && t < |g| && (IsFwdId(g, c) != IsFwdId(g, t) ==> Resolved(g, m, c) && Resolved(g, m, t))
  }

  /** No definition resolves to a forward declaration. */
  ghost predicate DefsStay(g: TypeGraph, m: IdMap)
    requires WellFormed(g)
  {
    |m| == |g| && Forest(m) && forall x :: 0 <= x < |g| && !IsFwdId(g, x) ==> Resolved(g, m, x)
  }

  ghost predicate ResolvedKept(g: TypeGraph, m: IdMap, m': IdMap)
    requires WellFormed(g)
  {
    && |m| == |g| == |m'| && Forest(m) && Forest(m')
    && forall a :: 0 <= a < |g| && Resolved(g, m, a) ==> Resolved(g, m', a)
  }

  /** The merge, seen from a later map. */
  ghost predicate Honoured(g: TypeGraph, m: IdMap, e: Merge)
    requires WellFormed(g)
  {
    && Closed(g, e) && DefsStay(g, e.known) && ResolvedKept(g, e.known, m)
    && forall c :: 0 <= c < |g| && Mapped(e.hyp[c]) ==> PairResolved(g, m, c, e.hyp[c])
  }

  ghost predicate Told(g: TypeGraph, m: IdMap, merges: seq<Merge>)
    requires WellFormed(g)
  {
    DefsStay(g, m) && forall k :: 0 <= k < |merges| ==> Honoured(g, m, merges[k])
  }

  /** The merge was about this struct or union, or went past a pair that means the same. */
  ghost predicate Involves(g: TypeGraph, e: Merge, i: nat)
    requires WellFormed(g) && i < |g|
  {
    e.id == i || (|e.hyp| == |g| && Along(g, e.hyp, i))
  }

  /** Whatever struct or union is not canonical has been merged. */
  ghost predicate Accounted(g: TypeGraph, m: IdMap, merges: seq<Merge>)
    requires WellFormed(g) && |m| == |g|
  {
    forall i :: 0 <= i < |g| && NotCanonical(g, m, i) ==> exists k :: 0 <= k < |merges| && Involves(g, merges[k], i)
  }

  predicate NotCanonical(g: TypeGraph, m: IdMap, i: nat)
    requires |m| == |g| && i < |g|
  {
    3 <= |g[i]| && IsComposite(g[i]) && Mapped(m[i]) && m[i] != i
  }

  lemma DefsStayOn(g: TypeGraph, m: IdMap, m': IdMap)
    requires WellFormed(g) && DefsStay(g, m) && ResolvedKept(g, m, m')
    ensures DefsStay(g, m')
  {
  }

  lemma HonouredOn(g: TypeGraph, m: IdMap, m': IdMap, e: Merge)
    requires WellFormed(g) && Honoured(g, m, e) && ResolvedKept(g, m, m')
    ensures Honoured(g, m', e)
  {
    ClosedRange(g, e);
    hide Closed, Resolved, IsFwdId;
  }

  /** What has been told stays true as long as what is resolved stays resolved. */
  lemma ToldOn(g: TypeGraph, m: IdMap, m': IdMap, merges: seq<Merge>)
    requires WellFormed(g) && Told(g, m, merges) && ResolvedKept(g, m, m')
    ensures Told(g, m', merges)
  {
    hide Honoured, ResolvedKept, DefsStay;
    DefsStayOn(g, m, m');
    forall k | 0 <= k < |merges| ensures Honoured(g, m', merges[k]) { HonouredOn(g, m, m', merges[k]); }
  }

  /** A comparison that has just been merged. */
  ghost predicate Trial(g: TypeGraph, m0: IdMap, m: IdMap, e: Merge)
    requires WellFormed(g)
  {
    && Honoured(g, m, e) && ResolvedKept(g, m0, m) && |e.hyp| == |g|
    && forall i :: 0 <= i < |g| && m[i] != m0[i] ==> Along(g, e.hyp, i)
  }

  lemma PairMergedResolved(g: TypeGraph, m0: IdMap, m: IdMap, c: nat, t: nat)
    requires WellFormed(g) && DefsStay(g, m0) && ResolvedKept(g, m0, m) && c < |g| && t < |g|
    requires |m0| == |g| == |m| && Forest(m0) && Forest(m) && PairMerged(g, m0, m, c, t)
    ensures PairResolved(g, m, c, t)
  {
    hide KindOf, Forest, Resolved;
  }

  lemma TrialDone(g: TypeGraph, m0: IdMap, m: IdMap, e: Merge)
    requires WellFormed(g) && DefsStay(g, m0) && e.known == m0 && Closed(g, e) && Onwards(g, m0, m) && AllAlong(g, m0, m, e.hyp)
    requires |m0| == |g| == |m| == |e.hyp| && Forest(m0) && Forest(m)
    requires forall c :: 0 <= c < |g| && Mapped(e.hyp[c]) ==> PairMerged(g, m0, m, c, e.hyp[c])
    ensures Trial(g, m0, m, e)
  {
    hide KindOf, Forest, Resolved, PairMerged, Along, Closed;
    ClosedRange(g, e);
    forall c | 0 <= c < |g| && Mapped(e.hyp[c]) ensures PairResolved(g, m, c, e.hyp[c]) {
      PairMergedResolved(g, m0, m, c, e.hyp[c]);
    }
  }

  lemma ClosedRange(g: TypeGraph, e: Merge)
    requires WellFormed(g) && Closed(g, e)
    ensures InRange(e.hyp, |g|)
  {
  }

  /** One more merge on record. */
  lemma ToldMore(g: TypeGraph, m0: IdMap, m: IdMap, merges: seq<Merge>, e: Merge)
    requires WellFormed(g) && Told(g, m0, merges) && Trial(g, m0, m, e)
    ensures Told(g, m, merges + [e])
  {
    hide Honoured, ResolvedKept, DefsStay, Along;
    ToldOn(g, m0, m, merges);
  }

  lemma AccountedMore(g: TypeGraph, m0: IdMap, m: IdMap, merges: seq<Merge>, e: Merge)
    requires WellFormed(g) && |m0| == |g| && Accounted(g, m0, merges) && Trial(g, m0, m, e)
    ensures |m| == |g| && Accounted(g, m, merges + [e])
  {
    hide Honoured, Along, KindOf, Resolved;
    var more := merges + [e];
    forall i | 0 <= i < |g| && NotCanonical(g, m, i) ensures exists k :: 0 <= k < |more| && Involves(g, more[k], i) {
      if m[i] == m0[i] {
        assert NotCanonical(g, m0, i);
        var k :| 0 <= k < |merges| && Involves(g, merges[k], i);
        assert Involves(g, more[k], i);
      } else {
        assert Involves(g, more[|merges|], i);
      }
    }
  }

  /** The struct or union that the comparison was about, given its canonical type. */
  lemma AccountedChoice(g: TypeGraph, m: IdMap, merges: seq<Merge>, e: Merge, id: nat, newId: nat)
    requires WellFormed(g) && |m| == |g| && Accounted(g, m, merges + [e]) && e.id == id < |g|
    ensures Accounted(g, m[id := newId], merges + [e])
  {
    hide Along, KindOf;
    var more, m' := merges + [e], m[id := newId];
    forall i | 0 <= i < |g| && NotCanonical(g, m', i) ensures exists k :: 0 <= k < |more| && Involves(g, more[k], i) {
      if i == id {
        assert Involves(g, more[|merges|], i);
      } else {
        assert NotCanonical(g, m, i);
      }
    }
  }

  lemma AccountedSelf(g: TypeGraph, m: IdMap, merges: seq<Merge>, id: nat)
    requires WellFormed(g) && |m| == |g| && Accounted(g, m, merges) && id < |g|
    ensures Accounted(g, m[id := id], merges)
  {
    hide Along, KindOf, Involves;
    var m' := m[id := id];
    forall i | 0 <= i < |g| && NotCanonical(g, m', i) ensures exists k :: 0 <= k < |merges| && Involves(g, merges[k], i) {
      assert NotCanonical(g, m, i);
    }
  }

  lemma ToldDefs(g: TypeGraph, m: IdMap, merges: seq<Merge>)
    requires WellFormed(g) && Told(g, m, merges)
    ensures DefsStay(g, m)
  {
  }

  /** Giving an ID a canonical definition: whatever is resolved stays so. */
  lemma RelinkKept(g: TypeGraph, m: IdMap, x: nat, s: nat)
    requires WellFormed(g) && |m| == |g| && Forest(m) && x < |g| && s < |g| && Forest(m[x := s]) && m[s] == s && Mapped(s)
    requires 3 <= |g[s]| && !IsFwd(g[s])
    ensures ResolvedKept(g, m, m[x := s])
  {
    hide KindOf;
    forall a | 0 <= a < |g| && Resolved(g, m, a) ensures Resolved(g, m[x := s], a) {
      assert Ends(m, a, Height(m));
      Relinked(m, x, s, a, Height(m));
    }
  }

  lemma {:induction false} Relinked(m: IdMap, x: nat, s: nat, a: nat, n: nat)
    requires Forest(m) && x < |m| && s < |m| && Forest(m[x := s]) && m[s] == s && Mapped(s) && a < |m| && Ends(m, a, n)
    ensures Root(m[x := s], a) == Root(m, a) || Root(m[x := s], a) == s
    decreases n
  {
    var m' := m[x := s];
    RootStep(m, a);
    RootStep(m', a);
    if a == x {
      RootStep(m', s);
    } else if !IsRoot(m, a) {
      Relinked(m, x, s, m[a], n - 1);
    }
  }

  /** Making an undecided root canonical. */
  lemma SelfKept(g: TypeGraph, m: IdMap, x: nat)
    requires WellFormed(g) && |m| == |g| && Forest(m) && x < |g| && IsRoot(m, x)
    ensures ResolvedKept(g, m, m[x := x])
  {
    OnwardsSelf(g, m, x);
  }

  /** Before the struct pass: no struct or union is mapped, and the classes of all others tell. */
  lemma HistoryStart(g: TypeGraph, m: IdMap)
    requires WellFormed(g) && Sound(g, m) && forall i :: 0 <= i < |g| && 3 <= |g[i]| && IsComposite(g[i]) ==> !Mapped(m[i])
    ensures Told(g, m, []) && Accounted(g, m, [])
  {
    hide Bisim, Forest;
    forall x | 0 <= x < |g| && !IsFwdId(g, x) ensures Resolved(g, m, x) {
      WordsOfId(g, x);
      WordsOfId(g, Root(m, x));
      if IsComposite(g[x]) { RootStep(m, x); } else { NotDeclaredBy(g, m, x); }
    }
  }

  lemma NotDeclaredBy(g: TypeGraph, m: IdMap, x: nat)
    requires WellFormed(g) && Sound(g, m) && x < |g| && 3 <= |g[x]| && !IsFwd(g[x]) && !IsComposite(g[x])
    ensures 3 <= |g[Root(m, x)]| && !IsFwd(g[Root(m, x)])
  {
    hide Forest, KFlag;
    RootSound(g, m, x);
    BisimUnfold(g, x, Root(m, x));
    WordsOfId(g, Root(m, x));
    assert SameNode(Tag, g[x], g[Root(m, x)]);
    if ClassOf(g[x]) == NoTag && ClassOf(g[Root(m, x)]) == NoTag { SameLabelRefs(g[x], g[Root(m, x)]); }
  }

  /** Two IDs that have met, one a forward declaration, the other a definition: both
      resolve to a definition. */
  lemma MetResolved(g: TypeGraph, m: IdMap, e: Merge, x: nat, y: nat)
    requires WellFormed(g) && Honoured(g, m, e) && Met(g, e.known, e.hyp, x, y)
    ensures |m| == |g| && Forest(m) && PairResolved(g, m, x, y)
  {
    hide Bisim, KindOf, Chased, Forest;
    var t := Target(g, e.known, x);
    if Root(e.known, x) == Root(e.known, y) {
      SameRootResolved(g, m, e, x, y);
    } else if IsFwdId(g, x) != IsFwdId(g, y) {
      assert PairResolved(g, m, t, e.hyp[t]);
    }
  }

  lemma SameRootResolved(g: TypeGraph, m: IdMap, e: Merge, x: nat, y: nat)
    requires WellFormed(g) && DefsStay(g, e.known) && ResolvedKept(g, e.known, m) && x < |g| && y < |g| && Root(e.known, x) == Root(e.known, y)
    ensures |m| == |g| && Forest(m) && PairResolved(g, m, x, y)
  {
    hide KindOf, Forest;
  }

  /** What the records of a pair refer to is resolved as well. */
  lemma ChildResolved(g: TypeGraph, m: IdMap, e: Merge, c: nat, p: nat)
    requires WellFormed(g) && Honoured(g, m, e) && c < |g| && |e.hyp| == |g| && Mapped(e.hyp[c]) && e.hyp[c] < |g|
    requires KindAt(g, c) == KindAt(g, e.hyp[c]) && !IsPrimKind(KindAt(g, c)) && IsRef(g[c], p)
    ensures |m| == |g| && Forest(m) && IsRef(g[e.hyp[c]], p) && PairResolved(g, m, g[c][p], g[e.hyp[c]][p])
  {
    hide Bisim, KindOf, Met, PairResolved, Forest, ResolvedKept;
    assert Chased(g, e.known, e.hyp, c, e.hyp[c]);
    MetResolved(g, m, e, g[c][p], g[e.hyp[c]][p]);
  }
}
