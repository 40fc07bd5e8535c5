/** btf_dedup_ref_types: deduplication of the types whose whole meaning is what
    they refer to, children first. */
module DedupRefs {
  import opened BtfWords
  import opened IdMaps
  import opened TypeMeaning
  import opened BtfSection
  import opened BtfCompare
  import opened DedupState
  import opened DedupEquiv
  import opened DedupPrims

  // ------------------------------------------------------- reference cycles

  ghost predicate IsRefId(g: TypeGraph, i: nat)
    requires WellFormed(g) && i < |g|
  {
    3 <= |g[i]| && IsRefKind(Kind(g[i]))
  }

  /** `a` refers to `b`. */
  ghost predicate Points(g: TypeGraph, a: nat, b: nat)
    requires WellFormed(g) && a < |g|
  {
    exists p: nat :: IsRef(g[a], p) && g[a][p] == b
  }

  /** Both are of a reference kind, and the first refers to the second. */
  ghost predicate RefEdge(g: TypeGraph, a: nat, b: nat)
    requires WellFormed(g)
  {
    a < |g| && b < |g| && IsRefId(g, a) && IsRefId(g, b) && Points(g, a, b)
  }

  ghost predicate IsRefPath(g: TypeGraph, path: seq<nat>)
    requires WellFormed(g)
  {
    forall k :: 0 <= k < |path| - 1 ==> RefEdge(g, path[k], path[k + 1])
  }

  /** A cycle all of whose types are of reference kinds, which no C type can have. */
  ghost predicate HasRefCycle(g: TypeGraph)
    requires WellFormed(g)
  {
    exists path :: |path| >= 2 && path[0] == path[|path| - 1] && IsRefPath(g, path)
  }

  /** An order in which every reference leads to something earlier rules out cycles. */
  lemma OrderedNoCycle(g: TypeGraph, order: map<nat, nat>)
    requires WellFormed(g)
    requires forall a, b :: RefEdge(g, a, b) ==> a in order && b in order && order[b] < order[a]
    ensures !HasRefCycle(g)
  {
    if HasRefCycle(g) {
      var path :| |path| >= 2 && path[0] == path[|path| - 1] && IsRefPath(g, path);
      Descends(g, order, path, |path| - 1);
    }
  }

  lemma {:induction false} Descends(g: TypeGraph, order: map<nat, nat>, path: seq<nat>, k: nat)
    requires WellFormed(g) && IsRefPath(g, path) && 1 <= k < |path|
    requires forall a, b :: RefEdge(g, a, b) ==> a in order && b in order && order[b] < order[a]
    ensures path[0] in order && path[k] in order && order[path[k]] < order[path[0]]
  {
    assert RefEdge(g, path[k - 1], path[k]);
    if k > 1 {
      Descends(g, order, path, k - 1);
    }
  }

  // ----------------------------------------------- the graph being rewritten

  /** `g` differs from `g0` only in type IDs, each replaced by one that means the same. */
  ghost predicate Rewritten(g0: TypeGraph, g: TypeGraph)
    requires WellFormed(g0)
  {
    && WellFormed(g) && |g| == |g0|
    && (forall i :: 0 <= i < |g| ==> SameLabel(g0[i], g[i]))
    && (forall i, p: nat :: 0 <= i < |g| && IsRef(g0[i], p) ==>
          IsRef(g[i], p) && Bisim(g0, g0[i][p], g[i][p]))
  }

  lemma RewrittenRefl(g: TypeGraph)
    requires WellFormed(g)
    ensures Rewritten(g, g)
  {
    forall i, p: nat | 0 <= i < |g| && IsRef(g[i], p) ensures Bisim(g, g[i][p], g[i][p]) {
      BisimRefl(g, g[i][p]);
    }
    forall i | 0 <= i < |g| ensures 3 <= |g[i]| { WordsOfId(g, i); }
  }

  lemma RewrittenKinds(g0: TypeGraph, g: TypeGraph, i: nat)
    requires WellFormed(g0) && Rewritten(g0, g) && i < |g|
    ensures 3 <= |g[i]| == |g0[i]| && Kind(g[i]) == Kind(g0[i])
    ensures i > 0 ==> WellSized(g[i]) && WellSized(g0[i])
    ensures forall p: nat :: IsRef(g0[i], p) <==> IsRef(g[i], p)
  {
    SameLabelRefs(g0[i], g[i]);
    WordsOfId(g, i);
    WordsOfId(g0, i);
  }

  lemma BisimThen(v: View, g0: TypeGraph, a: nat, b: nat, g: TypeGraph, n: nat)
    requires WellFormed(g0) && WellFormed(g) && a < |g0| && b < |g0| && b < |g| && Binding(v, g0)
    requires Bisim(g0, a, b) && Alike(v, g0, b, g, b, n)
    ensures Alike(v, g0, a, g, b, n)
  {
    AlikeTrans(v, g0, a, g0, b, g, b, n);
  }

  lemma RewrittenStep(v: View, g0: TypeGraph, g: TypeGraph, i: nat, n: nat)
    requires WellFormed(g0) && Rewritten(g0, g) && i < |g| && Binding(v, g0)
    requires forall j :: 0 <= j < |g| ==> Alike(v, g0, j, g, j, n)
    ensures Alike(v, g0, i, g, i, n + 1)
  {
    hide KindOf, VlenOf, SizeOf, IsRefPos, Bisim;
    forall p: nat | IsRef(g0[i], p) ensures Alike(v, g0, g0[i][p], g, g[i][p], n) {
      BisimThen(v, g0, g0[i][p], g[i][p], g, n);
    }
    AlikeStep(v, g0, i, g, i, n + 1);
  }

  /** The rewritten graph means what the original graph means, ID by ID. */
  lemma {:induction false} RewrittenAlike(v: View, g0: TypeGraph, g: TypeGraph, n: nat)
    requires WellFormed(g0) && Rewritten(g0, g) && Binding(v, g0)
    ensures forall i :: 0 <= i < |g| ==> Alike(v, g0, i, g, i, n)
    decreases n
  {
    if n > 0 {
      RewrittenAlike(v, g0, g, n - 1);
      forall i | 0 <= i < |g| ensures Alike(v, g0, i, g, i, n) {
        RewrittenStep(v, g0, g, i, n - 1);
      }
    }
  }

  /** Records that have become equal word for word meant the same all along. */
  lemma EqualRewrittenBisim(g0: TypeGraph, g: TypeGraph, a: nat, b: nat)
    requires WellFormed(g0) && Rewritten(g0, g) && a < |g| && b < |g| && g[a] == g[b]
    ensures Bisim(g0, a, b)
  {
    RewrittenKinds(g0, g, a);
    RewrittenKinds(g0, g, b);
    LabelThrough(g0[a], g[a], g0[b]);
    SameLabelSameNodes(g0, a, b);
    forall p: nat | Followed(g0, a, p) ensures Bisim(g0, g0[a][p], g0[b][p]) {
      BisimSym(g0, g0[b][p], g[b][p]);
      BisimTrans(g0, g0[a][p], g[a][p], g0[b][p]);
    }
    BisimFromChildren(g0, a, b);
  }

  lemma LabelThrough(t: Words, x: Words, u: Words)
    requires SameLabel(t, x) && SameLabel(u, x)
    ensures SameLabel(t, u)
  {
    SameLabelRefs(t, x);
    SameLabelRefs(u, x);
  }

  /** IDs that mean the same are both of reference kinds or both not. */
  lemma SameRefKind(g: TypeGraph, a: nat, b: nat)
    requires WellFormed(g) && a < |g| && b < |g| && Bisim(g, a, b)
    ensures IsRefId(g, a) <==> IsRefId(g, b)
    ensures IsRefId(g, a) ==> Kind(g[a]) == Kind(g[b])
  {
    BisimUnfold(g, a, b);
    assert SameNode(Tag, g[a], g[b]);
    if ClassOf(g[a]) == NoTag && ClassOf(g[b]) == NoTag { SameLabelRefs(g[a], g[b]); }
  }

  // -------------------------------------------------------- the pass invariant

  /** What the pass keeps true of each type. */
  ghost predicate RefId(g0: TypeGraph, g: TypeGraph, m: IdMap, table: Table,
                        finish: map<nat, nat>, clock: nat, i: nat)
    requires WellFormed(g0) && Rewritten(g0, g) && |m| == |g| && InRange(m, |g|) && i < |g|
  {
    && (Mapped(m[i]) ==> Mapped(m[m[i]]))
    && (Mapped(m[i]) || m[i] == BTF_UNPROCESSED_ID || m[i] == BTF_IN_PROGRESS_ID)
    && (!IsRefId(g0, i) ==> Mapped(m[i]) && g[i] == g0[i])
    && (m[i] == BTF_UNPROCESSED_ID ==> g[i] == g0[i])
    && (IsRefId(g0, i) && Mapped(m[i]) ==>
          && i in finish && finish[i] < clock
          && forall p: nat :: IsRef(g0[i], p) ==> Settled1(g0, g, m, finish, i, p) && Earlier(g0, finish, i, p))
    && (IsRefId(g0, i) && m[i] == i ==> 1 <= i && WellSized(g[i]) && InTable(table, SignatureHash(g[i]), i))
  }

  /** The reference has been replaced by its canonical type. */
  ghost predicate Settled1(g0: TypeGraph, g: TypeGraph, m: IdMap, finish: map<nat, nat>, i: nat, p: nat)
    requires WellFormed(g0) && Rewritten(g0, g) && |m| == |g| && i < |g| && IsRef(g0[i], p)
  {
    m[g[i][p]] == g[i][p] && (IsRefId(g0, g0[i][p]) ==> g0[i][p] in finish)
  }

  ghost predicate Earlier(g0: TypeGraph, finish: map<nat, nat>, i: nat, p: nat)
    requires WellFormed(g0) && i < |g0| && IsRef(g0[i], p)
  {
    IsRefId(g0, g0[i][p]) ==> i in finish && g0[i][p] in finish && finish[g0[i][p]] < finish[i]
  }

  /** Canonical types of reference kinds are pairwise different records: maximal sharing. */
  ghost predicate Shared(g0: TypeGraph, g: TypeGraph, m: IdMap)
    requires WellFormed(g0) && |m| == |g| == |g0|
  {
    forall i, j :: 0 <= i < |g| && 0 <= j < |g| && IsRefId(g0, i) && m[i] == i && m[j] == j && g[i] == g[j] ==> i == j
  }

  ghost predicate RefTable(g0: TypeGraph, m: IdMap, table: Table)
    requires WellFormed(g0) && |m| == |g0|
  {
    forall h, x: nat :: InTable(table, h, x) ==>
      1 <= x < |g0| && (IsRefId(g0, x) ==> m[x] == x)
  }

  ghost predicate RefInv(g0: TypeGraph, g: TypeGraph, m: IdMap, table: Table,
                         finish: map<nat, nat>, clock: nat)
    requires WellFormed(g0)
  {
    && Rewritten(g0, g) && Sound(g0, m) && RefTable(g0, m, table) && Shared(g0, g, m)
    && AllRefIds(g0, g, m, table, finish, clock)
  }

  ghost predicate AllRefIds(g0: TypeGraph, g: TypeGraph, m: IdMap, table: Table,
                            finish: map<nat, nat>, clock: nat)
    requires WellFormed(g0) && Rewritten(g0, g) && |m| == |g| && InRange(m, |g|)
  {
    && (forall i :: 0 <= i < |g| ==> RefId(g0, g, m, table, finish, clock, i))
    && (forall i :: i in finish ==> i < |g| && IsRefId(g0, i) && Mapped(m[i]) && finish[i] < clock)
  }

  // ------------------------------------------------------------ single steps

  /** Marking a type as being worked on. */
  lemma EnterRef(g0: TypeGraph, g: TypeGraph, m: IdMap, table: Table,
                 finish: map<nat, nat>, clock: nat, id: nat)
    requires WellFormed(g0) && RefInv(g0, g, m, table, finish, clock)
    requires id < |g| && m[id] == BTF_UNPROCESSED_ID
    ensures RefInv(g0, g, m[id := BTF_IN_PROGRESS_ID], table, finish, clock)
  {
    hide KindOf, VlenOf, SizeOf, IsRefPos, Bisim;
    var m' := m[id := BTF_IN_PROGRESS_ID];
    MakeRoot(m, id, BTF_IN_PROGRESS_ID);
    assert RefId(g0, g, m, table, finish, clock, id);
    assert forall i :: i in finish ==> i < |g| && Mapped(m'[i]);
    assert RefTable(g0, m', table) && Shared(g0, g, m');
    forall i | 0 <= i < |g| ensures RefId(g0, g, m', table, finish, clock, i) {
      assert RefId(g0, g, m, table, finish, clock, i);
      forall p: nat | IsRefId(g0, i) && Mapped(m'[i]) && IsRef(g0[i], p)
        ensures Settled1(g0, g, m', finish, i, p) && Earlier(g0, finish, i, p)
      {
        assert Settled1(g0, g, m, finish, i, p) && Earlier(g0, finish, i, p);
      }
    }
  }

  /** Replacing one reference of the type being worked on by its canonical type. */
  lemma FixStep(g0: TypeGraph, g: TypeGraph, m: IdMap, table: Table,
                finish: map<nat, nat>, clock: nat, id: nat, p: nat, r: nat)
    requires WellFormed(g0) && RefInv(g0, g, m, table, finish, clock)
    requires id < |g| && m[id] == BTF_IN_PROGRESS_ID && IsRef(g0[id], p) && IsRef(g[id], p)
    requires r < |g| && Bisim(g0, g0[id][p], r)
    ensures RefInv(g0, Update(g, id, p, r), m, table, finish, clock)
  {
    var g' := Update(g, id, p, r);
    UpdateRewritten(g0, g, id, p, r);
    forall i | 0 <= i < |g| ensures RefId(g0, g', m, table, finish, clock, i) {
      assert RefId(g0, g, m, table, finish, clock, i);
      forall q: nat | IsRefId(g0, i) && Mapped(m[i]) && IsRef(g0[i], q)
        ensures Settled1(g0, g', m, finish, i, q) && Earlier(g0, finish, i, q)
      {
        assert Settled1(g0, g, m, finish, i, q) && Earlier(g0, finish, i, q);
      }
    }
  }

  lemma UpdateRewritten(g0: TypeGraph, g: TypeGraph, id: nat, p: nat, r: nat)
    requires WellFormed(g0) && Rewritten(g0, g) && id < |g| && IsRef(g0[id], p) && IsRef(g[id], p)
    requires r < |g| && Bisim(g0, g0[id][p], r)
    ensures Rewritten(g0, Update(g, id, p, r))
    ensures forall i :: 0 <= i < |g| && i != id ==> Update(g, id, p, r)[i] == g[i]
    ensures Update(g, id, p, r)[id] == WithWord(g[id], p, r)
  {
    hide Bisim, KindOf, SizeOf, IsRefPos;
    var g' := Update(g, id, p, r);
    forall i | 0 <= i < |g'|
      ensures SameLabel(g0[i], g'[i]) && (1 <= i ==> WellSized(g'[i]))
      ensures forall q: nat :: IsRef(g0[i], q) ==> IsRef(g'[i], q) && g'[i][q] < |g'| && Bisim(g0, g0[i][q], g'[i][q])
    {
      RewrittenKinds(g0, g, i);
      if i == id { WordRef(g0[id], g[id], p, r); }
    }
    forall i, q: nat | 0 <= i < |g'| && IsRef(g'[i], q) ensures g'[i][q] < |g'| {
      SameLabelRefs(g0[i], g'[i]);
    }
    VoidNoRef(g0[0]);
    assert g0[0] == VOID;
    assert id != 0;
  }

  lemma VoidNoRef(t: Words)
    requires t == VOID
    ensures forall p: nat :: !IsRef(t, p)
  {
  }

  lemma WordRef(t0: Words, t: Words, p: nat, r: nat)
    requires SameLabel(t0, t) && IsRef(t, p)
    ensures SameLabel(t0, WithWord(t, p, r))
    ensures WellSized(t) ==> WellSized(WithWord(t, p, r))
    ensures forall q: nat :: IsRef(t0, q) ==>
      IsRef(WithWord(t, p, r), q) && WithWord(t, p, r)[q] == if q == p then r else t[q]
  {
    SameLabelRefs(t0, t);
    assert !IsRef(t, 1);
  }

  /** Of the references of `id`, those in `done` are canonical, the others as given. */
  ghost predicate Fixing(g0: TypeGraph, g: TypeGraph, m: IdMap, finish: map<nat, nat>, id: nat, done: set<nat>)
    requires WellFormed(g0)
  {
    && Rewritten(g0, g) && |m| == |g| && id < |g|
    && (forall p :: p in done ==> IsRef(g0[id], p) && Settled1(g0, g, m, finish, id, p))
    && (forall p: nat :: IsRef(g0[id], p) && p !in done ==> g[id][p] == g0[id][p])
  }

  /** How the state may move on: what is decided or in progress stays as it is
      (but for the record in `hole`), what is undecided may become decided. */
  ghost predicate Advance(g1: TypeGraph, m1: IdMap, f1: map<nat, nat>,
                          g2: TypeGraph, m2: IdMap, f2: map<nat, nat>, hole: int)
  {
    && |g1| == |g2| == |m1| == |m2|
    && (forall i :: 0 <= i < |m1| && m1[i] != BTF_UNPROCESSED_ID ==> m2[i] == m1[i] && (i != hole ==> g2[i] == g1[i]))
    && (forall i :: 0 <= i < |m1| && m1[i] == BTF_UNPROCESSED_ID ==> m2[i] == BTF_UNPROCESSED_ID || Mapped(m2[i]))
    && (forall i :: i in f1 ==> i in f2 && f2[i] == f1[i])
  }

  /** One more reference of `id` has become canonical. */
  lemma FixingStep(g0: TypeGraph, g1: TypeGraph, m1: IdMap, f1: map<nat, nat>, g2: TypeGraph, m2: IdMap, f2: map<nat, nat>,
                   id: nat, done: set<nat>, p: nat, r: nat)
    requires WellFormed(g0) && Fixing(g0, g1, m1, f1, id, done) && Rewritten(g0, g2) && |m2| == |g2|
    requires Advance(g1, m1, f1, g2, m2, f2, -1) && m1[id] == BTF_IN_PROGRESS_ID
    requires forall i :: 0 <= i < |m1| && Mapped(m1[i]) ==> m2[i] == m1[i]
    requires IsRef(g0[id], p) && IsRef(g2[id], p) && r < |g2| && m2[r] == r && Bisim(g0, g0[id][p], r)
    requires IsRefId(g0, g0[id][p]) ==> g0[id][p] in f2
    requires |g2| <= BTF_MAX_NR_TYPES
    ensures Fixing(g0, Update(g2, id, p, r), m2, f2, id, done + {p})
    ensures Advance(g1, m1, f1, Update(g2, id, p, r), m2, f2, id)
  {
    UpdateRewritten(g0, g2, id, p, r);
    RewrittenKinds(g0, g2, id);
    WordRef(g0[id], g2[id], p, r);
    var g3 := Update(g2, id, p, r);
    forall q | q in done + {p} ensures IsRef(g0[id], q) && Settled1(g0, g3, m2, f2, id, q) {
      if q != p { assert Settled1(g0, g1, m1, f1, id, q); }
    }
  }

  /** What the search for a canonical record equal to that of `id` ends with. */
  ghost predicate RefChosen(g: TypeGraph, table: Table, h: int, id: nat, newId: nat) {
    id < |g| &&
    if newId == id then forall c: nat :: InTable(table, h, c) && c < |g| ==> g[c] != g[id]
    else InTable(table, h, newId) && newId < |g| && g[newId] == g[id]
  }

  /** All references canonical and the choice recorded: the type is finished. */
  lemma FinishRef(g0: TypeGraph, g: TypeGraph, m: IdMap, table: Table,
                  finish: map<nat, nat>, clock: nat, id: nat, newId: nat, done: set<nat>)
    requires WellFormed(g0) && RefInv(g0, g, m, table, finish, clock)
    requires 1 <= id < |g| && IsRefId(g0, id) && m[id] == BTF_IN_PROGRESS_ID && WellSized(g[id])
    requires Fixing(g0, g, m, finish, id, done) && forall p: nat :: IsRef(g0[id], p) ==> p in done
    requires RefChosen(g, table, SignatureHash(g[id]), id, newId) && newId < |g|
    ensures RefInv(g0, g, m[id := newId], TableAfter(table, SignatureHash(g[id]), id, newId),
                   finish[id := clock], clock + 1)
    ensures m[id := newId][newId] == newId && Bisim(g0, id, newId)
  {
    FinishSound(g0, g, m, table, finish, clock, id, newId);
    FinishIds(g0, g, m, table, finish, clock, id, newId, done);
    FinishShared(g0, g, m, table, finish, clock, id, newId);
  }

  lemma FinishSound(g0: TypeGraph, g: TypeGraph, m: IdMap, table: Table,
                    finish: map<nat, nat>, clock: nat, id: nat, newId: nat)
    requires WellFormed(g0) && RefInv(g0, g, m, table, finish, clock)
    requires 1 <= id < |g| && IsRefId(g0, id) && m[id] == BTF_IN_PROGRESS_ID && WellSized(g[id])
    requires RefChosen(g, table, SignatureHash(g[id]), id, newId) && newId < |g|
    ensures Sound(g0, m[id := newId]) && m[id := newId][newId] == newId && Bisim(g0, id, newId)
    ensures RefTable(g0, m[id := newId], TableAfter(table, SignatureHash(g[id]), id, newId))
    ensures newId == id || m[newId] == newId
  {
    FiledEntry(table, SignatureHash(g[id]), id, newId);
    RewrittenKinds(g0, g, id);
    EqualRewrittenBisim(g0, g, id, newId);
    if newId == id {
      MakeRoot(m, id, id);
    } else {
      SameRefKind(g0, id, newId);
      assert InTable(table, SignatureHash(g[id]), newId);
      assert m[newId] == newId;
      LinkToRoot(m, id, newId);
    }
  }

  lemma FinishIds(g0: TypeGraph, g: TypeGraph, m: IdMap, table: Table,
                  finish: map<nat, nat>, clock: nat, id: nat, newId: nat, done: set<nat>)
    requires WellFormed(g0) && RefInv(g0, g, m, table, finish, clock)
    requires 1 <= id < |g| && IsRefId(g0, id) && m[id] == BTF_IN_PROGRESS_ID && WellSized(g[id])
    requires Fixing(g0, g, m, finish, id, done) && forall p: nat :: IsRef(g0[id], p) ==> p in done
    requires newId < |g| && (newId == id || (m[newId] == newId && InTable(table, SignatureHash(g[id]), newId)))
    requires InRange(m[id := newId], |g|)
    ensures AllRefIds(g0, g, m[id := newId], TableAfter(table, SignatureHash(g[id]), id, newId),
                      finish[id := clock], clock + 1)
  {
    var m', table', finish' := m[id := newId], TableAfter(table, SignatureHash(g[id]), id, newId), finish[id := clock];
    var n := clock + 1;
    forall i | 0 <= i < |g| ensures RefId(g0, g, m', table', finish', n, i) {
      FinishedId(g0, g, m, table, finish, clock, id, newId, done, i);
    }
  }

  lemma FinishedId(g0: TypeGraph, g: TypeGraph, m: IdMap, table: Table,
                   finish: map<nat, nat>, clock: nat, id: nat, newId: nat, done: set<nat>, i: nat)
    requires WellFormed(g0) && RefInv(g0, g, m, table, finish, clock)
    requires 1 <= id < |g| && IsRefId(g0, id) && m[id] == BTF_IN_PROGRESS_ID && WellSized(g[id])
    requires Fixing(g0, g, m, finish, id, done) && forall p: nat :: IsRef(g0[id], p) ==> p in done
    requires newId < |g| && (newId == id || (m[newId] == newId && InTable(table, SignatureHash(g[id]), newId)))
    requires i < |g|
    ensures InRange(m[id := newId], |g|)
    ensures RefId(g0, g, m[id := newId], TableAfter(table, SignatureHash(g[id]), id, newId), finish[id := clock], clock + 1, i)
  {
    hide KindOf, VlenOf, SizeOf, IsRefPos, Bisim;
    var m', finish' := m[id := newId], finish[id := clock];
    FiledEntry(table, SignatureHash(g[id]), id, newId);
    assert RefId(g0, g, m, table, finish, clock, i);
    forall p: nat | IsRefId(g0, i) && Mapped(m'[i]) && IsRef(g0[i], p)
      ensures Settled1(g0, g, m', finish', i, p) && Earlier(g0, finish', i, p)
    {
      if i == id {
        assert p in done && Settled1(g0, g, m, finish, id, p);
      } else {
        assert Settled1(g0, g, m, finish, i, p) && Earlier(g0, finish, i, p);
      }
    }
  }

  lemma FinishShared(g0: TypeGraph, g: TypeGraph, m: IdMap, table: Table,
                     finish: map<nat, nat>, clock: nat, id: nat, newId: nat)
    requires WellFormed(g0) && RefInv(g0, g, m, table, finish, clock)
    requires 1 <= id < |g| && IsRefId(g0, id) && m[id] == BTF_IN_PROGRESS_ID && WellSized(g[id])
    requires RefChosen(g, table, SignatureHash(g[id]), id, newId) && newId < |g|
    ensures Shared(g0, g, m[id := newId])
  {
    var m' := m[id := newId];
    forall j | 0 <= j < |g| && newId == id && j != id && m[j] == j ensures g[j] != g[id] {
      RewrittenKinds(g0, g, j);
      RewrittenKinds(g0, g, id);
      if IsRefId(g0, j) {
        assert RefId(g0, g, m, table, finish, clock, j);
      }
    }
  }

  // -------------------------------------------------------------- the methods

  /** The part of the state the pass works on, as a value. */
  datatype Snap = Snap(g: TypeGraph, m: IdMap, table: Table, finish: map<nat, nat>, clock: nat)

  ghost function SnapOf(d: Dedup): Snap
    requires d.Valid()
    reads d`table, d`finish, d`clock, d.btf, d.btf.data, d.btf.offs, d.typeMap
  {
    Snap(d.btf.Types(), d.typeMap[..], d.table, d.finish, d.clock)
  }

  ghost predicate Good(g0: TypeGraph, s: Snap)
    requires WellFormed(g0)
  {
    RefInv(g0, s.g, s.m, s.table, s.finish, s.clock)
  }

  lemma GoodKinds(g0: TypeGraph, s: Snap, i: nat)
    requires WellFormed(g0) && Good(g0, s) && i < |g0|
    ensures |s.g| == |s.m| == |g0| && 3 <= |s.g[i]| == |g0[i]|
    ensures Kind(s.g[i]) == Kind(g0[i]) && Vlen(s.g[i]) == Vlen(g0[i])
    ensures i > 0 ==> WellSized(s.g[i]) && WellSized(g0[i])
  {
    RewrittenKinds(g0, s.g, i);
  }

  ghost predicate RefState(d: Dedup)
    reads d`table, d`finish, d`clock, d.btf, d.btf.data, d.btf.offs, d.typeMap
  {
    d.Valid() && Good(d.orig, SnapOf(d))
  }

  ghost predicate Moved(s1: Snap, s2: Snap, hole: int) {
    Advance(s1.g, s1.m, s1.finish, s2.g, s2.m, s2.finish, hole)
  }

  /** Type `id` is in progress, its references in `done` are canonical, and the
      state has moved on from `s1` to `s2`. */
  ghost predicate Fixed(g0: TypeGraph, s1: Snap, s2: Snap, stack: seq<nat>, id: nat, done: set<nat>)
    requires WellFormed(g0)
  {
    && Good(g0, s2) && StackAt(g0, s2.m, stack, id)
    && Fixing(g0, s2.g, s2.m, s2.finish, id, done) && Moved(s1, s2, id)
  }

  lemma FixedTrans(g0: TypeGraph, s1: Snap, s2: Snap, s3: Snap, stack: seq<nat>, id: nat, done2: set<nat>, done3: set<nat>)
    requires WellFormed(g0) && Fixed(g0, s1, s2, stack, id, done2) && Fixed(g0, s2, s3, stack, id, done3)
    ensures Fixed(g0, s1, s3, stack, id, done3)
    ensures Undecided(s2.m) <= Undecided(s1.m) && Undecided(s3.m) <= Undecided(s1.m)
  {
  }

  /** `r` is canonical and means what `id` means; `id` is decided. */
  ghost predicate Canonical(g0: TypeGraph, s: Snap, id: nat, r: int)
    requires WellFormed(g0)
  {
    && Good(g0, s) && id < |g0| && 0 <= r < |g0| && s.m[r] == r && Bisim(g0, id, r) && Mapped(s.m[id])
    && (IsRefId(g0, id) ==> id in s.finish)
  }

  /** The types in progress are exactly those on the stack of calls, each
      referring to the next, the last one to `id`. */
  ghost predicate OnStack(g: TypeGraph, m: IdMap, stack: seq<nat>, id: nat)
    requires WellFormed(g)
  {
    && |m| == |g| && id < |g|
    && (forall k :: 0 <= k < |stack| ==> stack[k] < |g| && IsRefId(g, stack[k]) && m[stack[k]] == BTF_IN_PROGRESS_ID)
    && (forall i :: 0 <= i < |g| && m[i] == BTF_IN_PROGRESS_ID ==> i in stack)
    && IsRefPath(g, stack)
    && (stack != [] ==> Points(g, stack[|stack| - 1], id))
  }

  lemma StackCycle(g: TypeGraph, m: IdMap, stack: seq<nat>, id: nat)
    requires WellFormed(g) && OnStack(g, m, stack, id) && m[id] == BTF_IN_PROGRESS_ID
    ensures HasRefCycle(g)
  {
    var k :| 0 <= k < |stack| && stack[k] == id;
    var path := stack[k..] + [id];
    forall j | 0 <= j < |path| - 1 ensures RefEdge(g, path[j], path[j + 1]) {
      if j < |path| - 2 {
        assert RefEdge(g, stack[k + j], stack[k + j + 1]);
      }
    }
    assert IsRefPath(g, path) && path[0] == path[|path| - 1];
  }

  lemma PushStack(g: TypeGraph, m: IdMap, stack: seq<nat>, id: nat)
    requires WellFormed(g) && OnStack(g, m, stack, id) && IsRefId(g, id)
    ensures StackAt(g, m[id := BTF_IN_PROGRESS_ID], stack + [id], id)
  {
    var s := stack + [id];
    forall k | 0 <= k < |s| - 1 ensures RefEdge(g, s[k], s[k + 1]) {
      if k < |s| - 2 {
        assert RefEdge(g, stack[k], stack[k + 1]);
      }
    }
  }

  /** The stack while `id`, its last entry, is being worked on. */
  ghost predicate StackAt(g: TypeGraph, m: IdMap, stack: seq<nat>, id: nat)
    requires WellFormed(g)
  {
    && |m| == |g| && id < |g| && stack != [] && stack[|stack| - 1] == id
    && (forall k :: 0 <= k < |stack| ==> stack[k] < |g| && IsRefId(g, stack[k]) && m[stack[k]] == BTF_IN_PROGRESS_ID)
    && (forall i :: 0 <= i < |g| && m[i] == BTF_IN_PROGRESS_ID ==> i in stack)
    && IsRefPath(g, stack)
  }

  lemma StackChild(g: TypeGraph, m: IdMap, stack: seq<nat>, id: nat, p: nat)
    requires WellFormed(g) && StackAt(g, m, stack, id) && IsRef(g[id], p)
    ensures OnStack(g, m, stack, g[id][p])
  {
  }

  lemma StackKept(g: TypeGraph, m1: IdMap, m2: IdMap, stack: seq<nat>, id: nat)
    requires WellFormed(g) && StackAt(g, m1, stack, id) && |m2| == |m1|
    requires forall i :: 0 <= i < |m1| && m1[i] != BTF_UNPROCESSED_ID ==> m2[i] == m1[i]
    requires forall i :: 0 <= i < |m1| && m1[i] == BTF_UNPROCESSED_ID ==> m2[i] == BTF_UNPROCESSED_ID || Mapped(m2[i])
    ensures StackAt(g, m2, stack, id)
  {
  }

  ghost function Undecided(m: IdMap): set<nat> {
    set i: nat | i < |m| && m[i] == BTF_UNPROCESSED_ID
  }

  /** Every ID resolves to a canonical one once links only lead to decided IDs. */
  lemma ResolvedRoot(g0: TypeGraph, g: TypeGraph, m: IdMap, table: Table,
                     finish: map<nat, nat>, clock: nat, id: nat)
    requires WellFormed(g0) && RefInv(g0, g, m, table, finish, clock) && id < |g| && Mapped(m[id])
    ensures m[Root(m, id)] == Root(m, id) && Bisim(g0, id, Root(m, id))
  {
    forall j | 0 <= j < |m| && Mapped(m[j]) ensures Mapped(m[m[j]]) {
      assert RefId(g0, g, m, table, finish, clock, j);
    }
    assert Ends(m, id, Height(m));
    MappedRoot(m, id, Height(m));
    RootSound(g0, m, id);
  }

  lemma UndecidedDrops(m: IdMap, id: nat)
    requires id < |m| && m[id] == BTF_UNPROCESSED_ID
    ensures Undecided(m[id := BTF_IN_PROGRESS_ID]) < Undecided(m)
  {
    assert id in Undecided(m) && id !in Undecided(m[id := BTF_IN_PROGRESS_ID]);
  }

  /** Marking `id` as in progress. */
  lemma BeginType(g0: TypeGraph, s: Snap, stack: seq<nat>, id: nat)
    requires WellFormed(g0) && Good(g0, s) && OnStack(g0, s.m, stack, id) && s.m[id] == BTF_UNPROCESSED_ID
    ensures var s' := s.(m := s.m[id := BTF_IN_PROGRESS_ID]);
            Fixed(g0, s', s', stack + [id], id, {}) && Undecided(s'.m) < Undecided(s.m)
    ensures 1 <= id && IsRefId(g0, id)
  {
    assert RefId(g0, s.g, s.m, s.table, s.finish, s.clock, id);
    assert RefId(g0, s.g, s.m, s.table, s.finish, s.clock, 0);
    EnterRef(g0, s.g, s.m, s.table, s.finish, s.clock, id);
    PushStack(g0, s.m, stack, id);
    UndecidedDrops(s.m, id);
  }

  /** From in progress to finished is an advance for everyone else. */
  lemma EndType(g0: TypeGraph, s: Snap, s1: Snap, s2: Snap, stack: seq<nat>, id: nat)
    requires WellFormed(g0) && Good(g0, s) && id < |s.m| && s.m[id] == BTF_UNPROCESSED_ID
    requires s1 == s.(m := s.m[id := BTF_IN_PROGRESS_ID]) && MovedBut(s1, s2, id) && Mapped(s2.m[id])
    ensures Moved(s, s2, -1)
  {
  }

  /** As Moved, but `id` itself has been finished. */
  ghost predicate MovedBut(s1: Snap, s2: Snap, id: nat) {
    && |s1.g| == |s2.g| == |s1.m| == |s2.m| && id < |s1.m|
    && (forall i :: 0 <= i < |s1.m| && s1.m[i] != BTF_UNPROCESSED_ID && i != id ==> s2.m[i] == s1.m[i] && s2.g[i] == s1.g[i])
    && (forall i :: 0 <= i < |s1.m| && s1.m[i] == BTF_UNPROCESSED_ID ==> s2.m[i] == BTF_UNPROCESSED_ID || Mapped(s2.m[i]))
    && (forall i :: i in s1.finish ==> i in s2.finish && s2.finish[i] == s1.finish[i])
  }

  /** btf_dedup_ref_type: the canonical ID of `id`, or -ELOOP. */
  method DedupRefType(d: Dedup, id: nat, ghost stack: seq<nat>) returns (r: int)
    requires RefState(d) && OnStack(d.orig, d.typeMap[..], stack, id)
    modifies d.btf.data, d.typeMap, d`table, d`finish, d`clock
    ensures d.Valid()
    ensures r < 0 ==> r == -ELOOP && HasRefCycle(d.orig)
    ensures r >= 0 ==> Canonical(d.orig, SnapOf(d), id, r) && Moved(old(SnapOf(d)), SnapOf(d), -1)
    decreases Undecided(d.typeMap[..]), 1
  {
    hide Good, Moved, Fixed, Canonical, MovedBut, Nested, OnStack;
    ghost var g0, s := d.orig, SnapOf(d);
    TypeState(g0, s, stack, id);
    if d.typeMap[id] == BTF_IN_PROGRESS_ID {
      StackCycle(g0, s.m, stack, id);
      return -ELOOP;
    }
    if d.typeMap[id] <= BTF_MAX_NR_TYPES {
      AlreadyDecided(g0, s, id);
      var root := d.ResolveTypeId(id);
      return root;
    }
    BeginType(g0, s, stack, id);
    d.typeMap[id] := BTF_IN_PROGRESS_ID;
    ghost var s1 := SnapOf(d);
    assert s1 == s.(m := s.m[id := BTF_IN_PROGRESS_ID]);
    FixedKinds(g0, s1, s1, stack + [id], id, {});
    r := FinishType(d, id, stack + [id]);
    if r >= 0 {
      CanonicalDecided(g0, SnapOf(d), id, r);
      EndType(g0, s, s1, SnapOf(d), stack, id);
    }
  }

  lemma TypeState(g0: TypeGraph, s: Snap, stack: seq<nat>, id: nat)
    requires WellFormed(g0) && Good(g0, s) && OnStack(g0, s.m, stack, id)
    ensures id < |g0| == |s.m| == |s.g|
    ensures s.m[id] == BTF_UNPROCESSED_ID || s.m[id] == BTF_IN_PROGRESS_ID || Mapped(s.m[id])
  {
    assert RefId(g0, s.g, s.m, s.table, s.finish, s.clock, id);
  }

  lemma AlreadyDecided(g0: TypeGraph, s: Snap, id: nat)
    requires WellFormed(g0) && Good(g0, s) && id < |s.m| && Mapped(s.m[id])
    ensures Forest(s.m) && Canonical(g0, s, id, Root(s.m, id)) && Moved(s, s, -1)
  {
    ResolvedRoot(g0, s.g, s.m, s.table, s.finish, s.clock, id);
    assert RefId(g0, s.g, s.m, s.table, s.finish, s.clock, id);
  }

  lemma CanonicalDecided(g0: TypeGraph, s: Snap, id: nat, r: int)
    requires WellFormed(g0) && Canonical(g0, s, id, r)
    ensures id < |s.m| && Mapped(s.m[id]) && Good(g0, s)
  {
  }

  lemma FixOne(g0: TypeGraph, s1: Snap, s2: Snap, stack: seq<nat>, id: nat, done: set<nat>, p: nat, r: nat)
    requires WellFormed(g0) && Fixed(g0, s1, s1, stack, id, done) && IsRef(g0[id], p) && p !in done
    requires Canonical(g0, s2, g0[id][p], r) && Moved(s1, s2, -1)
    ensures 1 <= id && 2 <= p < |s2.g[id]|
    ensures Fixed(g0, s1, s2.(g := Update(s2.g, id, p, r)), stack, id, done + {p})
  {
    RewrittenKinds(g0, s1.g, id);
    RewrittenKinds(g0, s2.g, id);
    StackKept(g0, s1.m, s2.m, stack, id);
    FixStep(g0, s2.g, s2.m, s2.table, s2.finish, s2.clock, id, p, r);
    FixingStep(g0, s1.g, s1.m, s1.finish, s2.g, s2.m, s2.finish, id, done, p, r);
    RefPosition(g0, id, p);
  }

  lemma RefPosition(g: TypeGraph, id: nat, p: nat)
    requires WellFormed(g) && id < |g| && IsRef(g[id], p)
    ensures 1 <= id && 2 <= p
  {
  }

  lemma ChildToFix(g0: TypeGraph, s: Snap, stack: seq<nat>, id: nat, done: set<nat>, p: nat)
    requires WellFormed(g0) && Fixed(g0, s, s, stack, id, done) && IsRef(g0[id], p) && p !in done
    ensures id < |g0| == |s.g| && p < |s.g[id]| && s.g[id][p] == g0[id][p]
    ensures OnStack(g0, s.m, stack, g0[id][p]) && Good(g0, s)
  {
    RewrittenKinds(g0, s.g, id);
    StackChild(g0, s.m, stack, id, p);
  }

  /** Resolves one reference of the type in progress and rewrites it in place. */
  method FixRef(d: Dedup, id: nat, p: nat, ghost stack: seq<nat>, ghost done: set<nat>) returns (r: int)
    requires d.Valid() && Fixed(d.orig, SnapOf(d), SnapOf(d), stack, id, done)
    requires IsRef(d.orig[id], p) && p !in done
    modifies d.btf.data, d.typeMap, d`table, d`finish, d`clock
    ensures d.Valid()
    ensures r < 0 ==> r == -ELOOP && HasRefCycle(d.orig)
    ensures r >= 0 ==> Fixed(d.orig, old(SnapOf(d)), SnapOf(d), stack, id, done + {p})
    decreases Undecided(d.typeMap[..]), 2
  {
    hide Fixed, Good, Moved, Canonical, Nested;
    ghost var g0, s1 := d.orig, SnapOf(d);
    ChildToFix(g0, s1, stack, id, done, p);
    var t := d.btf.TypeById(id);
    r := DedupRefType(d, t[p], stack);
    if r < 0 {
      return;
    }
    ghost var s2 := SnapOf(d);
    FixOne(g0, s1, s2, stack, id, done, p, r);
    d.btf.SetWord(id, p, r);
    assert SnapOf(d) == s2.(g := Update(s2.g, id, p, r));
  }

  lemma FixedHere(g0: TypeGraph, s1: Snap, s2: Snap, stack: seq<nat>, id: nat, done: set<nat>)
    requires WellFormed(g0) && Fixed(g0, s1, s2, stack, id, done)
    ensures Fixed(g0, s2, s2, stack, id, done) && Undecided(s2.m) <= Undecided(s1.m)
  {
  }

  lemma FixedKinds(g0: TypeGraph, s1: Snap, s2: Snap, stack: seq<nat>, id: nat, done: set<nat>)
    requires WellFormed(g0) && Fixed(g0, s1, s2, stack, id, done)
    ensures id < |g0| == |s2.g| && 3 <= |s2.g[id]| == |g0[id]|
    ensures Kind(s2.g[id]) == Kind(g0[id]) && Vlen(s2.g[id]) == Vlen(g0[id])
    ensures id > 0 ==> WellSized(s2.g[id])
  {
    RewrittenKinds(g0, s2.g, id);
  }

  lemma FixedStack(g0: TypeGraph, s1: Snap, s2: Snap, stack: seq<nat>, id: nat, done: set<nat>)
    requires WellFormed(g0) && Fixed(g0, s1, s2, stack, id, done)
    ensures Good(g0, s2) && id < |s2.m| && s2.m[id] == BTF_IN_PROGRESS_ID
  {
    assert stack[|stack| - 1] == id;
  }

  /** The parameters of a function prototype in progress, after its result. */
  method FixParams(d: Dedup, id: nat, ghost stack: seq<nat>) returns (r: int, ghost done: set<nat>)
    requires d.Valid() && 1 <= id < |d.orig| && 3 <= |d.orig[id]| && Kind(d.orig[id]) == KIND_FUNC_PROTO
    requires Fixed(d.orig, SnapOf(d), SnapOf(d), stack, id, {} + {2})
    modifies d.btf.data, d.typeMap, d`table, d`finish, d`clock
    ensures d.Valid()
    ensures r < 0 ==> r == -ELOOP && HasRefCycle(d.orig)
    ensures r >= 0 ==> Fixed(d.orig, old(SnapOf(d)), SnapOf(d), stack, id, done)
    ensures r >= 0 ==> forall p: nat :: IsRef(d.orig[id], p) ==> p in done
    decreases Undecided(d.typeMap[..]), 3
  {
    hide Fixed, VlenOf, SizeOf;
    ghost var g0, s1 := d.orig, SnapOf(d);
    ghost var s := s1;
    r, done := 0, {} + {2};
    FixedKinds(g0, s1, s1, stack, id, done);
    var t := d.btf.TypeById(id);
    ghost var t0 := g0[id];
    var vlen := Vlen(t);
    ParamRefs(t0, 0);
    var i := 0;
    while i < vlen
      invariant 0 <= i <= vlen == Vlen(t0) && r >= 0 && d.Valid()
      invariant s == SnapOf(d) && Fixed(g0, s1, s, stack, id, done)
      invariant forall p: nat :: IsRef(t0, p) && p < ParamTypePos(i) - 1 ==> p in done
      invariant forall p :: p in done ==> p < ParamTypePos(i) - 1
    {
      ParamRefs(t0, i);
      FixedHere(g0, s1, s, stack, id, done);
      r := FixRef(d, id, ParamTypePos(i), stack, done);
      if r < 0 {
        return;
      }
      ghost var s', done' := SnapOf(d), done + {ParamTypePos(i)};
      FixedTrans(g0, s1, s, s', stack, id, done, done');
      s, done := s', done';
      i := i + 1;
    }
    ParamRefs(t0, i);
  }

  /** All references of the type in progress. */
  method FixRefs(d: Dedup, id: nat, ghost stack: seq<nat>) returns (r: int, ghost done: set<nat>)
    requires d.Valid() && 1 <= id < |d.orig| && IsRefId(d.orig, id)
    requires Fixed(d.orig, SnapOf(d), SnapOf(d), stack, id, {})
    modifies d.btf.data, d.typeMap, d`table, d`finish, d`clock
    ensures d.Valid()
    ensures r < 0 ==> r == -ELOOP && HasRefCycle(d.orig)
    ensures r >= 0 ==> Fixed(d.orig, old(SnapOf(d)), SnapOf(d), stack, id, done)
    ensures r >= 0 ==> forall p: nat :: IsRef(d.orig[id], p) ==> p in done
    decreases Undecided(d.typeMap[..]), 4
  {
    hide Fixed, Good, Nested, SizeOf;
    ghost var g0, s1 := d.orig, SnapOf(d);
    done := {};
    WordsOfId(g0, id);
    FixedKinds(g0, s1, s1, stack, id, done);
    var t := d.btf.TypeById(id);
    var kind := Kind(t);
    FirstRefs(g0[id]);
    var first := if kind == KIND_ARRAY then 3 else 2;
    r := FixRef(d, id, first, stack, done);
    if r < 0 {
      return;
    }
    done := {} + {first};
    ghost var s2 := SnapOf(d);
    FixedHere(g0, s1, s2, stack, id, done);
    if kind == KIND_ARRAY {
      r := FixRef(d, id, 4, stack, done);
      if r < 0 {
        return;
      }
      FixedTrans(g0, s1, s2, SnapOf(d), stack, id, done, done + {4});
      done := done + {4};
    } else if kind == KIND_FUNC_PROTO {
      ghost var done2 := done;
      r, done := FixParams(d, id, stack);
      if r < 0 {
        return;
      }
      FixedTrans(g0, s1, s2, SnapOf(d), stack, id, done2, done);
    }
  }

  lemma FirstRefs(t: Words)
    requires WellSized(t) && IsRefKind(Kind(t))
    ensures Kind(t) == KIND_ARRAY ==> IsRef(t, 3) && IsRef(t, 4) && forall p: nat :: IsRef(t, p) ==> p == 3 || p == 4
    ensures Kind(t) != KIND_ARRAY ==> IsRef(t, 2)
    ensures Kind(t) != KIND_ARRAY && Kind(t) != KIND_FUNC_PROTO ==> forall p: nat :: IsRef(t, p) ==> p == 2
  {
  }

  /** The signature hash of a record of a reference kind. */
  method HashRef(t: Words) returns (h: int)
    requires WellSized(t) && IsRefKind(Kind(t))
    ensures h == SignatureHash(t)
  {
    if Kind(t) == KIND_DECL_TAG {
      h := HashIntDeclTag(t);
    } else if Kind(t) == KIND_ARRAY {
      h := HashArray(t);
    } else if Kind(t) == KIND_FUNC_PROTO {
      h := HashFnproto(t);
    } else {
      h := HashCommon(t);
    }
  }

  /** The comparison the kind of `t` calls for; it compares every word. */
  method EqualRef(t: Words, u: Words) returns (same: bool)
    requires WellSized(t) && WellSized(u) && IsRefKind(Kind(t))
    ensures same <==> t == u
  {
    if Kind(t) == KIND_DECL_TAG {
      EqualIntTagMeansEqual(t, u);
      same := EqualIntTag(t, u);
    } else if Kind(t) == KIND_ARRAY {
      EqualArrayMeansEqual(t, u);
      same := EqualArray(t, u);
    } else if Kind(t) == KIND_FUNC_PROTO {
      same := EqualFnproto(t, u);
    } else {
      EqualCommonMeansEqual(t, u);
      same := EqualCommon(t, u);
    }
  }

  /** The first candidate that is equal to the finished record. */
  method FindEqualRef(d: Dedup, id: nat, h: int) returns (newId: nat)
    requires RefState(d) && 1 <= id < |d.orig| && IsRefId(d.orig, id)
    requires d.typeMap[id] == BTF_IN_PROGRESS_ID
    ensures newId < |d.orig| && RefChosen(d.btf.Types(), d.table, h, id, newId)
  {
    hide Good, Nested, RefChosen, InTable, NoneEqual, KindOf;
    ghost var g0, g, s := d.orig, d.btf.Types(), SnapOf(d);
    newId := id;
    var t := d.btf.TypeById(id);
    GoodKinds(g0, s, id);
    var cands := d.Candidates(h);
    NoneEqualStart(g, cands, id);
    var k := 0;
    while k < |cands|
      invariant 0 <= k <= |cands| && NoneEqual(g, cands, k, id)
    {
      assert cands[k] in cands;
      var cand := d.btf.TypeById(cands[k]);
      CandidateFiled(g0, s, h, id, cands[k]);
      var same := EqualRef(t, cand);
      if same {
        newId := cands[k];
        EqualFound(g, cands, d.table, h, k, id);
        return;
      }
      NoneEqualStep(g, cands, k, id);
      k := k + 1;
    }
    NoneFound(g, cands, d.table, h, id);
  }

  lemma CandidateFiled(g0: TypeGraph, s: Snap, h: int, id: nat, x: nat)
    requires WellFormed(g0) && Good(g0, s) && InTable(s.table, h, x)
    requires id < |g0| && IsRefId(g0, id) && s.m[id] == BTF_IN_PROGRESS_ID
    ensures 1 <= x < |g0| == |s.g| && x != id && WellSized(s.g[x])
  {
    RewrittenKinds(g0, s.g, x);
  }

  lemma NoneEqualStart(g: TypeGraph, cands: seq<nat>, id: nat)
    requires id < |g|
    ensures NoneEqual(g, cands, 0, id)
  {
  }

  lemma NoneEqualStep(g: TypeGraph, cands: seq<nat>, k: nat, id: nat)
    requires id < |g| && k < |cands| && NoneEqual(g, cands, k, id) && cands[k] < |g| && g[cands[k]] != g[id]
    ensures NoneEqual(g, cands, k + 1, id)
  {
  }

  lemma EqualFound(g: TypeGraph, cands: seq<nat>, table: Table, h: int, k: nat, id: nat)
    requires id < |g| && k < |cands| && cands[k] < |g| && g[cands[k]] == g[id]
    requires cands[k] != id && InTable(table, h, cands[k])
    ensures RefChosen(g, table, h, id, cands[k])
  {
  }

  lemma NoneFound(g: TypeGraph, cands: seq<nat>, table: Table, h: int, id: nat)
    requires id < |g| && NoneEqual(g, cands, |cands|, id)
    requires forall x: nat :: InTable(table, h, x) ==> x in cands
    ensures RefChosen(g, table, h, id, id)
  {
  }

  /** The state after the choice for `id` has been recorded. */
  ghost function SnapAfter(s: Snap, id: nat, newId: nat): Snap
    requires id < |s.g| == |s.m| && WellSized(s.g[id])
  {
    Snap(s.g, s.m[id := newId], TableAfter(s.table, SignatureHash(s.g[id]), id, newId),
         s.finish[id := s.clock], s.clock + 1)
  }

  lemma FinishSnap(g0: TypeGraph, s1: Snap, s: Snap, stack: seq<nat>, id: nat, newId: nat, done: set<nat>)
    requires WellFormed(g0) && Fixed(g0, s1, s, stack, id, done) && 1 <= id && WellSized(s.g[id]) && newId < |s.g|
    requires forall p: nat :: IsRef(g0[id], p) ==> p in done
    requires RefChosen(s.g, s.table, SignatureHash(s.g[id]), id, newId)
    requires s1.m[id] == BTF_IN_PROGRESS_ID && id !in s1.finish
    ensures Canonical(g0, SnapAfter(s, id, newId), id, newId) && MovedBut(s1, SnapAfter(s, id, newId), id)
  {
    hide RefInv, Fixing, Moved, MovedBut, Fixed, RefChosen, Sound, Forest;
    FixedParts(g0, s1, s, stack, id, done);
    FinishRef(g0, s.g, s.m, s.table, s.finish, s.clock, id, newId, done);
    FinishMoved(s1, s, id, newId);
  }

  lemma FixedParts(g0: TypeGraph, s1: Snap, s: Snap, stack: seq<nat>, id: nat, done: set<nat>)
    requires WellFormed(g0) && Fixed(g0, s1, s, stack, id, done)
    ensures RefInv(g0, s.g, s.m, s.table, s.finish, s.clock) && Fixing(g0, s.g, s.m, s.finish, id, done)
    ensures Moved(s1, s, id) && id < |g0| == |s.g| == |s.m| && IsRefId(g0, id) && s.m[id] == BTF_IN_PROGRESS_ID
  {
    assert stack[|stack| - 1] == id;
  }

  lemma FinishMoved(s1: Snap, s: Snap, id: nat, newId: nat)
    requires Moved(s1, s, id) && id < |s.g| && WellSized(s.g[id]) && s1.m[id] == BTF_IN_PROGRESS_ID && id !in s1.finish
    ensures MovedBut(s1, SnapAfter(s, id, newId), id)
  {
  }

  lemma NotFinished(g0: TypeGraph, s: Snap, id: nat)
    requires WellFormed(g0) && Good(g0, s) && id < |s.m| && s.m[id] == BTF_IN_PROGRESS_ID
    ensures id !in s.finish
  {
  }

  /** The rest of btf_dedup_ref_type, once the type is in progress. */
  method FinishType(d: Dedup, id: nat, ghost stack: seq<nat>) returns (r: int)
    requires d.Valid() && 1 <= id < |d.orig| && IsRefId(d.orig, id)
    requires Fixed(d.orig, SnapOf(d), SnapOf(d), stack, id, {})
    modifies d.btf.data, d.typeMap, d`table, d`finish, d`clock
    ensures d.Valid()
    ensures r < 0 ==> r == -ELOOP && HasRefCycle(d.orig)
    ensures r >= 0 ==> Canonical(d.orig, SnapOf(d), id, r) && MovedBut(old(SnapOf(d)), SnapOf(d), id)
    decreases Undecided(d.typeMap[..]), 5
  {
    hide Fixed, Good, MovedBut, Canonical, SnapAfter, Nested, RefChosen;
    ghost var g0, s1 := d.orig, SnapOf(d);
    ghost var done;
    r, done := FixRefs(d, id, stack);
    if r < 0 {
      return;
    }
    ghost var s := SnapOf(d);
    FixedKinds(g0, s1, s, stack, id, done);
    FixedStack(g0, s1, s1, stack, id, {});
    FixedStack(g0, s1, s, stack, id, done);
    NotFinished(g0, s1, id);
    var t := d.btf.TypeById(id);
    var h := HashRef(t);
    var newId := FindEqualRef(d, id, h);
    FinishSnap(g0, s1, s, stack, id, newId, done);
    RecordRef(d, id, newId, h);
    r := newId;
  }

  /** Records the choice, files a canonical type, notes the order of finishing. */
  method RecordRef(d: Dedup, id: nat, newId: nat, h: int)
    requires d.Valid() && 1 <= id < |d.orig| && newId < |d.orig| && WellSized(d.btf.Types()[id])
    requires h == SignatureHash(d.btf.Types()[id])
    modifies d.typeMap, d`table, d`finish, d`clock
    ensures d.Valid() && SnapOf(d) == SnapAfter(old(SnapOf(d)), id, newId)
  {
    ghost var s := SnapOf(d);
    d.typeMap[id] := newId;
    assert d.typeMap[..] == s.m[id := newId];
    if newId == id {
      d.TableAdd(h, id);
    }
    d.finish := d.finish[id := d.clock];
    d.clock := d.clock + 1;
  }

  // ---------------------------------------------------------------- the pass

  /** No type is being worked on. */
  ghost predicate Idle(m: IdMap) {
    forall i :: 0 <= i < |m| ==> m[i] != BTF_IN_PROGRESS_ID
  }

  /** Every type below `n` has been decided. */
  ghost predicate DecidedBelow(m: IdMap, n: nat) {
    n <= |m| && forall i :: 0 <= i < n ==> Mapped(m[i])
  }

  lemma IdleStack(g0: TypeGraph, s: Snap, id: nat)
    requires WellFormed(g0) && Good(g0, s) && Idle(s.m) && id < |g0|
    ensures OnStack(g0, s.m, [], id)
  {
  }

  lemma PassStep(g0: TypeGraph, s0: Snap, s: Snap, s': Snap, id: nat, r: int)
    requires WellFormed(g0) && Good(g0, s0) && Canonical(g0, s', id, r) && Moved(s0, s, -1) && Moved(s, s', -1)
    requires Idle(s.m) && DecidedBelow(s.m, id) && id < |s.m|
    ensures Good(g0, s') && Idle(s'.m) && DecidedBelow(s'.m, id + 1) && Moved(s0, s', -1)
  {
    hide KindOf, VlenOf, SizeOf, IsRefPos, Bisim, RefInv;
  }

  lemma PassStart(g0: TypeGraph, s: Snap)
    requires WellFormed(g0) && Good(g0, s)
    ensures DecidedBelow(s.m, 1) && Moved(s, s, -1)
  {
    assert RefId(g0, s.g, s.m, s.table, s.finish, s.clock, 0);
  }

  /** Once every type is decided, the order of finishing shows that no
      reference runs in a circle. */
  lemma AllDecidedNoCycle(g0: TypeGraph, s: Snap)
    requires WellFormed(g0) && Good(g0, s) && DecidedBelow(s.m, |g0|)
    ensures !HasRefCycle(g0)
  {
    forall a: nat, b: nat | RefEdge(g0, a, b)
      ensures a in s.finish && b in s.finish && s.finish[b] < s.finish[a]
    {
      assert RefId(g0, s.g, s.m, s.table, s.finish, s.clock, a);
      var p: nat :| IsRef(g0[a], p) && g0[a][p] == b;
      assert Settled1(g0, s.g, s.m, s.finish, a, p) && Earlier(g0, s.finish, a, p);
    }
    OrderedNoCycle(g0, s.finish);
  }

  /** What earlier passes decided is not decided again. */
  lemma OthersKept(g0: TypeGraph, s0: Snap, s: Snap, i: nat)
    requires WellFormed(g0) && Good(g0, s0) && Moved(s0, s, -1) && i < |g0| && !IsRefId(g0, i)
    ensures |s0.m| == |s.m| == |g0| && s.m[i] == s0.m[i]
  {
    assert RefId(g0, s0.g, s0.m, s0.table, s0.finish, s0.clock, i);
  }

  /** btf_dedup_ref_types: succeeds unless references of these kinds run in a
      circle, and then decides every type. */
  method DedupRefTypes(d: Dedup) returns (err: int)
    requires RefState(d) && Idle(d.typeMap[..])
    modifies d.btf.data, d.typeMap, d`table, d`finish, d`clock
    ensures d.Valid() && (err == 0 || err == -ELOOP)
    ensures err == -ELOOP <==> HasRefCycle(d.orig)
    ensures err == 0 ==> RefState(d) && DecidedBelow(d.typeMap[..], |d.orig|)
    ensures err == 0 ==> forall i :: 0 <= i < |d.orig| && !IsRefId(d.orig, i) ==> d.typeMap[i] == old(d.typeMap[i])
  {
    hide Good, Moved, Idle, Canonical, DecidedBelow, Nested, OnStack, HasRefCycle;
    ghost var g0, s0 := d.orig, SnapOf(d);
    ghost var s := s0;
    PassStart(g0, s0);
    err := 0;
    var id := 1;
    while id < d.btf.nr + 1
      invariant 1 <= id <= |g0| && d.Valid() && err == 0 && s == SnapOf(d)
      invariant Good(g0, s) && Idle(s.m) && DecidedBelow(s.m, id) && Moved(s0, s, -1)
    {
      IdleStack(g0, s, id);
      var r := DedupRefType(d, id, []);
      if r < 0 {
        err := r;
        return;
      }
      PassStep(g0, s0, s, SnapOf(d), id, r);
      s := SnapOf(d);
      id := id + 1;
    }
    AllDecidedNoCycle(g0, s);
    forall i | 0 <= i < |g0| && !IsRefId(g0, i) ensures s.m[i] == s0.m[i] { OthersKept(g0, s0, s, i); }
  }

  // ------------------------------------------------------------ no duplicates

  /** No two variables or data sections mean the same; deduplication leaves these kinds alone. */
  ghost predicate VarsDistinct(g: TypeGraph)
    requires WellFormed(g)
  {
    forall i, j :: 0 <= i < |g| && 0 <= j < |g| && 3 <= |g[i]| && IsVarKind(Kind(g[i])) && Bisim(g, i, j) ==> i == j
  }

  /** No two canonical types mean the same. */
  ghost predicate AllUnique(g: TypeGraph, m: IdMap)
    requires WellFormed(g) && |m| == |g|
  {
    forall i, j :: 0 <= i < |g| && 0 <= j < |g| && m[i] == i && m[j] == j && Bisim(g, i, j) ==> i == j
  }

  /** Canonical types other than references that mean the same are one. */
  lemma OthersUnique(g: TypeGraph, m: IdMap, a: nat, x: nat, y: nat)
    requires WellFormed(g) && Complete(g) && |m| == |g| && a < |g| && x < |g| && y < |g|
    requires Unique(g, m, false) && Unique(g, m, true) && VarsDistinct(g) && !IsRefId(g, a)
    requires Bisim(g, x, a) && Bisim(g, y, a) && m[x] == x && m[y] == y
    ensures x == y
  {
    BisimSym(g, y, a);
    BisimTrans(g, x, a, y);
    BisimUnfold(g, x, y);
    SameLabelRefs(g[x], g[y]);
    SameRefKind(g, x, a);
    WordsOfId(g, x);
    WordsOfId(g, y);
    if x > 0 { KindOfWellSized(g[x]); }
  }

  lemma CanonicalChild(g0: TypeGraph, s: Snap, a: nat, x: nat, p: nat)
    requires WellFormed(g0) && Complete(g0) && Good(g0, s) && a < |g0| && x < |g0|
    requires IsRefId(g0, a) && Bisim(g0, x, a) && s.m[x] == x && IsRef(g0[x], p)
    ensures IsRef(g0[a], p) && IsRef(s.g[x], p) && s.m[s.g[x][p]] == s.g[x][p] && Bisim(g0, s.g[x][p], g0[a][p])
  {
    SameRefKind(g0, x, a);
    BisimUnfold(g0, x, a);
    assert RefId(g0, s.g, s.m, s.table, s.finish, s.clock, x);
    assert Settled1(g0, s.g, s.m, s.finish, x, p);
    BisimSym(g0, g0[x][p], s.g[x][p]);
    BisimTrans(g0, s.g[x][p], g0[x][p], g0[a][p]);
  }

  /** Whatever means what `a` means and is canonical is one and the same type:
      by induction on the order in which references were finished. */
  lemma {:induction false} OneCanonical(g0: TypeGraph, s: Snap, a: nat, x: nat, y: nat)
    requires WellFormed(g0) && Complete(g0) && Good(g0, s) && DecidedBelow(s.m, |g0|)
    requires Unique(g0, s.m, false) && Unique(g0, s.m, true) && VarsDistinct(g0)
    requires a < |g0| && x < |g0| && y < |g0| && Bisim(g0, x, a) && Bisim(g0, y, a)
    requires s.m[x] == x && s.m[y] == y
    ensures x == y
    decreases if a in s.finish then 1 + s.finish[a] else 0
  {
    if !IsRefId(g0, a) {
      OthersUnique(g0, s.m, a, x, y);
    } else {
      SameRefKind(g0, x, a);
      RewrittenKinds(g0, s.g, x);
      RewrittenKinds(g0, s.g, y);
      BisimSym(g0, y, a);
      BisimTrans(g0, x, a, y);
      BisimUnfold(g0, x, y);
      LabelsAround(g0[x], s.g[x], g0[y], s.g[y]);
      forall p: nat | IsRef(s.g[x], p) ensures s.g[x][p] == s.g[y][p] {
        assert IsRef(g0[y], p);
        CanonicalChild(g0, s, a, x, p);
        CanonicalChild(g0, s, a, y, p);
        ChildEarlier(g0, s, a, p);
        OneCanonical(g0, s, g0[a][p], s.g[x][p], s.g[y][p]);
      }
      SameRecord(s.g[x], s.g[y]);
      assert Shared(g0, s.g, s.m);
    }
  }

  lemma ChildEarlier(g0: TypeGraph, s: Snap, a: nat, p: nat)
    requires WellFormed(g0) && Good(g0, s) && DecidedBelow(s.m, |g0|) && a < |g0| && IsRefId(g0, a) && IsRef(g0[a], p)
    ensures a in s.finish
    ensures g0[a][p] in s.finish ==> s.finish[g0[a][p]] < s.finish[a]
  {
    assert RefId(g0, s.g, s.m, s.table, s.finish, s.clock, a);
    assert Earlier(g0, s.finish, a, p);
  }

  lemma LabelsAround(t: Words, x: Words, u: Words, y: Words)
    requires SameLabel(t, x) && SameLabel(u, y) && SameLabel(t, u)
    ensures SameLabel(x, y)
  {
    SameLabelRefs(t, x);
    SameLabelRefs(u, y);
    SameLabelRefs(t, u);
  }

  lemma SameRecord(x: Words, y: Words)
    requires SameLabel(x, y) && forall p: nat :: IsRef(x, p) ==> p < |y| && x[p] == y[p]
    ensures x == y
  {
  }

  /** After the reference pass canonical types are pairwise different in meaning
      exactly when the variables were. */
  lemma CanonicalsUnique(g0: TypeGraph, s: Snap)
    requires WellFormed(g0) && Complete(g0) && Good(g0, s) && DecidedBelow(s.m, |g0|)
    requires Unique(g0, s.m, false) && Unique(g0, s.m, true)
    requires forall i :: 0 <= i < |g0| && 3 <= |g0[i]| && IsVarKind(Kind(g0[i])) ==> s.m[i] == i
    ensures AllUnique(g0, s.m) <==> VarsDistinct(g0)
  {
    if VarsDistinct(g0) {
      forall i, j | 0 <= i < |g0| && 0 <= j < |g0| && s.m[i] == i && s.m[j] == j && Bisim(g0, i, j) ensures i == j {
        BisimRefl(g0, j);
        OneCanonical(g0, s, j, i, j);
      }
    }
    if AllUnique(g0, s.m) {
      forall i, j | 0 <= i < |g0| && 0 <= j < |g0| && 3 <= |g0[i]| && IsVarKind(Kind(g0[i])) && Bisim(g0, i, j)
        ensures i == j
      {
        BisimUnfold(g0, i, j);
        SameLabelRefs(g0[i], g0[j]);
      }
    }
  }
}
