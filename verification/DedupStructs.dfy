/** btf_dedup_struct_types and btf_dedup_resolve_fwds: deduplication of structs
    and unions, and resolution of forward declarations. */
module DedupStructs {
  import opened BtfWords
  import opened IdMaps
  import opened TypeMeaning
  import opened BtfSection
  import opened BtfCompare
  import opened DedupState
  import opened DedupEquiv
  import opened DedupMerge
  import opened DedupHistory
  import opened DedupPrims

  /** Each type comes from a compilation unit that is closed under references
      and holds no two distinct types that mean the same. */
  ghost predicate UnitsDeduped(g: TypeGraph, units: seq<set<nat>>)
    requires WellFormed(g)
  {
    |units| == |g| && forall i :: 0 <= i < |g| ==> i in units[i] && DupFree(g, units[i])
  }

  /** What holds of the map and the table when the structs and unions below `n` are decided. */
  ghost predicate StructInv(g: TypeGraph, m: IdMap, table: Table, n: nat, units: seq<set<nat>>)
    requires WellFormed(g)
  {
    && Sound(g, m) && Decided(g, m, n) && CompositesFiledAsRoots(g, m, table) && Filed(g, m, table)
    && (Complete(g) ==> Unique(g, m, false))
    && (UnitsDeduped(g, units) ==> Unique(g, m, true))
  }

  /** Primitive types and variables are decided, so are structs and unions below
      `n`; the reference kinds are still undecided. */
  ghost predicate Decided(g: TypeGraph, m: IdMap, n: nat)
    requires WellFormed(g) && |m| == |g|
  {
    forall i :: 0 <= i < |g| ==> DecidedId(g, m, n, i)
  }

  ghost predicate DecidedId(g: TypeGraph, m: IdMap, n: nat, i: nat)
    requires WellFormed(g) && |m| == |g| && i < |g|
  {
    && (i == 0 || IsVarKind(Kind(g[i])) ==> m[i] == i)
    && (IsPrimKind(Kind(g[i])) ==> Mapped(m[i]))
    && (IsComposite(g[i]) && i < n ==> Mapped(m[i]))
    && (IsRefKind(Kind(g[i])) ==> m[i] == BTF_UNPROCESSED_ID)
  }

  ghost predicate CompositesFiledAsRoots(g: TypeGraph, m: IdMap, table: Table)
    requires WellFormed(g) && |m| == |g|
  {
    forall h, x: nat :: InTable(table, h, x) ==>
      1 <= x < |g| && (IsPrimKind(Kind(g[x])) || (IsComposite(g[x]) && m[x] == x))
  }

  ghost predicate StructState(d: Dedup, n: nat, units: seq<set<nat>>)
    reads d`table, d`hypotList, d.btf, d.btf.data, d.btf.offs, d.typeMap, d.hypotMap
  {
    Ready(d) && StructInv(d.orig, d.typeMap[..], d.table, n, units)
  }

  /** A map whose recorded pairs are all settled relates only IDs that mean the same. */
  lemma SettledPairs(g: TypeGraph, m: IdMap, h0: IdMap, hyp: IdMap, canon: nat, cand: nat)
    requires WellFormed(g) && InRange(h0, |g|) && InRange(hyp, |g|) && canon < |g| && cand < |g|
    requires forall c :: 0 <= c < |g| ==> !Mapped(h0[c])
    requires Sound(g, m) && NewChecked(g, m, h0, hyp) && Linked(g, m, hyp, canon, cand)
    ensures PairsBisim(g, hyp) && Bisim(g, canon, cand) && Closed(g, Merge(canon, cand, hyp, m))
  {
    forall c | 0 <= c < |g| && Mapped(hyp[c]) ensures Bisim(g, c, hyp[c]) {
      CheckedIsBisim(g, hyp, c);
    }
    hide Chased, Met;
    if !Bisim(g, canon, cand) {
      var e := Middle(g, hyp, canon, cand);
      BisimTrans(g, canon, e, hyp[e]);
      BisimTrans(g, canon, hyp[e], cand);
    }
  }

  /** Some pairing, as far as the map has come, matches the two. */
  ghost predicate Pairable(g: TypeGraph, m: IdMap, canon: nat, cand: nat)
    requires WellFormed(g)
  {
    exists pairs: map<nat, nat> :: Pairing(g, m, pairs) && Agree(g, m, pairs, canon, cand)
  }

  /** The pairing of all types with the types of a duplicate-free unit that mean the same. */
  ghost function UnitPairs(g: TypeGraph, own: set<nat>): (pairs: map<nat, nat>)
    requires WellFormed(g) && DupFree(g, own)
    ensures forall a :: a in pairs ==> a < |g| && pairs[a] in own && Bisim(g, a, pairs[a])
    ensures forall a, b :: 0 <= a < |g| && b in own && Bisim(g, a, b) ==> a in pairs && pairs[a] == b
  {
    UnitFunctional(g, own);
    map a: nat, b: nat | a < |g| && b in own && Bisim(g, a, b) :: a := b
  }

  lemma UnitFunctional(g: TypeGraph, own: set<nat>)
    requires WellFormed(g) && DupFree(g, own)
    ensures forall a, b, c :: 0 <= a < |g| && b in own && c in own && Bisim(g, a, b) && Bisim(g, a, c) ==> b == c
  {
    forall a, b, c | 0 <= a < |g| && b in own && c in own && Bisim(g, a, b) && Bisim(g, a, c) ensures b == c {
      BisimSym(g, a, b);
      BisimTrans(g, b, a, c);
    }
  }

  lemma UnitPairOne(g: TypeGraph, m: IdMap, own: set<nat>, a: nat)
    requires WellFormed(g) && DupFree(g, own) && |m| == |g| && Forest(m) && a in UnitPairs(g, own)
    ensures CouldBeOne(g, m, UnitPairs(g, own), a, UnitPairs(g, own)[a])
  {
    hide KindOf, VlenOf, SizeOf, IsRefPos, Forest, EnumsCompatible;
    var pairs := UnitPairs(g, own);
    var b := pairs[a];
    BisimUnfold(g, a, b);
    WordsOfId(g, a);
    WordsOfId(g, b);
    SameLabelRefs(g[a], g[b]);
    NotRefZero(g[a]);
    if IsPrimKind(Kind(g[a])) { CompletePrims(g, a, b); }
    forall p: nat | IsRef(g[a], p) ensures p < |g[b]| && Agree(g, m, pairs, g[a][p], g[b][p]) {
      WordsOfId(g, g[a][p]);
    }
  }

  lemma NotRefZero(t: Words)
    ensures !IsRef(t, 0)
  {
  }

  /** Without forward declarations, primitive types of equal label are equal. */
  lemma CompletePrims(g: TypeGraph, a: nat, b: nat)
    requires WellFormed(g) && Complete(g) && a < |g| && b < |g| && 3 <= |g[a]| && 3 <= |g[b]| && IsPrimKind(Kind(g[a])) && SameLabel(g[a], g[b])
    ensures g[a] == g[b] && WellSized(g[a]) && (IsAnyEnum(g[a]) ==> EnumsCompatible(g[b], g[a]))
  {
    WordsOfId(g, a);
    WordsOfId(g, b);
    SameLabelNoRefs(g[a], g[b]);
  }

  /** In duplicate-free units IDs that mean the same can be paired. */
  lemma UnitsPairable(g: TypeGraph, m: IdMap, units: seq<set<nat>>, canon: nat, cand: nat)
    requires WellFormed(g) && |m| == |g| && Forest(m) && canon < |g| && cand < |g|
    ensures UnitsDeduped(g, units) && Bisim(g, canon, cand) ==> Pairable(g, m, canon, cand)
  {
    hide Bisim, CouldBeOne, Forest;
    if UnitsDeduped(g, units) && Bisim(g, canon, cand) {
      var own := units[cand];
      var pairs := UnitPairs(g, own);
      forall a | a in pairs ensures CouldBeOne(g, m, pairs, a, pairs[a]) { UnitPairOne(g, m, own, a); }
      WordsOfId(g, canon);
      assert Pairing(g, m, pairs) && Agree(g, m, pairs, canon, cand);
    }
  }

  /** None of the first `k` candidates means what `id` means, where units are free of
      duplicates, nor can be paired with it at all. */
  ghost predicate NoneMatches(g: TypeGraph, m: IdMap, cands: seq<nat>, k: nat, id: nat, units: seq<set<nat>>)
    requires WellFormed(g) && |m| == |g| && k <= |cands| && id < |g|
  {
    && (UnitsDeduped(g, units) ==> forall j :: 0 <= j < k ==> cands[j] < |g| && !Bisim(g, cands[j], id))
    && (forall j :: 0 <= j < k && Contender(g, m, cands[j], id) ==> !Pairable(g, m, cands[j], id))
  }

  lemma NoneMatchesStart(g: TypeGraph, m: IdMap, cands: seq<nat>, id: nat, units: seq<set<nat>>)
    requires WellFormed(g) && id < |g| && |m| == |g|
    ensures NoneMatches(g, m, cands, 0, id, units)
  {
  }

  lemma NoneMatchesStep(g: TypeGraph, m: IdMap, cands: seq<nat>, k: nat, id: nat, units: seq<set<nat>>)
    requires WellFormed(g) && |m| == |g| && k < |cands| && id < |g| && NoneMatches(g, m, cands, k, id, units) && cands[k] < |g|
    requires UnitsDeduped(g, units) ==> !Bisim(g, cands[k], id)
    requires Contender(g, m, cands[k], id) ==> !Pairable(g, m, cands[k], id)
    ensures NoneMatches(g, m, cands, k + 1, id, units)
  {
  }

  /** One candidate for a struct or union: 1 if it is equivalent, and then the
      pairs found equivalent have been merged. */
  method TryCandidate(d: Dedup, id: nat, cand: nat, ghost units: seq<set<nat>>) returns (eq: int, ghost e: Merge)
    requires Ready(d) && 1 <= id < |d.orig| && 1 <= cand < |d.orig| && IsComposite(d.orig[id]) && DefsStay(d.orig, d.typeMap[..])
    modifies d.typeMap, d.hypotMap, d`hypotList
    ensures Ready(d) && (eq == 1 || eq == 0 || (eq == -EINVAL && OddRefs(d.orig)))
    ensures Merged(d.orig, old(d.typeMap[..]), d.typeMap[..])
    ensures eq != 1 ==> d.typeMap[..] == old(d.typeMap[..])
    ensures eq == 1 ==> Bisim(d.orig, cand, id) && IsComposite(d.orig[cand])
    ensures eq == 1 ==> Trial(d.orig, old(d.typeMap[..]), d.typeMap[..], e) && e.cand == cand && e.id == id
    ensures eq == 0 && Contender(d.orig, old(d.typeMap[..]), cand, id) ==> !Pairable(d.orig, old(d.typeMap[..]), cand, id)
    ensures eq == 0 && UnitsDeduped(d.orig, units) ==> !Bisim(d.orig, cand, id)
  {
    hide Sound, Nested, UnitsDeduped, Pairable, Bisim, KindOf, OddRefs, VlenOf, SizeOf, IsRefPos, Forest, Trial, Contender, Merged, HypotOk, DefsStay;
    ghost var g, m0 := d.orig, d.typeMap[..];
    e := Merge(cand, id, [], m0);
    var t := d.btf.TypeById(id);
    var candType := d.btf.TypeById(cand);
    WordsOfId(g, id);
    WordsOfId(g, cand);
    SoundForest(g, m0);
    MergedNothing(g, m0);
    var shallow := ShallowEqualStruct(t, candType);
    if !shallow {
      NotShallowNotPairable(g, m0, cand, id);
      NotShallowNotBisim(g, cand, id, units);
      return 0, e;
    }
    SameLabelRefs(t, candType);
    eq, e := CompareAndMerge(d, id, cand);
    UnitsPairable(g, m0, units, cand, id);
  }

  lemma MergedNothing(g: TypeGraph, m: IdMap)
    requires WellFormed(g) && |m| == |g|
    ensures Merged(g, m, m)
  {
  }

  /** The comparison proper, and the merge of what it has found. */
  method CompareAndMerge(d: Dedup, id: nat, cand: nat) returns (eq: int, ghost e: Merge)
    requires Ready(d) && 1 <= id < |d.orig| && 1 <= cand < |d.orig| && IsComposite(d.orig[id]) && DefsStay(d.orig, d.typeMap[..])
    modifies d.typeMap, d.hypotMap, d`hypotList
    ensures Ready(d) && (eq == 1 || eq == 0 || (eq == -EINVAL && OddRefs(d.orig)))
    ensures Merged(d.orig, old(d.typeMap[..]), d.typeMap[..])
    ensures eq != 1 ==> d.typeMap[..] == old(d.typeMap[..])
    ensures eq == 1 ==> Bisim(d.orig, cand, id)
    ensures eq == 1 ==> Trial(d.orig, old(d.typeMap[..]), d.typeMap[..], e) && e.cand == cand && e.id == id
    ensures eq == 0 ==> !Pairable(d.orig, old(d.typeMap[..]), cand, id)
  {
    hide Sound, Nested, NewChecked, Linked, Pairing, Pairable, Acceptable, Bisim, PairsBisim, KindOf, OddRefs, Usual, VlenOf, SizeOf, IsRefPos,
      Forest, HypotOk, Trial, Closed, Onwards, AllAlong, Merged, DefsStay, MergedUpTo, PairMerged, Recorded;
    ghost var g, m0 := d.orig, d.typeMap[..];
    e := Merge(cand, id, [], m0);
    MergedNothing(g, m0);
    ClearHypotMap(d);
    ghost var h0, pairs := d.hypotMap[..], SomePairing(g, m0, cand, id);
    CompositeUsual(g, id);
    PairingFresh(g, m0, h0, cand, id);
    eq := IsEquiv(d, id, cand, pairs);
    if eq == 1 {
      ghost var hyp := d.hypotMap[..];
      FreshRange(d, h0);
      SettledPairs(g, m0, h0, hyp, cand, id);
      e := Merge(cand, id, hyp, m0);
      MergeHypotMap(d);
      SoundForest(g, m0);
      SoundForest(g, d.typeMap[..]);
      TrialDone(g, m0, d.typeMap[..], e);
    }
  }

  lemma FreshRange(d: Dedup, h0: IdMap)
    requires Ready(d) && |h0| == |d.orig| && forall c :: 0 <= c < |h0| ==> h0[c] == BTF_UNPROCESSED_ID
    ensures InRange(h0, |d.orig|) && InRange(d.hypotMap[..], |d.orig|) && forall c :: 0 <= c < |d.orig| ==> !Mapped(h0[c])
  {
  }

  lemma CompositeUsual(g: TypeGraph, id: nat)
    requires WellFormed(g) && id < |g| && 3 <= |g[id]| && IsComposite(g[id])
    ensures Usual(g, id)
  {
  }

  /** A pairing that matches the two, if there is one. */
  ghost function SomePairing(g: TypeGraph, m: IdMap, canon: nat, cand: nat): (pairs: map<nat, nat>)
    requires WellFormed(g)
    ensures Pairable(g, m, canon, cand) ==> Pairing(g, m, pairs) && Agree(g, m, pairs, canon, cand)
  {
    if Pairable(g, m, canon, cand) then
      var pairs: map<nat, nat> :| Pairing(g, m, pairs) && Agree(g, m, pairs, canon, cand);
      pairs
    else map[]
  }

  lemma PairingFresh(g: TypeGraph, m: IdMap, h0: IdMap, canon: nat, cand: nat)
    requires WellFormed(g) && |h0| == |g| && forall c :: 0 <= c < |g| ==> !Mapped(h0[c])
    ensures Pairable(g, m, canon, cand) ==> Acceptable(g, m, h0, SomePairing(g, m, canon, cand), canon, cand)
  {
  }

  /** A candidate that is canonical so far, for a type that is undecided. */
  ghost predicate Contender(g: TypeGraph, m: IdMap, cand: nat, id: nat)
    requires WellFormed(g) && |m| == |g|
  {
    cand < |g| && id < |g| && cand != id && 3 <= |g[cand]| && IsComposite(g[cand]) && IsRoot(m, cand) && IsRoot(m, id)
  }

  lemma NotShallowNotPairable(g: TypeGraph, m: IdMap, cand: nat, id: nat)
    requires WellFormed(g) && |m| == |g| && Forest(m) && cand < |g| && id < |g| && 3 <= |g[id]| && IsComposite(g[id])
    requires !SameLabel(g[id], g[cand])
    ensures Contender(g, m, cand, id) ==> !Pairable(g, m, cand, id)
  {
    hide SameLabel, KindOf, CouldBeOne;
    if Contender(g, m, cand, id) {
      RootStep(m, cand);
      RootStep(m, id);
      forall pairs: map<nat, nat> | Pairing(g, m, pairs) ensures !Agree(g, m, pairs, cand, id) {
        NotOne(g, m, pairs, cand, id);
      }
    }
  }

  lemma NotOne(g: TypeGraph, m: IdMap, pairs: map<nat, nat>, a: nat, b: nat)
    requires WellFormed(g) && |m| == |g| && Forest(m) && a < |g| && b < |g| && 3 <= |g[a]| && 3 <= |g[b]|
    requires IsComposite(g[a]) && IsComposite(g[b]) && !SameLabel(g[b], g[a])
    ensures !CouldBeOne(g, m, pairs, a, b)
  {
  }

  lemma NotShallowNotBisim(g: TypeGraph, cand: nat, id: nat, units: seq<set<nat>>)
    requires WellFormed(g) && cand < |g| && id < |g| && !SameLabel(g[id], g[cand])
    ensures UnitsDeduped(g, units) ==> !Bisim(g, cand, id)
  {
    if UnitsDeduped(g, units) && Bisim(g, cand, id) {
      assert DupFree(g, units[0]);
      BisimUnfold(g, cand, id);
      SameLabelRefs(g[cand], g[id]);
    }
  }

  /** What the search through the candidates of struct or union `id` ends with. */
  ghost predicate StructChosen(g: TypeGraph, m0: IdMap, m: IdMap, table: Table, h: int, id: nat, newId: nat,
                               units: seq<set<nat>>)
    requires WellFormed(g) && 1 <= id < |g|
  {
    && Merged(g, m0, m)
    && (if newId == id
        then m == m0 && (UnitsDeduped(g, units) ==> forall c: nat :: InTable(table, h, c) && c < |g| ==> !Bisim(g, c, id))
             && (forall c: nat :: InTable(table, h, c) && Contender(g, m0, c, id) ==> !Pairable(g, m0, c, id))
        else InTable(table, h, newId) && newId < |g| && IsComposite(g[newId]) && Bisim(g, newId, id))
  }

  lemma StructChosenSound(g: TypeGraph, m0: IdMap, table: Table, m: IdMap, h: int, id: nat, newId: nat,
                          units: seq<set<nat>>)
    requires WellFormed(g) && |m0| == |g| && 1 <= id < |g| && newId < |g| && !Mapped(m0[id])
    requires Sound(g, m) && CompositesFiledAsRoots(g, m0, table)
    requires StructChosen(g, m0, m, table, h, id, newId, units)
    ensures Sound(g, m[id := newId])
    ensures newId != id ==> m[newId] == newId
  {
    if newId == id {
      MakeRoot(m, id, id);
      BisimRefl(g, id);
    } else {
      assert m0[newId] == newId;
      WordsOfId(g, newId);
      BisimSym(g, newId, id);
      LinkToRoot(m, id, newId);
    }
  }

  lemma StructChosenUnique(g: TypeGraph, m0: IdMap, table: Table, m: IdMap, id: nat, newId: nat,
                           units: seq<set<nat>>)
    requires WellFormed(g) && |m0| == |g| && 1 <= id < |g| && newId < |g| && !Mapped(m0[id])
    requires IsComposite(g[id]) && Filed(g, m0, table)
    requires StructChosen(g, m0, m, table, SignatureHash(g[id]), id, newId, units)
    ensures UnitsDeduped(g, units) && Unique(g, m0, true) ==> Unique(g, m[id := newId], true)
    ensures Complete(g) && Unique(g, m0, false) ==> Unique(g, m[id := newId], false)
  {
    if UnitsDeduped(g, units) && Unique(g, m0, true) {
      assert DupFree(g, units[0]);
      forall j | 1 <= j < |g| && m0[j] == j && newId == id && j != id
        ensures !Bisim(g, id, j) && !Bisim(g, j, id)
      {
        if Bisim(g, id, j) { BisimSym(g, id, j); }
        if Bisim(g, j, id) {
          BisimUnfold(g, j, id);
          WordsOfId(g, j);
          SameLabelRefs(g[j], g[id]);
          SameLabelSameHash(g[j], g[id]);
        }
      }
    }
    if Complete(g) && Unique(g, m0, false) {
      forall i | 1 <= i < |g| && IsPrimKind(Kind(g[i])) && m[id := newId][i] == i ensures m0[i] == i {}
      forall i, j | 1 <= i < |g| && 1 <= j < |g| && m[id := newId][i] == i && m[id := newId][j] == j
                    && Bisim(g, i, j) && IsPrimKind(Kind(g[i]))
        ensures i == j
      {
        BisimUnfold(g, i, j);
        SameLabelRefs(g[i], g[j]);
      }
    }
  }

  lemma StructChosenInv(g: TypeGraph, m0: IdMap, table: Table, m: IdMap, id: nat, newId: nat,
                        units: seq<set<nat>>)
    requires WellFormed(g) && |m0| == |g| && 1 <= id < |g| && newId < |g| && IsComposite(g[id]) && !Mapped(m0[id])
    requires StructInv(g, m0, table, id, units) && Sound(g, m)
    requires StructChosen(g, m0, m, table, SignatureHash(g[id]), id, newId, units)
    ensures StructInv(g, m[id := newId], TableAfter(table, SignatureHash(g[id]), id, newId), id + 1, units)
  {
    var h := SignatureHash(g[id]);
    StructChosenSound(g, m0, table, m, h, id, newId, units);
    StructChosenUnique(g, m0, table, m, id, newId, units);
    StructChosenDecided(g, m0, m, table, h, id, newId, units);
    StructChosenFiled(g, m0, table, m, id, newId, units);
  }

  lemma StructChosenFiled(g: TypeGraph, m0: IdMap, table: Table, m: IdMap, id: nat, newId: nat,
                          units: seq<set<nat>>)
    requires WellFormed(g) && |m0| == |g| && 1 <= id < |g| && newId < |g| && IsComposite(g[id]) && !Mapped(m0[id])
    requires CompositesFiledAsRoots(g, m0, table) && Filed(g, m0, table)
    requires StructChosen(g, m0, m, table, SignatureHash(g[id]), id, newId, units)
    ensures CompositesFiledAsRoots(g, m[id := newId], TableAfter(table, SignatureHash(g[id]), id, newId))
    ensures Filed(g, m[id := newId], TableAfter(table, SignatureHash(g[id]), id, newId))
  {
    var h := SignatureHash(g[id]);
    var m', table' := m[id := newId], TableAfter(table, h, id, newId);
    FiledEntry(table, h, id, newId);
    forall k, x: nat | InTable(table', k, x)
      ensures 1 <= x < |g| && (IsPrimKind(Kind(g[x])) || (IsComposite(g[x]) && m'[x] == x))
    {
      if x != id {
        assert InTable(table, k, x);
        WordsOfId(g, x);
      }
    }
  }

  lemma StructChosenDecided(g: TypeGraph, m0: IdMap, m: IdMap, table: Table, h: int, id: nat, newId: nat,
                            units: seq<set<nat>>)
    requires WellFormed(g) && |m0| == |g| && 1 <= id < |g| && newId < |g| && IsComposite(g[id])
    requires Decided(g, m0, id) && StructChosen(g, m0, m, table, h, id, newId, units)
    ensures Decided(g, m[id := newId], id + 1)
  {
    var m', n := m[id := newId], id + 1;
    forall i | 0 <= i < |g| ensures DecidedId(g, m', n, i) {
      WordsOfId(g, i);
      assert DecidedId(g, m0, id, i);
    }
  }

  lemma StructSkip(g: TypeGraph, m: IdMap, table: Table, id: nat, units: seq<set<nat>>)
    requires WellFormed(g) && 1 <= id < |g| && StructInv(g, m, table, id, units)
    requires Mapped(m[id]) || !IsComposite(g[id])
    ensures StructInv(g, m, table, id + 1, units)
  {
    var n := id + 1;
    forall i | 0 <= i < |g| ensures DecidedId(g, m, n, i) { assert DecidedId(g, m, id, i); }
  }

  lemma AllTried(g: TypeGraph, m: IdMap, cands: seq<nat>, table: Table, h: int, id: nat, units: seq<set<nat>>)
    requires WellFormed(g) && 1 <= id < |g| && |m| == |g|
    requires NoneMatches(g, m, cands, |cands|, id, units) && forall x: nat :: InTable(table, h, x) ==> x in cands
    ensures StructChosen(g, m, m, table, h, id, id, units)
  {
  }

  /** The candidates of one struct or union, in turn. */
  method ChooseStruct(d: Dedup, id: nat, h: int, ghost units: seq<set<nat>>) returns (err: int, newId: nat, ghost e: Merge)
    requires Ready(d) && 1 <= id < |d.orig| && IsComposite(d.orig[id]) && !InTable(d.table, h, id) && DefsStay(d.orig, d.typeMap[..])
    modifies d.typeMap, d.hypotMap, d`hypotList
    ensures Ready(d) && newId < |d.orig| && (err == 0 || (err == -EINVAL && OddRefs(d.orig)))
    ensures err == 0 ==>
      StructChosen(d.orig, old(d.typeMap[..]), d.typeMap[..], d.table, h, id, newId, units)
    ensures err == 0 && newId != id ==> Trial(d.orig, old(d.typeMap[..]), d.typeMap[..], e) && e.id == id
    ensures err != 0 ==> d.typeMap[..] == old(d.typeMap[..])
  {
    hide Sound, HypotOk, Nested, StructChosen, Merged, NoneMatches, OddRefs, Trial, DefsStay, Contender, Pairable, Bisim, UnitsDeduped, KindOf,
      Forest;
    ghost var g, m0 := d.orig, d.typeMap[..];
    e := Merge(id, id, [], m0);
    SoundForest(g, m0);
    var cands := d.Candidates(h);
    err, newId := 0, id;
    NoneMatchesStart(g, m0, cands, id, units);
    var k := 0;
    while k < |cands|
      invariant 0 <= k <= |cands| && Ready(d) && d.typeMap[..] == m0
      invariant NoneMatches(g, m0, cands, k, id, units)
    {
      assert cands[k] in cands;
      var eq;
      eq, e := TryCandidate(d, id, cands[k], units);
      if eq < 0 {
        err := eq;
        return;
      }
      if eq == 1 {
        newId := cands[k];
        SelfBisimKnown(g, m0, d.typeMap[..], d.table, h, id, newId, units);
        return;
      }
      NoneMatchesStep(g, m0, cands, k, id, units);
      k := k + 1;
    }
    AllTried(g, m0, cands, d.table, h, id, units);
  }

  lemma SelfBisimKnown(g: TypeGraph, m0: IdMap, m: IdMap, table: Table, h: int, id: nat, newId: nat, units: seq<set<nat>>)
    requires WellFormed(g) && 1 <= id < |g| && newId < |g| && Merged(g, m0, m) && InTable(table, h, newId) && newId != id
    requires IsComposite(g[newId]) && Bisim(g, newId, id)
    ensures StructChosen(g, m0, m, table, h, id, newId, units)
  {
  }

  lemma NotFiledYet(g: TypeGraph, m: IdMap, table: Table, h: int, id: nat, units: seq<set<nat>>)
    requires WellFormed(g) && StructInv(g, m, table, id, units)
    requires 1 <= id < |g| && IsComposite(g[id]) && !Mapped(m[id])
    ensures !InTable(table, h, id)
  {
  }

  /** The end of btf_dedup_struct_type: record the choice, file a canonical type. */
  method RecordStruct(d: Dedup, id: nat, newId: nat, h: int, ghost m0: IdMap, ghost units: seq<set<nat>>,
                      ghost merges: seq<Merge>, ghost e: Merge)
    returns (ghost more: seq<Merge>)
    requires Ready(d) && 1 <= id < |d.orig| && newId < |d.orig| && IsComposite(d.orig[id])
    requires |m0| == |d.orig| && !Mapped(m0[id]) && StructInv(d.orig, m0, d.table, id, units)
    requires h == SignatureHash(d.orig[id])
    requires StructChosen(d.orig, m0, d.typeMap[..], d.table, h, id, newId, units)
    requires Told(d.orig, m0, merges) && Accounted(d.orig, m0, merges)
    requires newId != id ==> Trial(d.orig, m0, d.typeMap[..], e) && e.id == id
    modifies d.typeMap, d`table
    ensures StructState(d, id + 1, units) && Told(d.orig, d.typeMap[..], more) && Accounted(d.orig, d.typeMap[..], more)
  {
    hide StructInv, StructChosen, HypotOk, Nested, Sound, Told, Accounted, Trial;
    ghost var g, m, table0 := d.orig, d.typeMap[..], d.table;
    StructChosenInv(g, m0, table0, m, id, newId, units);
    more := if newId == id then merges else merges + [e];
    ChoiceTold(g, m0, table0, m, h, id, newId, units, merges, e);
    d.typeMap[id] := newId;
    assert d.typeMap[..] == m[id := newId];
    if id == newId {
      d.TableAdd(h, id);
    }
  }

  /** The record after the choice. */
  lemma ChoiceTold(g: TypeGraph, m0: IdMap, table: Table, m: IdMap, h: int, id: nat, newId: nat, units: seq<set<nat>>,
                   merges: seq<Merge>, e: Merge)
    requires WellFormed(g) && |m0| == |g| && 1 <= id < |g| && newId < |g| && !Mapped(m0[id])
    requires Sound(g, m) && StructInv(g, m0, table, id, units) && StructChosen(g, m0, m, table, h, id, newId, units)
    requires Told(g, m0, merges) && Accounted(g, m0, merges) && (newId != id ==> Trial(g, m0, m, e) && e.id == id)
    ensures |m| == |g|
    ensures var m', more := m[id := newId], if newId == id then merges else merges + [e];
      Told(g, m', more) && Accounted(g, m', more)
  {
    hide Bisim, KindOf, Merged, Unique, Filed, Decided, UnitsDeduped, Told, Trial, Pairable, Contender, ResolvedKept, Forest;
    StructChosenSound(g, m0, table, m, h, id, newId, units);
    SoundForest(g, m);
    SoundForest(g, m[id := newId]);
    if newId == id {
      SelfKept(g, m, id);
      ToldOn(g, m, m[id := id], merges);
      AccountedSelf(g, m, merges, id);
    } else {
      ToldMore(g, m0, m, merges, e);
      AccountedMore(g, m0, m, merges, e);
      WordsOfId(g, newId);
      RelinkKept(g, m, id, newId);
      ToldOn(g, m, m[id := newId], merges + [e]);
      AccountedChoice(g, m, merges, e, id, newId);
    }
  }

  /** btf_dedup_struct_type */
  method DedupStructType(d: Dedup, id: nat, ghost units: seq<set<nat>>, ghost merges: seq<Merge>)
    returns (err: int, ghost more: seq<Merge>)
    requires 1 <= id < |d.orig| && StructState(d, id, units)
    requires Told(d.orig, d.typeMap[..], merges) && Accounted(d.orig, d.typeMap[..], merges)
    modifies d.typeMap, d.hypotMap, d`hypotList, d`table
    ensures d.Valid() && d.Untouched() && (err == 0 || (err == -EINVAL && OddRefs(d.orig)))
    ensures err == 0 ==> StructState(d, id + 1, units)
    ensures err == 0 ==> Told(d.orig, d.typeMap[..], more) && Accounted(d.orig, d.typeMap[..], more)
  {
    hide StructInv, StructChosen, Sound, HypotOk, Nested, KindOf, SignatureHash, InTable, OddRefs, Told, Accounted, Trial, DefsStay;
    more := merges;
    ToldDefs(d.orig, d.typeMap[..], merges);
    ghost var m0 := d.typeMap[..];
    WordsOfId(d.orig, id);
    var t := d.btf.TypeById(id);
    // nothing left to decide
    if d.typeMap[id] <= BTF_MAX_NR_TYPES || !IsComposite(t) {
      StructSkip(d.orig, m0, d.table, id, units);
      return 0, more;
    }
    var h := HashStruct(t);
    NotFiledYet(d.orig, m0, d.table, h, id, units);
    var newId;
    ghost var e;
    err, newId, e := ChooseStruct(d, id, h, units);
    if err < 0 {
      return;
    }
    more := RecordStruct(d, id, newId, h, m0, units, merges, e);
  }

  /** btf_dedup_struct_types */
  method DedupStructTypes(d: Dedup, ghost units: seq<set<nat>>) returns (err: int, ghost merges: seq<Merge>)
    requires StructState(d, 1, units) && Told(d.orig, d.typeMap[..], []) && Accounted(d.orig, d.typeMap[..], [])
    modifies d.typeMap, d.hypotMap, d`hypotList, d`table
    ensures d.Valid() && d.Untouched() && (err == 0 || (err == -EINVAL && OddRefs(d.orig)))
    ensures err == 0 ==> StructState(d, |d.orig|, units)
    ensures err == 0 ==> Told(d.orig, d.typeMap[..], merges) && Accounted(d.orig, d.typeMap[..], merges)
  {
    hide StructInv, Sound, HypotOk, Nested, OddRefs, Told, Accounted;
    err, merges := 0, [];
    var id := 1;
    while id < d.btf.nr + 1
      invariant 1 <= id <= |d.orig| && d.btf.nr + 1 == |d.orig| && err == 0
      invariant StructState(d, id, units) && Told(d.orig, d.typeMap[..], merges) && Accounted(d.orig, d.typeMap[..], merges)
    {
      err, merges := DedupStructType(d, id, units, merges);
      if err != 0 {
        return;
      }
      id := id + 1;
    }
  }

  /** The primitive pass leaves what the struct pass starts from. */
  lemma EnterStructs(g: TypeGraph, m: IdMap, table: Table, units: seq<set<nat>>)
    requires WellFormed(g) && PrimInv(g, m, table, |g|)
    ensures StructInv(g, m, table, 1, units) && Told(g, m, []) && Accounted(g, m, [])
  {
    forall i | 0 <= i < |g| ensures DecidedId(g, m, 1, i) { WordsOfId(g, i); }
    HistoryStart(g, m);
  }

  // ------------------------------------------------ unambiguous forward declarations

  /** `i` is a canonical struct or union of this name. */
  ghost predicate TagNamed(g: TypeGraph, m: IdMap, i: nat, name: nat)
    requires WellFormed(g) && |m| == |g|
  {
    1 <= i < |g| && IsComposite(g[i]) && m[i] == i && g[i][0] == name
  }

  /** The entries for the canonical structs and unions below `n`: the only one of
      its name, or 0 for a name that several share. */
  ghost predicate NamesOk(g: TypeGraph, m: IdMap, names: map<nat, nat>, n: nat)
    requires WellFormed(g) && |m| == |g|
  {
    && (forall i, k :: 1 <= i < n && TagNamed(g, m, i, k) ==> k in names)
    && (forall k :: k in names && names[k] != 0 ==>
          names[k] < n && TagNamed(g, m, names[k], k) &&
          forall j :: 1 <= j < n && TagNamed(g, m, j, k) ==> j == names[k])
    && (forall k :: k in names && names[k] == 0 ==> SharedName(g, m, n, k))
  }

  ghost predicate SharedName(g: TypeGraph, m: IdMap, n: nat, name: nat)
    requires WellFormed(g) && |m| == |g|
  {
    exists i, j :: 1 <= i < j < n && TagNamed(g, m, i, name) && TagNamed(g, m, j, name)
  }

  lemma SharedNameMonotone(g: TypeGraph, m: IdMap, n: nat, name: nat)
    requires WellFormed(g) && |m| == |g| && SharedName(g, m, n, name)
    ensures SharedName(g, m, n + 1, name)
  {
    var i, j :| 1 <= i < j < n && TagNamed(g, m, i, name) && TagNamed(g, m, j, name);
    assert 1 <= i < j < n + 1;
  }

  /** btf_dedup_fill_unique_names_map */
  method FillUniqueNamesMap(d: Dedup) returns (names: map<nat, nat>)
    requires d.Valid() && d.Untouched()
    ensures NamesOk(d.orig, d.typeMap[..], names, |d.orig|)
  {
    ghost var g, m := d.orig, d.typeMap[..];
    names := map[];
    var id := 1;
    while id < d.btf.nr + 1
      invariant 1 <= id <= |g| && NamesOk(g, m, names, id)
    {
      var t := d.btf.TypeById(id);
      WordsOfId(g, id);
      if IsComposite(t) && d.typeMap[id] == id {
        NamesStep(g, m, names, id);
        // hashknown_add fails on a known name, then hashknown_set
        names := names[t[0] := if t[0] in names then 0 else id];
      } else {
        NamesSkip(g, m, names, id);
      }
      id := id + 1;
    }
  }

  lemma NamesStep(g: TypeGraph, m: IdMap, names: map<nat, nat>, id: nat)
    requires WellFormed(g) && |m| == |g| && 1 <= id < |g| && NamesOk(g, m, names, id)
    requires IsComposite(g[id]) && m[id] == id
    ensures NamesOk(g, m, names[g[id][0] := if g[id][0] in names then 0 else id], id + 1)
  {
    hide VlenOf, SizeOf, IsRefPos;
    var k := g[id][0];
    var names' := names[k := if k in names then 0 else id];
    assert TagNamed(g, m, id, k);
    forall q | q in names' && names'[q] == 0 ensures SharedName(g, m, id + 1, q) {
      if q in names && names[q] == 0 {
        SharedNameMonotone(g, m, id, q);
      } else {
        assert TagNamed(g, m, names[k], k) && 1 <= names[k] < id;
      }
    }
  }

  lemma NamesSkip(g: TypeGraph, m: IdMap, names: map<nat, nat>, id: nat)
    requires WellFormed(g) && |m| == |g| && 1 <= id < |g| && NamesOk(g, m, names, id)
    requires !IsComposite(g[id]) || m[id] != id
    ensures NamesOk(g, m, names, id + 1)
  {
    forall q | q in names && names[q] == 0 ensures SharedName(g, m, id + 1, q) {
      SharedNameMonotone(g, m, id, q);
    }
  }

  /** `c` is the struct or union that the forward declaration `i` unambiguously
      declares: the only canonical one of its name, and of the right kind. */
  ghost predicate Declares(g: TypeGraph, m: IdMap, i: nat, c: nat)
    requires WellFormed(g) && |m| == |g| && i < |g| && 3 <= |g[i]|
  {
    && IsFwd(g[i]) && m[i] == i && TagNamed(g, m, c, g[i][0])
    && (forall j :: TagNamed(g, m, j, g[i][0]) ==> j == c)
    && ClassOf(g[i]) == ClassOf(g[c])
  }

  /** Below `n`, exactly the unambiguous forward declarations have been
      resolved, each to what it declares; nothing else has changed. */
  ghost predicate FwdsResolved(g: TypeGraph, m0: IdMap, m: IdMap, n: nat)
    requires WellFormed(g) && |m0| == |g| && |m| == |g|
  {
    forall i :: 0 <= i < |g| ==> FwdResolved(g, m0, m, n, i)
  }

  ghost predicate FwdResolved(g: TypeGraph, m0: IdMap, m: IdMap, n: nat, i: nat)
    requires WellFormed(g) && |m0| == |g| && |m| == |g| && i < |g|
  {
    && (m[i] == m0[i] || (i < n && 3 <= |g[i]| && Declares(g, m0, i, m[i])))
    && forall c :: i < n && 3 <= |g[i]| && Declares(g, m0, i, c) ==> m[i] == c
  }

  /** btf_dedup_resolve_fwd: what the entry of `id` becomes. */
  method ResolveFwd(d: Dedup, names: map<nat, nat>, id: nat, ghost m0: IdMap)
    requires d.Valid() && d.Untouched() && 1 <= id < |d.orig|
    requires |m0| == |d.orig| && NamesOk(d.orig, m0, names, |d.orig|)
    requires Sound(d.orig, d.typeMap[..]) && FwdsResolved(d.orig, m0, d.typeMap[..], id)
    modifies d.typeMap
    ensures Sound(d.orig, d.typeMap[..]) && FwdsResolved(d.orig, m0, d.typeMap[..], id + 1)
    ensures ResolvedKept(d.orig, old(d.typeMap[..]), d.typeMap[..])
  {
    hide Sound, FwdsResolved, NamesOk, Nested, KindOf, ResolvedKept;
    ghost var g, m := d.orig, d.typeMap[..];
    NothingLost(g, m);
    var t := d.btf.TypeById(id);
    WordsOfId(g, id);
    if Kind(t) != KIND_FWD || d.typeMap[id] != id || t[0] !in names || names[t[0]] == 0 {
      NotDeclared(g, m0, m, names, id);
      return;
    }
    NameFound(g, m0, m, names, id);
    var candId := names[t[0]];
    var candT := d.btf.TypeById(candId);
    if (Kind(candT) == KIND_STRUCT && KFlag(t)) || (Kind(candT) == KIND_UNION && !KFlag(t)) {
      NotDeclared(g, m0, m, names, id);
      return;
    }
    DeclaredStep(g, m0, m, id, candId);
    d.typeMap[id] := candId;
    assert d.typeMap[..] == m[id := candId];
  }

  lemma NameFound(g: TypeGraph, m0: IdMap, m: IdMap, names: map<nat, nat>, id: nat)
    requires WellFormed(g) && |m0| == |g| && |m| == |g| && 1 <= id < |g| && NamesOk(g, m0, names, |g|)
    requires FwdsResolved(g, m0, m, id) && 3 <= |g[id]| && IsFwd(g[id]) && m[id] == id
    requires g[id][0] in names && names[g[id][0]] != 0
    ensures names[g[id][0]] < |g| && IsComposite(g[names[g[id][0]]])
    ensures ClassOf(g[id]) == ClassOf(g[names[g[id][0]]]) ==> Declares(g, m0, id, names[g[id][0]])
  {
    assert FwdResolved(g, m0, m, id, id);
  }

  lemma NotDeclared(g: TypeGraph, m0: IdMap, m: IdMap, names: map<nat, nat>, id: nat)
    requires WellFormed(g) && |m0| == |g| && |m| == |g| && 1 <= id < |g| && NamesOk(g, m0, names, |g|)
    requires FwdsResolved(g, m0, m, id) && 3 <= |g[id]|
    requires !IsFwd(g[id]) || m[id] != id || g[id][0] !in names || names[g[id][0]] == 0 ||
             ClassOf(g[names[g[id][0]]]) != ClassOf(g[id])
    ensures FwdsResolved(g, m0, m, id + 1)
  {
    var n := id + 1;
    assert FwdResolved(g, m0, m, id, id);
    forall i | 0 <= i < |g| ensures FwdResolved(g, m0, m, n, i) {
      assert FwdResolved(g, m0, m, id, i);
    }
  }

  lemma DeclaredStep(g: TypeGraph, m0: IdMap, m: IdMap, id: nat, c: nat)
    requires WellFormed(g) && |m0| == |g| && |m| == |g| && 1 <= id < |g| && 3 <= |g[id]|
    requires Sound(g, m) && FwdsResolved(g, m0, m, id) && Declares(g, m0, id, c)
    ensures Sound(g, m[id := c]) && FwdsResolved(g, m0, m[id := c], id + 1)
    ensures ResolvedKept(g, m, m[id := c])
  {
    var n, m' := id + 1, m[id := c];
    forall i | 0 <= i < |g| ensures FwdResolved(g, m0, m', n, i) {
      assert FwdResolved(g, m0, m, id, i);
    }
    WordsOfId(g, id);
    assert m[c] == m0[c] by { assert FwdResolved(g, m0, m, id, c); }
    TagPair(g, id, c);
    LinkToRoot(m, id, c);
    WordsOfId(g, c);
    RelinkKept(g, m, id, c);
  }

  lemma NothingLost(g: TypeGraph, m: IdMap)
    requires WellFormed(g) && Sound(g, m)
    ensures ResolvedKept(g, m, m)
  {
  }

  lemma FwdsStart(g: TypeGraph, m: IdMap)
    requires WellFormed(g) && |m| == |g|
    ensures FwdsResolved(g, m, m, 1)
  {
    var n := 1;
    forall i | 0 <= i < |g| ensures FwdResolved(g, m, m, n, i) {}
  }

  /** btf_dedup_resolve_fwds */
  method ResolveFwds(d: Dedup, ghost units: seq<set<nat>>, ghost merges: seq<Merge>)
    requires StructState(d, |d.orig|, units) && Told(d.orig, d.typeMap[..], merges) && Accounted(d.orig, d.typeMap[..], merges)
    modifies d.typeMap
    ensures StructState(d, |d.orig|, units)
    ensures FwdsResolved(d.orig, old(d.typeMap[..]), d.typeMap[..], |d.orig|)
    ensures Told(d.orig, d.typeMap[..], merges) && Accounted(d.orig, d.typeMap[..], merges)
  {
    hide Told, Accounted, ResolvedKept;
    ghost var g, m0 := d.orig, d.typeMap[..];
    var names := FillUniqueNamesMap(d);
    FwdsStart(g, m0);
    var id := 1;
    while id < d.btf.nr + 1
      invariant 1 <= id <= |g| && Sound(g, d.typeMap[..])
      invariant FwdsResolved(g, m0, d.typeMap[..], id) && Told(g, d.typeMap[..], merges)
    {
      ghost var m := d.typeMap[..];
      ResolveFwd(d, names, id, m0);
      ToldOn(g, m, d.typeMap[..], merges);
      id := id + 1;
    }
    assert id == |g|;
    FwdsInv(g, m0, d.typeMap[..], d.table, units);
    FwdsAccounted(g, m0, d.typeMap[..], merges);
  }

  lemma FwdsAccounted(g: TypeGraph, m0: IdMap, m: IdMap, merges: seq<Merge>)
    requires WellFormed(g) && |m0| == |g| == |m| && FwdsResolved(g, m0, m, |g|) && Accounted(g, m0, merges)
    ensures Accounted(g, m, merges)
  {
    hide Involves, KindOf;
    forall i | 0 <= i < |g| && NotCanonical(g, m, i) ensures exists k :: 0 <= k < |merges| && Involves(g, merges[k], i) {
      assert FwdResolved(g, m0, m, |g|, i);
      assert NotCanonical(g, m0, i);
    }
  }

  lemma FwdsInv(g: TypeGraph, m0: IdMap, m: IdMap, table: Table, units: seq<set<nat>>)
    requires WellFormed(g) && StructInv(g, m0, table, |g|, units) && Sound(g, m)
    requires FwdsResolved(g, m0, m, |g|)
    ensures StructInv(g, m, table, |g|, units)
  {
    forall i | 0 <= i < |g|
      ensures DecidedId(g, m, |g|, i)
      ensures m[i] == m0[i] || (3 <= |g[i]| && IsFwd(g[i]) && m[i] != i)
    {
      WordsOfId(g, i);
      assert DecidedId(g, m0, |g|, i) && FwdResolved(g, m0, m, |g|, i);
    }
    OnlyFwdsChanged(g, m0, m, table, units);
  }

  lemma OnlyFwdsChanged(g: TypeGraph, m0: IdMap, m: IdMap, table: Table, units: seq<set<nat>>)
    requires WellFormed(g) && StructInv(g, m0, table, |g|, units) && |m| == |g|
    requires forall i :: 0 <= i < |g| ==> m[i] == m0[i] || (3 <= |g[i]| && IsFwd(g[i]) && m[i] != i)
    ensures CompositesFiledAsRoots(g, m, table) && Filed(g, m, table)
    ensures Complete(g) ==> Unique(g, m, false)
    ensures UnitsDeduped(g, units) ==> Unique(g, m, true)
  {
    forall h, x: nat | InTable(table, h, x)
      ensures 1 <= x < |g| && (IsPrimKind(Kind(g[x])) || (IsComposite(g[x]) && m[x] == x))
    {
      assert m[x] == m0[x] || IsFwd(g[x]);
    }
    if Complete(g) { assert m == m0; }
    if UnitsDeduped(g, units) { assert DupFree(g, units[0]); assert m == m0; }
  }
}
