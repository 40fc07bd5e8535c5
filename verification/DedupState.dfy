/** The working state of BTF deduplication (`struct btf_dedup`), what every
    pass keeps true of the canonical map, and the helpers that follow it. */
module DedupState {
  import opened BtfWords
  import opened IdMaps
  import opened TypeMeaning
  import opened BtfSection

  /** Direct containment of a struct or union in another is well founded, as
      the C language guarantees by giving each a finite size. */
  ghost predicate Nested(g: TypeGraph, rank: seq<nat>)
    requires WellFormed(g)
  {
    |rank| == |g| &&
    forall i, p: nat :: 0 <= i < |g| && IsRef(g[i], p) && IsComposite(g[i]) && IsComposite(g[g[i][p]])
      ==> rank[g[i][p]] < rank[i]
  }

  /** The canonical map is a forest and links only IDs that mean the same. */
  ghost predicate Sound(g: TypeGraph, m: IdMap)
    requires WellFormed(g)
  {
    && |m| == |g| && Forest(m)
    && forall i :: 0 <= i < |m| && Mapped(m[i]) ==> Bisim(g, i, m[i])
  }

  lemma {:induction false} RootWithinSound(g: TypeGraph, m: IdMap, i: nat, n: nat)
    requires WellFormed(g) && Sound(g, m) && i < |m| && Ends(m, i, n)
    ensures Bisim(g, i, RootWithin(m, i, n))
    decreases n
  {
    if IsRoot(m, i) {
      BisimRefl(g, i);
    } else {
      RootWithinSound(g, m, m[i], n - 1);
      BisimTrans(g, i, m[i], RootWithin(m, i, n));
    }
  }

  /** An ID means what the root it resolves to means. */
  lemma RootSound(g: TypeGraph, m: IdMap, i: nat)
    requires WellFormed(g) && Sound(g, m) && i < |m|
    ensures Bisim(g, i, Root(m, i)) && Bisim(g, Root(m, i), i)
  {
    RootWithinSound(g, m, i, Height(m));
    BisimSym(g, i, Root(m, i));
  }

  /** Two IDs that resolve to the same root mean the same. */
  lemma SameRootBisim(g: TypeGraph, m: IdMap, a: nat, b: nat)
    requires WellFormed(g) && Sound(g, m) && a < |m| && b < |m| && Root(m, a) == Root(m, b)
    ensures Bisim(g, a, b)
  {
    RootSound(g, m, a);
    RootSound(g, m, b);
    BisimTrans(g, a, Root(m, a), b);
  }

  /** The entry that void, variables and everything else start with. */
  ghost function InitialEntry(g: TypeGraph, i: nat): nat
    requires WellFormed(g) && i < |g|
  {
    if i == 0 || IsVarKind(Kind(g[i])) then i else BTF_UNPROCESSED_ID
  }

  lemma InitialEntryIs(g: TypeGraph, i: nat)
    requires WellFormed(g) && i < |g|
    ensures InitialEntry(g, i) == if i == 0 || IsVarKind(Kind(g[i])) then i else BTF_UNPROCESSED_ID
  {
  }

  /** dedup_table: for each signature hash, the canonical IDs filed under it. */
  type Table = map<int, seq<nat>>

  function BucketOf(table: Table, h: int): seq<nat> {
    if h in table then table[h] else []
  }

  predicate InTable(table: Table, h: int, x: nat) {
    x in BucketOf(table, h)
  }

  /** The table once the choice for `id` is made: a type that stays canonical is filed. */
  function TableAfter(table: Table, h: int, id: nat, newId: nat): Table {
    if newId == id then table[h := [id] + BucketOf(table, h)] else table
  }

  /** Filing `id` adds that one entry. */
  lemma FiledEntry(table: Table, h: int, id: nat, newId: nat)
    ensures forall k, x: nat :: InTable(TableAfter(table, h, id, newId), k, x) <==>
              InTable(table, k, x) || (newId == id && k == h && x == id)
  {
    var t := TableAfter(table, h, id, newId);
    forall k, x: nat ensures InTable(t, k, x) <==> InTable(table, k, x) || (newId == id && k == h && x == id) {
      if newId == id && k == h { assert BucketOf(t, k) == [id] + BucketOf(table, h); }
    }
  }

  class Dedup {
    const btf: Section
    const typeMap: array<nat>
    const hypotMap: array<nat>
    var hypotList: seq<nat>
    var table: Table                // dedup_table
    ghost const orig: TypeGraph     // the types as they were given
    ghost const rank: seq<nat>      // witnesses Nested(orig)
    ghost var finish: map<nat, nat> // when the reference pass finished a type
    ghost var clock: nat            // how many types it has finished

    /** What never changes while deduplication works. */
    ghost predicate Valid()
      reads this`table, btf, btf.data, btf.offs
    {
      && btf.Valid() && WellFormed(orig) && Nested(orig, rank)
      && btf.nr + 1 == |orig| == typeMap.Length == hypotMap.Length
      && typeMap != hypotMap
      && typeMap != btf.data && typeMap != btf.offs
      && hypotMap != btf.data && hypotMap != btf.offs
      && (forall h, x: nat :: InTable(table, h, x) ==> 1 <= x < |orig|)
    }

    /** The section still holds the types it was given. */
    ghost predicate Untouched()
      reads btf, btf.data, btf.offs
      requires btf.Valid()
    {
      btf.Types() == orig
    }

    /** btf_dedup_new: void, VAR and DATASEC are canonical, nothing else is decided. */
    constructor (btf: Section, ghost rank: seq<nat>)
      requires btf.Valid() && WellFormed(btf.Types()) && Nested(btf.Types(), rank)
      ensures Valid() && Untouched()
      ensures this.btf == btf && orig == btf.Types() && this.rank == rank
      ensures fresh(typeMap) && fresh(hypotMap)
      ensures hypotList == [] && table == map[] && finish == map[] && clock == 0
      ensures forall i :: 0 <= i < |orig| ==> hypotMap[i] == BTF_UNPROCESSED_ID
      ensures forall i :: 0 <= i < |orig| ==>
        typeMap[i] == InitialEntry(orig, i)
    {
      this.btf := btf;
      this.rank := rank;
      orig := btf.Types();
      typeMap := new nat[btf.nr + 1](_ => BTF_UNPROCESSED_ID);
      hypotMap := new nat[btf.nr + 1](_ => BTF_UNPROCESSED_ID);
      hypotList := [];
      table := map[];
      finish := map[];
      clock := 0;
      new;
      InitTypeMap();
    }

    method InitTypeMap()
      requires Valid() && Untouched()
      modifies typeMap
      ensures Valid() && Untouched()
      ensures forall i :: 0 <= i < |orig| ==> typeMap[i] == InitialEntry(orig, i)
    {
      hide Nested, InitialEntry;
      ghost var g := orig;
      InitialEntryIs(g, 0);
      typeMap[0] := 0;
      var i := 1;
      while i < typeMap.Length
        invariant 1 <= i <= typeMap.Length
        invariant forall k :: 0 <= k < i ==> typeMap[k] == InitialEntry(g, k)
      {
        var t := btf.TypeById(i);
        typeMap[i] := if Kind(t) == KIND_VAR || Kind(t) == KIND_DATASEC then i else BTF_UNPROCESSED_ID;
        InitialEntryIs(g, i);
        i := i + 1;
      }
    }

    /** btf_dedup_table_add. */
    method TableAdd(h: int, id: nat)
      requires Valid() && 1 <= id < |orig|
      modifies this`table
      ensures Valid() && table == TableAfter(old(table), h, id, id)
    {
      FiledEntry(table, h, id, id);
      table := table[h := [id] + if h in table then table[h] else []];
      assert table == TableAfter(old(table), h, id, id);
    }

    /** The iteration for_each_dedup_cand: each entry of the bucket once.  The
        hash map promises no order, so callers may rely on none. */
    method Candidates(h: int) returns (cands: seq<nat>)
      ensures multiset(cands) == multiset(BucketOf(table, h))
      ensures forall x: nat :: x in cands <==> InTable(table, h, x)
    {
      cands := if h in table then table[h] else [];
    }

    /** resolve_type_id: follows the canonical map to its root. */
    method ResolveTypeId(id: nat) returns (r: nat)
      requires Forest(typeMap[..]) && id < typeMap.Length
      ensures r == Root(typeMap[..], id)
    {
      ghost var m, n := typeMap[..], Height(typeMap[..]);
      assert Ends(m, id, n);
      r := id;
      while Mapped(typeMap[r]) && typeMap[r] != r
        invariant r < typeMap.Length && Ends(m, r, n)
        invariant RootWithin(m, r, n) == Root(m, id)
        decreases n
      {
        r := typeMap[r];
        n := n - 1;
      }
    }

    /** resolve_fwd_id: a forward declaration that has been resolved to a full
        definition stands for it; any other ID stands for itself. */
    method ResolveFwdId(id: nat) returns (r: nat)
      requires Valid() && Untouched() && Sound(orig, typeMap[..]) && id < |orig|
      ensures r < |orig| && Bisim(orig, id, r)
      ensures r == if IsFwd(orig[id]) && !IsFwd(orig[Root(typeMap[..], id)]) then Root(typeMap[..], id) else id
    {
      BisimRefl(orig, id);
      var t := btf.TypeById(id);
      KindOfWord(id);
      if !IsFwd(t) {
        return id;
      }
      r := ResolveTypeId(id);
      RootSound(orig, typeMap[..], id);
      t := btf.TypeById(r);
      KindOfWord(r);
      if IsFwd(t) {
        r := id;
      }
    }

    lemma KindOfWord(id: nat)
      requires WellFormed(orig) && id < |orig|
      ensures 3 <= |orig[id]|
    {
    }
  }
}
