/** btf_dedup_compact_types and btf_dedup_remap_types: canonical types are moved
    together in place, and every reference is renumbered. */
module DedupCompact {
  import opened BtfWords
  import opened IdMaps
  import opened TypeMeaning
  import opened BtfSection
  import opened DedupState

  /** How many IDs below `n` are canonical: the new ID of `n` if it is. */
  ghost function CanonBelow(m: IdMap, n: nat): (c: nat)
    requires n <= |m|
    ensures c <= n
  {
    if n == 0 then 0 else CanonBelow(m, n - 1) + if m[n - 1] == n - 1 then 1 else 0
  }

  /** The canonical types below `n`, in their original order. */
  ghost function Kept(g: TypeGraph, m: IdMap, n: nat): (k: TypeGraph)
    requires n <= |m| == |g|
    ensures |k| == CanonBelow(m, n)
  {
    if n == 0 then [] else Kept(g, m, n - 1) + if m[n - 1] == n - 1 then [g[n - 1]] else []
  }

  /** A canonical type is found under its new ID, ... */
  lemma {:induction false} KeptAt(g: TypeGraph, m: IdMap, i: nat, n: nat)
    requires i < n <= |m| == |g| && m[i] == i
    ensures CanonBelow(m, i) < |Kept(g, m, n)| && Kept(g, m, n)[CanonBelow(m, i)] == g[i]
    decreases n
  {
    if i < n - 1 {
      KeptAt(g, m, i, n - 1);
    }
  }

  /** ... every new ID belongs to a canonical type, ... */
  lemma {:induction false} KeptFrom(g: TypeGraph, m: IdMap, k: nat, n: nat) returns (i: nat)
    requires n <= |m| == |g| && k < CanonBelow(m, n)
    ensures i < n && m[i] == i && CanonBelow(m, i) == k
    decreases n
  {
    if m[n - 1] == n - 1 && k == CanonBelow(m, n - 1) {
      i := n - 1;
    } else {
      i := KeptFrom(g, m, k, n - 1);
    }
  }

  /** ... and the order of canonical types is kept. */
  lemma {:induction false} KeptOrder(m: IdMap, i: nat, j: nat)
    requires i < j <= |m| && m[i] == i
    ensures CanonBelow(m, i) < CanonBelow(m, j)
    decreases j
  {
    if i < j - 1 {
      KeptOrder(m, i, j - 1);
    }
  }

  /** Where the record of `id` starts; the end of the data after the last one. */
  function StartOf(d: seq<nat>, o: seq<nat>, id: nat): nat
    requires 1 <= id <= |o| + 1
  {
    if id <= |o| then o[id - 1] else |d|
  }

  /** Nothing from the record of `id` on has been overwritten, neither words nor offsets. */
  ghost predicate Unread(d0: seq<nat>, o0: seq<nat>, data: seq<nat>, offs: seq<nat>, id: nat)
    requires 1 <= id <= |o0| + 1
  {
    && |d0| <= |data| && |o0| <= |offs|
    && (forall k :: StartOf(d0, o0, id) <= k < |d0| ==> data[k] == d0[k])
    && (forall k :: id - 1 <= k < |o0| ==> offs[k] == o0[k])
  }

  /** The first `p` words and `next - 1` offsets hold the canonical types below `id`. */
  ghost predicate Front(g: TypeGraph, m: IdMap, d0: seq<nat>, o0: seq<nat>, data: seq<nat>, offs: seq<nat>,
                        id: nat, next: nat, p: nat)
    requires 1 <= id <= |o0| + 1
  {
    && |g| == |m| == |o0| + 1
    && 1 <= next <= id && next == CanonBelow(m, id) && next - 1 <= |offs|
    && p <= StartOf(d0, o0, id) && p <= |data|
    && Tiles(data[..p], offs[..next - 1])
    && TypesOf(data[..p], offs[..next - 1]) == Kept(g, m, id)
  }

  /** hypot_map holds the new IDs of the canonical types below `n`, and no other. */
  ghost predicate NewIdsBelow(m: IdMap, hyp: IdMap, n: nat) {
    && |hyp| == |m| && n <= |m|
    && forall i :: 0 <= i < |m| ==>
         hyp[i] == if i < n && m[i] == i then CanonBelow(m, i) else BTF_UNPROCESSED_ID
  }

  lemma RecordAt(d0: seq<nat>, o0: seq<nat>, data: seq<nat>, offs: seq<nat>, id: nat)
    requires Tiles(d0, o0) && 1 <= id <= |o0| && Unread(d0, o0, data, offs, id)
    ensures RecordFits(d0, o0, id - 1) && offs[id - 1] == o0[id - 1] == StartOf(d0, o0, id)
    ensures data[o0[id - 1] + 1] == d0[o0[id - 1] + 1]
    ensures o0[id - 1] + SizeOf(d0[o0[id - 1] + 1]) == StartOf(d0, o0, id + 1) <= |d0|
    ensures data[o0[id - 1]..StartOf(d0, o0, id + 1)] == TypesOf(d0, o0)[id]
  {
    assert RecordFits(d0, o0, id - 1);
  }

  /** Moving the record of canonical type `id` down behind those already kept. */
  lemma MoveStep(g: TypeGraph, m: IdMap, d0: seq<nat>, o0: seq<nat>, data: seq<nat>, offs: seq<nat>,
                 data': seq<nat>, id: nat, next: nat, p: nat, n: nat)
    requires Tiles(d0, o0) && g == TypesOf(d0, o0) && 1 <= id <= |o0|
    requires Unread(d0, o0, data, offs, id) && Front(g, m, d0, o0, data, offs, id, next, p) && m[id] == id
    requires n == |g[id]| && o0[id - 1] + n == StartOf(d0, o0, id + 1) && |data'| == |data| && p + n <= |data|
    requires data'[..p] == data[..p] && data'[p..p + n] == g[id]
    requires forall k :: StartOf(d0, o0, id + 1) <= k < |data| ==> data'[k] == data[k]
    ensures next - 1 < |offs|
    ensures Unread(d0, o0, data', offs[next - 1 := p], id + 1)
    ensures Front(g, m, d0, o0, data', offs[next - 1 := p], id + 1, next + 1, p + n)
  {
    TypesWellSized(d0, o0);
    TilesAppend(data[..p], offs[..next - 1], g[id]);
    assert data'[..p + n] == data[..p] + g[id];
    assert offs[next - 1 := p][..next] == offs[..next - 1] + [|data[..p]|];
  }

  lemma SkipStep(g: TypeGraph, m: IdMap, d0: seq<nat>, o0: seq<nat>, data: seq<nat>, offs: seq<nat>,
                 id: nat, next: nat, p: nat)
    requires Tiles(d0, o0) && 1 <= id <= |o0|
    requires Unread(d0, o0, data, offs, id) && Front(g, m, d0, o0, data, offs, id, next, p) && m[id] != id
    ensures Unread(d0, o0, data, offs, id + 1)
    ensures Front(g, m, d0, o0, data, offs, id + 1, next, p)
  {
    assert RecordFits(d0, o0, id - 1);
  }

  lemma CompactStart(g: TypeGraph, m: IdMap, d0: seq<nat>, o0: seq<nat>, data: seq<nat>, offs: seq<nat>)
    requires Tiles(d0, o0) && g == TypesOf(d0, o0) && |m| == |g| && m[0] == 0
    requires |d0| <= |data| && |o0| <= |offs| && data[..|d0|] == d0 && offs[..|o0|] == o0
    ensures Unread(d0, o0, data, offs, 1) && Front(g, m, d0, o0, data, offs, 1, 1, 0)
  {
    assert Kept(g, m, 0) == [];
    assert Kept(g, m, 1) == [g[0]];
  }

  /** hypot_map is reused for the new IDs: void keeps its ID, no other has one yet. */
  method ForgetHypotMap(d: Dedup)
    requires d.typeMap.Length == d.hypotMap.Length > 0 && d.typeMap != d.hypotMap && d.typeMap[0] == 0
    modifies d.hypotMap
    ensures NewIdsBelow(d.typeMap[..], d.hypotMap[..], 1)
  {
    d.hypotMap[0] := 0;
    var id := 1;
    while id < d.hypotMap.Length
      invariant 1 <= id <= d.hypotMap.Length && d.hypotMap[0] == 0
      invariant forall k :: 1 <= k < id ==> d.hypotMap[k] == BTF_UNPROCESSED_ID
    {
      d.hypotMap[id] := BTF_UNPROCESSED_ID;
      id := id + 1;
    }
  }

  /** btf_dedup_compact_types: afterwards the section holds exactly the
      canonical types, in their original order. */
  method CompactTypes(d: Dedup)
    requires d.Valid() && d.typeMap[0] == 0
    modifies d.hypotMap, d.btf`nr, d.btf`len, d.btf.data, d.btf.offs
    ensures d.btf.Valid()
    ensures d.btf.Types() == old(Kept(d.btf.Types(), d.typeMap[..], |d.orig|))
    ensures NewIdsBelow(d.typeMap[..], d.hypotMap[..], |d.orig|)
  {
    hide Front, Unread, Tiles, Nested, NewIdsBelow;
    var b := d.btf;
    ghost var g, m := b.Types(), d.typeMap[..];
    ghost var d0, o0 := b.data[..b.len], b.offs[..b.nr];
    ForgetHypotMap(d);
    CompactStart(g, m, d0, o0, b.data[..], b.offs[..]);
    var p: nat, next: nat, id: nat := 0, 1, 1;
    assert d.typeMap.Length == |o0| + 1;
    while id < b.nr + 1
      invariant 1 <= id <= |o0| + 1 == b.nr + 1 && next <= id
      invariant d.typeMap[..] == m && NewIdsBelow(m, d.hypotMap[..], id)
      invariant Unread(d0, o0, b.data[..], b.offs[..], id)
      invariant Front(g, m, d0, o0, b.data[..], b.offs[..], id, next, p)
    {
      if d.typeMap[id] == id {
        var len := MoveRecord(d, id, next, p, g, m, d0, o0);
        NewIdStep(m, d.hypotMap[..], id, next);
        d.hypotMap[id] := next;
        p := p + len;
        next := next + 1;
      } else {
        SkipStep(g, m, d0, o0, b.data[..], b.offs[..], id, next, p);
        NewIdSkip(m, d.hypotMap[..], id);
      }
      id := id + 1;
    }
    FrontDone(g, m, d0, o0, b.data[..], b.offs[..], next, p);
    b.nr := next - 1;
    b.len := p;
    assert b.data[..p] == b.data[..][..p] && b.offs[..next - 1] == b.offs[..][..next - 1];
  }

  lemma NewIdStep(m: IdMap, hyp: IdMap, id: nat, next: nat)
    requires NewIdsBelow(m, hyp, id) && id < |m| && m[id] == id && next == CanonBelow(m, id)
    ensures NewIdsBelow(m, hyp[id := next], id + 1)
  {
  }

  lemma NewIdSkip(m: IdMap, hyp: IdMap, id: nat)
    requires NewIdsBelow(m, hyp, id) && id < |m| && m[id] != id
    ensures NewIdsBelow(m, hyp, id + 1)
  {
  }

  lemma FrontDone(g: TypeGraph, m: IdMap, d0: seq<nat>, o0: seq<nat>, data: seq<nat>, offs: seq<nat>, next: nat, p: nat)
    requires Front(g, m, d0, o0, data, offs, |o0| + 1, next, p)
    ensures next - 1 <= |offs| && p <= |data| && |m| == |g|
    ensures Tiles(data[..p], offs[..next - 1]) && TypesOf(data[..p], offs[..next - 1]) == Kept(g, m, |g|)
  {
  }

  /** One round for a canonical type: memmove and the new offset. */
  method MoveRecord(d: Dedup, id: nat, next: nat, p: nat,
                    ghost g: TypeGraph, ghost m: IdMap, ghost d0: seq<nat>, ghost o0: seq<nat>) returns (len: nat)
    requires d.btf.data != d.btf.offs && Tiles(d0, o0) && g == TypesOf(d0, o0) && 1 <= id <= |o0| && |m| == |g| && m[id] == id
    requires Unread(d0, o0, d.btf.data[..], d.btf.offs[..], id)
    requires Front(g, m, d0, o0, d.btf.data[..], d.btf.offs[..], id, next, p)
    modifies d.btf.data, d.btf.offs
    ensures Unread(d0, o0, d.btf.data[..], d.btf.offs[..], id + 1)
    ensures Front(g, m, d0, o0, d.btf.data[..], d.btf.offs[..], id + 1, next + 1, p + len)
    ensures next == CanonBelow(m, id)
  {
    hide Tiles, TypesOf;
    var b := d.btf;
    ghost var data, offs := b.data[..], b.offs[..];
    RecordAt(d0, o0, data, offs, id);
    var off := b.offs[id - 1];
    len := SizeOf(b.data[off + 1]);
    MoveDown(b.data, p, off, len);
    assert b.data[..][p..p + len] == data[off..off + len];
    forall k | off + len <= k < |data| ensures b.data[k] == data[k] {
      assert b.data[off + len..][k - (off + len)] == data[off + len..][k - (off + len)];
    }
    MoveStep(g, m, d0, o0, data, offs, b.data[..], id, next, p, len);
    b.offs[next - 1] := p;
    assert b.offs[..] == offs[next - 1 := p];
  }

  // ------------------------------------------------------------------ remapping

  /** The new ID that each original ID resolves to. */
  ghost function NewIds(m: IdMap, hyp: IdMap): (to: seq<nat>)
    requires Forest(m) && |hyp| == |m|
    ensures |to| == |m|
  {
    seq(|m|, i requires 0 <= i < |m| => hyp[Root(m, i)])
  }

  /** `u` is `t` with the type IDs among its first `lim` words replaced by their new IDs. */
  predicate RecordRemapped(t: Words, u: Words, to: seq<nat>, lim: nat) {
    |u| == |t| &&
    forall p :: 0 <= p < |t| ==> u[p] == if p < lim && IsRef(t, p) && t[p] < |to| then to[t[p]] else t[p]
  }

  /** Records before `id` are remapped, and so are the first `lim` words of record `id`. */
  ghost predicate Remapping(g: TypeGraph, g': TypeGraph, to: seq<nat>, id: nat, lim: nat) {
    |g'| == |g| &&
    forall i :: 0 <= i < |g| ==>
      RecordRemapped(g[i], g'[i], to, if i < id then |g[i]| else if i == id then lim else 0)
  }

  /** Every record is remapped. */
  ghost predicate Remapped(g: TypeGraph, g': TypeGraph, to: seq<nat>) {
    |g'| == |g| && forall i :: 0 <= i < |g| ==> RecordRemapped(g[i], g'[i], to, |g[i]|)
  }

  lemma RemapStart(g: TypeGraph, to: seq<nat>)
    requires |g| > 0 && g[0] == VOID
    ensures Remapping(g, g, to, 1, 0)
  {
  }

  lemma RemapWordStep(g: TypeGraph, g': TypeGraph, to: seq<nat>, id: nat, lim: nat, p: nat)
    requires id < |g| && Remapping(g, g', to, id, lim) && lim <= p && IsRef(g[id], p) && g[id][p] < |to|
    requires forall q: nat :: lim <= q < p ==> !IsRef(g[id], q)
    ensures |g'| == |g| && p < |g'[id]| && g'[id][p] == g[id][p]
    ensures Remapping(g, Update(g', id, p, to[g[id][p]]), to, id, p + 1)
  {
    assert RecordRemapped(g[id], g'[id], to, lim);
    var n, h := p + 1, Update(g', id, p, to[g[id][p]]);
    forall i | 0 <= i < |g|
      ensures RecordRemapped(g[i], h[i], to, if i < id then |g[i]| else if i == id then n else 0)
    {
      assert RecordRemapped(g[i], g'[i], to, if i < id then |g[i]| else if i == id then lim else 0);
    }
  }

  lemma RemapNext(g: TypeGraph, g': TypeGraph, to: seq<nat>, id: nat, lim: nat)
    requires id < |g| && Remapping(g, g', to, id, lim)
    requires forall q: nat :: lim <= q ==> !IsRef(g[id], q)
    ensures Remapping(g, g', to, id + 1, 0)
  {
    var n := id + 1;
    forall i | 0 <= i < |g| ensures RecordRemapped(g[i], g'[i], to, if i < n then |g[i]| else 0) {
      assert RecordRemapped(g[i], g'[i], to, if i < id then |g[i]| else if i == id then lim else 0);
    }
  }

  /** Remapping leaves the kind and the number of entries of a record alone. */
  lemma RemapHeader(g: TypeGraph, g': TypeGraph, to: seq<nat>, id: nat, lim: nat)
    requires id < |g| && Remapping(g, g', to, id, lim) && 3 <= |g[id]|
    ensures |g'| == |g| && |g'[id]| == |g[id]| && g'[id][1] == g[id][1]
  {
    assert RecordRemapped(g[id], g'[id], to, lim);
  }

  lemma RemapDone(g: TypeGraph, g': TypeGraph, to: seq<nat>)
    requires Remapping(g, g', to, |g|, 0)
    ensures Remapped(g, g', to)
  {
    forall i | 0 <= i < |g| ensures RecordRemapped(g[i], g'[i], to, |g[i]|) {}
  }

  /** What remapping needs: IDs to look up, in range of both maps. */
  ghost predicate Remappable(d: Dedup, g: TypeGraph, to: seq<nat>)
    reads d.btf, d.btf.data, d.btf.offs, d.typeMap, d.hypotMap
  {
    && d.btf.Valid() && d.btf.nr + 1 == |g|
    && d.typeMap != d.btf.data && d.hypotMap != d.btf.data && d.hypotMap.Length == d.typeMap.Length
    && Forest(d.typeMap[..]) && to == NewIds(d.typeMap[..], d.hypotMap[..])
    && (forall i :: 1 <= i < |g| ==> WellSized(g[i]))
    && (forall i, p: nat :: 0 <= i < |g| && IsRef(g[i], p) ==> g[i][p] < |to|)
  }

  /** Some original ID resolves to a type without a new ID. */
  predicate Unplaced(to: seq<nat>) {
    exists x :: 0 <= x < |to| && !Mapped(to[x])
  }

  /** btf_dedup_remap_type_id, applied to one word of a record. */
  method RemapWord(d: Dedup, id: nat, p: nat, ghost lim: nat, ghost g: TypeGraph, ghost to: seq<nat>) returns (err: int)
    requires Remappable(d, g, to) && 1 <= id < |g| && Remapping(g, d.btf.Types(), to, id, lim)
    requires lim <= p && IsRef(g[id], p) && forall q: nat :: lim <= q < p ==> !IsRef(g[id], q)
    modifies d.btf.data
    ensures Remappable(d, g, to)
    ensures err == 0 || (err == -EINVAL && Unplaced(to))
    ensures err == 0 ==> Remapping(g, d.btf.Types(), to, id, p + 1)
  {
    hide Remapping, Forest, Unplaced, KindOf;
    RemapWordStep(g, d.btf.Types(), to, id, lim, p);
    var t := d.btf.TypeById(id);
    var resolved := d.ResolveTypeId(t[p]);
    var newId := d.hypotMap[resolved];
    assert newId == to[t[p]];
    if newId > BTF_MAX_NR_TYPES {
      HasUnplaced(to, t[p]);
      return -EINVAL;
    }
    RefPastHeader(g[id], p);
    d.btf.SetWord(id, p, newId);
    return 0;
  }

  lemma HasUnplaced(to: seq<nat>, x: nat)
    requires x < |to| && !Mapped(to[x])
    ensures Unplaced(to)
  {
  }

  lemma RefPastHeader(t: Words, p: nat)
    requires IsRef(t, p)
    ensures 2 <= p
  {
  }

  method RemapMembers(d: Dedup, id: nat, ghost g: TypeGraph, ghost to: seq<nat>) returns (err: int)
    requires Remappable(d, g, to) && 1 <= id < |g| && Remapping(g, d.btf.Types(), to, id, 0)
    requires WellSized(g[id]) && IsComposite(g[id])
    modifies d.btf.data
    ensures Remappable(d, g, to) && (err == 0 || (err == -EINVAL && Unplaced(to)))
    ensures err == 0 ==> Remapping(g, d.btf.Types(), to, id + 1, 0)
  {
    hide Remapping, NewIds, Forest, Unplaced, Tiles, KindOf;
    ghost var t0, lim: nat := g[id], 0;
    RemapHeader(g, d.btf.Types(), to, id, 0);
    var t := d.btf.TypeById(id);
    var vlen := Vlen(t);
    err := 0;
    MemberRefs(t0, 0);
    var i := 0;
    while i < vlen
      invariant 0 <= i <= vlen == Vlen(t0) && err == 0 && lim <= MemberTypePos(i)
      invariant Remappable(d, g, to) && Remapping(g, d.btf.Types(), to, id, lim)
      invariant forall q: nat :: lim <= q < MemberTypePos(i) ==> !IsRef(t0, q)
    {
      MemberRefs(t0, i);
      err := RemapWord(d, id, MemberTypePos(i), lim, g, to);
      if err != 0 {
        return;
      }
      lim := MemberTypePos(i) + 1;
      i := i + 1;
      MemberRefs(t0, i);
    }
    RemapNext(g, d.btf.Types(), to, id, lim);
  }

  method RemapParams(d: Dedup, id: nat, ghost g: TypeGraph, ghost to: seq<nat>) returns (err: int)
    requires Remappable(d, g, to) && 1 <= id < |g| && Remapping(g, d.btf.Types(), to, id, 3)
    requires WellSized(g[id]) && Kind(g[id]) == KIND_FUNC_PROTO
    modifies d.btf.data
    ensures Remappable(d, g, to) && (err == 0 || (err == -EINVAL && Unplaced(to)))
    ensures err == 0 ==> Remapping(g, d.btf.Types(), to, id + 1, 0)
  {
    hide Remapping, NewIds, Forest, Unplaced, Tiles, KindOf;
    ghost var t0, lim: nat := g[id], 3;
    RemapHeader(g, d.btf.Types(), to, id, 3);
    var t := d.btf.TypeById(id);
    var vlen := Vlen(t);
    err := 0;
    ParamRefs(t0, 0);
    var i := 0;
    while i < vlen
      invariant 0 <= i <= vlen == Vlen(t0) && err == 0 && lim <= ParamTypePos(i)
      invariant Remappable(d, g, to) && Remapping(g, d.btf.Types(), to, id, lim)
      invariant forall q: nat :: lim <= q < ParamTypePos(i) ==> !IsRef(t0, q)
    {
      ParamRefs(t0, i);
      err := RemapWord(d, id, ParamTypePos(i), lim, g, to);
      if err != 0 {
        return;
      }
      lim := ParamTypePos(i) + 1;
      i := i + 1;
      ParamRefs(t0, i);
    }
    RemapNext(g, d.btf.Types(), to, id, lim);
  }

  method RemapSecInfos(d: Dedup, id: nat, ghost g: TypeGraph, ghost to: seq<nat>) returns (err: int)
    requires Remappable(d, g, to) && 1 <= id < |g| && Remapping(g, d.btf.Types(), to, id, 0)
    requires WellSized(g[id]) && Kind(g[id]) == KIND_DATASEC
    modifies d.btf.data
    ensures Remappable(d, g, to) && (err == 0 || (err == -EINVAL && Unplaced(to)))
    ensures err == 0 ==> Remapping(g, d.btf.Types(), to, id + 1, 0)
  {
    hide Remapping, NewIds, Forest, Unplaced, Tiles, KindOf;
    ghost var t0, lim: nat := g[id], 0;
    RemapHeader(g, d.btf.Types(), to, id, 0);
    var t := d.btf.TypeById(id);
    var vlen := Vlen(t);
    err := 0;
    SecInfoRefs(t0, 0);
    var i := 0;
    while i < vlen
      invariant 0 <= i <= vlen == Vlen(t0) && err == 0 && lim <= SecInfoTypePos(i)
      invariant Remappable(d, g, to) && Remapping(g, d.btf.Types(), to, id, lim)
      invariant forall q: nat :: lim <= q < SecInfoTypePos(i) ==> !IsRef(t0, q)
    {
      SecInfoRefs(t0, i);
      err := RemapWord(d, id, SecInfoTypePos(i), lim, g, to);
      if err != 0 {
        return;
      }
      lim := SecInfoTypePos(i) + 1;
      i := i + 1;
      SecInfoRefs(t0, i);
    }
    RemapNext(g, d.btf.Types(), to, id, lim);
  }

  /** btf_type_visit_type_ids with btf_dedup_remap_type_id: which words of a
      record are visited depends on its kind. */
  method RemapType(d: Dedup, id: nat, ghost g: TypeGraph, ghost to: seq<nat>) returns (err: int)
    requires Remappable(d, g, to) && 1 <= id < |g| && Remapping(g, d.btf.Types(), to, id, 0)
    requires WellSized(g[id])
    modifies d.btf.data
    ensures Remappable(d, g, to) && (err == 0 || (err == -EINVAL && Unplaced(to)))
    ensures err == 0 ==> Remapping(g, d.btf.Types(), to, id + 1, 0)
  {
    hide Remapping, NewIds, Forest, Unplaced, Tiles, KindOf;
    RemapHeader(g, d.btf.Types(), to, id, 0);
    var t := d.btf.TypeById(id);
    var kind := Kind(t);
    VisitedWords(g[id]);
    err := 0;
    if IsSingleRefKind(kind) || kind == KIND_FWD || kind == KIND_VAR || kind == KIND_DECL_TAG {
      err := RemapWord(d, id, 2, 0, g, to);
      if err == 0 { RemapNext(g, d.btf.Types(), to, id, 3); }
    } else if kind == KIND_ARRAY {
      err := RemapWord(d, id, 3, 0, g, to);
      if err == 0 {
        err := RemapWord(d, id, 4, 4, g, to);
        if err == 0 { RemapNext(g, d.btf.Types(), to, id, 5); }
      }
    } else if IsCompositeKind(kind) {
      err := RemapMembers(d, id, g, to);
    } else if kind == KIND_FUNC_PROTO {
      err := RemapWord(d, id, 2, 0, g, to);
      if err == 0 { err := RemapParams(d, id, g, to); }
    } else if kind == KIND_DATASEC {
      err := RemapSecInfos(d, id, g, to);
    } else {
      RemapNext(g, d.btf.Types(), to, id, 0);
    }
  }

  lemma VisitedWords(t: Words)
    requires WellSized(t)
    ensures forall p: nat :: IsRef(t, p) ==> 2 <= p
    ensures IsSingleRefKind(Kind(t)) || Kind(t) == KIND_FWD || Kind(t) == KIND_VAR || Kind(t) == KIND_DECL_TAG ==>
      IsRef(t, 2) && forall p: nat :: IsRef(t, p) ==> p < 3
    ensures Kind(t) == KIND_ARRAY ==> IsRef(t, 3) && IsRef(t, 4) && forall p: nat :: IsRef(t, p) ==> p == 3 || p == 4
    ensures Kind(t) == KIND_FUNC_PROTO ==> IsRef(t, 2)
    ensures Kind(t) == KIND_INT || Kind(t) == KIND_FLOAT || IsEnumKind(Kind(t)) ==> forall p: nat :: !IsRef(t, p)
  {
  }

  /** btf_dedup_remap_types */
  method RemapTypes(d: Dedup, ghost g: TypeGraph, ghost to: seq<nat>) returns (err: int)
    requires Remappable(d, g, to) && g == d.btf.Types()
    modifies d.btf.data
    ensures d.btf.Valid() && (err == 0 || (err == -EINVAL && Unplaced(to)))
    ensures err == 0 ==> Remapped(g, d.btf.Types(), to)
  {
    hide Remapping, Forest, Unplaced;
    err := 0;
    RemapStart(g, to);
    var i := 0;
    while i < d.btf.nr
      invariant 0 <= i <= d.btf.nr && err == 0
      invariant Remappable(d, g, to) && Remapping(g, d.btf.Types(), to, i + 1, 0)
    {
      err := RemapType(d, i + 1, g, to);
      if err != 0 {
        return;
      }
      i := i + 1;
    }
    RemapDone(g, d.btf.Types(), to);
  }
}
