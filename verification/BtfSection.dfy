/** The type section of a `struct btf`: the words of all records back to back,
    and the index of record offsets that turns a type ID into a record. */
module BtfSection {
  import opened BtfWords

  /** Where record `i` ends: at the next record, or at the end of the data. */
  function EndOf(d: seq<nat>, o: seq<nat>, i: nat): nat
    requires i < |o|
  {
    if i + 1 < |o| then o[i + 1] else |d|
  }

  /** Record `i` starts at o[i] and has exactly the size its info word announces. */
  predicate RecordFits(d: seq<nat>, o: seq<nat>, i: nat)
    requires i < |o|
  {
    o[i] + 3 <= |d| && 3 <= SizeOf(d[o[i] + 1]) && o[i] + SizeOf(d[o[i] + 1]) == EndOf(d, o, i) <= |d|
  }

  /** The records cover the data without gap or overlap, in index order. */
  ghost predicate Tiles(d: seq<nat>, o: seq<nat>) {
    && (if |o| == 0 then |d| == 0 else o[0] == 0)
    && forall i :: 0 <= i < |o| ==> RecordFits(d, o, i)
  }

  /** Record `i` of the section. */
  function RecordOf(d: seq<nat>, o: seq<nat>, i: nat): (t: Words)
    requires i < |o|
  {
    if RecordFits(d, o, i) then d[o[i]..EndOf(d, o, i)] else VOID
  }

  /** The records that a section holds, with void in front. */
  ghost function TypesOf(d: seq<nat>, o: seq<nat>): (g: TypeGraph)
    ensures |g| == |o| + 1 && g[0] == VOID
    ensures forall i {:trigger g[i]} :: 1 <= i < |g| ==> g[i] == RecordOf(d, o, i - 1)
  {
    seq(|o| + 1, i requires 0 <= i <= |o| => if i == 0 then VOID else RecordOf(d, o, i - 1))
  }

  lemma TypesWellSized(d: seq<nat>, o: seq<nat>)
    requires Tiles(d, o)
    ensures forall i :: 1 <= i <= |o| ==> WellSized(TypesOf(d, o)[i])
  {
    forall i | 1 <= i <= |o| ensures WellSized(TypesOf(d, o)[i]) {
      assert RecordFits(d, o, i - 1);
      assert WellSized(RecordOf(d, o, i - 1));
    }
  }

  lemma {:induction false} OffsetsAscend(d: seq<nat>, o: seq<nat>, i: nat, j: nat)
    requires Tiles(d, o) && i < j < |o|
    ensures EndOf(d, o, i) <= o[j]
    decreases j
  {
    assert RecordFits(d, o, j - 1);
    if i < j - 1 {
      OffsetsAscend(d, o, i, j - 1);
    }
  }

  /** Adding a well-sized record at the end. */
  lemma TilesAppend(d: seq<nat>, o: seq<nat>, t: Words)
    requires Tiles(d, o) && WellSized(t)
    ensures Tiles(d + t, o + [|d|])
    ensures TypesOf(d + t, o + [|d|]) == TypesOf(d, o) + [t]
  {
    var d', o' := d + t, o + [|d|];
    forall i | 0 <= i < |o'|
      ensures RecordFits(d', o', i)
      ensures i < |o| ==> EndOf(d', o', i) == EndOf(d, o, i)
    {
      if i < |o| {
        assert RecordFits(d, o, i);
      } else {
        assert d'[|d| + 1] == t[1];
      }
    }
    var g, g' := TypesOf(d, o), TypesOf(d', o');
    forall i | 0 <= i < |g'| ensures g'[i] == (g + [t])[i] {
      if 1 <= i < |g| {
        assert RecordFits(d, o, i - 1);
        assert d'[o[i - 1]..EndOf(d, o, i - 1)] == d[o[i - 1]..EndOf(d, o, i - 1)];
      }
    }
  }

  /** Overwriting a word of record `k` other than its first two leaves every
      record in its place and changes record `k` only. */
  lemma SetWordRecord(d: seq<nat>, o: seq<nat>, k: nat, p: nat, v: nat, i: nat)
    requires Tiles(d, o) && k < |o| && i < |o| && 2 <= p < |RecordOf(d, o, k)|
    ensures o[k] + p < |d| && RecordFits(d[o[k] + p := v], o, i)
    ensures RecordOf(d[o[k] + p := v], o, i) ==
            if i == k then WithWord(RecordOf(d, o, k), p, v) else RecordOf(d, o, i)
  {
    assert RecordFits(d, o, k) && RecordFits(d, o, i);
    var x := o[k] + p;
    var d' := d[x := v];
    assert x != o[i] + 1 && (i == k || x < o[i] || EndOf(d, o, i) <= x) by {
      if i < k { OffsetsAscend(d, o, i, k); }
      if k < i { OffsetsAscend(d, o, k, i); }
    }
    assert EndOf(d', o, i) == EndOf(d, o, i);
    assert RecordFits(d', o, i);
    if i == k {
      assert d'[o[k]..EndOf(d, o, k)] == WithWord(d[o[k]..EndOf(d, o, k)], p, v);
    } else {
      assert d'[o[i]..EndOf(d, o, i)] == d[o[i]..EndOf(d, o, i)];
    }
  }

  lemma SetWordType(d: seq<nat>, o: seq<nat>, id: nat, p: nat, v: nat, i: nat)
    requires Tiles(d, o) && 1 <= id <= |o| && 2 <= p < |TypesOf(d, o)[id]| && i <= |o|
    ensures o[id - 1] + p < |d|
    ensures i == id ==> TypesOf(d[o[id - 1] + p := v], o)[i] == WithWord(TypesOf(d, o)[id], p, v)
    ensures i != id ==> TypesOf(d[o[id - 1] + p := v], o)[i] == TypesOf(d, o)[i]
  {
    SetWordRecord(d, o, id - 1, p, v, if i == 0 then id - 1 else i - 1);
  }

  lemma SetWordTiles(d: seq<nat>, o: seq<nat>, id: nat, p: nat, v: nat)
    requires Tiles(d, o) && 1 <= id <= |o| && 2 <= p < |TypesOf(d, o)[id]|
    ensures o[id - 1] + p < |d| && Tiles(d[o[id - 1] + p := v], o)
  {
    SetWordRecord(d, o, id - 1, p, v, id - 1);
    var d' := d[o[id - 1] + p := v];
    forall i | 0 <= i < |o| ensures RecordFits(d', o, i) {
      SetWordRecord(d, o, id - 1, p, v, i);
    }
  }

  lemma SetWordTypes(d: seq<nat>, o: seq<nat>, id: nat, p: nat, v: nat)
    requires Tiles(d, o) && 1 <= id <= |o| && 2 <= p < |TypesOf(d, o)[id]|
    ensures o[id - 1] + p < |d|
    ensures TypesOf(d[o[id - 1] + p := v], o) == Update(TypesOf(d, o), id, p, v)
  {
    SetWordType(d, o, id, p, v, id);
    var g, g' := TypesOf(d, o), TypesOf(d[o[id - 1] + p := v], o);
    forall i | 0 <= i < |g'| ensures g'[i] == Update(g, id, p, v)[i] {
      SetWordType(d, o, id, p, v, i);
    }
  }

  class Section {
    var data: array<nat>   // types_data, in words
    var offs: array<nat>   // type_offs
    var nr: nat            // nr_types
    var len: nat           // hdr->type_len, in words

    ghost predicate Valid()
      reads this, data, offs
    {
      && data != offs && nr <= offs.Length && len <= data.Length
      && Tiles(data[..len], offs[..nr])
    }

    /** The type graph this section holds. */
    ghost function Types(): (g: TypeGraph)
      requires Valid()
      reads this, data, offs
      ensures |g| == nr + 1
    {
      TypesOf(data[..len], offs[..nr])
    }

    /** btf_type_by_id: the record of an ID, found through the offset index. */
    method TypeById(id: nat) returns (t: Words)
      requires Valid() && id <= nr
      ensures t == Types()[id]
    {
      if id == 0 {
        return VOID;
      }
      assert RecordFits(data[..len], offs[..nr], id - 1);
      var off := offs[id - 1];
      t := data[off..off + SizeOf(data[off + 1])];
      assert t == data[..len][off..off + SizeOf(data[off + 1])];
    }

    /** Overwrites one word of a record in place. */
    method SetWord(id: nat, p: nat, v: nat)
      requires Valid() && 1 <= id <= nr && 2 <= p < |Types()[id]|
      modifies data
      ensures Valid()
      ensures Types() == Update(old(Types()), id, p, v)
    {
      ghost var d, o := data[..len], offs[..nr];
      SetWordTiles(d, o, id, p, v);
      SetWordTypes(d, o, id, p, v);
      data[offs[id - 1] + p] := v;
      assert data[..len] == d[o[id - 1] + p := v];
    }
  }

  /** memmove towards the front: the source may overlap the end of the target. */
  method MoveDown(a: array<nat>, dst: nat, src: nat, n: nat)
    requires dst <= src && src + n <= a.Length
    modifies a
    ensures a[dst..dst + n] == old(a[src..src + n])
    ensures a[..dst] == old(a[..dst])
    ensures a[src + n..] == old(a[src + n..])
  {
    ghost var a0, shift := a[..], src - dst;
    var i := 0;
    while i < n
      invariant 0 <= i <= n
      invariant forall k :: dst <= k < dst + i ==> a[k] == a0[k + shift]
      invariant forall k :: dst + i <= k < a.Length ==> a[k] == a0[k]
      invariant forall k :: 0 <= k < dst ==> a[k] == a0[k]
    {
      a[dst + i] := a[src + i];
      i := i + 1;
    }
    assert a[dst..dst + n] == a0[src..src + n];
  }
}
