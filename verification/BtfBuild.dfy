/** Building a BTF record by record. */
module BtfBuild {
  import opened BtfFormat
  import opened BtfSection
  import opened BtfWords

  type U32 = x: nat | x < 0x1_0000_0000

  const UINT_MAX := 0xffff_ffff
  const BTF_MAX_STR_OFFSET := 0x7fff_ffff
  const ENOMEM: int := 12
  const E2BIG: int := 7

  // ------------------------------------------------------------------- strings

  predicate IsText(s: seq<nat>) { forall i :: 0 <= i < |s| ==> 0 < s[i] < 256 }

  /** The string at an offset, up to its zero byte. */
  function TextAt(strs: seq<nat>, off: nat): seq<nat>
    decreases |strs| - off
  {
    if off >= |strs| || strs[off] == 0 then [] else [strs[off]] + TextAt(strs, off + 1)
  }

  predicate StringsOk(strs: seq<nat>) {
    AreBytes(strs) && 0 < |strs| <= BTF_MAX_STR_OFFSET && strs[0] == 0 && strs[|strs| - 1] == 0
  }

  /** Strings stay where they are when others are added. */
  lemma {:induction false} TextStays(strs: seq<nat>, more: seq<nat>, off: nat)
    requires StringsOk(strs) && strs <= more && off < |strs|
    ensures TextAt(more, off) == TextAt(strs, off)
    decreases |strs| - off
  {
    assert more[off] == strs[off];
    if strs[off] != 0 { TextStays(strs, more, off + 1); }
  }

  lemma {:induction false} TextAdded(strs: seq<nat>, s: seq<nat>, i: nat)
    requires IsText(s) && i <= |s|
    ensures TextAt(strs + s + [0], |strs| + i) == s[i..]
    decreases |s| - i
  {
    var all := strs + s + [0];
    if i < |s| {
      assert all[|strs| + i] == s[i];
      TextAdded(strs, s, i + 1);
    } else {
      assert all[|strs| + i] == 0;
    }
  }

  // ------------------------------------------------------------------- records

  /** btf_type_info */
  function Info(kind: nat, vlen: nat, kflag: bool): nat {
    (if kflag then 0x80000000 else 0) + kind * 0x1000000 + vlen
  }

  lemma InfoSays(kind: nat, vlen: nat, kflag: bool)
    requires kind < 32 && vlen <= 0x1_0000
    ensures Info(kind, vlen, kflag) < 0x1_0000_0000 && KindOf(Info(kind, vlen, kflag)) == kind
    ensures VlenOf(Info(kind, vlen, kflag)) == if vlen < 0x1_0000 then vlen else 0
    ensures Info(kind, vlen, kflag) / 0x80000000 % 2 == if kflag then 1 else 0
  {
  }

  /** What a record says: kind, number of entries, flag, size or type, and the rest. */
  ghost predicate Says(t: Words, kind: nat, vlen: nat, kflag: bool, third: nat, rest: seq<nat>) {
    WellSized(t) && Kind(t) == kind && Vlen(t) == vlen && KFlag(t) == kflag && t[2] == third && t[3..] == rest
  }

  /** Words per entry of the kinds that have entries. */
  function EntrySize(kind: nat): nat {
    if kind == KIND_ENUM || kind == KIND_FUNC_PROTO then 2
    else if IsCompositeKind(kind) || kind == KIND_ENUM64 || kind == KIND_DATASEC then 3
    else 0
  }

  /** A record with one more entry. */
  ghost predicate Extends(u: Words, t: Words, entry: seq<nat>, kflag: bool)
    requires |t| >= 3
  {
    |u| >= 3 && u[0] == t[0] && Says(u, Kind(t), Vlen(t) + 1, kflag, t[2], t[3..] + entry)
  }

  lemma NewRecord(name: nat, kind: nat, kflag: bool, vlen: nat, third: nat, rest: seq<nat>)
    requires kind < 32 && vlen < 0x1_0000 && 3 + |rest| == SizeOf(Info(kind, vlen, kflag))
    ensures Says([name, Info(kind, vlen, kflag), third] + rest, kind, vlen, kflag, third, rest)
  {
    hide SizeOf, Info, KindOf, VlenOf;
    InfoSays(kind, vlen, kflag);
  }

  /** One entry more, as the info word is rewritten: right exactly if it is counted in
      16 bits. */
  lemma OneMore(t: Words, entry: seq<nat>, kflag: bool)
    requires WellSized(t) && EntrySize(Kind(t)) > 0 && |entry| == EntrySize(Kind(t))
    ensures var u := [t[0], Info(Kind(t), Vlen(t) + 1, kflag), t[2]] + t[3..] + entry;
      if Vlen(t) < 0xffff then Extends(u, t, entry, kflag) else !WellSized(u)
  {
    hide Info;
    InfoSays(Kind(t), Vlen(t) + 1, kflag);
  }

  // --------------------------------------------------------------- the section

  /** The last record replaced by a longer one. */
  lemma LastGrows(d: seq<nat>, o: seq<nat>, u: Words)
    requires Tiles(d, o) && |o| > 0
    ensures o[|o| - 1] <= |d|
    ensures WellSized(u) ==> Tiles(d[..o[|o| - 1]] + u, o) && TypesOf(d[..o[|o| - 1]] + u, o) == TypesOf(d, o)[..|o|] + [u]
    ensures |u| >= 3 && !WellSized(u) ==> !Tiles(d[..o[|o| - 1]] + u, o)
  {
    var n := |o| - 1;
    assert RecordFits(d, o, n);
    var d0, o0 := d[..o[n]], o[..n];
    Shorter(d, o);
    if WellSized(u) {
      TilesAppend(d0, o0, u);
      assert o0 + [|d0|] == o;
    } else if |u| >= 3 {
      assert (d0 + u)[o[n] + 1] == u[1];
      assert Tiles(d0 + u, o) ==> RecordFits(d0 + u, o, n);
    }
  }

  /** Without its last record a section is one still. */
  lemma Shorter(d: seq<nat>, o: seq<nat>)
    requires Tiles(d, o) && |o| > 0
    ensures o[|o| - 1] <= |d| && Tiles(d[..o[|o| - 1]], o[..|o| - 1])
    ensures TypesOf(d[..o[|o| - 1]], o[..|o| - 1]) == TypesOf(d, o)[..|o|]
  {
    hide SizeOf;
    var n := |o| - 1;
    assert RecordFits(d, o, n);
    var d0, o0 := d[..o[n]], o[..n];
    forall i | 0 <= i < n
      ensures RecordFits(d0, o0, i) && EndOf(d0, o0, i) == EndOf(d, o, i) && RecordOf(d0, o0, i) == RecordOf(d, o, i)
    {
      assert RecordFits(d, o, i);
      OffsetsAscend(d, o, i, n);
      assert d0[o[i]..EndOf(d, o, i)] == d[o[i]..EndOf(d, o, i)];
    }
    var g, g0 := TypesOf(d, o), TypesOf(d0, o0);
    forall i | 0 <= i < |g0| ensures g0[i] == g[..|o|][i] {
      if i > 0 { assert RecordOf(d0, o0, i - 1) == RecordOf(d, o, i - 1); }
    }
  }

  lemma {:induction false} OffsetsUnique(d: seq<nat>, o: seq<nat>, o': seq<nat>, i: nat)
    requires Tiles(d, o) && Tiles(d, o') && i <= |o|
    ensures |o'| >= i && o[..i] == o'[..i]
    ensures (i < |o| ==> i < |o'| && o'[i] == o[i]) && (i == |o| ==> |o'| == i)
    decreases i
  {
    if i == 0 {
      assert |o'| > 0 ==> RecordFits(d, o', 0);
      assert |o| > 0 ==> RecordFits(d, o, 0);
    } else {
      OffsetsUnique(d, o, o', i - 1);
      assert RecordFits(d, o, i - 1) && RecordFits(d, o', i - 1);
      if i < |o| { assert RecordFits(d, o, i); }
      if i < |o'| { assert RecordFits(d, o', i); }
    }
  }

  /** The index of a section is determined by its data. */
  lemma TilesUnique(d: seq<nat>, o: seq<nat>, o': seq<nat>)
    requires Tiles(d, o) && Tiles(d, o')
    ensures o == o'
  {
    OffsetsUnique(d, o, o', |o|);
    assert o[..|o|] == o && o'[..|o|] == o';
  }

  // ------------------------------------------------------------------ the builder

  /** `g` is `g0` and a new record with this name and content. */
  ghost predicate Grown(g0: TypeGraph, g: TypeGraph, strs: seq<nat>, name: seq<nat>, kind: nat, vlen: nat, kflag: bool,
                        third: nat, rest: seq<nat>)
  {
    && |g| == |g0| + 1 && g[..|g0|] == g0 && Says(g[|g0|], kind, vlen, kflag, third, rest)
    && g[|g0|][0] < |strs| && TextAt(strs, g[|g0|][0]) == name
  }

  /** `g` is `g0` with one more entry in the last record. */
  ghost predicate Extended(g0: TypeGraph, g: TypeGraph, entry: seq<nat>, kflag: bool) {
    && |g| == |g0| > 1 && g[..|g0| - 1] == g0[..|g0| - 1] && |g0[|g0| - 1]| >= 3
    && Extends(g[|g0| - 1], g0[|g0| - 1], entry, kflag)
  }

  class Btf {
    var words: seq<nat>                  // types_data; hdr->type_len and hdr->str_off follow from it
    var offs: seq<nat>                   // type_offs
    var strs: seq<nat>                   // the data of strs_set; its length is hdr->str_len
    var strIndex: map<seq<nat>, nat>     // the hash map of strs_set

    ghost predicate StringsValid()
      reads this
    {
      StringsOk(strs) && forall s :: s in strIndex ==> strIndex[s] < |strs| && TextAt(strs, strIndex[s]) == s
    }

    ghost predicate Valid()
      reads this
    {
      Tiles(words, offs) && AreWords(words) && StringsValid() && 4 * |words| <= UINT_MAX && |offs| <= BTF_MAX_NR_TYPES
    }

    ghost function Types(): (g: TypeGraph)
      reads this
      ensures |g| == |offs| + 1
    {
      TypesOf(words, offs)
    }

    /** btf_new_empty, made modifiable */
    constructor Empty()
      ensures Valid() && Types() == [VOID] && strs == [0]
    {
      words, offs, strs, strIndex := [], [], [0], map[[] := 0];
      new;
      assert Types() == [VOID];
    }

    /** btf__add_str */
    method AddStr(s: seq<nat>) returns (off: int)
      requires StringsValid() && IsText(s)
      modifies `strs, `strIndex
      ensures StringsValid() && old(strs) <= strs
      ensures if off >= 0 then off < |strs| && TextAt(strs, off) == s else off == -ENOMEM && strs == old(strs)
    {
      if |strs| + |s| + 1 > BTF_MAX_STR_OFFSET {
        return -ENOMEM;
      }
      if s in strIndex {
        return strIndex[s];
      }
      ghost var more := strs + s + [0];
      forall x | x in strIndex ensures TextAt(more, strIndex[x]) == x { TextStays(strs, more, strIndex[x]); }
      TextAdded(strs, s, 0);
      assert s[0..] == s;
      off := |strs|;
      strIndex := strIndex[s := off];
      strs := strs + s + [0];
      assert strs == more;
    }

    /** The offset of a name, which may be empty. */
    method AddName(name: seq<nat>) returns (off: int)
      requires StringsValid() && IsText(name)
      modifies `strs, `strIndex
      ensures StringsValid() && old(strs) <= strs
      ensures if off >= 0 then off < |strs| && TextAt(strs, off) == name else off == -ENOMEM && strs == old(strs)
    {
      off := 0;
      if name != [] {
        off := AddStr(name);
      }
    }

    /** What every function that appends a type does: room for the record, its name,
        its fields, and the entry in the index (btf_commit_type). */
    method AddRecord(name: seq<nat>, kind: nat, vlen: nat, kflag: bool, third: U32, rest: seq<nat>) returns (id: int)
      requires Valid() && IsText(name) && kind < 32 && vlen < 0x1_0000 && 3 + |rest| == SizeOf(Info(kind, vlen, kflag)) && AreWords(rest)
      modifies this
      ensures Valid() && old(strs) <= strs
      ensures if id > 0 then id == old(|Types()|) && Grown(old(Types()), Types(), strs, name, kind, vlen, kflag, third, rest)
              else id == -ENOMEM && Types() == old(Types())
    {
      hide SizeOf, Info, KindOf, VlenOf, Tiles, IsText;
      if 4 * |words| + 4 * (3 + |rest|) > UINT_MAX {
        return -ENOMEM;
      }
      var nameOff := AddName(name);
      if nameOff < 0 {
        return nameOff;
      }
      if |offs| + 1 > BTF_MAX_NR_TYPES {
        return -ENOMEM;
      }
      var t := [nameOff, Info(kind, vlen, kflag), third] + rest;
      NewRecord(nameOff, kind, kflag, vlen, third, rest);
      InfoSays(kind, vlen, kflag);
      TilesAppend(words, offs, t);
      offs := offs + [|words|];
      words := words + t;
      return |offs|;
    }

    predicate HasRoom(n: nat)
      reads this
    {
      4 * |words| + 4 * n <= UINT_MAX
    }

    /** What every function that adds an entry to the last type does in the end; more
        than 65535 entries spoil the section. */
    method AddEntry(entry: seq<nat>, setFlag: bool)
      requires Valid() && |offs| > 0 && AreWords(entry) && HasRoom(|entry|)
      requires |Types()[|offs|]| >= 3 && EntrySize(Kind(Types()[|offs|])) == |entry| > 0
      modifies `words
      ensures if Vlen(old(Types()[|offs|])) < 0xffff
              then Valid() && Extended(old(Types()), Types(), entry, setFlag || KFlag(old(Types()[|offs|])))
              else !Tiles(words, offs)
    {
      hide SizeOf, Info, KindOf, VlenOf, Tiles, EntrySize, Extended, StringsOk;
      EntryAdded(words, offs, entry, setFlag);
      var at := offs[|offs| - 1];
      var info := words[at + 1];
      words := words[at + 1 := MoreInfo(info, setFlag)] + entry;
    }

    /** Room for an entry, its name, which may be empty, and the entry. */
    method AddNamedEntry(name: seq<nat>, rest: seq<nat>, setFlag: bool) returns (err: int)
      requires Valid() && IsText(name) && |offs| > 0 && AreWords(rest)
      requires |Types()[|offs|]| >= 3 && EntrySize(Kind(Types()[|offs|])) == |rest| + 1
      modifies this
      ensures StringsValid() && old(strs) <= strs && (err == 0 || err == -ENOMEM)
      ensures err == 0 ==> AddedEntry(old(Types()), name, rest, setFlag)
      ensures err < 0 ==> Valid() && Types() == old(Types())
    {
      hide Extended, Tiles, IsText, SizeOf, EntrySize, KindOf, VlenOf;
      if !HasRoom(|rest| + 1) {
        return -ENOMEM;
      }
      var nameOff := AddName(name);
      if nameOff < 0 {
        return nameOff;
      }
      assert Named(strs, nameOff, name);
      AddEntry([nameOff] + rest, setFlag);
      return 0;
    }

    // -------------------------------------------------------------- btf__add_*

    method AddInt(name: seq<nat>, byteSize: nat, encoding: U32) returns (id: int)
      requires Valid() && IsText(name)
      modifies this
      ensures Valid() && old(strs) <= strs
      ensures id == -EINVAL <==> name == [] || !PowerOf2To16(byteSize) || encoding >= 8
      ensures if id > 0
        then id == old(|Types()|) &&
          Grown(old(Types()), Types(), strs, name, KIND_INT, 0, false, byteSize, [encoding * 0x1000000 + byteSize * 8])
        else (id == -EINVAL || id == -ENOMEM) && Types() == old(Types())
    {
      if name == [] || !PowerOf2To16(byteSize) || encoding >= 8 {
        return -EINVAL;
      }
      InfoSays(KIND_INT, 0, false);
      id := AddRecord(name, KIND_INT, 0, false, byteSize, [encoding * 0x1000000 + byteSize * 8]);
    }

    method AddFloat(name: seq<nat>, byteSize: nat) returns (id: int)
      requires Valid() && IsText(name)
      modifies this
      ensures Valid() && old(strs) <= strs
      ensures id == -EINVAL <==> name == [] || !(byteSize == 2 || byteSize == 4 || byteSize == 8 || byteSize == 12 || byteSize == 16)
      ensures if id > 0 then id == old(|Types()|) && Grown(old(Types()), Types(), strs, name, KIND_FLOAT, 0, false, byteSize, [])
              else (id == -EINVAL || id == -ENOMEM) && Types() == old(Types())
    {
      if name == [] || !(byteSize == 2 || byteSize == 4 || byteSize == 8 || byteSize == 12 || byteSize == 16) {
        return -EINVAL;
      }
      InfoSays(KIND_FLOAT, 0, false);
      id := AddRecord(name, KIND_FLOAT, 0, false, byteSize, []);
    }

    /** btf_add_ref_kind, and the functions for pointers, qualifiers, typedefs, tags,
        functions and forward declarations, which pass it a kind and rewrite the info
        word afterwards. */
    method AddRefKind(kind: nat, name: seq<nat>, refId: int, vlen: nat, kflag: bool) returns (id: int)
      requires Valid() && IsText(name) && (IsSingleRefKind(kind) || kind == KIND_FWD) && vlen < 0x1_0000
      modifies this
      ensures Valid() && old(strs) <= strs
      ensures id == -EINVAL <==> !ValidId(refId)
      ensures if id > 0 then id == old(|Types()|) && Grown(old(Types()), Types(), strs, name, kind, vlen, kflag, refId, [])
              else (id == -EINVAL || id == -ENOMEM) && Types() == old(Types())
    {
      if !ValidId(refId) {
        return -EINVAL;
      }
      InfoSays(kind, vlen, kflag);
      id := AddRecord(name, kind, vlen, kflag, refId, []);
    }

    method AddFwd(name: seq<nat>, fwdKind: FwdDecl) returns (id: int)
      requires Valid() && IsText(name)
      modifies this
      ensures Valid() && old(strs) <= strs
      ensures id == -EINVAL <==> name == []
      ensures if id > 0
        then id == old(|Types()|) &&
          if fwdKind == FWD_ENUM then Grown(old(Types()), Types(), strs, name, KIND_ENUM, 0, false, 4, [])
          else Grown(old(Types()), Types(), strs, name, KIND_FWD, 0, fwdKind == FWD_UNION, 0, [])
        else (id == -EINVAL || id == -ENOMEM) && Types() == old(Types())
    {
      if name == [] {
        return -EINVAL;
      }
      if fwdKind == FWD_ENUM {
        id := AddEnum(name, 4, KIND_ENUM, false);
      } else {
        id := AddRefKind(KIND_FWD, name, 0, 0, fwdKind == FWD_UNION);
      }
    }

    method AddFunc(name: seq<nat>, linkage: nat, protoId: int) returns (id: int)
      requires Valid() && IsText(name)
      modifies this
      ensures Valid() && old(strs) <= strs
      ensures id == -EINVAL <==> name == [] || linkage > 2 || !ValidId(protoId)
      ensures if id > 0 then id == old(|Types()|) && Grown(old(Types()), Types(), strs, name, KIND_FUNC, linkage, false, protoId, [])
              else (id == -EINVAL || id == -ENOMEM) && Types() == old(Types())
    {
      if name == [] || linkage > 2 {
        return -EINVAL;
      }
      id := AddRefKind(KIND_FUNC, name, protoId, linkage, false);
    }

    method AddArray(indexId: int, elemId: int, count: U32) returns (id: int)
      requires Valid()
      modifies this
      ensures Valid() && old(strs) <= strs
      ensures id == -EINVAL <==> !ValidId(indexId) || !ValidId(elemId)
      ensures if id > 0
        then id == old(|Types()|) && Grown(old(Types()), Types(), strs, [], KIND_ARRAY, 0, false, 0, [elemId, indexId, count])
        else (id == -EINVAL || id == -ENOMEM) && Types() == old(Types())
    {
      if !ValidId(indexId) || !ValidId(elemId) {
        return -EINVAL;
      }
      InfoSays(KIND_ARRAY, 0, false);
      id := AddRecord([], KIND_ARRAY, 0, false, 0, [elemId, indexId, count]);
    }

    /** btf_add_composite */
    method AddComposite(kind: nat, name: seq<nat>, byteSize: U32) returns (id: int)
      requires Valid() && IsText(name) && IsCompositeKind(kind)
      modifies this
      ensures Valid() && old(strs) <= strs
      ensures if id > 0 then id == old(|Types()|) && Grown(old(Types()), Types(), strs, name, kind, 0, false, byteSize, [])
              else id == -ENOMEM && Types() == old(Types())
    {
      InfoSays(kind, 0, false);
      id := AddRecord(name, kind, 0, false, byteSize, []);
    }

    method AddField(name: seq<nat>, typeId: int, bitOffset: U32, bitSize: U32) returns (err: int)
      requires Valid() && IsText(name)
      modifies this
      ensures StringsValid() && old(strs) <= strs && err <= 0
      ensures err == -EINVAL <==>
        || !IsCompositeKind(old(LastKind())) || !ValidId(typeId) || (old(LastKind()) == KIND_UNION && bitOffset != 0)
        || (IsBitField(bitOffset, bitSize) && (bitSize == 0 || bitSize > 255 || bitOffset > 0xffffff))
      ensures err == 0 ==> AddedEntry(old(Types()), name, [typeId, bitOffset + bitSize * 0x1000000], IsBitField(bitOffset, bitSize))
      ensures err < 0 ==> Valid() && Types() == old(Types())
    {
      hide Extended, Tiles, IsText, SizeOf, AddedEntry, StringsValid;
      LastIs(words, offs);
      if |offs| == 0 || !IsCompositeKind(KindOf(words[offs[|offs| - 1] + 1])) || !ValidId(typeId) {
        return -EINVAL;
      }
      var bits := IsBitField(bitOffset, bitSize);
      if bits && (bitSize == 0 || bitSize > 255 || bitOffset > 0xffffff) {
        return -EINVAL;
      }
      if KindOf(words[offs[|offs| - 1] + 1]) == KIND_UNION && bitOffset != 0 {
        return -EINVAL;
      }
      err := AddNamedEntry(name, [typeId, bitOffset + bitSize * 0x1000000], bits);
    }

    /** btf_add_enum_common */
    method AddEnum(name: seq<nat>, byteSize: U32, kind: nat, signed: bool) returns (id: int)
      requires Valid() && IsText(name) && IsEnumKind(kind)
      modifies this
      ensures Valid() && old(strs) <= strs
      ensures id == -EINVAL <==> !PowerOf2To16(byteSize) || byteSize > 8
      ensures if id > 0 then id == old(|Types()|) && Grown(old(Types()), Types(), strs, name, kind, 0, signed, byteSize, [])
              else (id == -EINVAL || id == -ENOMEM) && Types() == old(Types())
    {
      if !PowerOf2To16(byteSize) || byteSize > 8 {
        return -EINVAL;
      }
      InfoSays(kind, 0, signed);
      id := AddRecord(name, kind, 0, signed, byteSize, []);
    }

    method AddEnumValue(name: seq<nat>, value: int) returns (err: int)
      requires Valid() && IsText(name)
      modifies this
      ensures StringsValid() && old(strs) <= strs && err <= 0
      ensures err == -EINVAL <==> old(LastKind()) != KIND_ENUM || name == []
      ensures err == -E2BIG <==> old(LastKind()) == KIND_ENUM && name != [] && (value < -0x8000_0000 || value > UINT_MAX)
      ensures err == 0 ==> AddedEntry(old(Types()), name, [value % 0x1_0000_0000], value < 0)
      ensures err < 0 ==> Valid() && Types() == old(Types())
    {
      hide Extended, Tiles, IsText, SizeOf, AddedEntry, StringsValid;
      LastIs(words, offs);
      if |offs| == 0 || KindOf(words[offs[|offs| - 1] + 1]) != KIND_ENUM || name == [] {
        return -EINVAL;
      }
      if value < -0x8000_0000 || value > UINT_MAX {
        return -E2BIG;
      }
      err := AddNamedEntry(name, [value % 0x1_0000_0000], value < 0);
    }

    method AddEnum64Value(name: seq<nat>, value: nat) returns (err: int)
      requires Valid() && IsText(name) && value < 0x1_0000_0000_0000_0000
      modifies this
      ensures StringsValid() && old(strs) <= strs && err <= 0
      ensures err == -EINVAL <==> old(LastKind()) != KIND_ENUM64 || name == []
      ensures err == 0 ==> AddedEntry(old(Types()), name, [value % 0x1_0000_0000, value / 0x1_0000_0000], false)
      ensures err < 0 ==> Valid() && Types() == old(Types())
    {
      hide Extended, Tiles, IsText, SizeOf, AddedEntry, StringsValid;
      LastIs(words, offs);
      if |offs| == 0 || KindOf(words[offs[|offs| - 1] + 1]) != KIND_ENUM64 || name == [] {
        return -EINVAL;
      }
      err := AddNamedEntry(name, [value % 0x1_0000_0000, value / 0x1_0000_0000], false);
    }

    method AddFuncProto(retId: int) returns (id: int)
      requires Valid()
      modifies this
      ensures Valid() && old(strs) <= strs
      ensures id == -EINVAL <==> !ValidId(retId)
      ensures if id > 0 then id == old(|Types()|) && Grown(old(Types()), Types(), strs, [], KIND_FUNC_PROTO, 0, false, retId, [])
              else (id == -EINVAL || id == -ENOMEM) && Types() == old(Types())
    {
      if !ValidId(retId) {
        return -EINVAL;
      }
      InfoSays(KIND_FUNC_PROTO, 0, false);
      id := AddRecord([], KIND_FUNC_PROTO, 0, false, retId, []);
    }

    method AddFuncParam(name: seq<nat>, typeId: int) returns (err: int)
      requires Valid() && IsText(name)
      modifies this
      ensures StringsValid() && old(strs) <= strs && err <= 0
      ensures err == -EINVAL <==> old(LastKind()) != KIND_FUNC_PROTO || !ValidId(typeId)
      ensures err == 0 ==> AddedEntry(old(Types()), name, [typeId], false)
      ensures err < 0 ==> Valid() && Types() == old(Types())
    {
      hide Extended, Tiles, IsText, SizeOf, AddedEntry, StringsValid;
      LastIs(words, offs);
      if !ValidId(typeId) || |offs| == 0 || KindOf(words[offs[|offs| - 1] + 1]) != KIND_FUNC_PROTO {
        return -EINVAL;
      }
      err := AddNamedEntry(name, [typeId], false);
    }

    method AddVar(name: seq<nat>, linkage: nat, typeId: int) returns (id: int)
      requires Valid() && IsText(name)
      modifies this
      ensures Valid() && old(strs) <= strs
      ensures id == -EINVAL <==> name == [] || linkage > 2 || !ValidId(typeId)
      ensures if id > 0 then id == old(|Types()|) && Grown(old(Types()), Types(), strs, name, KIND_VAR, 0, false, typeId, [linkage])
              else (id == -EINVAL || id == -ENOMEM) && Types() == old(Types())
    {
      if name == [] || linkage > 2 || !ValidId(typeId) {
        return -EINVAL;
      }
      InfoSays(KIND_VAR, 0, false);
      id := AddRecord(name, KIND_VAR, 0, false, typeId, [linkage]);
    }

    method AddDatasec(name: seq<nat>, byteSize: U32) returns (id: int)
      requires Valid() && IsText(name)
      modifies this
      ensures Valid() && old(strs) <= strs
      ensures id == -EINVAL <==> name == []
      ensures if id > 0 then id == old(|Types()|) && Grown(old(Types()), Types(), strs, name, KIND_DATASEC, 0, false, byteSize, [])
              else (id == -EINVAL || id == -ENOMEM) && Types() == old(Types())
    {
      if name == [] {
        return -EINVAL;
      }
      InfoSays(KIND_DATASEC, 0, false);
      id := AddRecord(name, KIND_DATASEC, 0, false, byteSize, []);
    }

    method AddDatasecVarInfo(varId: int, offset: U32, byteSize: U32) returns (err: int)
      requires Valid()
      modifies this
      ensures StringsValid() && strs == old(strs) && err <= 0
      ensures err == -EINVAL <==> old(LastKind()) != KIND_DATASEC || !ValidId(varId)
      ensures err == 0 ==>
        if Vlen(old(Types()[|offs|])) < 0xffff
        then Valid() && Extended(old(Types()), Types(), [varId, offset, byteSize], KFlag(old(Types()[|offs|])))
        else !Tiles(words, offs)
      ensures err < 0 ==> Valid() && Types() == old(Types())
    {
      hide Extended, Tiles, IsText, SizeOf, AddedEntry;
      LastIs(words, offs);
      if |offs| == 0 || KindOf(words[offs[|offs| - 1] + 1]) != KIND_DATASEC || !ValidId(varId) {
        return -EINVAL;
      }
      if !HasRoom(3) {
        return -ENOMEM;
      }
      AddEntry([varId, offset, byteSize], false);
      return 0;
    }

    method AddDeclTag(value: seq<nat>, refId: int, component: int) returns (id: int)
      requires Valid() && IsText(value) && component < 0x8000_0000
      modifies this
      ensures Valid() && old(strs) <= strs
      ensures id == -EINVAL <==> value == [] || component < -1 || !ValidId(refId)
      ensures if id > 0
        then id == old(|Types()|) &&
          Grown(old(Types()), Types(), strs, value, KIND_DECL_TAG, 0, false, refId, [component % 0x1_0000_0000])
        else (id == -EINVAL || id == -ENOMEM) && Types() == old(Types())
    {
      if value == [] || component < -1 || !ValidId(refId) {
        return -EINVAL;
      }
      InfoSays(KIND_DECL_TAG, 0, false);
      id := AddRecord(value, KIND_DECL_TAG, 0, false, refId, [component % 0x1_0000_0000]);
    }

    /** The kind of the last type, if there is one. */
    ghost function LastKind(): nat
      reads this
    {
      var t := Types()[|offs|];
      if |offs| == 0 || |t| < 3 then KIND_UNKN else Kind(t)
    }

    /** What adding a named entry to the last type has done. */
    ghost predicate AddedEntry(g0: TypeGraph, name: seq<nat>, rest: seq<nat>, setFlag: bool)
      reads this
    {
      var t := Types0(g0);
      |t| >= 3 &&
      if Vlen(t) < 0xffff
      then Valid() && exists off :: Named(strs, off, name) && Extended(g0, Types(), [off] + rest, setFlag || KFlag(t))
      else !Tiles(words, offs)
    }
  }

  ghost function Types0(g: TypeGraph): Words { if g == [] then VOID else g[|g| - 1] }

  ghost predicate Named(strs: seq<nat>, off: nat, name: seq<nat>) {
    off < |strs| && TextAt(strs, off) == name
  }

  datatype FwdDecl = FWD_STRUCT | FWD_UNION | FWD_ENUM

  /** validate_type_id */
  predicate ValidId(id: int) { 0 <= id <= BTF_MAX_NR_TYPES }

  predicate PowerOf2To16(n: nat) { n == 1 || n == 2 || n == 4 || n == 8 || n == 16 }

  predicate IsBitField(bitOffset: nat, bitSize: nat) { bitSize != 0 || bitOffset % 8 != 0 }

  /** The info word of the last record, found through the index. */
  lemma LastIs(d: seq<nat>, o: seq<nat>)
    requires Tiles(d, o)
    ensures |o| > 0 ==> o[|o| - 1] + 1 < |d| && |TypesOf(d, o)[|o|]| >= 3 && TypesOf(d, o)[|o|][1] == d[o[|o| - 1] + 1]
  {
    if |o| > 0 { LastRecord(d, o); }
  }

  /** The info word of one more entry. */
  function MoreInfo(info: nat, setFlag: bool): nat {
    Info(KindOf(info), VlenOf(info) + 1, setFlag || info / 0x80000000 % 2 == 1)
  }

  lemma EntryAdded(d: seq<nat>, o: seq<nat>, entry: seq<nat>, setFlag: bool)
    requires Tiles(d, o) && |o| > 0 && AreWords(d) && AreWords(entry)
    requires |TypesOf(d, o)[|o|]| >= 3 && EntrySize(Kind(TypesOf(d, o)[|o|])) == |entry| > 0
    ensures o[|o| - 1] + 1 < |d|
    ensures var x := o[|o| - 1] + 1;
      var d' := d[x := MoreInfo(d[x], setFlag)] + entry;
      var t := TypesOf(d, o)[|o|];
      && AreWords(d')
      && if Vlen(t) < 0xffff then Tiles(d', o) && Extended(TypesOf(d, o), TypesOf(d', o), entry, setFlag || KFlag(t))
         else !Tiles(d', o)
  {
    hide SizeOf, Info, KindOf, VlenOf, Tiles, EntrySize;
    LastRecord(d, o);
    var at, t := o[|o| - 1], TypesOf(d, o)[|o|];
    var info := MoreInfo(d[at + 1], setFlag);
    var u := [t[0], info, t[2]] + t[3..] + entry;
    assert d[at + 1 := info] + entry == d[..at] + u;
    InfoRange(d[at + 1]);
    InfoSays(KindOf(d[at + 1]), VlenOf(d[at + 1]) + 1, setFlag || KFlag(t));
    OneMore(t, entry, setFlag || KFlag(t));
    LastGrows(d, o, u);
  }

  lemma InfoRange(info: nat)
    ensures KindOf(info) < 32 && VlenOf(info) < 0x1_0000
  {
  }

  lemma LastRecord(d: seq<nat>, o: seq<nat>)
    requires Tiles(d, o) && |o| > 0
    ensures var at, t := o[|o| - 1], TypesOf(d, o)[|o|];
      at + 1 < |d| && t == d[at..] && WellSized(t)
  {
    assert RecordFits(d, o, |o| - 1);
    TypesWellSized(d, o);
  }
}
