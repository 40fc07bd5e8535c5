/** The index from the addresses of translated functions to line records: one pass
    splits the records among the functions, and lookups search one function's run. */
module LineInfo {

  const TWO64 := 0x1_0000_0000_0000_0000
  const TWO32 := 0x1_0000_0000

  predicate Below(s: seq<nat>, bound: nat) {
    forall k :: 0 <= k < |s| ==> s[k] < bound
  }

  predicate Increasing(s: seq<nat>, from: nat, to: nat)
    requires to <= |s|
  {
    forall j, k :: from <= j < k < to ==> s[j] < s[k]
  }

  /** The check of a function's length, in 64-bit arithmetic. */
  predicate TooLong(last: nat, start: nat, len: nat) {
    (last - start + 1) % TWO64 > len
  }

  // ------------------------------------------------------------ the partition

  /** Records `a` up to `b` are those of function `f`, another function following:
      they rise, none of them starts the next function, and they do not look too long. */
  ghost predicate Run(jited: seq<nat>, ksyms: seq<nat>, lens: seq<nat>, f: nat, a: nat, b: nat)
    requires f + 1 < |ksyms| == |lens|
  {
    && a < b <= |jited| && Increasing(jited, a, b) && !TooLong(jited[b - 1], ksyms[f], lens[f])
    && forall k :: a < k < b ==> jited[k] != ksyms[f + 1]
  }

  /** The first records of the first functions. */
  ghost predicate Starts(jited: seq<nat>, ksyms: seq<nat>, lens: seq<nat>, idx: seq<nat>) {
    && 0 < |idx| <= |ksyms| == |lens| && idx[0] == 0
    && (forall f :: 0 <= f < |idx| ==> idx[f] < |jited| && jited[idx[f]] == ksyms[f])
    && forall f :: 0 < f < |idx| ==> Run(jited, ksyms, lens, f - 1, idx[f - 1], idx[f])
  }

  ghost predicate Dissected(jited: seq<nat>, ksyms: seq<nat>, lens: seq<nat>, idx: seq<nat>) {
    |idx| == |ksyms| && Starts(jited, ksyms, lens, idx)
  }

  /** One past the last record of a function. */
  function End(idx: seq<nat>, n: nat, f: nat): nat
    requires f < |idx|
  {
    if f + 1 < |idx| then idx[f + 1] else n
  }

  ghost predicate Counts(idx: seq<nat>, counts: seq<nat>, n: nat) {
    |counts| == |idx| && forall f :: 0 <= f < |idx| ==> counts[f] + idx[f] == End(idx, n, f)
  }

  function Sum(s: seq<nat>): nat {
    if s == [] then 0 else Sum(s[..|s| - 1]) + s[|s| - 1]
  }

  /** Function starts strictly increase from 0. */
  lemma {:induction false} StartsIncrease(jited: seq<nat>, ksyms: seq<nat>, lens: seq<nat>, idx: seq<nat>, f: nat, g: nat)
    requires Starts(jited, ksyms, lens, idx) && f < g < |idx|
    ensures idx[0] == 0 && idx[f] < idx[g]
    decreases g
  {
    assert Run(jited, ksyms, lens, g - 1, idx[g - 1], idx[g]);
    if f < g - 1 { StartsIncrease(jited, ksyms, lens, idx, f, g - 1); }
  }

  /** Every count is positive, and together they cover all records. */
  lemma CountsCover(jited: seq<nat>, ksyms: seq<nat>, lens: seq<nat>, idx: seq<nat>, counts: seq<nat>)
    requires Dissected(jited, ksyms, lens, idx) && Counts(idx, counts, |jited|)
    ensures (forall f :: 0 <= f < |counts| ==> counts[f] > 0) && Sum(counts) == |jited|
  {
    forall f | 0 <= f < |counts| ensures counts[f] > 0 {
      if f + 1 < |idx| { StartsIncrease(jited, ksyms, lens, idx, f, f + 1); }
    }
    SumTo(idx, counts, |jited|, |idx|);
    assert counts[..|idx|] == counts;
  }

  lemma {:induction false} SumTo(idx: seq<nat>, counts: seq<nat>, n: nat, f: nat)
    requires 0 < |idx| && idx[0] == 0 && Counts(idx, counts, n) && f <= |idx|
    ensures Sum(counts[..f]) == if f < |idx| then idx[f] else n
    decreases f
  {
    if f > 0 {
      SumTo(idx, counts, n, f - 1);
      assert counts[..f][..f - 1] == counts[..f - 1];
    }
  }

  /** Each record belongs to exactly one function. */
  lemma {:induction false} OneOwner(jited: seq<nat>, ksyms: seq<nat>, lens: seq<nat>, idx: seq<nat>, r: nat) returns (f: nat)
    requires Dissected(jited, ksyms, lens, idx) && r < |jited|
    ensures f < |idx| && idx[f] <= r < End(idx, |jited|, f)
    ensures forall g :: 0 <= g < |idx| && idx[g] <= r < End(idx, |jited|, g) ==> g == f
  {
    f := 0;
    while f + 1 < |idx| && idx[f + 1] <= r
      invariant f < |idx| && idx[f] <= r
    {
      f := f + 1;
    }
    forall g | 0 <= g < |idx| && idx[g] <= r < End(idx, |jited|, g) ensures g == f {
      if f + 1 < g { StartsIncrease(jited, ksyms, lens, idx, f + 1, g); }
      if g + 1 < f { StartsIncrease(jited, ksyms, lens, idx, g + 1, f); }
    }
  }

  /** The addresses of a function that another one follows start at the function's own
      and lie within its length, unless they span the whole address space, where the
      64-bit check wraps around. */
  lemma WithinLength(jited: seq<nat>, ksyms: seq<nat>, lens: seq<nat>, idx: seq<nat>, f: nat)
    requires Dissected(jited, ksyms, lens, idx) && f + 1 < |idx|
    requires Below(jited, TWO64) && Below(lens, TWO32)
    ensures forall k :: idx[f] <= k < idx[f + 1] ==> ksyms[f] <= jited[k]
    ensures (forall k :: idx[f] <= k < idx[f + 1] ==> jited[k] - ksyms[f] < lens[f]) <==>
              !(ksyms[f] == 0 && jited[idx[f + 1] - 1] == TWO64 - 1)
  {
    var a, b := idx[f], idx[f + 1];
    assert Run(jited, ksyms, lens, f, a, b) by {
      assert Run(jited, ksyms, lens, f + 1 - 1, idx[f + 1 - 1], idx[f + 1]);
    }
    assert jited[a] == ksyms[f];
    assert forall k :: a <= k < b ==> jited[a] <= jited[k] <= jited[b - 1];
    var span := jited[b - 1] - ksyms[f] + 1;
    assert 0 < span <= TWO64 && (span < TWO64 ==> span % TWO64 == span);
  }

  /** The input for which the length check wraps around: the first function has one
      byte, and a record at the very end of the address space. */
  lemma WrapsAround()
    ensures Dissected([0, TWO64 - 1, 5], [0, 5], [1, 1], [0, 2])
  {
    var jited, ksyms, lens, idx := [0, TWO64 - 1, 5], [0, 5], [1, 1], [0, 2];
    assert Run(jited, ksyms, lens, 0, 0, 2);
  }

  // ----------------------------------------------------- the search for the starts

  /** Every partition begins with the starts found so far, the next one not before `i`. */
  ghost predicate Forced(jited: seq<nat>, ksyms: seq<nat>, lens: seq<nat>, found: seq<nat>, i: nat) {
    forall idx :: Dissected(jited, ksyms, lens, idx) ==>
      |found| <= |idx| && found == idx[..|found|] && (|found| < |idx| ==> idx[|found|] >= i)
  }

  /** The state of the search before record `i`. */
  ghost predicate Scanned(jited: seq<nat>, ksyms: seq<nat>, lens: seq<nat>, found: seq<nat>, i: nat) {
    && Starts(jited, ksyms, lens, found) && Forced(jited, ksyms, lens, found, i)
    && found[|found| - 1] < i <= |jited|
    && (|found| < |ksyms| ==>
          && Increasing(jited, found[|found| - 1], i)
          && forall k :: found[|found| - 1] < k < i ==> jited[k] != ksyms[|found|])
  }

  lemma FirstScanned(jited: seq<nat>, ksyms: seq<nat>, lens: seq<nat>)
    requires |jited| > 0 && 0 < |ksyms| == |lens|
    ensures if jited[0] == ksyms[0] then Scanned(jited, ksyms, lens, [0], 1) else forall idx :: !Dissected(jited, ksyms, lens, idx)
  {
    forall idx | Dissected(jited, ksyms, lens, idx) ensures 1 <= |idx| && [0] == idx[..1] && (1 < |idx| ==> idx[1] >= 1) {
      if 1 < |idx| { StartsIncrease(jited, ksyms, lens, idx, 0, 1); }
    }
  }

  /** What record `i` tells of a partition that begins with the starts found. */
  lemma StepAt(jited: seq<nat>, ksyms: seq<nat>, lens: seq<nat>, found: seq<nat>, i: nat, idx: seq<nat>)
    requires Scanned(jited, ksyms, lens, found, i) && |found| < |ksyms| && i < |jited|
    requires Dissected(jited, ksyms, lens, idx)
    ensures found == idx[..|found|] && idx[|found|] >= i
    ensures if jited[i] == ksyms[|found|]
            then idx[|found|] == i && !TooLong(jited[i - 1], ksyms[|found| - 1], lens[|found| - 1])
            else idx[|found|] > i && jited[i - 1] < jited[i]
  {
    hide TooLong;
    var f := |found|;
    assert Run(jited, ksyms, lens, f - 1, idx[f - 1], idx[f]);
    assert idx[..f][f - 1] == idx[f - 1];
  }

  lemma NextForced(jited: seq<nat>, ksyms: seq<nat>, lens: seq<nat>, found: seq<nat>, i: nat)
    requires Scanned(jited, ksyms, lens, found, i) && |found| < |ksyms| && i < |jited|
    ensures jited[i] == ksyms[|found|] ==> Forced(jited, ksyms, lens, found + [i], i + 1)
    ensures jited[i] != ksyms[|found|] ==> Forced(jited, ksyms, lens, found, i + 1)
  {
    hide Scanned, Starts, TooLong;
    var f := |found|;
    forall idx | Dissected(jited, ksyms, lens, idx)
      ensures found == idx[..f]
      ensures jited[i] == ksyms[f] ==> found + [i] == idx[..f + 1] && (f + 1 < |idx| ==> idx[f + 1] > i)
      ensures jited[i] != ksyms[f] ==> idx[f] > i
    {
      StepAt(jited, ksyms, lens, found, i, idx);
      if f + 1 < |idx| { StartsIncrease(jited, ksyms, lens, idx, f, f + 1); }
    }
  }

  /** What one step finds out: the next function must start here, or not here, or
      there is no partition at all. */
  lemma StepScanned(jited: seq<nat>, ksyms: seq<nat>, lens: seq<nat>, found: seq<nat>, i: nat)
    requires Scanned(jited, ksyms, lens, found, i) && |found| < |ksyms| && i < |jited|
    ensures if jited[i] == ksyms[|found|] && !TooLong(jited[i - 1], ksyms[|found| - 1], lens[|found| - 1])
              then Scanned(jited, ksyms, lens, found + [i], i + 1)
            else if jited[i] != ksyms[|found|] && jited[i - 1] < jited[i] then Scanned(jited, ksyms, lens, found, i + 1)
            else forall idx :: !Dissected(jited, ksyms, lens, idx)
  {
    hide Forced, TooLong;
    NextForced(jited, ksyms, lens, found, i);
    if jited[i] == ksyms[|found|] && !TooLong(jited[i - 1], ksyms[|found| - 1], lens[|found| - 1]) {
      StartsMore(jited, ksyms, lens, found, i);
    } else if jited[i] == ksyms[|found|] || jited[i] <= jited[i - 1] {
      forall idx ensures !Dissected(jited, ksyms, lens, idx) {
        if Dissected(jited, ksyms, lens, idx) { StepAt(jited, ksyms, lens, found, i, idx); }
      }
    }
  }

  lemma StartsMore(jited: seq<nat>, ksyms: seq<nat>, lens: seq<nat>, found: seq<nat>, i: nat)
    requires Starts(jited, ksyms, lens, found) && |found| < |ksyms| && i < |jited|
    requires Run(jited, ksyms, lens, |found| - 1, found[|found| - 1], i) && jited[i] == ksyms[|found|]
    ensures Starts(jited, ksyms, lens, found + [i])
  {
    hide Run;
  }

  /** The search ends with the only partition, or there is none. */
  lemma ScanEnds(jited: seq<nat>, ksyms: seq<nat>, lens: seq<nat>, found: seq<nat>, i: nat)
    requires Scanned(jited, ksyms, lens, found, i) && (|found| == |ksyms| || i == |jited|)
    ensures if |found| == |ksyms| then Dissected(jited, ksyms, lens, found) else forall idx :: !Dissected(jited, ksyms, lens, idx)
  {
  }

  // -------------------------------------------------------------------- the index

  datatype Lookup = Found(record: nat) | ENOENT

  /** Record `r` is the last of those from `from` on that come before the first one
      above `x`. */
  predicate LastBefore(keys: seq<nat>, from: nat, to: nat, x: nat, r: nat) {
    && from <= r < to <= |keys|
    && (forall k :: from <= k <= r ==> keys[k] <= x)
    && (r + 1 < to ==> x < keys[r + 1])
  }

  /** On an increasing run that is the record of the greatest key not above `x`. */
  lemma Greatest(keys: seq<nat>, from: nat, to: nat, x: nat, r: nat)
    requires LastBefore(keys, from, to, x, r) && Increasing(keys, from, to)
    ensures forall k :: from <= k < to ==> (keys[k] <= x <==> k <= r) && (keys[k] <= x ==> keys[k] <= keys[r])
  {
  }

  /** The fields of bpf_prog_info that are used; a record is named by its number, and
      of it only the instruction offset or the address matters. */
  datatype ProgInfo = ProgInfo(insnOffs: seq<nat>, recSize: nat, jited: seq<nat>, jitedRecSize: nat,
                               ksyms: seq<nat>, lens: seq<nat>, hasJited: bool, hasKsyms: bool, hasLens: bool)

  /** The offset of file_name_off in a line record, and the size of an address. */
  const FILE_NAME_OFF := 4
  const ADDR_SIZE := 8

  predicate HasJitedInfo(info: ProgInfo) {
    && |info.ksyms| > 0 && info.hasJited && |info.jited| == |info.insnOffs| && info.jitedRecSize >= ADDR_SIZE
    && |info.lens| == |info.ksyms| && info.hasKsyms && info.hasLens
  }

  class ProgLineInfo {
    var insnOffs: seq<nat>      // raw_linfo
    var jited: seq<nat>         // raw_jited_linfo
    var perFunc: array<nat>     // nr_jited_linfo_per_func
    var funcIdx: array<nat>     // jited_linfo_func_idx
    var nrJited: nat            // nr_jited_func

    constructor (insnOffs: seq<nat>, jited: seq<nat>, nrJited: nat)
      ensures this.insnOffs == insnOffs && this.jited == jited && this.nrJited == nrJited
      ensures fresh(perFunc) && fresh(funcIdx) && perFunc != funcIdx && perFunc.Length == funcIdx.Length == nrJited
    {
      this.insnOffs, this.jited, this.nrJited := insnOffs, jited, nrJited;
      perFunc, funcIdx := new nat[nrJited], new nat[nrJited];
    }

    /** The function index is right, if there is one. */
    ghost predicate Indexed(ksyms: seq<nat>, lens: seq<nat>)
      reads this, perFunc, funcIdx
    {
      && perFunc.Length == funcIdx.Length == nrJited
      && (nrJited > 0 ==>
            && |jited| == |insnOffs|
            && Dissected(jited, ksyms, lens, funcIdx[..]) && Counts(funcIdx[..], perFunc[..], |jited|))
    }

    /** dissect_jited_func: succeeds exactly if the records can be split among the
        functions, which they can in one way only. */
    method Dissect(ksyms: seq<nat>, lens: seq<nat>) returns (ok: bool)
      requires 0 < |ksyms| == |lens| == nrJited && perFunc.Length == funcIdx.Length == nrJited && perFunc != funcIdx
      requires 0 < |jited| == |insnOffs|
      modifies perFunc, funcIdx
      ensures ok <==> exists idx :: Dissected(jited, ksyms, lens, idx)
      ensures ok ==> Indexed(ksyms, lens)
    {
      hide Scanned, TooLong, Dissected;
      FirstScanned(jited, ksyms, lens);
      if ksyms[0] != jited[0] {
        return false;
      }
      funcIdx[0] := 0;
      var prev, i, f := 0, 1, 1;
      ghost var found := [0];
      while i < |jited| && f < nrJited
        invariant 1 <= f <= nrJited && prev < i <= |jited| && |found| == f && found[f - 1] == prev
        invariant forall k :: 0 <= k < f ==> funcIdx[k] == found[k]
        invariant Scanned(jited, ksyms, lens, found, i)
        invariant forall k :: 0 <= k < f - 1 ==> perFunc[k] + found[k] == found[k + 1]
      {
        StepScanned(jited, ksyms, lens, found, i);
        var last := jited[i - 1];
        if ksyms[f] == jited[i] {
          funcIdx[f] := i;
          if TooLong(last, ksyms[f - 1], lens[f - 1]) {
            return false;
          }
          found := found + [i];
          perFunc[f - 1] := i - prev;
          prev := i;
          f := f + 1;
        } else if jited[i] <= last {
          return false;
        }
        i := i + 1;
      }
      ScanEnds(jited, ksyms, lens, found, i);
      if f != nrJited {
        return false;
      }
      perFunc[nrJited - 1] := |jited| - prev;
      assert found == funcIdx[..];
      return true;
    }

    /** bpf_prog_linfo__lfind_addr_func: after skipping, the last record of the function
        before the first one above the address.  For every function but the last, whose
        records are known to rise, this is the greatest address not above the query. */
    method LfindAddrFunc(addr: nat, funcIndex: nat, nrSkip: nat, ghost ksyms: seq<nat>, ghost lens: seq<nat>) returns (r: Lookup)
      requires Indexed(ksyms, lens)
      ensures r.ENOENT? <==>
        funcIndex >= nrJited || nrSkip >= perFunc[funcIndex] || addr < jited[funcIdx[funcIndex] + nrSkip]
      ensures r.Found? ==>
        var from, to := funcIdx[funcIndex] + nrSkip, End(funcIdx[..], |jited|, funcIndex);
        && LastBefore(jited, from, to, addr, r.record) && r.record < |insnOffs|
        && (funcIndex + 1 < nrJited ==> forall k :: from <= k < to ==> (jited[k] <= addr <==> k <= r.record))
    {
      hide Run, Starts;
      if funcIndex >= nrJited {
        return ENOENT;
      }
      var count := perFunc[funcIndex];
      if nrSkip >= count {
        return ENOENT;
      }
      ghost var to := End(funcIdx[..], |jited|, funcIndex);
      RunInside(jited, ksyms, lens, funcIdx[..], funcIndex);
      var start := funcIdx[funcIndex] + nrSkip;
      if addr < jited[start] {
        return ENOENT;
      }
      count := count - nrSkip;
      var i := 0;
      while i < count
        invariant 0 <= i <= count && forall k :: start <= k < start + i ==> jited[k] <= addr
      {
        if addr < jited[start + i] {
          break;
        }
        i := i + 1;
      }
      r := Found(start + i - 1);
      assert LastBefore(jited, start, to, addr, r.record);
      if funcIndex + 1 < nrJited {
        Greatest(jited, start, to, addr, r.record);
      }
    }

    /** bpf_prog_linfo__lfind: the same over the instruction offsets of all records. */
    method Lfind(insnOff: nat, nrSkip: nat) returns (r: Lookup)
      ensures r.ENOENT? <==> nrSkip >= |insnOffs| || insnOff < insnOffs[nrSkip]
      ensures r.Found? ==> LastBefore(insnOffs, nrSkip, |insnOffs|, insnOff, r.record)
      ensures r.Found? && Increasing(insnOffs, nrSkip, |insnOffs|) ==>
        forall k :: nrSkip <= k < |insnOffs| ==> (insnOffs[k] <= insnOff <==> k <= r.record)
    {
      if nrSkip >= |insnOffs| || insnOff < insnOffs[nrSkip] {
        return ENOENT;
      }
      var count := |insnOffs| - nrSkip;
      var i := 0;
      while i < count
        invariant 0 <= i <= count && forall k :: nrSkip <= k < nrSkip + i ==> insnOffs[k] <= insnOff
      {
        if insnOff < insnOffs[nrSkip + i] {
          break;
        }
        i := i + 1;
      }
      r := Found(nrSkip + i - 1);
    }
  }

  /** bpf_prog_linfo__new: null stands for -EINVAL. */
  method New(info: ProgInfo) returns (p: ProgLineInfo?)
    ensures p == null <==>
      || info.insnOffs == [] || info.recSize < FILE_NAME_OFF
      || (HasJitedInfo(info) && !exists idx :: Dissected(info.jited, info.ksyms, info.lens, idx))
    ensures p != null ==>
      && fresh(p) && p.insnOffs == info.insnOffs && p.Indexed(info.ksyms, info.lens)
      && p.nrJited == (if HasJitedInfo(info) then |info.ksyms| else 0)
  {
    if info.insnOffs == [] || info.recSize < FILE_NAME_OFF {
      return null;
    }
    if !HasJitedInfo(info) {
      p := new ProgLineInfo(info.insnOffs, [], 0);
      return;
    }
    var q := new ProgLineInfo(info.insnOffs, info.jited, |info.ksyms|);
    var ok := q.Dissect(info.ksyms, info.lens);
    return if ok then q else null;
  }

  lemma RunInside(jited: seq<nat>, ksyms: seq<nat>, lens: seq<nat>, idx: seq<nat>, f: nat)
    requires Dissected(jited, ksyms, lens, idx) && f < |idx|
    ensures idx[f] < End(idx, |jited|, f) <= |jited|
    ensures f + 1 < |idx| ==> Increasing(jited, idx[f], idx[f + 1])
  {
    if f + 1 < |idx| {
      assert Run(jited, ksyms, lens, f + 1 - 1, idx[f + 1 - 1], idx[f + 1]);
    }
  }
}
