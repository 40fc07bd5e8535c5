/** The canonical-type map: an array of type IDs in which every chain of links
    ends, so that following it terminates at a root. */
module IdMaps {
  import opened BtfWords

  /** A partial map between IDs.  An entry above BTF_MAX_NR_TYPES records no link. */
  type IdMap = seq<nat>

  const BTF_UNPROCESSED_ID: nat := 0xffffffff
  const BTF_IN_PROGRESS_ID: nat := 0xfffffffe

  predicate Mapped(e: nat) { e <= BTF_MAX_NR_TYPES }

  predicate InRange(m: IdMap, n: nat) {
    |m| == n && forall i :: 0 <= i < n && Mapped(m[i]) ==> m[i] < n
  }

  /** `b` records every pair that `a` records. */
  predicate Extends(a: IdMap, b: IdMap) {
    |a| == |b| && forall c :: 0 <= c < |a| && Mapped(a[c]) ==> b[c] == a[c]
  }

  /** Following the links stops here. */
  predicate IsRoot(m: IdMap, i: nat)
    requires i < |m|
  {
    !Mapped(m[i]) || m[i] == i
  }

  /** The chain of links from `i` reaches a root in at most `n` steps. */
  ghost predicate Ends(m: IdMap, i: nat, n: nat)
    requires InRange(m, |m|) && i < |m|
    decreases n
  {
    IsRoot(m, i) || (n > 0 && Ends(m, m[i], n - 1))
  }

  ghost predicate Bounded(m: IdMap, n: nat)
    requires InRange(m, |m|)
  {
    forall i :: 0 <= i < |m| ==> Ends(m, i, n)
  }

  /** No chain of links runs into a cycle. */
  ghost predicate Forest(m: IdMap) {
    InRange(m, |m|) && exists n: nat :: Bounded(m, n)
  }

  ghost function RootWithin(m: IdMap, i: nat, n: nat): (r: nat)
    requires InRange(m, |m|) && i < |m| && Ends(m, i, n)
    ensures r < |m| && IsRoot(m, r)
    decreases n
  {
    if IsRoot(m, i) then i else RootWithin(m, m[i], n - 1)
  }

  ghost function Height(m: IdMap): (n: nat)
    requires Forest(m)
    ensures Bounded(m, n)
  {
    var n: nat :| Bounded(m, n);
    n
  }

  /** The root that the chain from `i` reaches. */
  ghost function Root(m: IdMap, i: nat): (r: nat)
    requires Forest(m) && i < |m|
    ensures r < |m| && IsRoot(m, r)
  {
    RootWithin(m, i, Height(m))
  }

  lemma {:induction false} FuelIrrelevant(m: IdMap, i: nat, a: nat, b: nat)
    requires InRange(m, |m|) && i < |m| && Ends(m, i, a) && Ends(m, i, b)
    ensures RootWithin(m, i, a) == RootWithin(m, i, b)
    decreases a
  {
    if !IsRoot(m, i) {
      FuelIrrelevant(m, m[i], a - 1, b - 1);
    }
  }

  lemma RootStep(m: IdMap, i: nat)
    requires Forest(m) && i < |m|
    ensures Root(m, i) == if IsRoot(m, i) then i else Root(m, m[i])
  {
    assert Ends(m, i, Height(m));
    if !IsRoot(m, i) {
      FuelIrrelevant(m, m[i], Height(m) - 1, Height(m));
    }
  }

  lemma {:induction false} MoreFuel(m: IdMap, i: nat, a: nat, b: nat)
    requires InRange(m, |m|) && i < |m| && Ends(m, i, a) && a <= b
    ensures Ends(m, i, b)
    decreases a
  {
    if !IsRoot(m, i) {
      MoreFuel(m, m[i], a - 1, b - 1);
    }
  }

  /** Turning any node into a root keeps the forest: marking an ID canonical,
      unprocessed or in progress. */
  lemma MakeRoot(m: IdMap, x: nat, e: nat)
    requires Forest(m) && x < |m| && (e == x || !Mapped(e))
    ensures Forest(m[x := e])
  {
    var n, m' := Height(m), m[x := e];
    forall i | 0 <= i < |m| ensures Ends(m', i, n) { CutAt(m, x, e, i, n); }
    assert Bounded(m', n);
  }

  lemma {:induction false} CutAt(m: IdMap, x: nat, e: nat, i: nat, n: nat)
    requires InRange(m, |m|) && x < |m| && (e == x || !Mapped(e)) && i < |m| && Ends(m, i, n)
    ensures Ends(m[x := e], i, n)
    decreases n
  {
    if i != x && !IsRoot(m, i) {
      CutAt(m, x, e, m[i], n - 1);
    }
  }

  /** The chain from `i` never visits `x`. */
  ghost predicate Avoids(m: IdMap, i: nat, x: nat, n: nat)
    requires InRange(m, |m|) && i < |m| && Ends(m, i, n)
    decreases n
  {
    i != x && (IsRoot(m, i) || Avoids(m, m[i], x, n - 1))
  }

  /** Redirecting `x` to `s` keeps the forest when the chain from `s` avoids `x`. */
  lemma Link(m: IdMap, x: nat, s: nat)
    requires Forest(m) && x < |m| && s < |m| && Mapped(s)
    requires Avoids(m, s, x, Height(m))
    ensures Forest(m[x := s])
  {
    var m' := m[x := s];
    var n := Height(m) + Height(m) + 1;
    forall i | 0 <= i < |m| ensures Ends(m', i, n) { Redirect(m, x, s, i, Height(m)); }
    assert Bounded(m', n);
  }

  lemma {:induction false} AvoidingKept(m: IdMap, x: nat, s: nat, i: nat, n: nat)
    requires InRange(m, |m|) && x < |m| && s < |m| && i < |m| && Ends(m, i, n) && Avoids(m, i, x, n)
    ensures Ends(m[x := s], i, n)
    decreases n
  {
    if !IsRoot(m, i) {
      AvoidingKept(m, x, s, m[i], n - 1);
    }
  }

  lemma {:induction false} Redirect(m: IdMap, x: nat, s: nat, i: nat, k: nat)
    requires Forest(m) && x < |m| && s < |m| && i < |m| && Ends(m, i, k)
    requires Avoids(m, s, x, Height(m))
    ensures Ends(m[x := s], i, k + Height(m) + 1)
    decreases k
  {
    var n, m' := Height(m), m[x := s];
    if i == x {
      AvoidingKept(m, x, s, s, n);
      MoreFuel(m', s, n, k + n);
    } else if !IsRoot(m, i) {
      Redirect(m, x, s, m[i], k - 1);
    }
  }

  /** A root other than `x` may always become the target of `x`. */
  lemma LinkToRoot(m: IdMap, x: nat, s: nat)
    requires Forest(m) && x < |m| && s < |m| && Mapped(s) && IsRoot(m, s) && s != x
    ensures Forest(m[x := s])
  {
    Link(m, x, s);
  }

  /** Linking one root to another moves the roots of just that tree. */
  lemma LinkedRoots(m: IdMap, x: nat, s: nat)
    requires Forest(m) && x < |m| && s < |m| && Mapped(s) && IsRoot(m, x) && IsRoot(m, s) && s != x
    ensures Forest(m[x := s])
    ensures forall i :: 0 <= i < |m| ==> Root(m[x := s], i) == if Root(m, i) == x then s else Root(m, i)
  {
    LinkToRoot(m, x, s);
    forall i | 0 <= i < |m| ensures Root(m[x := s], i) == if Root(m, i) == x then s else Root(m, i) {
      assert Ends(m, i, Height(m));
      LinkedRoot(m, x, s, i, Height(m));
    }
  }

  lemma {:induction false} LinkedRoot(m: IdMap, x: nat, s: nat, i: nat, n: nat)
    requires Forest(m) && x < |m| && s < |m| && Mapped(s) && IsRoot(m, x) && IsRoot(m, s) && s != x
    requires i < |m| && Ends(m, i, n) && Forest(m[x := s])
    ensures Root(m[x := s], i) == if Root(m, i) == x then s else Root(m, i)
    decreases n
  {
    RootStep(m, i);
    RootStep(m[x := s], i);
    if i == x {
      RootStep(m[x := s], s);
    } else if !IsRoot(m, i) {
      LinkedRoot(m, x, s, m[i], n - 1);
    }
  }

  /** A root `x` may be linked below any node of another tree. */
  lemma LinkRoot(m: IdMap, x: nat, s: nat)
    requires Forest(m) && x < |m| && s < |m| && Mapped(s) && IsRoot(m, x) && Root(m, s) != x
    ensures Forest(m[x := s])
  {
    OtherTreeAvoids(m, s, x, Height(m));
    Link(m, x, s);
  }

  lemma {:induction false} OtherTreeAvoids(m: IdMap, i: nat, x: nat, n: nat)
    requires InRange(m, |m|) && i < |m| && x < |m| && Ends(m, i, n)
    requires IsRoot(m, x) && RootWithin(m, i, n) != x
    ensures Avoids(m, i, x, n)
    decreases n
  {
    if !IsRoot(m, i) {
      OtherTreeAvoids(m, m[i], x, n - 1);
    }
  }

  /** If links only lead to mapped IDs then the root of a mapped ID is canonical. */
  lemma {:induction false} MappedRoot(m: IdMap, i: nat, n: nat)
    requires InRange(m, |m|) && i < |m| && Ends(m, i, n) && Mapped(m[i])
    requires forall j :: 0 <= j < |m| && Mapped(m[j]) ==> Mapped(m[m[j]])
    ensures m[RootWithin(m, i, n)] == RootWithin(m, i, n)
    decreases n
  {
    if !IsRoot(m, i) {
      MappedRoot(m, m[i], n - 1);
    }
  }
}
