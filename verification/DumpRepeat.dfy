/** Types for which the traversal queues an ID twice:

        typedef void T(struct S);   struct S { T *p; };

    T is met again, through the pointer, while S is being ordered for it.  The result
    type makes the link a strong one, so T is queued there, before S, and again when
    its own visit ends.  Printing skips the second.  With the struct as the result,

        typedef struct S T(void);   struct S { T *p; };

    T leads back to itself as well, but the link is weak, and T is queued once. */
module DumpRepeat {
  import opened BtfWords
  import opened DumpOrder

  const TYPEDEF_T: Words := [1, KIND_TYPEDEF * 0x1000000, 2]
  const PROTO: Words := [0, KIND_FUNC_PROTO * 0x1000000 + 1, 0, 0, 3]
  const STRUCT_S: Words := [3, KIND_STRUCT * 0x1000000 + 1, 8, 5, 4, 0]
  const PTR_T: Words := [0, KIND_PTR * 0x1000000, 1]

  const PROTO_RESULT: Words := [0, KIND_FUNC_PROTO * 0x1000000, 3]

  const TYPES: TypeGraph := [VOID, TYPEDEF_T, PROTO, STRUCT_S, PTR_T]

  ghost const GIVEN: Ctx := Ctx(TYPES, [true, true, true, true, true], [0, 2, 1, 0, 3])

  const TYPES_RESULT: TypeGraph := [VOID, TYPEDEF_T, PROTO_RESULT, STRUCT_S, PTR_T]

  ghost const GIVEN_RESULT: Ctx := Ctx(TYPES_RESULT, [true, true, true, true, true], [0, 2, 1, 0, 3])

  /** All but the function type is the same. */
  predicate Similar(c: Ctx) {
    |c.g| == 5 == |c.referenced| && c.g[0] == VOID && c.g[1] == TYPEDEF_T && c.g[3] == STRUCT_S && c.g[4] == PTR_T
  }

  lemma Kinds()
    ensures Kind(TYPEDEF_T) == KIND_TYPEDEF && WellSized(TYPEDEF_T)
    ensures Kind(PROTO) == KIND_FUNC_PROTO && WellSized(PROTO) && Vlen(PROTO) == 1
    ensures Kind(STRUCT_S) == KIND_STRUCT && WellSized(STRUCT_S) && Vlen(STRUCT_S) == 1
    ensures Kind(PTR_T) == KIND_PTR && WellSized(PTR_T)
    ensures Kind(PROTO_RESULT) == KIND_FUNC_PROTO && WellSized(PROTO_RESULT) && Vlen(PROTO_RESULT) == 0
    ensures |VOID| == 3 && Kind(VOID) == 0
  {
  }

  /** All that needs something, and what. */
  predicate Link(a: Visit, b: Visit) {
    || (a.id == 1 && b == Visit(2, a.thru))
    || (a.id == 2 && (b == Visit(0, a.thru) || b == Visit(3, a.thru)))
    || (a == Visit(3, false) && b == Visit(4, false))
    || (a.id == 4 && b == Visit(1, true))
  }

  lemma TypesFine()
    ensures WellFormed(TYPES)
  {
    Kinds();
  }

  lemma Links(a: Visit, b: Visit)
    requires WellFormed(TYPES) && Edge(TYPES, a, b)
    ensures Link(a, b)
  {
    Kinds();
  }

  lemma GivenFine()
    ensures CTypes(GIVEN)
  {
    TypesFine();
    Kinds();
    forall a, b | Edge(TYPES, a, b) ensures Link(a, b) { Links(a, b); }
  }

  function Height(v: Visit): nat {
    if v.id == 1 then (if v.thru then 3 else 7)
    else if v.id == 2 then (if v.thru then 2 else 6)
    else if v.id == 3 then (if v.thru then 1 else 5)
    else if v.id == 4 then 4 else 0
  }

  lemma {:induction false} Falls(path: seq<Visit>, j: nat, k: nat)
    requires WellFormed(TYPES) && IsVisitPath(TYPES, path) && j < k < |path|
    ensures Height(path[k]) < Height(path[j])
    decreases k
  {
    hide Edge;
    assert Edge(TYPES, path[k - 1], path[k]);
    Links(path[k - 1], path[k]);
    if j < k - 1 { Falls(path, j, k - 1); }
  }

  lemma NotCircular(a: Visit)
    ensures WellFormed(TYPES) && !Circular(TYPES, a)
  {
    hide Edge;
    TypesFine();
    if Circular(TYPES, a) {
      var path, j :| Lasso(TYPES, a, path, j);
      Falls(path, j, |path| - 1);
    }
  }

  // ------------------------------------------------------------------ what a run does

  lemma PairRun(c: Ctx, o: Order, a: Visit, b: Visit, o': Order, strong: bool) returns (o1: Order, r1: int, r2: int)
    requires RunAll(c, o, [a, b], o', strong)
    ensures Run(c, o, a, o1, r1) && Run(c, o1, b, o', r2) && strong == (r1 > 0 || r2 > 0)
  {
    hide Run;
    var kids := [a, b];
    var s;
    o1, s, r2 :| RunAll(c, o, Front(kids), o1, s) && Run(c, o1, Last(kids), o', r2) && strong == (s || r2 > 0);
    assert Front(kids) == [a];
    r1 := SingleRun(c, o, a, o1, s);
  }

  lemma SingleRun(c: Ctx, o: Order, a: Visit, o': Order, strong: bool) returns (r: int)
    requires RunAll(c, o, [a], o', strong)
    ensures Run(c, o, a, o', r) && strong == (r > 0)
  {
    hide Run;
    var o1, s;
    o1, s, r :| RunAll(c, o, Front([a]), o1, s) && Run(c, o1, Last([a]), o', r) && strong == (s || r > 0);
    assert Front([a]) == [];
  }

  lemma ProtoRun(o: Order, thru: bool, o': Order, r: int) returns (o1: Order, r2: int)
    requires |o.states| == 5 && o.states[0] == Ordered && o.states[2] == NotOrdered
    requires Run(GIVEN, o, Visit(2, thru), o', r)
    ensures Run(GIVEN, o, Visit(3, thru), o1, r2) && r == 1 && |o1.states| > 2 && o' == After(o1, 2, false, false, false)
  {
    hide After;
    Kinds();
    var strong;
    o1, strong :| RunAll(GIVEN, o, Kids(PROTO, thru), o1, strong) && r == (if strong then 1 else 0) &&
      2 < |o1.states| && o' == After(o1, 2, false, false, false);
    KidsAre(PROTO, thru, 0);
    assert Kids(PROTO, thru) == [Visit(0, thru), Visit(3, thru)];
    var o0, r1;
    o0, r1, r2 := PairRun(GIVEN, o, Visit(0, thru), Visit(3, thru), o1, strong);
    VoidRun(o, thru, o0, r1);
  }

  lemma VoidRun(o: Order, thru: bool, o': Order, r: int)
    requires |o.states| == 5 && o.states[0] == Ordered && Run(GIVEN, o, Visit(0, thru), o', r)
    ensures o' == o && r == 1
  {
  }

  lemma TypedefRun(c: Ctx, o: Order, thru: bool, o': Order, r: int) returns (o1: Order, r1: int)
    requires Similar(c) && |o.states| == 5 && o.states[1] == NotOrdered && Run(c, o, Visit(1, thru), o', r)
    ensures Run(c, o, Visit(2, thru), o1, r1) && |o1.states| > 1 && NamedAfter(o1, 1, o', !(thru && r1 == 0))
  {
    hide After, NamedAfter;
    Kinds();
    o1, r1 :| Run(c, o, Visit(2, thru), o1, r1) && 1 < |o1.states| && NamedAfter(o1, 1, o', DefinesName(TYPEDEF_T, thru, r1)) &&
      r == if DefinesName(TYPEDEF_T, thru, r1) then 1 else r1;
  }

  lemma StructRun(c: Ctx, o: Order, o': Order, r: int) returns (o1: Order, r1: int)
    requires Similar(c) && |o.states| == 5 && o.states[3] == NotOrdered && Run(c, o, Visit(3, false), o', r)
    ensures Run(c, Entering(o, 3), Visit(4, false), o1, r1) && |o1.states| > 3 && o' == After(o1, 3, true, true, true)
  {
    hide After;
    Kinds();
    var strong;
    o1, strong :| RunAll(c, Entering(o, 3), Kids(STRUCT_S, false), o1, strong) && 3 < |o1.states| &&
      o' == After(o1, 3, true, true, true);
    KidsAre(STRUCT_S, false, 0);
    assert Kids(STRUCT_S, false) == [Visit(4, false)];
    r1 := SingleRun(c, Entering(o, 3), Visit(4, false), o1, strong);
  }

  lemma WeakRun(c: Ctx, o: Order, o': Order, r: int)
    requires Similar(c) && |o.states| == 5 && o.states[3] == Ordering && Run(c, o, Visit(3, true), o', r)
    ensures o' == After(o, 3, false, false, false) && r == 0
  {
    hide After;
    Kinds();
  }

  lemma PtrRun(c: Ctx, o: Order, o': Order, r: int) returns (o1: Order)
    requires Similar(c) && |o.states| == 5 && o.states[4] == NotOrdered && Run(c, o, Visit(4, false), o', r)
    ensures Run(c, o, Visit(1, true), o1, r) && |o1.states| > 4 && o' == After(o1, 4, true, false, true)
  {
    hide After;
    Kinds();
    o1 :| Run(c, o, Visit(1, true), o1, r) && 4 < |o1.states| && o' == After(o1, 4, true, false, true);
  }

  predicate Untouched(o: Order) {
    o.states == [Ordered, NotOrdered, NotOrdered, NotOrdered, NotOrdered]
  }

  /** Under the struct, the name is queued. */
  lemma InnerRun(o: Order, o': Order, r: int)
    requires |o.states| == 5 && o.states[0] == Ordered && o.states[1] == NotOrdered && o.states[2] == NotOrdered
    requires o.states[3] == Ordering && Run(GIVEN, o, Visit(1, true), o', r)
    ensures o'.out == o.out + [1]
  {
    hide Run;
    var o1, r1 := TypedefRun(GIVEN, o, true, o', r);
    var o2, r2 := ProtoRun(o, true, o1, r1);
    WeakRun(GIVEN, o, o2, r2);
  }

  /** The name is queued both before the struct and after it. */
  lemma QueuedTwice(o: Order, o': Order, r: int)
    requires Untouched(o) && Run(GIVEN, o, Visit(1, false), o', r)
    ensures o'.out == o.out + [1, 3, 1]
  {
    hide Run;
    var o1, r1 := TypedefRun(GIVEN, o, false, o', r);
    var o2, r2 := ProtoRun(o, false, o1, r1);
    var o3, r3 := StructRun(GIVEN, o, o2, r2);
    var o4 := PtrRun(GIVEN, Entering(o, 3), o3, r3);
    InnerRun(Entering(o, 3), o4, r3);
  }

  /** What a new dumper queues for the name. */
  method TypedefTwice() returns (d: Dumper)
    ensures d.queue == [1, 3, 1]
  {
    hide Run, CTypes, Inv, Circular, Topological, Defines, Wanted, NoTwice, IsFunction, Needs;
    GivenFine();
    d := new Dumper(TYPES, [true, true, true, true, true], [0, 2, 1, 0, 3]);
    ghost var o := d.State();
    NotCircular(Visit(1, false));
    var err := DumpType(d, 1);
    ghost var r :| Run(d.Given(), o, Visit(1, false), d.State(), r);
    QueuedTwice(o, d.State(), r);
    assert d.State().out == [1, 3, 1] && d.State().out == d.queue;
  }

  lemma ResultRun(o: Order, thru: bool, o': Order, r: int) returns (o1: Order, r1: int)
    requires |o.states| == 5 && o.states[2] == NotOrdered && Run(GIVEN_RESULT, o, Visit(2, thru), o', r)
    ensures Run(GIVEN_RESULT, o, Visit(3, thru), o1, r1) && r == (if r1 > 0 then 1 else 0)
    ensures |o1.states| > 2 && o' == After(o1, 2, false, false, false)
  {
    hide After;
    Kinds();
    var strong;
    o1, strong :| RunAll(GIVEN_RESULT, o, Kids(PROTO_RESULT, thru), o1, strong) && r == (if strong then 1 else 0) &&
      2 < |o1.states| && o' == After(o1, 2, false, false, false);
    KidsAre(PROTO_RESULT, thru, 0);
    assert Kids(PROTO_RESULT, thru) == [Visit(3, thru)];
    r1 := SingleRun(GIVEN_RESULT, o, Visit(3, thru), o1, strong);
  }

  /** With the struct as the result: queued once, though the name leads back to itself. */
  lemma QueuedOnce(o: Order, o': Order, r: int)
    requires Untouched(o) && Run(GIVEN_RESULT, o, Visit(1, false), o', r)
    ensures o'.out == o.out + [3, 1]
    ensures WellFormed(TYPES_RESULT) && Needs(TYPES_RESULT, Visit(1, false), Visit(1, true), BackToName())
  {
    hide Run;
    LeadsBack();
    var o1, r1 := TypedefRun(GIVEN_RESULT, o, false, o', r);
    var o2, r2 := ResultRun(o, false, o1, r1);
    var o3, r3 := StructRun(GIVEN_RESULT, o, o2, r2);
    var o4 := PtrRun(GIVEN_RESULT, Entering(o, 3), o3, r3);
    InnerWeak(Entering(o, 3), o4, r3);
  }

  lemma InnerWeak(o: Order, o': Order, r: int)
    requires |o.states| == 5 && o.states[0] == Ordered && o.states[1] == NotOrdered && o.states[2] == NotOrdered
    requires o.states[3] == Ordering && Run(GIVEN_RESULT, o, Visit(1, true), o', r)
    ensures o'.out == o.out
  {
    hide Run;
    var o1, r1 := TypedefRun(GIVEN_RESULT, o, true, o', r);
    var o2, r2 := ResultRun(o, true, o1, r1);
    WeakRun(GIVEN_RESULT, o, o2, r2);
  }

  function BackToName(): seq<Visit> { [Visit(1, false), Visit(2, false), Visit(3, false), Visit(4, false), Visit(1, true)] }

  lemma LeadsBack()
    ensures WellFormed(TYPES_RESULT) && Needs(TYPES_RESULT, Visit(1, false), Visit(1, true), BackToName())
  {
    Kinds();
    var g, path := TYPES_RESULT, BackToName();
    assert IsRef(g[1], 2) && IsRef(g[2], 2) && IsRef(g[3], 4) && IsRef(g[4], 2);
    forall k | 0 <= k < |path| - 1 ensures Edge(g, path[k], path[k + 1]) {}
  }
}
