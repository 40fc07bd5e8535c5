/** btf_dump_order_type: the order in which type definitions must be printed so
    that a C compiler accepts them. */
module DumpOrder {
  import opened BtfWords

  datatype OrderState = NotOrdered | Ordering | Ordered

  /** A type as the traversal meets it: directly, or last through a pointer. */
  datatype Visit = Visit(id: nat, thru: bool)

  /** What the dumper is given: the types, which of them are referenced, and a
      rank that shows that only structs and unions can close a cycle. */
  datatype Ctx = Ctx(g: TypeGraph, referenced: seq<bool>, rank: seq<nat>)

  /** Kinds that stand for the type they refer to. */
  predicate IsQualifier(k: nat) {
    k == KIND_VOLATILE || k == KIND_CONST || k == KIND_RESTRICT || k == KIND_TYPE_TAG
  }

  predicate IsNaming(k: nat) { k == KIND_TYPEDEF || IsQualifier(k) }

  /** Definition of `a` needs what `b` says: `b.thru` tells whether a pointer has
      been passed, in which case a forward declaration of a named struct will do. */
  ghost predicate Edge(g: TypeGraph, a: Visit, b: Visit)
    requires WellFormed(g)
  {
    a.id < |g| && 3 <= |g[a.id]| &&
    var t := g[a.id];
    var k := Kind(t);
    exists p: nat :: IsRef(t, p) && t[p] == b.id &&
      if k == KIND_PTR then b.thru
      else if k == KIND_ARRAY then p == 3 && !b.thru
      else if IsCompositeKind(k) then !(a.thru && t[0] != 0) && !b.thru
      else (IsNaming(k) || k == KIND_FUNC_PROTO) && b.thru == a.thru
  }

  /** Every cycle of references passes through a struct or union. */
  ghost predicate Ranked(c: Ctx) {
    && WellFormed(c.g) && |c.rank| == |c.g| == |c.referenced|
    && forall a, b :: Edge(c.g, a, b) && !IsComposite(c.g[a.id]) ==> c.rank[b.id] < c.rank[a.id]
  }

  lemma NamingEdge(g: TypeGraph, id: nat, thru: bool)
    requires WellFormed(g) && id < |g| && 3 <= |g[id]| && IsNaming(Kind(g[id]))
    ensures g[id][2] < |g| && Edge(g, Visit(id, thru), Visit(g[id][2], thru))
    ensures forall b :: Edge(g, Visit(id, thru), b) <==> b == Visit(g[id][2], thru)
  {
    assert IsRef(g[id], 2);
  }

  /** A function type, perhaps under names and qualifiers. */
  ghost predicate IsFunction(c: Ctx, id: nat)
    requires Ranked(c) && id < |c.g|
    decreases c.rank[id]
  {
    && 3 <= |c.g[id]|
    && (Kind(c.g[id]) == KIND_FUNC_PROTO ||
        (IsNaming(Kind(c.g[id])) && (NamingEdge(c.g, id, false); IsFunction(c, c.g[id][2]))))
  }

  /** The C rules the types obey: references are ranked, and no struct member,
      array element, result or parameter is itself a function. */
  ghost predicate CTypes(c: Ctx) {
    && Ranked(c)
    && forall a, b :: Edge(c.g, a, b) && !b.thru && !IsNaming(Kind(c.g[a.id])) ==> !IsFunction(c, b.id)
  }

  /** The visit queues a definition: a named struct or union unless only pointed
      to, a typedef likewise, and an enum or forward declaration that is named or
      stands alone. */
  predicate Defines(c: Ctx, v: Visit)
    requires |c.referenced| == |c.g|
  {
    v.id < |c.g| && 3 <= |c.g[v.id]| &&
    var t := c.g[v.id];
    if IsComposite(t) then t[0] != 0 && !v.thru
    else if Kind(t) == KIND_TYPEDEF then !v.thru
    else (IsAnyEnum(t) || IsFwd(t)) && (t[0] != 0 || !c.referenced[v.id])
  }

  /** How a definition of `id` is looked at: what a function type mentions need
      not be complete. */
  ghost function Home(c: Ctx, id: nat): Visit
    requires Ranked(c) && id < |c.g|
  {
    Visit(id, IsFunction(c, id))
  }

  ghost predicate IsVisitPath(g: TypeGraph, path: seq<Visit>)
    requires WellFormed(g)
  {
    forall k :: 0 <= k < |path| - 1 ==> Edge(g, path[k], path[k + 1])
  }

  /** `v` is needed, directly or not, by what `a` needs. */
  ghost predicate Needs(g: TypeGraph, a: Visit, v: Visit, path: seq<Visit>)
    requires WellFormed(g)
  {
    |path| >= 2 && path[0] == a && path[|path| - 1] == v && IsVisitPath(g, path)
  }

  /** Something needed by `a` needs itself: no order of definitions exists. */
  ghost predicate Circular(g: TypeGraph, a: Visit)
    requires WellFormed(g)
  {
    exists path, j :: Lasso(g, a, path, j)
  }

  ghost predicate Lasso(g: TypeGraph, a: Visit, path: seq<Visit>, j: nat)
    requires WellFormed(g)
  {
    j < |path| - 1 && path[0] == a && path[j] == path[|path| - 1] && IsVisitPath(g, path)
  }

  // ------------------------------------------------------------------ the state

  /** The state as a value: per-type states, everything queued so far, and the
      order in which visits were settled. */
  datatype Order = Order(states: seq<OrderState>, out: seq<nat>, done: map<Visit, nat>, clock: nat)

  ghost predicate KidsDone(c: Ctx, o: Order, v: Visit)
    requires WellFormed(c.g)
  {
    forall w :: Edge(c.g, v, w) ==> w in o.done
  }

  /** A settled visit: what it needs was settled before it, what it defines is queued. */
  ghost predicate DoneVisit(c: Ctx, o: Order, v: Visit)
    requires Ranked(c)
  {
    && v in o.done && v.id < |c.g| && o.done[v] < o.clock
    && (forall w :: Edge(c.g, v, w) ==> w in o.done && o.done[w] < o.done[v])
    && (Defines(c, v) ==> v.id in o.out)
  }

  /** The type needs no further visit. */
  ghost predicate Settled(c: Ctx, o: Order, id: nat)
    requires Ranked(c) && id < |c.g|
  {
    Visit(id, true) in o.done && (Visit(id, false) in o.done || IsFunction(c, id))
  }

  /** Whatever a queued type needs defined is queued before it. */
  ghost predicate Topological(c: Ctx, out: seq<nat>)
    requires Ranked(c)
  {
    forall k, v, path :: 0 <= k < |out| && out[k] < |c.g| && Needs(c.g, Home(c, out[k]), v, path) && Defines(c, v)
      ==> v.id in out[..k]
  }

  /** `v` is the visit of `a`, or is needed by it. */
  ghost predicate Reaches(g: TypeGraph, a: Visit, v: Visit, path: seq<Visit>)
    requires WellFormed(g)
  {
    path != [] && path[0] == a && path[|path| - 1] == v && IsVisitPath(g, path)
  }

  predicate IsTypedef(t: Words) { 3 <= |t| && Kind(t) == KIND_TYPEDEF }

  /** A typedef of a function type that leads back to its name: only such a one is
      queued twice. */
  ghost predicate MayRepeat(c: Ctx, x: nat)
    requires Ranked(c)
  {
    && x < |c.g| && IsTypedef(c.g[x]) && IsFunction(c, x)
    && exists thru: bool, path :: Needs(c.g, Visit(x, false), Visit(x, thru), path)
  }

  /** Everything queued is a definition, ordered by now, and queued once. */
  ghost predicate Proper(c: Ctx, o: Order)
    requires Ranked(c) && |o.states| == |c.g|
  {
    && (forall k :: 0 <= k < |o.out| ==> Queueable(c, o, o.out[k]))
    && NoTwice(c, o.out)
  }

  ghost predicate Queueable(c: Ctx, o: Order, x: nat)
    requires |o.states| == |c.g|
  {
    |c.referenced| == |c.g| && x < |c.g| && o.states[x] == Ordered && Defines(c, Visit(x, false))
  }

  ghost predicate NoTwice(c: Ctx, out: seq<nat>)
    requires Ranked(c)
  {
    forall k, l :: 0 <= k < l < |out| && out[k] == out[l] ==> MayRepeat(c, out[k])
  }

  /** A struct or union that is not ordered yet is not settled, unless through
      pointers under its name. */
  ghost predicate Open(c: Ctx, o: Order, i: nat)
    requires i < |c.g| == |o.states|
  {
    3 <= |c.g[i]| && IsComposite(c.g[i]) && o.states[i] != Ordered ==>
      Visit(i, false) !in o.done && (c.g[i][0] == 0 ==> Visit(i, true) !in o.done)
  }

  ghost predicate Inv(c: Ctx, o: Order) {
    && CTypes(c) && |o.states| == |c.g| && o.states[0] == Ordered
    && Proper(c, o) && (forall i :: 0 <= i < |c.g| ==> Open(c, o, i))
    && (forall v :: v in o.done ==> DoneVisit(c, o, v))
    && (forall i :: 0 <= i < |c.g| && o.states[i] == Ordered ==> Settled(c, o, i))
    && (forall i :: 0 <= i < |c.g| && o.states[i] == Ordering ==> 3 <= |c.g[i]| && IsComposite(c.g[i]))
    && Topological(c, o.out)
  }

  /** How the state may move on while other types are being ordered. */
  ghost predicate Grew(o: Order, o': Order) {
    && |o.states| == |o'.states| && o.out <= o'.out
    && (forall v :: v in o.done ==> v in o'.done)
    && (forall i :: 0 <= i < |o.states| && o.states[i] == Ordering ==> o'.states[i] == Ordering)
    && (forall i :: 0 <= i < |o.states| && o'.states[i] == Ordering ==> o.states[i] == Ordering)
    && (forall i :: 0 <= i < |o.states| && o.states[i] == Ordered ==> o'.states[i] == Ordered)
  }

  /** Recording that type `x` has been visited: `mark` sets its state, `push`
      queues it, `both` says that it was not only visited through a pointer. */
  ghost function After(o: Order, x: nat, mark: bool, push: bool, both: bool): Order
    requires x < |o.states|
  {
    var d1 := Add(o.done, Visit(x, true), o.clock);
    Order(if mark then o.states[x := Ordered] else o.states,
          if push then o.out + [x] else o.out,
          if both then Add(d1, Visit(x, false), o.clock + 1) else d1, o.clock + 2)
  }

  ghost function Add(d: map<Visit, nat>, v: Visit, n: nat): map<Visit, nat> {
    if v in d then d else d[v := n]
  }

  /** From a settled visit every path leads to settled visits, later to earlier. */
  lemma {:induction false} PathSettled(c: Ctx, o: Order, path: seq<Visit>, j: nat, k: nat)
    requires Inv(c, o) && IsVisitPath(c.g, path) && j <= k < |path| && path[j] in o.done
    ensures path[k] in o.done && (j < k ==> o.done[path[k]] < o.done[path[j]])
    decreases k
  {
    hide Edge, Topological, Settled, Defines;
    if j < k {
      PathSettled(c, o, path, j, k - 1);
      assert Edge(c.g, path[k - 1], path[k]);
      assert DoneVisit(c, o, path[k - 1]);
    }
  }

  /** A settled visit is not part of a circular definition. */
  lemma SettledNotCircular(c: Ctx, o: Order, a: Visit)
    requires Inv(c, o) && a in o.done
    ensures !Circular(c.g, a)
  {
    hide Edge, DoneVisit, Topological, Defines, Settled;
    if Circular(c.g, a) {
      var path, j :| Lasso(c.g, a, path, j);
      PathSettled(c, o, path, 0, j);
      PathSettled(c, o, path, j, |path| - 1);
    }
  }

  lemma PushTopological(c: Ctx, o: Order, x: nat)
    requires Inv(c, o) && x < |c.g| && KidsDone(c, o, Home(c, x))
    ensures Topological(c, o.out + [x])
  {
    var out' := o.out + [x];
    forall k, v, path | 0 <= k < |out'| && Needs(c.g, Home(c, out'[k]), v, path) && Defines(c, v)
      ensures v.id in out'[..k]
    {
      if k < |o.out| {
        assert out'[..k] == o.out[..k];
      } else {
        assert Edge(c.g, path[0], path[1]);
        PathSettled(c, o, path, 1, |path| - 1);
        assert DoneVisit(c, o, v);
        assert out'[..k] == o.out;
      }
    }
  }

  lemma AfterDone(c: Ctx, o: Order, x: nat, mark: bool, push: bool, both: bool, v: Visit)
    requires Inv(c, o) && x < |c.g|
    requires KidsDone(c, o, Visit(x, true)) && (both ==> KidsDone(c, o, Visit(x, false)))
    requires Defines(c, Visit(x, true)) ==> push || x in o.out
    requires both && Defines(c, Visit(x, false)) ==> push || x in o.out
    requires v in After(o, x, mark, push, both).done
    ensures DoneVisit(c, After(o, x, mark, push, both), v)
  {
    hide Edge, Topological, Settled;
    if v in o.done { assert DoneVisit(c, o, v); }
    forall w | Edge(c.g, v, w) && w in o.done ensures o.done[w] < o.clock { assert DoneVisit(c, o, w); }
  }

  lemma AfterInv(c: Ctx, o: Order, x: nat, mark: bool, push: bool, both: bool)
    requires Inv(c, o) && x < |c.g|
    requires KidsDone(c, o, Visit(x, true)) && (both ==> KidsDone(c, o, Visit(x, false)))
    requires Defines(c, Visit(x, true)) ==> push || x in o.out
    requires both && Defines(c, Visit(x, false)) ==> push || x in o.out
    requires mark || push ==> both || IsFunction(c, x)
    requires push ==> mark && Defines(c, Visit(x, false)) && (x in o.out ==> MayRepeat(c, x))
    requires 3 <= |c.g[x]| && IsComposite(c.g[x]) ==> mark || (!both && c.g[x][0] != 0)
    ensures Inv(c, After(o, x, mark, push, both))
  {
    hide Edge, Topological, Defines, DoneVisit, Proper, MayRepeat, NoTwice;
    var o' := After(o, x, mark, push, both);
    forall v | v in o'.done ensures DoneVisit(c, o', v) { AfterDone(c, o, x, mark, push, both, v); }
    if push { PushTopological(c, o, x); }
    AfterProper(c, o, x, mark, push, both);
    forall i | 0 <= i < |c.g| ensures Open(c, o', i) { assert Open(c, o, i); }
  }

  lemma AfterProper(c: Ctx, o: Order, x: nat, mark: bool, push: bool, both: bool)
    requires Ranked(c) && |o.states| == |c.g| && x < |c.g| && Proper(c, o)
    requires push ==> mark && Defines(c, Visit(x, false)) && (x in o.out ==> MayRepeat(c, x))
    ensures Proper(c, After(o, x, mark, push, both))
  {
    hide Defines, MayRepeat, Add, Edge, IsFunction;
    var o' := After(o, x, mark, push, both);
    forall k | 0 <= k < |o'.out| ensures Queueable(c, o', o'.out[k]) {
      if k < |o.out| { assert Queueable(c, o, o.out[k]); }
    }
  }

  lemma GrewAfter(o0: Order, o: Order, x: nat, mark: bool, push: bool, both: bool)
    requires Grew(o0, o) && x < |o.states| && o.states[x] != Ordering
    ensures Grew(o0, After(o, x, mark, push, both))
  {
  }

  lemma GrewThrough(o0: Order, o: Order, x: nat, push: bool)
    requires x < |o0.states| && o0.states[x] == NotOrdered
    requires Grew(o0.(states := o0.states[x := Ordering]), o)
    ensures x < |o.states| && o.states[x] == Ordering
    ensures Grew(o0, After(o, x, true, push, true))
  {
  }

  /** The visits under way: each needs the next, the last is the current one, and
      every type marked as being ordered was entered by an earlier one. */
  ghost predicate OnStack(c: Ctx, o: Order, stack: seq<Visit>, v: Visit)
    requires WellFormed(c.g)
  {
    && stack != [] && stack[|stack| - 1] == v && v.id < |c.g| && IsVisitPath(c.g, stack)
    && (forall i :: 0 <= i < |o.states| && o.states[i] == Ordering ==>
          exists k :: 0 <= k < |stack| - 1 && stack[k].id == i)
    && forall k :: 0 <= k < |stack| - 1 ==> Entered(c, o, stack[k].id)
  }

  /** A struct or union that is being ordered is marked so. */
  ghost predicate Entered(c: Ctx, o: Order, i: nat) {
    i < |o.states| && i < |c.g| && 3 <= |c.g[i]| && (IsComposite(c.g[i]) ==> o.states[i] == Ordering)
  }

  /** Visiting one of the types that the current one needs. */
  lemma PushVisit(c: Ctx, o: Order, o': Order, stack: seq<Visit>, v: Visit, w: Visit)
    requires WellFormed(c.g) && OnStack(c, o, stack, v) && Edge(c.g, v, w) && |o'.states| == |o.states|
    requires forall i :: 0 <= i < |o.states| && o'.states[i] == Ordering ==> o.states[i] == Ordering || i == v.id
    requires forall i :: 0 <= i < |o.states| && o.states[i] == Ordering ==> o'.states[i] == Ordering
    requires Entered(c, o', v.id)
    ensures OnStack(c, o', stack + [w], w)
  {
    hide Edge;
    var s := stack + [w];
    EdgeInside(c.g, v, w);
    forall k | 0 <= k < |s| - 1 ensures Edge(c.g, s[k], s[k + 1]) && Entered(c, o', s[k].id) {
      if k < |s| - 2 { assert Edge(c.g, stack[k], stack[k + 1]) && Entered(c, o, stack[k].id); }
    }
    forall i | 0 <= i < |o'.states| && o'.states[i] == Ordering ensures exists k :: 0 <= k < |s| - 1 && s[k].id == i {
      if i == v.id {
        assert s[|s| - 2].id == i;
      } else {
        var k :| 0 <= k < |stack| - 1 && stack[k].id == i;
        assert s[k].id == i;
      }
    }
  }

  lemma EdgeInside(g: TypeGraph, v: Visit, w: Visit)
    requires WellFormed(g) && Edge(g, v, w)
    ensures v.id < |g| && 3 <= |g[v.id]| && w.id < |g|
    ensures IsComposite(g[v.id]) ==> !(v.thru && g[v.id][0] != 0)
    ensures !IsAnyEnum(g[v.id]) && !IsFwd(g[v.id])
  {
  }

  lemma StackKept(c: Ctx, o: Order, o': Order, stack: seq<Visit>, v: Visit)
    requires WellFormed(c.g) && OnStack(c, o, stack, v) && Grew(o, o')
    ensures OnStack(c, o', stack, v)
  {
    forall k | 0 <= k < |stack| - 1 ensures Entered(c, o', stack[k].id) { assert Entered(c, o, stack[k].id); }
  }

  /** On a way along which the rank does not fall there is a struct or union. */
  lemma {:induction false} CompositeBetween(c: Ctx, path: seq<Visit>, k: nat, n: nat) returns (m: nat)
    requires Ranked(c) && IsVisitPath(c.g, path) && k < n < |path|
    requires path[n].id < |c.g| && path[k].id < |c.g| && c.rank[path[n].id] >= c.rank[path[k].id]
    ensures k <= m < n && path[m].id < |c.g| && 3 <= |c.g[path[m].id]| && IsComposite(c.g[path[m].id])
    ensures !(path[m].thru && c.g[path[m].id][0] != 0)
    decreases n - k
  {
    hide Edge;
    assert Edge(c.g, path[k], path[k + 1]);
    EdgeInside(c.g, path[k], path[k + 1]);
    if IsComposite(c.g[path[k].id]) {
      m := k;
    } else if k + 1 < n {
      m := CompositeBetween(c, path, k + 1, n);
    } else {
      m := k;
      assert false;
    }
  }

  /** A visit under way is not settled if its type is met again. */
  lemma UnderWay(c: Ctx, o: Order, stack: seq<Visit>, v: Visit, k: nat)
    requires Inv(c, o) && OnStack(c, o, stack, v) && k < |stack| - 1 && stack[k].id == v.id
    ensures stack[k] !in o.done
  {
    hide Edge, Proper, Topological, Settled, Defines, DoneVisit;
    var m := CompositeBetween(c, stack, k, |stack| - 1);
    assert Entered(c, o, stack[m].id) && Open(c, o, stack[m].id);
    assert stack[m] !in o.done;
    if stack[k] in o.done { PathSettled(c, o, stack, k, m); }
  }

  lemma NotQueued(c: Ctx, o: Order, x: nat)
    requires Inv(c, o) && x < |c.g| && o.states[x] != Ordered
    ensures x !in o.out
  {
    hide Topological, DoneVisit, Settled, Edge, Defines, NoTwice;
    forall k | 0 <= k < |o.out| ensures o.out[k] != x { assert Queueable(c, o, o.out[k]); }
  }

  // ---------------------------------------------------- what has been queued, and why

  /** `x` is needed by `a`, and a definition of it at that: only a typedef may
      be queued when it has been reached through a pointer under its name. */
  ghost predicate Wanted(c: Ctx, a: Visit, x: nat)
    requires Ranked(c)
  {
    exists v: Visit, path :: v.id == x && Reaches(c.g, a, v, path) && WorthQueueing(c, v)
  }

  ghost predicate WorthQueueing(c: Ctx, v: Visit)
    requires |c.referenced| == |c.g|
  {
    Defines(c, v) || (v.id < |c.g| && IsTypedef(c.g[v.id]))
  }

  /** What has been queued while the last visit on the stack was under way. */
  ghost predicate Queued(c: Ctx, stack: seq<Visit>, out0: seq<nat>, out: seq<nat>) {
    && Ranked(c) && stack != [] && out0 <= out
    && (forall k :: |out0| <= k < |out| ==> Wanted(c, stack[0], out[k]))
    && (forall k :: 0 <= k < |stack| - 1 ==> Spared(c, stack[k].id, out0, out))
  }

  /** A type under way is not queued by a visit below it. */
  ghost predicate Spared(c: Ctx, x: nat, out0: seq<nat>, out: seq<nat>)
    requires Ranked(c)
  {
    x in out ==> x in out0 || MayRepeat(c, x)
  }

  lemma QueuedNothing(c: Ctx, stack: seq<Visit>, out: seq<nat>)
    requires Ranked(c) && stack != []
    ensures Queued(c, stack, out, out)
  {
    hide Wanted, MayRepeat, Ranked;
  }

  lemma QueuedInside(c: Ctx, stack: seq<Visit>, w: Visit, out0: seq<nat>, out: seq<nat>)
    requires Ranked(c) && stack != [] && Queued(c, stack + [w], out0, out)
    ensures Queued(c, stack, out0, out) && Spared(c, stack[|stack| - 1].id, out0, out)
  {
    hide Wanted, MayRepeat, Ranked, Spared;
    QueuedNothing(c, stack, out0);
    QueuedBelow(c, stack, w, out0, out0, out);
  }

  lemma QueuedBelow(c: Ctx, stack: seq<Visit>, w: Visit, out0: seq<nat>, out1: seq<nat>, out: seq<nat>)
    requires Ranked(c) && stack != [] && Queued(c, stack, out0, out1) && Queued(c, stack + [w], out1, out)
    ensures Queued(c, stack, out0, out) && Spared(c, stack[|stack| - 1].id, out1, out)
  {
    hide Wanted, MayRepeat, Ranked;
    var s := stack + [w];
    assert s[0] == stack[0] && s[|stack| - 1] == stack[|stack| - 1];
    forall k | 0 <= k < |stack| - 1 ensures Spared(c, stack[k].id, out0, out) {
      assert s[k] == stack[k] && Spared(c, s[k].id, out1, out) && Spared(c, stack[k].id, out0, out1);
    }
    forall k | |out0| <= k < |out| ensures Wanted(c, stack[0], out[k]) {
      assert k < |out1| ==> out[k] == out1[k];
    }
  }

  lemma QueuedPush(c: Ctx, o: Order, stack: seq<Visit>, v: Visit, out0: seq<nat>, out: seq<nat>)
    requires Ranked(c) && OnStack(c, o, stack, v) && Queued(c, stack, out0, out) && WorthQueueing(c, v)
    requires forall k :: 0 <= k < |stack| - 1 && stack[k].id == v.id ==> MayRepeat(c, v.id)
    ensures Queued(c, stack, out0, out + [v.id])
  {
    hide MayRepeat, Defines, Edge;
    var out' := out + [v.id];
    assert Reaches(c.g, stack[0], v, stack);
    forall k | |out0| <= k < |out'| ensures Wanted(c, stack[0], out'[k]) {
      if k < |out| { assert out'[k] == out[k] && Wanted(c, stack[0], out[k]); }
    }
    forall k | 0 <= k < |stack| - 1 ensures Spared(c, stack[k].id, out0, out') { assert Spared(c, stack[k].id, out0, out); }
  }

  /** A typedef met again under itself and queued there is one of a function type. */
  lemma TypedefAgain(c: Ctx, o: Order, o': Order, stack: seq<Visit>, v: Visit, k: nat)
    requires Inv(c, o') && OnStack(c, o, stack, v) && k < |stack| - 1 && stack[k].id == v.id
    requires |o'.states| == |o.states| && IsTypedef(c.g[v.id])
    requires forall i :: 0 <= i < |o.states| && i != v.id ==> o'.states[i] == o.states[i]
    requires Visit(v.id, true) in o'.done && (Visit(v.id, false) in o'.done || IsFunction(c, v.id))
    requires o.states[v.id] != Ordering && o'.states[v.id] != Ordering
    ensures MayRepeat(c, v.id)
  {
    hide Edge, Proper, Topological, Settled, Defines, DoneVisit, Open;
    forall j | 0 <= j < |stack| - 1 ensures Entered(c, o', stack[j].id) { assert Entered(c, o, stack[j].id); }
    UnderWay(c, o', stack, v, k);
    var path := stack[k..];
    forall j | 0 <= j < |path| - 1 ensures Edge(c.g, path[j], path[j + 1]) { assert Edge(c.g, stack[k + j], stack[k + j + 1]); }
    assert Needs(c.g, Visit(v.id, false), Visit(v.id, v.thru), path);
  }

  /** Meeting again a type that is being ordered, when a forward declaration
      would not do, shows that the definitions are circular. */
  lemma MetAgain(c: Ctx, o: Order, stack: seq<Visit>, v: Visit)
    requires Inv(c, o) && OnStack(c, o, stack, v) && o.states[v.id] == Ordering
    requires !(v.thru && c.g[v.id][0] != 0)
    ensures Circular(c.g, stack[0])
  {
    hide Edge, Topological, Defines, DoneVisit, Settled;
    var k :| 0 <= k < |stack| - 1 && stack[k].id == v.id;
    assert Edge(c.g, stack[k], stack[k + 1]);
    SameNeeds(c.g, stack[k], v, stack[k + 1]);
    var path := stack + stack[k + 1..];
    JoinPaths(c.g, stack, stack[k + 1..]);
    assert Lasso(c.g, stack[0], path, |stack| - 1);
  }

  lemma SameNeeds(g: TypeGraph, a: Visit, v: Visit, b: Visit)
    requires WellFormed(g) && Edge(g, a, b) && a.id == v.id && IsComposite(g[v.id]) && !(v.thru && g[v.id][0] != 0)
    ensures Edge(g, v, b)
  {
  }

  lemma JoinPaths(g: TypeGraph, p: seq<Visit>, q: seq<Visit>)
    requires WellFormed(g) && IsVisitPath(g, p) && IsVisitPath(g, q) && p != [] && q != [] && Edge(g, p[|p| - 1], q[0])
    ensures IsVisitPath(g, p + q)
  {
    hide Edge;
    var r := p + q;
    forall i | 0 <= i < |r| - 1 ensures Edge(g, r[i], r[i + 1]) {
      if i < |p| - 1 {
        assert Edge(g, p[i], p[i + 1]);
      } else if i >= |p| {
        assert Edge(g, q[i - |p|], q[i - |p| + 1]);
      }
    }
  }

  /** Structs and unions that no visit has entered yet. */
  ghost function Fresh(c: Ctx, o: Order): set<nat> {
    set i: nat | i < |o.states| && i < |c.g| && o.states[i] == NotOrdered && 3 <= |c.g[i]| && IsComposite(c.g[i])
  }

  lemma FreshShrinks(c: Ctx, o: Order, o': Order)
    requires Grew(o, o')
    ensures Fresh(c, o') <= Fresh(c, o)
  {
  }

  lemma FreshEntered(c: Ctx, o: Order, x: nat)
    requires x < |o.states| == |c.g| && o.states[x] == NotOrdered && 3 <= |c.g[x]| && IsComposite(c.g[x])
    ensures Fresh(c, o.(states := o.states[x := Ordering])) < Fresh(c, o)
  {
    assert x in Fresh(c, o) && x !in Fresh(c, o.(states := o.states[x := Ordering]));
  }

  /** What ordering the type of visit `v` has achieved: `r` says whether it is
      part of a strong link. */
  ghost predicate Visited(c: Ctx, o0: Order, o: Order, v: Visit, r: int)
    requires WellFormed(c.g)
  {
    && Inv(c, o) && Grew(o0, o) && v.id < |c.g| && (r == 0 || r == 1)
    && Visit(v.id, true) in o.done
    && (r == 1 || !v.thru ==> Settled(c, o, v.id))
  }

  // ------------------------------------------------------------- runs of the traversal

  /** The types that a struct, union or function prototype visits, in order. */
  function Kids(t: Words, thru: bool): seq<Visit>
    requires WellSized(t) && (IsComposite(t) || Kind(t) == KIND_FUNC_PROTO)
  {
    if IsComposite(t) then seq(Vlen(t), i requires 0 <= i < Vlen(t) => Visit(t[MemberTypePos(i)], false))
    else [Visit(t[2], thru)] + seq(Vlen(t), i requires 0 <= i < Vlen(t) => Visit(t[ParamTypePos(i)], thru))
  }

  ghost function Entering(o: Order, x: nat): Order
    requires x < |o.states|
  {
    o.(states := o.states[x := Ordering])
  }

  /** A typedef is queued unless reached through a pointer with a weak link behind it. */
  predicate DefinesName(t: Words, thru: bool, r: int) {
    IsTypedef(t) && !(thru && r == 0)
  }

  /** From `o`, the traversal of `v` succeeds with `r` and leaves `o'`. */
  least predicate Run(c: Ctx, o: Order, v: Visit, o': Order, r: int) {
    && v.id < |c.g| == |c.referenced| == |o.states|
    && var x, t := v.id, c.g[v.id];
       (o.states[x] == Ordered || WellSized(t)) &&
       if o.states[x] == Ordered then
         o' == o && r == 1
       else if IsComposite(t) && v.thru && t[0] != 0 then
         o' == After(o, x, false, false, false) && r == 0
       else if IsComposite(t) then
         o.states[x] == NotOrdered && r == 1 &&
         exists o1, strong :: RunAll(c, Entering(o, x), Kids(t, v.thru), o1, strong) &&
           x < |o1.states| && o' == After(o1, x, true, t[0] != 0, true)
       else if IsLeafKind(Kind(t)) then
         o' == After(o, x, true, false, true) && r == 0
       else if IsAnyEnum(t) || IsFwd(t) then
         o' == After(o, x, true, t[0] != 0 || !c.referenced[x], true) && r == 1
       else if Kind(t) == KIND_PTR then
         exists o1 :: Run(c, o, Visit(t[2], true), o1, r) && x < |o1.states| && o' == After(o1, x, true, false, true)
       else if Kind(t) == KIND_ARRAY then
         exists o1 :: Run(c, o, Visit(t[3], false), o1, r) && x < |o1.states| && o' == After(o1, x, false, false, true)
       else if Kind(t) == KIND_FUNC_PROTO then
         exists o1, strong :: RunAll(c, o, Kids(t, v.thru), o1, strong) && r == (if strong then 1 else 0) &&
           x < |o1.states| && o' == After(o1, x, false, false, false)
       else
         IsNaming(Kind(t)) &&
         exists o1, r1 :: Run(c, o, Visit(t[2], v.thru), o1, r1) && x < |o1.states| && NamedAfter(o1, x, o', DefinesName(t, v.thru, r1)) &&
           r == if DefinesName(t, v.thru, r1) then 1 else r1
  }

  ghost predicate NamedAfter(o1: Order, x: nat, o': Order, define: bool)
    requires x < |o1.states|
  {
    o' == After(o1, x, define, define, true) || o' == After(o1, x, define, define, false)
  }

  /** One after the other; `strong` says whether any of them was part of a strong link. */
  least predicate RunAll(c: Ctx, o: Order, kids: seq<Visit>, o': Order, strong: bool) {
    if kids == [] then o' == o && !strong
    else exists o1, s, r :: RunAll(c, o, Front(kids), o1, s) && Run(c, o1, Last(kids), o', r) && strong == (s || r > 0)
  }

  lemma RunStop(c: Ctx, o: Order, v: Visit)
    requires v.id < |c.g| == |c.referenced| == |o.states|
    ensures o.states[v.id] == Ordered ==> Run(c, o, v, o, 1)
    ensures
      var t := c.g[v.id];
      o.states[v.id] != Ordered && WellSized(t) && IsComposite(t) && v.thru && t[0] != 0
      ==> Run(c, o, v, After(o, v.id, false, false, false), 0)
  {
  }

  lemma RunLeaf(c: Ctx, o: Order, v: Visit)
    requires v.id < |c.g| == |c.referenced| == |o.states| && o.states[v.id] == NotOrdered && WellSized(c.g[v.id])
    ensures IsLeafKind(Kind(c.g[v.id])) ==> Run(c, o, v, After(o, v.id, true, false, true), 0)
    ensures
      var t := c.g[v.id];
      IsAnyEnum(t) || IsFwd(t) ==> Run(c, o, v, After(o, v.id, true, t[0] != 0 || !c.referenced[v.id], true), 1)
  {
    hide After, KindOf;
  }

  lemma RunPtr(c: Ctx, o: Order, v: Visit, o1: Order, r: int)
    requires v.id < |c.g| == |c.referenced| == |o.states| == |o1.states| && o.states[v.id] == NotOrdered && WellSized(c.g[v.id])
    requires Kind(c.g[v.id]) == KIND_PTR && Run(c, o, Visit(c.g[v.id][2], true), o1, r)
    ensures Run(c, o, v, After(o1, v.id, true, false, true), r)
  {
    hide After, KindOf;
  }

  lemma RunArray(c: Ctx, o: Order, v: Visit, o1: Order, r: int)
    requires v.id < |c.g| == |c.referenced| == |o.states| == |o1.states| && o.states[v.id] == NotOrdered && WellSized(c.g[v.id])
    requires Kind(c.g[v.id]) == KIND_ARRAY && Run(c, o, Visit(c.g[v.id][3], false), o1, r)
    ensures Run(c, o, v, After(o1, v.id, false, false, true), r)
  {
    hide After, KindOf;
  }

  lemma RunNaming(c: Ctx, o: Order, v: Visit, o1: Order, r: int, both: bool)
    requires v.id < |c.g| == |c.referenced| == |o.states| == |o1.states| && o.states[v.id] == NotOrdered && WellSized(c.g[v.id])
    requires IsNaming(Kind(c.g[v.id])) && Run(c, o, Visit(c.g[v.id][2], v.thru), o1, r)
    ensures var define := DefinesName(c.g[v.id], v.thru, r);
      Run(c, o, v, After(o1, v.id, define, define, both), if define then 1 else r)
  {
    hide After, KindOf, DefinesName;
    var define := DefinesName(c.g[v.id], v.thru, r);
    var o' := After(o1, v.id, define, define, both);
    assert NamedAfter(o1, v.id, o', define);
  }

  lemma RunProto(c: Ctx, o: Order, v: Visit, o1: Order, strong: bool)
    requires v.id < |c.g| == |c.referenced| == |o.states| == |o1.states| && o.states[v.id] == NotOrdered && WellSized(c.g[v.id])
    requires Kind(c.g[v.id]) == KIND_FUNC_PROTO && RunAll(c, o, Kids(c.g[v.id], v.thru), o1, strong)
    ensures Run(c, o, v, After(o1, v.id, false, false, false), if strong then 1 else 0)
  {
    hide After, KindOf, Kids;
  }

  lemma RunStruct(c: Ctx, o: Order, v: Visit, o1: Order, strong: bool)
    requires v.id < |c.g| == |c.referenced| == |o.states| == |o1.states| && o.states[v.id] == NotOrdered && WellSized(c.g[v.id])
    requires IsComposite(c.g[v.id]) && !(v.thru && c.g[v.id][0] != 0)
    requires RunAll(c, Entering(o, v.id), Kids(c.g[v.id], v.thru), o1, strong)
    ensures Run(c, o, v, After(o1, v.id, true, c.g[v.id][0] != 0, true), 1)
  {
    hide After, KindOf, Kids, Entering;
  }

  lemma RunNone(c: Ctx, o: Order)
    ensures RunAll(c, o, [], o, false)
  {
  }

  lemma RunOneMore(c: Ctx, o: Order, kids: seq<Visit>, o1: Order, s: bool, w: Visit, o': Order, r: int)
    requires RunAll(c, o, kids, o1, s) && Run(c, o1, w, o', r)
    ensures RunAll(c, o, kids + [w], o', s || r > 0)
  {
    hide Run;
    assert Front(kids + [w]) == kids && Last(kids + [w]) == w;
  }

  /** The first `n` of them. */
  ghost predicate RunFirst(c: Ctx, o: Order, t: Words, thru: bool, n: nat, o': Order, strong: bool) {
    && WellSized(t) && (IsComposite(t) || Kind(t) == KIND_FUNC_PROTO) && n <= |Kids(t, thru)|
    && RunAll(c, o, Kids(t, thru)[..n], o', strong)
  }

  lemma RunFirstNone(c: Ctx, o: Order, t: Words, thru: bool)
    requires WellSized(t) && (IsComposite(t) || Kind(t) == KIND_FUNC_PROTO)
    ensures RunFirst(c, o, t, thru, 0, o, false)
  {
    assert Kids(t, thru)[..0] == [];
  }

  lemma RunFirstAll(c: Ctx, o: Order, t: Words, thru: bool, o': Order, strong: bool)
    requires WellSized(t) && (IsComposite(t) || Kind(t) == KIND_FUNC_PROTO)
    requires RunFirst(c, o, t, thru, |Kids(t, thru)|, o', strong)
    ensures RunAll(c, o, Kids(t, thru), o', strong)
  {
    hide RunAll, KindOf, Kids;
    assert Kids(t, thru)[..|Kids(t, thru)|] == Kids(t, thru);
  }

  lemma RunNext(c: Ctx, o: Order, t: Words, thru: bool, n: nat, o1: Order, s: bool, w: Visit, o': Order, r: int)
    requires RunFirst(c, o, t, thru, n, o1, s) && n < |Kids(t, thru)| && w == Kids(t, thru)[n] && Run(c, o1, w, o', r)
    ensures RunFirst(c, o, t, thru, n + 1, o', s || r > 0)
  {
    hide RunAll, Run, KindOf, Kids;
    RunOneMore(c, o, Kids(t, thru)[..n], o1, s, w, o', r);
    assert Kids(t, thru)[..n] + [w] == Kids(t, thru)[..n + 1];
  }

  lemma KidsAre(t: Words, thru: bool, i: nat)
    requires WellSized(t) && (IsComposite(t) || Kind(t) == KIND_FUNC_PROTO)
    ensures |Kids(t, thru)| == if IsComposite(t) then Vlen(t) else Vlen(t) + 1
    ensures IsComposite(t) && i < Vlen(t) ==> Kids(t, thru)[i] == Visit(t[MemberTypePos(i)], false)
    ensures !IsComposite(t) ==> Kids(t, thru)[0] == Visit(t[2], thru)
    ensures !IsComposite(t) && i < Vlen(t) ==> Kids(t, thru)[i + 1] == Visit(t[ParamTypePos(i)], thru)
  {
    hide VlenOf, KindOf;
  }

  function Front(kids: seq<Visit>): seq<Visit>
    requires kids != []
  {
    kids[..|kids| - 1]
  }

  function Last(kids: seq<Visit>): Visit
    requires kids != []
  {
    kids[|kids| - 1]
  }

  // -------------------------------------------------- what each kind comes to

  /** Kinds that need no definition, or are ignored. */
  predicate IsLeafKind(k: nat) {
    k == KIND_INT || k == KIND_FLOAT || k == KIND_FUNC || k == KIND_VAR || k == KIND_DATASEC || k == KIND_DECL_TAG
  }

  /** The kinds that the switch in btf_dump_order_type has cases for. */
  predicate IsOrderedKind(k: nat) {
    IsLeafKind(k) || IsCompositeKind(k) || IsEnumKind(k) || k == KIND_FWD || IsNaming(k) ||
    k == KIND_PTR || k == KIND_ARRAY || k == KIND_FUNC_PROTO
  }

  lemma KindsCovered(g: TypeGraph, id: nat)
    requires WellFormed(g) && 1 <= id < |g|
    ensures WellSized(g[id])
    ensures IsOrderedKind(Kind(g[id]))
  {
    KindOfWellSized(g[id]);
  }

  lemma NotBeingOrdered(c: Ctx, o: Order, x: nat)
    requires Inv(c, o) && x < |c.g| && 3 <= |c.g[x]| && !IsComposite(c.g[x])
    ensures |o.states| == |c.g| && o.states[x] != Ordering && WellFormed(c.g) && CTypes(c)
  {
  }

  lemma VisitedSettled(c: Ctx, o0: Order, o: Order, v: Visit, r: int)
    requires WellFormed(c.g) && Visited(c, o0, o, v, r)
    ensures CTypes(c) && v.id < |c.g| && |c.referenced| == |c.g| && Visit(v.id, true) in o.done
    ensures r == 1 || !v.thru ==> Visit(v.id, false) in o.done || IsFunction(c, v.id)
  {
  }

  lemma GrewRefl(o: Order)
    ensures Grew(o, o)
  {
  }

  lemma LeafVisited(c: Ctx, o: Order, id: nat, thru: bool)
    requires Inv(c, o) && id < |c.g| && 3 <= |c.g[id]| && IsLeafKind(Kind(c.g[id])) && o.states[id] == NotOrdered
    ensures Visited(c, o, After(o, id, true, false, true), Visit(id, thru), 0)
  {
    hide Inv, Grew, DoneVisit, Topological;
    NotBeingOrdered(c, o, id);
    GrewRefl(o);
    AfterInv(c, o, id, true, false, true);
    GrewAfter(o, o, id, true, false, true);
  }

  /** Enums and forward declarations. */
  lemma EnumVisited(c: Ctx, o: Order, id: nat, thru: bool, push: bool)
    requires Inv(c, o) && id < |c.g| && 3 <= |c.g[id]| && o.states[id] == NotOrdered
    requires IsAnyEnum(c.g[id]) || IsFwd(c.g[id])
    requires push == (c.g[id][0] != 0 || !c.referenced[id])
    ensures Visited(c, o, After(o, id, true, push, true), Visit(id, thru), 1)
  {
    hide Inv, Grew, DoneVisit, Topological, MayRepeat;
    NotBeingOrdered(c, o, id);
    NotQueued(c, o, id);
    GrewRefl(o);
    AfterInv(c, o, id, true, push, true);
    GrewAfter(o, o, id, true, push, true);
  }

  /** A named struct or union behind a pointer needs nothing. */
  lemma WeakVisited(c: Ctx, o: Order, id: nat)
    requires Inv(c, o) && id < |c.g| && 3 <= |c.g[id]| && IsComposite(c.g[id]) && c.g[id][0] != 0
    ensures Visited(c, o, After(o, id, false, false, false), Visit(id, true), 0)
  {
    AfterInv(c, o, id, false, false, false);
  }

  lemma PtrVisited(c: Ctx, o0: Order, o: Order, id: nat, thru: bool, r: int)
    requires Inv(c, o0) && id < |c.g| && 3 <= |c.g[id]| && Kind(c.g[id]) == KIND_PTR && 2 < |c.g[id]|
    requires Visited(c, o0, o, Visit(c.g[id][2], true), r)
    ensures Visited(c, o0, After(o, id, true, false, true), Visit(id, thru), r)
  {
    hide Inv, Grew, DoneVisit, Topological;
    NotBeingOrdered(c, o, id);
    VisitedSettled(c, o0, o, Visit(c.g[id][2], true), r);
    AfterInv(c, o, id, true, false, true);
    GrewAfter(o0, o, id, true, false, true);
  }

  lemma ArrayVisited(c: Ctx, o0: Order, o: Order, id: nat, thru: bool, r: int)
    requires Inv(c, o0) && id < |c.g| && WellSized(c.g[id]) && Kind(c.g[id]) == KIND_ARRAY
    requires Visited(c, o0, o, Visit(c.g[id][3], false), r)
    ensures Visited(c, o0, After(o, id, false, false, true), Visit(id, thru), r)
  {
    hide Inv, Grew, DoneVisit, Topological;
    NotBeingOrdered(c, o, id);
    VisitedSettled(c, o0, o, Visit(c.g[id][3], false), r);
    assert IsRef(c.g[id], 3);
    assert Edge(c.g, Visit(id, thru), Visit(c.g[id][3], false));
    AfterInv(c, o, id, false, false, true);
    GrewAfter(o0, o, id, false, false, true);
  }

  /** A name or qualifier stands for its target. */
  lemma NamingVisited(c: Ctx, o0: Order, o: Order, id: nat, thru: bool, r: int, define: bool)
    requires Inv(c, o0) && id < |c.g| && WellSized(c.g[id]) && IsNaming(Kind(c.g[id])) && c.g[id][2] < |c.g|
    requires Visited(c, o0, o, Visit(c.g[id][2], thru), r)
    requires define == (Kind(c.g[id]) == KIND_TYPEDEF && (r == 1 || !thru)) && (id in o.out ==> MayRepeat(c, id))
    ensures var both := (r == 1 || !thru) && !IsFunction(c, id);
            Visited(c, o0, After(o, id, define, define, both), Visit(id, thru), if define then 1 else r)
  {
    hide Inv, Grew, DoneVisit, Topological;
    NotBeingOrdered(c, o, id);
    VisitedSettled(c, o0, o, Visit(c.g[id][2], thru), r);
    var both := (r == 1 || !thru) && !IsFunction(c, id);
    NamingEdge(c.g, id, true);
    NamingEdge(c.g, id, false);
    assert IsFunction(c, id) == IsFunction(c, c.g[id][2]);
    AfterInv(c, o, id, define, define, both);
    GrewAfter(o0, o, id, define, define, both);
  }

  lemma ProtoVisited(c: Ctx, o0: Order, o: Order, id: nat, thru: bool, r: int)
    requires Inv(c, o) && Grew(o0, o) && id < |c.g| && WellSized(c.g[id]) && Kind(c.g[id]) == KIND_FUNC_PROTO
    requires (r == 0 || r == 1) && forall p: nat :: IsRef(c.g[id], p) ==> Visit(c.g[id][p], true) in o.done
    ensures Visited(c, o0, After(o, id, false, false, false), Visit(id, thru), r)
  {
    hide Inv, Grew, DoneVisit, Topological;
    NotBeingOrdered(c, o, id);
    AfterInv(c, o, id, false, false, false);
    GrewAfter(o0, o, id, false, false, false);
  }

  lemma StructVisited(c: Ctx, o0: Order, o: Order, id: nat, thru: bool)
    requires Inv(c, o0) && Inv(c, o) && id < |c.g| && 3 <= |c.g[id]| && IsComposite(c.g[id])
    requires o0.states[id] == NotOrdered && Grew(o0.(states := o0.states[id := Ordering]), o)
    requires forall p: nat :: IsRef(c.g[id], p) ==> Visit(c.g[id][p], false) in o.done
    ensures Visited(c, o0, After(o, id, true, c.g[id][0] != 0, true), Visit(id, thru), 1)
  {
    hide Inv, DoneVisit, Topological;
    InvCTypes(c, o);
    InvCTypes(c, o0);
    assert o.states[id] == Ordering;
    NotQueued(c, o, id);
    AfterInv(c, o, id, true, c.g[id][0] != 0, true);
    GrewThrough(o0, o, id, c.g[id][0] != 0);
  }

  lemma EnterStruct(c: Ctx, o: Order, id: nat)
    requires Inv(c, o) && id < |c.g| && 3 <= |c.g[id]| && IsComposite(c.g[id]) && o.states[id] == NotOrdered
    ensures Inv(c, o.(states := o.states[id := Ordering]))
  {
    hide Edge, Topological, Defines, MayRepeat, NoTwice, IsFunction;
    var o' := o.(states := o.states[id := Ordering]);
    forall v | v in o'.done ensures DoneVisit(c, o', v) { assert DoneVisit(c, o, v); }
    forall k | 0 <= k < |o'.out| ensures Queueable(c, o', o'.out[k]) { assert Queueable(c, o, o.out[k]); }
    forall i | 0 <= i < |c.g| ensures Open(c, o', i) { assert Open(c, o, i); }
  }

  // ---------------------------------------------------------------- the dumper

  lemma NothingOrdered(c: Ctx, o: Order)
    requires CTypes(c) && |o.states| == |c.g| && o.out == []
    requires forall i :: 0 <= i < |o.states| ==> o.states[i] == if i == 0 then Ordered else NotOrdered
    requires o.done == map[Visit(0, true) := 0, Visit(0, false) := 1] && o.clock == 2
    ensures Inv(c, o)
  {
    forall w ensures !Edge(c.g, Visit(0, true), w) && !Edge(c.g, Visit(0, false), w) {}
  }

  class Dumper {
    const g: TypeGraph               // btf
    const referenced: seq<bool>      // type_states[].referenced
    const states: array<OrderState>  // type_states[].order_state
    var queue: seq<nat>              // emit_queue, up to emit_queue_cnt
    ghost const rank: seq<nat>
    ghost var earlier: seq<nat>      // what earlier calls have queued
    ghost var done: map<Visit, nat>
    ghost var clock: nat

    ghost function Given(): Ctx { Ctx(g, referenced, rank) }

    ghost function State(): Order
      reads this, states
    {
      Order(states[..], earlier + queue, done, clock)
    }

    /** What holds between calls: nothing is half done, and all that has been
        queued is in an order a C compiler accepts. */
    ghost predicate Valid()
      reads this, states
    {
      Inv(Given(), State()) && forall i :: 0 <= i < states.Length ==> states[i] != Ordering
    }

    /** A new dumper has ordered nothing but void. */
    constructor (g: TypeGraph, referenced: seq<bool>, ghost rank: seq<nat>)
      requires CTypes(Ctx(g, referenced, rank))
      ensures Valid() && Given() == Ctx(g, referenced, rank) && State().out == []
      ensures |State().states| == |g| && forall i :: 0 <= i < |g| ==> State().states[i] == if i == 0 then Ordered else NotOrdered
      ensures fresh(states)
    {
      this.g, this.referenced, this.rank := g, referenced, rank;
      states := new OrderState[|g|](i => if i == 0 then Ordered else NotOrdered);
      queue, earlier := [], [];
      done, clock := map[Visit(0, true) := 0, Visit(0, false) := 1], 2;
      new;
      NothingOrdered(Given(), State());
    }
  }

  /** The state while the visit on top of the stack is under way. */
  ghost predicate Busy(d: Dumper, stack: seq<Visit>, v: Visit)
    reads d, d.states
  {
    && Sized(d) && v.id < |d.g| && stack != []
    && Inv(d.Given(), d.State()) && OnStack(d.Given(), d.State(), stack, v)
  }

  ghost predicate Sized(d: Dumper) {
    |d.g| == |d.rank| == |d.referenced| == d.states.Length && WellFormed(d.g)
  }

  /** Notes that `id` has been visited. */
  ghost method Note(d: Dumper, id: nat, both: bool)
    modifies d`done, d`clock
    ensures d.done == (var d1 := Add(old(d.done), Visit(id, true), old(d.clock));
                       if both then Add(d1, Visit(id, false), old(d.clock) + 1) else d1)
    ensures d.clock == old(d.clock) + 2
  {
    d.done := Add(d.done, Visit(id, true), d.clock);
    if both { d.done := Add(d.done, Visit(id, false), d.clock + 1); }
    d.clock := d.clock + 2;
  }

  /** Records the outcome for `id`: its state, its place in the queue, what is known. */
  method Record(d: Dumper, id: nat, mark: bool, push: bool, ghost both: bool)
    requires id < d.states.Length
    modifies d`queue, d.states, d`done, d`clock
    ensures d.State() == After(old(d.State()), id, mark, push, both)
  {
    ghost var o := d.State();
    if push {
      d.queue := d.queue + [id];
      assert d.earlier + d.queue == o.out + [id];
    }
    if mark {
      d.states[id] := Ordered;
    }
    Note(d, id, both);
    assert d.states[..] == After(o, id, mark, push, both).states;
  }

  /** btf_dump_order_type: queues the definitions that the type needs, in an
      order in which they can be printed.  1 for a strong link, 0 for a weak
      one, -ELOOP if no order exists. */
  method OrderType(d: Dumper, id: nat, thru: bool, ghost stack: seq<Visit>) returns (r: int)
    requires Busy(d, stack, Visit(id, thru))
    modifies d`queue, d.states, d`done, d`clock
    ensures r < 0 ==> r == -ELOOP && Circular(d.g, stack[0])
    ensures r >= 0 ==> Visited(d.Given(), old(d.State()), d.State(), Visit(id, thru), r)
    ensures r >= 0 ==> Queued(d.Given(), stack, old(d.State()).out, d.State().out)
    ensures r >= 0 ==> Run(d.Given(), old(d.State()), Visit(id, thru), d.State(), r)
    decreases Fresh(d.Given(), d.State()), 0, d.rank[id], 2
  {
    hide Inv, Visited, OnStack, Circular, Queued, Run;
    ghost var c, o := d.Given(), d.State();
    BusyParts(c, o, stack, Visit(id, thru));
    QueuedNothing(c, stack, o.out);
    RunStop(c, o, Visit(id, thru));
    if d.states[id] == Ordered {
      AlreadyVisited(c, o, id, thru);
      return 1;
    }
    var t := d.g[id];
    if d.states[id] == Ordering {
      // on the stack, but only pointed to: a weak link
      if IsComposite(t) && thru && t[0] != 0 {
        WeakVisited(c, o, id);
        Record(d, id, false, false, false);
        return 0;
      }
      MetAgain(c, o, stack, Visit(id, thru));
      return -ELOOP;
    }
    var kind := Kind(t);
    RunLeaf(c, o, Visit(id, thru));
    if IsLeafKind(kind) {
      LeafVisited(c, o, id, thru);
      Record(d, id, true, false, true);
      r := 0;
    } else if IsEnumKind(kind) || kind == KIND_FWD {
      var push := t[0] != 0 || !d.referenced[id];
      EnumVisited(c, o, id, thru, push);
      EnumQueued(c, o, stack, Visit(id, thru), push);
      Record(d, id, true, push, true);
      r := 1;
    } else if kind == KIND_PTR {
      r := OrderPtr(d, id, thru, stack);
    } else if kind == KIND_ARRAY {
      r := OrderArray(d, id, thru, stack);
    } else if IsCompositeKind(kind) {
      if thru && t[0] != 0 {
        WeakVisited(c, o, id);
        Record(d, id, false, false, false);
        return 0;
      }
      r := OrderStruct(d, id, thru, stack);
    } else if IsNaming(kind) {
      r := OrderNaming(d, id, thru, stack);
    } else {
      r := OrderProto(d, id, thru, stack);
    }
  }

  lemma BusyParts(c: Ctx, o: Order, stack: seq<Visit>, v: Visit)
    requires Inv(c, o) && OnStack(c, o, stack, v)
    ensures WellFormed(c.g) && v.id < |c.g| == |o.states| == |c.referenced| && stack != []
    ensures Ranked(c)
    ensures o.states[v.id] == Ordering ==> 3 <= |c.g[v.id]| && IsComposite(c.g[v.id])
    ensures o.states[v.id] != Ordered ==> WellSized(c.g[v.id]) && IsOrderedKind(Kind(c.g[v.id]))
  {
    hide KindOf, VlenOf, SizeOf;
    if o.states[v.id] != Ordered { KindsCovered(c.g, v.id); }
  }

  lemma AlreadyVisited(c: Ctx, o: Order, id: nat, thru: bool)
    requires Inv(c, o) && id < |c.g| && o.states[id] == Ordered
    ensures Visited(c, o, o, Visit(id, thru), 1)
  {
  }

  method OrderPtr(d: Dumper, id: nat, thru: bool, ghost stack: seq<Visit>) returns (r: int)
    requires Busy(d, stack, Visit(id, thru)) && WellSized(d.g[id]) && Kind(d.g[id]) == KIND_PTR
    requires d.states[id] == NotOrdered
    modifies d`queue, d.states, d`done, d`clock
    ensures r < 0 ==> r == -ELOOP && Circular(d.g, stack[0])
    ensures r >= 0 ==> Visited(d.Given(), old(d.State()), d.State(), Visit(id, thru), r)
    ensures r >= 0 ==> Queued(d.Given(), stack, old(d.State()).out, d.State().out)
    ensures r >= 0 ==> Run(d.Given(), old(d.State()), Visit(id, thru), d.State(), r)
    decreases Fresh(d.Given(), d.State()), 0, d.rank[id], 1
  {
    hide Inv, Visited, OnStack, Circular, Queued, Spared, Ranked, Run;
    ghost var c, o := d.Given(), d.State();
    InvCTypes(c, o);
    var target := d.g[id][2];
    OneEdge(c, o, stack, Visit(id, thru), Visit(target, true), 2);
    r := OrderType(d, target, true, stack + [Visit(target, true)]);
    ghost var o1 := d.State();
    if r >= 0 {
      PtrVisited(c, o, o1, id, thru, r);
      QueuedInside(c, stack, Visit(target, true), o.out, o1.out);
      VisitedGrew(c, o, o1, Visit(target, true), r);
      RunPtr(c, o, Visit(id, thru), o1, r);
    }
    Record(d, id, true, false, true);
  }

  lemma OneEdge(c: Ctx, o: Order, stack: seq<Visit>, v: Visit, w: Visit, p: nat)
    requires Inv(c, o) && OnStack(c, o, stack, v) && 3 <= |c.g[v.id]| && IsRef(c.g[v.id], p) && c.g[v.id][p] == w.id
    requires var k := Kind(c.g[v.id]);
      if k == KIND_PTR then w.thru else if k == KIND_ARRAY then p == 3 && !w.thru
      else (IsNaming(k) || k == KIND_FUNC_PROTO) && w.thru == v.thru
    ensures OnStack(c, o, stack + [w], w) && Edge(c.g, v, w) && w.id < |c.g| == |c.rank| && c.rank[w.id] < c.rank[v.id]
    ensures (stack + [w])[0] == stack[0]
  {
    assert Edge(c.g, v, w);
    PushVisit(c, o, o, stack, v, w);
  }

  method OrderArray(d: Dumper, id: nat, thru: bool, ghost stack: seq<Visit>) returns (r: int)
    requires Busy(d, stack, Visit(id, thru)) && WellSized(d.g[id]) && Kind(d.g[id]) == KIND_ARRAY
    requires d.states[id] == NotOrdered
    modifies d`queue, d.states, d`done, d`clock
    ensures r < 0 ==> r == -ELOOP && Circular(d.g, stack[0])
    ensures r >= 0 ==> Visited(d.Given(), old(d.State()), d.State(), Visit(id, thru), r)
    ensures r >= 0 ==> Queued(d.Given(), stack, old(d.State()).out, d.State().out)
    ensures r >= 0 ==> Run(d.Given(), old(d.State()), Visit(id, thru), d.State(), r)
    decreases Fresh(d.Given(), d.State()), 0, d.rank[id], 1
  {
    hide Inv, Visited, OnStack, Circular, Queued, Spared, Ranked, Run;
    ghost var c, o := d.Given(), d.State();
    InvCTypes(c, o);
    var elem := d.g[id][3];
    OneEdge(c, o, stack, Visit(id, thru), Visit(elem, false), 3);
    r := OrderType(d, elem, false, stack + [Visit(elem, false)]);
    if r >= 0 {
      ArrayVisited(c, o, d.State(), id, thru, r);
      QueuedInside(c, stack, Visit(elem, false), o.out, d.State().out);
      VisitedGrew(c, o, d.State(), Visit(elem, false), r);
      RunArray(c, o, Visit(id, thru), d.State(), r);
      Record(d, id, false, false, true);
    }
  }

  /** Typedefs and qualifiers.  A typedef is similar to a struct: behind a
      pointer it is put off if its target is. */
  method OrderNaming(d: Dumper, id: nat, thru: bool, ghost stack: seq<Visit>) returns (r: int)
    requires Busy(d, stack, Visit(id, thru)) && WellSized(d.g[id]) && IsNaming(Kind(d.g[id]))
    requires d.states[id] == NotOrdered
    modifies d`queue, d.states, d`done, d`clock
    ensures r < 0 ==> r == -ELOOP && Circular(d.g, stack[0])
    ensures r >= 0 ==> Visited(d.Given(), old(d.State()), d.State(), Visit(id, thru), r)
    ensures r >= 0 ==> Queued(d.Given(), stack, old(d.State()).out, d.State().out)
    ensures r >= 0 ==> Run(d.Given(), old(d.State()), Visit(id, thru), d.State(), r)
    decreases Fresh(d.Given(), d.State()), 0, d.rank[id], 1
  {
    hide Inv, Visited, OnStack, Circular, Ranked, Queued, MayRepeat, Run;
    ghost var c, o := d.Given(), d.State();
    InvCTypes(c, o);
    var target := d.g[id][2];
    OneEdge(c, o, stack, Visit(id, thru), Visit(target, thru), 2);
    r := OrderType(d, target, thru, stack + [Visit(target, thru)]);
    if r < 0 {
      return;
    }
    var define := Kind(d.g[id]) == KIND_TYPEDEF && !(thru && r == 0);
    NamingOrdered(c, o, d.State(), stack, id, thru, r, define);
    ghost var both := (r == 1 || !thru) && !IsFunction(c, id);
    VisitedGrew(c, o, d.State(), Visit(target, thru), r);
    RunNaming(c, o, Visit(id, thru), d.State(), r, both);
    Record(d, id, define, define, both);
    if define {
      r := 1;
    }
  }

  /** What lies below queues the current type only if it is such a typedef. */
  lemma NotQueuedBelow(c: Ctx, o: Order, o1: Order, stack: seq<Visit>, v: Visit, w: Visit)
    requires Inv(c, o) && OnStack(c, o, stack, v) && o.states[v.id] == NotOrdered
    requires Queued(c, stack + [w], o.out, o1.out)
    ensures Queued(c, stack, o.out, o1.out) && (v.id in o1.out ==> MayRepeat(c, v.id))
  {
    hide Queued, MayRepeat, Ranked;
    InvCTypes(c, o);
    QueuedInside(c, stack, w, o.out, o1.out);
    NotQueued(c, o, v.id);
  }

  lemma NamingOrdered(c: Ctx, o: Order, o1: Order, stack: seq<Visit>, id: nat, thru: bool, r: int, define: bool)
    requires Inv(c, o) && OnStack(c, o, stack, Visit(id, thru)) && id < |o.states| && o.states[id] == NotOrdered
    requires id < |c.g| && WellSized(c.g[id]) && IsNaming(Kind(c.g[id])) && c.g[id][2] < |c.g|
    requires Visited(c, o, o1, Visit(c.g[id][2], thru), r) && Queued(c, stack + [Visit(c.g[id][2], thru)], o.out, o1.out)
    requires define == (Kind(c.g[id]) == KIND_TYPEDEF && !(thru && r == 0))
    ensures Ranked(c) && (r == 0 || r == 1)
    ensures var o' := After(o1, id, define, define, (r == 1 || !thru) && !IsFunction(c, id));
      Visited(c, o, o', Visit(id, thru), if define then 1 else r) && Queued(c, stack, o.out, o'.out)
  {
    hide Inv, Queued, MayRepeat, Ranked, OnStack, Grew, Visited, IsFunction, After, KindOf;
    InvCTypes(c, o);
    var w := Visit(c.g[id][2], thru);
    ZeroOrOne(c, o, o1, w, r);
    NotQueuedBelow(c, o, o1, stack, Visit(id, thru), w);
    NamingVisited(c, o, o1, id, thru, r, define);
    VisitedGrew(c, o, o1, w, r);
    VisitedGrew(c, o, After(o1, id, define, define, (r == 1 || !thru) && !IsFunction(c, id)), Visit(id, thru), if define then 1 else r);
    NotBeingOrdered(c, o1, id);
    NamingQueued(c, o, o1, stack, Visit(id, thru), r, define);
  }

  lemma VisitedGrew(c: Ctx, o0: Order, o: Order, v: Visit, r: int)
    requires WellFormed(c.g) && Visited(c, o0, o, v, r)
    ensures Inv(c, o) && Grew(o0, o) && |o.states| == |c.g|
  {
  }

  lemma NamingQueued(c: Ctx, o: Order, o1: Order, stack: seq<Visit>, v: Visit, r: int, define: bool)
    requires Inv(c, o) && OnStack(c, o, stack, v) && v.id < |o1.states| && Grew(o, o1) && o1.states[v.id] != Ordering
    requires Queued(c, stack, o.out, o1.out) && v.id < |c.g| && (define ==> IsTypedef(c.g[v.id]))
    requires define ==> r == 1 || !v.thru
    requires Inv(c, After(o1, v.id, define, define, (r == 1 || !v.thru) && !IsFunction(c, v.id)))
    ensures Queued(c, stack, o.out, After(o1, v.id, define, define, (r == 1 || !v.thru) && !IsFunction(c, v.id)).out)
  {
    hide Inv, Queued, MayRepeat, Ranked, OnStack, Grew;
    InvCTypes(c, o);
    if define {
      var o' := After(o1, v.id, true, true, (r == 1 || !v.thru) && !IsFunction(c, v.id));
      StackKept(c, o, o1, stack, v);
      StackIs(c, o1, stack, v);
      forall k | 0 <= k < |stack| - 1 && stack[k].id == v.id ensures MayRepeat(c, v.id) {
        TypedefAgain(c, o1, o', stack, v, k);
      }
      QueuedPush(c, o1, stack, v, o.out, o1.out);
    }
  }

  lemma StackIs(c: Ctx, o: Order, stack: seq<Visit>, v: Visit)
    requires WellFormed(c.g) && OnStack(c, o, stack, v)
    ensures stack != []
  {
  }

  lemma EnumQueued(c: Ctx, o: Order, stack: seq<Visit>, v: Visit, push: bool)
    requires Inv(c, o) && OnStack(c, o, stack, v) && v.id < |c.g| && 3 <= |c.g[v.id]| && v.id < |o.states|
    requires IsAnyEnum(c.g[v.id]) || IsFwd(c.g[v.id])
    requires push ==> Defines(c, v)
    ensures Queued(c, stack, o.out, After(o, v.id, true, push, true).out)
  {
    hide Inv, Queued, MayRepeat, Ranked, Edge, Defines;
    InvCTypes(c, o);
    QueuedNothing(c, stack, o.out);
    if push {
      forall k | 0 <= k < |stack| - 1 ensures stack[k].id != v.id {
        assert Edge(c.g, stack[k], stack[k + 1]);
        EdgeInside(c.g, stack[k], stack[k + 1]);
      }
      QueuedPush(c, o, stack, v, o.out, o.out);
    }
  }

  lemma StructQueued(c: Ctx, o: Order, o1: Order, stack: seq<Visit>, v: Visit)
    requires Inv(c, o) && OnStack(c, o, stack, v) && v.id < |c.g| && 3 <= |c.g[v.id]| && IsComposite(c.g[v.id])
    requires o.states[v.id] == NotOrdered && !(v.thru && c.g[v.id][0] != 0)
    requires Queued(c, stack, o.out, o1.out) && v.id < |o1.states|
    ensures Queued(c, stack, o.out, After(o1, v.id, true, c.g[v.id][0] != 0, true).out)
  {
    hide Inv, Queued, MayRepeat, Ranked;
    InvCTypes(c, o);
    if c.g[v.id][0] != 0 {
      forall k | 0 <= k < |stack| - 1 ensures stack[k].id != v.id { assert Entered(c, o, stack[k].id); }
      QueuedPush(c, o, stack, v, o.out, o1.out);
    }
  }

  lemma ZeroOrOne(c: Ctx, o0: Order, o: Order, v: Visit, r: int)
    requires WellFormed(c.g) && Visited(c, o0, o, v, r)
    ensures r == 0 || r == 1
  {
  }

  /** The result and the parameters of a function prototype. */
  method OrderProto(d: Dumper, id: nat, thru: bool, ghost stack: seq<Visit>) returns (r: int)
    requires Busy(d, stack, Visit(id, thru)) && WellSized(d.g[id]) && Kind(d.g[id]) == KIND_FUNC_PROTO
    requires d.states[id] == NotOrdered
    modifies d`queue, d.states, d`done, d`clock
    ensures r < 0 ==> r == -ELOOP && Circular(d.g, stack[0])
    ensures r >= 0 ==> Visited(d.Given(), old(d.State()), d.State(), Visit(id, thru), r)
    ensures r >= 0 ==> Queued(d.Given(), stack, old(d.State()).out, d.State().out)
    ensures r >= 0 ==> Run(d.Given(), old(d.State()), Visit(id, thru), d.State(), r)
    decreases Fresh(d.Given(), d.State()), 0, d.rank[id], 1
  {
    hide Inv, Visited, OnStack, Circular, KindOf, VlenOf, SizeOf, IsRefPos, Queued, Run, Kids, ProtoSoFar, Fresh, After;
    ghost var c, o, t, v := d.Given(), d.State(), d.g[id], Visit(id, thru);
    var vlen := Vlen(d.g[id]);
    ProtoEntry(c, o, stack, v);
    KidsAre(t, thru, 0);
    ProtoNext(c, o, o, stack, v, 0, false);
    r := OrderType(d, d.g[id][2], thru, stack + [Visit(t[2], thru)]);
    if r < 0 {
      return;
    }
    ghost var now := d.State();
    ProtoKidDone(c, o, o, stack, v, 0, false, now, r);
    var isStrong := r > 0;
    var i := 0;
    while i < vlen
      invariant 0 <= i <= vlen == Vlen(t) && now == d.State() && ProtoSoFar(c, o, now, stack, v, i + 1, isStrong)
    {
      KidsAre(t, thru, i);
      ParamRefs(t, i);
      ProtoNext(c, o, now, stack, v, i + 1, isStrong);
      r := OrderType(d, d.g[id][ParamTypePos(i)], thru, stack + [Visit(t[ParamTypePos(i)], thru)]);
      if r < 0 {
        return;
      }
      ProtoKidDone(c, o, now, stack, v, i + 1, isStrong, d.State(), r);
      now := d.State();
      if r > 0 {
        isStrong := true;
      }
      i := i + 1;
    }
    r := if isStrong then 1 else 0;
    ProtoEnd(c, o, now, stack, v, vlen + 1, isStrong);
    Record(d, id, false, false, false);
  }

  /** The first `n` types of a function prototype have been visited. */
  ghost predicate ProtoSoFar(c: Ctx, o: Order, now: Order, stack: seq<Visit>, v: Visit, n: nat, strong: bool) {
    && Inv(c, now) && OnStack(c, now, stack, v) && Grew(o, now) && Queued(c, stack, o.out, now.out)
    && v.id < |c.g| && |o.states| == |c.g| && o.states[v.id] == NotOrdered
    && WellSized(c.g[v.id]) && Kind(c.g[v.id]) == KIND_FUNC_PROTO
    && RunFirst(c, o, c.g[v.id], v.thru, n, now, strong)
    && forall k :: 0 <= k < n ==> Visit(Kids(c.g[v.id], v.thru)[k].id, true) in now.done
  }

  lemma ProtoEntry(c: Ctx, o: Order, stack: seq<Visit>, v: Visit)
    requires Inv(c, o) && OnStack(c, o, stack, v) && v.id < |c.g| && v.id < |o.states| && o.states[v.id] == NotOrdered
    requires WellSized(c.g[v.id]) && Kind(c.g[v.id]) == KIND_FUNC_PROTO
    ensures ProtoSoFar(c, o, o, stack, v, 0, false) && Ranked(c)
  {
    hide KindOf, Queued, Edge;
    InvCTypes(c, o);
    StackIs(c, o, stack, v);
    QueuedNothing(c, stack, o.out);
    RunFirstNone(c, o, c.g[v.id], v.thru);
    GrewRefl(o);
  }

  /** The next one may be visited. */
  lemma ProtoNext(c: Ctx, o: Order, now: Order, stack: seq<Visit>, v: Visit, n: nat, strong: bool)
    requires ProtoSoFar(c, o, now, stack, v, n, strong) && n < |Kids(c.g[v.id], v.thru)|
    ensures var w := Kids(c.g[v.id], v.thru)[n];
      && Inv(c, now) && OnStack(c, now, stack + [w], w) && w.id < |c.g| == |c.rank| && c.rank[w.id] < c.rank[v.id]
      && stack != [] && (stack + [w])[0] == stack[0] && Fresh(c, now) <= Fresh(c, o)
  {
    hide KindOf, VlenOf, SizeOf, IsRefPos, Inv, Queued, RunFirst, Grew, Fresh, Kids;
    var t := c.g[v.id];
    var i := if n == 0 then 0 else n - 1;
    KidsAre(t, v.thru, i);
    ParamRefs(t, i);
    ParamRefs(t, 0);
    FreshShrinks(c, o, now);
    OneEdge(c, now, stack, v, Kids(t, v.thru)[n], if n == 0 then 2 else ParamTypePos(i));
  }

  lemma ProtoKidDone(c: Ctx, o: Order, now: Order, stack: seq<Visit>, v: Visit, n: nat, strong: bool, o2: Order, r: int)
    requires ProtoSoFar(c, o, now, stack, v, n, strong) && n < |Kids(c.g[v.id], v.thru)|
    requires WellFormed(c.g) && r >= 0
    requires var w := Kids(c.g[v.id], v.thru)[n];
      Visited(c, now, o2, w, r) && Queued(c, stack + [w], now.out, o2.out) && Run(c, now, w, o2, r)
    ensures ProtoSoFar(c, o, o2, stack, v, n + 1, strong || r > 0)
  {
    hide KindOf, VlenOf, SizeOf, IsRefPos, Inv, Queued, RunFirst, Grew, Fresh, Kids, Run, Spared, OnStack, Visited;
    var w := Kids(c.g[v.id], v.thru)[n];
    InvCTypes(c, now);
    StackIs(c, now, stack, v);
    KidVisited(c, o, now, o2, stack, v, w, r);
    QueuedBelow(c, stack, w, o.out, now.out, o2.out);
    RunNext(c, o, c.g[v.id], v.thru, n, now, strong, w, o2, r);
  }

  lemma ProtoEnd(c: Ctx, o: Order, now: Order, stack: seq<Visit>, v: Visit, n: nat, strong: bool)
    requires ProtoSoFar(c, o, now, stack, v, n, strong) && n == |Kids(c.g[v.id], v.thru)| && WellFormed(c.g)
    ensures v.id < |now.states|
    ensures var r, o' := if strong then 1 else 0, After(now, v.id, false, false, false);
      Visited(c, o, o', v, r) && Queued(c, stack, o.out, o'.out) && Run(c, o, v, o', r)
  {
    hide KindOf, VlenOf, SizeOf, IsRefPos, Inv, Queued, RunFirst, Grew, Fresh, Kids, Run, Spared, OnStack, Visited;
    var t := c.g[v.id];
    InvCTypes(c, now);
    ProtoKids(t, v.thru);
    ProtoVisited(c, o, now, v.id, v.thru, if strong then 1 else 0);
    RunFirstAll(c, o, t, v.thru, now, strong);
    RunProto(c, o, v, now, strong);
  }

  /** All that a function prototype refers to is among them. */
  lemma ProtoKids(t: Words, thru: bool)
    requires WellSized(t) && Kind(t) == KIND_FUNC_PROTO
    ensures forall p: nat :: IsRef(t, p) ==> exists k :: 0 <= k < |Kids(t, thru)| && Kids(t, thru)[k].id == t[p]
  {
    hide KindOf, VlenOf, Kids;
    forall p: nat | IsRef(t, p) ensures exists k :: 0 <= k < |Kids(t, thru)| && Kids(t, thru)[k].id == t[p] {
      ParamRefs(t, 0);
      ParamRefs(t, Vlen(t));
      if p == 2 {
        KidsAre(t, thru, 0);
        assert Kids(t, thru)[0].id == t[p];
      } else {
        KidsAre(t, thru, (p - 4) / 2);
        assert Kids(t, thru)[(p - 4) / 2 + 1].id == t[p];
      }
    }
  }

  /** After one of the types that `v` needs has been visited. */
  lemma KidVisited(c: Ctx, o0: Order, o1: Order, o2: Order, stack: seq<Visit>, v: Visit, w: Visit, r: int)
    requires WellFormed(c.g) && Grew(o0, o1) && OnStack(c, o1, stack, v) && Visited(c, o1, o2, w, r)
    ensures Inv(c, o2) && OnStack(c, o2, stack, v) && Grew(o0, o2) && Fresh(c, o2) <= Fresh(c, o0)
    ensures Visit(w.id, true) in o2.done && (!w.thru ==> Settled(c, o2, w.id)) && (r == 0 || r == 1)
    ensures forall x :: x in o1.done ==> x in o2.done
  {
    StackKept(c, o1, o2, stack, v);
    FreshShrinks(c, o0, o2);
  }

  /** A struct or union that has to be defined: its members come first. */
  method OrderStruct(d: Dumper, id: nat, thru: bool, ghost stack: seq<Visit>) returns (r: int)
    requires Busy(d, stack, Visit(id, thru)) && WellSized(d.g[id]) && IsComposite(d.g[id])
    requires d.states[id] == NotOrdered && !(thru && d.g[id][0] != 0)
    modifies d`queue, d.states, d`done, d`clock
    ensures r < 0 ==> r == -ELOOP && Circular(d.g, stack[0])
    ensures r >= 0 ==> Visited(d.Given(), old(d.State()), d.State(), Visit(id, thru), r)
    ensures r >= 0 ==> Queued(d.Given(), stack, old(d.State()).out, d.State().out)
    ensures r >= 0 ==> Run(d.Given(), old(d.State()), Visit(id, thru), d.State(), r)
    decreases Fresh(d.Given(), d.State()), 0, d.rank[id], 1
  {
    hide Inv, Visited, OnStack, Circular, Queued, Run, RunAll, Kids;
    ghost var c, o := d.Given(), d.State();
    EnterStruct(c, o, id);
    FreshEntered(c, o, id);
    d.states[id] := Ordering;
    assert d.State() == o.(states := o.states[id := Ordering]);
    ghost var strong;
    r, strong := OrderMembers(d, id, thru, stack, o);
    if r < 0 {
      return;
    }
    ghost var o1 := d.State();
    StructVisited(c, o, o1, id, thru);
    StructQueued(c, o, o1, stack, Visit(id, thru));
    RunStruct(c, o, Visit(id, thru), o1, strong);
    Record(d, id, true, d.g[id][0] != 0, true);
    r := 1;
  }

  lemma MemberEdge(c: Ctx, o0: Order, o: Order, stack: seq<Visit>, v: Visit, p: nat)
    requires CTypes(c) && OnStack(c, o0, stack, v) && 3 <= |c.g[v.id]| && IsComposite(c.g[v.id])
    requires !(v.thru && c.g[v.id][0] != 0) && IsRef(c.g[v.id], p) && |o.states| == |o0.states| == |c.g|
    requires forall i :: 0 <= i < |o0.states| && o.states[i] == Ordering ==> o0.states[i] == Ordering || i == v.id
    requires forall i :: 0 <= i < |o0.states| && (o0.states[i] == Ordering || i == v.id) ==> o.states[i] == Ordering
    ensures var w := Visit(c.g[v.id][p], false);
            OnStack(c, o, stack + [w], w) && w.id < |c.g| && !IsFunction(c, w.id)
    ensures stack != [] && (stack + [Visit(c.g[v.id][p], false)])[0] == stack[0]
  {
    var w := Visit(c.g[v.id][p], false);
    assert Edge(c.g, v, w);
    PushVisit(c, o0, o, stack, v, w);
  }

  lemma InvCTypes(c: Ctx, o: Order)
    requires Inv(c, o)
    ensures CTypes(c) && Ranked(c) && |o.states| == |c.g|
  {
  }

  lemma MemberVisited(c: Ctx, o1: Order, now: Order, o2: Order, w: Visit, r: int)
    requires WellFormed(c.g) && Grew(o1, now) && Visited(c, now, o2, w, r) && !w.thru
    ensures Inv(c, o2) && Grew(o1, o2) && Fresh(c, o2) <= Fresh(c, o1) && Settled(c, o2, w.id)
    ensures forall x :: x in now.done ==> x in o2.done
  {
    FreshShrinks(c, o1, o2);
  }

  method OrderMembers(d: Dumper, id: nat, thru: bool, ghost stack: seq<Visit>, ghost o: Order)
    returns (r: int, ghost strong: bool)
    requires Inv(d.Given(), d.State()) && OnStack(d.Given(), o, stack, Visit(id, thru))
    requires Sized(d) && id < |d.g| == |o.states| && stack != [] && d.State() == o.(states := o.states[id := Ordering])
    requires WellSized(d.g[id]) && IsComposite(d.g[id]) && !(thru && d.g[id][0] != 0)
    modifies d`queue, d.states, d`done, d`clock
    ensures r < 0 ==> r == -ELOOP && Circular(d.g, stack[0])
    ensures r >= 0 ==> Inv(d.Given(), d.State()) && Grew(old(d.State()), d.State())
    ensures r >= 0 ==> Queued(d.Given(), stack, old(d.State()).out, d.State().out)
    ensures r >= 0 ==> RunAll(d.Given(), old(d.State()), Kids(d.g[id], thru), d.State(), strong)
    ensures r >= 0 ==> forall p: nat :: IsRef(d.g[id], p) ==> Visit(d.g[id][p], false) in d.State().done
    decreases Fresh(d.Given(), d.State()), 1, 0, 0
  {
    hide Inv, Visited, OnStack, Circular, Queued, Run, RunAll, Kids, KindOf, VlenOf, SizeOf, IsRefPos, MembersSoFar, Fresh;
    ghost var c, o1, t, v := d.Given(), d.State(), d.g[id], Visit(id, thru);
    ghost var now := o1;
    var vlen := Vlen(d.g[id]);
    r, strong := 0, false;
    MembersEntry(c, o, o1, stack, v);
    KidsAre(t, thru, 0);
    var i := 0;
    while i < vlen
      invariant 0 <= i <= vlen == Vlen(t) && now == d.State() && r >= 0 && MembersSoFar(c, o, o1, now, stack, v, i, strong)
    {
      KidsAre(t, thru, i);
      MemberRefs(t, i);
      MembersNext(c, o, o1, now, stack, v, i, strong);
      r := OrderType(d, d.g[id][MemberTypePos(i)], false, stack + [Visit(t[MemberTypePos(i)], false)]);
      if r < 0 {
        return;
      }
      strong := MemberDone(c, o, o1, now, stack, v, i, strong, d.State(), r);
      now := d.State();
      i := i + 1;
    }
    MembersEnd(c, o, o1, now, stack, v, vlen, strong);
  }

  /** The first `n` members have been visited. */
  ghost predicate MembersSoFar(c: Ctx, o: Order, o1: Order, now: Order, stack: seq<Visit>, v: Visit, n: nat, strong: bool) {
    && Inv(c, now) && OnStack(c, o, stack, v) && Grew(o1, now) && Queued(c, stack, o1.out, now.out)
    && v.id < |c.g| == |o.states| && o1 == Entering(o, v.id)
    && WellSized(c.g[v.id]) && IsComposite(c.g[v.id]) && !(v.thru && c.g[v.id][0] != 0)
    && RunFirst(c, o1, c.g[v.id], v.thru, n, now, strong)
    && forall k :: 0 <= k < n ==> Visit(Kids(c.g[v.id], v.thru)[k].id, false) in now.done
  }

  lemma MembersEntry(c: Ctx, o: Order, o1: Order, stack: seq<Visit>, v: Visit)
    requires Inv(c, o1) && OnStack(c, o, stack, v) && v.id < |c.g| == |o.states| && o1 == Entering(o, v.id)
    requires WellSized(c.g[v.id]) && IsComposite(c.g[v.id]) && !(v.thru && c.g[v.id][0] != 0)
    ensures MembersSoFar(c, o, o1, o1, stack, v, 0, false) && Ranked(c)
  {
    hide KindOf, Queued, Edge;
    InvCTypes(c, o1);
    StackIs(c, o, stack, v);
    QueuedNothing(c, stack, o1.out);
    RunFirstNone(c, o1, c.g[v.id], v.thru);
    GrewRefl(o1);
  }

  lemma MembersNext(c: Ctx, o: Order, o1: Order, now: Order, stack: seq<Visit>, v: Visit, n: nat, strong: bool)
    requires MembersSoFar(c, o, o1, now, stack, v, n, strong) && n < |Kids(c.g[v.id], v.thru)|
    ensures var w := Kids(c.g[v.id], v.thru)[n];
      && Inv(c, now) && OnStack(c, now, stack + [w], w) && w.id < |c.g| == |c.rank|
      && stack != [] && (stack + [w])[0] == stack[0] && Fresh(c, now) <= Fresh(c, o1)
      && Ranked(c) && !IsFunction(c, w.id)
  {
    hide KindOf, VlenOf, SizeOf, IsRefPos, Inv, Queued, RunFirst, Fresh, Kids, IsFunction, Edge;
    var t := c.g[v.id];
    InvCTypes(c, now);
    KidsAre(t, v.thru, n);
    MemberRefs(t, n);
    FreshShrinks(c, o1, now);
    MemberEdge(c, o, now, stack, v, MemberTypePos(n));
  }

  lemma MemberDone(c: Ctx, o: Order, o1: Order, now: Order, stack: seq<Visit>, v: Visit, n: nat, strong: bool, o2: Order, r: int)
    returns (s: bool)
    requires MembersSoFar(c, o, o1, now, stack, v, n, strong) && n < |Kids(c.g[v.id], v.thru)|
    requires WellFormed(c.g) && r >= 0
    requires var w := Kids(c.g[v.id], v.thru)[n];
      Visited(c, now, o2, w, r) && Queued(c, stack + [w], now.out, o2.out) && Run(c, now, w, o2, r)
    ensures MembersSoFar(c, o, o1, o2, stack, v, n + 1, s)
  {
    hide KindOf, VlenOf, SizeOf, IsRefPos, Inv, Queued, RunFirst, Grew, Fresh, Kids, Run, Spared, OnStack, Visited, IsFunction;
    var w := Kids(c.g[v.id], v.thru)[n];
    s := strong || r > 0;
    MembersNext(c, o, o1, now, stack, v, n, strong);
    InvCTypes(c, now);
    StackIs(c, o, stack, v);
    KidsAre(c.g[v.id], v.thru, n);
    MemberVisited(c, o1, now, o2, w, r);
    QueuedBelow(c, stack, w, o1.out, now.out, o2.out);
    RunNext(c, o1, c.g[v.id], v.thru, n, now, strong, w, o2, r);
  }

  lemma MembersEnd(c: Ctx, o: Order, o1: Order, now: Order, stack: seq<Visit>, v: Visit, n: nat, strong: bool)
    requires MembersSoFar(c, o, o1, now, stack, v, n, strong) && n == |Kids(c.g[v.id], v.thru)|
    ensures Inv(c, now) && Grew(o1, now) && Queued(c, stack, o1.out, now.out)
    ensures RunAll(c, o1, Kids(c.g[v.id], v.thru), now, strong)
    ensures forall p: nat :: IsRef(c.g[v.id], p) ==> Visit(c.g[v.id][p], false) in now.done
  {
    hide KindOf, VlenOf, SizeOf, IsRefPos, Inv, Queued, RunFirst, Grew, Kids, OnStack;
    MemberKids(c.g[v.id], v.thru);
    RunFirstAll(c, o1, c.g[v.id], v.thru, now, strong);
  }

  /** All that a struct or union refers to is among them. */
  lemma MemberKids(t: Words, thru: bool)
    requires WellSized(t) && IsComposite(t)
    ensures forall p: nat :: IsRef(t, p) ==> exists k :: 0 <= k < |Kids(t, thru)| && Kids(t, thru)[k].id == t[p]
  {
    hide KindOf, VlenOf, Kids;
    forall p: nat | IsRef(t, p) ensures exists k :: 0 <= k < |Kids(t, thru)| && Kids(t, thru)[k].id == t[p] {
      MemberRefs(t, 0);
      MemberRefs(t, Vlen(t));
      KidsAre(t, thru, (p - 4) / 3);
      assert Kids(t, thru)[(p - 4) / 3].id == t[p];
    }
  }

  /** The part of btf_dump__dump_type that decides what is printed, and in which
      order.  It fails exactly when the definitions needed are circular (for a
      function type, only if they are). */
  method DumpType(d: Dumper, id: nat) returns (err: int)
    requires d.Valid()
    modifies d`queue, d`earlier, d.states, d`done, d`clock
    ensures err == -EINVAL <==> id >= |d.g|
    ensures err == -EINVAL ==> d.Valid() && d.State() == old(d.State())
    ensures err == 0 || err == -EINVAL || (err == -ELOOP && Circular(d.g, Visit(id, false)))
    ensures err == 0 ==> d.Valid() && d.State().out == old(d.State().out) + d.queue
    ensures err == 0 ==> Topological(d.Given(), d.State().out)
    ensures err == 0 ==> forall x :: x in d.queue ==> Defines(d.Given(), Visit(x, false)) && Wanted(d.Given(), Visit(id, false), x)
    ensures err == 0 ==> NoTwice(d.Given(), d.State().out)
    ensures err == 0 ==> exists r :: Run(d.Given(), old(d.State()), Visit(id, false), d.State(), r)
    ensures err == 0 ==> !Circular(d.g, Home(d.Given(), id))
    ensures id < |d.g| && !IsFunction(d.Given(), id) ==> (err == -ELOOP <==> Circular(d.g, Visit(id, false)))
    ensures err == 0 ==> Defines(d.Given(), Visit(id, false)) && !IsFunction(d.Given(), id) ==> id in d.State().out
  {
    hide Inv, Visited, OnStack, Circular, Defines, Queued, Wanted, NoTwice, Run;
    ghost var c, o := d.Given(), d.State();
    InvSized(c, o);
    if id >= |d.g| {
      return -EINVAL;
    }
    d.earlier := d.earlier + d.queue;
    d.queue := [];
    assert d.State() == o by { assert d.earlier + d.queue == o.out; }
    StartStack(c, o, Visit(id, false));
    err := OrderType(d, id, false, [Visit(id, false)]);
    if err < 0 {
      return;
    }
    VisitedRoot(c, o, d.State(), id, err);
    WhatIsQueued(c, o, d.State(), id, d.queue);
    err := 0;
  }

  lemma InvSized(c: Ctx, o: Order)
    requires Inv(c, o)
    ensures WellFormed(c.g) && |c.g| == |c.rank| == |c.referenced| == |o.states|
  {
  }

  lemma StartStack(c: Ctx, o: Order, v: Visit)
    requires Inv(c, o) && v.id < |c.g| && forall i :: 0 <= i < |o.states| ==> o.states[i] != Ordering
    ensures OnStack(c, o, [v], v)
  {
  }

  lemma WhatIsQueued(c: Ctx, o0: Order, o: Order, id: nat, queue: seq<nat>)
    requires Inv(c, o) && o.out == o0.out + queue && Queued(c, [Visit(id, false)], o0.out, o.out)
    ensures forall x :: x in queue ==> Defines(c, Visit(x, false)) && Wanted(c, Visit(id, false), x)
    ensures NoTwice(c, o.out)
  {
    hide Defines, Wanted, NoTwice, Topological, DoneVisit, Settled;
    forall x | x in queue ensures Defines(c, Visit(x, false)) && Wanted(c, Visit(id, false), x) {
      var k :| 0 <= k < |queue| && queue[k] == x;
      assert o.out[|o0.out| + k] == x && Queueable(c, o, o.out[|o0.out| + k]);
    }
  }

  lemma VisitedRoot(c: Ctx, o0: Order, o: Order, id: nat, r: int)
    requires WellFormed(c.g) && Visited(c, o0, o, Visit(id, false), r)
    requires forall i :: 0 <= i < |o0.states| ==> o0.states[i] != Ordering
    ensures Inv(c, o) && o0.out <= o.out && forall i :: 0 <= i < |o.states| ==> o.states[i] != Ordering
    ensures id < |c.g| && Topological(c, o.out) && !Circular(c.g, Home(c, id))
    ensures Defines(c, Visit(id, false)) && !IsFunction(c, id) ==> id in o.out
  {
    SettledNotCircular(c, o, Home(c, id));
    assert Home(c, id) in o.done && DoneVisit(c, o, Home(c, id));
  }
}
