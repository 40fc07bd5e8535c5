/** What a type ID means: the tree obtained by unfolding its references, to
    any depth.  Two IDs mean the same when they unfold alike at every depth,
    which is bisimilarity of the two (cyclic) graphs. */
module TypeMeaning {
  import opened BtfWords
  import opened IdMaps

  /** How far the unfolding looks.
      Exact: everything but the numeric value of type IDs.
      Tag: a struct, union, enum or forward declaration is a leaf that shows
      only which of the three name spaces it tags and its name. */
  datatype View = Exact | Tag

  datatype TagClass = NoTag | StructTag | UnionTag | EnumTag

  function ClassOf(t: Words): TagClass
    requires |t| >= 3
  {
    if Kind(t) == KIND_STRUCT then StructTag
    else if Kind(t) == KIND_UNION then UnionTag
    else if IsAnyEnum(t) then EnumTag
    else if IsFwd(t) then (if KFlag(t) then UnionTag else StructTag)
    else NoTag
  }

  /** Equal in every word that is not a type ID. */
  predicate SameLabel(t: Words, u: Words) {
    && 3 <= |t| == |u|
    && t[1] == u[1]
    && forall p :: 0 <= p < |t| && !IsRef(t, p) ==> t[p] == u[p]
  }

  predicate SameNode(v: View, t: Words, u: Words) {
    && 3 <= |t| && 3 <= |u|
    && if v.Tag? && (ClassOf(t) != NoTag || ClassOf(u) != NoTag)
       then ClassOf(t) == ClassOf(u) && t[0] == u[0]
       else SameLabel(t, u)
  }

  predicate IsChild(v: View, t: Words, p: nat) {
    IsRef(t, p) && (v.Tag? ==> ClassOf(t) == NoTag)
  }

  /** `a` in `g` and `b` in `h` unfold alike to depth `n`. */
  ghost predicate Alike(v: View, g: TypeGraph, a: nat, h: TypeGraph, b: nat, n: nat)
    requires WellFormed(g) && WellFormed(h) && a < |g| && b < |h|
    decreases n
  {
    n == 0 ||
    (SameNode(v, g[a], h[b]) &&
     forall p: nat :: IsChild(v, g[a], p) ==>
       IsRef(h[b], p) && Alike(v, g, g[a][p], h, h[b][p], n - 1))
  }

  lemma SameLabelRefs(t: Words, u: Words)
    requires SameLabel(t, u)
    ensures SameLabel(u, t) && Kind(t) == Kind(u) && ClassOf(t) == ClassOf(u)
    ensures forall p: nat :: IsRef(t, p) <==> IsRef(u, p)
  {
  }

  lemma SameLabelSameNode(v: View, t: Words, u: Words)
    requires SameLabel(t, u)
    ensures SameNode(v, t, u)
    ensures forall p: nat :: IsChild(v, t, p) ==> IsRef(t, p) && IsRef(u, p)
  {
    SameLabelRefs(t, u);
    assert !IsRef(t, 0);
  }

  /** Equal labels and children alike to depth n - 1 make nodes alike to depth n. */
  lemma AlikeStep(v: View, g: TypeGraph, a: nat, h: TypeGraph, b: nat, n: nat)
    requires WellFormed(g) && WellFormed(h) && a < |g| && b < |h| && n > 0 && SameLabel(g[a], h[b])
    requires forall p: nat :: IsRef(g[a], p) ==> IsRef(h[b], p) && Alike(v, g, g[a][p], h, h[b][p], n - 1)
    ensures Alike(v, g, a, h, b, n)
  {
    SameLabelSameNode(v, g[a], h[b]);
  }

  lemma {:induction false} AlikeRefl(v: View, g: TypeGraph, a: nat, n: nat)
    requires WellFormed(g) && a < |g|
    ensures Alike(v, g, a, g, a, n)
    decreases n
  {
    hide KindOf, VlenOf, SizeOf, IsRefPos;
    if n > 0 {
      forall p: nat | IsChild(v, g[a], p) ensures Alike(v, g, g[a][p], g, g[a][p], n - 1) {
        AlikeRefl(v, g, g[a][p], n - 1);
      }
    }
  }

  lemma {:induction false} AlikeSym(v: View, g: TypeGraph, a: nat, h: TypeGraph, b: nat, n: nat)
    requires WellFormed(g) && WellFormed(h) && a < |g| && b < |h|
    requires Alike(v, g, a, h, b, n)
    ensures Alike(v, h, b, g, a, n)
    decreases n
  {
    if n > 0 {
      forall p: nat | IsChild(v, h[b], p)
        ensures IsRef(g[a], p) && Alike(v, h, h[b][p], g, g[a][p], n - 1)
      {
        assert IsChild(v, g[a], p);
        AlikeSym(v, g, g[a][p], h, h[b][p], n - 1);
      }
    }
  }

  lemma {:induction false} AlikeTrans(v: View, g: TypeGraph, a: nat, h: TypeGraph, b: nat, k: TypeGraph, c: nat, n: nat)
    requires WellFormed(g) && WellFormed(h) && WellFormed(k) && a < |g| && b < |h| && c < |k|
    requires Alike(v, g, a, h, b, n) && Alike(v, h, b, k, c, n)
    ensures Alike(v, g, a, k, c, n)
    decreases n
  {
    hide KindOf, VlenOf, SizeOf, IsRefPos;
    if n > 0 {
      forall p: nat | IsChild(v, g[a], p)
        ensures IsRef(k[c], p) && Alike(v, g, g[a][p], k, k[c][p], n - 1)
      {
        assert IsChild(v, h[b], p);
        AlikeTrans(v, g, g[a][p], h, h[b][p], k, k[c][p], n - 1);
      }
    }
  }

  /** No forward declaration of any sort: everything is a complete definition. */
  ghost predicate Complete(g: TypeGraph)
    requires WellFormed(g)
  {
    forall i :: 0 <= i < |g| ==> !IsFwd(g[i]) && !IsEnumFwd(g[i])
  }

  /** The views that deduplication must respect: the exact one when there is
      nothing left to resolve, the tag view always. */
  ghost predicate Binding(v: View, g: TypeGraph)
    requires WellFormed(g)
  {
    v.Tag? || Complete(g)
  }

  /** The two IDs mean the same, in every binding view and to every depth. */
  ghost predicate Bisim(g: TypeGraph, a: nat, b: nat)
    requires WellFormed(g) && a < |g| && b < |g|
  {
    forall v: View, n: nat :: Binding(v, g) ==> Alike(v, g, a, g, b, n)
  }

  lemma BisimRefl(g: TypeGraph, a: nat)
    requires WellFormed(g) && a < |g|
    ensures Bisim(g, a, a)
  {
    forall v: View, n: nat { AlikeRefl(v, g, a, n); }
  }

  lemma BisimSym(g: TypeGraph, a: nat, b: nat)
    requires WellFormed(g) && a < |g| && b < |g| && Bisim(g, a, b)
    ensures Bisim(g, b, a)
  {
    forall v: View, n: nat | Binding(v, g) ensures Alike(v, g, b, g, a, n) {
      AlikeSym(v, g, a, g, b, n);
    }
  }

  lemma BisimTrans(g: TypeGraph, a: nat, b: nat, c: nat)
    requires WellFormed(g) && a < |g| && b < |g| && c < |g|
    requires Bisim(g, a, b) && Bisim(g, b, c)
    ensures Bisim(g, a, c)
  {
    forall v: View, n: nat | Binding(v, g) ensures Alike(v, g, a, g, c, n) {
      AlikeTrans(v, g, a, g, b, g, c, n);
    }
  }

  /** The nodes agree in every binding view. */
  ghost predicate SameNodes(g: TypeGraph, a: nat, b: nat)
    requires WellFormed(g) && a < |g| && b < |g|
  {
    forall v: View :: Binding(v, g) ==> SameNode(v, g[a], g[b])
  }

  /** Word `p` of `a` is a reference that some binding view follows. */
  ghost predicate Followed(g: TypeGraph, a: nat, p: nat)
    requires WellFormed(g) && a < |g|
  {
    exists v: View :: Binding(v, g) && IsChild(v, g[a], p)
  }

  /** Equal nodes with bisimilar children are bisimilar. */
  lemma BisimFromChildren(g: TypeGraph, a: nat, b: nat)
    requires WellFormed(g) && a < |g| && b < |g|
    requires SameNodes(g, a, b)
    requires forall p: nat :: Followed(g, a, p) ==> IsRef(g[b], p) && Bisim(g, g[a][p], g[b][p])
    ensures Bisim(g, a, b)
  {
    forall v: View, n: nat | Binding(v, g) ensures Alike(v, g, a, g, b, n) {
      if n > 0 {
        forall p: nat | IsChild(v, g[a], p)
          ensures IsRef(g[b], p) && Alike(v, g, g[a][p], g, g[b][p], n - 1)
        {
          assert Followed(g, a, p);
        }
      }
    }
  }

  /** Bisimilar IDs agree on their own node and on every child. */
  lemma BisimUnfold(g: TypeGraph, a: nat, b: nat)
    requires WellFormed(g) && a < |g| && b < |g| && Bisim(g, a, b)
    ensures SameNodes(g, a, b)
    ensures forall p: nat :: Followed(g, a, p) ==> IsRef(g[b], p)
    ensures Complete(g) ==> SameLabel(g[a], g[b])
    ensures Complete(g) ==> forall p: nat :: IsRef(g[a], p) ==> IsRef(g[b], p) && Bisim(g, g[a][p], g[b][p])
  {
    forall v: View | Binding(v, g)
      ensures SameNode(v, g[a], g[b])
      ensures forall p: nat :: IsChild(v, g[a], p) ==> IsRef(g[b], p)
    {
      assert Alike(v, g, a, g, b, 1);
    }
    if Complete(g) {
      assert SameNode(Exact, g[a], g[b]);
      SameLabelRefs(g[a], g[b]);
      forall p: nat | IsRef(g[a], p) ensures Bisim(g, g[a][p], g[b][p]) {
        ChildrenOfAlike(g, a, b, p);
      }
    }
  }

  lemma ChildrenOfAlike(g: TypeGraph, a: nat, b: nat, p: nat)
    requires WellFormed(g) && a < |g| && b < |g| && Bisim(g, a, b) && Complete(g)
    requires IsRef(g[a], p) && IsRef(g[b], p)
    ensures Bisim(g, g[a][p], g[b][p])
  {
    forall n: nat ensures Alike(Exact, g, g[a][p], g, g[b][p], n) {
      assert Alike(Exact, g, a, g, b, n + 1);
      assert IsChild(Exact, g[a], p);
    }
    forall n: nat ensures Alike(Tag, g, g[a][p], g, g[b][p], n) {
      ExactImpliesTag(g, g[a][p], g[b][p], n);
    }
  }

  lemma {:induction false} ExactImpliesTag(g: TypeGraph, a: nat, b: nat, n: nat)
    requires WellFormed(g) && a < |g| && b < |g|
    requires Alike(Exact, g, a, g, b, n)
    ensures Alike(Tag, g, a, g, b, n)
    decreases n
  {
    if n > 0 {
      SameLabelRefs(g[a], g[b]);
      assert g[a][0] == g[b][0] by { assert !IsRef(g[a], 0); }
      forall p: nat | IsChild(Tag, g[a], p) ensures IsRef(g[b], p) && Alike(Tag, g, g[a][p], g, g[b][p], n - 1) {
        assert IsChild(Exact, g[a], p);
        ExactImpliesTag(g, g[a][p], g[b][p], n - 1);
      }
    }
  }

  // ---------------------------------------------------------------- relations

  /** `x` and `y` are related by the recorded pairs, up to bisimilarity on both sides. */
  ghost predicate Related(g: TypeGraph, hyp: IdMap, x: nat, y: nat)
    requires WellFormed(g) && InRange(hyp, |g|) && x < |g| && y < |g|
  {
    Bisim(g, x, y) ||
    exists c :: 0 <= c < |hyp| && Mapped(hyp[c]) && Bisim(g, x, c) && Bisim(g, hyp[c], y)
  }

  /** The pair (c, hyp[c]) has equal nodes and its children are related. */
  ghost predicate Checked(g: TypeGraph, hyp: IdMap, c: nat)
    requires WellFormed(g) && InRange(hyp, |g|) && c < |g| && Mapped(hyp[c])
  {
    && SameNodes(g, c, hyp[c])
    && forall p: nat :: Followed(g, c, p) ==>
         IsRef(g[hyp[c]], p) && Related(g, hyp, g[c][p], g[hyp[c]][p])
  }

  lemma Middle(g: TypeGraph, hyp: IdMap, x: nat, y: nat) returns (c: nat)
    requires WellFormed(g) && InRange(hyp, |g|) && x < |g| && y < |g|
    requires Related(g, hyp, x, y) && !Bisim(g, x, y)
    ensures c < |g| && Mapped(hyp[c]) && Bisim(g, x, c) && Bisim(g, hyp[c], y)
  {
    c :| 0 <= c < |hyp| && Mapped(hyp[c]) && Bisim(g, x, c) && Bisim(g, hyp[c], y);
  }

  lemma AlikeThrough(v: View, g: TypeGraph, x: nat, c: nat, d: nat, y: nat, n: nat)
    requires WellFormed(g) && x < |g| && c < |g| && d < |g| && y < |g| && Binding(v, g)
    requires Bisim(g, x, c) && Alike(v, g, c, g, d, n) && Bisim(g, d, y)
    ensures Alike(v, g, x, g, y, n)
  {
    AlikeTrans(v, g, x, g, c, g, d, n);
    AlikeTrans(v, g, x, g, d, g, y, n);
  }

  lemma RelatedAlike(v: View, g: TypeGraph, hyp: IdMap, x: nat, y: nat, n: nat)
    requires WellFormed(g) && InRange(hyp, |g|) && x < |g| && y < |g| && Binding(v, g)
    requires Related(g, hyp, x, y)
    requires forall e :: 0 <= e < |g| && Mapped(hyp[e]) ==> Alike(v, g, e, g, hyp[e], n)
    ensures Alike(v, g, x, g, y, n)
  {
    if !Bisim(g, x, y) {
      var e := Middle(g, hyp, x, y);
      AlikeThrough(v, g, x, e, hyp[e], y, n);
    }
  }

  lemma CheckedAlike(v: View, g: TypeGraph, hyp: IdMap, c: nat, n: nat)
    requires WellFormed(g) && InRange(hyp, |g|) && c < |g| && Mapped(hyp[c]) && Binding(v, g)
    requires Checked(g, hyp, c)
    requires forall e :: 0 <= e < |g| && Mapped(hyp[e]) ==> Alike(v, g, e, g, hyp[e], n)
    ensures Alike(v, g, c, g, hyp[c], n + 1)
  {
    var d := hyp[c];
    forall p: nat | IsChild(v, g[c], p)
      ensures IsRef(g[d], p) && Alike(v, g, g[c][p], g, g[d][p], n)
    {
      assert Followed(g, c, p);
      RelatedAlike(v, g, hyp, g[c][p], g[d][p], n);
    }
  }

  /** Every pair of a relation that is a bisimulation up to bisimilarity is bisimilar. */
  lemma {:induction false} UpToSound(v: View, g: TypeGraph, hyp: IdMap, n: nat)
    requires WellFormed(g) && InRange(hyp, |g|) && Binding(v, g)
    requires forall x :: 0 <= x < |g| && Mapped(hyp[x]) ==> Checked(g, hyp, x)
    ensures forall c :: 0 <= c < |g| && Mapped(hyp[c]) ==> Alike(v, g, c, g, hyp[c], n)
    decreases n
  {
    if n > 0 {
      UpToSound(v, g, hyp, n - 1);
      forall c | 0 <= c < |g| && Mapped(hyp[c]) ensures Alike(v, g, c, g, hyp[c], n) {
        CheckedAlike(v, g, hyp, c, n - 1);
      }
    }
  }

  lemma CheckedIsBisim(g: TypeGraph, hyp: IdMap, c: nat)
    requires WellFormed(g) && InRange(hyp, |g|)
    requires forall x :: 0 <= x < |g| && Mapped(hyp[x]) ==> Checked(g, hyp, x)
    requires c < |g| && Mapped(hyp[c])
    ensures Bisim(g, c, hyp[c])
  {
    forall v: View, n: nat | Binding(v, g) ensures Alike(v, g, c, g, hyp[c], n) {
      UpToSound(v, g, hyp, n);
    }
  }

  lemma RelatedMonotone(g: TypeGraph, h0: IdMap, h1: IdMap, x: nat, y: nat)
    requires WellFormed(g) && InRange(h0, |g|) && InRange(h1, |g|) && x < |g| && y < |g|
    requires Extends(h0, h1) && Related(g, h0, x, y)
    ensures Related(g, h1, x, y)
  {
    if !Bisim(g, x, y) {
      var c :| 0 <= c < |h0| && Mapped(h0[c]) && Bisim(g, x, c) && Bisim(g, h0[c], y);
      assert Mapped(h1[c]) && h1[c] == h0[c];
    }
  }

  lemma CheckedMonotone(g: TypeGraph, h0: IdMap, h1: IdMap, c: nat)
    requires WellFormed(g) && InRange(h0, |g|) && InRange(h1, |g|) && c < |g| && Mapped(h0[c])
    requires Extends(h0, h1) && Checked(g, h0, c)
    ensures Checked(g, h1, c)
  {
    forall p: nat | Followed(g, c, p)
      ensures IsRef(g[h1[c]], p) && Related(g, h1, g[c][p], g[h1[c]][p])
    {
      RelatedMonotone(g, h0, h1, g[c][p], g[h0[c]][p]);
    }
  }

  /** A pair related on either side of bisimilar IDs. */
  lemma RelatedThrough(g: TypeGraph, hyp: IdMap, x: nat, c: nat, y: nat)
    requires WellFormed(g) && InRange(hyp, |g|) && x < |g| && c < |g| && y < |g|
    requires Bisim(g, x, c) && Mapped(hyp[c]) && Bisim(g, hyp[c], y)
    ensures Related(g, hyp, x, y)
  {
  }
}
