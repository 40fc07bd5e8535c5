/** The chained hash map, and that it behaves as a finite map. */
module HashMap {

  const EEXIST := 17
  const ENOENT := 2
  const ENOMEM := 12

  const MIN_CAP_BITS := 2

  /** More buckets than this cannot be allocated. */
  const MAX_CAP_BITS := 60

  function Pow2(k: nat): (r: nat)
    ensures r > 0
  {
    if k == 0 then 1 else 2 * Pow2(k - 1)
  }

  lemma {:induction false} Pow2Sum(a: nat, b: nat)
    ensures Pow2(a) * Pow2(b) == Pow2(a + b)
  {
    if a > 0 {
      Pow2Sum(a - 1, b);
      assert Pow2(a) * Pow2(b) == 2 * (Pow2(a - 1) * Pow2(b));
    }
  }

  /** The 64-bit product of a hash with a large constant. */
  function Scrambled(h: nat): (r: nat)
    ensures r < Pow2(64)
  {
    hide Pow2;
    h * 11400714819323198485 % Pow2(64)
  }

  /** hash_bits: the upper `bits` bits of a 64-bit product. */
  function HashBits(h: nat, bits: nat): (r: nat)
    requires bits <= 64
    ensures r < Pow2(bits)
  {
    hide Pow2;
    UpperBits(Scrambled(h), bits);
    if bits == 0 then 0 else Scrambled(h) / Pow2(64 - bits)
  }

  lemma UpperBits(x: nat, bits: nat)
    requires bits <= 64 && x < Pow2(64)
    ensures 0 <= x / Pow2(64 - bits) < Pow2(bits)
  {
    hide Pow2;
    Pow2Sum(bits, 64 - bits);
    QuotientBound(x, Pow2(bits), Pow2(64 - bits));
  }

  lemma QuotientBound(x: nat, a: nat, d: nat)
    requires d > 0 && x < a * d
    ensures 0 <= x / d < a
  {
    assert x / d * d <= x;
    MulMonotone(a, x / d, d);
  }

  lemma MulMonotone(a: nat, q: nat, d: nat)
    ensures a <= q ==> a * d <= q * d
  {
  }

  class Entry {
    var key: int
    var value: int
    var next: Entry?

    constructor (key: int, value: int)
      ensures this.key == key && this.value == value
    {
      this.key, this.value := key, value;
      next := null;
    }
  }

  datatype Strategy = Add | Set | Update | Append

  /** What comes at place `i` of a chain. */
  function At(c: seq<Entry>, i: nat): Entry? {
    if i < |c| then c[i] else null
  }

  /** The entries from `head` on are those of `c`, in order. */
  ghost predicate Linked(c: seq<Entry>, head: Entry?)
    reads (set e | e in c)`next
  {
    head == At(c, 0) && forall i: nat :: i < |c| ==> c[i].next == At(c, i + 1)
  }

  /** The buckets are the heads of these chains, all made of entries in `es`. */
  ghost predicate AllLinked(cs: seq<seq<Entry>>, buckets: array<Entry?>, es: set<Entry>)
    reads buckets, es`next
  {
    |cs| == buckets.Length &&
    forall b :: 0 <= b < |cs| ==> (forall e :: e in cs[b] ==> e in es) && Linked(cs[b], buckets[b])
  }

  /** The pairs that the entries hold, by entry. */
  type Pairs = map<Entry, (int, int)>

  function BucketOf(hash: int -> nat, key: int, bits: nat): (b: nat)
    requires bits <= MAX_CAP_BITS
    ensures b < Pow2(bits)
  {
    HashBits(hash(key), bits)
  }

  /** Each entry is in one chain, once: its key decides in which. */
  ghost predicate Placed(hash: int -> nat, cs: seq<seq<Entry>>, bits: nat, m: Pairs) {
    && bits <= MAX_CAP_BITS && |cs| == Pow2(bits)
    && (forall b, i :: 0 <= b < |cs| && 0 <= i < |cs[b]| ==> cs[b][i] in m && BucketOf(hash, m[cs[b][i]].0, bits) == b)
    && (forall b, i, j :: 0 <= b < |cs| && 0 <= i < j < |cs[b]| ==> cs[b][i] != cs[b][j])
    && (forall e :: e in m ==> e in cs[BucketOf(hash, m[e].0, bits)])
  }

  /** equal_fn says that the keys are equal. */
  predicate Same(equal: (int, int) -> bool, a: int, b: int) { equal(a, b) }

  /** Equal keys hash equally, and equality is an equivalence. */
  ghost predicate Compatible(hash: int -> nat, equal: (int, int) -> bool) {
    && (forall a, b :: Same(equal, a, b) ==> hash(a) == hash(b))
    && (forall a :: Same(equal, a, a)) && (forall a, b :: Same(equal, a, b) ==> Same(equal, b, a))
    && (forall a, b, c :: Same(equal, a, b) && Same(equal, b, c) ==> Same(equal, a, c))
  }

  /** Chain `h` without its `i`-th entry. */
  function Unlinked(cs: seq<seq<Entry>>, h: nat, i: nat): seq<seq<Entry>>
    requires h < |cs| && i < |cs[h]|
  {
    cs[h := cs[h][..i] + cs[h][i + 1..]]
  }

  lemma UnlinkPlaced(hash: int -> nat, cs: seq<seq<Entry>>, bits: nat, m: Pairs, h: nat, i: nat)
    requires Placed(hash, cs, bits, m) && h < |cs| && i < |cs[h]|
    ensures Placed(hash, Unlinked(cs, h, i), bits, m - {cs[h][i]})
  {
    hide BucketOf;
    var c, x, m' := cs[h], cs[h][i], m - {cs[h][i]};
    var c' := c[..i] + c[i + 1..];
    forall e | e in m' ensures e in Unlinked(cs, h, i)[BucketOf(hash, m'[e].0, bits)] {
      var b := BucketOf(hash, m[e].0, bits);
      if b == h {
        var j :| 0 <= j < |c| && c[j] == e;
        assert c'[if j < i then j else j - 1] == e;
      }
    }
    forall b, j | 0 <= b < |cs| && 0 <= j < |Unlinked(cs, h, i)[b]|
      ensures Unlinked(cs, h, i)[b][j] in m' && BucketOf(hash, m'[Unlinked(cs, h, i)[b][j]].0, bits) == b
    {
      if b == h { assert c'[j] == c[if j < i then j else j + 1]; } else { assert cs[b][j] != x; }
    }
  }

  /** Entry `e`, not yet in the map, at the front of chain `h`. */
  lemma PrependPlaced(hash: int -> nat, cs: seq<seq<Entry>>, bits: nat, m: Pairs, h: nat, e: Entry, key: int, value: int)
    requires Placed(hash, cs, bits, m) && h == BucketOf(hash, key, bits) && e !in m
    ensures h < |cs| && Placed(hash, cs[h := [e] + cs[h]], bits, m[e := (key, value)])
  {
    hide BucketOf;
    var cs', m' := cs[h := [e] + cs[h]], m[e := (key, value)];
    forall x | x in m' ensures x in cs'[BucketOf(hash, m'[x].0, bits)] {
      if x == e { assert cs'[h][0] == e; }
    }
    forall b, j | 0 <= b < |cs'| && 0 <= j < |cs'[b]|
      ensures cs'[b][j] in m' && BucketOf(hash, m'[cs'[b][j]].0, bits) == b
    {
      if b == h && j > 0 { assert cs'[b][j] == cs[b][j - 1]; }
    }
    forall b, i, j | 0 <= b < |cs'| && 0 <= i < j < |cs'[b]| ensures cs'[b][i] != cs'[b][j] {
      if b == h { assert cs'[b][j] == cs[b][j - 1]; }
    }
  }

  /** A new pair with a key of the same bucket. */
  lemma ReplacePlaced(hash: int -> nat, cs: seq<seq<Entry>>, bits: nat, m: Pairs, e: Entry, key: int, value: int)
    requires Placed(hash, cs, bits, m) && e in m && hash(key) == hash(m[e].0)
    ensures Placed(hash, cs, bits, m[e := (key, value)])
  {
  }

  /** Walks along one chain. */
  method Walk(equal: (int, int) -> bool, head: Entry?, key: int, ghost c: seq<Entry>) returns (entry: Entry?, prev: Entry?, ghost i: nat)
    requires Linked(c, head)
    ensures i <= |c| && forall j :: 0 <= j < i ==> !Same(equal, c[j].key, key)
    ensures entry == At(c, i)
    ensures entry != null ==> Same(equal, entry.key, key)
    ensures prev == if i == 0 then null else c[i - 1]
  {
    i := 0;
    prev, entry := null, head;
    while entry != null
      invariant i <= |c| && forall j :: 0 <= j < i ==> !Same(equal, c[j].key, key)
      invariant entry == At(c, i)
      invariant prev == if i == 0 then null else c[i - 1]
      decreases |c| - i
    {
      if Same(equal, entry.key, key) {
        return;
      }
      assert entry == c[i];
      prev, entry := entry, entry.next;
      i := i + 1;
    }
  }

  class HashMap {
    const hash: int -> nat
    const equal: (int, int) -> bool
    var buckets: array?<Entry?>
    var cap: nat
    var capBits: nat
    var sz: nat
    ghost var chains: seq<seq<Entry>>
    ghost var repr: set<Entry>

    /** What the map holds. */
    ghost function Content(): (m: Pairs)
      reads this`repr, repr`key, repr`value
    {
      map e | e in repr :: (e.key, e.value)
    }

    ghost predicate Sized()
      reads this
    {
      && sz == |repr| && sz * 4 / 3 <= cap
      && if buckets == null then cap == 0 && capBits == 0 && repr == {} && chains == []
         else MIN_CAP_BITS <= capBits <= MAX_CAP_BITS && cap == Pow2(capBits) == buckets.Length == |chains|
    }

    ghost predicate Valid()
      reads this, buckets, repr
    {
      && Sized()
      && (buckets != null ==> Placed(hash, chains, capBits, Content()) && AllLinked(chains, buckets, repr))
    }

    /** hashmap__init */
    constructor (hash: int -> nat, equal: (int, int) -> bool)
      ensures Valid() && this.hash == hash && this.equal == equal && repr == {} && sz == 0
    {
      this.hash, this.equal := hash, equal;
      buckets, cap, capBits, sz := null, 0, 0, 0;
      chains, repr := [], {};
    }

    predicate NeedsToGrow()
      reads this
    {
      // the load bound of Valid
      cap == 0 || (sz + 1) * 4 / 3 > cap
    }

    /** hashmap_find_entry: the first entry of the chain with an equal key, and the
        one before it. */
    method FindEntry(key: int, h: nat) returns (entry: Entry?, prev: Entry?, ghost i: nat)
      requires Valid() && Compatible(hash, equal) && (buckets != null ==> h == BucketOf(hash, key, capBits))
      ensures entry == null ==> forall e :: e in repr ==> !Same(equal, e.key, key)
      ensures entry != null ==> buckets != null && h < |chains| && i < |chains[h]| && entry == chains[h][i]
      ensures entry != null ==> entry in repr && Same(equal, entry.key, key) && prev == if i == 0 then null else chains[h][i - 1]
    {
      hide Placed, BucketOf;
      if buckets == null {
        return null, null, 0;
      }
      assert h < |chains|;
      entry, prev, i := Walk(equal, buckets[h], key, chains[h]);
      if entry == null {
        forall e | e in chains[h] && e in Content() ensures !Same(equal, Content()[e].0, key) {
          var j :| 0 <= j < |chains[h]| && chains[h][j] == e;
        }
        NotElsewhere(hash, equal, chains, capBits, Content(), key);
        assert forall e :: e in repr ==> e in Content() && Content()[e].0 == e.key;
      }
    }

    /** hashmap_find */
    method Find(key: int) returns (found: bool, value: int)
      requires Valid() && Compatible(hash, equal)
      ensures found <==> exists e :: e in repr && Same(equal, e.key, key)
      ensures found ==> exists e :: e in repr && Same(equal, e.key, key) && value == e.value
    {
      hide Placed;
      var h := HashBits(hash(key), capBits);
      ghost var i;
      var entry, prev;
      entry, prev, i := FindEntry(key, h);
      if entry == null {
        return false, 0;
      }
      return true, entry.value;
    }

    /** hashmap_delete: unlinks the first entry with an equal key. */
    method Delete(key: int) returns (deleted: bool, oldKey: int, oldValue: int, ghost gone: Entry?)
      requires Valid() && Compatible(hash, equal)
      modifies this, buckets, repr
      ensures Valid() && buckets == old(buckets) && cap == old(cap)
      ensures deleted <==> exists e :: e in old(repr) && Same(equal, old(e.key), key)
      ensures !deleted ==> Content() == old(Content())
      ensures deleted ==> gone != null && gone in old(repr) && Same(equal, oldKey, key) && old(Content())[gone] == (oldKey, oldValue)
      ensures deleted ==> Content() == old(Content()) - {gone}
    {
      hide Placed, HashBits;
      var h := HashBits(hash(key), capBits);
      ghost var i;
      var entry, prev;
      gone := null;
      entry, prev, i := FindEntry(key, h);
      if entry == null {
        return false, 0, 0, null;
      }
      oldKey, oldValue := entry.key, entry.value;
      gone := entry;
      deleted := true;
      Unlink(h, i, entry, prev);
    }

    /** hashmap_del_entry */
    method Unlink(h: nat, ghost i: nat, entry: Entry, prev: Entry?)
      requires Valid() && buckets != null && h < |chains| && i < |chains[h]| && entry == chains[h][i] && entry in repr
      requires prev == if i == 0 then null else chains[h][i - 1]
      modifies this`sz, this`chains, this`repr, buckets, repr
      ensures Valid() && Content() == old(Content()) - {entry} && repr == old(repr) - {entry}
    {
      hide Placed, AllLinked;
      ghost var cs, m := chains, Content();
      UnlinkPlaced(hash, cs, capBits, m, h, i);
      OnceOnly(hash, cs, capBits, m, h, i);
      Bypass(cs, repr, i, entry, prev, buckets, h);
      chains := Unlinked(cs, h, i);
      repr := repr - {entry};
      sz := sz - 1;
      assert Content() == m - {entry};
    }

    /** hashmap_grow: twice as many buckets, every entry moved to its new one. */
    method Grow() returns (err: int)
      requires Valid()
      modifies this`buckets, this`cap, this`capBits, this`chains, repr`next
      ensures Valid() && (err == 0 || err == -ENOMEM)
      ensures err == 0 <==> old(capBits) < MAX_CAP_BITS
      ensures Content() == old(Content())
      ensures err == 0 ==> capBits == (if old(capBits) + 1 < MIN_CAP_BITS then MIN_CAP_BITS else old(capBits) + 1) && buckets != null
      ensures err == 0 ==> buckets != null && (buckets == old(buckets) || fresh(buckets))
      ensures err != 0 ==> buckets == old(buckets) && capBits == old(capBits)
    {
      hide Placed, AllLinked;
      var newCapBits := capBits + 1;
      if newCapBits < MIN_CAP_BITS {
        newCapBits := MIN_CAP_BITS;
      }
      if newCapBits > MAX_CAP_BITS {
        return -ENOMEM;
      }
      ghost var nc, m := [], Content();
      var newBuckets;
      newBuckets, nc := Rebucket(newCapBits);
      CapGrows(capBits, newCapBits, sz, cap);
      cap := Pow2(newCapBits);
      capBits := newCapBits;
      buckets := newBuckets;
      chains := nc;
      err := 0;
      assert Content() == m;
    }

    /** New buckets with all entries in them. */
    method Rebucket(newCapBits: nat) returns (newBuckets: array<Entry?>, ghost nc: seq<seq<Entry>>)
      requires Valid() && newCapBits <= MAX_CAP_BITS
      modifies repr`next
      ensures fresh(newBuckets) && newBuckets.Length == Pow2(newCapBits) == |nc|
      ensures Placed(hash, nc, newCapBits, Content()) && AllLinked(nc, newBuckets, repr)
    {
      hide Placed, AllLinked, HashBits, Single, Sub;
      var newCap := Pow2(newCapBits);
      newBuckets := new Entry?[newCap](_ => null);
      ghost var m := Content();
      nc := seq(newCap, _ => []);
      NothingYet(hash, newCapBits, newBuckets, nc, m);
      if buckets != null {
        SingleChains(hash, chains, capBits, m);
        nc := Rehash(hash, buckets, chains, repr, newBuckets, nc, newCapBits, m);
      }
      AllMoved(m, repr);
      PlacedSize(hash, nc, newCapBits, m);
      assert Content() == m;
    }

    /** A new pair for an entry, with an equal key. */
    method Overwrite(entry: Entry, key: int, value: int)
      requires Valid() && Compatible(hash, equal) && entry in repr && Same(equal, entry.key, key)
      modifies entry`key, entry`value
      ensures Valid() && Content() == old(Content())[entry := (key, value)]
    {
      hide Placed, AllLinked;
      ghost var m := Content();
      EqualHash(hash, equal, entry.key, key);
      if buckets != null { ReplacePlaced(hash, chains, capBits, m, entry, key, value); }
      entry.key := key;
      entry.value := value;
      assert Content() == m[entry := (key, value)];
    }

    /** hashmap_insert.  An existing entry is the first one found with an equal key;
        `e` is the entry written or created. */
    method Insert(key: int, value: int, strategy: Strategy)
      returns (err: int, oldKey: int, oldValue: int, ghost e: Entry?)
      requires Valid() && Compatible(hash, equal)
      modifies this, buckets, repr
      ensures Valid()
      ensures Inserted(equal, old(Content()), Content(), key, value, strategy, err, oldKey, oldValue, e)
      ensures err == -ENOMEM ==> old(capBits) == MAX_CAP_BITS && old(NeedsToGrow())
    {
      hide Placed, AllLinked, HashBits;
      oldKey, oldValue, e := 0, 0, null;
      var h := HashBits(hash(key), capBits);
      var entry, prev;
      ghost var i;
      if strategy != Append {
        entry, prev, i := FindEntry(key, h);
        if entry != null {
          oldKey, oldValue := entry.key, entry.value;
          e := entry;
          if strategy == Set || strategy == Update {
            Overwrite(entry, key, value);
            return 0, oldKey, oldValue, e;
          }
          return -EEXIST, oldKey, oldValue, e;
        }
      }
      if strategy == Update {
        return -ENOENT, 0, 0, null;
      }
      err, e := Create(key, value, h);
    }

    /** The end of hashmap_insert: room for one more, and the new entry. */
    method Create(key: int, value: int, h0: nat) returns (err: int, e: Entry?)
      requires Valid() && (buckets != null ==> h0 == BucketOf(hash, key, capBits))
      modifies this, buckets, repr
      ensures Valid() && (err == 0 || err == -ENOMEM)
      ensures err == 0 ==> e != null && e !in old(repr) && Content() == old(Content())[e := (key, value)]
      ensures err != 0 ==> Content() == old(Content()) && old(capBits) == MAX_CAP_BITS && old(NeedsToGrow())
    {
      hide Placed, AllLinked, HashBits;
      var h := h0;
      e := null;
      if NeedsToGrow() {
        err := Grow();
        if err != 0 {
          return;
        }
        h := HashBits(hash(key), capBits);
      }
      e := AddNew(key, value, h);
      err := 0;
    }

    /** A new entry in bucket `h`. */
    method AddNew(key: int, value: int, h: nat) returns (e: Entry)
      requires Valid() && buckets != null && h == BucketOf(hash, key, capBits) && (sz + 1) * 4 / 3 <= cap
      modifies this`sz, this`chains, this`repr, buckets
      ensures Valid() && e !in old(repr) && Content() == old(Content())[e := (key, value)]
    {
      hide Placed, AllLinked, HashBits, Single, BucketOf;
      ghost var m := Content();
      e := new Entry(key, value);
      PrependPlaced(hash, chains, capBits, m, h, e, key, value);
      Prepend(chains, repr, e, buckets, h);
      chains := chains[h := [e] + chains[h]];
      repr := repr + {e};
      sz := sz + 1;
      assert Content() == m[e := (key, value)];
    }
  }

  /** An entry with an equal key. */
  predicate HasKey(equal: (int, int) -> bool, m: Pairs, e: Entry?, key: int) {
    e != null && e in m && Same(equal, m[e].0, key)
  }

  /** What inserting a pair does to what the map holds. */
  ghost predicate Inserted(equal: (int, int) -> bool, m: Pairs, m': Pairs, key: int, value: int, strategy: Strategy,
                           err: int, oldKey: int, oldValue: int, e: Entry?) {
    if err == -ENOMEM then m' == m
    else if strategy == Append then err == 0 && e != null && e !in m && m' == m[e := (key, value)]
    else if HasKey(equal, m, e, key) then
      (oldKey, oldValue) == m[e] &&
      if strategy == Add then err == -EEXIST && m' == m else err == 0 && m' == m[e := (key, value)]
    else
      (forall x :: x in m ==> !Same(equal, m[x].0, key)) &&
      if strategy == Update then err == -ENOENT && m' == m
      else err == 0 && e != null && e !in m && m' == m[e := (key, value)]
  }

  /** The pairs of the entries in `done`. */
  function Sub(m: Pairs, done: set<Entry>): Pairs {
    map e | e in m && e in done :: m[e]
  }

  lemma AllMoved(m: Pairs, es: set<Entry>)
    requires m.Keys == es
    ensures Sub(m, es) == m
  {
  }

  lemma PlacedSize(hash: int -> nat, cs: seq<seq<Entry>>, bits: nat, m: Pairs)
    requires Placed(hash, cs, bits, m)
    ensures |cs| == Pow2(bits)
  {
  }

  lemma EqualHash(hash: int -> nat, equal: (int, int) -> bool, a: int, b: int)
    requires Compatible(hash, equal) && Same(equal, a, b)
    ensures hash(a) == hash(b)
  {
  }

  lemma CapGrows(bits: nat, newBits: nat, sz: nat, cap: nat)
    requires newBits == if bits + 1 < MIN_CAP_BITS then MIN_CAP_BITS else bits + 1
    requires sz * 4 / 3 <= cap && (cap == 0 || cap == Pow2(bits))
    ensures sz * 4 / 3 <= Pow2(newBits)
  {
  }

  lemma NothingYet(hash: int -> nat, bits: nat, buckets: array<Entry?>, cs: seq<seq<Entry>>, m: Pairs)
    requires bits <= MAX_CAP_BITS && buckets.Length == Pow2(bits) && forall b :: 0 <= b < buckets.Length ==> buckets[b] == null
    requires |cs| == Pow2(bits) && forall b :: 0 <= b < |cs| ==> cs[b] == []
    ensures Placed(hash, cs, bits, Sub(m, {})) && AllLinked(cs, buckets, {})
  {
  }

  lemma SingleChains(hash: int -> nat, cs: seq<seq<Entry>>, bits: nat, m: Pairs)
    requires Placed(hash, cs, bits, m)
    ensures Single(cs)
    ensures forall b, i :: 0 <= b < |cs| && 0 <= i < |cs[b]| ==> cs[b][i] in m
    ensures forall e :: e in m ==> exists b :: 0 <= b < |cs| && e in cs[b]
  {
  }

  /** Which entries have been moved: those before place `i` of chain `b`. */
  ghost predicate MovedTo(cs: seq<seq<Entry>>, done: set<Entry>, b: nat, i: nat) {
    forall d, j :: 0 <= d < |cs| && 0 <= j < |cs[d]| ==> (cs[d][j] in done <==> d < b || (d == b && j < i))
  }

  lemma LinkedTail(c: seq<Entry>, head: Entry)
    requires Linked(c, head)
    ensures c != [] && c[0] == head && Linked(c[1..], head.next)
  {
    forall j: nat | j < |c[1..]| ensures c[1..][j].next == At(c[1..], j + 1) {
      assert c[1..][j] == c[j + 1];
    }
  }

  lemma StillElsewhere(cs: seq<seq<Entry>>, b: nat, i: nat)
    requires Single(cs) && b < |cs| && i < |cs[b]|
    ensures forall d :: b < d < |cs| ==> cs[b][i] !in cs[d]
    ensures cs[b][i] !in cs[b][i + 1..]
  {
  }

  lemma OneMoved(cs: seq<seq<Entry>>, done: set<Entry>, b: nat, i: nat)
    requires Single(cs) && b < |cs| && i < |cs[b]| && MovedTo(cs, done, b, i)
    ensures MovedTo(cs, done + {cs[b][i]}, b, i + 1) && cs[b][i] !in done
  {
  }

  lemma SubMore(m: Pairs, done: set<Entry>, e: Entry)
    requires e in m
    ensures Sub(m, done + {e}) == Sub(m, done)[e := m[e]]
  {
  }

  lemma ChainMoved(cs: seq<seq<Entry>>, done: set<Entry>, b: nat)
    requires b < |cs| && MovedTo(cs, done, b, |cs[b]|)
    ensures MovedTo(cs, done, b + 1, 0)
  {
  }

  lemma EverythingMoved(cs: seq<seq<Entry>>, done: set<Entry>, m: Pairs)
    requires MovedTo(cs, done, |cs|, 0) && done <= m.Keys
    requires forall e :: e in m ==> exists b :: 0 <= b < |cs| && e in cs[b]
    ensures done == m.Keys
  {
    forall e | e in m ensures e in done {
      var b :| 0 <= b < |cs| && e in cs[b];
      var j :| 0 <= j < |cs[b]| && cs[b][j] == e;
    }
  }

  /** One chain of hashmap_grow. */
  method MoveChain(hash: int -> nat, buckets: array<Entry?>, ghost cs: seq<seq<Entry>>, ghost es: set<Entry>,
                   newBuckets: array<Entry?>, ghost nc0: seq<seq<Entry>>, ghost done0: set<Entry>, bkt: nat,
                   newBits: nat, ghost m: Pairs)
    returns (ghost nc: seq<seq<Entry>>, ghost done: set<Entry>)
    requires Single(cs) && bkt < |cs| == buckets.Length && buckets != newBuckets && done0 <= es
    requires m.Keys == es && forall e :: e in es ==> m[e].0 == e.key
    requires forall b, i :: 0 <= b < |cs| && 0 <= i < |cs[b]| ==> cs[b][i] in es
    requires MovedTo(cs, done0, bkt, 0) && forall d :: bkt <= d < |cs| ==> Linked(cs[d], buckets[d])
    requires newBits <= MAX_CAP_BITS && Placed(hash, nc0, newBits, Sub(m, done0)) && AllLinked(nc0, newBuckets, done0)
    modifies es`next, newBuckets
    ensures done <= es && MovedTo(cs, done, bkt + 1, 0) && forall d :: bkt < d < |cs| ==> Linked(cs[d], buckets[d])
    ensures Placed(hash, nc, newBits, Sub(m, done)) && AllLinked(nc, newBuckets, done)
  {
    hide Placed, HashBits, AllLinked, Single, MovedTo, Linked, Sub;
    nc, done := nc0, done0;
    ghost var c, i := cs[bkt], 0;
    var cur := buckets[bkt];
    assert c[0..] == c;
    while cur != null
      invariant i <= |c| && done <= es && MovedTo(cs, done, bkt, i) && Linked(c[i..], cur)
      invariant forall d :: bkt < d < |cs| ==> Linked(cs[d], buckets[d])
      invariant Placed(hash, nc, newBits, Sub(m, done)) && AllLinked(nc, newBuckets, done)
      decreases |c| - i
    {
      LinkedTail(c[i..], cur);
      assert c[i..][1..] == c[i + 1..] && cur == c[i];
      StillElsewhere(cs, bkt, i);
      OneMoved(cs, done, bkt, i);
      SubMore(m, done, cur);
      var tmp := cur.next;
      var h := HashBits(hash(cur.key), newBits);
      SubLacks(m, done, cur);
      PrependPlaced(hash, nc, newBits, Sub(m, done), h, cur, m[cur].0, m[cur].1);
      Prepend(nc, done, cur, newBuckets, h);
      nc := nc[h := [cur] + nc[h]];
      done := done + {cur};
      cur := tmp;
      i := i + 1;
    }
    LinkedEnd(c[i..]);
    ChainMoved(cs, done, bkt);
  }

  lemma NoneMoved(cs: seq<seq<Entry>>, buckets: array<Entry?>, es: set<Entry>)
    requires AllLinked(cs, buckets, es)
    ensures MovedTo(cs, {}, 0, 0) && |cs| == buckets.Length && forall d :: 0 <= d < |cs| ==> Linked(cs[d], buckets[d])
  {
  }

  lemma LinkedEnd(c: seq<Entry>)
    requires Linked(c, null)
    ensures c == []
  {
  }

  lemma SubLacks(m: Pairs, done: set<Entry>, e: Entry)
    requires e !in done
    ensures e !in Sub(m, done)
  {
  }

  lemma UnlinkedWithin(cs: seq<seq<Entry>>, es: set<Entry>, h: nat, i: nat)
    requires Single(cs) && h < |cs| && i < |cs[h]| && forall b, e :: 0 <= b < |cs| && e in cs[b] ==> e in es
    ensures forall b, e :: 0 <= b < |cs| && e in Unlinked(cs, h, i)[b] ==> e in es - {cs[h][i]}
    ensures forall b, j :: 0 <= b < |cs| && b != h && 0 <= j < |cs[b]| ==> cs[b][j] != cs[h][i]
    ensures forall j, k :: 0 <= j < k < |cs[h]| ==> cs[h][j] != cs[h][k]
  {
  }

  /** Leads around the `i`-th entry of chain `h`. */
  method Bypass(ghost cs: seq<seq<Entry>>, ghost es: set<Entry>, ghost i: nat, entry: Entry, prev: Entry?, buckets: array<Entry?>, h: nat)
    requires AllLinked(cs, buckets, es) && h < |cs| && i < |cs[h]| && Single(cs)
    requires entry == cs[h][i] && prev == (if i == 0 then null else cs[h][i - 1])
    modifies es`next, buckets
    ensures AllLinked(Unlinked(cs, h, i), buckets, es - {entry})
  {
    hide Single;
    ghost var c := cs[h];
    assert Linked(c, buckets[h]);
    UnlinkedWithin(cs, es, h, i);
    if prev == null {
      buckets[h] := entry.next;
    } else {
      prev.next := entry.next;
    }
    entry.next := null;
    ghost var cs' := Unlinked(cs, h, i);
    forall b | 0 <= b < |cs'| ensures (forall e :: e in cs'[b] ==> e in es - {entry}) && Linked(cs'[b], buckets[b]) {
      if b == h {
        forall j: nat | j < |cs'[h]| ensures cs'[h][j].next == At(cs'[h], j + 1) {
          assert cs'[h][j] == c[if j < i then j else j + 1];
        }
      } else {
        assert Linked(cs[b], old(buckets[b]));
      }
    }
  }

  /** hashmap_add_entry: an entry from elsewhere at the front of chain `h`. */
  method Prepend(ghost cs: seq<seq<Entry>>, ghost es: set<Entry>, e: Entry, buckets: array<Entry?>, h: nat)
    requires AllLinked(cs, buckets, es) && h < |cs| && e !in es
    modifies e`next, buckets
    ensures AllLinked(cs[h := [e] + cs[h]], buckets, es + {e})
  {
    assert Linked(cs[h], buckets[h]);
    e.next := buckets[h];
    buckets[h] := e;
    ghost var c', cs' := [e] + cs[h], cs[h := [e] + cs[h]];
    forall b | 0 <= b < |cs'| ensures (forall x :: x in cs'[b] ==> x in es + {e}) && Linked(cs'[b], buckets[b]) {
      if b == h {
        forall j: nat | j < |c'| ensures c'[j].next == At(c', j + 1) {
          if j > 0 { assert c'[j] == cs[h][j - 1]; }
        }
      } else {
        assert Linked(cs[b], old(buckets[b]));
      }
    }
  }

  /** No entry is in two places. */
  ghost predicate Single(cs: seq<seq<Entry>>) {
    && (forall b, i, j :: 0 <= b < |cs| && 0 <= i < j < |cs[b]| ==> cs[b][i] != cs[b][j])
    && (forall b, d, i, j :: 0 <= b < d < |cs| && 0 <= i < |cs[b]| && 0 <= j < |cs[d]| ==> cs[b][i] != cs[d][j])
  }

  /** The loop of hashmap_grow: every entry goes to the chain its hash now chooses. */
  method Rehash(hash: int -> nat, buckets: array<Entry?>, ghost cs: seq<seq<Entry>>, ghost es: set<Entry>,
                newBuckets: array<Entry?>, ghost nc0: seq<seq<Entry>>, newBits: nat, ghost m: Pairs)
    returns (ghost nc: seq<seq<Entry>>)
    requires AllLinked(cs, buckets, es) && Single(cs) && buckets != newBuckets
    requires m.Keys == es && forall e :: e in es ==> m[e].0 == e.key
    requires forall b, i :: 0 <= b < |cs| && 0 <= i < |cs[b]| ==> cs[b][i] in m
    requires forall e :: e in m ==> exists b :: 0 <= b < |cs| && e in cs[b]
    requires newBits <= MAX_CAP_BITS && Placed(hash, nc0, newBits, Sub(m, {})) && AllLinked(nc0, newBuckets, {})
    modifies es`next, newBuckets
    ensures Placed(hash, nc, newBits, Sub(m, es)) && AllLinked(nc, newBuckets, es)
  {
    hide Placed, HashBits, AllLinked, Single, Sub, MovedTo, Linked;
    nc := nc0;
    ghost var done: set<Entry> := {};
    NoneMoved(cs, buckets, es);
    var bkt := 0;
    while bkt < buckets.Length
      invariant 0 <= bkt <= buckets.Length == |cs| && done <= es
      invariant MovedTo(cs, done, bkt, 0)
      invariant forall d :: bkt <= d < |cs| ==> Linked(cs[d], buckets[d])
      invariant Placed(hash, nc, newBits, Sub(m, done)) && AllLinked(nc, newBuckets, done)
    {
      nc, done := MoveChain(hash, buckets, cs, es, newBuckets, nc, done, bkt, newBits, m);
      bkt := bkt + 1;
    }
    EverythingMoved(cs, done, m);
  }

  lemma OnceOnly(hash: int -> nat, cs: seq<seq<Entry>>, bits: nat, m: Pairs, h: nat, i: nat)
    requires Placed(hash, cs, bits, m) && h < |cs| && i < |cs[h]|
    ensures Single(cs)
  {
  }

  /** A key that equals none in its chain equals none at all. */
  lemma NotElsewhere(hash: int -> nat, equal: (int, int) -> bool, cs: seq<seq<Entry>>, bits: nat, m: Pairs, key: int)
    requires Placed(hash, cs, bits, m) && Compatible(hash, equal)
    requires forall e :: e in cs[BucketOf(hash, key, bits)] && e in m ==> !Same(equal, m[e].0, key)
    ensures forall e :: e in m ==> !Same(equal, m[e].0, key)
  {
    forall e | e in m ensures !Same(equal, m[e].0, key) {
      assert Same(equal, m[e].0, key) ==> hash(m[e].0) == hash(key);
      assert e in cs[BucketOf(hash, m[e].0, bits)];
    }
  }

  // ------------------------------------------------- the map it stands for

  datatype Option<T> = None | Some(value: T)

  /** No key has two entries, which holds as long as nothing is appended. */
  ghost predicate Functional(equal: (int, int) -> bool, m: Pairs) {
    forall x, y :: x in m && y in m && Same(equal, m[x].0, m[y].0) ==> x == y
  }

  /** The value of a key. */
  ghost function Lookup(equal: (int, int) -> bool, m: Pairs, key: int): (v: Option<int>)
    ensures v.None? <==> forall x :: x in m ==> !Same(equal, m[x].0, key)
  {
    if e :| e in m && Same(equal, m[e].0, key) then Some(m[e].1) else None
  }

  lemma LookupIs(hash: int -> nat, equal: (int, int) -> bool, m: Pairs, key: int, e: Entry)
    requires Compatible(hash, equal) && Functional(equal, m) && HasKey(equal, m, e, key)
    ensures Lookup(equal, m, key) == Some(m[e].1)
  {
    var x :| x in m && Same(equal, m[x].0, key) && Lookup(equal, m, key) == Some(m[x].1);
    assert Same(equal, key, m[e].0) && Same(equal, m[x].0, m[e].0);
  }

  /** Adding, setting and updating are those operations of a finite map: they
      succeed when these do, and change the value of that key only. */
  lemma InsertRefines(hash: int -> nat, equal: (int, int) -> bool, m: Pairs, m': Pairs, key: int, value: int,
                      strategy: Strategy, err: int, oldKey: int, oldValue: int, e: Entry?, q: int)
    requires Compatible(hash, equal) && Functional(equal, m) && strategy != Append && err != -ENOMEM
    requires Inserted(equal, m, m', key, value, strategy, err, oldKey, oldValue, e)
    ensures Functional(equal, m')
    ensures err == 0 <==>
      (strategy == Set || (strategy == Add && Lookup(equal, m, key).None?) || (strategy == Update && Lookup(equal, m, key).Some?))
    ensures Lookup(equal, m', q) == if err == 0 && Same(equal, key, q) then Some(value) else Lookup(equal, m, q)
    ensures Lookup(equal, m, key).Some? ==> Same(equal, oldKey, key) && Lookup(equal, m, key) == Some(oldValue)
  {
    if HasKey(equal, m, e, key) { LookupIs(hash, equal, m, key, e); }
    if err == 0 {
      WrittenFunctional(hash, equal, m, key, value, e);
      WrittenLookup(hash, equal, m, key, value, e, q);
    }
  }

  /** Two keys equal to a third, on whichever side, are equal. */
  lemma Classes(hash: int -> nat, equal: (int, int) -> bool)
    requires Compatible(hash, equal)
    ensures forall a, b, c :: Same(equal, a, c) && Same(equal, b, c) ==> Same(equal, a, b)
    ensures forall a, b, c :: Same(equal, c, a) && Same(equal, c, b) ==> Same(equal, a, b)
  {
  }

  lemma WrittenFunctional(hash: int -> nat, equal: (int, int) -> bool, m: Pairs, key: int, value: int, e: Entry)
    requires Compatible(hash, equal) && Functional(equal, m)
    requires HasKey(equal, m, e, key) || forall x :: x in m ==> !Same(equal, m[x].0, key)
    ensures Functional(equal, m[e := (key, value)])
  {
    Classes(hash, equal);
    var m' := m[e := (key, value)];
    forall x, y | x in m' && y in m' && Same(equal, m'[x].0, m'[y].0) ensures x == y {
    }
  }

  lemma WrittenLookup(hash: int -> nat, equal: (int, int) -> bool, m: Pairs, key: int, value: int, e: Entry, q: int)
    requires Compatible(hash, equal) && Functional(equal, m) && Functional(equal, m[e := (key, value)])
    requires HasKey(equal, m, e, key) || (e !in m && forall x :: x in m ==> !Same(equal, m[x].0, key))
    ensures Lookup(equal, m[e := (key, value)], q) == if Same(equal, key, q) then Some(value) else Lookup(equal, m, q)
  {
    Classes(hash, equal);
    var m' := m[e := (key, value)];
    if Same(equal, key, q) {
      assert HasKey(equal, m', e, q);
      LookupIs(hash, equal, m', q, e);
    } else if Lookup(equal, m, q).Some? {
      var x :| x in m && Same(equal, m[x].0, q);
      assert HasKey(equal, m, x, q) && HasKey(equal, m', x, q);
      LookupIs(hash, equal, m, q, x);
      LookupIs(hash, equal, m', q, x);
    } else {
      forall x | x in m' ensures !Same(equal, m'[x].0, q) {}
    }
  }

  /** Deleting is removal from a finite map. */
  lemma DeleteRefines(hash: int -> nat, equal: (int, int) -> bool, m: Pairs, key: int, gone: Entry, q: int)
    requires Compatible(hash, equal) && Functional(equal, m) && HasKey(equal, m, gone, key)
    ensures Functional(equal, m - {gone})
    ensures Lookup(equal, m - {gone}, q) == if Same(equal, key, q) then None else Lookup(equal, m, q)
  {
    Classes(hash, equal);
    var m' := m - {gone};
    if Same(equal, key, q) {
      forall x | x in m' ensures !Same(equal, m'[x].0, q) {
      }
    } else if Lookup(equal, m, q).Some? {
      var x :| x in m && Same(equal, m[x].0, q);
      assert HasKey(equal, m, x, q) && HasKey(equal, m', x, q);
      LookupIs(hash, equal, m, q, x);
      LookupIs(hash, equal, m', q, x);
    }
  }
}
