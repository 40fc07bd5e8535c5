/** Phrase substitution in the compressor: frequent phrases go into a trie, text is
    replaced by the longest phrases found in it, and nothing is lost. */
module Phrases {

  predicate IsSpace(c: char) {
    c == ' ' || c == '\t' || c == '\n' || c == '\r' || c == '\U{0B}' || c == '\U{0C}'
  }

  /** What the tokenizer produces: not empty, and without white space. */
  predicate IsToken(w: string) {
    w != [] && forall i :: 0 <= i < |w| ==> !IsSpace(w[i])
  }

  predicate AreTokens(ws: seq<string>) {
    forall i :: 0 <= i < |ws| ==> IsToken(ws[i])
  }

  // ---------------------------------------------------- phrases as map keys

  /** The words separated by single spaces. */
  function Join(ws: seq<string>): string {
    if ws == [] then "" else if |ws| == 1 then ws[0] else ws[0] + " " + Join(ws[1..])
  }

  /** How long the word at the start is. */
  function WordLen(s: string): (n: nat)
    ensures n <= |s|
  {
    if s == "" || IsSpace(s[0]) then 0 else 1 + WordLen(s[1..])
  }

  /** The words of a string, as extracted one after another from a stream. */
  function Split(s: string): seq<string>
    decreases |s|
  {
    if s == "" then []
    else if IsSpace(s[0]) then Split(s[1..])
    else [s[..WordLen(s)]] + Split(s[WordLen(s)..])
  }

  lemma {:induction false} WordLenIs(w: string, rest: string)
    requires (forall i :: 0 <= i < |w| ==> !IsSpace(w[i])) && (rest == "" || IsSpace(rest[0]))
    ensures WordLen(w + rest) == |w|
    decreases |w|
  {
    if w == [] {
      assert w + rest == rest;
    } else {
      WordLenIs(w[1..], rest);
      assert (w + rest)[1..] == w[1..] + rest;
    }
  }

  /** Splitting undoes joining, so that different phrases have different keys. */
  lemma {:induction false} SplitJoin(ws: seq<string>)
    requires AreTokens(ws)
    ensures Split(Join(ws)) == ws
    decreases |ws|
  {
    if ws != [] {
      var w := ws[0];
      if |ws| == 1 {
        WordLenIs(w, "");
        assert w + "" == w && w[|w|..] == "" && Split("") == [];
        assert w[..|w|] == w;
      } else {
        var rest := " " + Join(ws[1..]);
        assert Join(ws) == w + rest;
        WordLenIs(w, rest);
        assert (w + rest)[..|w|] == w && (w + rest)[|w|..] == rest && rest[1..] == Join(ws[1..]);
        SplitJoin(ws[1..]);
      }
    }
  }

  // ------------------------------------------------------------------ n-grams

  /** build_ngrams: every run of `lo` to `hi` tokens, by where it starts. */
  ghost function NGramsAt(tokens: seq<string>, i: nat, lo: nat, hi: nat): seq<seq<string>>
    decreases hi - lo
  {
    if lo > hi || i + lo > |tokens| then [] else [tokens[i..i + lo]] + NGramsAt(tokens, i, lo + 1, hi)
  }

  ghost function NGrams(tokens: seq<string>, n: nat): seq<seq<string>>
    requires n <= |tokens|
  {
    if n == 0 then [] else NGrams(tokens, n - 1) + NGramsAt(tokens, n - 1, 2, 5)
  }

  /** The phrase stands at place `i`. */
  predicate OccursAt(tokens: seq<string>, p: seq<string>, i: nat) {
    i + |p| <= |tokens| && tokens[i..i + |p|] == p
  }

  /** The places below `n` at which a phrase stands. */
  ghost function Places(tokens: seq<string>, p: seq<string>, n: nat): set<nat> {
    set i: nat | i < n && OccursAt(tokens, p, i)
  }

  /** How often a phrase of 2 to 5 words stands in the text. */
  ghost function Count(tokens: seq<string>, p: seq<string>): nat {
    if 2 <= |p| <= 5 then |Places(tokens, p, |tokens|)| else 0
  }

  lemma {:induction false} NGramsAtCount(tokens: seq<string>, i: nat, lo: nat, hi: nat, p: seq<string>)
    ensures multiset(NGramsAt(tokens, i, lo, hi))[p] == if lo <= |p| <= hi && OccursAt(tokens, p, i) then 1 else 0
    decreases hi - lo
  {
    hide OccursAt;
    IsRun(tokens, p, i, lo);
    if lo <= hi && i + lo <= |tokens| {
      NGramsAtCount(tokens, i, lo + 1, hi, p);
      CountFirst(tokens[i..i + lo], NGramsAt(tokens, i, lo + 1, hi), p);
    }
  }

  lemma IsRun(tokens: seq<string>, p: seq<string>, i: nat, lo: nat)
    ensures i + lo <= |tokens| ==> (p == tokens[i..i + lo] <==> |p| == lo && OccursAt(tokens, p, i))
    ensures i + lo > |tokens| && lo <= |p| ==> !OccursAt(tokens, p, i)
  {
  }

  lemma CountFirst(first: seq<string>, rest: seq<seq<string>>, p: seq<string>)
    ensures multiset([first] + rest)[p] == multiset(rest)[p] + if p == first then 1 else 0
  {
    assert multiset([first] + rest) == multiset{first} + multiset(rest);
  }

  lemma CountBoth(front: seq<seq<string>>, last: seq<seq<string>>, p: seq<string>)
    ensures multiset(front + last)[p] == multiset(front)[p] + multiset(last)[p]
  {
    assert multiset(front + last) == multiset(front) + multiset(last);
  }

  /** How often a phrase is among the n-grams: as often as it stands in the text, if it
      has 2 to 5 words. */
  lemma {:induction false} NGramsCount(tokens: seq<string>, n: nat, p: seq<string>)
    requires n <= |tokens|
    ensures multiset(NGrams(tokens, n))[p] == if 2 <= |p| <= 5 then |Places(tokens, p, n)| else 0
  {
    hide OccursAt, NGramsAt;
    if n > 0 {
      NGramsCount(tokens, n - 1, p);
      NGramsAtCount(tokens, n - 1, 2, 5, p);
      CountBoth(NGrams(tokens, n - 1), NGramsAt(tokens, n - 1, 2, 5), p);
      assert Places(tokens, p, n) == Places(tokens, p, n - 1) + if OccursAt(tokens, p, n - 1) then {n - 1} else {};
    }
  }

  /** The n-grams are exactly the runs of 2 to 5 tokens, each as often as it occurs. */
  lemma NGramsAre(tokens: seq<string>, p: seq<string>)
    ensures multiset(NGrams(tokens, |tokens|))[p] == Count(tokens, p)
    ensures p in NGrams(tokens, |tokens|) <==> 2 <= |p| <= 5 && exists i: nat :: OccursAt(tokens, p, i)
  {
    hide NGrams, OccursAt;
    NGramsCount(tokens, |tokens|, p);
    var places := Places(tokens, p, |tokens|);
    assert p in NGrams(tokens, |tokens|) <==> p in multiset(NGrams(tokens, |tokens|));
    if |p| > 0 { SomePlace(tokens, p); }
  }

  lemma SomePlace(tokens: seq<string>, p: seq<string>)
    requires |p| > 0
    ensures |Places(tokens, p, |tokens|)| > 0 <==> exists i: nat :: OccursAt(tokens, p, i)
  {
    var places := Places(tokens, p, |tokens|);
    forall i: nat | OccursAt(tokens, p, i) ensures i in places && |places| > 0 {}
    if places != {} {
      var i :| i in places;
      assert OccursAt(tokens, p, i);
    }
  }

  // ------------------------------------------------------------- the compressor

  /** A node of the phrase trie; children are named by their place in the table of nodes. */
  datatype Node = Node(children: map<string, nat>, isEnd: bool, phraseId: nat)

  datatype Token = WORD(word: string) | PHRASE(phraseId: nat)

  /** What the trie, the phrase dictionary and the word dictionary hold, as a value. */
  datatype Store = Store(nodes: seq<Node>, paths: seq<seq<string>>, phrases: seq<seq<nat>>, decode: seq<string>)

  function Decoded(codes: seq<nat>, decode: seq<string>): seq<string>
    requires forall c :: c in codes ==> c < |decode|
  {
    seq(|codes|, i requires 0 <= i < |codes| => assert codes[i] in codes; decode[codes[i]])
  }

  ghost predicate CodesOk(s: Store) {
    forall k, c :: 0 <= k < |s.phrases| && c in s.phrases[k] ==> c < |s.decode|
  }

  /** The trie is a tree: each node stands for one path from the root, and a node on
      a path has its continuation among its children. */
  ghost predicate IsTree(s: Store) {
    && |s.paths| == |s.nodes| > 0 && s.paths[0] == []
    && (forall n, w :: 0 <= n < |s.nodes| && w in s.nodes[n].children ==>
          0 < s.nodes[n].children[w] < |s.nodes| && s.paths[s.nodes[n].children[w]] == s.paths[n] + [w])
    && (forall i, j :: 0 <= i < |s.paths| && 0 <= j < |s.paths| && s.paths[i] == s.paths[j] ==> i == j)
    && (forall c :: 0 < c < |s.nodes| ==> HasParent(s, c))
  }

  ghost predicate HasParent(s: Store, c: nat)
    requires |s.paths| == |s.nodes| && c < |s.nodes|
  {
    s.paths[c] != [] &&
    exists n :: 0 <= n < |s.nodes| && s.paths[n] == s.paths[c][..|s.paths[c]| - 1] &&
      s.paths[c][|s.paths[c]| - 1] in s.nodes[n].children && s.nodes[n].children[s.paths[c][|s.paths[c]| - 1]] == c
  }

  /** The phrase of a node that ends one stands for the node's path. */
  ghost predicate EndsOk(s: Store) {
    && CodesOk(s) && |s.paths| == |s.nodes|
    && forall n :: 0 <= n < |s.nodes| && s.nodes[n].isEnd ==>
         s.nodes[n].phraseId < |s.phrases| && Decoded(s.phrases[s.nodes[n].phraseId], s.decode) == s.paths[n]
  }

  /** Phrase `id` of the dictionary is `p`. */
  ghost predicate StandsFor(s: Store, id: nat, p: seq<string>) {
    CodesOk(s) && id < |s.phrases| && Decoded(s.phrases[id], s.decode) == p
  }

  ghost predicate Good(s: Store) { IsTree(s) && EndsOk(s) }

  /** `p` is a stored phrase. */
  ghost predicate Stored(s: Store, p: seq<string>) {
    |s.paths| == |s.nodes| && exists n :: 0 <= n < |s.nodes| && s.paths[n] == p && s.nodes[n].isEnd
  }

  /** The `k` words from position `i` on are a stored phrase. */
  ghost predicate StoredAt(s: Store, tokens: seq<string>, i: nat, k: nat) {
    i + k <= |tokens| && Stored(s, tokens[i..i + k])
  }

  /** Every place on the path of a node has its own node, with the continuation among
      its children. */
  lemma {:induction false} NodeOnPath(s: Store, c: nat, k: nat) returns (m: nat)
    requires IsTree(s) && c < |s.nodes| && k < |s.paths[c]|
    ensures m < |s.nodes| && s.paths[m] == s.paths[c][..k] && s.paths[c][k] in s.nodes[m].children
    decreases |s.paths[c]|
  {
    var p := s.paths[c];
    assert c != 0 && HasParent(s, c);
    m :| 0 <= m < |s.nodes| && s.paths[m] == p[..|p| - 1] && p[|p| - 1] in s.nodes[m].children &&
      s.nodes[m].children[p[|p| - 1]] == c;
    if k < |p| - 1 {
      var q := m;
      m := NodeOnPath(s, q, k);
      assert s.paths[q][..k] == p[..k];
    }
  }

  /** Where a longer path exists, its next word is among the children. */
  lemma ChildExists(s: Store, n: nat, p: seq<string>)
    requires IsTree(s) && n < |s.nodes| && Stored(s, p) && |s.paths[n]| < |p| && p[..|s.paths[n]|] == s.paths[n]
    ensures p[|s.paths[n]|] in s.nodes[n].children
  {
    var c :| 0 <= c < |s.nodes| && s.paths[c] == p && s.nodes[c].isEnd;
    var m := NodeOnPath(s, c, |s.paths[n]|);
    assert m == n;
  }

  // ---------------------------------------------------------- growing the trie

  /** A new child of node `n`. */
  ghost function WithChild(s: Store, n: nat, w: string): Store
    requires n < |s.nodes| && |s.paths| == |s.nodes|
  {
    s.(nodes := s.nodes[n := s.nodes[n].(children := s.nodes[n].children[w := |s.nodes|])] + [Node(map[], false, 0)],
       paths := s.paths + [s.paths[n] + [w]])
  }

  lemma NewPath(s: Store, n: nat, w: string)
    requires IsTree(s) && n < |s.nodes| && w !in s.nodes[n].children
    ensures forall j :: 0 <= j < |s.paths| ==> s.paths[j] != s.paths[n] + [w]
  {
    forall j | 0 <= j < |s.paths| ensures s.paths[j] != s.paths[n] + [w] {
      if s.paths[j] == s.paths[n] + [w] {
        var m := NodeOnPath(s, j, |s.paths[n]|);
      }
    }
  }

  lemma WithChildParent(s: Store, n: nat, w: string, d: nat)
    requires IsTree(s) && n < |s.nodes| && w !in s.nodes[n].children && 0 < d <= |s.nodes|
    ensures HasParent(WithChild(s, n, w), d)
  {
    var s' := WithChild(s, n, w);
    var p := s'.paths[d];
    if d == |s.nodes| {
      assert p[..|p| - 1] == s'.paths[n] && p[|p| - 1] == w;
    } else {
      assert HasParent(s, d);
      var m :| 0 <= m < |s.nodes| && s.paths[m] == p[..|p| - 1] && p[|p| - 1] in s.nodes[m].children &&
        s.nodes[m].children[p[|p| - 1]] == d;
      assert s'.nodes[m].children[p[|p| - 1]] == d;
    }
  }

  lemma WithChildTree(s: Store, n: nat, w: string)
    requires IsTree(s) && n < |s.nodes| && w !in s.nodes[n].children
    ensures IsTree(WithChild(s, n, w))
  {
    hide HasParent;
    var s' := WithChild(s, n, w);
    NewPath(s, n, w);
    forall d | 0 < d < |s'.nodes| ensures HasParent(s', d) { WithChildParent(s, n, w, d); }
  }

  lemma WithChildGood(s: Store, n: nat, w: string)
    requires Good(s) && n < |s.nodes| && w !in s.nodes[n].children
    ensures Good(WithChild(s, n, w)) && forall p :: Stored(WithChild(s, n, w), p) <==> Stored(s, p)
  {
    hide IsTree;
    var s' := WithChild(s, n, w);
    WithChildTree(s, n, w);
    forall p ensures Stored(s', p) <==> Stored(s, p) {
      if Stored(s, p) {
        var x :| 0 <= x < |s.nodes| && s.paths[x] == p && s.nodes[x].isEnd;
        assert s'.paths[x] == p && s'.nodes[x].isEnd;
      }
      if Stored(s', p) {
        var x :| 0 <= x < |s'.nodes| && s'.paths[x] == p && s'.nodes[x].isEnd;
        assert x < |s.nodes| && s.paths[x] == p && s.nodes[x].isEnd;
      }
    }
  }

  /** Node `n` made the end of a phrase with these codes. */
  ghost function WithEnd(s: Store, n: nat, codes: seq<nat>): Store
    requires n < |s.nodes|
  {
    s.(nodes := s.nodes[n := s.nodes[n].(isEnd := true, phraseId := |s.phrases|)], phrases := s.phrases + [codes])
  }

  lemma WithEndGood(s: Store, n: nat, codes: seq<nat>)
    requires Good(s) && n < |s.nodes| && (forall c :: c in codes ==> c < |s.decode|) && Decoded(codes, s.decode) == s.paths[n]
    ensures Good(WithEnd(s, n, codes))
    ensures forall p :: Stored(WithEnd(s, n, codes), p) <==> Stored(s, p) || p == s.paths[n]
  {
    var s' := WithEnd(s, n, codes);
    forall d | 0 < d < |s'.nodes| ensures HasParent(s', d) {
      assert HasParent(s, d);
      var p := s.paths[d];
      var m :| 0 <= m < |s.nodes| && s.paths[m] == p[..|p| - 1] && p[|p| - 1] in s.nodes[m].children &&
        s.nodes[m].children[p[|p| - 1]] == d;
      assert s'.nodes[m].children[p[|p| - 1]] == d;
    }
    forall p ensures Stored(s', p) <==> Stored(s, p) || p == s.paths[n] {
      if Stored(s, p) {
        var x :| 0 <= x < |s.nodes| && s.paths[x] == p && s.nodes[x].isEnd;
        assert s'.paths[x] == p && s'.nodes[x].isEnd;
      }
      if p == s.paths[n] { assert s'.paths[n] == p && s'.nodes[n].isEnd; }
      if Stored(s', p) {
        var x :| 0 <= x < |s'.nodes| && s'.paths[x] == p && s'.nodes[x].isEnd;
        assert x == n || (s.paths[x] == p && s.nodes[x].isEnd);
      }
    }
  }

  /** More words in the dictionary change no phrase. */
  lemma MoreWordsGood(s: Store, decode: seq<string>)
    requires Good(s) && s.decode <= decode
    ensures Good(s.(decode := decode)) && forall p :: Stored(s.(decode := decode), p) <==> Stored(s, p)
  {
    var s' := s.(decode := decode);
    forall n | 0 <= n < |s.nodes| && s.nodes[n].isEnd
      ensures Decoded(s'.phrases[s.nodes[n].phraseId], s'.decode) == s'.paths[n]
    {
      var codes := s.phrases[s.nodes[n].phraseId];
      assert forall i :: 0 <= i < |codes| ==> codes[i] in codes;
    }
    forall d | 0 < d < |s'.nodes| ensures HasParent(s', d) { assert HasParent(s, d); }
    forall p ensures Stored(s', p) <==> Stored(s, p) {}
  }

  // ------------------------------------------------------------------ the class

  class Compressor {
    var encode: map<string, nat>      // main_encode_dict
    var decode: seq<string>           // main_decode_dict
    var nodes: seq<Node>              // phrase_trie_root and all below it
    var phrases: seq<seq<nat>>        // phrase_decode_dict
    ghost var paths: seq<seq<string>>

    ghost function State(): Store
      reads this
    {
      Store(nodes, paths, phrases, decode)
    }

    ghost predicate Valid()
      reads this
    {
      Good(State()) && forall w :: w in encode ==> encode[w] < |decode| && decode[encode[w]] == w
    }

    /** A fresh compressor stores no phrase. */
    constructor ()
      ensures Valid() && forall p :: !Stored(State(), p)
    {
      encode, decode, phrases := map[], [], [];
      nodes, paths := [Node(map[], false, 0)], [[]];
    }

    /** The code of a word, which may be new. */
    method CodeOf(w: string) returns (code: nat)
      requires Valid()
      modifies `encode, `decode
      ensures Valid() && code < |decode| && decode[code] == w && old(decode) <= decode
      ensures forall p :: Stored(State(), p) <==> old(Stored(State(), p))
    {
      hide Good, Stored;
      if w in encode {
        return encode[w];
      }
      code := |decode|;
      MoreWordsGood(State(), decode + [w]);
      decode := decode + [w];
      encode := encode[w := code];
    }

    /** The codes of the words of a phrase. */
    method CodesOf(ws: seq<string>) returns (codes: seq<nat>)
      requires Valid()
      modifies `encode, `decode
      ensures Valid() && (forall c :: c in codes ==> c < |decode|) && Decoded(codes, decode) == ws
      ensures forall p :: Stored(State(), p) <==> old(Stored(State(), p))
    {
      hide Good, Stored;
      codes := [];
      var i := 0;
      while i < |ws|
        invariant 0 <= i <= |ws| == |ws| && |codes| == i && Valid()
        invariant forall k :: 0 <= k < i ==> codes[k] < |decode| && decode[codes[k]] == ws[k]
        invariant forall p :: Stored(State(), p) <==> old(Stored(State(), p))
      {
        var c := CodeOf(ws[i]);
        codes := codes + [c];
        i := i + 1;
      }
    }

    /** Follows a phrase down the trie, adding nodes where there are none. */
    method NodeFor(ws: seq<string>) returns (n: nat)
      requires Valid()
      modifies `nodes, `paths
      ensures Valid() && n < |nodes| && |paths| == |nodes| && paths[n] == ws
      ensures forall p :: Stored(State(), p) <==> old(Stored(State(), p))
    {
      hide Good, Stored;
      n := 0;
      RootIs(State());
      var i := 0;
      while i < |ws|
        invariant 0 <= i <= |ws| && Valid() && n < |nodes| == |paths| && paths[n] == ws[..i]
        invariant forall p :: Stored(State(), p) <==> old(Stored(State(), p))
      {
        if ws[i] !in nodes[n].children {
          WithChildGood(State(), n, ws[i]);
          ghost var s := WithChild(State(), n, ws[i]);
          nodes := nodes[n := nodes[n].(children := nodes[n].children[ws[i] := |nodes|])] + [Node(map[], false, 0)];
          paths := paths + [paths[n] + [ws[i]]];
          assert State() == s;
        }
        ChildPath(State(), n, ws[i]);
        n := nodes[n].children[ws[i]];
        i := i + 1;
      }
      assert ws[..i] == ws;
    }

    /** Adds one phrase to the trie and to the phrase dictionary. */
    method AddPhrase(ws: seq<string>)
      requires Valid()
      modifies this
      ensures Valid() && forall p :: Stored(State(), p) <==> old(Stored(State(), p)) || p == ws
    {
      hide Good, Stored;
      var codes := CodesOf(ws);
      var n := NodeFor(ws);
      WithEndGood(State(), n, codes);
      ghost var s := WithEnd(State(), n, codes);
      phrases := phrases + [codes];
      nodes := nodes[n := nodes[n].(isEnd := true, phraseId := |phrases| - 1)];
      assert State() == s;
    }

    /** find_regular_phrases: stores every phrase of 2 to 5 words that occurs more
        than once, and all others too if there are few.  The order in which the
        phrases come out of the frequency table is left open. */
    method FindRegularPhrases(tokens: seq<string>)
      requires Valid() && AreTokens(tokens)
      modifies this
      ensures Valid()
      ensures forall p :: Stored(State(), p) <==> old(Stored(State(), p)) || Frequent(tokens, p)
    {
      hide Good, Stored, Frequent, ChosenFrom, Tallied, NGrams, Keys, AreTokens, Split;
      var ngrams := BuildNGrams(tokens);
      TokensInNGrams(tokens, |tokens|);
      var freqs := CountKeys(ngrams);
      TallyIs(tokens, ngrams, freqs);
      NoneChosen(freqs);
      var keys := freqs.Keys;
      while keys != {}
        invariant Valid() && keys <= freqs.Keys
        invariant forall p :: Stored(State(), p) <==> old(Stored(State(), p)) || ChosenFrom(freqs, freqs.Keys - keys, p)
        decreases keys
      {
        var key :| key in keys;
        ChosenMore(tokens, ngrams, freqs, freqs.Keys - keys, key);
        if freqs[key] >= MIN_PHRASE_FREQ || (freqs[key] == 1 && |freqs| < 1000) {
          AddPhrase(Split(key));
        }
        assert freqs.Keys - (keys - {key}) == freqs.Keys - keys + {key};
        keys := keys - {key};
      }
      assert freqs.Keys - keys == freqs.Keys;
      AllChosen(tokens, ngrams, freqs);
    }

    /** One position of process_with_phrases: the longest stored phrase of at most
        five words that starts there; 0 if there is none. */
    method LongestMatch(tokens: seq<string>, i: nat) returns (matchLength: nat, phraseId: nat)
      requires Valid() && i < |tokens|
      ensures matchLength <= 5 && i + matchLength <= |tokens|
      ensures forall k :: matchLength < k <= 5 ==> !StoredAt(State(), tokens, i, k)
      ensures matchLength > 0 ==> StoredAt(State(), tokens, i, matchLength) && StandsFor(State(), phraseId, tokens[i..i + matchLength])
    {
      hide Good, Stored, StandsFor;
      var current := 0;
      matchLength, phraseId := 0, 0;
      RootIs(State());
      var j := 0;
      while j < 5 && i + j < |tokens|
        invariant 0 <= j <= 5 && i + j <= |tokens| && current < |nodes| == |paths| && paths[current] == tokens[i..i + j]
        invariant matchLength <= j
        invariant forall k :: matchLength < k <= j ==> !StoredAt(State(), tokens, i, k)
        invariant matchLength > 0 ==> StoredAt(State(), tokens, i, matchLength) && StandsFor(State(), phraseId, tokens[i..i + matchLength])
      {
        var token := tokens[i + j];
        if token !in nodes[current].children {
          NothingLonger(State(), current, tokens, i, j);
          return;
        }
        ChildPath(State(), current, token);
        current := nodes[current].children[token];
        assert tokens[i..i + j] + [token] == tokens[i..i + (j + 1)];
        AtNode(State(), current);
        if nodes[current].isEnd {
          matchLength := j + 1;
          phraseId := nodes[current].phraseId;
        }
        j := j + 1;
      }
    }

    /** process_with_phrases, for a trie without wildcards; token `k` of the result
        replaces the words from cuts[k] to cuts[k + 1]. */
    method ProcessWithPhrases(tokens: seq<string>) returns (out: seq<Token>, ghost cuts: seq<nat>)
      requires Valid()
      ensures CodesOk(State()) && ExpandAll(State(), out) == tokens
      ensures |cuts| == |out| + 1 && cuts[0] == 0 && cuts[|out|] == |tokens|
      ensures forall k :: 0 <= k < |out| ==> Replaces(State(), tokens, cuts[k], cuts[k + 1], out[k])
    {
      hide Good, CodesOk, Replaces, StoredAt, StandsFor, ExpandAll;
      out, cuts := [], [0];
      CodesAreOk(State());
      var i := 0;
      while i < |tokens|
        invariant 0 <= i <= |tokens| && |cuts| == |out| + 1 && cuts[0] == 0 && cuts[|out|] == i
        invariant forall k :: 0 <= k < |out| ==> Replaces(State(), tokens, cuts[k], cuts[k + 1], out[k])
        decreases |tokens| - i
      {
        var matchLength, phraseId := LongestMatch(tokens, i);
        ghost var start := i;
        if matchLength > 0 {
          out := out + [PHRASE(phraseId)];
          i := i + matchLength;
        } else {
          out := out + [WORD(tokens[i])];
          i := i + 1;
        }
        cuts := cuts + [i];
        Replaced(State(), tokens, start, matchLength, phraseId);
      }
      Lossless(State(), tokens, out, cuts);
      assert tokens[..|tokens|] == tokens;
    }
  }

  /** The words that a token stands for. */
  ghost function Expanded(s: Store, t: Token): seq<string>
    requires CodesOk(s)
  {
    match t
    case WORD(w) => [w]
    case PHRASE(id) => if id < |s.phrases| then Decoded(s.phrases[id], s.decode) else []
  }

  /** Token `t` stands for the words from `i` to `j`, and greedily: they are the
      longest stored phrase of at most five words there, or a single word where no
      stored phrase starts. */
  ghost predicate Replaces(s: Store, tokens: seq<string>, i: nat, j: nat, t: Token) {
    && i < j <= |tokens| && j - i <= 5 && CodesOk(s) && Expanded(s, t) == tokens[i..j]
    && (t.PHRASE? ==> StoredAt(s, tokens, i, j - i))
    && (forall k: nat :: (if t.PHRASE? then j - i else 0) < k <= 5 ==> !StoredAt(s, tokens, i, k))
  }

  lemma Replaced(s: Store, tokens: seq<string>, i: nat, k: nat, id: nat)
    requires i < |tokens| && k <= 5 && i + k <= |tokens| && CodesOk(s)
    requires forall x: nat :: k < x <= 5 ==> !StoredAt(s, tokens, i, x)
    requires k > 0 ==> StoredAt(s, tokens, i, k) && StandsFor(s, id, tokens[i..i + k])
    ensures if k > 0 then Replaces(s, tokens, i, i + k, PHRASE(id)) else Replaces(s, tokens, i, i + 1, WORD(tokens[i]))
  {
    hide StoredAt, Decoded;
  }

  lemma CodesAreOk(s: Store)
    requires Good(s)
    ensures CodesOk(s)
  {
  }

  ghost function ExpandAll(s: Store, out: seq<Token>): seq<string>
    requires CodesOk(s)
  {
    if out == [] then [] else ExpandAll(s, out[..|out| - 1]) + Expanded(s, out[|out| - 1])
  }

  /** Nothing is lost: expanding the result gives back the tokens. */
  lemma {:induction false} Lossless(s: Store, tokens: seq<string>, out: seq<Token>, cuts: seq<nat>)
    requires CodesOk(s) && |cuts| == |out| + 1 && cuts[0] == 0 && cuts[|out|] <= |tokens|
    requires forall k :: 0 <= k < |out| ==> Replaces(s, tokens, cuts[k], cuts[k + 1], out[k])
    ensures ExpandAll(s, out) == tokens[..cuts[|out|]]
    decreases |out|
  {
    hide CodesOk, Replaces, Expanded;
    if out != [] {
      var n := |out| - 1;
      StandsThere(s, tokens, cuts[n], cuts[n + 1], out[n]);
      Lossless(s, tokens, out[..n], cuts[..n + 1]);
      assert tokens[..cuts[n]] + tokens[cuts[n]..cuts[n + 1]] == tokens[..cuts[n + 1]];
    }
  }

  lemma StandsThere(s: Store, tokens: seq<string>, i: nat, j: nat, t: Token)
    requires Replaces(s, tokens, i, j, t)
    ensures CodesOk(s) && i < j <= |tokens| && Expanded(s, t) == tokens[i..j]
  {
  }

  lemma NothingLonger(s: Store, n: nat, tokens: seq<string>, i: nat, j: nat)
    requires Good(s) && n < |s.nodes| && i + j < |tokens| && s.paths[n] == tokens[i..i + j]
    requires tokens[i + j] !in s.nodes[n].children
    ensures forall k: nat :: j < k ==> !StoredAt(s, tokens, i, k)
  {
    hide EndsOk;
    forall k: nat | j < k ensures !StoredAt(s, tokens, i, k) {
      if StoredAt(s, tokens, i, k) {
        var p := tokens[i..i + k];
        assert p[..j] == s.paths[n] && p[j] == tokens[i + j];
        ChildExists(s, n, p);
      }
    }
  }

  lemma AtNode(s: Store, n: nat)
    requires Good(s) && n < |s.nodes|
    ensures |s.paths| == |s.nodes| && (Stored(s, s.paths[n]) <==> s.nodes[n].isEnd)
    ensures s.nodes[n].isEnd ==> StandsFor(s, s.nodes[n].phraseId, s.paths[n])
  {
  }

  /** The frequencies of all n-grams, under their keys. */
  ghost predicate Tallied(tokens: seq<string>, ngrams: seq<seq<string>>, freqs: map<string, nat>) {
    && ngrams == NGrams(tokens, |tokens|) && freqs.Keys == Keys(ngrams)
    && forall i :: 0 <= i < |ngrams| ==> AreTokens(ngrams[i]) && freqs[Join(ngrams[i])] == Count(tokens, ngrams[i])
  }

  lemma TallyIs(tokens: seq<string>, ngrams: seq<seq<string>>, freqs: map<string, nat>)
    requires ngrams == NGrams(tokens, |tokens|) && freqs.Keys == Keys(ngrams)
    requires forall i :: 0 <= i < |ngrams| ==> AreTokens(ngrams[i]) && freqs[Join(ngrams[i])] == multiset(ngrams)[ngrams[i]]
    ensures Tallied(tokens, ngrams, freqs)
  {
    hide NGrams, Count, Join, AreTokens, Keys;
    forall i | 0 <= i < |ngrams| ensures Join(ngrams[i]) in Keys(ngrams) { KeyOf(ngrams, i); }
    forall i | 0 <= i < |ngrams| ensures freqs[Join(ngrams[i])] == Count(tokens, ngrams[i]) {
      NGramsAre(tokens, ngrams[i]);
    }
  }

  /** The frequency of a key makes its phrase worth storing. */
  predicate Chosen(freqs: map<string, nat>, key: string)
    requires key in freqs
  {
    freqs[key] >= MIN_PHRASE_FREQ || (freqs[key] == 1 && |freqs| < 1000)
  }

  /** `p` is the phrase of a key among `keys` that is chosen. */
  ghost predicate ChosenFrom(freqs: map<string, nat>, keys: set<string>, p: seq<string>) {
    Join(p) in keys && Join(p) in freqs && Split(Join(p)) == p && Chosen(freqs, Join(p))
  }

  lemma NoneChosen(freqs: map<string, nat>)
    ensures forall p :: !ChosenFrom(freqs, freqs.Keys - freqs.Keys, p)
  {
  }

  lemma ChosenMore(tokens: seq<string>, ngrams: seq<seq<string>>, freqs: map<string, nat>, keys: set<string>, key: string)
    requires Tallied(tokens, ngrams, freqs) && key in freqs
    ensures forall p :: ChosenFrom(freqs, keys + {key}, p) <==>
              ChosenFrom(freqs, keys, p) || (Chosen(freqs, key) && p == Split(key))
  {
    var i :| 0 <= i < |ngrams| && Join(ngrams[i]) == key;
    SplitJoin(ngrams[i]);
  }

  lemma AllChosen(tokens: seq<string>, ngrams: seq<seq<string>>, freqs: map<string, nat>)
    requires Tallied(tokens, ngrams, freqs)
    ensures forall p :: ChosenFrom(freqs, freqs.Keys, p) <==> Frequent(tokens, p)
  {
    hide NGrams, Count, Join, Split, IsToken;
    forall p ensures ChosenFrom(freqs, freqs.Keys, p) <==> Frequent(tokens, p) {
      if ChosenFrom(freqs, freqs.Keys, p) {
        var i :| 0 <= i < |ngrams| && Join(ngrams[i]) == Join(p);
        SplitJoin(ngrams[i]);
      }
      if Frequent(tokens, p) {
        NGramsAre(tokens, p);
        assert p in ngrams;
        var i :| 0 <= i < |ngrams| && ngrams[i] == p;
        SplitJoin(p);
      }
    }
  }

  lemma {:induction false} TokensInNGramsAt(tokens: seq<string>, i: nat, lo: nat, hi: nat)
    requires AreTokens(tokens)
    ensures forall p :: p in NGramsAt(tokens, i, lo, hi) ==> AreTokens(p)
    decreases hi - lo
  {
    if lo <= hi && i + lo <= |tokens| { TokensInNGramsAt(tokens, i, lo + 1, hi); }
  }

  lemma {:induction false} TokensInNGrams(tokens: seq<string>, n: nat)
    requires AreTokens(tokens) && n <= |tokens|
    ensures forall p :: p in NGrams(tokens, n) ==> AreTokens(p)
  {
    if n > 0 {
      TokensInNGrams(tokens, n - 1);
      TokensInNGramsAt(tokens, n - 1, 2, 5);
    }
  }

  const MIN_PHRASE_FREQ := 2

  /** The frequency of a phrase makes it worth storing. */
  ghost predicate Frequent(tokens: seq<string>, p: seq<string>) {
    Count(tokens, p) >= MIN_PHRASE_FREQ || (Count(tokens, p) == 1 && |Keys(NGrams(tokens, |tokens|))| < 1000)
  }

  /** The keys of phrases. */
  ghost function Keys(ngrams: seq<seq<string>>): set<string> {
    set i | 0 <= i < |ngrams| :: Join(ngrams[i])
  }

  /** build_ngrams(tokens, 2, 5) */
  method BuildNGrams(tokens: seq<string>) returns (ngrams: seq<seq<string>>)
    ensures ngrams == NGrams(tokens, |tokens|)
  {
    ngrams := [];
    var i := 0;
    while i < |tokens|
      invariant 0 <= i <= |tokens| && ngrams == NGrams(tokens, i)
    {
      ghost var before := ngrams;
      var size := 2;
      while size <= 5 && i + size <= |tokens|
        invariant 2 <= size <= 6 && ngrams + NGramsAt(tokens, i, size, 5) == before + NGramsAt(tokens, i, 2, 5)
      {
        ngrams := ngrams + [tokens[i..i + size]];
        size := size + 1;
      }
      i := i + 1;
    }
  }

  /** The string that stands for an n-gram. */
  method JoinWords(ngram: seq<string>) returns (s: string)
    ensures s == Join(ngram)
  {
    s := "";
    assert ngram[0..] == ngram;
    var i := 0;
    while i < |ngram|
      invariant 0 <= i <= |ngram| && s + Join(ngram[i..]) == Join(ngram)
    {
      assert ngram[i..][1..] == ngram[i + 1..];
      s := s + ngram[i];
      if i < |ngram| - 1 {
        s := s + " ";
      }
      i := i + 1;
    }
  }

  /** Counts how often each key occurs. */
  method CountKeys(ngrams: seq<seq<string>>) returns (freqs: map<string, nat>)
    requires forall i :: 0 <= i < |ngrams| ==> AreTokens(ngrams[i])
    ensures freqs.Keys == Keys(ngrams)
    ensures forall i :: 0 <= i < |ngrams| ==> freqs[Join(ngrams[i])] == multiset(ngrams)[ngrams[i]]
  {
    freqs := map[];
    var k := 0;
    while k < |ngrams|
      invariant 0 <= k <= |ngrams| && Counted(freqs, ngrams[..k])
    {
      var key := JoinWords(ngrams[k]);
      assert ngrams[..k + 1] == ngrams[..k] + [ngrams[k]];
      CountedMore(freqs, ngrams[..k], ngrams[k]);
      freqs := freqs[key := (if key in freqs then freqs[key] else 0) + 1];
      k := k + 1;
    }
    assert ngrams[..k] == ngrams;
  }

  ghost predicate Counted(freqs: map<string, nat>, ngrams: seq<seq<string>>) {
    && freqs.Keys == Keys(ngrams)
    && (forall i :: 0 <= i < |ngrams| ==> AreTokens(ngrams[i]))
    && (forall i :: 0 <= i < |ngrams| ==> freqs[Join(ngrams[i])] == multiset(ngrams)[ngrams[i]])
  }

  lemma KeysMore(ngrams: seq<seq<string>>, p: seq<string>)
    ensures Keys(ngrams + [p]) == Keys(ngrams) + {Join(p)}
  {
    hide Join;
    var more := ngrams + [p];
    forall k | k in Keys(ngrams) + {Join(p)} ensures k in Keys(more) {
      if k in Keys(ngrams) {
        var i :| 0 <= i < |ngrams| && Join(ngrams[i]) == k;
        assert more[i] == ngrams[i];
      } else {
        assert more[|ngrams|] == p;
      }
    }
  }

  lemma SameKey(p: seq<string>, q: seq<string>)
    requires AreTokens(p) && AreTokens(q)
    ensures Join(p) == Join(q) <==> p == q
  {
    hide Join, Split;
    SplitJoin(p);
    SplitJoin(q);
  }

  /** What the table says of a phrase, which may be missing. */
  lemma CountSoFar(freqs: map<string, nat>, ngrams: seq<seq<string>>, p: seq<string>)
    requires Counted(freqs, ngrams) && AreTokens(p)
    ensures (if Join(p) in freqs then freqs[Join(p)] else 0) == multiset(ngrams)[p]
  {
    hide Join, Split, IsToken, AreTokens;
    if Join(p) in freqs {
      var i :| 0 <= i < |ngrams| && Join(ngrams[i]) == Join(p);
      SameKey(ngrams[i], p);
    }
  }

  lemma CountedMore(freqs: map<string, nat>, ngrams: seq<seq<string>>, p: seq<string>)
    requires Counted(freqs, ngrams) && AreTokens(p)
    ensures Counted(freqs[Join(p) := (if Join(p) in freqs then freqs[Join(p)] else 0) + 1], ngrams + [p])
  {
    hide Join, Split, IsToken, AreTokens, Keys;
    var more, n := ngrams + [p], (if Join(p) in freqs then freqs[Join(p)] else 0) + 1;
    CountSoFar(freqs, ngrams, p);
    KeysMore(ngrams, p);
    assert multiset(more) == multiset(ngrams) + multiset{p};
    forall i | 0 <= i < |ngrams| ensures Join(ngrams[i]) in Keys(ngrams) { KeyOf(ngrams, i); }
    forall i | 0 <= i < |more| ensures AreTokens(more[i]) && freqs[Join(p) := n][Join(more[i])] == multiset(more)[more[i]] {
      if i < |ngrams| { SameKey(ngrams[i], p); }
    }
  }

  lemma KeyOf(ngrams: seq<seq<string>>, i: nat)
    requires i < |ngrams|
    ensures Join(ngrams[i]) in Keys(ngrams)
  {
  }

  lemma RootIs(s: Store)
    requires Good(s)
    ensures |s.paths| == |s.nodes| > 0 && s.paths[0] == []
  {
  }

  lemma ChildPath(s: Store, n: nat, w: string)
    requires Good(s) && n < |s.nodes| && w in s.nodes[n].children
    ensures |s.paths| == |s.nodes| && s.nodes[n].children[w] < |s.nodes|
    ensures s.paths[s.nodes[n].children[w]] == s.paths[n] + [w]
  {
  }
}
