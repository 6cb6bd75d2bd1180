/** Compressing the word index: chains of nodes without a choice become one edge with a longer label. */
module EmojiPruning {
  import opened Sets
  import opened EmojiTrie

  /** The uncompressed trie. */
  datatype Trie = Trie(counts: map<Path, nat>, matches: map<Path, set<Emoji>>)

  /** The keys of one node's dictionary: the two underscore keys, and the characters of its subnodes. */
  datatype Key = Count | Match | Char(c: char)

  function NodeKeys(t: Trie, q: Path): set<Key> {
    {Count} + (if q in t.matches then {Match} else {}) + set c: char | q + [c] in t.counts :: Char(c)
  }

  /** Every node but the root is under one and over a match; matches are at nodes below the root. */
  ghost predicate WellFormed(t: Trie) {
    && "" in t.counts
    && (forall p {:trigger Hangs(t, p)} :: p in t.counts && p != "" ==> Hangs(t, p))
    && (forall w | w in t.matches :: w in t.counts && w != "")
  }

  ghost predicate Hangs(t: Trie, p: Path) {
    p != "" && p[..|p| - 1] in t.counts && AboveMatch(t, p)
  }

  ghost predicate AboveMatch(t: Trie, p: Path) {
    exists w :: w in t.matches && p <= w
  }

  /** What buildTrie makes is such a trie. */
  lemma BuiltIsWellFormed(t: Trie, pairs: set<(Path, Emoji)>)
    requires CountsPairs(t.counts, pairs) && MatchesPairs(t.matches, pairs) && forall x | x in pairs :: x.0 != ""
    ensures WellFormed(t)
  {
    forall p | p in t.counts && p != "" ensures Hangs(t, p) {
      var x :| x in Through(pairs, p);
      assert (x.0, x.1) in pairs;
      assert x in Through(pairs, p[..|p| - 1]);
    }
    forall w | w in t.matches ensures w in t.counts && w != "" {
      var e :| e in t.matches[w];
      assert (w, e) in Through(pairs, w);
    }
  }

  /** A node is copied when it has a choice or a match. */
  predicate Kept(t: Trie, q: Path) {
    |NodeKeys(t, q)| > 2 || q in t.matches
  }

  ghost predicate KeptNodes(t: Trie, kept: set<Path>) {
    forall q {:trigger Kept(t, q)} :: q in kept <==> q in t.counts && Kept(t, q)
  }

  /** The labels on the way to a node: a new one after each node that is copied. */
  function Label(kept: set<Path>, q: Path): (l: Labels)
    ensures l == [] <==> q == ""
  {
    if q == "" then [] else
      var p, c := q[..|q| - 1], q[|q| - 1];
      var l := Label(kept, p);
      if p == "" || p in kept then l + [[c]] else l[|l| - 1 := l[|l| - 1] + [c]]
  }

  function Flatten(l: Labels): Path {
    if l == [] then "" else Flatten(l[..|l| - 1]) + l[|l| - 1]
  }

  lemma {:induction false} FlattenLabel(kept: set<Path>, q: Path)
    ensures Flatten(Label(kept, q)) == q
  {
    if q != "" {
      var p, c := q[..|q| - 1], q[|q| - 1];
      FlattenLabel(kept, p);
      var l := Label(kept, p);
      assert q == p + [c];
      if p == "" || p in kept {
        assert (l + [[c]])[..|l|] == l;
      } else {
        var m := l[|l| - 1 := l[|l| - 1] + [c]];
        assert m[..|m| - 1] == l[..|l| - 1];
      }
    }
  }

  function Below(t: Trie, q: Path): set<Path> {
    set p | p in t.counts && q <= p
  }

  /** The nodes under `q` that are reached through the given keys, and `q` itself if `own` is one of them. */
  function Covered(t: Trie, q: Path, keys: set<Key>, own: Key): set<Path> {
    set p | p in t.counts && q <= p && if p == q then own in keys else Char(p[|q|]) in keys
  }

  /** Of the nodes in `done` exactly the kept ones are in the final trie, with their counts. */
  ghost predicate CountsCopied(t: Trie, kept: set<Path>, counts: map<Labels, nat>, done: set<Path>) {
    && (forall q {:trigger Label(kept, q)} | q in done && q in t.counts && q in kept ::
      Label(kept, q) in counts && counts[Label(kept, q)] == t.counts[q])
    && (forall l | l in counts ::
      Flatten(l) in done && Flatten(l) in t.counts && Flatten(l) in kept && l == Label(kept, Flatten(l)))
  }

  ghost predicate MatchesCopied(t: Trie, kept: set<Path>, matches: map<Labels, set<Emoji>>, done: set<Path>) {
    && (forall q {:trigger Label(kept, q)} | q in done && q in t.matches ::
      Label(kept, q) in matches && matches[Label(kept, q)] == t.matches[q])
    && (forall l | l in matches :: Flatten(l) in done && Flatten(l) in t.matches && l == Label(kept, Flatten(l)))
  }

  lemma CountPut(t: Trie, kept: set<Path>, counts: map<Labels, nat>, done: set<Path>, q: Path, l: Labels)
    requires CountsCopied(t, kept, counts, done) && q in t.counts && q in kept && l == Label(kept, q)
    ensures CountsCopied(t, kept, counts[l := t.counts[q]], done + {q})
  {
    FlattenLabel(kept, q);
    forall r | r in done && r in t.counts && r in kept ensures Label(kept, r) == l ==> r == q {
      FlattenLabel(kept, r);
    }
  }

  lemma MatchPut(t: Trie, kept: set<Path>, matches: map<Labels, set<Emoji>>, done: set<Path>, q: Path, l: Labels)
    requires MatchesCopied(t, kept, matches, done) && q in t.matches && l == Label(kept, q)
    ensures MatchesCopied(t, kept, matches[l := t.matches[q]], done + {q})
  {
    FlattenLabel(kept, q);
    forall r | r in done && r in t.matches
      ensures Label(kept, r) in matches && matches[Label(kept, r)] == t.matches[r] && (Label(kept, r) == l ==> r == q)
    {
      FlattenLabel(kept, r);
    }
  }

  lemma {:induction false} PrefixIn(t: Trie, p: Path, n: nat)
    requires WellFormed(t) && p in t.counts && n <= |p|
    ensures p[..n] in t.counts
    decreases |p|
  {
    if n == |p| {
      assert p[..n] == p;
    } else {
      assert Hangs(t, p);
      PrefixIn(t, p[..|p| - 1], n);
      assert p[..|p| - 1][..n] == p[..n];
    }
  }

  lemma CoveredMore(t: Trie, q: Path, keys: set<Key>, key: Key, own: Key)
    requires !own.Char?
    ensures Covered(t, q, keys + {key}, own) == Covered(t, q, keys, own) + Gain(t, q, key, own)
  {
    forall p | p in t.counts && q <= p
      ensures p in Covered(t, q, keys + {key}, own) <==> p in Covered(t, q, keys, own) + Gain(t, q, key, own)
    {
      if p != q && key.Char? {
        assert q + [key.c] <= p <==> key.c == p[|q|];
      }
    }
  }

  /** What one more key adds. */
  function Gain(t: Trie, q: Path, key: Key, own: Key): set<Path> {
    if key.Char? then Below(t, q + [key.c]) else if key == own && q in t.counts then {q} else {}
  }

  lemma CoveredAll(t: Trie, q: Path)
    requires WellFormed(t) && q in t.counts
    ensures Covered(t, q, NodeKeys(t, q), Count) == Below(t, q)
    ensures Covered(t, q, NodeKeys(t, q), Match) == if q in t.matches then Below(t, q) else Below(t, q) - {q}
  {
    forall p | p in Below(t, q) && p != q ensures Char(p[|q|]) in NodeKeys(t, q) {
      BelowOne(t, q, p);
    }
  }

  /** The subnode for one of a node's characters. */
  lemma Subnode(t: Trie, kept: set<Path>, q: Path, c: char)
    requires q in t.counts && Char(c) in NodeKeys(t, q)
    ensures q + [c] in t.counts && |Below(t, q + [c])| < |Below(t, q)|
    ensures Label(kept, q + [c]) ==
      if q == "" || q in kept then Label(kept, q) + [[c]]
      else Label(kept, q)[|Label(kept, q)| - 1 := Label(kept, q)[|Label(kept, q)| - 1] + [c]]
  {
    var p := q + [c];
    assert p[..|p| - 1] == q;
    SubsetSize(Below(t, p), Below(t, q));
    assert q in Below(t, q) && q !in Below(t, p);
  }

  /** A node that is not copied goes on in at most one way, and unless it is the root in exactly one. */
  lemma NotKept(t: Trie, q: Path)
    requires WellFormed(t) && q in t.counts && !Kept(t, q)
    ensures NodeKeys(t, q) == {Count} || exists c :: NodeKeys(t, q) == {Count, Char(c)}
    ensures q != "" ==> NodeKeys(t, q) != {Count}
  {
    var others := NodeKeys(t, q) - {Count};
    assert NodeKeys(t, q) == {Count} + others;
    if q != "" {
      GoesOnBelow(t, q);
    }
    if others != {} {
      NonEmpty(others);
      var key :| key in others;
      SubsetSize({key}, others);
      assert NodeKeys(t, q) == {Count, Char(key.c)};
    }
  }

  lemma GoesOnBelow(t: Trie, q: Path)
    requires WellFormed(t) && q in t.counts && q != "" && q !in t.matches
    ensures exists c :: Char(c) in NodeKeys(t, q)
  {
    assert Hangs(t, q);
    var w :| w in t.matches && q <= w;
    assert |w| == |q| ==> w == q;
    PrefixIn(t, w, |q| + 1);
    assert w[..|q| + 1] == q + [w[|q|]];
    assert Char(w[|q|]) in NodeKeys(t, q);
  }

  class FinalTrie {
    var counts: map<Labels, nat>
    var matches: map<Labels, set<Emoji>>

    constructor ()
      ensures counts == map[] && matches == map[]
    {
      counts, matches := map[], map[];
    }

    ghost predicate Copied(t: Trie, kept: set<Path>, forCounts: set<Path>, forMatches: set<Path>)
      reads this
    {
      CountsCopied(t, kept, counts, forCounts) && MatchesCopied(t, kept, matches, forMatches)
    }

    /** finalTrie.put of one of the underscore keys. */
    method Put(t: Trie, ghost kept: set<Path>, q: Path, l: Labels, key: Key, ghost forCounts: set<Path>,
        ghost forMatches: set<Path>)
      requires WellFormed(t) && q in t.counts && l == Label(kept, q) && q in kept && key in NodeKeys(t, q) && !key.Char?
      requires Copied(t, kept, forCounts, forMatches)
      modifies this
      ensures Copied(t, kept, forCounts + Gain(t, q, key, Count), forMatches + Gain(t, q, key, Match))
    {
      if key == Count {
        CountPut(t, kept, counts, forCounts, q, l);
        counts := counts[l := t.counts[q]];
      } else {
        MatchPut(t, kept, matches, forMatches, q, l);
        matches := matches[l := t.matches[q]];
      }
      assert forCounts + {} == forCounts && forMatches + {} == forMatches;
    }

    /**
     * Copies the nodes under `uniPath`. The sets say which nodes were dealt with before, for the counts
     * and for the matches. At the root, a single subnode would be appended to a label that does not exist.
     */
    method PruneTrie(t: Trie, ghost kept: set<Path>, uniPath: Path, prunePath: Labels,
                     ghost forCounts: set<Path>, ghost forMatches: set<Path>)
      requires WellFormed(t) && KeptNodes(t, kept) && uniPath in t.counts && prunePath == Label(kept, uniPath)
      requires uniPath == "" ==> |NodeKeys(t, uniPath)| != 2
      requires Copied(t, kept, forCounts, forMatches)
      modifies this
      ensures Copied(t, kept, forCounts + Below(t, uniPath), forMatches + Below(t, uniPath))
      decreases |Below(t, uniPath)|, 2
    {
      if |NodeKeys(t, uniPath)| > 2 {
        CopyAll(t, kept, uniPath, prunePath, forCounts, forMatches);
      } else if uniPath in t.matches {
        CopyAll(t, kept, uniPath, prunePath, forCounts, forMatches);
      } else {
        GoOn(t, kept, uniPath, prunePath, forCounts, forMatches);
      }
    }

    /** The node's own entries and everything below it; a node with a match and no choice has no subnodes. */
    method CopyAll(t: Trie, ghost kept: set<Path>, uniPath: Path, prunePath: Labels,
                   ghost forCounts: set<Path>, ghost forMatches: set<Path>)
      requires WellFormed(t) && KeptNodes(t, kept) && uniPath in t.counts && prunePath == Label(kept, uniPath)
      requires Kept(t, uniPath) && Copied(t, kept, forCounts, forMatches)
      modifies this
      ensures Copied(t, kept, forCounts + Below(t, uniPath), forMatches + Below(t, uniPath))
      decreases |Below(t, uniPath)|, 1
    {
      var rest := NodeKeys(t, uniPath);
      ghost var keys: set<Key>, c, m := {}, forCounts, forMatches;
      NothingCovered(t, uniPath, forCounts, forMatches);
      while rest != {}
        invariant keys + rest == NodeKeys(t, uniPath) && Copied(t, kept, c, m)
        invariant c == forCounts + Covered(t, uniPath, keys, Count)
          && m == forMatches + Covered(t, uniPath, keys, Match)
        decreases |rest|
      {
        NonEmpty(rest);
        var key :| key in rest;
        MoreCovered(t, uniPath, keys, key, forCounts, Count);
        MoreCovered(t, uniPath, keys, key, forMatches, Match);
        CopyKey(t, kept, uniPath, prunePath, key, c, m);
        c, m := c + Gain(t, uniPath, key, Count), m + Gain(t, uniPath, key, Match);
        rest, keys := rest - {key}, keys + {key};
      }
      CoveredAll(t, uniPath);
      MatchesBelow(t, kept, matches, forMatches, uniPath);
    }

    /** One entry of a node that is copied. */
    method CopyKey(t: Trie, ghost kept: set<Path>, uniPath: Path, prunePath: Labels, key: Key,
                   ghost forCounts: set<Path>, ghost forMatches: set<Path>)
      requires WellFormed(t) && KeptNodes(t, kept) && uniPath in t.counts && prunePath == Label(kept, uniPath)
      requires uniPath in kept && key in NodeKeys(t, uniPath) && Copied(t, kept, forCounts, forMatches)
      modifies this
      ensures Copied(t, kept, forCounts + Gain(t, uniPath, key, Count), forMatches + Gain(t, uniPath, key, Match))
      decreases |Below(t, uniPath)|, 0
    {
      if key.Char? {
        Subnode(t, kept, uniPath, key.c);
        PruneTrie(t, kept, uniPath + [key.c], prunePath + [[key.c]], forCounts, forMatches);
      } else {
        Put(t, kept, uniPath, prunePath, key, forCounts, forMatches);
      }
    }

    /** No choice and no match: the last label grows by the only character there is. */
    method GoOn(t: Trie, ghost kept: set<Path>, uniPath: Path, prunePath: Labels,
                ghost forCounts: set<Path>, ghost forMatches: set<Path>)
      requires WellFormed(t) && KeptNodes(t, kept) && uniPath in t.counts && prunePath == Label(kept, uniPath)
      requires !Kept(t, uniPath) && (uniPath == "" ==> |NodeKeys(t, uniPath)| != 2)
      requires Copied(t, kept, forCounts, forMatches)
      modifies this
      ensures Copied(t, kept, forCounts + Below(t, uniPath), forMatches + Below(t, uniPath))
      decreases |Below(t, uniPath)|, 0
    {
      NotKept(t, uniPath);
      BelowOnly(t, uniPath);
      var rest := NodeKeys(t, uniPath);
      while rest != {}
        invariant rest <= NodeKeys(t, uniPath)
        invariant if NodeKeys(t, uniPath) <= rest + {Count} then Copied(t, kept, forCounts, forMatches)
                  else Copied(t, kept, forCounts + Below(t, uniPath), forMatches + Below(t, uniPath))
        decreases |rest|
      {
        NonEmpty(rest);
        var key :| key in rest;
        if key != Count {
          var path := prunePath[|prunePath| - 1 := prunePath[|prunePath| - 1] + [key.c]];
          Subnode(t, kept, uniPath, key.c);
          PruneTrie(t, kept, uniPath + [key.c], path, forCounts, forMatches);
          PassedOver(t, kept, uniPath, Below(t, uniPath + [key.c]), counts, matches, forCounts, forMatches);
        }
        rest := rest - {key};
      }
      if NodeKeys(t, uniPath) == {Count} {
        PassedOver(t, kept, uniPath, {}, counts, matches, forCounts, forMatches);
      }
    }
  }

  /** Whether a node that is not copied is dealt with makes no difference. */
  lemma PassedOver(t: Trie, kept: set<Path>, q: Path, below: set<Path>, counts: map<Labels, nat>,
                   matches: map<Labels, set<Emoji>>, forCounts: set<Path>, forMatches: set<Path>)
    requires q !in kept && q !in t.matches && below <= Below(t, q) <= below + {q}
    requires CountsCopied(t, kept, counts, forCounts + below) && MatchesCopied(t, kept, matches, forMatches + below)
    ensures CountsCopied(t, kept, counts, forCounts + Below(t, q))
    ensures MatchesCopied(t, kept, matches, forMatches + Below(t, q))
  {}

  lemma BelowOne(t: Trie, q: Path, p: Path)
    requires WellFormed(t) && p in Below(t, q) && p != q
    ensures Char(p[|q|]) in NodeKeys(t, q) && p in Below(t, q + [p[|q|]])
  {
    PrefixIn(t, p, |q| + 1);
    assert p[..|q| + 1] == q + [p[|q|]];
  }

  lemma BelowOnly(t: Trie, q: Path)
    requires WellFormed(t) && q in t.counts
    ensures NodeKeys(t, q) == {Count} ==> Below(t, q) == {q}
    ensures forall c | NodeKeys(t, q) == {Count, Char(c)} :: Below(t, q + [c]) <= Below(t, q) <= Below(t, q + [c]) + {q}
  {
    forall p | p in Below(t, q) && p != q ensures Char(p[|q|]) in NodeKeys(t, q) && p in Below(t, q + [p[|q|]]) {
      BelowOne(t, q, p);
    }
  }

  lemma NothingCovered(t: Trie, q: Path, forCounts: set<Path>, forMatches: set<Path>)
    ensures forCounts + Covered(t, q, {}, Count) == forCounts && forMatches + Covered(t, q, {}, Match) == forMatches
  {}

  lemma MoreCovered(t: Trie, q: Path, keys: set<Key>, key: Key, done: set<Path>, own: Key)
    requires !own.Char?
    ensures done + Covered(t, q, keys, own) + Gain(t, q, key, own) == done + Covered(t, q, keys + {key}, own)
  {
    CoveredMore(t, q, keys, key, own);
  }

  /** Whether a node without a match is dealt with makes no difference to the matches. */
  lemma MatchesBelow(t: Trie, kept: set<Path>, matches: map<Labels, set<Emoji>>, done: set<Path>, q: Path)
    requires MatchesCopied(t, kept, matches, done + if q in t.matches then Below(t, q) else Below(t, q) - {q})
    ensures MatchesCopied(t, kept, matches, done + Below(t, q))
  {}
}
