/** What the compression keeps: every lookup, every count, and a choice or a match at every node. */
module EmojiLookups {
  import opened Sets
  import opened EmojiTrie
  import opened EmojiPruning

  /** The final trie holds a compressed copy of the whole trie. */
  ghost predicate Compressed(t: Trie, kept: set<Path>, counts: map<Labels, nat>, matches: map<Labels, set<Emoji>>) {
    && WellFormed(t) && KeptNodes(t, kept)
    && CountsCopied(t, kept, counts, Below(t, "")) && MatchesCopied(t, kept, matches, Below(t, ""))
  }

  /** Joining the labels leads from the final trie to exactly the words of the whole one, with the same matches. */
  lemma LookupsKept(t: Trie, kept: set<Path>, counts: map<Labels, nat>, matches: map<Labels, set<Emoji>>, w: Path)
    requires Compressed(t, kept, counts, matches)
    ensures w in t.matches <==> exists l :: l in matches && Flatten(l) == w
    ensures forall l | l in matches && Flatten(l) == w :: w in t.matches && matches[l] == t.matches[w]
    ensures forall l, m | l in matches && m in matches && Flatten(l) == Flatten(m) == w :: l == m
  {
    FlattenLabel(kept, w);
    if w in t.matches {
      assert Label(kept, w) in matches;
    }
  }

  lemma CountsKept(t: Trie, kept: set<Path>, counts: map<Labels, nat>, matches: map<Labels, set<Emoji>>, l: Labels)
    requires Compressed(t, kept, counts, matches) && l in counts
    ensures Flatten(l) in t.counts && counts[l] == t.counts[Flatten(l)]
    ensures forall m | m in counts && Flatten(m) == Flatten(l) :: l == m
  {
    FlattenLabel(kept, Flatten(l));
  }

  // ---- How a path is cut into labels ----

  /** Label `i` of the way to `q` starts after the node `p` and ends at the first kept node behind it, or at `q`. */
  ghost predicate Piece(kept: set<Path>, q: Path, l: Labels, i: nat, p: Path, k: nat) {
    && i < |l| && |p| < k <= |q| && p == q[..|p|] && l[i] == q[|p|..k]
    && (if i + 1 == |l| then k == |q| else q[..k] in kept)
    && l[..i + 1] == Label(kept, q[..k])
    && forall j | |p| < j < k :: q[..j] !in kept
  }

  lemma {:induction false} Segment(kept: set<Path>, q: Path, l: Labels, i: nat) returns (p: Path, k: nat)
    requires l == Label(kept, q) && i < |l|
    ensures p == Flatten(l[..i]) && Piece(kept, q, l, i, p, k)
    decreases |q|
  {
    var before, c := q[..|q| - 1], q[|q| - 1];
    var m := Label(kept, before);
    assert q == before + [c];
    if before == "" || before in kept {
      if i < |m| {
        p, k := Segment(kept, before, m, i);
        Appended(kept, before, c, m, i, p, k, l);
      } else {
        p, k := before, |q|;
        NewPiece(kept, before, c, m, l);
      }
    } else {
      p, k := Segment(kept, before, m, i);
      if i < |m| - 1 {
        Prolonged(kept, before, c, m, i, p, k, l);
      } else {
        GrownPiece(kept, before, c, m, i, p, k, l);
        k := |q|;
      }
    }
  }

  lemma NewPiece(kept: set<Path>, before: Path, c: char, m: Labels, l: Labels)
    requires m == Label(kept, before) && l == m + [[c]] == Label(kept, before + [c])
    ensures Piece(kept, before + [c], l, |m|, before, |before| + 1) && before == Flatten(l[..|m|])
  {
    FlattenLabel(kept, before);
    assert l[..|m|] == m && l[..|m| + 1] == l && (before + [c])[..|before| + 1] == before + [c];
  }

  lemma GrownPiece(kept: set<Path>, before: Path, c: char, m: Labels, i: nat, p: Path, k: nat, l: Labels)
    requires Piece(kept, before, m, i, p, k) && p == Flatten(m[..i]) && i == |m| - 1 && before !in kept
    requires l == m[i := m[i] + [c]] == Label(kept, before + [c])
    ensures Piece(kept, before + [c], l, i, p, |before| + 1) && p == Flatten(l[..i])
  {
    assert l[..i] == m[..i] && l[..i + 1] == l;
    GrownSlice(before, c, |p|);
    ShorterPieces(before, c, p, k);
    assert before[..|before|] == before;
  }

  lemma GrownSlice(before: Path, c: char, n: nat)
    requires n <= |before|
    ensures (before + [c])[n..|before| + 1] == before[n..|before|] + [c]
    ensures (before + [c])[..|before| + 1] == before + [c] && (before + [c])[..n] == before[..n]
  {}

  lemma Appended(kept: set<Path>, before: Path, c: char, m: Labels, i: nat, p: Path, k: nat, l: Labels)
    requires Piece(kept, before, m, i, p, k) && p == Flatten(m[..i]) && l == m + [[c]] && before in kept
    ensures Piece(kept, before + [c], l, i, p, k) && p == Flatten(l[..i])
  {
    assert l[..i] == m[..i] && l[..i + 1] == m[..i + 1];
    ShorterPieces(before, c, p, k);
    assert k == |before| ==> before[..k] == before;
  }

  lemma Prolonged(kept: set<Path>, before: Path, c: char, m: Labels, i: nat, p: Path, k: nat, l: Labels)
    requires Piece(kept, before, m, i, p, k) && p == Flatten(m[..i])
    requires i < |m| - 1 && l == m[|m| - 1 := m[|m| - 1] + [c]]
    ensures Piece(kept, before + [c], l, i, p, k) && p == Flatten(l[..i])
  {
    assert l[..i] == m[..i] && l[..i + 1] == m[..i + 1];
    ShorterPieces(before, c, p, k);
  }

  lemma ShorterPieces(before: Path, c: char, p: Path, k: nat)
    requires |p| < k <= |before|
    ensures (before + [c])[|p|..k] == before[|p|..k]
    ensures forall j | 0 <= j <= |before| :: (before + [c])[..j] == before[..j]
  {}

  // ---- Sibling labels ----

  /** Two paths that agree on a node and on the next character agree until a node is kept. */
  lemma {:induction false} SameWay(t: Trie, kept: set<Path>, q: Path, r: Path, n: nat, k: nat)
    requires WellFormed(t) && KeptNodes(t, kept) && q in t.counts && r in t.counts
    requires n < k <= |q| && k <= |r| && q[..n + 1] == r[..n + 1] && forall j | n < j < k :: q[..j] !in kept
    ensures q[..k] == r[..k]
    decreases k
  {
    if n + 1 < k {
      var j := k - 1;
      SameWay(t, kept, q, r, n, j);
      PrefixIn(t, q, j);
      assert !Kept(t, q[..j]);
      NotKept(t, q[..j]);
      PrefixIn(t, q, k);
      PrefixIn(t, r, k);
      assert q[..k] == q[..j] + [q[j]] && r[..k] == r[..j] + [r[j]];
      assert Char(q[j]) in NodeKeys(t, q[..j]) && Char(r[j]) in NodeKeys(t, q[..j]);
    }
  }

  /** Labels on the way to copied nodes that leave the same place with the same character are the same label. */
  lemma SiblingsDiffer(t: Trie, kept: set<Path>, counts: map<Labels, nat>, matches: map<Labels, set<Emoji>>,
                       l: Labels, m: Labels, i: nat)
    requires Compressed(t, kept, counts, matches) && l in counts && m in counts
    requires i < |l| && i < |m| && l[..i] == m[..i]
    ensures l[i] != "" && m[i] != "" && (l[i][0] == m[i][0] ==> l[i] == m[i])
  {
    var q, r := Flatten(l), Flatten(m);
    var p, k := Segment(kept, q, l, i);
    var p', k' := Segment(kept, r, m, i);
    if l[i][0] == m[i][0] {
      EndsKept(kept, q, l, i, p, k);
      EndsKept(kept, r, m, i, p, k');
      SamePiece(t, kept, q, r, |p|, k, k', l[i], m[i]);
    }
  }

  lemma SamePiece(t: Trie, kept: set<Path>, q: Path, r: Path, n: nat, k: nat, k': nat, a: string, b: string)
    requires WellFormed(t) && KeptNodes(t, kept) && q in t.counts && r in t.counts
    requires n < k <= |q| && n < k' <= |r| && q[..n] == r[..n] && a == q[n..k] && b == r[n..k'] && a[0] == b[0]
    requires q[..k] in kept && forall j | n < j < k :: q[..j] !in kept
    requires r[..k'] in kept && forall j | n < j < k' :: r[..j] !in kept
    ensures a == b
  {
    assert q[..n + 1] == q[..n] + [a[0]] && r[..n + 1] == r[..n] + [b[0]];
    if k <= k' {
      SameWay(t, kept, q, r, n, k);
    } else {
      SameWay(t, kept, r, q, n, k');
    }
    assert k == k';
    assert a == q[..k][n..] && b == r[..k][n..];
  }

  lemma EndsKept(kept: set<Path>, q: Path, l: Labels, i: nat, p: Path, k: nat)
    requires Piece(kept, q, l, i, p, k) && q in kept
    ensures q[..k] in kept
  {
    assert k == |q| ==> q[..k] == q;
  }

  // ---- No node without a choice or a match ----

  /** The nodes of the final trie are its keys, and the root. */
  lemma NodesAreKeys(t: Trie, kept: set<Path>, counts: map<Labels, nat>, matches: map<Labels, set<Emoji>>, l: Labels,
      i: nat)
    requires Compressed(t, kept, counts, matches) && l in counts && 0 < i <= |l|
    ensures l[..i] in counts
  {
    var q := Flatten(l);
    var p, k := Segment(kept, q, l, i - 1);
    EndsKept(kept, q, l, i - 1, p, k);
    PrefixIn(t, q, k);
    assert Label(kept, q[..k]) == l[..i];
  }

  /** What is below a kept node has its labels first, and then one that starts with the next character. */
  lemma {:induction false} KeptPrefix(kept: set<Path>, p: Path, q: Path)
    requires p <= q && p != q && p in kept
    ensures var l, m := Label(kept, p), Label(kept, q);
      |l| < |m| && m[..|l|] == l && m[|l|] != "" && m[|l|][0] == q[|p|]
    decreases |q|
  {
    var before := q[..|q| - 1];
    if before != p {
      KeptPrefix(kept, p, before);
    }
  }

  lemma TwoWays(t: Trie, q: Path) returns (c: char, d: char)
    requires Kept(t, q) && q !in t.matches
    ensures c != d && q + [c] in t.counts && q + [d] in t.counts
  {
    var others := NodeKeys(t, q) - {Count};
    assert NodeKeys(t, q) == {Count} + others;
    NonEmpty(others);
    var a :| a in others;
    assert others == {a} + (others - {a});
    NonEmpty(others - {a});
    var b :| b in others - {a};
    c, d := a.c, b.c;
  }

  lemma WordBelow(t: Trie, kept: set<Path>, counts: map<Labels, nat>, matches: map<Labels, set<Emoji>>, q: Path,
      c: char)
    returns (m: Labels)
    requires Compressed(t, kept, counts, matches) && q in kept && q + [c] in t.counts
    ensures m in matches && |Label(kept, q)| < |m| && m[..|Label(kept, q)|] == Label(kept, q)
    ensures m[|Label(kept, q)|] != "" && m[|Label(kept, q)|][0] == c
  {
    assert Hangs(t, q + [c]);
    var w :| w in t.matches && q + [c] <= w;
    KeptPrefix(kept, q, w);
    m := Label(kept, w);
  }

  /** A node other than the root that has no match of its own branches: two words go on from it differently. */
  lemma NodesBranch(t: Trie, kept: set<Path>, counts: map<Labels, nat>, matches: map<Labels, set<Emoji>>, l: Labels)
    returns (m: Labels, n: Labels)
    requires Compressed(t, kept, counts, matches) && l in counts && l !in matches
    ensures m in matches && n in matches && |l| < |m| && |l| < |n| && m[..|l|] == n[..|l|] == l
    ensures m[|l|] != "" && n[|l|] != "" && m[|l|][0] != n[|l|][0]
  {
    var q := Flatten(l);
    assert Kept(t, q) && Label(kept, q) == l;
    assert q !in t.matches;
    var c, d := TwoWays(t, q);
    m := WordBelow(t, kept, counts, matches, q, c);
    n := WordBelow(t, kept, counts, matches, q, d);
  }

  // ---- The script ----

  function FirstCharacters(pairs: set<(Path, Emoji)>): set<char> {
    set x | x in pairs && x.0 != "" :: x.0[0]
  }

  lemma {:induction false} PairsHavePaths(descriptions: map<Emoji, string>, chars: seq<Emoji>)
    requires forall e | e in chars :: e in descriptions
    ensures forall x | x in Pairs(descriptions, chars) :: x.0 != ""
  {
    if chars != [] {
      PairsHavePaths(descriptions, chars[..|chars| - 1]);
    }
  }

  lemma FirstAreSubnodes(t: Trie, pairs: set<(Path, Emoji)>, c: char)
    requires CountsPairs(t.counts, pairs) && forall x | x in pairs :: x.0 != ""
    ensures c in FirstCharacters(pairs) <==> Char(c) in NodeKeys(t, "")
  {
    assert "" + [c] == [c];
    if c in FirstCharacters(pairs) {
      var x :| x in pairs && x.0 != "" && x.0[0] == c;
      assert x in Through(pairs, [c]);
    }
    if [c] in t.counts {
      var x :| x in Through(pairs, [c]);
      assert x.0[0] == c;
    }
  }

  /** The root has a single subnode only when all words begin with one character. */
  lemma RootSubnodes(t: Trie, pairs: set<(Path, Emoji)>)
    requires CountsPairs(t.counts, pairs) && WellFormed(t) && forall x | x in pairs :: x.0 != ""
    requires |NodeKeys(t, "")| == 2
    ensures exists c :: FirstCharacters(pairs) == {c}
  {
    NotKept(t, "");
    var c :| NodeKeys(t, "") == {Count, Char(c)};
    FirstAreSubnodes(t, pairs, c);
    forall d | d in FirstCharacters(pairs) ensures d == c {
      FirstAreSubnodes(t, pairs, d);
    }
    assert FirstCharacters(pairs) == {c};
  }

  /** Building and pruning: the final trie is a compressed copy of a trie of exactly the words of the descriptions. */
  method MakeIndex(descriptions: map<Emoji, string>, chars: seq<Emoji>)
    returns (uni: EmojiTrie, final: FinalTrie, ghost kept: set<Path>)
    requires forall e | e in chars :: e in descriptions
    requires forall c :: FirstCharacters(Pairs(descriptions, chars)) != {c}
    ensures MatchesPairs(uni.matches, Pairs(descriptions, chars)) && CountsPairs(uni.counts, Pairs(descriptions, chars))
    ensures Compressed(Trie(uni.counts, uni.matches), kept, final.counts, final.matches)
  {
    uni := new EmojiTrie();
    uni.Build(descriptions, chars);
    var t := Trie(uni.counts, uni.matches);
    ghost var pairs := Pairs(descriptions, chars);
    PairsHavePaths(descriptions, chars);
    BuiltIsWellFormed(t, pairs);
    if |NodeKeys(t, "")| == 2 {
      RootSubnodes(t, pairs);
    }
    kept := set q | q in t.counts && Kept(t, q);
    final := new FinalTrie();
    final.PruneTrie(t, kept, "", [], {}, {});
    assert {} + Below(t, "") == Below(t, "");
  }
}
