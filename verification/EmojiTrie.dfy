/**
 * The word index over emoji descriptions. A node of the uncompressed trie is named by the characters
 * on the way to it; a node of the final trie by the labels, which may have several characters.
 */
module EmojiTrie {
  type Emoji = string
  type Path = string
  type Labels = seq<string>

  // ---- Words ----

  predicate IsAlphaNum(c: char) {
    'a' <= c <= 'z' || 'A' <= c <= 'Z' || '0' <= c <= '9'
  }

  function Alphanumeric(word: string): string {
    if word == "" then "" else
      Alphanumeric(word[..|word| - 1]) + if IsAlphaNum(word[|word| - 1]) then [word[|word| - 1]] else ""
  }

  /** Of each character by itself the path has that character or nothing. */
  lemma AlphanumericOne(c: char)
    ensures Alphanumeric([c]) == if 'a' <= c <= 'z' || 'A' <= c <= 'Z' || '0' <= c <= '9' then [c] else ""
  {
    assert [c][..0] == "";
  }

  /** Of a word put together it has what it has of the parts, in their order. */
  lemma {:induction false} AlphanumericConcat(a: string, b: string)
    ensures Alphanumeric(a + b) == Alphanumeric(a) + Alphanumeric(b)
    decreases |b|
  {
    if b == "" {
      assert a + b == a;
    } else {
      assert (a + b)[..|a + b| - 1] == a + b[..|b| - 1];
      AlphanumericConcat(a, b[..|b| - 1]);
    }
  }

  /** The pieces between separators; there is one more of them than there are separators. */
  function Split(s: string, separator: char): (words: seq<string>)
    ensures words != []
  {
    if s == "" then [""] else
      var words := Split(s[..|s| - 1], separator);
      if s[|s| - 1] == separator then words + [""] else words[|words| - 1 := words[|words| - 1] + [s[|s| - 1]]]
  }

  /** What the index has to hold of one emoji: a path for each of the words that has anything alphanumeric. */
  function WordPairs(words: seq<string>, e: Emoji): set<(Path, Emoji)> {
    set w | w in words && Alphanumeric(w) != "" :: (Alphanumeric(w), e)
  }

  function Pairs(descriptions: map<Emoji, string>, chars: seq<Emoji>): set<(Path, Emoji)>
    requires forall e | e in chars :: e in descriptions
  {
    if chars == [] then {} else
      var e := chars[|chars| - 1];
      Pairs(descriptions, chars[..|chars| - 1]) + WordPairs(Split(descriptions[e], ' '), e)
  }

  /** The pairs whose path passes through or ends at the node. */
  function Through(pairs: set<(Path, Emoji)>, p: Path): set<(Path, Emoji)> {
    set x | x in pairs && p <= x.0
  }

  /** Every node counts the pairs that pass through it, and there are no other nodes. */
  ghost predicate CountsPairs(counts: map<Path, nat>, pairs: set<(Path, Emoji)>) {
    && (forall p | p in counts :: counts[p] == |Through(pairs, p)|)
    && (forall p: Path :: p in counts <==> p == "" || Through(pairs, p) != {})
  }

  ghost predicate MatchesPairs(matches: map<Path, set<Emoji>>, pairs: set<(Path, Emoji)>) {
    && (forall p, e :: (p in matches && e in matches[p]) <==> (p, e) in pairs)
    && (forall p | p in matches :: matches[p] != {})
  }

  /** In the middle of the way up from `word`: the prefixes longer than `n` count the new pair already. */
  ghost predicate CountsUpTo(counts: map<Path, nat>, before: map<Path, nat>, word: Path, n: nat) {
    && n <= |word|
    && (forall p :: p in counts <==> p in before || (p <= word && |p| > n))
    && forall p | p in counts ::
      counts[p] == (if p in before then before[p] else 0) + if p <= word && |p| > n then 1 else 0
  }

  /** Every prefix of the word, the root and the word itself among them, counts one more. */
  ghost predicate OneMoreEach(counts: map<Path, nat>, before: map<Path, nat>, word: Path) {
    && (forall p :: p in counts <==> p in before || p <= word)
    && forall p | p in counts :: counts[p] == (if p in before then before[p] else 0) + if p <= word then 1 else 0
  }

  lemma CountsOneUp(counts: map<Path, nat>, before: map<Path, nat>, word: Path, path: Path)
    requires path != "" && path <= word && CountsUpTo(counts, before, word, |path|)
    ensures CountsUpTo(counts[path := (if path in counts then counts[path] else 0) + 1], before, word, |path| - 1)
  {
    forall p | p <= word && |p| == |path| ensures p == path {
      assert p == word[..|p|] == path;
    }
  }

  lemma ThroughMore(pairs: set<(Path, Emoji)>, w: Path, e: Emoji, p: Path)
    requires (w, e) !in pairs
    ensures Through(pairs + {(w, e)}, p) == Through(pairs, p) + if p <= w then {(w, e)} else {}
    ensures |Through(pairs + {(w, e)}, p)| == |Through(pairs, p)| + if p <= w then 1 else 0
  {
    assert Through(pairs + {(w, e)}, p) == Through(pairs, p) + if p <= w then {(w, e)} else {};
  }

  lemma CountsMore(counts: map<Path, nat>, before: map<Path, nat>, pairs: set<(Path, Emoji)>, w: Path, e: Emoji)
    requires CountsPairs(before, pairs) && (w, e) !in pairs
    requires OneMoreEach(counts, before, w)
    ensures CountsPairs(counts, pairs + {(w, e)})
  {
    forall p: Path
      ensures p in counts ==> counts[p] == |Through(pairs + {(w, e)}, p)|
      ensures p in counts <==> p == "" || Through(pairs + {(w, e)}, p) != {}
    {
      ThroughMore(pairs, w, e, p);
    }
  }

  lemma MatchesMore(matches: map<Path, set<Emoji>>, pairs: set<(Path, Emoji)>, path: Path, e: Emoji)
    requires MatchesPairs(matches, pairs)
    ensures MatchesPairs(matches[path := (if path in matches then matches[path] else {}) + {e}], pairs + {(path, e)})
  {}

  lemma {:induction false} PairsAre(descriptions: map<Emoji, string>, chars: seq<Emoji>, p: Path, e: Emoji)
    requires forall e | e in chars :: e in descriptions
    ensures (p, e) in Pairs(descriptions, chars) <==>
      p != "" && e in chars && exists w :: w in Split(descriptions[e], ' ') && Alphanumeric(w) == p
  {
    if chars != [] {
      PairsAre(descriptions, chars[..|chars| - 1], p, e);
      assert chars == chars[..|chars| - 1] + [chars[|chars| - 1]];
    }
  }

  function Join(words: seq<string>, separator: char): string
    requires words != []
  {
    if |words| == 1 then words[0] else Join(words[..|words| - 1], separator) + [separator] + words[|words| - 1]
  }

  lemma {:induction false} SplitJoins(s: string, c: char)
    ensures Join(Split(s, c), c) == s
    ensures forall w | w in Split(s, c) :: c !in w
  {
    if s != "" {
      var before, last := s[..|s| - 1], s[|s| - 1];
      SplitJoins(before, c);
      var words := Split(before, c);
      assert s == before + [last];
      if last == c {
        assert (words + [""])[..|words|] == words;
      } else {
        var more := words[|words| - 1 := words[|words| - 1] + [last]];
        assert more[..|more| - 1] == words[..|words| - 1];
      }
    }
  }

  class EmojiTrie {
    var counts: map<Path, nat>
    var matches: map<Path, set<Emoji>>

    constructor ()
      ensures counts == map[] && matches == map[]
    {
      counts, matches := map[], map[];
    }

    /** The loop that goes back up from the end of a word, and the root. */
    method CountUp(word: Path)
      requires word != "" && "" in counts
      modifies this`counts
      ensures OneMoreEach(counts, old(counts), word)
    {
      var path := word;
      while path != ""
        invariant path <= word && CountsUpTo(counts, old(counts), word, |path|)
        decreases |path|
      {
        CountsOneUp(counts, old(counts), word, path);
        var count := if path in counts then counts[path] + 1 else 1;
        counts := counts[path := count];
        path := path[..|path| - 1];
      }
      assert forall p: Path :: |p| == 0 <==> p == "";
      counts := counts["" := counts[""] + 1];
    }

    /** The path under which a word is entered: its alphanumeric characters. */
    static method PathOf(word: string) returns (path: Path)
      ensures path == Alphanumeric(word)
    {
      path := "";
      for i := 0 to |word|
        invariant path == Alphanumeric(word[..i])
      {
        assert word[..i + 1][..i] == word[..i];
        if IsAlphaNum(word[i]) {
          path := path + [word[i]];
        }
      }
      assert word[..|word|] == word;
    }

    method AddPath(path: Path, e: Emoji, ghost pairs: set<(Path, Emoji)>)
      requires path != "" && CountsPairs(counts, pairs) && MatchesPairs(matches, pairs)
      modifies this`counts, this`matches
      ensures CountsPairs(counts, pairs + {(path, e)}) && MatchesPairs(matches, pairs + {(path, e)})
    {
      var found := if path in matches then matches[path] else {};
      if e !in found {
        matches := matches[path := found + {e}];
        MatchesMore(old(matches), pairs, path, e);
        CountUp(path);
        CountsMore(counts, old(counts), pairs, path, e);
      } else {
        assert pairs + {(path, e)} == pairs;
      }
    }

    method AddWord(word: string, e: Emoji, ghost pairs: set<(Path, Emoji)>)
      requires CountsPairs(counts, pairs) && MatchesPairs(matches, pairs)
      modifies this`counts, this`matches
      ensures CountsPairs(counts, pairs + WordPairs([word], e)) && MatchesPairs(matches, pairs + WordPairs([word], e))
    {
      var path := PathOf(word);
      WordPairsOne(word, e);
      if path != "" {
        AddPath(path, e, pairs);
      } else {
        assert pairs + {} == pairs;
      }
    }

    method Build(descriptions: map<Emoji, string>, chars: seq<Emoji>)
      requires forall e | e in chars :: e in descriptions
      requires counts == map[] && matches == map[]
      modifies this`counts, this`matches
      ensures CountsPairs(counts, Pairs(descriptions, chars)) && MatchesPairs(matches, Pairs(descriptions, chars))
    {
      counts := counts["" := 0];
      assert CountsPairs(counts, {});
      for i := 0 to |chars|
        invariant CountsPairs(counts, Pairs(descriptions, chars[..i]))
          && MatchesPairs(matches, Pairs(descriptions, chars[..i]))
      {
        var e := chars[i];
        var words := Split(descriptions[e], ' ');
        ghost var before := Pairs(descriptions, chars[..i]);
        assert before + WordPairs(words[..0], e) == before;
        for j := 0 to |words|
          invariant CountsPairs(counts, before + WordPairs(words[..j], e))
            && MatchesPairs(matches, before + WordPairs(words[..j], e))
        {
          AddWord(words[j], e, before + WordPairs(words[..j], e));
          OneMoreWord(before, words, j, e);
        }
        assert words[..|words|] == words;
        assert chars[..i + 1][..i] == chars[..i];
      }
      assert chars[..|chars|] == chars;
    }
  }

  lemma WordPairsOne(word: string, e: Emoji)
    ensures WordPairs([word], e) == if Alphanumeric(word) != "" then {(Alphanumeric(word), e)} else {}
  {}

  lemma OneMoreWord(before: set<(Path, Emoji)>, words: seq<string>, j: nat, e: Emoji)
    requires j < |words|
    ensures before + WordPairs(words[..j], e) + WordPairs([words[j]], e) == before + WordPairs(words[..j + 1], e)
  {
    assert words[..j + 1] == words[..j] + [words[j]];
    assert WordPairs(words[..j + 1], e) == WordPairs(words[..j], e) + WordPairs([words[j]], e);
  }
}
