/** The regular expressions the tokenizer uses, matched the way a backtracking engine does. */
module Regex {
  import opened Options

  datatype Regex =
    | Nothing
    | OneOf(chars: set<char>)
    | NoneOf(chars: set<char>)
    | Cat(first: Regex, second: Regex)
    | Alt(left: Regex, right: Regex)
    | Star(body: Regex)

  function Many(r: Regex): Regex {
    Cat(r, Star(r))
  }

  function Maybe(r: Regex): Regex {
    Alt(r, Nothing)
  }

  function Text(s: string): Regex {
    if s == "" then Nothing else Cat(OneOf({s[0]}), Text(s[1..]))
  }

  /** The piece of `s` from `i` up to `j` is in the language of the expression. */
  ghost predicate Matches(r: Regex, s: string, i: nat, j: nat)
    requires i <= j <= |s|
    decreases j - i, r
  {
    match r
    case Nothing => i == j
    case OneOf(cs) => j == i + 1 && s[i] in cs
    case NoneOf(cs) => j == i + 1 && s[i] !in cs
    case Cat(a, b) => exists m: nat | i <= m <= j :: Matches(a, s, i, m) && Matches(b, s, m, j)
    case Alt(a, b) => Matches(a, s, i, j) || Matches(b, s, i, j)
    case Star(a) => i == j || exists m: nat | i < m <= j :: Matches(a, s, i, m) && Matches(r, s, m, j)
  }

  /**
   * Where a match of `r` starting at `i` may end, in the order in which the engine tries: the left
   * alternative before the right one, and another repetition, which must make progress, before stopping.
   */
  function Tries(r: Regex, s: string, i: nat): seq<nat>
    requires i <= |s|
    decreases |s| - i, r, 0
  {
    match r
    case Nothing => [i]
    case OneOf(cs) => if i < |s| && s[i] in cs then [i + 1] else []
    case NoneOf(cs) => if i < |s| && s[i] !in cs then [i + 1] else []
    case Cat(a, b) => TriesFrom(b, s, Tries(a, s, i), i)
    case Alt(a, b) => Tries(a, s, i) + Tries(b, s, i)
    case Star(a) => (if i < |s| then TriesFrom(r, s, Tries(a, s, i), i + 1) else []) + [i]
  }

  /** The tries of `r` from each of the given places in turn, leaving out those before `least`. */
  function TriesFrom(r: Regex, s: string, starts: seq<nat>, least: nat): seq<nat>
    requires least <= |s|
    decreases |s| - least, r, |starts| + 1
  {
    if starts == [] then [] else
      (if least <= starts[0] <= |s| then Tries(r, s, starts[0]) else []) + TriesFrom(r, s, starts[1..], least)
  }

  lemma {:induction false} TriesBound(r: Regex, s: string, i: nat, j: nat)
    requires i <= |s| && j in Tries(r, s, i)
    ensures i <= j <= |s|
    decreases |s| - i, r, 0
  {
    match r
    case Cat(a, b) =>
      var m := TriedFrom(b, s, Tries(a, s, i), i, j);
      TriesBound(b, s, m, j);
    case Alt(a, b) =>
      if j in Tries(a, s, i) { TriesBound(a, s, i, j); } else { TriesBound(b, s, i, j); }
    case Star(a) =>
      if j != i {
        var m := TriedFrom(r, s, Tries(a, s, i), i + 1, j);
        TriesBound(r, s, m, j);
      }
    case _ =>
  }

  lemma {:induction false} TriedFrom(r: Regex, s: string, starts: seq<nat>, least: nat, j: nat) returns (m: nat)
    requires least <= |s| && j in TriesFrom(r, s, starts, least)
    ensures m in starts && least <= m <= |s| && j in Tries(r, s, m)
  {
    m := starts[0];
    if !(least <= m <= |s|) || j !in Tries(r, s, m) {
      m := TriedFrom(r, s, starts[1..], least, j);
    }
  }

  lemma {:induction false} TriesAll(r: Regex, s: string, starts: seq<nat>, least: nat, m: nat, j: nat)
    requires m in starts && least <= m <= |s| && j in Tries(r, s, m)
    ensures j in TriesFrom(r, s, starts, least)
  {
    if m != starts[0] {
      TriesAll(r, s, starts[1..], least, m, j);
    }
  }

  /** findRegexpAt: the length of the match at `i` the engine finds first, if there is one. */
  function FindAt(r: Regex, s: string, i: nat): (m: Option<nat>)
    requires i <= |s|
    ensures m.Some? ==> i + m.value <= |s|
  {
    var ends := Tries(r, s, i);
    if ends == [] then None else
      TriesBound(r, s, i, ends[0]);
      Some(ends[0] - i)
  }

  // ---- The engine finds exactly the members of the language ----

  lemma {:induction false} TriesExact(r: Regex, s: string, i: nat, j: nat)
    requires i <= j <= |s|
    ensures j in Tries(r, s, i) <==> Matches(r, s, i, j)
    decreases j - i, r, 1
  {
    match r
    case Cat(a, b) => TriesCat(a, b, s, i, j);
    case Alt(a, b) =>
      TriesExact(a, s, i, j);
      TriesExact(b, s, i, j);
    case Star(a) => TriesStar(a, s, i, j);
    case _ =>
  }

  lemma {:induction false} TriesCat(a: Regex, b: Regex, s: string, i: nat, j: nat)
    requires i <= j <= |s|
    ensures j in Tries(Cat(a, b), s, i) <==> Matches(Cat(a, b), s, i, j)
    decreases j - i, Cat(a, b), 0
  {
    var starts := Tries(a, s, i);
    if j in TriesFrom(b, s, starts, i) {
      var m := TriedFrom(b, s, starts, i, j);
      TriesBound(b, s, m, j);
      TriesExact(a, s, i, m);
      TriesExact(b, s, m, j);
    }
    if Matches(Cat(a, b), s, i, j) {
      var m := CatSplits(Cat(a, b), s, i, j);
      TriesExact(a, s, i, m);
      TriesExact(b, s, m, j);
      TriesAll(b, s, starts, i, m, j);
    }
  }

  lemma {:induction false} TriesStar(a: Regex, s: string, i: nat, j: nat)
    requires i <= j <= |s|
    ensures j in Tries(Star(a), s, i) <==> Matches(Star(a), s, i, j)
    decreases j - i, Star(a), 0
  {
    if i < j {
      var starts := Tries(a, s, i);
      StarUnfolds(Star(a), s, i, j, starts);
      if j in TriesFrom(Star(a), s, starts, i + 1) {
        var m := TriedFrom(Star(a), s, starts, i + 1, j);
        TriesBound(Star(a), s, m, j);
        TriesExact(a, s, i, m);
        TriesExact(Star(a), s, m, j);
      }
      if Matches(Star(a), s, i, j) {
        var m := StarSplits(Star(a), s, i, j);
        TriesExact(a, s, i, m);
        TriesExact(Star(a), s, m, j);
        TriesAll(Star(a), s, starts, i + 1, m, j);
      }
    }
  }

  lemma StarUnfolds(r: Regex, s: string, i: nat, j: nat, starts: seq<nat>)
    requires r.Star? && i < j <= |s| && starts == Tries(r.body, s, i)
    ensures j in Tries(r, s, i) <==> j in TriesFrom(r, s, starts, i + 1)
  {}

  lemma CatSplits(r: Regex, s: string, i: nat, j: nat) returns (m: nat)
    requires i <= j <= |s| && r.Cat? && Matches(r, s, i, j)
    ensures i <= m <= j && Matches(r.first, s, i, m) && Matches(r.second, s, m, j)
  {
    match r
    case Cat(a, b) => m :| i <= m <= j && Matches(a, s, i, m) && Matches(b, s, m, j);
  }

  lemma StarSplits(r: Regex, s: string, i: nat, j: nat) returns (m: nat)
    requires i < j <= |s| && r.Star? && Matches(r, s, i, j)
    ensures i < m <= j && Matches(r.body, s, i, m) && Matches(r, s, m, j)
  {
    match r
    case Star(a) => m :| i < m <= j && Matches(a, s, i, m) && Matches(r, s, m, j);
  }

  /** A match found is in the language; none found means that nothing at that place is. */
  lemma FindAtExact(r: Regex, s: string, i: nat)
    requires i <= |s|
    ensures var m := FindAt(r, s, i);
      && (m.Some? ==> Matches(r, s, i, i + m.value))
      && (m.None? ==> forall j: nat | i <= j <= |s| :: !Matches(r, s, i, j))
  {
    var ends := Tries(r, s, i);
    if ends == [] {
      forall j: nat | i <= j <= |s| ensures !Matches(r, s, i, j) { TriesExact(r, s, i, j); }
    } else {
      TriesBound(r, s, i, ends[0]);
      TriesExact(r, s, i, ends[0]);
    }
  }

  // ---- Of several matches, which one is found ----

  /** The left alternative, if it matches at all. */
  lemma AltPrefersLeft(a: Regex, b: Regex, s: string, i: nat)
    requires i <= |s|
    ensures FindAt(Alt(a, b), s, i) == if FindAt(a, s, i).Some? then FindAt(a, s, i) else FindAt(b, s, i)
  {}

  /** What the second part finds behind the first end of the first part from which it matches. */
  lemma CatPrefersFirst(a: Regex, b: Regex, s: string, i: nat) returns (k: nat)
    requires i <= |s| && FindAt(Cat(a, b), s, i).Some?
    ensures var ends := Tries(a, s, i);
      && k < |ends| && (forall h | 0 <= h <= k :: i <= ends[h] <= |s|)
      && FindAt(b, s, ends[k]).Some?
      && i + FindAt(Cat(a, b), s, i).value == ends[k] + FindAt(b, s, ends[k]).value
      && forall h | 0 <= h < k :: FindAt(b, s, ends[h]).None?
  {
    var ends := Tries(a, s, i);
    forall h | 0 <= h < |ends| ensures i <= ends[h] <= |s| {
      TriesBound(a, s, i, ends[h]);
    }
    k := FirstFrom(b, s, ends, i);
    TriesBound(b, s, ends[k], Tries(b, s, ends[k])[0]);
  }

  lemma FromFirst(r: Regex, s: string, starts: seq<nat>, least: nat)
    requires least <= |s| && TriesFrom(r, s, starts, least) != []
    ensures starts != []
    ensures TriesFrom(r, s, starts, least) ==
      (if least <= starts[0] <= |s| then Tries(r, s, starts[0]) else []) + TriesFrom(r, s, starts[1..], least)
  {}

  lemma {:induction false} FirstFrom(r: Regex, s: string, starts: seq<nat>, least: nat) returns (k: nat)
    requires least <= |s| && (forall h | 0 <= h < |starts| :: least <= starts[h] <= |s|)
    requires TriesFrom(r, s, starts, least) != []
    ensures k < |starts| && Tries(r, s, starts[k]) != []
    ensures TriesFrom(r, s, starts, least)[0] == Tries(r, s, starts[k])[0]
    ensures forall h | 0 <= h < k :: Tries(r, s, starts[h]) == []
  {
    k := 0;
    FromFirst(r, s, starts, least);
    if Tries(r, s, starts[0]) == [] {
      k := FirstFrom(r, s, starts[1..], least);
      k := k + 1;
    }
  }

  /** A repetition goes on as long as its body makes progress at the first try, and then stops. */
  lemma StarGoesOn(a: Regex, s: string, i: nat, m: nat)
    requires i < m <= |s| && Tries(a, s, i) != [] && Tries(a, s, i)[0] == m
    ensures FindAt(Star(a), s, m).Some?
    ensures FindAt(Star(a), s, i) == Some(m + FindAt(Star(a), s, m).value - i)
  {
    var starts := Tries(a, s, i);
    assert Tries(Star(a), s, m) != [];
    assert TriesFrom(Star(a), s, starts, i + 1) == Tries(Star(a), s, m) + TriesFrom(Star(a), s, starts[1..], i + 1);
  }

  lemma StarStops(a: Regex, s: string, i: nat)
    requires i <= |s| && Tries(a, s, i) == []
    ensures FindAt(Star(a), s, i) == Some(0)
  {
    if i < |s| {
      assert TriesFrom(Star(a), s, [], i + 1) == [];
    }
  }

  // ---- Of several matches, the longest run ----

  /** Where the characters from `i` on stop being among the given ones. */
  function RunEnd(chars: set<char>, s: string, i: nat): (e: nat)
    requires i <= |s|
    ensures i <= e <= |s| && (forall k | i <= k < e :: s[k] in chars) && (e < |s| ==> s[e] !in chars)
    decreases |s| - i
  {
    if i < |s| && s[i] in chars then RunEnd(chars, s, i + 1) else i
  }

  lemma {:induction false} StarIsRun(chars: set<char>, s: string, i: nat)
    requires i <= |s|
    ensures var ends := Tries(Star(OneOf(chars)), s, i); ends != [] && ends[0] == RunEnd(chars, s, i)
    decreases |s| - i
  {
    var r := Star(OneOf(chars));
    if i < |s| && s[i] in chars {
      StarIsRun(chars, s, i + 1);
      assert Tries(OneOf(chars), s, i) == [i + 1];
      assert TriesFrom(r, s, [i + 1], i + 1) == Tries(r, s, i + 1) + TriesFrom(r, s, [], i + 1);
    }
  }

  /** A repetition takes the whole run of its characters, although shorter pieces are in the language. */
  lemma ManyIsRun(chars: set<char>, s: string, i: nat)
    requires i <= |s|
    ensures FindAt(Many(OneOf(chars)), s, i) ==
      if i < |s| && s[i] in chars then Some(RunEnd(chars, s, i) - i) else None
  {
    var r := Star(OneOf(chars));
    if i < |s| && s[i] in chars {
      StarIsRun(chars, s, i + 1);
      assert Tries(OneOf(chars), s, i) == [i + 1];
      assert TriesFrom(r, s, [i + 1], i) == Tries(r, s, i + 1) + TriesFrom(r, s, [], i);
    } else {
      assert Tries(OneOf(chars), s, i) == [];
      assert TriesFrom(r, s, [], i) == [];
    }
  }

  /** The expression matches nothing empty. */
  predicate Consumes(r: Regex) {
    match r
    case Nothing => false
    case OneOf(_) => true
    case NoneOf(_) => true
    case Cat(a, b) => Consumes(a) || Consumes(b)
    case Alt(a, b) => Consumes(a) && Consumes(b)
    case Star(_) => false
  }

  lemma {:induction false} ConsumesSome(r: Regex, s: string, i: nat, j: nat)
    requires i <= j <= |s| && Consumes(r) && Matches(r, s, i, j)
    ensures i < j
    decreases r
  {
    match r
    case Cat(a, b) =>
      var m: nat :| i <= m <= j && Matches(a, s, i, m) && Matches(b, s, m, j);
      if Consumes(a) { ConsumesSome(a, s, i, m); } else { ConsumesSome(b, s, m, j); }
    case Alt(a, b) =>
      if Matches(a, s, i, j) { ConsumesSome(a, s, i, j); } else { ConsumesSome(b, s, i, j); }
    case _ =>
  }
}
