/** Paging through a list: what a reader gets who asks for page after page. */
module ListWalk {
  import opened Bytes
  import opened ListPages

  /** What answers a request for the pairs after a token. */
  type Server = (Word, nat) -> seq<Pair>

  /** Pages one after the other, each from the last token of the one before, until the end of the list. */
  function Walk(page: Server, from: Word, sizes: seq<nat>): seq<Pair>
    decreases |sizes|
  {
    if sizes == [] then [] else
      var p := page(from, sizes[0]);
      if p == [] || p[|p| - 1].token == END_LIST then p
      else p + Walk(page, p[|p| - 1].token, sizes[1..])
  }

  predicate FirstOf(entries: seq<Pair>, j: nat)
    requires j < |entries|
  {
    0 < j ==> entries[j - 1].token != entries[j].token
  }

  predicate ServesAt(page: Server, entries: seq<Pair>, j: nat, n: nat)
    requires j < |entries|
  {
    page(entries[j].token, n) == entries[j + 1..Least(j + 1 + n, |entries|)]
  }

  /**
   * Behind the first entry with a token, other than the end of the list, the server goes on with the
   * entries that follow.
   */
  ghost predicate Serves(page: Server, entries: seq<Pair>) {
    forall j: nat, n: nat | j < |entries| - 1 && FirstOf(entries, j) && entries[j].token != END_LIST ::
      ServesAt(page, entries, j, n)
  }

  /** The entries of a list, its sentinels included. */
  predicate IsList(entries: seq<Pair>) {
    |entries| >= 2 && entries[0].token == BEGIN_LIST && entries[|entries| - 1] == END_PAIR
  }

  predicate Distinct(entries: seq<Pair>) {
    forall i, j | 0 <= i < j < |entries| :: entries[i].token != entries[j].token
  }

  /** What distinct tokens mean for the steps of a walk. */
  predicate Steps(entries: seq<Pair>) {
    forall j: nat | j < |entries| :: StepAt(entries, j)
  }

  predicate StepAt(entries: seq<Pair>, j: nat)
    requires j < |entries|
  {
    FirstOf(entries, j) && (j < |entries| - 1 ==> entries[j].token != END_LIST)
  }

  lemma DistinctSteps(entries: seq<Pair>)
    requires IsList(entries) && Distinct(entries)
    ensures Steps(entries)
  {}

  predicate AllPositive(sizes: seq<nat>) {
    forall i | 0 <= i < |sizes| :: sizes[i] >= 1
  }

  lemma Splice<T>(s: seq<T>, i: nat, j: nat, k: nat)
    requires i <= j <= k <= |s|
    ensures s[i..j] + s[j..k] == s[i..k]
  {}

  lemma Joined<T>(s: seq<T>, i: nat, j: nat, k: nat, rest: seq<T>)
    requires i <= j <= k <= |s| && rest == s[j..k]
    ensures s[i..j] + rest == s[i..k]
  {}

  lemma LastOf<T>(s: seq<T>, i: nat, k: nat)
    requires i < k <= |s|
    ensures |s[i..k]| == k - i && s[i..k][k - i - 1] == s[k - 1]
  {}

  /** The first page of a walk, and what comes after it. */
  lemma WalkPage(page: Server, entries: seq<Pair>, j: nat, sizes: seq<nat>, k: nat, p: seq<Pair>)
    requires Serves(page, entries) && j < |entries| - 1 && FirstOf(entries, j) && entries[j].token != END_LIST
    requires sizes != [] && sizes[0] >= 1 && k == Least(j + 1 + sizes[0], |entries|) && p == entries[j + 1..k]
    ensures Walk(page, entries[j].token, sizes) ==
      p + if entries[k - 1].token == END_LIST then [] else Walk(page, entries[k - 1].token, sizes[1..])
  {
    PageHere(page, entries, j, sizes[0], k, p);
    WalkUnfolds(page, entries[j].token, sizes, p, entries[k - 1].token);
  }

  lemma PageHere(page: Server, entries: seq<Pair>, j: nat, n: nat, k: nat, p: seq<Pair>)
    requires Serves(page, entries) && j < |entries| - 1 && FirstOf(entries, j) && entries[j].token != END_LIST
    requires n >= 1 && k == Least(j + 1 + n, |entries|) && p == entries[j + 1..k]
    ensures page(entries[j].token, n) == p && p != [] && p[|p| - 1] == entries[k - 1]
  {
    assert ServesAt(page, entries, j, n);
    LastOf(entries, j + 1, k);
  }

  lemma WalkUnfolds(page: Server, from: Word, sizes: seq<nat>, p: seq<Pair>, last: Word)
    requires sizes != [] && page(from, sizes[0]) == p && p != [] && p[|p| - 1].token == last
    ensures Walk(page, from, sizes) == p + if last == END_LIST then [] else Walk(page, last, sizes[1..])
  {
    assert p + [] == p;
  }

  lemma WalkFirst(page: Server, entries: seq<Pair>, j: nat, sizes: seq<nat>, k: nat)
    requires Serves(page, entries) && Steps(entries) && entries != [] && entries[|entries| - 1].token == END_LIST
    requires j < |entries| - 1 && sizes != [] && sizes[0] >= 1 && k == Least(j + 1 + sizes[0], |entries|)
    ensures Walk(page, entries[j].token, sizes) ==
      entries[j + 1..k] + if k == |entries| then [] else Walk(page, entries[k - 1].token, sizes[1..])
  {
    assert StepAt(entries, j) && StepAt(entries, k - 1);
    WalkPage(page, entries, j, sizes, k, entries[j + 1..k]);
  }

  lemma {:induction false} WalkIs(page: Server, entries: seq<Pair>, j: nat, sizes: seq<nat>) returns (m: nat)
    requires Serves(page, entries) && Steps(entries) && entries != [] && entries[|entries| - 1].token == END_LIST
    requires j < |entries| - 1 && AllPositive(sizes)
    ensures Least(j + 1 + |sizes|, |entries|) <= m <= |entries|
    ensures Walk(page, entries[j].token, sizes) == entries[j + 1..m]
    decreases |sizes|
  {
    m := j + 1;
    if sizes != [] {
      var k := Least(j + 1 + sizes[0], |entries|);
      WalkFirst(page, entries, j, sizes, k);
      m := k;
      if k < |entries| {
        m := WalkIs(page, entries, k - 1, sizes[1..]);
        Joined(entries, j + 1, k, m, Walk(page, entries[k - 1].token, sizes[1..]));
      }
    }
  }

  lemma WholeWalk(page: Server, entries: seq<Pair>, sizes: seq<nat>)
    requires Serves(page, entries) && IsList(entries) && Steps(entries) && AllPositive(sizes)
    ensures Walk(page, BEGIN_LIST, sizes) <= entries[1..]
    ensures |sizes| >= |entries| - 1 ==> Walk(page, BEGIN_LIST, sizes) == entries[1..]
  {
    var m := WalkIs(page, entries, 0, sizes);
    Splice(entries, 1, m, |entries|);
    assert entries[1..|entries|] == entries[1..];
  }

  function Ones(n: nat): (sizes: seq<nat>)
    ensures |sizes| == n && AllPositive(sizes)
  {
    seq(n, i => 1)
  }

  predicate OnlyLastIsEnd(entries: seq<Pair>) {
    forall i | 0 <= i < |entries| - 1 :: entries[i].token != END_LIST
  }

  lemma OnePair(page: Server, entries: seq<Pair>, i: nat, n: nat)
    requires Serves(page, entries) && i < |entries| - 2 && FirstOf(entries, i) && 0 < n
    requires entries[i].token != END_LIST && entries[i + 1].token != END_LIST
    ensures Walk(page, entries[i].token, Ones(n)) == [entries[i + 1]] + Walk(page, entries[i + 1].token, Ones(n - 1))
  {
    assert Ones(n)[1..] == Ones(n - 1);
    assert entries[i + 1..i + 2] == [entries[i + 1]];
    WalkPage(page, entries, i, Ones(n), i + 2, [entries[i + 1]]);
  }

  /** Page by page of one pair, the walk does not get past the second entry with a token. */
  lemma {:induction false} StuckBefore(page: Server, entries: seq<Pair>, d: nat, i: nat, n: nat)
    requires Serves(page, entries) && OnlyLastIsEnd(entries) && i <= d < |entries| - 2
    requires entries[d].token == entries[d + 1].token && FirstOf(entries, i)
    ensures END_PAIR !in Walk(page, entries[i].token, Ones(n))
    decreases n
  {
    if n > 0 {
      OnePair(page, entries, i, n);
      assert entries[i + 1] != END_PAIR;
      StuckBefore(page, entries, d, if entries[i + 1].token == entries[i].token then i else i + 1, n - 1);
    }
  }

  lemma NeverAtEnd(page: Server, entries: seq<Pair>, d: nat)
    requires Serves(page, entries) && IsList(entries) && OnlyLastIsEnd(entries)
    requires d < |entries| - 2 && entries[d].token == entries[d + 1].token
    ensures Walk(page, BEGIN_LIST, Ones(|entries| - 1)) != entries[1..]
  {
    StuckBefore(page, entries, d, 0, |entries| - 1);
    assert entries[1..][|entries| - 2] == END_PAIR;
  }

  // ---- The database ----

  function Entries(keys: seq<Key>, lo: nat, hi: nat): seq<Pair>
    requires lo <= hi <= |keys|
  {
    Pairs(keys, lo, hi)
  }

  function PageOf(keys: seq<Key>, list: Word): Server {
    (from: Word, n: nat) => Page(keys, list, from, n)
  }

  lemma EntryServed(keys: seq<Key>, list: Word, lo: nat, hi: nat, entries: seq<Pair>, j: nat, n: nat)
    requires ListAt(keys, list, lo, hi) && entries == Entries(keys, lo, hi)
    requires j < |entries| - 1 && FirstOf(entries, j) && entries[j].token != END_LIST
    ensures ServesAt(PageOf(keys, list), entries, j, n)
  {
    FirstOfEntries(keys, lo, hi, entries, j);
    PageIs(keys, list, lo, hi, lo + j, n);
    PageIsPart(keys, lo, hi, entries, j, n);
    PageServes(keys, list, entries, j, n, Pairs(keys, lo + j + 1, Least(lo + j + 1 + n, hi)), PairAt(keys, lo + j));
  }

  lemma PageServes(keys: seq<Key>, list: Word, entries: seq<Pair>, j: nat, n: nat, p: seq<Pair>, at: Pair)
    requires j < |entries| && entries[j] == at
    requires p == Page(keys, list, at.token, n) && p == entries[j + 1..Least(j + 1 + n, |entries|)]
    ensures ServesAt(PageOf(keys, list), entries, j, n)
  {}

  lemma PageIsPart(keys: seq<Key>, lo: nat, hi: nat, entries: seq<Pair>, j: nat, n: nat)
    requires lo <= hi <= |keys| && entries == Entries(keys, lo, hi) && j < |entries|
    ensures Pairs(keys, lo + j + 1, Least(lo + j + 1 + n, hi)) == entries[j + 1..Least(j + 1 + n, |entries|)]
  {
    EntriesPart(keys, lo, hi, j + 1, Least(j + 1 + n, hi - lo));
  }

  lemma EntriesPart(keys: seq<Key>, lo: nat, hi: nat, a: nat, b: nat)
    requires lo <= hi <= |keys| && a <= b <= hi - lo
    ensures Entries(keys, lo, hi)[a..b] == Pairs(keys, lo + a, lo + b)
  {}

  lemma FirstOfEntries(keys: seq<Key>, lo: nat, hi: nat, entries: seq<Pair>, j: nat)
    requires lo <= hi <= |keys| && entries == Entries(keys, lo, hi) && j < |entries| && FirstOf(entries, j)
    ensures entries[j] == PairAt(keys, lo + j) && FirstOfToken(keys, lo, lo + j)
  {}

  lemma EntriesServed(keys: seq<Key>, list: Word, lo: nat, hi: nat)
    requires ListAt(keys, list, lo, hi)
    ensures IsList(Entries(keys, lo, hi)) && Serves(PageOf(keys, list), Entries(keys, lo, hi))
  {
    var entries := Entries(keys, lo, hi);
    LastIsEnd(keys, list, lo, hi);
    forall j: nat, n: nat | j < |entries| - 1 && FirstOf(entries, j) && entries[j].token != END_LIST
      ensures ServesAt(PageOf(keys, list), entries, j, n)
    {
      EntryServed(keys, list, lo, hi, entries, j, n);
    }
  }

  /**
   * Paging is complete: with distinct tokens, pages of whatever sizes put together are the entries
   * of the list in the order of their keys, none skipped and none repeated, up to the end pair.
   */
  lemma PagesComplete(keys: seq<Key>, list: Word, lo: nat, hi: nat, sizes: seq<nat>)
    requires ListAt(keys, list, lo, hi) && Distinct(Entries(keys, lo, hi)) && AllPositive(sizes)
    ensures Walk(PageOf(keys, list), BEGIN_LIST, sizes) <= Entries(keys, lo, hi)[1..]
    ensures |sizes| >= hi - lo - 1 ==> Walk(PageOf(keys, list), BEGIN_LIST, sizes) == Entries(keys, lo, hi)[1..]
  {
    EntriesServed(keys, list, lo, hi);
    DistinctSteps(Entries(keys, lo, hi));
    WholeWalk(PageOf(keys, list), Entries(keys, lo, hi), sizes);
  }

  /** From the end of a list on a walk gives the end pair, and stops. */
  lemma WalkFromEnd(keys: seq<Key>, list: Word, sizes: seq<nat>)
    requires AllPositive(sizes) && sizes != []
    ensures Walk(PageOf(keys, list), END_LIST, sizes) == [END_PAIR]
  {
    assert PageOf(keys, list)(END_LIST, sizes[0]) == [END_PAIR];
  }

  /** Where tokens repeat, two that follow each other do. */
  lemma Adjacent(keys: seq<Key>, list: Word, lo: nat, hi: nat, entries: seq<Pair>) returns (d: nat)
    requires ListAt(keys, list, lo, hi) && entries == Entries(keys, lo, hi) && OnlyLastIsEnd(entries) && IsList(entries)
    requires !Distinct(entries)
    ensures d < |entries| - 2 && entries[d].token == entries[d + 1].token
  {
    var i: nat, j: nat := Repeated(entries);
    d := i;
    if i + 1 < j {
      TokenInBetween(keys, list, lo, hi, lo + i, lo + i + 1, lo + j);
    }
  }

  lemma Repeated(entries: seq<Pair>) returns (i: nat, j: nat)
    requires OnlyLastIsEnd(entries) && IsList(entries) && !Distinct(entries)
    ensures i < j < |entries| - 1 && entries[i].token == entries[j].token
  {
    i, j :| 0 <= i < j < |entries| && entries[i].token == entries[j].token;
  }

  /** Distinct tokens are exactly what it takes for pages of every size to give out the whole list. */
  lemma CompleteIffDistinct(keys: seq<Key>, list: Word, lo: nat, hi: nat)
    requires ListAt(keys, list, lo, hi) && OnlyLastIsEnd(Entries(keys, lo, hi))
    ensures Distinct(Entries(keys, lo, hi)) <==>
      forall sizes | AllPositive(sizes) && |sizes| >= hi - lo - 1 ::
        Walk(PageOf(keys, list), BEGIN_LIST, sizes) == Entries(keys, lo, hi)[1..]
  {
    var entries := Entries(keys, lo, hi);
    if Distinct(entries) {
      forall sizes | AllPositive(sizes) && |sizes| >= hi - lo - 1
        ensures Walk(PageOf(keys, list), BEGIN_LIST, sizes) == entries[1..]
      {
        PagesComplete(keys, list, lo, hi, sizes);
      }
    } else {
      OnesAreStuck(keys, list, lo, hi, entries);
    }
  }

  /** With equal tokens next to each other, pages of one entry each never come to the end. */
  lemma OnesAreStuck(keys: seq<Key>, list: Word, lo: nat, hi: nat, entries: seq<Pair>)
    requires ListAt(keys, list, lo, hi) && entries == Entries(keys, lo, hi) && OnlyLastIsEnd(entries)
    requires !Distinct(entries)
    ensures Walk(PageOf(keys, list), BEGIN_LIST, Ones(|entries| - 1)) != entries[1..]
  {
    EntriesServed(keys, list, lo, hi);
    var d := Adjacent(keys, list, lo, hi, entries);
    NeverAtEnd(PageOf(keys, list), entries, d);
  }
}
