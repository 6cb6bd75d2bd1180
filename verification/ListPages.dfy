/** Reading a list page by page out of the sorted keys of the database. */
module ListPages {
  import opened Options
  import opened Bytes

  const ENTRY: byte := 'e' as int
  const LIST: byte := 'l' as int
  const ASSET: byte := 'a' as int
  const ENTRY_SIZE := 25

  /** The least and the greatest token. */
  const BEGIN_LIST: Word := [0, 0, 0, 0, 0, 0, 0, 0]
  const END_LIST: Word := [255, 255, 255, 255, 255, 255, 255, 255]

  datatype Pair = Pair(token: Word, asset: Word)

  const END_PAIR := Pair(END_LIST, END_LIST)

  function EntryKey(list: Word, token: Word, asset: Word): (k: Key)
    ensures |k| == ENTRY_SIZE
  {
    ([ENTRY] + list) + (token + asset)
  }

  function ListKey(list: Word): Key {
    [LIST] + list
  }

  /** The first nine bytes say which list an entry is of. */
  predicate InList(k: Key, list: Word) {
    |k| == ENTRY_SIZE && k[..9] == [ENTRY] + list
  }

  function PairOf(k: Key): Pair
    requires |k| == ENTRY_SIZE
  {
    Pair(k[9..17], k[17..25])
  }

  lemma KeyParts(list: Word, token: Word, asset: Word)
    ensures InList(EntryKey(list, token, asset), list) && PairOf(EntryKey(list, token, asset)) == Pair(token, asset)
  {
    var k := EntryKey(list, token, asset);
    assert k[..9] == [ENTRY] + list && k[9..] == token + asset;
    assert k[9..17] == token && k[17..25] == asset;
  }

  lemma PartsKey(k: Key, list: Word)
    requires InList(k, list)
    ensures k == EntryKey(list, PairOf(k).token, PairOf(k).asset)
  {
    assert k == k[..9] + (k[9..17] + k[17..25]);
  }

  /** Within a list the token decides the order, and between equal tokens the asset. */
  lemma EntryOrder(list: Word, t: Word, a: Word, u: Word, b: Word)
    ensures Less(EntryKey(list, t, a), EntryKey(list, u, b)) <==> Less(t, u) || (t == u && Less(a, b))
  {
    LessAfterPrefix([ENTRY] + list, t + a, u + b);
    if t == u {
      LessAfterPrefix(t, a, b);
      NotLessSelf(t);
    } else {
      LessByFirst(t, a, u, b);
    }
  }

  lemma InListOrder(k: Key, l: Key, list: Word)
    requires InList(k, list) && InList(l, list)
    ensures Less(k, l) <==>
      Less(PairOf(k).token, PairOf(l).token)
        || (PairOf(k).token == PairOf(l).token && Less(PairOf(k).asset, PairOf(l).asset))
  {
    PartsKey(k, list);
    PartsKey(l, list);
    EntryOrder(list, PairOf(k).token, PairOf(k).asset, PairOf(l).token, PairOf(l).asset);
  }

  // ---- The iterator ----

  predicate Sorted(keys: seq<Key>) {
    forall i | 0 <= i < |keys| :: AfterOthers(keys, i)
  }

  predicate AfterOthers(keys: seq<Key>, i: nat)
    requires i < |keys|
  {
    forall j | 0 <= j < i :: Less(keys[j], keys[i])
  }

  lemma Position(keys: seq<Key>, i: nat, j: nat)
    requires Sorted(keys) && i < |keys| && j < |keys|
    ensures Less(keys[i], keys[j]) <==> i < j
  {
    assert AfterOthers(keys, i) && AfterOthers(keys, j);
    LessOnce(keys[i], keys[j]);
  }

  /** The first position with a key that is not less; past the end when there is none. */
  function Seek(keys: seq<Key>, k: Key): (i: nat)
    ensures i <= |keys| && (i < |keys| ==> !Less(keys[i], k))
    ensures forall j | 0 <= j < i :: Less(keys[j], k)
  {
    if keys == [] || !Less(keys[0], k) then 0 else 1 + Seek(keys[1..], k)
  }

  /** Up to `n` pairs of the list from position `i` on; None when the iterator runs off the end of the database. */
  function Take(keys: seq<Key>, list: Word, i: nat, n: nat): Option<seq<Pair>>
    decreases n
  {
    if n == 0 then Some([])
    else if i >= |keys| then None
    else if !InList(keys[i], list) then Some([])
    else match Take(keys, list, i + 1, n - 1)
      case None => None
      case Some(rest) => Some([PairOf(keys[i])] + rest)
  }

  /** The pairs getListNext gives out after `from`. */
  function Page(keys: seq<Key>, list: Word, from: Word, n: nat): seq<Pair> {
    if from == END_LIST then (if n >= 1 then [END_PAIR] else [])
    else
      var i := Seek(keys, EntryKey(list, from, BEGIN_LIST));
      if i == |keys| then [] else
        match Take(keys, list, i + 1, n)
        case None => []
        case Some(pairs) => pairs
  }

  // ---- Where a list is ----

  /** The list's keys are those from `lo` up to `hi`, first the begin sentinel and last the end sentinel. */
  predicate ListAt(keys: seq<Key>, list: Word, lo: nat, hi: nat) {
    && Sorted(keys) && lo + 1 < hi < |keys|
    && (forall i | 0 <= i < |keys| :: Where(keys, list, lo, hi, i))
    && keys[lo] == EntryKey(list, BEGIN_LIST, BEGIN_LIST) && keys[hi - 1] == EntryKey(list, END_LIST, END_LIST)
  }

  predicate Where(keys: seq<Key>, list: Word, lo: nat, hi: nat, i: nat)
    requires i < |keys|
  {
    InList(keys[i], list) <==> lo <= i < hi
  }

  function PairAt(keys: seq<Key>, i: nat): Pair
    requires i < |keys|
  {
    if |keys[i]| == ENTRY_SIZE then PairOf(keys[i]) else END_PAIR
  }

  /** The pairs of the list from position `i` up to `j`. */
  function Pairs(keys: seq<Key>, i: nat, j: nat): (r: seq<Pair>)
    requires i <= j <= |keys|
    ensures |r| == j - i && forall k | 0 <= k < |r| :: r[k] == PairAt(keys, i + k)
    decreases j - i
  {
    if i == j then [] else [PairAt(keys, i)] + Pairs(keys, i + 1, j)
  }

  /** A key as the store methods make it: an entry key has its full length. */
  predicate WellKey(k: Key) {
    k != [] && k[0] == ENTRY ==> |k| == ENTRY_SIZE
  }

  predicate WellKeyed(keys: seq<Key>) {
    forall k | k in keys :: WellKey(k)
  }

  /** What storeList puts in. */
  predicate Stored(keys: seq<Key>, list: Word) {
    && EntryKey(list, BEGIN_LIST, BEGIN_LIST) in keys && EntryKey(list, END_LIST, END_LIST) in keys
      && ListKey(list) in keys
  }

  lemma SentinelsEnclose(k: Key, list: Word)
    requires InList(k, list)
    ensures !Less(k, EntryKey(list, BEGIN_LIST, BEGIN_LIST)) && !Less(EntryKey(list, END_LIST, END_LIST), k)
  {
    PartsKey(k, list);
    var p := PairOf(k);
    EntryOrder(list, p.token, p.asset, BEGIN_LIST, BEGIN_LIST);
    EntryOrder(list, END_LIST, END_LIST, p.token, p.asset);
    assert BEGIN_LIST == seq(8, i => 0 as byte) && END_LIST == seq(8, i => 255 as byte);
    ZerosLeast(8, p.token);
    ZerosLeast(8, p.asset);
    OnesGreatest(8, p.token);
    OnesGreatest(8, p.asset);
  }

  lemma BetweenSentinels(k: Key, list: Word)
    requires Less(EntryKey(list, BEGIN_LIST, BEGIN_LIST), k) && Less(k, EntryKey(list, END_LIST, END_LIST))
    ensures 9 <= |k| && k[..9] == [ENTRY] + list && k[0] == ENTRY
  {
    Between([ENTRY] + list, BEGIN_LIST + BEGIN_LIST, k, END_LIST + END_LIST);
    assert k[..9][0] == ENTRY;
  }

  /** After storeList, the list's entries are a stretch of the keys between its sentinels, and a key follows it. */
  lemma StoredIsListed(keys: seq<Key>, list: Word) returns (lo: nat, hi: nat)
    requires Sorted(keys) && WellKeyed(keys) && Stored(keys, list)
    ensures ListAt(keys, list, lo, hi)
  {
    var b, e := EntryKey(list, BEGIN_LIST, BEGIN_LIST), EntryKey(list, END_LIST, END_LIST);
    lo :| lo < |keys| && keys[lo] == b;
    var last: nat :| last < |keys| && keys[last] == e;
    var after: nat :| after < |keys| && keys[after] == ListKey(list);
    hi := last + 1;
    KeyParts(list, BEGIN_LIST, BEGIN_LIST);
    KeyParts(list, END_LIST, END_LIST);
    SentinelsEnclose(e, list);
    LessOnce(b, e);
    assert e[0] < ListKey(list)[0];
    LessOnce(e, ListKey(list));
    Position(keys, last, after);
    Position(keys, lo, last);
    forall i | 0 <= i < |keys| ensures Where(keys, list, lo, hi, i) {
      assert WellKey(keys[i]);
      if InList(keys[i], list) {
        SentinelsEnclose(keys[i], list);
        Position(keys, i, lo);
        Position(keys, last, i);
      }
      if lo < i < last {
        Position(keys, lo, i);
        Position(keys, i, last);
        BetweenSentinels(keys[i], list);
      }
    }
  }

  // ---- One page ----

  function Least(a: nat, b: nat): nat {
    if a <= b then a else b
  }

  lemma {:induction false} TakeIs(keys: seq<Key>, list: Word, lo: nat, hi: nat, i: nat, n: nat)
    requires ListAt(keys, list, lo, hi) && lo <= i <= hi
    ensures Take(keys, list, i, n) == Some(Pairs(keys, i, Least(i + n, hi)))
    decreases n
  {
    assert Where(keys, list, lo, hi, i);
    if n > 0 && i < hi {
      TakeIs(keys, list, lo, hi, i + 1, n - 1);
    }
  }

  /** No earlier entry of the list has the token. */
  predicate FirstOfToken(keys: seq<Key>, lo: nat, j: nat)
    requires j < |keys|
  {
    lo < j ==> PairAt(keys, j - 1).token != PairAt(keys, j).token
  }

  lemma SeekToken(keys: seq<Key>, list: Word, lo: nat, hi: nat, j: nat)
    requires ListAt(keys, list, lo, hi) && lo <= j < hi && FirstOfToken(keys, lo, j)
    ensures Seek(keys, EntryKey(list, PairAt(keys, j).token, BEGIN_LIST)) == j
  {
    var p := PairAt(keys, j);
    var target := EntryKey(list, p.token, BEGIN_LIST);
    KeyParts(list, p.token, BEGIN_LIST);
    KeyParts(list, BEGIN_LIST, BEGIN_LIST);
    assert Where(keys, list, lo, hi, j);
    AssetNotLess(keys[j], target, list);
    if lo < j {
      assert Where(keys, list, lo, hi, j - 1);
      Position(keys, j - 1, j);
      InListOrder(keys[j - 1], keys[j], list);
      InListOrder(keys[j - 1], target, list);
    }
    forall i | 0 <= i < j ensures Less(keys[i], target) {
      if lo == j {
        Position(keys, i, j);
      } else if i < j - 1 {
        Position(keys, i, j - 1);
        LessTransitive(keys[i], keys[j - 1], target);
      }
    }
  }

  lemma AssetNotLess(k: Key, target: Key, list: Word)
    requires InList(k, list) && InList(target, list) && PairOf(target) == Pair(PairOf(k).token, BEGIN_LIST)
    ensures !Less(k, target)
  {
    InListOrder(k, target, list);
    NotLessSelf(PairOf(k).token);
    assert BEGIN_LIST == seq(8, i => 0 as byte);
    ZerosLeast(8, PairOf(k).asset);
  }

  /** A page goes on right behind the first entry with the token, as far as it may and the list does. */
  lemma PageIs(keys: seq<Key>, list: Word, lo: nat, hi: nat, j: nat, n: nat)
    requires ListAt(keys, list, lo, hi) && lo <= j < hi && FirstOfToken(keys, lo, j)
      && PairAt(keys, j).token != END_LIST
    ensures Page(keys, list, PairAt(keys, j).token, n) == Pairs(keys, j + 1, Least(j + 1 + n, hi))
  {
    SeekToken(keys, list, lo, hi, j);
    TakeIs(keys, list, lo, hi, j + 1, n);
  }

  lemma LastIsEnd(keys: seq<Key>, list: Word, lo: nat, hi: nat)
    requires ListAt(keys, list, lo, hi)
    ensures PairAt(keys, lo) == Pair(BEGIN_LIST, BEGIN_LIST) && PairAt(keys, hi - 1) == END_PAIR
  {
    KeyParts(list, BEGIN_LIST, BEGIN_LIST);
    KeyParts(list, END_LIST, END_LIST);
  }

  lemma TokensAscend(keys: seq<Key>, list: Word, lo: nat, hi: nat, i: nat, j: nat)
    requires ListAt(keys, list, lo, hi) && lo <= i < j < hi
    ensures !Less(PairAt(keys, j).token, PairAt(keys, i).token)
  {
    Position(keys, i, j);
    assert Where(keys, list, lo, hi, i) && Where(keys, list, lo, hi, j);
    InListOrder(keys[i], keys[j], list);
    LessOnce(PairAt(keys, i).token, PairAt(keys, j).token);
  }

  /** Of three entries in order, when the outer ones have one token the middle one has it too. */
  lemma TokenInBetween(keys: seq<Key>, list: Word, lo: nat, hi: nat, i: nat, j: nat, k: nat)
    requires ListAt(keys, list, lo, hi) && lo <= i < j < k < hi && PairAt(keys, i).token == PairAt(keys, k).token
    ensures PairAt(keys, j).token == PairAt(keys, i).token
  {
    TokensAscend(keys, list, lo, hi, i, j);
    TokensAscend(keys, list, lo, hi, j, k);
    LessOnce(PairAt(keys, i).token, PairAt(keys, j).token);
  }
}
