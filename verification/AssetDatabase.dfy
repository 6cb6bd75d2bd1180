/** The lists of the asset database: the keys that are stored, and the call that reads them page by page. */
module AssetDatabase {
  import opened Options
  import opened Bytes
  import opened ListPages
  import opened ListWalk

  const NAME_PREFIX: byte := 'n' as int
  const ASSET_NAME: Key := [NAME_PREFIX, 'a' as int]
  const LIST_NAME: Key := [NAME_PREFIX, 'l' as int]
  const MAX_LIST_ENTRIES: nat := 8

  /** A key takes its place in the order; one that is there already stays there once. */
  function InsertKey(keys: seq<Key>, k: Key): seq<Key> {
    if keys == [] || Less(k, keys[0]) then [k] + keys
    else if keys[0] == k then keys
    else [keys[0]] + InsertKey(keys[1..], k)
  }

  predicate AllAfter(keys: seq<Key>, k: Key) {
    forall i | 0 <= i < |keys| :: Less(k, keys[i])
  }

  lemma {:induction false} InsertAfter(keys: seq<Key>, k: Key, first: Key)
    requires AllAfter(keys, first) && Less(first, k)
    ensures AllAfter(InsertKey(keys, k), first)
  {
    if keys != [] && !Less(k, keys[0]) && keys[0] != k {
      InsertAfter(keys[1..], k, first);
    }
  }

  lemma SortedTail(keys: seq<Key>)
    requires Sorted(keys) && keys != []
    ensures Sorted(keys[1..]) && AllAfter(keys[1..], keys[0])
  {
    forall i | 0 <= i < |keys| - 1 ensures AfterOthers(keys[1..], i) && Less(keys[0], keys[1..][i]) {
      assert AfterOthers(keys, i + 1);
    }
  }

  lemma SortedCons(k: Key, keys: seq<Key>)
    requires Sorted(keys) && AllAfter(keys, k)
    ensures Sorted([k] + keys)
  {
    var all := [k] + keys;
    forall i | 0 <= i < |all| ensures AfterOthers(all, i) {
      assert i > 0 ==> AfterOthers(keys, i - 1);
    }
  }

  lemma {:induction false} InsertSorted(keys: seq<Key>, k: Key)
    requires Sorted(keys)
    ensures Sorted(InsertKey(keys, k))
  {
    if keys == [] {
      SortedCons(k, keys);
    } else if Less(k, keys[0]) {
      SortedTail(keys);
      forall i | 0 <= i < |keys| ensures Less(k, keys[i]) {
        if i > 0 {
          assert keys[1..][i - 1] == keys[i];
          LessTransitive(k, keys[0], keys[i]);
        }
      }
      SortedCons(k, keys);
    } else if keys[0] != k {
      SortedTail(keys);
      InsertSorted(keys[1..], k);
      LessOnce(k, keys[0]);
      InsertAfter(keys[1..], k, keys[0]);
      SortedCons(keys[0], InsertKey(keys[1..], k));
    }
  }

  lemma {:induction false} InsertHas(keys: seq<Key>, k: Key, x: Key)
    ensures x in InsertKey(keys, k) <==> x == k || x in keys
  {
    if keys != [] && !Less(k, keys[0]) && keys[0] != k {
      InsertHas(keys[1..], k, x);
      assert x in keys <==> x == keys[0] || x in keys[1..];
    }
  }

  /** The first `count` entries of the buffer hold these pairs. */
  predicate Holds(listOut: seq<Word>, pairs: seq<Pair>) {
    && 2 * |pairs| <= |listOut|
    && forall i | 0 <= i < |pairs| :: listOut[2 * i] == pairs[i].token && listOut[2 * i + 1] == pairs[i].asset
  }

  /** What is taken, after pairs that were taken before. */
  function Then(got: seq<Pair>, rest: Option<seq<Pair>>): Option<seq<Pair>> {
    match rest
    case None => None
    case Some(more) => Some(got + more)
  }

  lemma TakeOne(keys: seq<Key>, list: Word, i: nat, n: nat, got: seq<Pair>)
    requires n > 0 && i < |keys| && InList(keys[i], list)
    ensures Then(got, Take(keys, list, i, n)) == Then(got + [PairOf(keys[i])], Take(keys, list, i + 1, n - 1))
  {
    var rest := Take(keys, list, i + 1, n - 1);
    if rest.Some? {
      assert got + ([PairOf(keys[i])] + rest.value) == (got + [PairOf(keys[i])]) + rest.value;
    }
  }

  lemma ThenNothing(got: seq<Pair>, rest: Option<seq<Pair>>)
    ensures Then(got, Some([])) == Some(got) && Then([], rest) == rest
  {
    assert got + [] == got;
    if rest.Some? {
      assert [] + rest.value == rest.value;
    }
  }

  class AssetDatabase {
    /** The keys of the ordered store, without the values. */
    var keys: seq<Key>

    ghost predicate Valid()
      reads this
    {
      Sorted(keys) && WellKeyed(keys)
    }

    constructor ()
      ensures Valid() && keys == []
    {
      keys := [];
    }

    /** One Put of a batch. */
    method Put(k: Key)
      requires Valid() && WellKey(k)
      modifies this
      ensures Valid() && forall x :: x in keys <==> x == k || x in old(keys)
    {
      InsertSorted(keys, k);
      forall x ensures x in InsertKey(keys, k) <==> x == k || x in keys {
        InsertHas(keys, k, x);
      }
      keys := InsertKey(keys, k);
    }

    /** `written` says whether the store accepted the batch. */
    method StoreList(key: Word, name: Key, written: bool) returns (ok: bool)
      requires Valid()
      modifies this
      ensures Valid() && ok == written && (!written ==> keys == old(keys))
      ensures written ==> Stored(keys, key) && forall x :: x in keys <==>
        x in old(keys) || (name != [] && x == LIST_NAME + name) || x == EntryKey(key, BEGIN_LIST, BEGIN_LIST)
        || x == EntryKey(key, END_LIST, END_LIST) || x == ListKey(key)
    {
      ok := written;
      if written {
        if name != [] {
          Put(LIST_NAME + name);
        }
        Put(EntryKey(key, BEGIN_LIST, BEGIN_LIST));
        Put(EntryKey(key, END_LIST, END_LIST));
        Put(ListKey(key));
      }
    }

    /** The asset's entries in lists all carry the time at which it is stored. */
    method StoreAsset(key: Word, name: Key, lists: seq<Word>, timeStamp: Word, written: bool) returns (ok: bool)
      requires Valid() && |lists| <= MAX_LIST_ENTRIES
      modifies this
      ensures Valid() && ok == written && (!written ==> keys == old(keys))
      ensures written ==> forall x :: x in keys <==>
        x in old(keys) || (name != [] && x == ASSET_NAME + name) || x == [ASSET] + key
        || exists i :: 0 <= i < |lists| && x == EntryKey(lists[i], timeStamp, key)
    {
      ok := written;
      if written {
        if name != [] {
          Put(ASSET_NAME + name);
        }
        ghost var before := keys;
        for i := 0 to |lists|
          invariant Valid()
          invariant forall x ::
            x in keys <==> x in before || exists j :: 0 <= j < i && x == EntryKey(lists[j], timeStamp, key)
        {
          Put(EntryKey(lists[i], timeStamp, key));
        }
        Put([ASSET] + key);
      }
    }

    static method WritePair(listOut: array<Word>, pairs: nat, k: Key, ghost got: seq<Pair>)
      requires |k| == ENTRY_SIZE && pairs == |got| && 2 * pairs + 2 <= listOut.Length && Holds(listOut[..], got)
      modifies listOut
      ensures Holds(listOut[..], got + [PairOf(k)])
      ensures forall i | 2 * pairs + 2 <= i < listOut.Length :: listOut[i] == old(listOut[i])
    {
      listOut[2 * pairs], listOut[2 * pairs + 1] := k[9..17], k[17..25];
    }

    /** The loop of GetListNext; `position` is where the iterator is. */
    static method Fill(keys: seq<Key>, listKey: Word, start: nat, maxPairs: nat, listOut: array<Word>)
      returns (pairs: nat)
      requires start < |keys| && 2 * maxPairs <= listOut.Length
      modifies listOut
      ensures match Take(keys, listKey, start + 1, maxPairs)
        case None => pairs == 0
        case Some(taken) => pairs == |taken| && Holds(listOut[..], taken)
      ensures forall i | 2 * maxPairs <= i < listOut.Length :: listOut[i] == old(listOut[i])
    {
      var position := start;
      ghost var got: seq<Pair> := [];
      ThenNothing([], Take(keys, listKey, start + 1, maxPairs));
      pairs := 0;
      while pairs < maxPairs
        invariant pairs == |got| <= maxPairs && position == start + pairs < |keys|
        invariant Holds(listOut[..], got)
        invariant forall i | 2 * maxPairs <= i < listOut.Length :: listOut[i] == old(listOut[i])
        invariant Take(keys, listKey, start + 1, maxPairs) ==
          Then(got, Take(keys, listKey, position + 1, maxPairs - pairs))
        decreases maxPairs - pairs
      {
        position := position + 1;
        if position == |keys| {
          return 0;
        }
        if |keys[position]| != ENTRY_SIZE || keys[position][..9] != [ENTRY] + listKey {
          break;
        }
        TakeOne(keys, listKey, position, maxPairs - pairs, got);
        WritePair(listOut, pairs, keys[position], got);
        got := got + [PairOf(keys[position])];
        pairs := pairs + 1;
      }
      ThenNothing(got, None);
    }

    /**
     * Fills the buffer with the page after a token and returns the number of pairs. At the end of the
     * list the number is 1 even if there was no room for the pair.
     */
    method GetListNext(listKey: Word, fromToken: Word, maxPairs: nat, listOut: array<Word>) returns (count: nat)
      requires Valid() && 2 * maxPairs <= listOut.Length
      modifies listOut
      ensures Holds(listOut[..], PageOf(keys, listKey)(fromToken, maxPairs))
      ensures count == if fromToken == END_LIST then 1 else |PageOf(keys, listKey)(fromToken, maxPairs)|
      ensures forall i | 2 * maxPairs <= i < listOut.Length :: listOut[i] == old(listOut[i])
    {
      if fromToken == END_LIST {
        if maxPairs >= 1 {
          listOut[0] := END_LIST;
          listOut[1] := END_LIST;
        }
        return 1;
      }
      var position := Seek(keys, EntryKey(listKey, fromToken, BEGIN_LIST));
      if position == |keys| {
        return 0;
      }
      count := Fill(keys, listKey, position, maxPairs, listOut);
    }
  }
}
