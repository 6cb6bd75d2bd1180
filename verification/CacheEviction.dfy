/** The bookkeeping of the file cache: what is evicted, and that the recorded size is the real one. */
module CacheEviction {
  /** A file in the cache directory is known by the asset's key and its extension. */
  datatype Path = Path(key: nat, extension: string)

  datatype Info = Info(size: nat, writeTime: int)

  type Files = map<Path, Info>

  /** A queued file with the write time it had when it was queued. */
  datatype Entry = Entry(time: int, path: Path)

  /** The queue hands out its first entry; it is the greatest one. */
  datatype Cache = Cache(files: Files, queue: seq<Entry>, extensions: map<nat, string>, size: nat)

  predicate Greater(a: Entry, b: Entry) {
    a.time > b.time || (a.time == b.time && a.path.key > b.path.key)
  }

  function Push(queue: seq<Entry>, e: Entry): seq<Entry> {
    if queue == [] || Greater(e, queue[0]) then [e] + queue else [queue[0]] + Push(queue[1..], e)
  }

  function Total(files: Files, queue: seq<Entry>): nat {
    if queue == [] then 0
      else (if queue[0].path in files then files[queue[0].path].size else 0) + Total(files, queue[1..])
  }

  predicate Stale(files: Files, e: Entry) {
    e.path in files && files[e.path].writeTime != e.time
  }

  function StaleCount(files: Files, queue: seq<Entry>): nat {
    if queue == [] then 0 else (if Stale(files, queue[0]) then 1 else 0) + StaleCount(files, queue[1..])
  }

  function Keys(queue: seq<Entry>): set<nat> {
    set e | e in queue :: e.path.key
  }

  predicate Distinct(queue: seq<Entry>) {
    queue == [] || (queue[0].path.key !in Keys(queue[1..]) && Distinct(queue[1..]))
  }

  predicate Present(files: Files, queue: seq<Entry>) {
    forall e | e in queue :: e.path in files
  }

  predicate Mapped(extensions: map<nat, string>, queue: seq<Entry>) {
    && extensions.Keys == Keys(queue)
    && forall e | e in queue :: e.path.key in extensions && extensions[e.path.key] == e.path.extension
  }

  /** Every queued file is there once, the map lists just these, and the recorded size is theirs together. */
  predicate Inv(c: Cache) {
    Present(c.files, c.queue) && Distinct(c.queue) && Mapped(c.extensions, c.queue) && c.size == Total(c.files, c.queue)
  }

  /** The entry on top: evicted when it was not used since it was queued, and otherwise queued again. */
  function Step(c: Cache): Cache
    requires Inv(c) && c.queue != []
  {
    var top, rest := c.queue[0], c.queue[1..];
    if Stale(c.files, top) then
      c.(queue := Push(rest, Entry(c.files[top.path].writeTime, top.path)))
    else
      Cache(c.files - {top.path}, rest, c.extensions - {top.path.key}, c.size - c.files[top.path].size)
  }

  lemma {:induction false} PushHas(queue: seq<Entry>, e: Entry)
    ensures |Push(queue, e)| == |queue| + 1
    ensures forall x :: x in Push(queue, e) <==> x == e || x in queue
  {
    if queue != [] && !Greater(e, queue[0]) {
      PushHas(queue[1..], e);
      assert queue == [queue[0]] + queue[1..];
    }
  }

  lemma PushKeys(queue: seq<Entry>, e: Entry)
    ensures Keys(Push(queue, e)) == Keys(queue) + {e.path.key}
  {
    PushHas(queue, e);
  }

  lemma {:induction false} PushDistinct(queue: seq<Entry>, e: Entry)
    requires Distinct(queue) && e.path.key !in Keys(queue)
    ensures Distinct(Push(queue, e))
  {
    if queue != [] && !Greater(e, queue[0]) {
      assert e.path.key !in Keys(queue[1..]) && e.path.key != queue[0].path.key;
      PushDistinct(queue[1..], e);
      PushKeys(queue[1..], e);
    }
  }

  lemma {:induction false} PushCounts(files: Files, queue: seq<Entry>, e: Entry)
    requires e.path in files
    ensures Total(files, Push(queue, e)) == Total(files, queue) + files[e.path].size
    ensures StaleCount(files, Push(queue, e)) == StaleCount(files, queue) + if Stale(files, e) then 1 else 0
  {
    if queue != [] && !Greater(e, queue[0]) {
      PushCounts(files, queue[1..], e);
    }
  }

  lemma {:induction false} TotalWithout(files: Files, queue: seq<Entry>, p: Path)
    requires p.key !in Keys(queue)
    ensures Total(files - {p}, queue) == Total(files, queue)
    ensures StaleCount(files - {p}, queue) == StaleCount(files, queue)
  {
    if queue != [] {
      assert queue[0].path.key in Keys(queue) && Keys(queue[1..]) <= Keys(queue);
      TotalWithout(files, queue[1..], p);
    }
  }

  lemma Popped(c: Cache)
    requires Inv(c) && c.queue != []
    ensures var top, rest := c.queue[0], c.queue[1..];
      && top.path in c.files && Present(c.files, rest) && Distinct(rest) && top.path.key !in Keys(rest)
      && Keys(c.queue) == Keys(rest) + {top.path.key}
      && c.size == c.files[top.path].size + Total(c.files, rest)
  {
    var top, rest := c.queue[0], c.queue[1..];
    assert top in c.queue && c.queue == [top] + rest;
  }

  /** One round keeps the books, and shortens the queue or the list of stale entries. */
  lemma StepInv(c: Cache)
    requires Inv(c) && c.queue != []
    ensures Inv(Step(c))
    ensures if Stale(c.files, c.queue[0]) then
        |Step(c).queue| == |c.queue| && StaleCount(c.files, Step(c).queue) == StaleCount(c.files, c.queue) - 1
      else |Step(c).queue| == |c.queue| - 1
  {
    Popped(c);
    if Stale(c.files, c.queue[0]) {
      StepRefreshes(c);
    } else {
      StepEvicts(c);
    }
  }

  lemma StepRefreshes(c: Cache)
    requires Inv(c) && c.queue != [] && Stale(c.files, c.queue[0])
    ensures Inv(Step(c)) && |Step(c).queue| == |c.queue|
    ensures StaleCount(c.files, Step(c).queue) == StaleCount(c.files, c.queue) - 1
  {
    Popped(c);
    var top, rest := c.queue[0], c.queue[1..];
    var e := Entry(c.files[top.path].writeTime, top.path);
    PushHas(rest, e);
    PushKeys(rest, e);
    PushDistinct(rest, e);
    PushCounts(c.files, rest, e);
    assert top in c.queue;
  }

  lemma StepEvicts(c: Cache)
    requires Inv(c) && c.queue != [] && !Stale(c.files, c.queue[0])
    ensures Inv(Step(c))
  {
    Popped(c);
    TotalWithout(c.files, c.queue[1..], c.queue[0].path);
  }

  /** makeRoomFor: the rounds until there is room. */
  function Evict(c: Cache, added: nat, maxSize: nat): (r: Cache)
    requires Inv(c) && added <= maxSize
    ensures Inv(r) && r.size + added <= maxSize
    decreases |c.queue|, StaleCount(c.files, c.queue)
  {
    if c.size + added <= maxSize then c else
      StepInv(c);
      Evict(Step(c), added, maxSize)
  }

  // ---- What is evicted ----

  predicate Tracked(c: Cache, p: Path) {
    exists e :: e in c.queue && e.path == p
  }

  /** The files that are gone are those that are no longer queued; the others are as they were. */
  ghost predicate OnlyEvicted(c: Cache, r: Cache) {
    && (forall p | p in r.files :: p in c.files && r.files[p] == c.files[p])
    && (forall p | p in c.files :: p in r.files <==> !Tracked(c, p) || Tracked(r, p))
    && (forall p | Tracked(r, p) :: Tracked(c, p))
  }

  lemma TrackedStep(c: Cache, p: Path)
    requires Inv(c) && c.queue != []
    ensures Tracked(Step(c), p) <==> Tracked(c, p) && (p == c.queue[0].path ==> Stale(c.files, c.queue[0]))
  {
    Popped(c);
    var top, rest := c.queue[0], c.queue[1..];
    assert c.queue == [top] + rest;
    if Stale(c.files, top) {
      var e := Entry(c.files[top.path].writeTime, top.path);
      PushHas(rest, e);
      assert e in Push(rest, e);
      if Tracked(c, p) && p != top.path {
        var x :| x in c.queue && x.path == p;
        assert x in Push(rest, e);
      }
    } else if Tracked(c, p) && p != top.path {
      var x :| x in c.queue && x.path == p;
      assert x in rest;
    }
  }

  lemma {:induction false} EvictOnlyEvicts(c: Cache, added: nat, maxSize: nat)
    requires Inv(c) && added <= maxSize
    ensures OnlyEvicted(c, Evict(c, added, maxSize))
    decreases |c.queue|, StaleCount(c.files, c.queue)
  {
    if c.size + added > maxSize {
      StepInv(c);
      EvictOnlyEvicts(Step(c), added, maxSize);
      StepOnlyEvicts(c, Step(c), Evict(c, added, maxSize));
    } else {
      forall p | Tracked(c, p) ensures p in c.files {}
    }
  }

  lemma StepOnlyEvicts(c: Cache, s: Cache, r: Cache)
    requires Inv(c) && c.queue != [] && s == Step(c) && OnlyEvicted(s, r)
    ensures OnlyEvicted(c, r)
  {
    Popped(c);
    assert c.queue[0] in c.queue;
    forall p ensures Tracked(s, p) <==> Tracked(c, p) && (p == c.queue[0].path ==> Stale(c.files, c.queue[0])) {
      TrackedStep(c, p);
    }
  }

  /** No more is evicted than has to be: with the last file that was evicted there would not be room. */
  lemma {:induction false} NoMoreThanNeeded(c: Cache, added: nat, maxSize: nat) returns (last: Path)
    requires Inv(c) && added <= maxSize < c.size + added
    ensures last in c.files && last !in Evict(c, added, maxSize).files
    ensures Evict(c, added, maxSize).size + c.files[last].size + added > maxSize
    decreases |c.queue|, StaleCount(c.files, c.queue)
  {
    StepInv(c);
    Popped(c);
    var s := Step(c);
    if s.size + added > maxSize {
      last := NoMoreThanNeeded(s, added, maxSize);
    } else {
      last := c.queue[0].path;
    }
  }

  // ---- The order of eviction ----

  predicate NotAfter(queue: seq<Entry>, time: int) {
    forall i | 0 <= i < |queue| :: queue[i].time <= time
  }

  /** Later times first. */
  predicate Ordered(queue: seq<Entry>) {
    queue == [] || (NotAfter(queue[1..], queue[0].time) && Ordered(queue[1..]))
  }

  /** No file was written before the time in its entry: an access can only have made its write time later. */
  predicate Behind(files: Files, queue: seq<Entry>) {
    forall i | 0 <= i < |queue| && queue[i].path in files :: queue[i].time <= files[queue[i].path].writeTime
  }

  /** Of two entries the one of the later time comes first, and of two of one time that of the greater key. */
  predicate ComesFirst(a: Entry, b: Entry) {
    a.time > b.time || (a.time == b.time && a.path.key >= b.path.key)
  }

  predicate InHeapOrder(queue: seq<Entry>) {
    |queue| >= 2 ==> ComesFirst(queue[0], queue[1]) && InHeapOrder(queue[1..])
  }

  /** An entry takes its place in that order. */
  lemma {:induction false} PushInHeapOrder(queue: seq<Entry>, e: Entry)
    requires InHeapOrder(queue)
    ensures InHeapOrder(Push(queue, e))
    ensures queue != [] ==> Push(queue, e)[0] == queue[0] || Push(queue, e)[0] == e
  {
    if queue == [] || Greater(e, queue[0]) {
      assert ([e] + queue)[1..] == queue;
    } else {
      PushInHeapOrder(queue[1..], e);
      assert ([queue[0]] + Push(queue[1..], e))[1..] == Push(queue[1..], e);
    }
  }

  lemma {:induction false} PushNotAfter(queue: seq<Entry>, e: Entry, time: int)
    requires NotAfter(queue, time) && e.time <= time
    ensures NotAfter(Push(queue, e), time)
  {
    if queue != [] && !Greater(e, queue[0]) {
      PushNotAfter(queue[1..], e, time);
    }
  }

  lemma PutOrdered(queue: seq<Entry>, e: Entry)
    requires Ordered(queue) && (queue != [] ==> e.time >= queue[0].time)
    ensures Ordered([e] + queue)
  {
    assert ([e] + queue)[1..] == queue;
  }

  lemma {:induction false} PushOrdered(queue: seq<Entry>, e: Entry)
    requires Ordered(queue)
    ensures Ordered(Push(queue, e))
  {
    if queue == [] || Greater(e, queue[0]) {
      PutOrdered(queue, e);
    } else {
      PushOrdered(queue[1..], e);
      PushNotAfter(queue[1..], e, queue[0].time);
      assert ([queue[0]] + Push(queue[1..], e))[1..] == Push(queue[1..], e);
    }
  }

  lemma PushInFront(queue: seq<Entry>, e: Entry)
    requires queue != [] ==> e.time > queue[0].time
    ensures Push(queue, e) == [e] + queue
  {}

  /** The queue after one round: a stale top goes back on top, with its write time; a fresh one is gone. */
  function Front(c: Cache): seq<Entry>
    requires c.queue != [] && c.queue[0].path in c.files
  {
    if Stale(c.files, c.queue[0]) then [Entry(c.files[c.queue[0].path].writeTime, c.queue[0].path)] + c.queue[1..]
    else c.queue[1..]
  }

  lemma StepAtFront(c: Cache)
    requires Inv(c) && c.queue != [] && Ordered(c.queue) && Behind(c.files, c.queue)
    ensures Step(c).files == if Stale(c.files, c.queue[0]) then c.files else c.files - {c.queue[0].path}
    ensures Step(c).queue == Front(c)
  {
    Popped(c);
    var top, rest := c.queue[0], c.queue[1..];
    assert top in c.queue;
    if Stale(c.files, top) {
      PushInFront(rest, Entry(c.files[top.path].writeTime, top.path));
    }
  }

  lemma StepBehind(c: Cache)
    requires Inv(c) && c.queue != [] && Ordered(c.queue) && Behind(c.files, c.queue)
    ensures Ordered(Step(c).queue) && Behind(Step(c).files, Step(c).queue)
  {
    StepAtFront(c);
    Popped(c);
    var top, rest := c.queue[0], c.queue[1..];
    assert Behind(c.files, rest);
    if Stale(c.files, top) {
      PutOrdered(rest, Entry(c.files[top.path].writeTime, top.path));
    }
  }

  /** How many files have to go from the front of the queue until there is room. */
  function RoomAt(files: Files, queue: seq<Entry>, added: nat, maxSize: nat): (k: nat)
    requires added <= maxSize
    ensures k <= |queue| && Total(files, queue[k..]) + added <= maxSize
    ensures k > 0 ==> Total(files, queue[k - 1..]) + added > maxSize
  {
    if Total(files, queue) + added <= maxSize then
      assert queue[0..] == queue;
      0
    else
      var k := RoomAt(files, queue[1..], added, maxSize);
      assert queue[1..][k..] == queue[k + 1..];
      assert k > 0 ==> queue[1..][k - 1..] == queue[k..];
      assert k == 0 ==> queue[0..] == queue;
      k + 1
  }

  lemma RoomAtTop(files: Files, top: Entry, top': Entry, rest: seq<Entry>, added: nat, maxSize: nat)
    requires top.path == top'.path && added <= maxSize
    ensures RoomAt(files, [top] + rest, added, maxSize) == RoomAt(files, [top'] + rest, added, maxSize)
  {
    assert ([top] + rest)[1..] == rest == ([top'] + rest)[1..];
  }

  lemma {:induction false} RoomAtWithout(files: Files, queue: seq<Entry>, p: Path, added: nat, maxSize: nat)
    requires p.key !in Keys(queue) && added <= maxSize
    ensures RoomAt(files - {p}, queue, added, maxSize) == RoomAt(files, queue, added, maxSize)
  {
    TotalWithout(files, queue, p);
    if Total(files, queue) + added > maxSize {
      assert Keys(queue[1..]) <= Keys(queue);
      RoomAtWithout(files, queue[1..], p, added, maxSize);
    }
  }

  /**
   * What eviction leaves: the queue without as many files at its front as it takes, whether or not
   * files were used since they were queued.
   */
  lemma {:induction false} EvictsFront(c: Cache, added: nat, maxSize: nat)
    requires Inv(c) && Ordered(c.queue) && Behind(c.files, c.queue) && added <= maxSize
    ensures Evict(c, added, maxSize).queue == c.queue[RoomAt(c.files, c.queue, added, maxSize)..]
    decreases |c.queue|, StaleCount(c.files, c.queue)
  {
    if c.size + added > maxSize {
      StepInv(c);
      StepBehind(c);
      EvictsFront(Step(c), added, maxSize);
      if Stale(c.files, c.queue[0]) {
        RefreshedFront(c, added, maxSize);
      } else {
        GoneFront(c, added, maxSize);
      }
    } else {
      assert c.queue[0..] == c.queue;
    }
  }

  lemma GoneFront(c: Cache, added: nat, maxSize: nat)
    requires Inv(c) && Ordered(c.queue) && Behind(c.files, c.queue) && added <= maxSize < c.size + added
    requires c.queue != [] && !Stale(c.files, c.queue[0])
    ensures var s, k := Step(c), RoomAt(c.files, c.queue, added, maxSize);
      k > 0 && RoomAt(s.files, s.queue, added, maxSize) == k - 1 && s.queue[k - 1..] == c.queue[k..]
  {
    StepAtFront(c);
    Popped(c);
    RoomAtWithout(c.files, c.queue[1..], c.queue[0].path, added, maxSize);
    var k := RoomAt(c.files, c.queue[1..], added, maxSize);
    assert c.queue[1..][k..] == c.queue[k + 1..];
  }

  lemma RefreshedFront(c: Cache, added: nat, maxSize: nat)
    requires Inv(c) && Ordered(c.queue) && Behind(c.files, c.queue) && added <= maxSize < c.size + added
    requires c.queue != [] && Stale(c.files, c.queue[0])
    ensures var s, k := Step(c), RoomAt(c.files, c.queue, added, maxSize);
      k > 0 && RoomAt(s.files, s.queue, added, maxSize) == k && s.queue[k..] == c.queue[k..]
  {
    StepAtFront(c);
    var top, rest := c.queue[0], c.queue[1..];
    var top' := Entry(c.files[top.path].writeTime, top.path);
    assert c.queue == [top] + rest && Step(c).queue == [top'] + rest;
    RoomAtTop(c.files, top, top', rest, added, maxSize);
    var k := RoomAt(c.files, c.queue, added, maxSize);
    assert ([top] + rest)[k..] == rest[k - 1..] == ([top'] + rest)[k..];
  }

  /** Least recently used first: what is gone was not used later than anything that is left. */
  predicate OldestFirst(c: Cache, r: Cache)
    requires Present(c.files, c.queue)
  {
    forall e, s | e in c.queue && s in c.queue && !Tracked(r, e.path) && Tracked(r, s.path) ::
      c.files[e.path].writeTime <= c.files[s.path].writeTime
  }

  /** When the latest access in a part of the queue was. */
  function Latest(files: Files, queue: seq<Entry>): int
    requires queue != [] && Present(files, queue)
  {
    assert queue[0] in queue && queue == [queue[0]] + queue[1..];
    var first := files[queue[0].path].writeTime;
    if |queue| == 1 then first else
      var rest := Latest(files, queue[1..]);
      if rest > first then rest else first
  }

  function Earliest(files: Files, queue: seq<Entry>): int
    requires queue != [] && Present(files, queue)
  {
    assert queue[0] in queue && queue == [queue[0]] + queue[1..];
    var first := files[queue[0].path].writeTime;
    if |queue| == 1 then first else
      var rest := Earliest(files, queue[1..]);
      if rest < first then rest else first
  }

  predicate UsedBetween(files: Files, queue: seq<Entry>, i: nat, earliest: int, latest: int)
    requires i < |queue|
  {
    queue[i].path in files && earliest <= files[queue[i].path].writeTime <= latest
  }

  /** The two are bounds that are reached. */
  lemma {:induction false} LatestEarliest(files: Files, queue: seq<Entry>) returns (late: nat, early: nat)
    requires queue != [] && Present(files, queue)
    ensures late < |queue| && queue[late].path in files && files[queue[late].path].writeTime == Latest(files, queue)
    ensures early < |queue| && queue[early].path in files
      && files[queue[early].path].writeTime == Earliest(files, queue)
    ensures forall i | 0 <= i < |queue| :: UsedBetween(files, queue, i, Earliest(files, queue), Latest(files, queue))
  {
    assert queue[0] in queue && queue == [queue[0]] + queue[1..];
    late, early := 0, 0;
    if |queue| > 1 {
      var rest := queue[1..];
      var l, e := LatestEarliest(files, rest);
      late := if Latest(files, rest) > files[queue[0].path].writeTime then l + 1 else 0;
      early := if Earliest(files, rest) < files[queue[0].path].writeTime then e + 1 else 0;
      forall i | 0 <= i < |queue|
        ensures UsedBetween(files, queue, i, Earliest(files, queue), Latest(files, queue))
      {
        assert i > 0 ==> UsedBetween(files, rest, i - 1, Earliest(files, rest), Latest(files, rest));
      }
    }
  }

  lemma {:induction false} DistinctAt(queue: seq<Entry>, i: nat, j: nat)
    requires Distinct(queue) && i < j < |queue|
    ensures queue[i].path.key != queue[j].path.key
  {
    if i == 0 {
      assert queue[1..][j - 1] in queue[1..];
    } else {
      DistinctAt(queue[1..], i - 1, j - 1);
    }
  }

  lemma FrontGone(c: Cache, r: Cache, k: nat, i: nat)
    requires Inv(c) && k <= |c.queue| && r.queue == c.queue[k..] && i < |c.queue|
    ensures Tracked(r, c.queue[i].path) <==> k <= i
  {
    if k <= i {
      assert c.queue[k..][i - k] in r.queue;
    } else if Tracked(r, c.queue[i].path) {
      var x :| x in r.queue && x.path == c.queue[i].path;
      var j :| 0 <= j < |r.queue| && r.queue[j] == x;
      DistinctAt(c.queue, i, k + j);
      assert false;
    }
  }

  /**
   * When the eviction order is the documented one, least recently used first: when nothing has to go,
   * or everything, or what is at the front of the queue, as far as it has to go, was not used later
   * than what is behind it.
   */
  lemma EvictionOrder(c: Cache, added: nat, maxSize: nat)
    requires Inv(c) && Ordered(c.queue) && Behind(c.files, c.queue) && added <= maxSize
    ensures var k := RoomAt(c.files, c.queue, added, maxSize);
      OldestFirst(c, Evict(c, added, maxSize)) <==>
        k == 0 || k == |c.queue| || Latest(c.files, c.queue[..k]) <= Earliest(c.files, c.queue[k..])
  {
    var k := RoomAt(c.files, c.queue, added, maxSize);
    EvictsFront(c, added, maxSize);
    FrontOldest(c, Evict(c, added, maxSize), k);
  }

  /** When a file at the front was last used, and when one behind it was. */
  lemma GoneAndLeft(c: Cache, r: Cache, k: nat, e: Entry, s: Entry)
    requires Inv(c) && k <= |c.queue| && r.queue == c.queue[k..]
    requires e in c.queue && s in c.queue && !Tracked(r, e.path) && Tracked(r, s.path)
    ensures 0 < k < |c.queue|
    ensures c.files[e.path].writeTime <= Latest(c.files, c.queue[..k])
    ensures c.files[s.path].writeTime >= Earliest(c.files, c.queue[k..])
  {
    var i :| 0 <= i < |c.queue| && c.queue[i] == e;
    var j :| 0 <= j < |c.queue| && c.queue[j] == s;
    FrontGone(c, r, k, i);
    FrontGone(c, r, k, j);
    FrontLatest(c.files, c.queue, k, i);
    BackEarliest(c.files, c.queue, k, j);
  }

  lemma FrontLatest(files: Files, queue: seq<Entry>, k: nat, i: nat)
    requires Present(files, queue) && i < k <= |queue|
    ensures queue[i] in queue && files[queue[i].path].writeTime <= Latest(files, queue[..k])
  {
    var late, early := LatestEarliest(files, queue[..k]);
    assert UsedBetween(files, queue[..k], i, Earliest(files, queue[..k]), Latest(files, queue[..k]));
  }

  lemma BackEarliest(files: Files, queue: seq<Entry>, k: nat, j: nat)
    requires Present(files, queue) && k <= j < |queue|
    ensures queue[j] in queue && files[queue[j].path].writeTime >= Earliest(files, queue[k..])
  {
    var late, early := LatestEarliest(files, queue[k..]);
    assert UsedBetween(files, queue[k..], j - k, Earliest(files, queue[k..]), Latest(files, queue[k..]));
  }

  lemma Extremes(c: Cache, r: Cache, k: nat) returns (e: Entry, s: Entry)
    requires Inv(c) && 0 < k < |c.queue| && r.queue == c.queue[k..]
    ensures e in c.queue && s in c.queue && !Tracked(r, e.path) && Tracked(r, s.path)
    ensures c.files[e.path].writeTime == Latest(c.files, c.queue[..k])
    ensures c.files[s.path].writeTime == Earliest(c.files, c.queue[k..])
  {
    var i, _ := LatestEarliest(c.files, c.queue[..k]);
    var _, j := LatestEarliest(c.files, c.queue[k..]);
    FrontGone(c, r, k, i);
    FrontGone(c, r, k, k + j);
    e, s := c.queue[i], c.queue[k + j];
  }

  lemma FrontOldest(c: Cache, r: Cache, k: nat)
    requires Inv(c) && k <= |c.queue| && r.queue == c.queue[k..]
    ensures OldestFirst(c, r) <==>
      k == 0 || k == |c.queue| || Latest(c.files, c.queue[..k]) <= Earliest(c.files, c.queue[k..])
  {
    forall e, s | e in c.queue && s in c.queue && !Tracked(r, e.path) && Tracked(r, s.path)
      ensures 0 < k < |c.queue| && c.files[e.path].writeTime <= Latest(c.files, c.queue[..k])
        && c.files[s.path].writeTime >= Earliest(c.files, c.queue[k..])
    {
      GoneAndLeft(c, r, k, e, s);
    }
    if 0 < k < |c.queue| && OldestFirst(c, r) {
      var e, s := Extremes(c, r, k);
    }
  }
}
