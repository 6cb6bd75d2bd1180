/** Any sequence of hits, downloads and evictions after a scan of the cache directory. */
module CacheRuns {
  import opened CacheEviction
  import opened CacheManager

  datatype Event =
    | Hit(path: Path, now: int)
    | Fetched(path: Path, size: nat, now: int)
    | Failed(path: Path)
    | MakeRoom(added: nat)

  predicate Enabled(c: Cache, e: Event, maxSize: nat) {
    match e
    case Hit(p, _) => Tracked(c, p)
    case Fetched(p, _, _) => p.key !in c.extensions
    case Failed(p) => p.key !in c.extensions
    case MakeRoom(added) => added <= maxSize
  }

  lemma TrackedPresent(c: Cache, p: Path)
    requires Inv(c) && Tracked(c, p)
    ensures p in c.files
  {}

  function Next(c: Cache, e: Event, maxSize: nat): Cache
    requires Inv(c) && Enabled(c, e, maxSize)
  {
    match e
    case Hit(p, now) =>
      TrackedPresent(c, p);
      Touched(c, p, now)
    case Fetched(p, size, now) => Added(c, p, Info(size, now))
    case Failed(p) => c.(files := c.files - {p})
    case MakeRoom(added) => Evict(c, added, maxSize)
  }

  /** The clock does not run backwards. */
  function Clock(e: Event, clock: int): int {
    if e.Hit? || e.Fetched? then e.now else clock
  }

  predicate NotLater(files: Files, clock: int) {
    forall p | p in files :: files[p].writeTime <= clock
  }

  /** A cache at some time; the last of its events, and what they made of it. */
  datatype Run = Scanned(cache: Cache, clock: int) | Then(before: Run, event: Event)

  ghost function After(run: Run, maxSize: nat): Cache
    requires Legal(run, maxSize)
    decreases run, 1
  {
    match run
    case Scanned(c, _) => c
    case Then(before, e) => Next(After(before, maxSize), e, maxSize)
  }

  function Time(run: Run): int {
    match run
    case Scanned(_, clock) => clock
    case Then(before, e) => Clock(e, Time(before))
  }

  /** It starts with what a scan finds, and the clock never runs backwards. */
  ghost predicate Legal(run: Run, maxSize: nat)
    decreases run, 0
  {
    match run
    case Scanned(c, clock) => Sound(c) && NotLater(c.files, clock)
    case Then(before, e) =>
      Legal(before, maxSize) && Time(before) <= Time(run)
      && Inv(After(before, maxSize)) && Enabled(After(before, maxSize), e, maxSize)
  }

  /** Every reachable cache has its books right, and its entries only lag behind. */
  lemma {:induction false} ReachableSound(run: Run, maxSize: nat)
    requires Legal(run, maxSize)
    ensures Sound(After(run, maxSize)) && NotLater(After(run, maxSize).files, Time(run))
  {
    match run
    case Scanned(c, clock) =>
    case Then(before, e) =>
      ReachableSound(before, maxSize);
      NextSound(After(before, maxSize), e, maxSize, Time(before));
  }

  lemma NextSound(c: Cache, e: Event, maxSize: nat, clock: int)
    requires Sound(c) && NotLater(c.files, clock) && Enabled(c, e, maxSize) && clock <= Clock(e, clock)
    ensures Sound(Next(c, e, maxSize)) && NotLater(Next(c, e, maxSize).files, Clock(e, clock))
  {
    match e
    case Hit(p, now) =>
      TrackedPresent(c, p);
      TouchInv(c, p, now);
    case Fetched(p, size, now) => AddedInv(c, p, Info(size, now));
    case Failed(p) =>
      UntrackedKeys(c, p);
      UntrackedInv(c, c.files - {p});
    case MakeRoom(added) =>
      EvictBehind(c, added, maxSize);
      EvictOnlyEvicts(c, added, maxSize);
  }

  lemma UntrackedKeys(c: Cache, p: Path)
    requires Inv(c) && p.key !in c.extensions
    ensures forall e | e in c.queue :: e.path != p
  {}

  // ---- When files were used ----

  /** When the file was last hit or fetched, from the events alone; before them, from what the scan found. */
  function LastUse(run: Run, p: Path): int {
    match run
    case Scanned(c, _) => if p in c.files then c.files[p].writeTime else 0
    case Then(before, e) =>
      if (e.Hit? || e.Fetched?) && e.path == p then e.now else LastUse(before, p)
  }

  /** Hit or fetched in the run, or found by the scan. */
  predicate Known(run: Run, p: Path) {
    match run
    case Scanned(c, _) => p in c.files
    case Then(before, e) => ((e.Hit? || e.Fetched?) && e.path == p) || Known(before, p)
  }

  lemma UsedAfter(c: Cache, e: Event, maxSize: nat, p: Path)
    requires Sound(c) && Enabled(c, e, maxSize) && Tracked(Next(c, e, maxSize), p)
    ensures p in Next(c, e, maxSize).files
    ensures var time := Next(c, e, maxSize).files[p].writeTime;
      if (e.Hit? || e.Fetched?) && e.path == p then time == e.now
      else Tracked(c, p) && p in c.files && time == c.files[p].writeTime
  {
    match e
    case Hit(q, now) =>
      TrackedPresent(c, q);
      TrackedPresent(c, p);
    case Fetched(q, size, now) =>
      AddedInv(c, q, Info(size, now));
      TrackedPresent(Next(c, e, maxSize), p);
      if p != q { TrackedPresent(c, p); }
    case Failed(q) =>
      UntrackedKeys(c, q);
      TrackedPresent(c, p);
    case MakeRoom(added) =>
      EvictOnlyEvicts(c, added, maxSize);
      TrackedPresent(c, p);
  }

  /** In every reachable cache the write time of a file on the books is the time of its last use. */
  lemma {:induction false} WriteTimeIsLastUse(run: Run, maxSize: nat, p: Path)
    requires Legal(run, maxSize) && Tracked(After(run, maxSize), p)
    ensures Known(run, p) && p in After(run, maxSize).files && After(run, maxSize).files[p].writeTime == LastUse(run, p)
  {
    match run
    case Scanned(c, _) => TrackedPresent(c, p);
    case Then(before, e) =>
      ReachableSound(before, maxSize);
      UsedAfter(After(before, maxSize), e, maxSize, p);
      if !((e.Hit? || e.Fetched?) && e.path == p) {
        WriteTimeIsLastUse(before, maxSize, p);
      }
  }

  /** The documented order: what is evicted was not used later than anything that stays. */
  ghost predicate LeastRecentlyUsedFirst(run: Run, c: Cache, r: Cache) {
    forall p, q | Tracked(c, p) && Tracked(c, q) && !Tracked(r, p) && Tracked(r, q) ::
      LastUse(run, p) <= LastUse(run, q)
  }

  lemma OrderOfUse(run: Run, maxSize: nat, r: Cache)
    requires Legal(run, maxSize) && Sound(After(run, maxSize))
    ensures LeastRecentlyUsedFirst(run, After(run, maxSize), r) <==> OldestFirst(After(run, maxSize), r)
  {
    var c := After(run, maxSize);
    forall p | Tracked(c, p) ensures p in c.files && c.files[p].writeTime == LastUse(run, p) {
      WriteTimeIsLastUse(run, maxSize, p);
    }
    forall e | e in c.queue ensures Tracked(c, e.path) {}
    if OldestFirst(c, r) {
      forall p, q | Tracked(c, p) && Tracked(c, q) && !Tracked(r, p) && Tracked(r, q)
        ensures LastUse(run, p) <= LastUse(run, q)
      {
        var e :| e in c.queue && e.path == p;
        var s :| s in c.queue && s.path == q;
        assert c.files[e.path].writeTime <= c.files[s.path].writeTime;
      }
    }
  }

  /** In every reachable cache, when eviction follows the documented order, least recently used first. */
  lemma ReachableEvictionOrder(run: Run, added: nat, maxSize: nat)
    requires Legal(run, maxSize) && added <= maxSize
    ensures var c := After(run, maxSize);
      Sound(c) && var k := RoomAt(c.files, c.queue, added, maxSize);
      && Evict(c, added, maxSize).queue == c.queue[k..]
      && (LeastRecentlyUsedFirst(run, c, Evict(c, added, maxSize)) <==>
            k == 0 || k == |c.queue| || Latest(c.files, c.queue[..k]) <= Earliest(c.files, c.queue[k..]))
  {
    ReachableSound(run, maxSize);
    var c := After(run, maxSize);
    EvictsFront(c, added, maxSize);
    EvictionOrder(c, added, maxSize);
    OrderOfUse(run, maxSize, Evict(c, added, maxSize));
  }
}
