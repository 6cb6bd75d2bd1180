/** The file cache: scanning the directory, hits, downloads and eviction. */
module CacheManager {
  import opened Options
  import opened Sets
  import opened CacheEviction

  lemma {:induction false} EvictBehind(c: Cache, added: nat, maxSize: nat)
    requires Inv(c) && Ordered(c.queue) && Behind(c.files, c.queue) && added <= maxSize
    ensures var r := Evict(c, added, maxSize); Ordered(r.queue) && Behind(r.files, r.queue)
    decreases |c.queue|, StaleCount(c.files, c.queue)
  {
    if c.size + added > maxSize {
      StepInv(c);
      StepBehind(c);
      EvictBehind(Step(c), added, maxSize);
    }
  }

  lemma StepOrdered(c: Cache)
    requires Inv(c) && c.queue != [] && Ordered(c.queue)
    ensures Ordered(Step(c).queue)
  {
    var top, rest := c.queue[0], c.queue[1..];
    Popped(c);
    if Stale(c.files, top) {
      PushOrdered(rest, Entry(c.files[top.path].writeTime, top.path));
    }
  }

  lemma {:induction false} TotalSame(f: Files, g: Files, queue: seq<Entry>)
    requires forall e | e in queue :: e.path in f && e.path in g && f[e.path].size == g[e.path].size
    ensures Total(f, queue) == Total(g, queue)
  {
    if queue != [] {
      assert queue[0] in queue && forall e | e in queue[1..] :: e in queue;
      TotalSame(f, g, queue[1..]);
    }
  }

  /** No file was used since it was queued. */
  predicate Fresh(c: Cache) {
    forall e | e in c.queue :: !Stale(c.files, e)
  }

  /** A cache with its books right, whose entries can only lag behind the write times. */
  predicate Sound(c: Cache) {
    Inv(c) && Ordered(c.queue) && Behind(c.files, c.queue)
  }

  function Touched(c: Cache, p: Path, now: int): Cache
    requires p in c.files
  {
    c.(files := c.files[p := c.files[p].(writeTime := now)])
  }

  /** A hit changes a write time, and nothing the books depend on; the entry on the books is stale from then on. */
  lemma TouchInv(c: Cache, p: Path, now: int)
    requires Inv(c) && p in c.files
    ensures Inv(Touched(c, p, now))
    ensures var d := Touched(c, p, now);
      && d.files.Keys == c.files.Keys && d.files[p].writeTime == now && d.files[p].size == c.files[p].size
      && (forall q | q in c.files && q != p :: d.files[q] == c.files[q])
      && d.queue == c.queue && d.extensions == c.extensions && d.size == c.size
      && forall e | e in c.queue && e.path == p :: Stale(d.files, e) <==> e.time != now
    ensures Sound(c) && c.files[p].writeTime <= now ==> Sound(Touched(c, p, now))
  {
    TotalSame(c.files, c.files[p := c.files[p].(writeTime := now)], c.queue);
  }

  /** A file that is not queued may come or go. */
  lemma UntrackedInv(c: Cache, files: Files)
    requires Inv(c) && forall e | e in c.queue :: e.path in files && files[e.path] == c.files[e.path]
    ensures Inv(c.(files := files)) && (Sound(c) ==> Sound(c.(files := files)))
  {
    TotalSame(c.files, files, c.queue);
    assert forall i | 0 <= i < |c.queue| :: c.queue[i] in c.queue;
  }

  function Added(c: Cache, p: Path, info: Info): Cache {
    Cache(c.files[p := info], Push(c.queue, Entry(info.writeTime, p)), c.extensions[p.key := p.extension],
          c.size + info.size)
  }

  lemma PushBehind(files: Files, queue: seq<Entry>, e: Entry)
    requires e.path in files && e.time <= files[e.path].writeTime
    ensures Behind(files, queue) ==> Behind(files, Push(queue, e))
  {
    if Behind(files, queue) {
      PushHas(queue, e);
      forall i | 0 <= i < |Push(queue, e)| && Push(queue, e)[i].path in files
        ensures Push(queue, e)[i].time <= files[Push(queue, e)[i].path].writeTime
      {
        var x := Push(queue, e)[i];
        assert x in Push(queue, e);
      }
    }
  }

  lemma AddedBooks(c: Cache, p: Path, info: Info)
    requires Inv(c) && p.key !in c.extensions
    ensures Inv(Added(c, p, info))
  {
    var e := Entry(info.writeTime, p);
    UntrackedInv(c, c.files[p := info]);
    PushHas(c.queue, e);
    PushKeys(c.queue, e);
    PushDistinct(c.queue, e);
    PushCounts(c.files[p := info], c.queue, e);
  }

  /** Adding a file whose name is not on the books. */
  lemma AddedInv(c: Cache, p: Path, info: Info)
    requires Inv(c) && p.key !in c.extensions
    ensures Inv(Added(c, p, info))
    ensures forall q :: Tracked(Added(c, p, info), q) <==> q == p || Tracked(c, q)
    ensures var d := Added(c, p, info);
      && d.files.Keys == c.files.Keys + {p} && d.files[p] == info
      && (forall q | q in c.files && q != p :: d.files[q] == c.files[q])
      && d.extensions.Keys == c.extensions.Keys + {p.key} && d.extensions[p.key] == p.extension
      && d.size == c.size + info.size
    ensures Ordered(c.queue) ==> Ordered(Added(c, p, info).queue)
    ensures Sound(c) ==> Sound(Added(c, p, info))
  {
    var e := Entry(info.writeTime, p);
    AddedBooks(c, p, info);
    TrackedMore(c, p, info, e);
    if Ordered(c.queue) {
      PushOrdered(c.queue, e);
    }
    if Sound(c) {
      UntrackedInv(c, c.files[p := info]);
      PushBehind(c.files[p := info], c.queue, e);
    }
  }

  lemma TrackedMore(c: Cache, p: Path, info: Info, e: Entry)
    requires e == Entry(info.writeTime, p)
    ensures forall q :: Tracked(Added(c, p, info), q) <==> q == p || Tracked(c, q)
  {
    PushHas(c.queue, e);
    forall q ensures Tracked(Added(c, p, info), q) <==> q == p || Tracked(c, q) {
      assert e in Push(c.queue, e);
      if Tracked(c, q) {
        var x :| x in c.queue && x.path == q;
        assert x in Push(c.queue, e);
      }
    }
  }

  /**
   * The scan before the files in `rest` are looked at: of the others those that are good are there,
   * as they were, and queued with their write times.
   */
  ghost predicate SoFar(c: Cache, was: Files, validate: bool, intact: set<Path>, rest: set<Path>) {
    && Inv(c) && Fresh(c) && Ordered(c.queue) && rest <= was.Keys
    && (forall p, q | p in was && q in was && p.key == q.key :: p == q)
    && (forall p :: p in c.files <==> p in was && (p in rest || (validate ==> p in intact)))
    && (forall p | p in c.files :: c.files[p] == was[p])
    && (forall p :: Tracked(c, p) <==> p in c.files && p !in rest)
  }

  lemma ScanKeeps(c: Cache, was: Files, validate: bool, intact: set<Path>, rest: set<Path>, path: Path)
    requires SoFar(c, was, validate, intact, rest) && path in rest && path in c.files && (validate ==> path in intact)
    ensures path.key !in c.extensions
    ensures SoFar(Added(c, path, c.files[path]), was, validate, intact, rest - {path})
  {
    if path.key in c.extensions {
      MappedIsTracked(c, path.key);
    }
    AddedInv(c, path, c.files[path]);
    AddedFresh(c, path);
    assert c.files[path := c.files[path]] == c.files;
  }

  lemma AddedFresh(c: Cache, path: Path)
    requires Fresh(c) && path in c.files
    ensures Fresh(Added(c, path, c.files[path]))
  {
    PushHas(c.queue, Entry(c.files[path].writeTime, path));
    assert c.files[path := c.files[path]] == c.files;
  }

  lemma FreshIsSound(c: Cache)
    requires Inv(c) && Ordered(c.queue) && Fresh(c)
    ensures Sound(c)
  {
    forall i | 0 <= i < |c.queue| ensures !Stale(c.files, c.queue[i]) {
      assert c.queue[i] in c.queue;
    }
  }

  lemma ScanDrops(c: Cache, was: Files, validate: bool, intact: set<Path>, rest: set<Path>, path: Path)
    requires SoFar(c, was, validate, intact, rest) && path in rest && validate && path !in intact
    ensures SoFar(c.(files := c.files - {path}), was, validate, intact, rest - {path})
  {
    assert !Tracked(c, path);
    forall e | e in c.queue ensures e.path in c.files && e.path != path {
      assert Tracked(c, e.path);
    }
    UntrackedInv(c, c.files - {path});
    var d := c.(files := c.files - {path});
    assert forall p :: Tracked(d, p) <==> Tracked(c, p);
  }

  lemma MappedIsTracked(c: Cache, key: nat)
    requires Inv(c) && key in c.extensions
    ensures Tracked(c, Path(key, c.extensions[key]))
  {
    var e :| e in c.queue && e.path.key == key;
    assert e.path == Path(key, c.extensions[key]);
  }

  class CacheManager {
    const maxSize: nat
    /** The regular files in the cache directory. */
    var files: Files
    var timeQueue: seq<Entry>
    var extensionMap: map<nat, string>
    var currentSize: nat

    constructor (files: Files, maxSize: nat)
      ensures View() == Cache(files, [], map[], 0) && Valid() && this.maxSize == maxSize
    {
      this.files, this.maxSize, timeQueue, extensionMap, currentSize := files, maxSize, [], map[], 0;
    }

    ghost function View(): Cache
      reads this
    {
      Cache(files, timeQueue, extensionMap, currentSize)
    }

    ghost predicate Valid()
      reads this
    {
      Inv(View()) && Ordered(timeQueue)
    }

    /** Evicts until there is room; the queue is never empty when its top is taken. */
    method MakeRoomFor(addedBytes: nat)
      requires Valid() && addedBytes <= maxSize
      modifies this
      ensures Valid() && View() == Evict(old(View()), addedBytes, maxSize)
      ensures old(Sound(View())) ==> Sound(View())
      ensures currentSize + addedBytes <= maxSize && currentSize == Total(files, timeQueue)
    {
      if Sound(View()) {
        EvictBehind(View(), addedBytes, maxSize);
      }
      while currentSize + addedBytes > maxSize
        invariant Valid() && Evict(View(), addedBytes, maxSize) == Evict(old(View()), addedBytes, maxSize)
        decreases |timeQueue|, StaleCount(files, timeQueue)
      {
        ghost var before := View();
        assert timeQueue != [];
        Popped(before);
        StepInv(before);
        StepOrdered(before);
        var oldest := timeQueue[0];
        timeQueue := timeQueue[1..];
        var realWriteTime := files[oldest.path].writeTime;
        if realWriteTime == oldest.time {
          var oldestSize := files[oldest.path].size;
          currentSize := currentSize - oldestSize;
          extensionMap := extensionMap - {oldest.path.key};
          files := files - {oldest.path};
        } else {
          timeQueue := Push(timeQueue, Entry(realWriteTime, oldest.path));
        }
        assert View() == Step(before);
      }
    }

    /** A file found by the scan is taken into the books. */
    method Record(path: Path)
      requires Valid() && path in files && path.key !in extensionMap
      modifies this`timeQueue, this`extensionMap, this`currentSize
      ensures Valid() && View() == Added(old(View()), path, files[path])
    {
      AddedInv(View(), path, files[path]);
      assert files[path := files[path]] == files;
      currentSize := currentSize + files[path].size;
      timeQueue := Push(timeQueue, Entry(files[path].writeTime, path));
      extensionMap := extensionMap[path.key := path.extension];
    }

    /**
     * Starts over from what is in the directory; with validation, files whose hash is wrong are removed.
     * `found` is the state before the final eviction.
     */
    method CheckExistingEntries(validate: bool, intact: set<Path>) returns (ghost found: Cache)
      requires forall p, q | p in files && q in files && p.key == q.key :: p == q
      modifies this
      ensures SoFar(found, old(files), validate, intact, {}) && Sound(found) && Sound(View())
      ensures Valid() && View() == Evict(found, 0, maxSize)
    {
      currentSize, timeQueue, extensionMap := 0, [], map[];
      ghost var was := files;
      var rest := files.Keys;
      while rest != {}
        invariant SoFar(View(), was, validate, intact, rest)
        decreases |rest|
      {
        NonEmpty(rest);
        var path :| path in rest;
        if !validate || path in intact {
          ScanKeeps(View(), was, validate, intact, rest, path);
          Record(path);
        } else {
          ScanDrops(View(), was, validate, intact, rest, path);
          files := files - {path};
        }
        rest := rest - {path};
      }
      found := View();
      FreshIsSound(found);
      MakeRoomFor(0);
    }

    /** A hit: the file's write time becomes the time of the access, while its entry in the queue stays as it is. */
    method CheckCache(key: nat, now: int) returns (path: Option<Path>)
      requires Valid()
      modifies this`files
      ensures Valid() && files.Keys == old(files).Keys
      ensures path.Some? <==> exists e :: e in timeQueue && e.path.key == key
      ensures path.Some? ==> path.value.key == key && Tracked(View(), path.value)
      ensures path.Some? ==> View() == Touched(old(View()), path.value, now)
      ensures path.Some? ==> path.value in files && files[path.value] == Info(old(files)[path.value].size, now)
      ensures forall p | p in files && path != Some(p) :: files[p] == old(files)[p]
      ensures path.Some? && old(Sound(View())) && old(files)[path.value].writeTime <= now ==> Sound(View())
      ensures path.None? ==> files == old(files)
    {
      if key !in extensionMap {
        return None;
      }
      var p := Path(key, extensionMap[key]);
      path := Some(p);
      MappedIsTracked(View(), key);
      TouchInv(View(), p, now);
      files := files[p := files[p].(writeTime := now)];
    }

    /** After a miss. Nothing is evicted, whatever the size; a failed download leaves no file behind. */
    method Download(key: nat, fileSize: nat, extension: string, intact: bool, now: int) returns (path: Option<Path>)
      requires Valid() && key !in extensionMap
      modifies this
      ensures Valid() && path == if intact then Some(Path(key, extension)) else None
      ensures intact ==> View() == Added(old(View()), Path(key, extension), Info(fileSize, now))
      ensures intact ==> files == old(files)[Path(key, extension) := Info(fileSize, now)]
      ensures old(Sound(View())) ==> Sound(View())
      ensures !intact ==> View() == old(View()).(files := old(files) - {Path(key, extension)})
      ensures intact ==> (currentSize <= maxSize <==> old(currentSize) + fileSize <= maxSize)
    {
      var filePath := Path(key, extension);
      if !intact {
        UntrackedInv(View(), files - {filePath});
        files := files - {filePath};
        return None;
      }
      AddedInv(View(), filePath, Info(fileSize, now));
      files := files[filePath := Info(fileSize, now)];
      currentSize := currentSize + fileSize;
      timeQueue := Push(timeQueue, Entry(now, filePath));
      extensionMap := extensionMap[key := extension];
      path := Some(filePath);
    }
  }
}
