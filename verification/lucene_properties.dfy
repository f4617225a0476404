/**
 * What initialising a Lucene index on a partitioned region promises: the
 * decisions its unit tests pin, stated for every cache, every data region
 * and every naming function.
 */
module LuceneProperties {
  import opened Wrappers
  import opened LuceneIndex

  /** The index is not yet initialised and its data region has local storage. */
  predicate Initializable(idx: Index, cache: Cache) {
    && !idx.hasInitialized
    && DataRegionOf(idx, cache).Some?
    && DataRegionOf(idx, cache).value.partition.localMaxMemory > 0
  }

  /** How many times `calls` creates the file region. */
  function FileRegionCreations(calls: seq<Call>): nat
    decreases |calls|
  {
    if |calls| == 0 then 0
    else (if calls[0].CreateFileRegion? then 1 else 0) + FileRegionCreations(calls[1..])
  }

  /** The file region, the chunk region and the event queue of one index never share a name. */
  lemma DerivedNamesAreDistinct(idx: Index, naming: Naming)
    ensures FileRegionName(idx, naming) != ChunkRegionName(idx, naming)
    ensures FileRegionName(idx, naming) != QueueId(idx, naming)
    ensures ChunkRegionName(idx, naming) != QueueId(idx, naming)
  {
  }

  /**
   * A data region without local storage makes initialisation throw the
   * IllegalStateException about storage, with nothing created and the index
   * left uninitialised.
   */
  lemma NoStorageThrowsBeforeCreating(idx: Index, cache: Cache, naming: Naming)
    requires !idx.hasInitialized && DataRegionOf(idx, cache).Some?
    requires DataRegionOf(idx, cache).value.partition.localMaxMemory <= 0
    ensures var r := Initialize(idx, cache, naming);
      && r.thrown == Some(IllegalState("The data region to create lucene index should be with storage"))
      && r.calls == []
      && r.cache == cache
      && !r.index.hasInitialized
  {
  }

  /**
   * A successful initialisation creates the file region and then the chunk
   * region, each only when no region of that name exists, both with the
   * shortcut matching the data region's persistence, and then the event
   * queue by the call matching that persistence.
   */
  lemma InitializeCalls(idx: Index, cache: Cache, naming: Naming)
    requires Initializable(idx, cache)
    ensures var r := Initialize(idx, cache, naming);
      var data := DataRegionOf(idx, cache).value;
      var shortcut := ShortcutFor(data.withPersistence);
      var fileName := FileRegionName(idx, naming);
      var chunkName := ChunkRegionName(idx, naming);
      && r.thrown.None?
      && r.index.hasInitialized
      && r.calls ==
        (if fileName in cache.regions then [] else [CreateFileRegion(shortcut, fileName, data.partition)])
        + (if chunkName in cache.regions then [] else [CreateChunkRegion(shortcut, fileName, data.partition, chunkName)])
        + [if data.withPersistence then CreateAEQWithPersistence else CreateAEQ]
  {
    DerivedNamesAreDistinct(idx, naming);
    var data := DataRegionOf(idx, cache).value;
    var fileName := FileRegionName(idx, naming);
    var chunkName := ChunkRegionName(idx, naming);
    var fileCalls :=
      if !FileRegionExists(cache, fileName) then [CreateFileRegion(ShortcutFor(data.withPersistence), fileName, data.partition)]
      else [];
    var cache1 := PerformAll(idx, cache, naming, fileCalls);
    // creating the file region cannot create a region named like the chunk region
    assert chunkName in cache1.regions <==> chunkName in cache.regions by {
      if fileCalls != [] {
        PerformOne(idx, cache, naming, fileCalls[0]);
      }
    }
  }

  /** The shortcut is PARTITION_PERSISTENT exactly when the data region persists, in every region created. */
  lemma ShortcutFollowsPersistence(idx: Index, cache: Cache, naming: Naming)
    requires Initializable(idx, cache)
    ensures var r := Initialize(idx, cache, naming);
      var persistent := DataRegionOf(idx, cache).value.withPersistence;
      forall i :: 0 <= i < |r.calls| ==>
        (r.calls[i].CreateFileRegion? || r.calls[i].CreateChunkRegion?) ==>
          (r.calls[i].shortcut == PartitionPersistent <==> persistent)
  {
  }

  /** The event queue is created with persistence exactly when the data region persists. */
  lemma QueuePersistenceFollowsData(idx: Index, cache: Cache, naming: Naming)
    requires Initializable(idx, cache)
    ensures var r := Initialize(idx, cache, naming);
      var persistent := DataRegionOf(idx, cache).value.withPersistence;
      && (CreateAEQWithPersistence in r.calls <==> persistent)
      && (CreateAEQ in r.calls <==> !persistent)
      && QueueId(idx, naming) in r.cache.queues
      && r.cache.queues[QueueId(idx, naming)] == AsyncEventQueue(persistent)
  {
  }

  /**
   * Region contents after a successful initialisation: a file region that
   * was missing now exists, colocated with the data region; a chunk region
   * that was missing now exists, colocated with the file region; both copy
   * the data region's bucket count and redundancy; every region that existed
   * before is untouched.
   */
  lemma InitializeRegions(idx: Index, cache: Cache, naming: Naming)
    requires Initializable(idx, cache)
    ensures var r := Initialize(idx, cache, naming);
      var data := DataRegionOf(idx, cache).value;
      var shortcut := ShortcutFor(data.withPersistence);
      var fileName := FileRegionName(idx, naming);
      var chunkName := ChunkRegionName(idx, naming);
      var buckets := data.partition.totalNumBuckets;
      var redundancy := data.partition.redundantCopies;
      && r.cache.regions.Keys == cache.regions.Keys + {fileName, chunkName}
      && FileRegionExists(r.cache, fileName) && ChunkRegionExists(r.cache, chunkName)
      && (forall n :: n in cache.regions ==> r.cache.regions[n] == cache.regions[n])
      && (fileName !in cache.regions ==>
            r.cache.regions[fileName] == IndexRegion(shortcut, IndexPartitionAttributes(idx.regionPath, buckets, redundancy)))
      && (chunkName !in cache.regions ==>
            r.cache.regions[chunkName] == IndexRegion(shortcut, IndexPartitionAttributes(fileName, buckets, redundancy)))
  {
    InitializeCalls(idx, cache, naming);
    DerivedNamesAreDistinct(idx, naming);
    var data := DataRegionOf(idx, cache).value;
    var shortcut := ShortcutFor(data.withPersistence);
    var fileName := FileRegionName(idx, naming);
    var chunkName := ChunkRegionName(idx, naming);
    var fileCalls := if fileName in cache.regions then [] else [CreateFileRegion(shortcut, fileName, data.partition)];
    var chunkCalls :=
      if chunkName in cache.regions then [] else [CreateChunkRegion(shortcut, fileName, data.partition, chunkName)];
    var queueCall := if data.withPersistence then CreateAEQWithPersistence else CreateAEQ;
    var cache1 := PerformAll(idx, cache, naming, fileCalls);
    var cache2 := PerformAll(idx, cache1, naming, chunkCalls);
    var cache3 := PerformAll(idx, cache2, naming, [queueCall]);
    PerformAllAppend(idx, cache, naming, fileCalls, chunkCalls);
    PerformAllAppend(idx, cache, naming, fileCalls + chunkCalls, [queueCall]);
    assert Initialize(idx, cache, naming).cache == cache3;
    assert [queueCall][1..] == [];
    assert cache3.regions == cache2.regions;
    if fileCalls != [] {
      assert fileCalls[1..] == [];
    }
    if chunkCalls != [] {
      assert chunkCalls[1..] == [];
    }
    assert cache1.regions.Keys == cache.regions.Keys + {fileName};
  }

  /**
   * Initialising twice creates the file region at most once: the second call
   * makes no call at all and changes nothing.
   */
  lemma InitializeTwiceCreatesFileRegionOnce(idx: Index, cache: Cache, naming: Naming)
    requires Initializable(idx, cache)
    ensures var r1 := Initialize(idx, cache, naming);
      var r2 := Initialize(r1.index, r1.cache, naming);
      && r2 == InitResult(r1.index, r1.cache, [], None)
      && FileRegionCreations(r1.calls + r2.calls)
         == (if FileRegionName(idx, naming) in cache.regions then 0 else 1)
  {
    InitializeCalls(idx, cache, naming);
    var r1 := Initialize(idx, cache, naming);
    assert r1.calls + [] == r1.calls;
    var data := DataRegionOf(idx, cache).value;
    var shortcut := ShortcutFor(data.withPersistence);
    var fileName := FileRegionName(idx, naming);
    var chunkName := ChunkRegionName(idx, naming);
    var fileCalls := if fileName in cache.regions then [] else [CreateFileRegion(shortcut, fileName, data.partition)];
    var chunkCalls :=
      if chunkName in cache.regions then [] else [CreateChunkRegion(shortcut, fileName, data.partition, chunkName)];
    var queueCall := if data.withPersistence then CreateAEQWithPersistence else CreateAEQ;
    FileRegionCreationsAppend(fileCalls, chunkCalls);
    FileRegionCreationsAppend(fileCalls + chunkCalls, [queueCall]);
  }

  /** Making one call has that call's effect. */
  lemma PerformOne(idx: Index, cache: Cache, naming: Naming, call: Call)
    ensures PerformAll(idx, cache, naming, [call]) == Perform(idx, cache, naming, call)
  {
  }

  /** Counting creations is additive over concatenation. */
  lemma {:induction false} FileRegionCreationsAppend(a: seq<Call>, b: seq<Call>)
    ensures FileRegionCreations(a + b) == FileRegionCreations(a) + FileRegionCreations(b)
    decreases |a|
  {
    if |a| == 0 {
      assert a + b == b;
    } else {
      assert (a + b)[0] == a[0];
      assert (a + b)[1..] == a[1..] + b;
      FileRegionCreationsAppend(a[1..], b);
    }
  }
}
