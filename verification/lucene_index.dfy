/**
 * A Lucene index on a partitioned region and its one-shot initialisation.
 *
 * Initialising the index decides, from the data region's attributes and the
 * regions already in the cache, whether to fail, which region shortcut to
 * use, which of the two index regions (file and chunk) to create and with
 * what partitioning, and whether the index's async event queue persists.
 * The cache is an abstract value: the regions it holds by name and the
 * queues it holds by id.
 */
module LuceneIndex {
  import opened Wrappers

  /** The two region shortcuts the index regions can be created with. */
  datatype RegionShortcut = Partition | PartitionPersistent

  /** The data region's partition attributes that initialisation reads. */
  datatype PartitionAttributes = PartitionAttributes(localMaxMemory: int, totalNumBuckets: int, redundantCopies: int)

  /** The partition attributes the index gives one of its own regions. */
  datatype IndexPartitionAttributes = IndexPartitionAttributes(colocatedWith: string, totalNumBuckets: int, redundantCopies: int)

  /**
   * A region in the cache: a partitioned data region (whether its data policy
   * persists, and its partition attributes), or a region an index created
   * through a region factory.
   */
  datatype Region =
    | DataRegion(withPersistence: bool, partition: PartitionAttributes)
    | IndexRegion(shortcut: RegionShortcut, indexPartition: IndexPartitionAttributes)

  /** An async event queue; only whether it persists is modelled. */
  datatype AsyncEventQueue = AsyncEventQueue(persistent: bool)

  datatype Cache = Cache(regions: map<string, Region>, queues: map<string, AsyncEventQueue>)

  /** The index: its name, the path of the region it indexes, and whether it was initialised. */
  datatype Index = Index(indexName: string, regionPath: string, hasInitialized: bool) {
    function Name(): string { indexName }
    function RegionPath(): string { regionPath }
  }

  /**
   * LuceneServiceImpl.getUniqueIndexName(indexName, regionPath): how the
   * service derives one name from an index name and a region path. Its
   * definition is not part of this model, so every operation that uses it
   * takes it as a parameter and holds for every such naming function.
   */
  type Naming = (string, string) -> string

  /** The calls initialisation makes on the index's own creation methods, in order. */
  datatype Call =
    | CreateFileRegion(shortcut: RegionShortcut, fileRegionName: string, partition: PartitionAttributes)
    | CreateChunkRegion(shortcut: RegionShortcut, fileRegionName: string, partition: PartitionAttributes, chunkRegionName: string)
    | CreateAEQ
    | CreateAEQWithPersistence

  /** What initialisation throws. */
  datatype InitError =
    // the cache holds no partitioned data region at the index's region path
    | NoDataRegion
    | IllegalState(message: string)

  const NoStorageMessage: string := "The data region to create lucene index should be with storage"
  const FileRegionSuffix: string := ".files"
  const ChunkRegionSuffix: string := ".chunks"

  /** The index after initialisation, the cache after it, the calls made, and what was thrown. */
  datatype InitResult = InitResult(index: Index, cache: Cache, calls: seq<Call>, thrown: Option<InitError>)

  /** A new, uninitialised index; its name and region path are the arguments. */
  function NewIndex(name: string, regionPath: string): (idx: Index)
    ensures idx.Name() == name && idx.RegionPath() == regionPath
    ensures !idx.hasInitialized
  {
    Index(name, regionPath, false)
  }

  /** The name of the region holding the index's files. */
  function FileRegionName(idx: Index, naming: Naming): (r: string)
    ensures |r| == |naming(idx.indexName, idx.regionPath)| + |FileRegionSuffix|
    ensures r[..|naming(idx.indexName, idx.regionPath)|] == naming(idx.indexName, idx.regionPath)
    ensures r[|naming(idx.indexName, idx.regionPath)|..] == FileRegionSuffix
  {
    naming(idx.indexName, idx.regionPath) + FileRegionSuffix
  }

  /** The name of the region holding the chunks of the index's files. */
  function ChunkRegionName(idx: Index, naming: Naming): (r: string)
    ensures |r| == |naming(idx.indexName, idx.regionPath)| + |ChunkRegionSuffix|
    ensures r[..|naming(idx.indexName, idx.regionPath)|] == naming(idx.indexName, idx.regionPath)
    ensures r[|naming(idx.indexName, idx.regionPath)|..] == ChunkRegionSuffix
  {
    naming(idx.indexName, idx.regionPath) + ChunkRegionSuffix
  }

  /**
   * The id of the index's async event queue: the unique index name, which is
   * also the stem that the file and chunk region names extend.
   */
  function QueueId(idx: Index, naming: Naming): (r: string)
    ensures FileRegionName(idx, naming) == r + FileRegionSuffix
    ensures ChunkRegionName(idx, naming) == r + ChunkRegionSuffix
  {
    naming(idx.Name(), idx.regionPath)
  }

  /** Whether the cache already holds a region named like the file region. */
  function FileRegionExists(cache: Cache, fileRegionName: string): (r: bool)
    ensures r <==> fileRegionName in cache.regions
  {
    fileRegionName in cache.regions
  }

  /** Whether the cache already holds a region named like the chunk region. */
  function ChunkRegionExists(cache: Cache, chunkRegionName: string): (r: bool)
    ensures r <==> chunkRegionName in cache.regions
  {
    chunkRegionName in cache.regions
  }

  /** The shortcut of the index regions: persistent exactly when the data region persists. */
  function ShortcutFor(withPersistence: bool): (s: RegionShortcut)
    ensures s == PartitionPersistent <==> withPersistence
    ensures s == Partition <==> !withPersistence
  {
    if withPersistence then PartitionPersistent else Partition
  }

  /** Partitioning of an index region: colocated as asked, same buckets and redundancy as the data region. */
  function ConfigurePartition(colocatedWith: string, data: PartitionAttributes): (r: IndexPartitionAttributes)
    ensures r.colocatedWith == colocatedWith
    ensures r.totalNumBuckets == data.totalNumBuckets && r.redundantCopies == data.redundantCopies
  {
    IndexPartitionAttributes(colocatedWith, data.totalNumBuckets, data.redundantCopies)
  }

  /** Creates the file region, colocated with the data region. */
  function CreateFileRegionIn(idx: Index, cache: Cache, shortcut: RegionShortcut, fileRegionName: string,
                              partition: PartitionAttributes): (r: Cache)
    ensures fileRegionName in r.regions
    ensures r.regions[fileRegionName] == IndexRegion(shortcut, ConfigurePartition(idx.regionPath, partition))
    ensures forall n :: n in cache.regions && n != fileRegionName ==> n in r.regions && r.regions[n] == cache.regions[n]
    ensures r.regions.Keys == cache.regions.Keys + {fileRegionName}
    ensures r.queues == cache.queues
  {
    cache.(regions := cache.regions[fileRegionName := IndexRegion(shortcut, ConfigurePartition(idx.regionPath, partition))])
  }

  /** Creates the chunk region, colocated with the file region. */
  function CreateChunkRegionIn(cache: Cache, shortcut: RegionShortcut, fileRegionName: string,
                               partition: PartitionAttributes, chunkRegionName: string): (r: Cache)
    ensures chunkRegionName in r.regions
    ensures r.regions[chunkRegionName] == IndexRegion(shortcut, ConfigurePartition(fileRegionName, partition))
    ensures forall n :: n in cache.regions && n != chunkRegionName ==> n in r.regions && r.regions[n] == cache.regions[n]
    ensures r.regions.Keys == cache.regions.Keys + {chunkRegionName}
    ensures r.queues == cache.queues
  {
    cache.(regions := cache.regions[chunkRegionName := IndexRegion(shortcut, ConfigurePartition(fileRegionName, partition))])
  }

  /** Creates the index's async event queue under the index's queue id. */
  function CreateQueueIn(idx: Index, cache: Cache, naming: Naming, persistent: bool): (r: Cache)
    ensures QueueId(idx, naming) in r.queues
    ensures r.queues[QueueId(idx, naming)].persistent == persistent
    ensures forall q :: q in cache.queues && q != QueueId(idx, naming) ==> q in r.queues && r.queues[q] == cache.queues[q]
    ensures r.regions == cache.regions
  {
    cache.(queues := cache.queues[QueueId(idx, naming) := AsyncEventQueue(persistent)])
  }

  /** The effect on the cache of one call initialisation makes. */
  function Perform(idx: Index, cache: Cache, naming: Naming, call: Call): Cache {
    match call
    case CreateFileRegion(shortcut, fileRegionName, partition) =>
      CreateFileRegionIn(idx, cache, shortcut, fileRegionName, partition)
    case CreateChunkRegion(shortcut, fileRegionName, partition, chunkRegionName) =>
      CreateChunkRegionIn(cache, shortcut, fileRegionName, partition, chunkRegionName)
    case CreateAEQ => CreateQueueIn(idx, cache, naming, false)
    case CreateAEQWithPersistence => CreateQueueIn(idx, cache, naming, true)
  }

  /** The effect on the cache of a sequence of calls, made in order. */
  function PerformAll(idx: Index, cache: Cache, naming: Naming, calls: seq<Call>): Cache
    decreases |calls|
  {
    if |calls| == 0 then cache
    else PerformAll(idx, Perform(idx, cache, naming, calls[0]), naming, calls[1..])
  }

  /** The data region at the index's region path, if the cache holds one. */
  function DataRegionOf(idx: Index, cache: Cache): (r: Option<Region>)
    ensures r.Some? ==> idx.regionPath in cache.regions && r.value == cache.regions[idx.regionPath]
    ensures r.Some? ==> r.value.DataRegion?
    ensures r.None? ==> idx.regionPath !in cache.regions || !cache.regions[idx.regionPath].DataRegion?
  {
    if idx.regionPath in cache.regions && cache.regions[idx.regionPath].DataRegion? then
      Some(cache.regions[idx.regionPath])
    else None
  }

  /**
   * Initialises the index once. An initialised index is left alone. Otherwise
   * the shortcut follows the data region's persistence; a data region without
   * local storage makes it throw before anything is created; the file region
   * and then the chunk region are created when no region of that name exists;
   * the event queue is created persistent exactly when the data region is;
   * and only then is the index marked initialised.
   */
  function Initialize(idx: Index, cache: Cache, naming: Naming): (r: InitResult)
    // once initialised, nothing happens
    ensures idx.hasInitialized ==> r == InitResult(idx, cache, [], None)
    // the index is initialised afterwards exactly when nothing was thrown
    ensures r.index.hasInitialized <==> r.thrown.None?
    ensures r.index.indexName == idx.indexName && r.index.regionPath == idx.regionPath
    // a throw leaves the index, the cache and the calls untouched
    ensures r.thrown.Some? ==> r.index == idx && r.cache == cache && r.calls == []
    ensures !idx.hasInitialized ==>
      (r.thrown == Some(NoDataRegion) <==> DataRegionOf(idx, cache).None?)
    ensures !idx.hasInitialized && DataRegionOf(idx, cache).Some? ==>
      var withStorage := DataRegionOf(idx, cache).value.partition.localMaxMemory > 0;
      (r.thrown == Some(IllegalState(NoStorageMessage)) <==> !withStorage)
    // the cache afterwards is the effect of exactly the calls made
    ensures r.cache == PerformAll(idx, cache, naming, r.calls)
  {
    if idx.hasInitialized then InitResult(idx, cache, [], None)
    else match DataRegionOf(idx, cache)
      case None => InitResult(idx, cache, [], Some(NoDataRegion))
      case Some(dataRegion) =>
        var withPersistence := dataRegion.withPersistence;
        var withStorage := dataRegion.partition.localMaxMemory > 0;
        var shortcut := ShortcutFor(withPersistence);
        if !withStorage then InitResult(idx, cache, [], Some(IllegalState(NoStorageMessage)))
        else
          var fileRegionName := FileRegionName(idx, naming);
          var partition := dataRegion.partition;
          var fileCalls :=
            if !FileRegionExists(cache, fileRegionName) then [CreateFileRegion(shortcut, fileRegionName, partition)]
            else [];
          var cache1 := PerformAll(idx, cache, naming, fileCalls);
          var chunkRegionName := ChunkRegionName(idx, naming);
          var chunkCalls :=
            if !ChunkRegionExists(cache1, chunkRegionName) then
              [CreateChunkRegion(shortcut, fileRegionName, partition, chunkRegionName)]
            else [];
          var cache2 := PerformAll(idx, cache1, naming, chunkCalls);
          var queueCall := if withPersistence then CreateAEQWithPersistence else CreateAEQ;
          var cache3 := Perform(idx, cache2, naming, queueCall);
          PerformAllAppend(idx, cache, naming, fileCalls, chunkCalls);
          PerformAllAppend(idx, cache, naming, fileCalls + chunkCalls, [queueCall]);
          InitResult(idx.(hasInitialized := true), cache3, fileCalls + chunkCalls + [queueCall], None)
  }

  /** Making `a` and then `b` has the effect of making `a + b`. */
  lemma {:induction false} PerformAllAppend(idx: Index, cache: Cache, naming: Naming, a: seq<Call>, b: seq<Call>)
    ensures PerformAll(idx, cache, naming, a + b) == PerformAll(idx, PerformAll(idx, cache, naming, a), naming, b)
    decreases |a|
  {
    if |a| == 0 {
      assert a + b == b;
    } else {
      assert (a + b)[0] == a[0];
      assert (a + b)[1..] == a[1..] + b;
      PerformAllAppend(idx, Perform(idx, cache, naming, a[0]), naming, a[1..], b);
    }
  }
}
