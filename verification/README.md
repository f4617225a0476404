# Hosted transaction states and Lucene index initialisation

A Dafny model of two small pieces of an in-memory data grid.

1. **The transaction manager's table of hosted transaction states.** Each transaction id
   (a member and a sequence number) maps to at most one hosted state (a `TXStateProxy`).
   Each state has one reentrant lock. Message-handling threads find or create the state of
   their transaction with `getOrSetHostedTXState`. They lock it with `getLock`, which
   re-checks that the state is still the registered one. Failover cleanup removes states.
   Commits remove them and save the commit message for client failover. `masqueradeAs`
   repeats getOrSet and getLock until getLock is granted.

   States are named by handles minted from a counter, so "the same state" means "the same
   handle". Every call is one atomic transition on an immutable `Manager` value.
   `masqueradeAs` is a phase machine (`Start`, `Candidate`, `Holding`, `Rejected`). It is
   interleaved with other threads' steps through `Interleave`.

2. **`LuceneIndexForPartitionedRegion.initialize`.** Initialisation is a one-shot decision
   over an abstract cache. It decides whether to throw, which region shortcut to use,
   whether to create the file and chunk regions and how to colocate and partition them,
   and whether the async event queue persists. `Initialize` returns the new index, the new
   cache, the calls it made on the index's own creation methods, and what it threw. The
   unit tests check those calls with spies.

Modules:
- `Wrappers`: `Option` and `Result`.
- `TxRegistry`: the data model and the registry operations.
- `TxScenarios`: properties over short call sequences.
- `Masquerade`: masqueradeAs, interleavings and the replacement race.
- `LuceneIndex`: the index, the cache and `Initialize`.
- `LuceneProperties`: properties of `Initialize`.

### Modelling choices

TXManagerImpl itself is not part of this model, so the registry's behaviour is taken from
what its unit test does and asserts. Where the test leaves a behaviour open, the model makes
a choice, listed here.

- **Reentrant lock.** The test locks the same state twice from one thread and then unlocks
  it once (TXManagerImplTest.java:68-71). So the lock here is reentrant, with a hold count.
- **Decision taken after the lock is acquired.** This is a choice of the model. getLock's
  decision is taken at the moment the lock becomes available to the caller. While another
  thread holds the lock, getLock `Waits` and nothing changes. The test does not tell this
  order apart from checking the registry first and locking afterwards. In the replacement
  race (TXManagerImplTest.java:183-228), checking first would grant the stale state 0 after
  the wait. The test only asserts that masqueradeAs returns a state (`assertNotNull` at
  TXManagerImplTest.java:218), and both orders satisfy that. Under the model's order, the
  waiting thread is denied state 0 and retries. So the rows for
  `Masquerade.RaceMasqueradeRetries` and `Masquerade.MasqueradeSurvivesReplacement` (the
  replacement state is returned) follow from this choice, not from the test.
- **Finalisation takes two steps.** The test removes the state and then saves the commit
  message, as two calls (TXManagerImplTest.java:151-152). The model has two separate
  transitions, not one atomic finalisation.
- **Committed branch of getLock.** When the id is absent and committed, getLock is granted
  and the registry is left unchanged. The test does not assert the registry effect. This is a
  choice of the model.
- **Ineligible messages.** Whether a message may start a remote transaction is the boolean
  `canStartRemoteTransaction()`, which the test stubs to true
  (TXManagerImplTest.java:50-51). The model treats it as a parameter. An ineligible message
  on an unregistered id gets no entry, and nothing is created. The test never exercises the
  false case, so this is a choice of the model.

## Model

| member | source | states |
|---|---|---|
| TxRegistry.Empty | geode-core/src/test/java/com/gemstone/gemfire/internal/cache/TXManagerImplTest.java:42-46 | A new manager satisfies the representation invariant, and lookup finds nothing for any id |
| TxRegistry.GetHostedTXState | geode-core/src/test/java/com/gemstone/gemfire/internal/cache/TXManagerImplTest.java:89-90 | Lookup returns an entry exactly when the id is registered, and then the registered one |
| TxRegistry.GetOrSetHostedTXState | geode-core/src/test/java/com/gemstone/gemfire/internal/cache/TXManagerImplTest.java:55-59 | A registered id gets its entry back with nothing created; an eligible message always gets an entry that lookup then returns; a created entry differs from every earlier entry and is unlocked; other ids, the commit set and existing locks are untouched; validity is preserved |
| TxRegistry.RemoveHostedTXState | geode-core/src/test/java/com/gemstone/gemfire/internal/cache/TXManagerImplTest.java:76-90 | After removal lookup returns nothing for the id; other ids, every lock and the commit set are unchanged |
| TxRegistry.SaveTXCommitMessageForClientFailover | geode-core/src/test/java/com/gemstone/gemfire/internal/cache/TXManagerImplTest.java:149-152 | The id joins the commit set; no other id's membership, no registration and no lock changes |
| TxRegistry.GetLock | geode-core/src/test/java/com/gemstone/gemfire/internal/cache/TXManagerImplTest.java:89-168 | getLock's decision table as if-and-only-ifs: it waits exactly when another thread holds the lock; it is granted exactly when the entry is current or the id is unregistered; it is denied exactly when a different entry is registered. A grant adds one hold for the caller and changes no other lock. The entry is registered afterwards unless the id was finalized |
| TxRegistry.Unlock | geode-core/src/test/java/com/gemstone/gemfire/internal/cache/TXManagerImplTest.java:71 | Unlocking fails exactly when the caller does not hold the lock; otherwise one hold is released, the caller still holds the lock exactly when it held it more than once, and nothing else changes |
| TxScenarios.CreatedEntryIsCurrentAndLockable | geode-core/src/test/java/com/gemstone/gemfire/internal/cache/TXManagerImplTest.java:55-61 | For an unregistered id, an eligible getOrSet returns an entry, lookup returns that entry, and getLock on it is granted |
| TxScenarios.GetOrSetIsIdempotent | geode-core/src/test/java/com/gemstone/gemfire/internal/cache/TXManagerImplTest.java:73-74 | A second getOrSet returns the identical entry and leaves the state as the first left it |
| TxScenarios.HolderMayLockAgain | geode-core/src/test/java/com/gemstone/gemfire/internal/cache/TXManagerImplTest.java:67-71 | The holder of a granted lock is granted again, and one unlock returns the lock to the state after the first grant, still held by the caller |
| TxScenarios.LockThenUnlockRestoresLocks | geode-core/src/test/java/com/gemstone/gemfire/internal/cache/TXManagerImplTest.java:105-107 | A granted getLock followed by one unlock restores every lock to its state before the getLock |
| TxScenarios.LockReclaimsRemovedEntry | geode-core/src/test/java/com/gemstone/gemfire/internal/cache/TXManagerImplTest.java:89-95 | After removing an uncommitted id, lookup returns nothing; getLock on the old entry is granted and puts that entry back, so lookup returns it |
| TxScenarios.LockDeniedAfterReplacement | geode-core/src/test/java/com/gemstone/gemfire/internal/cache/TXManagerImplTest.java:112-133 | Remove followed by getOrSet registers an entry different from the old one, and getLock on the old entry is denied |
| TxScenarios.LockGrantedAfterCommit | geode-core/src/test/java/com/gemstone/gemfire/internal/cache/TXManagerImplTest.java:149-168 | After remove and saving the commit message, lookup returns nothing, yet getLock on the old entry is granted to the caller and the id stays unregistered |
| Masquerade.MasqueradeStep | geode-core/src/test/java/com/gemstone/gemfire/internal/cache/TXManagerImplTest.java:216-219 | From the start, an eligible message gets a candidate that is the current entry. A candidate is held exactly when getLock grants, retried from getOrSet exactly when getLock denies, and kept exactly when getLock waits. A newly held entry is locked by the thread and is current or finalized. After returning, the thread makes no calls |
| Masquerade.Apply | geode-core/src/test/java/com/gemstone/gemfire/internal/cache/TXManagerImplTest.java:112-118 | A step of another thread preserves the representation invariant and never drops an entry's lock |
| Masquerade.ForeignStepKeepsHeldLock | geode-core/src/test/java/com/gemstone/gemfire/internal/cache/TXManagerImplTest.java:186-207 | No step of another thread changes a lock that the masquerading thread holds |
| Masquerade.InterleavingKeepsPhaseOk | geode-core/src/test/java/com/gemstone/gemfire/internal/cache/TXManagerImplTest.java:216-219 | Under any interleaving with other threads, the masquerading thread's phase stays consistent. Once masqueradeAs has returned an entry, it stays returned and locked by that thread |
| Masquerade.RetryAfterDenialIsGranted | geode-core/src/test/java/com/gemstone/gemfire/internal/cache/TXManagerImplTest.java:199-219 | A stale candidate is denied; the retry gets the current entry and returns holding its lock |
| Masquerade.MasqueradeLocksNewEntry | geode-core/src/test/java/com/gemstone/gemfire/internal/cache/TXManagerImplTest.java:172-180 | For an unregistered id, masqueradeAs returns after two calls. It returns a new entry, locked once by the caller and returned by lookup |
| Masquerade.RaceFirstEntryLocked | geode-core/src/test/java/com/gemstone/gemfire/internal/cache/TXManagerImplTest.java:190-194 | The other thread creates entry 0 for the id and holds its lock |
| Masquerade.RaceMasqueradeWaits | geode-core/src/test/java/com/gemstone/gemfire/internal/cache/TXManagerImplTest.java:211-217 | The masquerading thread picks entry 0 and waits for its lock |
| Masquerade.RaceEntryReplaced | geode-core/src/test/java/com/gemstone/gemfire/internal/cache/TXManagerImplTest.java:199-206 | The other thread removes entry 0, registers and locks entry 1, and releases both locks |
| Masquerade.RaceMasqueradeRetries | geode-core/src/test/java/com/gemstone/gemfire/internal/cache/TXManagerImplTest.java:217-219 | With getLock deciding after the lock is acquired (a modelling choice), the masquerading thread is denied entry 0, retries, and holds the lock of entry 1 |
| Masquerade.MasqueradeSurvivesReplacement | geode-core/src/test/java/com/gemstone/gemfire/internal/cache/TXManagerImplTest.java:183-228 | In the whole replacement race, masqueradeAs returns a state, as the test asserts; with getLock deciding after the lock is acquired (a modelling choice), that state is the replacement entry, locked once by the caller and registered for the id |
| LuceneIndex.NewIndex | geode-lucene/src/test/java/com/gemstone/gemfire/cache/lucene/internal/LuceneIndexForPartitionedRegionTest.java:50-66 | getName and getRegionPath return the constructor arguments, and a new index is not initialised |
| LuceneIndex.FileRegionName | geode-lucene/src/main/java/com/gemstone/gemfire/cache/lucene/internal/LuceneIndexForPartitionedRegion.java:151-153 | The file region name is the unique index name followed by ".files" |
| LuceneIndex.QueueId | geode-lucene/src/main/java/com/gemstone/gemfire/cache/lucene/internal/LuceneIndexForPartitionedRegion.java:128 | The queue id is the unique name of (index name, region path), the stem that the file region name extends with ".files" and the chunk region name with ".chunks" |
| LuceneIndex.ChunkRegionName | geode-lucene/src/main/java/com/gemstone/gemfire/cache/lucene/internal/LuceneIndexForPartitionedRegion.java:171-173 | The chunk region name is the unique index name followed by ".chunks" |
| LuceneIndex.FileRegionExists | geode-lucene/src/test/java/com/gemstone/gemfire/cache/lucene/internal/LuceneIndexForPartitionedRegionTest.java:68-91 | True exactly when the cache holds a region of the given name |
| LuceneIndex.ChunkRegionExists | geode-lucene/src/test/java/com/gemstone/gemfire/cache/lucene/internal/LuceneIndexForPartitionedRegionTest.java:93-116 | True exactly when the cache holds a region of the given name |
| LuceneIndex.ShortcutFor | geode-lucene/src/main/java/com/gemstone/gemfire/cache/lucene/internal/LuceneIndexForPartitionedRegion.java:57-65 | The shortcut is PARTITION_PERSISTENT exactly when the data policy persists, and PARTITION otherwise |
| LuceneIndex.ConfigurePartition | geode-lucene/src/main/java/com/gemstone/gemfire/cache/lucene/internal/LuceneIndexForPartitionedRegion.java:175-179 | An index region copies the data region's total bucket count and redundant copies, colocated as asked |
| LuceneIndex.CreateFileRegionIn | geode-lucene/src/main/java/com/gemstone/gemfire/cache/lucene/internal/LuceneIndexForPartitionedRegion.java:139-149 | Creates a region of that name with the given shortcut, colocated with the data region; every other region and every queue is unchanged |
| LuceneIndex.CreateChunkRegionIn | geode-lucene/src/main/java/com/gemstone/gemfire/cache/lucene/internal/LuceneIndexForPartitionedRegion.java:159-169 | Creates a region of that name with the given shortcut, colocated with the file region; every other region and every queue is unchanged |
| LuceneIndex.CreateQueueIn | geode-lucene/src/main/java/com/gemstone/gemfire/cache/lucene/internal/LuceneIndexForPartitionedRegion.java:116-132 | Creates a queue whose id is the unique name of (index name, region path), with the requested persistence; other queues and all regions are unchanged |
| LuceneIndex.DataRegionOf | geode-lucene/src/main/java/com/gemstone/gemfire/cache/lucene/internal/LuceneIndexForPartitionedRegion.java:53-55 | Finds the partitioned data region at the index's region path, when there is one |
| LuceneIndex.Initialize | geode-lucene/src/main/java/com/gemstone/gemfire/cache/lucene/internal/LuceneIndexForPartitionedRegion.java:50-105 | An initialised index is left alone. Afterwards the index is initialised exactly when nothing was thrown. A throw of the modelled kinds (missing data region, no storage) comes before any creation and changes nothing. It throws the storage IllegalStateException exactly when local max memory is not positive. The resulting cache is the effect of exactly the calls it made |
| LuceneProperties.DerivedNamesAreDistinct | geode-lucene/src/main/java/com/gemstone/gemfire/cache/lucene/internal/LuceneIndexForPartitionedRegion.java:151-173 | The file region, the chunk region and the event queue never share a name, for any unique-naming function |
| LuceneProperties.NoStorageThrowsBeforeCreating | geode-lucene/src/test/java/com/gemstone/gemfire/cache/lucene/internal/LuceneIndexForPartitionedRegionTest.java:201-212 | Zero or negative local max memory throws IllegalState("The data region to create lucene index should be with storage"). No call is made, the cache is unchanged and the index stays uninitialised |
| LuceneProperties.InitializeCalls | geode-lucene/src/main/java/com/gemstone/gemfire/cache/lucene/internal/LuceneIndexForPartitionedRegion.java:77-100 | A successful run makes these calls in order: createFileRegion when no file region exists, then createChunkRegion when no chunk region exists, both with the persistence-matching shortcut, then createAEQWithPersistence or createAEQ |
| LuceneProperties.ShortcutFollowsPersistence | geode-lucene/src/test/java/com/gemstone/gemfire/cache/lucene/internal/LuceneIndexForPartitionedRegionTest.java:252-326 | Every region creation uses PARTITION_PERSISTENT exactly when the data region persists |
| LuceneProperties.QueuePersistenceFollowsData | geode-lucene/src/test/java/com/gemstone/gemfire/cache/lucene/internal/LuceneIndexForPartitionedRegionTest.java:214-250 | createAEQWithPersistence is called exactly when the data region persists, and createAEQ exactly when it does not. The cache then holds the index's queue with that persistence |
| LuceneProperties.InitializeRegions | geode-lucene/src/main/java/com/gemstone/gemfire/cache/lucene/internal/LuceneIndexForPartitionedRegion.java:77-88 | Afterwards the cache holds exactly its old regions plus the file and chunk regions, so both exist. Old regions are untouched. A missing file region is created colocated with the data region, and a missing chunk region colocated with the file region; both copy buckets and redundancy |
| LuceneProperties.InitializeTwiceCreatesFileRegionOnce | geode-lucene/src/test/java/com/gemstone/gemfire/cache/lucene/internal/LuceneIndexForPartitionedRegionTest.java:328-346 | A second initialize makes no call and changes nothing, so across both the file region is created once (never, if it already existed) |

## Left out

- TXManagerImpl is not part of this model. The registry's behaviour comes from the
  scenarios its unit test sets up, plus the choices listed under "Modelling choices".
- Thread scheduling, `Thread.sleep` timing, and lock fairness and internals. Each call is one
  atomic step, and a race is an explicit interleaving.
- Interruption of a lock wait (`InterruptedException` from masqueradeAs) is not modelled.
- The commit message's contents, and the retention or eviction of saved commit messages.
  Only the set of committed ids is kept.
- The originating-member part of a transaction id is a plain number. The test's null member
  is not distinguished.
- A null hosted state passed to getLock or unlock cannot be expressed. The handle must be
  one the manager minted.
- Lucene collaborators: the repository manager, the serializer, the analyzer, the event
  listener, `addExtension`, searchable fields, and the unused `getAsyncEventQueue` lookup.
- Queue factory tuning (parallel, maximum memory 1000, one dispatcher thread, meta queue)
  is left out; only the queue's persistence is kept.
- The empty `close()`.
- `LuceneServiceImpl.getUniqueIndexName` is not part of this model. It is a parameter of
  every operation that uses it, so every property holds for any naming function.
- Initialize: a missing data region makes the source fail with a NullPointerException. The
  model reports it as `NoDataRegion`. A region at the data path that an index created
  itself (not a data region) is treated the same way.
- LuceneIndex.Initialize: region and queue creation are assumed to succeed. In the source,
  `createFileRegion`, `createChunkRegion` and `createAEQ` may throw (for example, when a region
  or a queue of that name cannot be created). When that happens after an earlier creation has
  taken effect, the cache keeps that earlier creation and the index stays uninitialised. The
  model's "a throw changes nothing" covers only the throws it models: the missing data region
  and the storage check, which both happen before any creation.
- Initialize: creating a queue whose id already exists simply replaces it. What the queue
  factory does in that case is not part of this model.
- CloseConnectionOp, PoolStatHelper, the locator tests and the multi-VM Lucene query tests
  are networking, an interface, and integration tests. They are not part of this model.
