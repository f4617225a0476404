/**
 * Properties of the hosted-transaction registry over short sequences of
 * calls: the situations the transaction manager's unit tests set up, stated
 * for every valid manager state rather than for one fresh manager.
 */
module TxScenarios {
  import opened Wrappers
  import opened TxRegistry

  /**
   * An eligible message on an unregistered id gets a new entry; lookup then
   * returns that entry, and any thread can lock it.
   */
  lemma CreatedEntryIsCurrentAndLockable(m: Manager, id: TxId, t: ThreadId)
    requires Valid(m) && id !in m.hosted
    ensures var r := GetOrSetHostedTXState(m, id, true);
      && r.entry.Some?
      && GetHostedTXState(r.m, id) == r.entry
      && r.entry.value in r.m.locks
      && GetLock(r.m, r.entry.value, id, t).Granted?
  {
  }

  /** A second getOrSet for a registered id returns the identical entry and creates nothing. */
  lemma GetOrSetIsIdempotent(m: Manager, id: TxId, eligible: bool, again: bool)
    ensures var r := GetOrSetHostedTXState(m, id, eligible);
      r.entry.Some? ==> GetOrSetHostedTXState(r.m, id, again) == r
  {
  }

  /**
   * The holder of an entry's lock may lock it again and is granted; after one
   * unlock it still holds the lock once more than before the first grant.
   */
  lemma HolderMayLockAgain(m: Manager, h: Handle, id: TxId, t: ThreadId)
    requires Valid(m) && h in m.locks
    requires GetLock(m, h, id, t).Granted?
    ensures var m1 := GetLock(m, h, id, t).m;
      && h in m1.locks
      && GetLock(m1, h, id, t).Granted?
      && var m2 := GetLock(m1, h, id, t).m;
      && h in m2.locks && m2.locks[h].WellFormed()
      && Unlock(m2, h, t).Success?
      && Unlock(m2, h, t).value.locks[h] == m1.locks[h]
      && m1.locks[h].holder == Some(t)
  {
  }

  /** Locking and then unlocking an entry restores every lock to its previous state. */
  lemma LockThenUnlockRestoresLocks(m: Manager, h: Handle, id: TxId, t: ThreadId)
    requires Valid(m) && h in m.locks
    requires GetLock(m, h, id, t).Granted?
    ensures var m1 := GetLock(m, h, id, t).m;
      && h in m1.locks && m1.locks[h].WellFormed()
      && Unlock(m1, h, t).Success?
      && Unlock(m1, h, t).value.locks == m.locks
  {
  }

  /**
   * A failover cleanup unregisters the entry of a transaction that was not
   * committed: lookup then returns nothing, and getLock on the old entry is
   * granted and puts that same entry back.
   */
  lemma LockReclaimsRemovedEntry(m: Manager, id: TxId, t: ThreadId)
    requires Valid(m) && id in m.hosted && id !in m.committed
    requires m.locks[m.hosted[id]].AvailableTo(t)
    ensures var h := m.hosted[id];
      var m1 := RemoveHostedTXState(m, id);
      && GetHostedTXState(m1, id) == None
      && h in m1.locks
      && GetLock(m1, h, id, t).Granted?
      && GetHostedTXState(GetLock(m1, h, id, t).m, id) == Some(h)
  {
  }

  /**
   * A removal followed by a new getOrSet replaces the entry: the new entry
   * differs from the old one, and getLock on the old entry is denied.
   */
  lemma LockDeniedAfterReplacement(m: Manager, id: TxId, t: ThreadId)
    requires Valid(m) && id in m.hosted
    requires m.locks[m.hosted[id]].AvailableTo(t)
    ensures var h := m.hosted[id];
      var r := GetOrSetHostedTXState(RemoveHostedTXState(m, id), id, true);
      && r.entry.Some?
      && r.entry.value != h
      && GetHostedTXState(r.m, id) == r.entry
      && h in r.m.locks
      && GetLock(r.m, h, id, t) == Denied
  {
  }

  /**
   * A commit that removes the entry and saves the commit message leaves the id
   * unregistered; getLock on the old entry is still granted, and the registry
   * stays empty for the id, so the caller must not work on that entry.
   */
  lemma LockGrantedAfterCommit(m: Manager, id: TxId, t: ThreadId)
    requires Valid(m) && id in m.hosted
    requires m.locks[m.hosted[id]].AvailableTo(t)
    ensures var h := m.hosted[id];
      var m1 := SaveTXCommitMessageForClientFailover(RemoveHostedTXState(m, id), id);
      && GetHostedTXState(m1, id) == None
      && Finalized(m1, id)
      && h in m1.locks
      && GetLock(m1, h, id, t).Granted?
      && GetHostedTXState(GetLock(m1, h, id, t).m, id) == None
      && GetLock(m1, h, id, t).m.locks[h].holder == Some(t)
  {
  }
}
