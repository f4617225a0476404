/**
 * The transaction manager's table of hosted transaction states.
 *
 * A hosted state (a TXStateProxy) is an object with identity: two states
 * created separately are different even if their contents agree. Here a
 * state is named by a handle minted from a counter, so "the same entry"
 * means "the same handle". Each entry carries one reentrant lock.
 *
 * Every call is one atomic transition on an immutable `Manager` value;
 * a scenario run by several threads is a sequence of such transitions.
 */
module TxRegistry {
  import opened Wrappers

  type ThreadId = nat

  /** Identity of one hosted transaction state. */
  type Handle = nat

  /** A transaction id: the coordinating member and a sequence number scoped to it. */
  datatype TxId = TxId(member: nat, uniqId: int)

  /** The reentrant lock of one entry: its holder and how often the holder acquired it. */
  datatype LockState = LockState(holder: Option<ThreadId>, holds: nat) {

    /** A lock is free exactly when nobody holds it. */
    predicate WellFormed() {
      holder.None? <==> holds == 0
    }

    /** Thread `t` can take the lock without waiting: it is free, or `t` already holds it. */
    predicate AvailableTo(t: ThreadId) {
      holder.None? || holder == Some(t)
    }
  }

  const Free: LockState := LockState(None, 0)

  /**
   * The manager's state: the registry of hosted states, the ids whose commit
   * message was saved for client failover, the lock of every entry ever
   * created, and the next handle to mint.
   */
  datatype Manager = Manager(
    hosted: map<TxId, Handle>,
    committed: set<TxId>,
    locks: map<Handle, LockState>,
    nextHandle: Handle)

  /** Representation invariant: every minted handle, and only those, has a well-formed lock. */
  ghost predicate Valid(m: Manager) {
    && (forall h: Handle :: h in m.locks <==> h < m.nextHandle)
    && (forall id :: id in m.hosted ==> m.hosted[id] in m.locks)
    && (forall h :: h in m.locks ==> m.locks[h].WellFormed())
  }

  /** A freshly constructed manager: nothing hosted, nothing committed, no entry minted. */
  function Empty(): (m: Manager)
    ensures Valid(m)
    ensures forall id :: GetHostedTXState(m, id) == None
  {
    Manager(map[], {}, map[], 0)
  }

  /** The locks of every entry other than `h` are the same in `m` and `m'`. */
  ghost predicate OtherLocksUnchanged(m: Manager, m': Manager, h: Handle) {
    forall g :: g in m.locks && g != h ==> g in m'.locks && m'.locks[g] == m.locks[g]
  }

  /** The registry binds every id other than `id` the same way in `m` and `m'`. */
  ghost predicate OtherIdsUnchanged(m: Manager, m': Manager, id: TxId) {
    forall other :: other != id ==> GetHostedTXState(m', other) == GetHostedTXState(m, other)
  }

  /** Pure lookup of the entry registered for `id`; never creates one. */
  function GetHostedTXState(m: Manager, id: TxId): (r: Option<Handle>)
    ensures r.Some? <==> id in m.hosted
    ensures r.Some? ==> m.hosted[id] == r.value
  {
    if id in m.hosted then Some(m.hosted[id]) else None
  }

  datatype GetOrSetResult = GetOrSetResult(m: Manager, entry: Option<Handle>)

  /**
   * Returns the entry registered for `id`, creating and registering a new one
   * when there is none and the message is eligible to start a transaction.
   */
  function GetOrSetHostedTXState(m: Manager, id: TxId, eligible: bool): (r: GetOrSetResult)
    // an existing entry is returned unchanged and nothing is created
    ensures id in m.hosted ==> r == GetOrSetResult(m, Some(m.hosted[id]))
    // an ineligible message on an absent id gets nothing and changes nothing
    ensures id !in m.hosted && !eligible ==> r == GetOrSetResult(m, None)
    // an eligible message always gets an entry, and lookup then returns it
    ensures eligible ==> r.entry.Some?
    ensures r.entry.Some? ==> GetHostedTXState(r.m, id) == r.entry
    // a created entry is distinct from every entry that existed before, and unlocked
    ensures Valid(m) && id !in m.hosted && eligible ==>
      r.entry.value !in m.locks && r.entry.value in r.m.locks && r.m.locks[r.entry.value] == Free
    ensures OtherIdsUnchanged(m, r.m, id)
    ensures Valid(m) ==> forall g :: g in m.locks ==> g in r.m.locks && r.m.locks[g] == m.locks[g]
    ensures r.m.committed == m.committed
    ensures Valid(m) ==> Valid(r.m)
  {
    if id in m.hosted then GetOrSetResult(m, Some(m.hosted[id]))
    else if !eligible then GetOrSetResult(m, None)
    else
      var h := m.nextHandle;
      GetOrSetResult(
        Manager(m.hosted[id := h], m.committed, m.locks[h := Free], m.nextHandle + 1),
        Some(h))
  }

  /** Unregisters the entry of `id`, if any; the entry's lock is left as it is. */
  function RemoveHostedTXState(m: Manager, id: TxId): (r: Manager)
    ensures GetHostedTXState(r, id) == None
    ensures OtherIdsUnchanged(m, r, id)
    ensures r.locks == m.locks && r.committed == m.committed && r.nextHandle == m.nextHandle
    ensures Valid(m) ==> Valid(r)
  {
    m.(hosted := m.hosted - {id})
  }

  /** Records that the commit message of `id` is kept for client failover. */
  function SaveTXCommitMessageForClientFailover(m: Manager, id: TxId): (r: Manager)
    ensures id in r.committed
    ensures forall other :: other != id ==> (other in r.committed <==> other in m.committed)
    ensures r.hosted == m.hosted && r.locks == m.locks && r.nextHandle == m.nextHandle
    ensures Valid(m) ==> Valid(r)
  {
    m.(committed := m.committed + {id})
  }

  /**
   * Outcome of getLock as one atomic step. `Waits`: another thread holds the
   * entry's lock, so the caller blocks and nothing happens yet. `Granted`:
   * getLock returns true with the lock acquired. `Denied`: getLock returns
   * false and the state is as before.
   */
  datatype LockOutcome = Waits | Granted(m: Manager) | Denied

  /** True when `id` is unregistered but its commit message was saved. */
  predicate Finalized(m: Manager, id: TxId) {
    id !in m.hosted && id in m.committed
  }

  /**
   * Validate-and-lock: thread `t` asks to lock entry `h`, which it obtained
   * earlier for `id`. The lock is taken and then the registry is consulted:
   * the current entry is granted; an unregistered id whose commit was not
   * saved gets `h` back and is granted; an unregistered id whose commit was
   * saved is granted without touching the registry; a different registered
   * entry means `h` is stale, so the lock is released and the call is denied.
   */
  function GetLock(m: Manager, h: Handle, id: TxId, t: ThreadId): (r: LockOutcome)
    requires h in m.locks
    ensures r.Waits? <==> !m.locks[h].AvailableTo(t)
    ensures r.Granted? <==> m.locks[h].AvailableTo(t) && (id !in m.hosted || m.hosted[id] == h)
    ensures r.Denied? <==> m.locks[h].AvailableTo(t) && id in m.hosted && m.hosted[id] != h
    ensures r.Granted? ==>
      && h in r.m.locks
      && r.m.locks[h] == LockState(Some(t), m.locks[h].holds + 1)
      && OtherLocksUnchanged(m, r.m, h)
      && r.m.nextHandle == m.nextHandle
      && r.m.committed == m.committed
      && OtherIdsUnchanged(m, r.m, id)
    // the entry is (again) registered unless the transaction was already finalized
    ensures r.Granted? ==>
      GetHostedTXState(r.m, id) == (if Finalized(m, id) then None else Some(h))
    ensures r.Granted? && Valid(m) ==> Valid(r.m)
  {
    var lock := m.locks[h];
    if !lock.AvailableTo(t) then Waits
    else
      var locked := m.locks[h := LockState(Some(t), lock.holds + 1)];
      if id in m.hosted && m.hosted[id] == h then Granted(m.(locks := locked))
      else if id !in m.hosted && id !in m.committed then
        Granted(m.(locks := locked, hosted := m.hosted[id := h]))
      else if id !in m.hosted then Granted(m.(locks := locked))
      else Denied
  }

  /** The error ReentrantLock.unlock raises when the caller does not hold the lock. */
  datatype LockError = IllegalMonitorState

  /** Thread `t` releases one hold of entry `h`'s lock. */
  function Unlock(m: Manager, h: Handle, t: ThreadId): (r: Result<Manager, LockError>)
    requires h in m.locks && m.locks[h].WellFormed()
    ensures r.Failure? <==> m.locks[h].holder != Some(t)
    ensures r.Success? ==>
      && h in r.value.locks
      && r.value.locks[h].holds + 1 == m.locks[h].holds
      && (r.value.locks[h].holder == Some(t) <==> m.locks[h].holds > 1)
      && OtherLocksUnchanged(m, r.value, h)
      && r.value.hosted == m.hosted
      && r.value.committed == m.committed
      && r.value.nextHandle == m.nextHandle
    ensures r.Success? && Valid(m) ==> Valid(r.value)
  {
    var lock := m.locks[h];
    if lock.holder != Some(t) then Failure(IllegalMonitorState)
    else if lock.holds <= 1 then Success(m.(locks := m.locks[h := Free]))
    else Success(m.(locks := m.locks[h := LockState(Some(t), lock.holds - 1)]))
  }
}
