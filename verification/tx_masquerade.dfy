/**
 * masqueradeAs as a per-thread phase machine interleaved with the atomic
 * steps of other threads.
 *
 * The masquerading thread repeats "getOrSet, then getLock" until getLock is
 * granted, and returns holding the lock of the entry it got. Each of its
 * calls is one step; between any two of them other threads may register,
 * remove, replace, commit, lock and unlock entries.
 */
module Masquerade {
  import opened Wrappers
  import opened TxRegistry

  /**
   * Where the masquerading thread is: about to call getOrSet; holding a
   * candidate entry it is about to lock; returned holding the lock of an
   * entry; or returned nothing because the message may not start a
   * transaction.
   */
  datatype Phase = Start | Candidate(h: Handle) | Holding(h: Handle) | Rejected

  datatype Progress = Progress(m: Manager, phase: Phase)

  /** What the phase of thread `t` says about `m`: its entries exist, and a returned entry is locked by `t`. */
  ghost predicate PhaseOk(m: Manager, t: ThreadId, p: Phase) {
    && (p.Candidate? ==> p.h in m.locks)
    && (p.Holding? ==> p.h in m.locks && m.locks[p.h].holder == Some(t))
  }

  /** One call made by the masquerading thread `t` for transaction `id`. */
  function MasqueradeStep(m: Manager, id: TxId, eligible: bool, t: ThreadId, p: Phase): (r: Progress)
    requires p.Candidate? ==> p.h in m.locks
    // getOrSet: an eligible message always gets a candidate, and that is the current entry
    ensures p.Start? && eligible ==>
      r.phase.Candidate? && GetHostedTXState(r.m, id) == Some(r.phase.h)
    ensures p.Start? && !eligible ==> (r.phase.Rejected? <==> id !in m.hosted)
    // getLock: a grant returns with the lock held; a denial retries from getOrSet
    ensures p.Candidate? ==>
      && (r.phase.Holding? <==> GetLock(m, p.h, id, t).Granted?)
      && (r.phase.Start? <==> GetLock(m, p.h, id, t).Denied?)
      && (r.phase == p <==> GetLock(m, p.h, id, t).Waits?)
    ensures r.phase.Holding? && !p.Holding? ==>
      && r.phase.h in r.m.locks
      && r.m.locks[r.phase.h].holder == Some(t)
      && (GetHostedTXState(r.m, id) == Some(r.phase.h) || Finalized(r.m, id))
    // once masqueradeAs has returned, the thread makes no further calls
    ensures p.Holding? || p.Rejected? ==> r == Progress(m, p)
    ensures Valid(m) && PhaseOk(m, t, p) ==> Valid(r.m) && PhaseOk(r.m, t, r.phase)
  {
    match p
    case Start =>
      var g := GetOrSetHostedTXState(m, id, eligible);
      if g.entry.None? then Progress(g.m, Rejected) else Progress(g.m, Candidate(g.entry.value))
    case Candidate(h) => (
      match GetLock(m, h, id, t)
      case Waits => Progress(m, p)
      case Granted(m1) => Progress(m1, Holding(h))
      case Denied => Progress(m, Start))
    case Holding(_) => Progress(m, p)
    case Rejected => Progress(m, p)
  }

  /** A call made by some other thread. */
  datatype Action =
    | GetOrSet(id: TxId, eligible: bool)
    | Remove(id: TxId)
    | SaveCommit(id: TxId)
    | Lock(h: Handle, id: TxId)
    | Release(h: Handle)

  datatype Step = Step(t: ThreadId, action: Action)

  /**
   * The state after one step of another thread, or None when the step cannot
   * be taken now: a getLock that has to wait, an unlock by a thread that does
   * not hold the lock, or a handle that was never minted.
   */
  function Apply(m: Manager, s: Step): (r: Option<Manager>)
    ensures Valid(m) && r.Some? ==> Valid(r.value)
    ensures r.Some? ==> forall g :: g in m.locks ==> g in r.value.locks
  {
    match s.action
    case GetOrSet(id, eligible) => Some(GetOrSetHostedTXState(m, id, eligible).m)
    case Remove(id) => Some(RemoveHostedTXState(m, id))
    case SaveCommit(id) => Some(SaveTXCommitMessageForClientFailover(m, id))
    case Lock(h, id) =>
      if h !in m.locks then None
      else (
        match GetLock(m, h, id, s.t)
        case Waits => None
        case Granted(m1) => Some(m1)
        case Denied => Some(m))
    case Release(h) =>
      if h !in m.locks || !m.locks[h].WellFormed() then None
      else (
        match Unlock(m, h, s.t)
        case Failure(_) => None
        case Success(m1) => Some(m1))
  }

  /**
   * A step of another thread never changes a lock that `t` holds: it cannot
   * be granted that lock, and it cannot unlock it.
   */
  lemma ForeignStepKeepsHeldLock(m: Manager, s: Step, h: Handle, t: ThreadId)
    requires Valid(m) && h in m.locks && m.locks[h].holder == Some(t)
    requires s.t != t
    ensures Apply(m, s).Some? ==> h in Apply(m, s).value.locks && Apply(m, s).value.locks[h] == m.locks[h]
  {
  }

  /** An event of an interleaving: a call of the masquerading thread, or a step of another thread. */
  datatype Event = Masq | Other(s: Step)

  /** Runs an interleaving; None as soon as an event cannot be taken. */
  function Interleave(m: Manager, id: TxId, eligible: bool, t: ThreadId, p: Phase, events: seq<Event>): Option<Progress>
    decreases |events|
  {
    if |events| == 0 then Some(Progress(m, p))
    else match events[0]
      case Masq =>
        if p.Candidate? && p.h !in m.locks then None
        else
          var r := MasqueradeStep(m, id, eligible, t, p);
          Interleave(r.m, id, eligible, t, r.phase, events[1..])
      case Other(s) =>
        match Apply(m, s)
        case None => None
        case Some(m1) => Interleave(m1, id, eligible, t, p, events[1..])
  }

  /** No event of `events` is a step of thread `t`. */
  ghost predicate OthersOnly(events: seq<Event>, t: ThreadId) {
    forall i :: 0 <= i < |events| && events[i].Other? ==> events[i].s.t != t
  }

  /**
   * Whatever the other threads do, the masquerading thread keeps the
   * invariant of its phase: once masqueradeAs returns an entry, that entry
   * stays locked by the thread until it unlocks it itself.
   */
  lemma {:induction false} InterleavingKeepsPhaseOk(
      m: Manager, id: TxId, eligible: bool, t: ThreadId, p: Phase, events: seq<Event>)
    requires Valid(m) && PhaseOk(m, t, p)
    requires OthersOnly(events, t)
    ensures var r := Interleave(m, id, eligible, t, p, events);
      r.Some? ==> Valid(r.value.m) && PhaseOk(r.value.m, t, r.value.phase)
    ensures var r := Interleave(m, id, eligible, t, p, events);
      r.Some? && p.Holding? ==> r.value.phase == p
    decreases |events|
  {
    if |events| > 0 {
      assert OthersOnly(events[1..], t) by {
        forall i | 0 <= i < |events[1..]| && events[1..][i].Other?
          ensures events[1..][i].s.t != t
        {
          assert events[1..][i] == events[i + 1];
        }
      }
      match events[0]
      case Masq =>
        if !(p.Candidate? && p.h !in m.locks) {
          var r := MasqueradeStep(m, id, eligible, t, p);
          InterleavingKeepsPhaseOk(r.m, id, eligible, t, r.phase, events[1..]);
        }
      case Other(s) =>
        assert s.t != t by { assert events[0].Other?; }
        var a := Apply(m, s);
        if a.Some? {
          if p.Holding? {
            ForeignStepKeepsHeldLock(m, s, p.h, t);
          }
          InterleavingKeepsPhaseOk(a.value, id, eligible, t, p, events[1..]);
        }
    }
  }

  /**
   * Without interference, a masquerade whose candidate turned out stale
   * recovers: the denied getLock sends it back to getOrSet, which yields the
   * current entry, and locking that entry is granted when it is available.
   */
  lemma RetryAfterDenialIsGranted(m: Manager, id: TxId, t: ThreadId, h: Handle)
    requires Valid(m) && h in m.locks
    requires id in m.hosted && m.hosted[id] != h
    requires m.locks[h].AvailableTo(t) && m.locks[m.hosted[id]].AvailableTo(t)
    ensures Interleave(m, id, true, t, Candidate(h), [Masq, Masq, Masq])
      == Some(Progress(GetLock(m, m.hosted[id], id, t).m, Holding(m.hosted[id])))
  {
  }

  /**
   * With an eligible message and no registered entry, masqueradeAs returns
   * after one getOrSet and one getLock with a new entry that it has locked
   * and that lookup returns.
   */
  lemma MasqueradeLocksNewEntry(m: Manager, id: TxId, t: ThreadId)
    requires Valid(m) && id !in m.hosted
    ensures var r := Interleave(m, id, true, t, Start, [Masq, Masq]);
      && r.Some?
      && r.value.phase.Holding?
      && r.value.phase.h !in m.locks
      && r.value.phase.h in r.value.m.locks
      && r.value.m.locks[r.value.phase.h] == LockState(Some(t), 1)
      && GetHostedTXState(r.value.m, id) == Some(r.value.phase.h)
  {
  }

  /** Running `a` then `b` is running `a + b`. */
  lemma {:induction false} InterleaveAppend(
      m: Manager, id: TxId, eligible: bool, t: ThreadId, p: Phase, a: seq<Event>, b: seq<Event>)
    ensures Interleave(m, id, eligible, t, p, a + b) ==
      match Interleave(m, id, eligible, t, p, a)
      case None => None
      case Some(r) => Interleave(r.m, id, eligible, t, r.phase, b)
    decreases |a|
  {
    if |a| > 0 {
      assert (a + b)[0] == a[0];
      assert (a + b)[1..] == a[1..] + b;
      match a[0]
      case Masq =>
        if !(p.Candidate? && p.h !in m.locks) {
          var r := MasqueradeStep(m, id, eligible, t, p);
          InterleaveAppend(r.m, id, eligible, t, r.phase, a[1..], b);
        }
      case Other(s) =>
        var x := Apply(m, s);
        if x.Some? {
          InterleaveAppend(x.value, id, eligible, t, p, a[1..], b);
        }
    } else {
      assert a + b == b;
    }
  }

  // The states of the replacement race below, for transaction TxId(0, 0).
  const RaceId: TxId := TxId(0, 0)
  // thread 1 has created entry 0 and locked it
  const RaceLocked: Manager := Manager(map[RaceId := 0], {}, map[0 := LockState(Some(1), 1)], 1)
  // thread 1 has replaced entry 0 by entry 1 and released both locks
  const RaceReplaced: Manager := Manager(map[RaceId := 1], {}, map[0 := Free, 1 := Free], 2)

  /** Thread 1 registers a new entry and locks it. */
  lemma RaceFirstEntryLocked()
    ensures Interleave(Empty(), RaceId, true, 0, Start,
      [Other(Step(1, GetOrSet(RaceId, true))), Other(Step(1, Lock(0, RaceId)))])
      == Some(Progress(RaceLocked, Start))
  {
    var m1 := Manager(map[RaceId := 0], {}, map[0 := Free], 1);
    assert GetOrSetHostedTXState(Empty(), RaceId, true).m == m1;
    assert m1.locks[0 := LockState(Some(1), 1)] == RaceLocked.locks;
    assert GetLock(m1, 0, RaceId, 1) == Granted(RaceLocked);
    InterleaveAppend(Empty(), RaceId, true, 0, Start,
      [Other(Step(1, GetOrSet(RaceId, true)))], [Other(Step(1, Lock(0, RaceId)))]);
  }

  /** The masquerading thread picks entry 0 and has to wait for its lock. */
  lemma RaceMasqueradeWaits()
    ensures Interleave(RaceLocked, RaceId, true, 0, Start, [Masq, Masq])
      == Some(Progress(RaceLocked, Candidate(0)))
  {
  }

  /** Thread 1 removes entry 0, registers and locks entry 1, then unlocks both. */
  lemma RaceEntryReplaced()
    ensures Interleave(RaceLocked, RaceId, true, 0, Candidate(0),
      [Other(Step(1, Remove(RaceId))), Other(Step(1, GetOrSet(RaceId, true))),
       Other(Step(1, Lock(1, RaceId))), Other(Step(1, Release(1))), Other(Step(1, Release(0)))])
      == Some(Progress(RaceReplaced, Candidate(0)))
  {
    var m3 := Manager(map[], {}, map[0 := LockState(Some(1), 1)], 1);
    var m4 := Manager(map[RaceId := 1], {}, map[0 := LockState(Some(1), 1), 1 := Free], 2);
    var m5 := Manager(map[RaceId := 1], {}, map[0 := LockState(Some(1), 1), 1 := LockState(Some(1), 1)], 2);
    assert Apply(RaceLocked, Step(1, Remove(RaceId))) == Some(m3);
    assert Apply(m3, Step(1, GetOrSet(RaceId, true))) == Some(m4);
    assert m4.locks[1 := LockState(Some(1), 1)] == m5.locks;
    assert Apply(m4, Step(1, Lock(1, RaceId))) == Some(m5);
    assert m5.locks[1 := Free] == m4.locks;
    assert Apply(m5, Step(1, Release(1))) == Some(m4);
    assert m4.locks[0 := Free] == RaceReplaced.locks;
    assert Apply(m4, Step(1, Release(0))) == Some(RaceReplaced);
    var e1 := Other(Step(1, Remove(RaceId)));
    var e2 := Other(Step(1, GetOrSet(RaceId, true)));
    var e3 := Other(Step(1, Lock(1, RaceId)));
    var e4 := Other(Step(1, Release(1)));
    var e5 := Other(Step(1, Release(0)));
    assert [e1, e2, e3, e4, e5] == [e1] + ([e2] + ([e3] + ([e4] + [e5])));
    InterleaveAppend(RaceLocked, RaceId, true, 0, Candidate(0), [e1], [e2] + ([e3] + ([e4] + [e5])));
    InterleaveAppend(m3, RaceId, true, 0, Candidate(0), [e2], [e3] + ([e4] + [e5]));
    InterleaveAppend(m4, RaceId, true, 0, Candidate(0), [e3], [e4] + [e5]);
    InterleaveAppend(m5, RaceId, true, 0, Candidate(0), [e4], [e5]);
  }

  /** The masquerading thread is denied entry 0, retries, and locks entry 1. */
  lemma RaceMasqueradeRetries()
    ensures Interleave(RaceReplaced, RaceId, true, 0, Candidate(0), [Masq, Masq, Masq])
      == Some(Progress(RaceReplaced.(locks := map[0 := Free, 1 := LockState(Some(0), 1)]), Holding(1)))
  {
    RetryAfterDenialIsGranted(RaceReplaced, RaceId, 0, 0);
    assert RaceReplaced.locks[1 := LockState(Some(0), 1)] == map[0 := Free, 1 := LockState(Some(0), 1)];
  }

  /**
   * The replacement race: thread 1 creates and locks entry 0 for the
   * transaction; the masquerading thread 0 picks entry 0 and waits for its
   * lock; thread 1 removes it, registers and locks a replacement, and
   * unlocks both; the masquerading thread is then denied entry 0, retries,
   * and returns holding the lock of the replacement, which is current.
   */
  lemma MasqueradeSurvivesReplacement(events: seq<Event>)
    requires events ==
      [Other(Step(1, GetOrSet(RaceId, true))), Other(Step(1, Lock(0, RaceId)))]
      + [Masq, Masq]
      + [Other(Step(1, Remove(RaceId))), Other(Step(1, GetOrSet(RaceId, true))),
         Other(Step(1, Lock(1, RaceId))), Other(Step(1, Release(1))), Other(Step(1, Release(0)))]
      + [Masq, Masq, Masq]
    ensures var r := Interleave(Empty(), RaceId, true, 0, Start, events);
      && r.Some?
      && r.value.phase == Holding(1)
      && 1 in r.value.m.locks && r.value.m.locks[1] == LockState(Some(0), 1)
      && GetHostedTXState(r.value.m, RaceId) == Some(1)
  {
    var a := [Other(Step(1, GetOrSet(RaceId, true))), Other(Step(1, Lock(0, RaceId)))];
    var b := [Masq, Masq];
    var c := [Other(Step(1, Remove(RaceId))), Other(Step(1, GetOrSet(RaceId, true))),
              Other(Step(1, Lock(1, RaceId))), Other(Step(1, Release(1))), Other(Step(1, Release(0)))];
    var d := [Masq, Masq, Masq];
    RaceFirstEntryLocked();
    RaceMasqueradeWaits();
    RaceEntryReplaced();
    RaceMasqueradeRetries();
    InterleaveAppend(Empty(), RaceId, true, 0, Start, a + b + c, d);
    InterleaveAppend(Empty(), RaceId, true, 0, Start, a + b, c);
    InterleaveAppend(Empty(), RaceId, true, 0, Start, a, b);
  }
}
