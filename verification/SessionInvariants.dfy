/**
 What every step of the legacy session protocol keeps:
 - the cache lock and the locks of the entries belong to the tasks that hold them;
 - pooled sessions and reservations are accounted for and stay within the bound;
 - every pooled handle names its entry;
 - operations act on entries of their own caller and target;
 - a poisoned entry is out of the pool or locked by the task that evicts it.
 */
module SessionInvariants {
  import opened Common
  import opened SessionPool
  import opened SessionProtocol

  // ----- Locks -----

  /** How a task may move without upsetting anyone else's locks. */
  lemma CacheLockKept(s: State, a: Action)
    requires CacheLockHeld(s) && Enabled(s, a)
    ensures CacheLockHeld(Apply(s, a))
  {
    hide Pruned, Reserved, Stored, Found, Rechecked, Evicted, Discarded, ExpiredNow, ReservationReleased;
    if a.Body? {
      assert s.cacheLock == Some(a.task);
    }
  }

  /** One task moves: it keeps its entry lock, gives it up, or takes a free one. */
  ghost predicate LockMove(s: State, s': State, t: TaskId) {
    var before := if t in s.tasks then HeldEntry(s.tasks[t].pc) else None;
    && t in s'.tasks && s'.tasks == s.tasks[t := s'.tasks[t]]
    && var after := HeldEntry(s'.tasks[t].pc);
    || (before == after && s'.entryLocks == s.entryLocks)
    || (before.Some? && after == None && s'.entryLocks == s.entryLocks - {before.value})
    || (before == None && after.Some? && after.value !in s.entryLocks
        && s'.entryLocks == s.entryLocks[after.value := t])
  }

  /** Every step but the clock's moves one task. */
  lemma EveryStepIsALockMove(s: State, a: Action)
    requires Enabled(s, a) && !a.Tick?
    ensures LockMove(s, Apply(s, a), a.task)
  {
    hide Pruned, Reserved, Stored, Found, Rechecked, Evicted, Discarded, ExpiredNow, ReservationReleased;
  }

  lemma EntryLocksKept(s: State, a: Action)
    requires EntryLocksHeld(s) && Enabled(s, a)
    ensures EntryLocksHeld(Apply(s, a))
  {
    if !a.Tick? {
      hide Enabled, Apply, LockMove, EntryLocksHeld;
      EveryStepIsALockMove(s, a);
    }
  }

  // ----- Reservations -----

  lemma MapCard<K, V>(m: map<K, V>, n: map<K, V>)
    requires m.Keys <= n.Keys
    ensures |m| <= |n|
  {
    assert n.Keys == m.Keys + (n.Keys - m.Keys);
    assert |m| == |m.Keys| && |n| == |n.Keys|;
  }

  function Slot(s: State, t: TaskId): nat {
    if t in s.tasks && Reserving(s.tasks[t].pc) then 1 else 0
  }

  /** When one task moves, the number of reservations changes by that task's share. */
  lemma ReserversByMove(s: State, s': State, t: TaskId)
    requires LockMove(s, s', t)
    ensures |Reservers(s')| == |Reservers(s)| - Slot(s, t) + Slot(s', t)
  {
    var r, r' := Reservers(s), Reservers(s');
    assert r - {t} == r' - {t};
    if t in r {
      assert |r| == |r - {t}| + 1;
    } else {
      assert r == r - {t};
    }
    if t in r' {
      assert |r'| == |r' - {t}| + 1;
    } else {
      assert r' == r' - {t};
    }
  }

  /** A task that still owns a reservation is counted. */
  lemma ReservationIsCounted(s: State, t: TaskId)
    requires SlotsAccounted(s) && Slot(s, t) == 1
    ensures s.pool.pending > 0
  {
    assert t in Reservers(s);
  }

  /** Nothing but sessions is removed. */
  predicate Shrinks(q: Pool, p: Pool) {
    && q.max == p.max && q.entries == p.entries && q.pending == p.pending
    && q.sessions.Keys <= p.sessions.Keys
    && forall h <- q.sessions :: q.sessions[h] == p.sessions[h]
  }

  predicate Counts(sec: Section) {
    sec.Reserve? || sec.Store? || sec.Release?
  }

  /** Outside reservation and storing, a critical section only removes sessions. */
  lemma SectionShrinks(s: State, t: TaskId, sec: Section, h: Handle)
    requires t in s.tasks && !Counts(sec)
    ensures Shrinks(RunSection(s, t, sec, h).0, s.pool)
    ensures !Reserving(RunSection(s, t, sec, h).1)
  {
  }

  /** What a critical section does to the pool's size and to the reservations. */
  lemma SectionSlots(s: State, t: TaskId, sec: Section, h: Handle)
    requires t in s.tasks && s.tasks[t].pc == Have(sec) && h !in s.pool.sessions
    requires SlotsAccounted(s)
    ensures
      var (q, pc, _) := RunSection(s, t, sec, h);
      var after := if Reserving(pc) then 1 else 0;
      && q.max == s.pool.max
      && q.pending == s.pool.pending - Slot(s, t) + after
      && (|q.sessions| + q.pending <= s.pool.max)
  {
    if Reserving(Have(sec)) {
      ReservationIsCounted(s, t);
    }
    if !Counts(sec) {
      hide RunSection;
      SectionShrinks(s, t, sec, h);
      MapCard(RunSection(s, t, sec, h).0.sessions, s.pool.sessions);
    }
  }

  lemma SlotsKept(s: State, a: Action)
    requires SlotsAccounted(s) && Enabled(s, a)
    ensures SlotsAccounted(Apply(s, a))
  {
    hide RunSection, LockMove;
    var s' := Apply(s, a);
    if a.Tick? {
      assert Reservers(s') == Reservers(s);
    } else {
      EveryStepIsALockMove(s, a);
      ReserversByMove(s, s', a.task);
      hide Reservers;
      if a.Body? {
        SectionSlots(s, a.task, s.tasks[a.task].pc.section, a.handle);
      }
    }
  }

  // ----- The pool's contents -----

  lemma PoolSoundKept(s: State, a: Action)
    requires PoolSound(s) && Enabled(s, a)
    ensures PoolSound(Apply(s, a))
    ensures s.pool.entries <= Apply(s, a).pool.entries
  {
    hide Pruned, Found, Rechecked, Evicted, Discarded, ExpiredNow;
    if a.Body? {
      var sec := s.tasks[a.task].pc.section;
      if !Counts(sec) {
        hide RunSection;
        SectionShrinks(s, a.task, sec, a.handle);
      }
    } else {
      hide RunSection;
    }
  }

  /** A section that leads to an operation on an entry has checked, or inherits, the
      caller and target of the request. */
  lemma SectionAuthorizes(s: State, t: TaskId, sec: Section, h: Handle)
    requires t in s.tasks && s.tasks[t].pc == Have(sec)
    requires OperationsAuthorized(s)
    ensures
      var e := OperatesOn(RunSection(s, t, sec, h).1);
      e.Some? ==> Authorized(s, t, e.value)
  {
    hide Pruned, Reserved, Stored, Evicted, Discarded, ExpiredNow, ReservationReleased;
    if sec.Recheck? {
      assert OperatesOn(Have(sec)) == Some(sec.id);
    }
  }

  /** A moving task operates on an entry only if it is authorized before the move. */
  lemma MoveAuthorizes(s: State, a: Action)
    requires OperationsAuthorized(s) && Enabled(s, a) && !a.Tick?
    ensures
      var s' := Apply(s, a);
      var e := OperatesOn(s'.tasks[a.task].pc);
      e.Some? ==> a.task in s.tasks && s'.tasks[a.task].request == s.tasks[a.task].request
                  && Authorized(s, a.task, e.value)
  {
    hide RunSection;
    if a.Body? {
      SectionAuthorizes(s, a.task, s.tasks[a.task].pc.section, a.handle);
    } else if a.task in s.tasks {
      var e := OperatesOn(s.tasks[a.task].pc);
      assert e.Some? ==> Authorized(s, a.task, e.value);
    }
  }

  lemma OperationsAuthorizedKept(s: State, a: Action)
    requires OperationsAuthorized(s) && PoolSound(s) && Enabled(s, a)
    ensures OperationsAuthorized(Apply(s, a))
  {
    var s' := Apply(s, a);
    PoolSoundKept(s, a);
    if !a.Tick? {
      EveryStepIsALockMove(s, a);
      MoveAuthorizes(s, a);
      hide Apply, Enabled, Authorized, OperatesOn;
      forall t, e | t in s'.tasks && OperatesOn(s'.tasks[t].pc) == Some(e)
        ensures Authorized(s', t, e)
      {
      }
    }
  }

  // ----- Poisoned entries -----

  /** No section puts an entry back into the pool. */
  lemma SectionPools(s: State, t: TaskId, sec: Section, h: Handle, e: EntryId)
    requires t in s.tasks && h !in s.pool.sessions && e < |s.pool.entries|
    requires Pooled(RunSection(s, t, sec, h).0, e)
    ensures Pooled(s.pool, e)
  {
    if !Counts(sec) {
      SectionShrinks(s, t, sec, h);
    }
  }

  lemma NothingIsPooledAgain(s: State, a: Action, e: EntryId)
    requires Enabled(s, a) && e < |s.pool.entries| && Pooled(Apply(s, a).pool, e)
    ensures Pooled(s.pool, e)
  {
    hide RunSection;
    if a.Body? {
      SectionPools(s, a.task, s.tasks[a.task].pc.section, a.handle, e);
    }
  }

  /** The step at which a task passes its second check: it holds both locks, the entry
      is in the pool and has not expired. */
  ghost predicate Rechecks(s: State, a: Action, t: TaskId, e: EntryId) {
    && a.Body? && a.task == t
    && t in s.tasks && s.tasks[t].pc == Have(Recheck(e))
    && s.cacheLock == Some(t)
    && e in s.entryLocks && s.entryLocks[e] == t
    && Pooled(s.pool, e) && s.pool.entries[e].expiresAt > s.now
  }

  lemma SectionReadies(s: State, t: TaskId, sec: Section, h: Handle)
    requires t in s.tasks && RunSection(s, t, sec, h).1.Ready?
    ensures sec == Recheck(RunSection(s, t, sec, h).1.id)
    ensures Pooled(s.pool, sec.id) && s.pool.entries[sec.id].expiresAt > s.now
  {
    hide Pruned, Reserved, Stored, Found, Evicted, Discarded, ExpiredNow, ReservationReleased;
  }

  /** A task becomes ready only by passing the second check. */
  lemma ReadyMeansRechecked(s: State, a: Action, t: TaskId)
    requires Enabled(s, a) && CacheLockHeld(s) && EntryLocksHeld(s)
    requires t in Apply(s, a).tasks && Apply(s, a).tasks[t].pc.Ready?
    ensures t in s.tasks
    ensures
      var e := Apply(s, a).tasks[t].pc.id;
      s.tasks[t].pc == Ready(e) || Rechecks(s, a, t, e)
  {
    hide RunSection;
    if a.Body? && a.task == t {
      var sec := s.tasks[t].pc.section;
      SectionReadies(s, t, sec, a.handle);
      assert HeldEntry(s.tasks[t].pc) == Some(sec.id);
    }
  }

  /** An eviction under way stays under way until the entry is out of the pool. */
  lemma EvictionFinishes(s: State, a: Action, e: EntryId)
    requires Enabled(s, a) && EntryLocksHeld(s) && e < |s.pool.entries|
    requires !Pooled(s.pool, e) || Evicting(s, e)
    ensures !Pooled(Apply(s, a).pool, e) || Evicting(Apply(s, a), e)
  {
    var s' := Apply(s, a);
    if Pooled(s'.pool, e) {
      NothingIsPooledAgain(s, a, e);
      hide RunSection;
    }
  }

  lemma PoisonContainedKept(s: State, a: Action)
    requires Inv(s) && Enabled(s, a)
    ensures PoisonContained(Apply(s, a))
  {
    var s' := Apply(s, a);
    PoolSoundKept(s, a);
    EntryLocksKept(s, a);
    hide Apply, Enabled, RunSection, Pooled, OperatesOn;
    forall e <- s'.poisoned
      ensures e < |s'.pool.entries| && (!Pooled(s'.pool, e) || Evicting(s', e))
    {
      if e in s.poisoned {
        EvictionFinishes(s, a, e);
      } else {
        PoisonedEntry(s, a);
      }
    }
    forall t | t in s'.tasks && s'.tasks[t].pc.Ready?
      ensures s'.tasks[t].pc.id !in s'.poisoned
    {
      NotReadyOnPoison(s, a, t);
    }
  }

  lemma PoisonedEntry(s: State, a: Action)
    requires Inv(s) && Enabled(s, a) && a.EndOperation? && a.poisons
    ensures
      var e := s.tasks[a.task].pc.id;
      e < |Apply(s, a).pool.entries| && Evicting(Apply(s, a), e)
  {
    var e := s.tasks[a.task].pc.id;
    assert OperatesOn(s.tasks[a.task].pc) == Some(e) && HeldEntry(s.tasks[a.task].pc) == Some(e);
    assert Authorized(s, a.task, e);
  }

  lemma NotReadyOnPoison(s: State, a: Action, t: TaskId)
    requires Inv(s) && Enabled(s, a)
    requires t in Apply(s, a).tasks && Apply(s, a).tasks[t].pc.Ready?
    ensures Apply(s, a).tasks[t].pc.id !in Apply(s, a).poisoned
  {
    var e := Apply(s, a).tasks[t].pc.id;
    ReadyMeansRechecked(s, a, t);
    hide Apply, RunSection;
    assert HeldEntry(s.tasks[t].pc) == Some(e);
    assert e !in s.poisoned;
    assert a.EndOperation? ==> HeldEntry(s.tasks[a.task].pc) == Some(s.tasks[a.task].pc.id);
  }
}
