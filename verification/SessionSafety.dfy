/**
 Safety of the legacy session protocol over every run: the bound, the reservations, and dispatch
 only under the entry's lock, after a check under both locks and never after poison.
 */
module SessionSafety {
  import opened Common
  import opened SessionPool
  import opened SessionProtocol
  import opened SessionInvariants

  // ----- Every run -----

  lemma {:induction false} InvHolds(r: Run, i: nat)
    requires IsRun(r) && i < |r.states|
    ensures Inv(r.states[i])
  {
    if i == 0 {
      assert Reservers(r.states[0]) == {};
    } else {
      InvHolds(r, i - 1);
      var s, a := r.states[i - 1], r.actions[i - 1];
      assert r.states[i - 1 + 1] == Apply(s, a);
      hide Apply, Enabled;
      CacheLockKept(s, a);
      EntryLocksKept(s, a);
      SlotsKept(s, a);
      PoolSoundKept(s, a);
      OperationsAuthorizedKept(s, a);
      PoisonContainedKept(s, a);
    }
  }

  /** Reservation accounting: in every state of every run the pool and the pending
      reservations together stay within the bound; the pending count is the number of
      tasks that still own a reservation and of those lost, so the guard on release never
      matters; and once no task owns one, the count is zero exactly when none was lost. */
  lemma ReservationAccounting(r: Run, i: nat)
    requires IsRun(r) && i < |r.states|
    ensures
      var s := r.states[i];
      && |s.pool.sessions| + s.pool.pending <= s.pool.max
      && s.pool.pending == |Reservers(s)| + s.leaked
      && (forall t <- s.tasks :: s.tasks[t].pc == Have(Release) ==> s.pool.pending > 0)
      && ((forall t <- s.tasks :: !Reserving(s.tasks[t].pc)) ==> (s.pool.pending == 0 <==> s.leaked == 0))
  {
    hide RunSection, Apply, Enabled;
    InvHolds(r, i);
    var s := r.states[i];
    forall t <- s.tasks | s.tasks[t].pc == Have(Release)
      ensures s.pool.pending > 0
    {
      ReservationIsCounted(s, t);
    }
    if forall t <- s.tasks :: !Reserving(s.tasks[t].pc) {
      assert Reservers(s) == {};
    }
  }

  ghost predicate LockedThroughout(r: Run, from: nat, to: nat, t: TaskId, e: EntryId) {
    forall k :: from <= k <= to && k < |r.states| ==> e in r.states[k].entryLocks && r.states[k].entryLocks[e] == t
  }

  lemma ReadyLocked(r: Run, i: nat, t: TaskId)
    requires IsRun(r) && i < |r.states|
    requires t in r.states[i].tasks && r.states[i].tasks[t].pc.Ready?
    ensures LockedThroughout(r, i, i, t, r.states[i].tasks[t].pc.id)
    ensures i > 0
  {
    InvHolds(r, i);
    assert HeldEntry(r.states[i].tasks[t].pc) == Some(r.states[i].tasks[t].pc.id);
  }

  lemma ReadyStep(r: Run, i: nat, t: TaskId)
    requires IsRun(r) && 0 < i < |r.states|
    requires t in r.states[i].tasks && r.states[i].tasks[t].pc.Ready?
    ensures
      var e := r.states[i].tasks[t].pc.id;
      || (t in r.states[i - 1].tasks && r.states[i - 1].tasks[t].pc == Ready(e))
      || (Rechecks(r.states[i - 1], r.actions[i - 1], t, e)
          && LockedThroughout(r, i - 1, i - 1, t, e))
  {
    InvHolds(r, i - 1);
    assert r.states[i - 1 + 1] == Apply(r.states[i - 1], r.actions[i - 1]);
    ReadyMeansRechecked(r.states[i - 1], r.actions[i - 1], t);
  }

  /** A ready task passed its second check at some earlier step, and has held the
      entry's lock ever since. */
  lemma {:induction false} ReadyWasRechecked(r: Run, i: nat, t: TaskId) returns (j: nat)
    requires IsRun(r) && i < |r.states|
    requires t in r.states[i].tasks && r.states[i].tasks[t].pc.Ready?
    ensures
      var e := r.states[i].tasks[t].pc.id;
      j < i && Rechecks(r.states[j], r.actions[j], t, e) && LockedThroughout(r, j, i, t, e)
  {
    ReadyLocked(r, i, t);
    ReadyStep(r, i, t);
    hide Rechecks;
    if t in r.states[i - 1].tasks && r.states[i - 1].tasks[t].pc == r.states[i].tasks[t].pc {
      j := ReadyWasRechecked(r, i - 1, t);
    } else {
      j := i - 1;
    }
  }

  lemma {:induction false} PoisonStays(r: Run, k: nat, i: nat)
    requires IsRun(r) && k <= i < |r.states|
    ensures r.states[k].poisoned <= r.states[i].poisoned
  {
    if k < i {
      PoisonStays(r, k, i - 1);
      assert r.states[i - 1 + 1] == Apply(r.states[i - 1], r.actions[i - 1]);
    }
  }

  /** Dispatch safety. Whenever a run dispatches a cached operation, its sender holds the
      entry's lock; at an earlier step, since when it never lost that lock, it found the
      entry pooled and unexpired while holding both locks; the request carries the
      entry's own caller and target; and no earlier operation on the entry ended poisoned. */
  lemma DispatchSafety(r: Run, i: nat, t: TaskId) returns (j: nat)
    requires IsRun(r) && i < |r.actions| && r.actions[i] == Dispatch(t)
    ensures t in r.states[i].tasks && r.states[i].tasks[t].pc.Ready?
    ensures
      var e := r.states[i].tasks[t].pc.id;
      && j < i && Rechecks(r.states[j], r.actions[j], t, e)
      && LockedThroughout(r, j, i, t, e)
      && Authorized(r.states[i], t, e)
      && forall k, u, p :: 0 <= k < i && r.actions[k] == EndOperation(u, p) && p ==>
           r.states[k].tasks[u].pc.id != e
  {
    var s := r.states[i];
    assert Enabled(s, r.actions[i]);
    InvHolds(r, i);
    var e := s.tasks[t].pc.id;
    assert OperatesOn(s.tasks[t].pc) == Some(e);
    j := ReadyWasRechecked(r, i, t);
    forall k, u, p | 0 <= k < i && r.actions[k] == EndOperation(u, p) && p
      ensures r.states[k].tasks[u].pc.id != e
    {
      PoisonStays(r, k + 1, i);
    }
  }

  /** Operations on one entry exclude each other. */
  lemma OperationsExclude(r: Run, i: nat, t: TaskId, u: TaskId, e: EntryId)
    requires IsRun(r) && i < |r.states|
    requires t in r.states[i].tasks && r.states[i].tasks[t].pc == Operating(e)
    requires u in r.states[i].tasks && r.states[i].tasks[u].pc == Operating(e)
    ensures t == u
  {
    InvHolds(r, i);
    assert HeldEntry(Operating(e)) == Some(e);
  }

  // ----- The two lock levels -----

  predicate Waiting(pc: Pc) {
    pc.Want? || pc.WantEntry?
  }

  /** The locks never block each other in a circle: while some task waits for a lock, it, or the holder of the cache
      lock, or the holder of the entry's lock it waits for, can take a step of its own, without a deadline or cancellation. */
  lemma NeverDeadlocked(r: Run, i: nat, t: TaskId) returns (a: Action)
    requires IsRun(r) && i < |r.states|
    requires t in r.states[i].tasks && Waiting(r.states[i].tasks[t].pc)
    ensures Enabled(r.states[i], a)
    ensures a.LockCache? || a.Body? || a.LockEntry? || a.Dispatch? || a.EndOperation? || a.EndClose?
    ensures
      var s := r.states[i];
      || a.task == t
      || s.cacheLock == Some(a.task)
      || (s.tasks[t].pc.WantEntry? && s.tasks[t].pc.id in s.entryLocks && s.entryLocks[s.tasks[t].pc.id] == a.task)
  {
    InvHolds(r, i);
    var s := r.states[i];
    hide IsRun, SlotsAccounted, OperationsAuthorized, PoisonContained, PoolSound;
    if s.cacheLock.Some? {
      assert s.tasks[s.cacheLock.value].pc.Have?;
      var h := FreshNat(s.pool.sessions.Keys);
      a := Body(s.cacheLock.value, h);
    } else if s.tasks[t].pc.Want? {
      a := LockCache(t);
    } else {
      var e := s.tasks[t].pc.id;
      if e !in s.entryLocks {
        a := LockEntry(t);
      } else {
        var u := s.entryLocks[e];
        assert HeldEntry(s.tasks[u].pc) == Some(e);
        assert !s.tasks[u].pc.Have?;
        a := if s.tasks[u].pc.Want? then LockCache(u)
             else if s.tasks[u].pc.Ready? then Dispatch(u)
             else if s.tasks[u].pc.Operating? then EndOperation(u, false)
             else EndClose(u);
      }
    }
  }
}
