/**
 What each critical section of the session protocol means for the pool, and a session from its opening to its end.
 */
module SessionSections {
  import opened Common
  import opened SessionPool
  import opened SessionProtocol
  import opened SessionInvariants
  import opened SessionSafety
  import opened SessionLeaks
  import opened SessionOrigins

  // ----- The sections -----

  /** Only entries for which `gone` holds leave the pool. */
  ghost predicate Loses(p: Pool, q: Pool, gone: EntryId -> bool) {
    && q.entries == p.entries && q.max == p.max && q.pending == p.pending
    && forall e: EntryId :: Pooled(q, e) <==> Pooled(p, e) && !gone(e)
  }

  /** The handle names a pooled entry of this caller. */
  predicate Names(p: Pool, handle: Handle, caller: nat, e: EntryId) {
    Pooled(p, e) && p.entries[e].handle == handle && p.entries[e].caller == caller
  }

  predicate Expired(p: Pool, e: EntryId, at: int) { e < |p.entries| && p.entries[e].expiresAt <= at }

  /** The sections on the way to a new session. */
  ghost predicate OpeningMeans(s: State, r: Request, sec: Section, h: Handle, q: Pool, pc: Pc) {
    var p := s.pool;
    match sec
    case Prune(asOf) =>
      && Loses(p, q, (e: EntryId) => Expired(p, e, asOf))
      && pc == if r.Fresh? && r.legacy then Want(Reserve) else Opening(false, s.now + s.ttl)
    case Reserve =>
      var room := |p.sessions| + p.pending < p.max;
      && q == (if room then p.(pending := p.pending + 1) else p)
      && pc == if room then Opening(true, s.now + s.ttl) else Done
    case Store(reserved, expiresAt) =>
      var e := |p.entries|;
      if reserved && p.pending > 0 then
        && pc == Responding(e) && |q.entries| == e + 1 && q.entries[..e] == p.entries && q.pending == p.pending - 1
        && q.entries[e].handle == h && q.entries[e].expiresAt == expiresAt
        && (r.Fresh? ==> q.entries[e].caller == r.caller && q.entries[e].target == r.target)
        && forall d: EntryId :: Pooled(q, d) <==> d == e || Pooled(p, d)
      else q == p && pc == if reserved then Want(Release) else Done
    case Release => q == p.(pending := if p.pending > 0 then p.pending - 1 else 0) && pc == Done
    case _ => true
  }

  /** The request's own entry, if it is pooled. */
  ghost predicate OwnEntry(p: Pool, r: Request, e: EntryId) {
    match r
    case Cached(handle, caller, target) => Names(p, handle, caller, e) && p.entries[e].target == target
    case Close(handle, caller) => Names(p, handle, caller, e)
    case _ => false
  }

  /** The sections on the way to an operation, and what follows a poisoned one. */
  ghost predicate OperatingMeans(s: State, r: Request, sec: Section, q: Pool, pc: Pc) {
    var p := s.pool;
    match sec
    case Find(asOf) =>
      if e: EntryId :| r.Cached? && OwnEntry(p, r, e) then
        if !Expired(p, e, asOf) then q == p && pc == WantEntry(e, Operate)
        else Loses(p, q, (d: EntryId) => d == e) && pc == Done
      else q == p && pc == Done
    case Recheck(e) =>
      && Loses(p, q, (d: EntryId) => d == e && Expired(p, d, s.now))
      && pc == if Pooled(p, e) && !Expired(p, e, s.now) then Ready(e) else Done
    case Evict(e) => Loses(p, q, (d: EntryId) => d == e) && pc == Done
    case _ => true
  }

  /** The sections on the way to closing. */
  ghost predicate ClosingMeans(s: State, r: Request, sec: Section, q: Pool, pc: Pc) {
    var p := s.pool;
    match sec
    case CloseFind =>
      && q == p
      && if e: EntryId :| r.Close? && OwnEntry(p, r, e) then pc == WantEntry(e, CloseIt) else pc == Done
    case CloseRecheck(e) => Loses(p, q, (d: EntryId) => d == e) && pc == if Pooled(p, e) then Closing(e) else Done
    case Discard(e) =>
      && Loses(p, q, (d: EntryId) => d < |p.entries| && e < |p.entries| && p.entries[d].handle == p.entries[e].handle)
      && pc == WantEntry(e, ShutDown)
    case Expire(e) =>
      && Loses(p, q, (d: EntryId) => d == e && Expired(p, d, s.now))
      && pc == if Pooled(p, e) && Expired(p, e, s.now) then WantEntry(e, ShutDown) else Done
    case Shutdown => Loses(p, q, (d: EntryId) => true) && pc == Done
    case _ => true
  }

  /** What a section does to the pool and what its task does next, said of the entries that are pooled; and the entry lock is
      given up exactly by a section that ran under one and leads its task to the end. */
  lemma SectionMeans(s: State, t: TaskId, sec: Section, h: Handle)
    requires PoolSound(s) && t in s.tasks && h !in s.pool.sessions
    ensures var (q, pc, leaves) := RunSection(s, t, sec, h); var r := s.tasks[t].request;
      && OpeningMeans(s, r, sec, h, q, pc) && OperatingMeans(s, r, sec, q, pc) && ClosingMeans(s, r, sec, q, pc)
      && (leaves <==> SectionEntry(sec).Some? && pc == Done)
  {
    SectionOpens(s, t, sec, h);
    SectionOperates(s, t, sec, h);
    SectionCloses(s, t, sec, h);
    hide OpeningMeans, OperatingMeans, ClosingMeans, Stored, Found, Pruned;
  }

  lemma SectionOpens(s: State, t: TaskId, sec: Section, h: Handle)
    requires t in s.tasks && h !in s.pool.sessions && PoolSound(s)
    ensures OpeningMeans(s, s.tasks[t].request, sec, h, RunSection(s, t, sec, h).0, RunSection(s, t, sec, h).1)
  {
    hide Found, Rechecked, Evicted, Discarded, ExpiredNow;
  }

  lemma SectionOperates(s: State, t: TaskId, sec: Section, h: Handle)
    requires t in s.tasks && PoolSound(s)
    ensures OperatingMeans(s, s.tasks[t].request, sec, RunSection(s, t, sec, h).0, RunSection(s, t, sec, h).1)
  {
    hide Pruned, Stored, Discarded, ExpiredNow;
    OwnEntryIs(s, s.tasks[t].request);
    if sec.Find? && s.tasks[t].request.Cached? {
      FindMeans(s, t, sec, h);
    }
  }

  lemma FindMeans(s: State, t: TaskId, sec: Section, h: Handle)
    requires t in s.tasks && PoolSound(s) && sec.Find? && s.tasks[t].request.Cached?
    ensures OperatingMeans(s, s.tasks[t].request, sec, RunSection(s, t, sec, h).0, RunSection(s, t, sec, h).1)
  {
    var p, r := s.pool, s.tasks[t].request;
    OwnEntryIs(s, r);
    if r.handle in p.sessions {
      var e := p.sessions[r.handle];
      assert Pooled(p, e);
      var found := Found(p, r.handle, r.caller, r.target, sec.asOf);
      if OwnEntry(p, r, e) {
        assert Expired(p, e, sec.asOf) ==> found == (Drop(p, r.handle), Err(SessionPool.Refusal.Expired));
      }
    }
  }

  lemma SectionCloses(s: State, t: TaskId, sec: Section, h: Handle)
    requires t in s.tasks && PoolSound(s)
    ensures ClosingMeans(s, s.tasks[t].request, sec, RunSection(s, t, sec, h).0, RunSection(s, t, sec, h).1)
  {
    hide Pruned, Stored, Found, Rechecked;
    var p, r := s.pool, s.tasks[t].request;
    if sec.CloseFind? {
      OwnEntryIs(s, r);
      if r.Close? && r.handle in p.sessions && OwnEntry(p, r, p.sessions[r.handle]) {
        assert p.entries[p.sessions[r.handle]].caller == r.caller;
      }
    }
  }

  lemma OwnEntryIs(s: State, r: Request)
    requires PoolSound(s)
    ensures forall e: EntryId :: OwnEntry(s.pool, r, e) ==>
      (r.Cached? || r.Close?) && r.handle in s.pool.sessions && e == s.pool.sessions[r.handle]
    ensures (r.Cached? || r.Close?) && r.handle in s.pool.sessions ==> Pooled(s.pool, s.pool.sessions[r.handle])
  {
  }

  // ----- Closing -----

  /** The entry whose owner a task is about to close, or is closing. */
  function Closes(pc: Pc): Option<EntryId> {
    match pc
    case WantEntry(e, use) => if use.ShutDown? then Some(e) else None
    case Closing(e) => Some(e)
    case _ => None
  }

  /** An owner is closed only when its entry is out of the pool. */
  ghost predicate ClosedAreOut(s: State) {
    forall t, e :: t in s.tasks && Closes(s.tasks[t].pc) == Some(e) ==> e < |s.pool.entries| && !Pooled(s.pool, e)
  }

  lemma SectionClosesOut(s: State, t: TaskId, sec: Section, h: Handle)
    requires EveryoneEntitled(s) && t in s.tasks && s.tasks[t].pc == Have(sec)
    ensures var (q, pc, _) := RunSection(s, t, sec, h);
      forall e :: Closes(pc) == Some(e) ==> e < |q.entries| && !Pooled(q, e)
  {
    hide Pruned, Reserved, ReservationReleased, Found, Stored;
    assert forall e :: Touches(s.tasks[t].pc) == Some(e) ==> e < |s.pool.entries|;
  }

  lemma ClosedStayOut(s: State, a: Action)
    requires EveryoneEntitled(s) && OpenersAreFresh(s) && ClosedAreOut(s) && Enabled(s, a)
    ensures ClosedAreOut(Apply(s, a))
  {
    var s' := Apply(s, a);
    StepGrows(s, a);
    forall t, e | t in s'.tasks && Closes(s'.tasks[t].pc) == Some(e)
      ensures e < |s'.pool.entries| && !Pooled(s'.pool, e)
    {
      if a.Body? && t == a.task {
        SectionClosesOut(s, t, s.tasks[t].pc.section, a.handle);
      } else {
        OtherCloses(s, a, t, e);
        if Pooled(s'.pool, e) {
          NothingIsPooledAgain(s, a, e);
        }
      }
    }
  }

  lemma OtherCloses(s: State, a: Action, t: TaskId, e: EntryId)
    requires ClosedAreOut(s) && Enabled(s, a) && !(a.Body? && t == a.task)
    requires t in Apply(s, a).tasks && Closes(Apply(s, a).tasks[t].pc) == Some(e)
    ensures e < |s.pool.entries| && !Pooled(s.pool, e)
  {
    hide RunSection;
    if t in s.tasks {
      assert Closes(s.tasks[t].pc) == Some(e);
    }
  }

  lemma {:induction false} ClosedAreOutHolds(r: Run, i: nat)
    requires IsRun(r) && i < |r.states|
    ensures ClosedAreOut(r.states[i])
  {
    if i > 0 {
      ClosedAreOutHolds(r, i - 1);
      EntitledHolds(r, i - 1);
      assert r.states[i - 1 + 1] == Apply(r.states[i - 1], r.actions[i - 1]);
      ClosedStayOut(r.states[i - 1], r.actions[i - 1]);
    }
  }

  // ----- A whole session -----

  const OPENS: Request := Fresh(1, 2, true)
  const CALLS: Request := Cached(7, 1, 2)
  const ENDS: Request := Close(7, 1)
  const SESSION: Entry := Entry(7, 1, 2, 60)

  /** The pool with its only session, and the tasks so far. */
  function Open(tasks: map<TaskId, Task>, cache: Option<TaskId>, locks: map<EntryId, TaskId>): State {
    State(Pool(1, [SESSION], map[7 := 0], 0), 0, 60, tasks, cache, locks, {}, 0)
  }

  function Before(pending: nat, pc: Pc, cache: Option<TaskId>): State {
    State(Pool(1, [], map[], pending), 0, 60, map[0 := Task(OPENS, pc)], cache, map[], {}, 0)
  }

  /** A request opens a session. */
  lemma SessionOpens() returns (r: Run)
    ensures IsRun(r) && r.states[|r.actions|] == Open(map[0 := Task(OPENS, Done)], None, map[])
  {
    r := Run([State(Pool(1, [], map[], 0), 0, 60, map[], None, map[], {}, 0)], []);
    r := Extend(r, Arrive(0, OPENS));
    assert r.states[|r.actions|] == Before(0, Want(Prune(0)), None);
    r := Extend(r, LockCache(0));
    assert r.states[|r.actions|] == Before(0, Have(Prune(0)), Some(0));
    r := Extend(r, Body(0, 0));
    assert r.states[|r.actions|] == Before(0, Want(Reserve), None);
    r := Extend(r, LockCache(0));
    assert r.states[|r.actions|] == Before(0, Have(Reserve), Some(0));
    r := Extend(r, Body(0, 0));
    assert r.states[|r.actions|] == Before(1, Opening(true, 60), None);
    r := Stores(r);
  }

  lemma Stores(r: Run) returns (longer: Run)
    requires IsRun(r) && r.states[|r.actions|] == Before(1, Opening(true, 60), None)
    ensures IsRun(longer) && longer.states[|longer.actions|] == Open(map[0 := Task(OPENS, Done)], None, map[])
  {
    longer := Extend(r, FinishOpening(0, Legacy));
    assert longer.states[|longer.actions|] == Before(1, Want(Store(true, 60)), None);
    longer := Extend(longer, LockCache(0));
    assert longer.states[|longer.actions|] == Before(1, Have(Store(true, 60)), Some(0));
    longer := Extend(longer, Body(0, 7));
    assert longer.states[|longer.actions|] == Open(map[0 := Task(OPENS, Responding(0))], None, map[]);
    longer := Extend(longer, Respond(0, true));
  }

  function Serving(pc: Pc, cache: Option<TaskId>, locks: map<EntryId, TaskId>): State {
    Open(map[0 := Task(OPENS, Done), 1 := Task(CALLS, pc)], cache, locks)
  }

  /** A second request of the same caller is served by it. */
  lemma SessionServes() returns (r: Run)
    ensures IsRun(r) && r.states[|r.actions|] == Serving(Done, None, map[])
  {
    r := SessionOpens();
    r := Extend(r, Arrive(1, CALLS));
    assert r.states[|r.actions|] == Serving(Want(Find(0)), None, map[]);
    r := Extend(r, LockCache(1));
    assert r.states[|r.actions|] == Serving(Have(Find(0)), Some(1), map[]);
    r := Extend(r, Body(1, 0));
    assert r.states[|r.actions|] == Serving(WantEntry(0, Operate), None, map[]);
    r := Extend(r, LockEntry(1));
    assert r.states[|r.actions|] == Serving(Want(Recheck(0)), None, map[0 := 1]);
    r := Serves(r);
  }

  lemma Serves(r: Run) returns (longer: Run)
    requires IsRun(r) && r.states[|r.actions|] == Serving(Want(Recheck(0)), None, map[0 := 1])
    ensures IsRun(longer) && longer.states[|longer.actions|] == Serving(Done, None, map[])
  {
    longer := Extend(r, LockCache(1));
    assert longer.states[|longer.actions|] == Serving(Have(Recheck(0)), Some(1), map[0 := 1]);
    longer := Extend(longer, Body(1, 0));
    assert longer.states[|longer.actions|] == Serving(Ready(0), None, map[0 := 1]);
    longer := Extend(longer, Dispatch(1));
    assert longer.states[|longer.actions|] == Serving(Operating(0), None, map[0 := 1]);
    longer := Extend(longer, EndOperation(1, false));
    assert longer.states[|longer.actions|].entryLocks == map[];
  }

  function Leaving(sessions: map<Handle, EntryId>, pc: Pc, cache: Option<TaskId>, locks: map<EntryId, TaskId>): State {
    State(Pool(1, [SESSION], sessions, 0), 0, 60,
          map[0 := Task(OPENS, Done), 1 := Task(CALLS, Done), 2 := Task(ENDS, pc)], cache, locks, {}, 0)
  }

  /** And its caller closes it, after which the pool has its slot back and nothing is locked. */
  lemma SessionEnds() returns (r: Run)
    ensures IsRun(r) && r.states[|r.actions|] == Leaving(map[], Done, None, map[])
  {
    r := SessionServes();
    r := Extend(r, Arrive(2, ENDS));
    assert r.states[|r.actions|] == Leaving(map[7 := 0], Want(CloseFind), None, map[]);
    r := Extend(r, LockCache(2));
    assert r.states[|r.actions|] == Leaving(map[7 := 0], Have(CloseFind), Some(2), map[]);
    r := Extend(r, Body(2, 0));
    assert r.states[|r.actions|] == Leaving(map[7 := 0], WantEntry(0, CloseIt), None, map[]);
    r := Extend(r, LockEntry(2));
    assert r.states[|r.actions|] == Leaving(map[7 := 0], Want(CloseRecheck(0)), None, map[0 := 2]);
    r := Ends(r);
  }

  lemma Ends(r: Run) returns (longer: Run)
    requires IsRun(r) && r.states[|r.actions|] == Leaving(map[7 := 0], Want(CloseRecheck(0)), None, map[0 := 2])
    ensures IsRun(longer) && longer.states[|longer.actions|] == Leaving(map[], Done, None, map[])
  {
    longer := Extend(r, LockCache(2));
    assert longer.states[|longer.actions|] == Leaving(map[7 := 0], Have(CloseRecheck(0)), Some(2), map[0 := 2]);
    longer := Extend(longer, Body(2, 0));
    assert longer.states[|longer.actions|].pool.sessions == map[];
    assert longer.states[|longer.actions|] == Leaving(map[], Closing(0), None, map[0 := 2]);
    longer := Extend(longer, EndClose(2));
    assert longer.states[|longer.actions|].entryLocks == map[];
  }

  function Expiring(now: int, sessions: map<Handle, EntryId>, pc: Pc, cache: Option<TaskId>, locks: map<EntryId, TaskId>): State {
    State(Pool(1, [SESSION], sessions, 0), now, 60, map[0 := Task(OPENS, Done), 1 := Task(Background, pc)], cache, locks, {}, 0)
  }

  /** Or its timer ends it when its lifetime is over. */
  lemma SessionExpires() returns (r: Run)
    ensures IsRun(r) && r.states[|r.actions|] == Expiring(60, map[], Done, None, map[])
  {
    r := SessionOpens();
    r := Extend(r, Spawn(1, Sleeping(0)));
    assert r.states[|r.actions|] == Expiring(0, map[7 := 0], Sleeping(0), None, map[]);
    r := Extend(r, Tick(60));
    assert r.states[|r.actions|] == Expiring(60, map[7 := 0], Sleeping(0), None, map[]);
    r := Extend(r, Wake(1));
    assert r.states[|r.actions|] == Expiring(60, map[7 := 0], Want(Expire(0)), None, map[]);
    r := IsDue(r);
    r := Expires(r);
  }

  lemma IsDue(r: Run) returns (longer: Run)
    requires IsRun(r) && r.states[|r.actions|] == Expiring(60, map[7 := 0], Want(Expire(0)), None, map[])
    ensures IsRun(longer) && longer.states[|longer.actions|] == Expiring(60, map[], WantEntry(0, ShutDown), None, map[])
  {
    longer := Extend(r, LockCache(1));
    assert longer.states[|longer.actions|] == Expiring(60, map[7 := 0], Have(Expire(0)), Some(1), map[]);
    longer := Extend(longer, Body(1, 0));
    assert longer.states[|longer.actions|].pool.sessions == map[];
  }

  lemma Expires(r: Run) returns (longer: Run)
    requires IsRun(r) && r.states[|r.actions|] == Expiring(60, map[], WantEntry(0, ShutDown), None, map[])
    ensures IsRun(longer) && longer.states[|longer.actions|] == Expiring(60, map[], Done, None, map[])
  {
    longer := Extend(r, LockEntry(1));
    assert longer.states[|longer.actions|] == Expiring(60, map[], Closing(0), None, map[0 := 1]);
    longer := Extend(longer, EndClose(1));
    assert longer.states[|longer.actions|].entryLocks == map[];
  }

  /** Or the gateway shuts down, which empties the pool. */
  lemma ShutdownEmptiesThePool() returns (r: Run)
    ensures IsRun(r) && r.states[|r.actions|] == Expiring(0, map[], Done, None, map[])
  {
    r := SessionOpens();
    r := Extend(r, Spawn(1, Want(Shutdown)));
    assert r.states[|r.actions|] == Expiring(0, map[7 := 0], Want(Shutdown), None, map[]);
    r := Extend(r, LockCache(1));
    assert r.states[|r.actions|] == Expiring(0, map[7 := 0], Have(Shutdown), Some(1), map[]);
    r := Extend(r, Body(1, 0));
  }

  /** A wait, for a lock or a timer, ends with a deadline or a cancellation, except the shielded eviction of a poisoned entry. */
  lemma WaitsCanEnd(s: State, t: TaskId)
    requires t in s.tasks && (s.tasks[t].pc.Want? || s.tasks[t].pc.WantEntry? || s.tasks[t].pc.Sleeping?)
    ensures Enabled(s, GiveUp(t)) <==> !(s.tasks[t].pc.Want? && s.tasks[t].pc.section.Evict?)
  {
  }
}
