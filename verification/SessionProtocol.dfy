/**
 The legacy session protocol as a state machine over the steps between awaits. Any
 number of requests and background tasks interleave under an arbitrary scheduler;
 remote servers, timeouts and cancellations are free choices, and the clock never
 goes back. Each critical section takes the cache lock in one step and runs its
 body, which has no await inside, in another.
 */
module SessionProtocol {
  import opened Common
  import opened SessionPool

  type TaskId = nat

  datatype Request =
    | Fresh(caller: nat, target: nat, legacy: bool)
    | Cached(handle: Handle, caller: nat, target: nat)
    | Close(handle: Handle, caller: nat)
    | Background

  /** What a task does in a section guarded by the cache lock. */
  datatype Section =
    | Prune(asOf: int)
    | Reserve
    | Store(reserved: bool, expiresAt: int)
    | Release
    | Find(asOf: int)
    | Recheck(id: EntryId)
    | Evict(id: EntryId)
    | CloseFind
    | CloseRecheck(id: EntryId)
    | Discard(id: EntryId)
    | Expire(id: EntryId)
    | Shutdown

  datatype Use = Operate | CloseIt | ShutDown

  datatype Pc =
    | Want(section: Section)          // waiting for the cache lock
    | Have(section: Section)          // holding it
    | Opening(reserved: bool, expiresAt: int)  // handshake and first operation
    | Responding(id: EntryId)         // stored; the response is being sized
    | WantEntry(id: EntryId, use: Use)
    | Ready(id: EntryId)              // both checks passed, command not yet queued
    | Operating(id: EntryId)          // dispatched to the owner
    | Closing(id: EntryId)            // closing the owner under the entry lock
    | Sleeping(id: EntryId)           // expiry timer
    | Done

  datatype Task = Task(request: Request, pc: Pc)

  datatype State = State(
    pool: Pool,
    now: int,
    ttl: nat,
    tasks: map<TaskId, Task>,
    cacheLock: Option<TaskId>,
    entryLocks: map<EntryId, TaskId>,
    poisoned: set<EntryId>,           // entries on which an operation ended poisoned
    leaked: nat)                      // reservations whose release was cancelled

  /** What the remote side and the SDK make of a handshake and first operation. */
  datatype Opened = Failed | Modern | Legacy

  datatype Action =
    | Arrive(task: TaskId, request: Request)
    | Spawn(task: TaskId, pc: Pc)     // background closers, expiry timers, shutdown
    | LockCache(task: TaskId)
    | Body(task: TaskId, handle: Handle)  // `handle` is the random token of a store
    | LockEntry(task: TaskId)
    | GiveUp(task: TaskId)            // deadline or cancellation at an await
    | FinishOpening(task: TaskId, result: Opened)
    | Respond(task: TaskId, fits: bool)
    | Dispatch(task: TaskId)
    | EndOperation(task: TaskId, poisons: bool)
    | EndClose(task: TaskId)
    | Wake(task: TaskId)
    | Tick(delta: nat)

  // ----- Locks and reservations -----

  /** The entry whose lock a section runs under. */
  function SectionEntry(sec: Section): Option<EntryId> {
    match sec
    case Recheck(e) => Some(e)
    case Evict(e) => Some(e)
    case CloseRecheck(e) => Some(e)
    case _ => None
  }

  function HeldEntry(pc: Pc): Option<EntryId> {
    match pc
    case Want(sec) => SectionEntry(sec)
    case Have(sec) => SectionEntry(sec)
    case Ready(e) => Some(e)
    case Operating(e) => Some(e)
    case Closing(e) => Some(e)
    case _ => None
  }

  /** Does this program counter own a slot reserved in `_pending_legacy_sessions`? */
  predicate Reserving(pc: Pc) {
    match pc
    case Opening(reserved, _) => reserved
    case Want(sec) => sec.Release? || (sec.Store? && sec.reserved)
    case Have(sec) => sec.Release? || (sec.Store? && sec.reserved)
    case _ => false
  }

  // ----- Steps -----

  function Move(s: State, t: TaskId, pc: Pc): State
    requires t in s.tasks
  {
    s.(tasks := s.tasks[t := s.tasks[t].(pc := pc)])
  }

  /** Moves a task and gives up the entry lock it holds. */
  function Leave(s: State, t: TaskId, pc: Pc, e: EntryId): State
    requires t in s.tasks
  {
    Move(s, t, pc).(entryLocks := s.entryLocks - {e})
  }

  /** May a background task start at this program counter? */
  predicate Spawnable(s: State, pc: Pc) {
    match pc
    case WantEntry(e, use) => use.ShutDown? && e < |s.pool.entries| && !Pooled(s.pool, e)
    case Sleeping(e) => e < |s.pool.entries|
    case Want(sec) => sec.Shutdown?
    case _ => false
  }

  predicate MayGiveUp(pc: Pc) {
    match pc
    case Want(sec) => !sec.Evict?     // the eviction of a poisoned entry is shielded
    case WantEntry(_, _) => true
    case Sleeping(_) => true
    case _ => false
  }

  predicate Enabled(s: State, a: Action) {
    match a
    case Arrive(t, r) => t !in s.tasks && !r.Background?
    case Spawn(t, pc) => t !in s.tasks && Spawnable(s, pc)
    case LockCache(t) => s.cacheLock == None && t in s.tasks && s.tasks[t].pc.Want?
    case Body(t, h) => t in s.tasks && s.tasks[t].pc.Have? && h !in s.pool.sessions
    case LockEntry(t) => t in s.tasks && s.tasks[t].pc.WantEntry? && s.tasks[t].pc.id !in s.entryLocks
    case GiveUp(t) => t in s.tasks && MayGiveUp(s.tasks[t].pc)
    case FinishOpening(t, _) => t in s.tasks && s.tasks[t].pc.Opening?
    case Respond(t, _) => t in s.tasks && s.tasks[t].pc.Responding?
    case Dispatch(t) => t in s.tasks && s.tasks[t].pc.Ready?
    case EndOperation(t, _) => t in s.tasks && (s.tasks[t].pc.Operating? || s.tasks[t].pc.Ready?)
    case EndClose(t) => t in s.tasks && s.tasks[t].pc.Closing?
    case Wake(t) => t in s.tasks && s.tasks[t].pc.Sleeping?
    case Tick(_) => true
  }

  function Start(s: State, r: Request): Pc {
    match r
    case Fresh(_, _, _) => Want(Prune(s.now))
    case Cached(_, _, _) => Want(Find(s.now))
    case Close(_, _) => Want(CloseFind)
    case Background => Done
  }

  /** The body of a critical section: new pool, next program counter, and whether the
      entry lock is given up. */
  function RunSection(s: State, t: TaskId, sec: Section, h: Handle): (Pool, Pc, bool)
    requires t in s.tasks
  {
    var p, r := s.pool, s.tasks[t].request;
    match sec
    case Prune(asOf) =>
      (Pruned(p, asOf), if r.Fresh? && r.legacy then Want(Reserve) else Opening(false, s.now + s.ttl), false)
    case Reserve =>
      (match Reserved(p)
       case Ok(q) => (q, Opening(true, s.now + s.ttl), false)
       case Err(_) => (p, Done, false))
    case Store(reserved, expiresAt) =>
      var entry := if r.Fresh? then Entry(h, r.caller, r.target, expiresAt) else Entry(h, 0, 0, expiresAt);
      (match Stored(p, reserved, entry)
       case Ok(q) => (q, Responding(|p.entries|), false)
       case Err(_) => (p, if reserved then Want(Release) else Done, false))
    case Release => (ReservationReleased(p), Done, false)
    case Find(asOf) =>
      if !r.Cached? then (p, Done, false)
      else
        var (q, found) := Found(p, r.handle, r.caller, r.target, asOf);
        (q, if found.Ok? then WantEntry(found.value, Operate) else Done, false)
    case Recheck(e) =>
      var (q, refused) := Rechecked(p, e, s.now);
      if refused.None? then (q, Ready(e), false) else (q, Done, true)
    case Evict(e) => (Evicted(p, e), Done, true)
    case CloseFind =>
      if r.Close? && r.handle in p.sessions && p.sessions[r.handle] < |p.entries|
        && p.entries[p.sessions[r.handle]].caller == r.caller
      then (p, WantEntry(p.sessions[r.handle], CloseIt), false)
      else (p, Done, false)
    case CloseRecheck(e) =>
      if Pooled(p, e) then (Evicted(p, e), Closing(e), false) else (p, Done, true)
    case Discard(e) => (Discarded(p, e), WantEntry(e, ShutDown), false)
    case Expire(e) =>
      var (q, due) := ExpiredNow(p, e, s.now);
      (q, if due then WantEntry(e, ShutDown) else Done, false)
    case Shutdown => (p.(sessions := map[]), Done, false)
  }

  function AfterBody(s: State, t: TaskId, sec: Section, h: Handle): State
    requires t in s.tasks
  {
    var (q, pc, leaves) := RunSection(s, t, sec, h);
    var moved := Move(s, t, pc).(pool := q, cacheLock := None);
    if leaves && SectionEntry(sec).Some?
    then moved.(entryLocks := s.entryLocks - {SectionEntry(sec).value})
    else moved
  }

  function AfterGivingUp(s: State, t: TaskId): State
    requires t in s.tasks && MayGiveUp(s.tasks[t].pc)
  {
    match s.tasks[t].pc
    case Want(Store(reserved, _)) => Move(s, t, if reserved then Want(Release) else Done)
    case Want(Release) => Move(s, t, Done).(leaked := s.leaked + 1)
    case Want(Recheck(e)) => Leave(s, t, Done, e)
    case Want(CloseRecheck(e)) => Leave(s, t, Done, e)
    case _ => Move(s, t, Done)
  }

  function AfterLock(use: Use, e: EntryId): Pc {
    match use
    case Operate => Want(Recheck(e))
    case CloseIt => Want(CloseRecheck(e))
    case ShutDown => Closing(e)
  }

  function Apply(s: State, a: Action): State
    requires Enabled(s, a)
  {
    match a
    case Arrive(t, r) => s.(tasks := s.tasks[t := Task(r, Start(s, r))])
    case Spawn(t, pc) => s.(tasks := s.tasks[t := Task(Background, pc)])
    case LockCache(t) => Move(s, t, Have(s.tasks[t].pc.section)).(cacheLock := Some(t))
    case Body(t, h) => AfterBody(s, t, s.tasks[t].pc.section, h)
    case LockEntry(t) =>
      var e := s.tasks[t].pc.id;
      Move(s, t, AfterLock(s.tasks[t].pc.use, e)).(entryLocks := s.entryLocks[e := t])
    case GiveUp(t) => AfterGivingUp(s, t)
    case FinishOpening(t, result) =>
      var Opening(reserved, expiresAt) := s.tasks[t].pc;
      Move(s, t, if result.Legacy? then Want(Store(reserved, expiresAt))
                 else if reserved then Want(Release) else Done)
    case Respond(t, fits) =>
      Move(s, t, if fits then Done else Want(Discard(s.tasks[t].pc.id)))
    case Dispatch(t) => Move(s, t, Operating(s.tasks[t].pc.id))
    case EndOperation(t, poisons) =>
      var e := s.tasks[t].pc.id;
      if poisons then Move(s, t, Want(Evict(e))).(poisoned := s.poisoned + {e})
      else Leave(s, t, Done, e)
    case EndClose(t) => Leave(s, t, Done, s.tasks[t].pc.id)
    case Wake(t) => Move(s, t, Want(Expire(s.tasks[t].pc.id)))
    case Tick(delta) => s.(now := s.now + delta)
  }

  predicate Initial(s: State) {
    && s.pool.entries == [] && s.pool.sessions == map[] && s.pool.pending == 0
    && s.tasks == map[] && s.cacheLock == None && s.entryLocks == map[] && s.poisoned == {} && s.leaked == 0
  }

  /** A run: states, and the actions between them. */
  datatype Run = Run(states: seq<State>, actions: seq<Action>)

  predicate IsRun(r: Run) {
    && |r.states| == |r.actions| + 1
    && Initial(r.states[0])
    && forall i :: 0 <= i < |r.actions| ==>
      Enabled(r.states[i], r.actions[i]) && r.states[i + 1] == Apply(r.states[i], r.actions[i])
  }

  // ----- Invariants -----

  /** The cache lock belongs to the one task inside a critical section. */
  ghost predicate CacheLockHeld(s: State) {
    forall t :: (t in s.tasks && s.tasks[t].pc.Have?) <==> s.cacheLock == Some(t)
  }

  /** An entry lock belongs to the one task that works on the entry. */
  ghost predicate EntryLocksHeld(s: State) {
    && (forall t, e :: t in s.tasks && HeldEntry(s.tasks[t].pc) == Some(e) ==>
          e in s.entryLocks && s.entryLocks[e] == t)
    && (forall e <- s.entryLocks ::
          s.entryLocks[e] in s.tasks && HeldEntry(s.tasks[s.entryLocks[e]].pc) == Some(e))
  }

  ghost function Reservers(s: State): set<TaskId> {
    set t | t in s.tasks && Reserving(s.tasks[t].pc)
  }

  /** Pending reservations are exactly the tasks that still own one and the leaked ones, and the
      pool is within its bound. */
  ghost predicate SlotsAccounted(s: State) {
    && s.pool.pending == |Reservers(s)| + s.leaked
    && |s.pool.sessions| + s.pool.pending <= s.pool.max
  }

  /** A handle in the pool names an entry that was stored under it. */
  predicate PoolSound(s: State) {
    forall h <- s.pool.sessions ::
      s.pool.sessions[h] < |s.pool.entries| && s.pool.entries[s.pool.sessions[h]].handle == h
  }

  /** A task on its way to an operation carries the entry's caller and target. */
  predicate Authorized(s: State, t: TaskId, e: EntryId)
    requires t in s.tasks
  {
    var r := s.tasks[t].request;
    e < |s.pool.entries| && r.Cached?
      && s.pool.entries[e].caller == r.caller && s.pool.entries[e].target == r.target
  }

  function OperatesOn(pc: Pc): Option<EntryId> {
    match pc
    case WantEntry(e, use) => if use.Operate? then Some(e) else None
    case Want(sec) => if sec.Recheck? then Some(sec.id) else None
    case Have(sec) => if sec.Recheck? then Some(sec.id) else None
    case Ready(e) => Some(e)
    case Operating(e) => Some(e)
    case _ => None
  }

  ghost predicate OperationsAuthorized(s: State) {
    forall t, e :: t in s.tasks && OperatesOn(s.tasks[t].pc) == Some(e) ==> Authorized(s, t, e)
  }

  predicate Evicting(s: State, e: EntryId) {
    && e in s.entryLocks && s.entryLocks[e] in s.tasks
    && (s.tasks[s.entryLocks[e]].pc == Want(Evict(e)) || s.tasks[s.entryLocks[e]].pc == Have(Evict(e)))
  }

  /** A poisoned entry is out of the pool, or still locked by whoever evicts it;
      either way no task is ready to dispatch on it. */
  ghost predicate PoisonContained(s: State) {
    && (forall e <- s.poisoned :: e < |s.pool.entries| && (!Pooled(s.pool, e) || Evicting(s, e)))
    && (forall t :: t in s.tasks && s.tasks[t].pc.Ready? ==> s.tasks[t].pc.id !in s.poisoned)
  }

  ghost predicate Inv(s: State) {
    && CacheLockHeld(s) && EntryLocksHeld(s) && SlotsAccounted(s)
    && PoolSound(s) && OperationsAuthorized(s) && PoisonContained(s)
  }
}
