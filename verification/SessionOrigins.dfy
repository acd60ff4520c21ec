/**
 Whose sessions the legacy protocol serves: over every run each entry is the one that some
 request opened, and whoever works on an entry for a request is entitled to it.
 */
module SessionOrigins {
  import opened Common
  import opened SessionPool
  import opened SessionProtocol
  import opened SessionInvariants
  import opened SessionSafety

  // ----- Entitlement -----

  /** The entry a task works on, whatever for. */
  function Touches(pc: Pc): Option<EntryId> {
    match pc
    case Want(sec) => SectionTouches(sec)
    case Have(sec) => SectionTouches(sec)
    case Opening(_, _) => None
    case Responding(e) => Some(e)
    case WantEntry(e, _) => Some(e)
    case Ready(e) => Some(e)
    case Operating(e) => Some(e)
    case Closing(e) => Some(e)
    case Sleeping(e) => Some(e)
    case Done => None
  }

  function SectionTouches(sec: Section): Option<EntryId> {
    match sec
    case Recheck(e) => Some(e)
    case Evict(e) => Some(e)
    case CloseRecheck(e) => Some(e)
    case Discard(e) => Some(e)
    case Expire(e) => Some(e)
    case _ => None
  }

  /** The request names the entry's handle and is its caller's, for its target where the request has one. */
  predicate Entitled(r: Request, e: Entry) {
    match r
    case Fresh(caller, target, _) => e.caller == caller && e.target == target
    case Cached(handle, caller, target) => e.handle == handle && e.caller == caller && e.target == target
    case Close(handle, caller) => e.handle == handle && e.caller == caller
    case Background => true
  }

  ghost predicate EveryoneEntitled(s: State) {
    forall t, e :: t in s.tasks && Touches(s.tasks[t].pc) == Some(e) ==>
      e < |s.pool.entries| && Entitled(s.tasks[t].request, s.pool.entries[e])
  }

  /** What a task does before its session is stored: it has a request to open one. */
  predicate Opener(pc: Pc) {
    match pc
    case Want(sec) => sec.Prune? || sec.Reserve? || sec.Store?
    case Have(sec) => sec.Prune? || sec.Reserve? || sec.Store?
    case Opening(_, _) => true
    case _ => false
  }

  ghost predicate OpenersAreFresh(s: State) {
    forall t <- s.tasks :: Opener(s.tasks[t].pc) ==> s.tasks[t].request.Fresh?
  }

  /** Entries are only added, one at a time, by the section that stores a session. */
  predicate Grows(s: State, s': State, a: Action) {
    || s'.pool.entries == s.pool.entries
    || (a.Body? && a.task in s.tasks && s.tasks[a.task].pc.Have? && s.tasks[a.task].pc.section.Store?
        && s.tasks[a.task].request.Fresh?
        && var r := s.tasks[a.task].request;
        s'.pool.entries == s.pool.entries + [Entry(a.handle, r.caller, r.target, s.tasks[a.task].pc.section.expiresAt)])
  }

  lemma StepGrows(s: State, a: Action)
    requires OpenersAreFresh(s) && Enabled(s, a)
    ensures Grows(s, Apply(s, a), a)
  {
    if a.Body? {
      assert Opener(s.tasks[a.task].pc) ==> s.tasks[a.task].request.Fresh?;
    }
  }

  lemma OpenersKept(s: State, a: Action)
    requires OpenersAreFresh(s) && Enabled(s, a)
    ensures OpenersAreFresh(Apply(s, a))
  {
    hide Pruned, Reserved, Stored, Found, Rechecked, Evicted, Discarded, ExpiredNow, ReservationReleased;
  }

  /** Requests stay what they were when they arrived. */
  lemma RequestsStay(s: State, a: Action, t: TaskId)
    requires Enabled(s, a) && t in Apply(s, a).tasks
    ensures t in s.tasks ==> Apply(s, a).tasks[t].request == s.tasks[t].request
    ensures t !in s.tasks ==> a == Arrive(t, Apply(s, a).tasks[t].request) || Apply(s, a).tasks[t].request.Background?
  {
    hide RunSection;
  }

  /** What a section leads its task to, it finds or stores for the task's own request. */
  lemma SectionEntitles(s: State, t: TaskId, sec: Section, h: Handle)
    requires PoolSound(s) && EveryoneEntitled(s) && OpenersAreFresh(s) && t in s.tasks && s.tasks[t].pc == Have(sec)
    ensures
      var (q, pc, _) := RunSection(s, t, sec, h);
      forall e :: Touches(pc) == Some(e) ==> e < |q.entries| && Entitled(s.tasks[t].request, q.entries[e])
  {
    hide Pruned, Reserved, ReservationReleased;
    assert sec.Store? ==> Opener(s.tasks[t].pc) && s.tasks[t].request.Fresh?;
    assert forall e :: Touches(s.tasks[t].pc) == Some(e) ==>
        e < |s.pool.entries| && Entitled(s.tasks[t].request, s.pool.entries[e]);
  }

  lemma EntitlementKept(s: State, a: Action)
    requires PoolSound(s) && EveryoneEntitled(s) && OpenersAreFresh(s) && Enabled(s, a)
    ensures EveryoneEntitled(Apply(s, a))
  {
    StepGrows(s, a);
    var s' := Apply(s, a);
    forall t, e | t in s'.tasks && Touches(s'.tasks[t].pc) == Some(e)
      ensures e < |s'.pool.entries| && Entitled(s'.tasks[t].request, s'.pool.entries[e])
    {
      if a.Body? && t == a.task {
        SectionEntitles(s, t, s.tasks[t].pc.section, a.handle);
      } else {
        OthersTouch(s, a, t, e);
      }
    }
  }

  lemma OthersTouch(s: State, a: Action, t: TaskId, e: EntryId)
    requires EveryoneEntitled(s) && Enabled(s, a) && !(a.Body? && t == a.task)
    requires t in Apply(s, a).tasks && Touches(Apply(s, a).tasks[t].pc) == Some(e)
    ensures e < |s.pool.entries| && Entitled(Apply(s, a).tasks[t].request, s.pool.entries[e])
  {
    hide RunSection;
    if t in s.tasks {
      assert Touches(s.tasks[t].pc) == Some(e);
    }
  }

  lemma {:induction false} EntitledHolds(r: Run, i: nat)
    requires IsRun(r) && i < |r.states|
    ensures EveryoneEntitled(r.states[i]) && OpenersAreFresh(r.states[i])
  {
    if i > 0 {
      EntitledHolds(r, i - 1);
      InvHolds(r, i - 1);
      assert r.states[i - 1 + 1] == Apply(r.states[i - 1], r.actions[i - 1]);
      hide Apply, Enabled, EveryoneEntitled, OpenersAreFresh;
      EntitlementKept(r.states[i - 1], r.actions[i - 1]);
      OpenersKept(r.states[i - 1], r.actions[i - 1]);
    }
  }

  // ----- Where an entry comes from -----

  /** Step `j` stores entry `e` for the request of task `t`. */
  predicate StoredBy(r: Run, j: nat, t: TaskId, e: EntryId)
    requires IsRun(r)
  {
    && j < |r.actions| && r.actions[j].Body? && r.actions[j].task == t
    && t in r.states[j].tasks && r.states[j].tasks[t].pc.Have? && r.states[j].tasks[t].pc.section.Store?
    && e == |r.states[j].pool.entries|
  }

  /** Every entry was stored by an earlier step of a request to open a session, under that step's random token, with
      the request's caller and target and the deadline fixed at its opening, and has not changed since. */
  lemma {:induction false} EveryEntryWasStored(r: Run, i: nat, e: EntryId) returns (j: nat, t: TaskId)
    requires IsRun(r) && i < |r.states| && e < |r.states[i].pool.entries|
    ensures j < i && StoredBy(r, j, t, e) && r.states[j].tasks[t].request.Fresh?
    ensures
      var opener := r.states[j].tasks[t].request;
      r.states[i].pool.entries[e] ==
        Entry(r.actions[j].handle, opener.caller, opener.target, r.states[j].tasks[t].pc.section.expiresAt)
  {
    assert Initial(r.states[0]);
    EntitledHolds(r, i - 1);
    assert r.states[i - 1 + 1] == Apply(r.states[i - 1], r.actions[i - 1]);
    StepGrows(r.states[i - 1], r.actions[i - 1]);
    hide Apply, Enabled;
    if e < |r.states[i - 1].pool.entries| {
      j, t := EveryEntryWasStored(r, i - 1, e);
    } else {
      j, t := i - 1, r.actions[i - 1].task;
    }
  }

  /** A task's request is the one that arrived. */
  lemma {:induction false} RequestArrived(r: Run, i: nat, t: TaskId) returns (k: nat)
    requires IsRun(r) && i < |r.states| && t in r.states[i].tasks && !r.states[i].tasks[t].request.Background?
    ensures k < i && r.actions[k] == Arrive(t, r.states[i].tasks[t].request)
  {
    assert Initial(r.states[0]);
    assert r.states[i - 1 + 1] == Apply(r.states[i - 1], r.actions[i - 1]);
    RequestsStay(r.states[i - 1], r.actions[i - 1], t);
    hide Apply, Enabled;
    if t in r.states[i - 1].tasks {
      k := RequestArrived(r, i - 1, t);
    } else {
      k := i - 1;
    }
  }

  /** The deadline a session is opened with. */
  function OpenedUntil(pc: Pc): Option<int> {
    match pc
    case Opening(_, x) => Some(x)
    case Want(sec) => if sec.Store? then Some(sec.expiresAt) else None
    case Have(sec) => if sec.Store? then Some(sec.expiresAt) else None
    case _ => None
  }

  lemma DeadlineIsFixed(s: State, a: Action, t: TaskId)
    requires Enabled(s, a) && t in Apply(s, a).tasks && OpenedUntil(Apply(s, a).tasks[t].pc).Some?
    ensures t in s.tasks
    ensures OpenedUntil(Apply(s, a).tasks[t].pc) == OpenedUntil(s.tasks[t].pc)
            || (a.Body? && a.task == t && OpenedUntil(Apply(s, a).tasks[t].pc) == Some(s.now + s.ttl))
  {
    hide Pruned, Reserved, Stored, Found, Rechecked, Evicted, Discarded, ExpiredNow, ReservationReleased;
  }

  lemma {:induction false} DeadlineIsOneLifetime(r: Run, i: nat, t: TaskId) returns (k: nat)
    requires IsRun(r) && i < |r.states| && t in r.states[i].tasks && OpenedUntil(r.states[i].tasks[t].pc).Some?
    ensures k < i && r.actions[k].Body? && r.actions[k].task == t
    ensures OpenedUntil(r.states[i].tasks[t].pc) == Some(r.states[k].now + r.states[k].ttl)
  {
    assert Initial(r.states[0]);
    assert r.states[i - 1 + 1] == Apply(r.states[i - 1], r.actions[i - 1]);
    DeadlineIsFixed(r.states[i - 1], r.actions[i - 1], t);
    hide Apply, Enabled;
    if OpenedUntil(r.states[i].tasks[t].pc) == OpenedUntil(r.states[i - 1].tasks[t].pc) {
      k := DeadlineIsOneLifetime(r, i - 1, t);
    } else {
      k := i - 1;
    }
  }

  // ----- From the opening to the operation -----

  /**
   Whenever a run dispatches a cached operation, or closes a session for a caller, the session is the one
   stored under the handle that the request names; it was opened by an earlier request of the same caller, and an operation
   is for the target of that request; and it lives for one lifetime from that opening on.
   */
  lemma UsedByItsOpener(r: Run, i: nat, t: TaskId, e: EntryId) returns (arrived: nat, started: nat, stored: nat, u: TaskId)
    requires IsRun(r) && i < |r.states| && t in r.states[i].tasks && Touches(r.states[i].tasks[t].pc) == Some(e)
    ensures arrived < i && started < stored < i && StoredBy(r, stored, u, e) && e < |r.states[i].pool.entries|
    ensures r.actions[arrived].Arrive? && r.actions[arrived].task == u && r.actions[arrived].request.Fresh?
    ensures r.states[i].pool.entries[e].expiresAt == r.states[started].now + r.states[started].ttl
    ensures
      var opener := r.actions[arrived].request;
      match r.states[i].tasks[t].request
      case Cached(handle, caller, target) =>
        r.actions[stored].handle == handle && opener.caller == caller && opener.target == target
      case Close(handle, caller) => r.actions[stored].handle == handle && opener.caller == caller
      case Fresh(caller, target, _) => opener.caller == caller && opener.target == target
      case Background => true
  {
    EntitledHolds(r, i);
    assert e < |r.states[i].pool.entries| && Entitled(r.states[i].tasks[t].request, r.states[i].pool.entries[e]);
    hide EveryoneEntitled, OpenersAreFresh, Apply, Enabled, IsRun;
    stored, u := EveryEntryWasStored(r, i, e);
    arrived := RequestArrived(r, stored, u);
    started := DeadlineIsOneLifetime(r, stored, u);
  }
}
