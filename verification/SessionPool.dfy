/**
 The gateway's bounded pool of legacy MCP sessions: the fields that
 `McpGatewayService` updates under its cache lock, and the bodies of the critical
 sections, each of which runs without an await.
 */
module SessionPool {
  import opened Common

  type Handle = nat
  type EntryId = nat

  /** Immutable part of `_LegacySession`. Caller binding and target digest are compared
      for equality only, so the digests are taken as injective identifiers. */
  datatype Entry = Entry(handle: Handle, caller: nat, target: nat, expiresAt: int)

  datatype Pool = Pool(
    max: nat,
    entries: seq<Entry>,
    sessions: map<Handle, EntryId>,
    pending: nat)

  datatype Refusal = AtCapacity | Missing | WrongCaller | WrongTarget | Expired | TooLarge

  predicate Pooled(p: Pool, e: EntryId) {
    e < |p.entries| && p.entries[e].handle in p.sessions && p.sessions[p.entries[e].handle] == e
  }

  function Drop(p: Pool, h: Handle): Pool {
    p.(sessions := p.sessions - {h})
  }

  // ----- The critical sections -----

  function Reserved(p: Pool): Result<Pool, Refusal> {
    if |p.sessions| + p.pending >= p.max then Err(AtCapacity)
    else Ok(p.(pending := p.pending + 1))
  }

  function ReservationReleased(p: Pool): Pool {
    if p.pending > 0 then p.(pending := p.pending - 1) else p
  }

  function Stored(p: Pool, reserved: bool, e: Entry): Result<Pool, Refusal> {
    if !reserved || p.pending <= 0 then Err(AtCapacity)
    else Ok(p.(
      pending := p.pending - 1,
      entries := p.entries + [e],
      sessions := p.sessions[e.handle := |p.entries|]))
  }

  predicate Live(p: Pool, h: Handle, now: int)
    requires h in p.sessions
  {
    p.sessions[h] < |p.entries| && p.entries[p.sessions[h]].expiresAt > now
  }

  function Pruned(p: Pool, now: int): Pool {
    p.(sessions := map h | h in p.sessions && Live(p, h, now) :: p.sessions[h])
  }

  /** First look-up of a cached operation. An expired entry is dropped as well. */
  function Found(p: Pool, h: Handle, caller: nat, target: nat, now: int): (Pool, Result<EntryId, Refusal>) {
    if h !in p.sessions || p.sessions[h] >= |p.entries| then (p, Err(Missing))
    else
      var e := p.sessions[h];
      if p.entries[e].caller != caller then (p, Err(WrongCaller))
      else if p.entries[e].target != target then (p, Err(WrongTarget))
      else if p.entries[e].expiresAt <= now then (Drop(p, h), Err(Expired))
      else (p, Ok(e))
  }

  /** Second look, with the entry's own lock held as well. */
  function Rechecked(p: Pool, e: EntryId, now: int): (Pool, Option<Refusal>) {
    if !Pooled(p, e) then (p, Some(Missing))
    else if p.entries[e].expiresAt <= now then (Drop(p, p.entries[e].handle), Some(Expired))
    else (p, None)
  }

  /** Removal of an entry only while its handle still names it. */
  function Evicted(p: Pool, e: EntryId): Pool {
    if Pooled(p, e) then Drop(p, p.entries[e].handle) else p
  }

  /** Removal by handle alone, as `_remove_and_close` does it. */
  function Discarded(p: Pool, e: EntryId): Pool {
    if e < |p.entries| then Drop(p, p.entries[e].handle) else p
  }

  function ExpiredNow(p: Pool, e: EntryId, now: int): (Pool, bool) {
    if Pooled(p, e) && p.entries[e].expiresAt <= now then (Drop(p, p.entries[e].handle), true)
    else (p, false)
  }

  /** The bound, and each handle naming the entry stored under it. */
  predicate SoundPool(p: Pool) {
    && |p.sessions| + p.pending <= p.max
    && forall h <- p.sessions :: p.sessions[h] < |p.entries| && p.entries[p.sessions[h]].handle == h
  }

  /** Slots neither pooled nor reserved. */
  function RoomOf(p: Pool): int { p.max - |p.sessions| - p.pending }

  /** The handle names a live session of this caller for this target. */
  predicate Owned(p: Pool, h: Handle, caller: nat, target: nat, now: int)
    requires SoundPool(p)
  {
    && h in p.sessions
    && var e := p.entries[p.sessions[h]]; e.caller == caller && e.target == target && e.expiresAt > now
  }

  // ----- The object -----

  class GatewaySessions {
    const max: nat
    var entries: seq<Entry>
    var sessions: map<Handle, EntryId>
    var pending: nat

    function View(): Pool
      reads this
    {
      Pool(max, entries, sessions, pending)
    }

    ghost predicate Sound()
      reads this
    {
      SoundPool(View())
    }

    function Room(): int
      reads this
    {
      RoomOf(View())
    }

    constructor (max: nat)
      ensures Sound() && View() == Pool(max, [], map[], 0)
    {
      this.max := max;
      entries, sessions, pending := [], map[], 0;
    }

    /** Takes a slot exactly when one is left. */
    method ReserveLegacySlot() returns (r: Result<(), Refusal>)
      requires Sound()
      modifies this`pending
      ensures Sound()
      ensures r == if old(Room()) > 0 then Ok(()) else Err(AtCapacity)
      ensures Room() == old(Room()) - (if r.Ok? then 1 else 0)
      ensures Reserved(old(View())) == if r.Ok? then Ok(View()) else Err(r.error)
    {
      if |sessions| + pending >= max {
        return Err(AtCapacity);
      }
      pending := pending + 1;
      return Ok(());
    }

    /** Gives back one slot, if any is reserved. */
    method ReleaseLegacyReservation()
      requires Sound()
      modifies this`pending
      ensures Sound()
      ensures Room() == old(Room()) + (if old(pending) > 0 then 1 else 0)
      ensures View() == ReservationReleased(old(View()))
    {
      if pending > 0 {
        pending := pending - 1;
      }
    }

    /** Turns a reservation into a session under a new handle: no other handle changes and no slot is won or lost. */
    method StoreLegacySession(reserved: bool, caller: nat, target: nat, expiresAt: int)
      returns (r: Result<(Handle, EntryId), Refusal>)
      requires Sound()
      modifies this
      ensures Sound()
      ensures Room() == old(Room())
      ensures r.Ok? <==> reserved && old(pending) > 0
      ensures r.Err? ==> r == Err(AtCapacity) && View() == old(View())
      ensures r.Ok? ==>
          var (h, id) := r.value;
          && h !in old(sessions) && sessions == old(sessions)[h := id]
          && id == |old(entries)| && entries == old(entries) + [Entry(h, caller, target, expiresAt)]
          && Stored(old(View()), reserved, Entry(h, caller, target, expiresAt)) == Ok(View())
          && forall now :: now < expiresAt ==> Owned(View(), h, caller, target, now)
    {
      if !reserved || pending <= 0 {
        return Err(AtCapacity);
      }
      pending := pending - 1;
      // a random token, drawn again while it is taken
      ghost var unused := FreshNat(sessions.Keys);
      var handle: Handle :| handle !in sessions;
      var id := |entries|;
      assert sessions[handle := id].Keys == sessions.Keys + {handle};
      entries := entries + [Entry(handle, caller, target, expiresAt)];
      sessions := sessions[handle := id];
      return Ok((handle, id));
    }

    /** Finds exactly a live session of this caller and target, and drops one of theirs that has expired. */
    method FindSession(handle: Handle, caller: nat, target: nat, now: int) returns (r: Result<EntryId, Refusal>)
      requires Sound()
      modifies this`sessions
      ensures Sound()
      ensures r.Ok? <==> Owned(old(View()), handle, caller, target, now)
      ensures r.Ok? ==> Pooled(View(), r.value) && entries[r.value].handle == handle
      ensures sessions == old(sessions) - (if r == Err(Expired) then {handle} else {})
      ensures r == Err(Missing) <==> handle !in old(sessions)
      ensures r == Err(WrongCaller) || r == Err(WrongTarget) ==> forall at :: !Owned(old(View()), handle, caller, target, at)
      ensures r == Err(Expired) ==>
          Owned(old(View()), handle, caller, target, entries[old(sessions)[handle]].expiresAt - 1)
          && entries[old(sessions)[handle]].expiresAt <= now
      ensures (View(), r) == Found(old(View()), handle, caller, target, now)
    {
      if handle !in sessions {
        return Err(Missing);
      }
      var id := sessions[handle];
      var entry := entries[id];
      if entry.caller != caller {
        return Err(WrongCaller);
      }
      if entry.target != target {
        return Err(WrongTarget);
      }
      if entry.expiresAt <= now {
        sessions := sessions - {handle};
        return Err(Expired);
      }
      return Ok(id);
    }

    /** Passes exactly an entry that is pooled and live; one that has expired is not pooled afterwards. */
    method RecheckSession(id: EntryId, now: int) returns (r: Option<Refusal>)
      requires Sound()
      modifies this`sessions
      ensures Sound()
      ensures r.None? <==> Pooled(old(View()), id) && entries[id].expiresAt > now
      ensures r.None? || r == Some(Missing) ==> View() == old(View())
      ensures r == Some(Expired) ==> Pooled(old(View()), id) && entries[id].expiresAt <= now && !Pooled(View(), id)
      ensures forall e :: e != id ==> (Pooled(View(), e) <==> Pooled(old(View()), e))
      ensures (View(), r) == Rechecked(old(View()), id, now)
    {
      if id >= |entries| || entries[id].handle !in sessions || sessions[entries[id].handle] != id {
        return Some(Missing);
      }
      if entries[id].expiresAt <= now {
        sessions := sessions - {entries[id].handle};
        return Some(Expired);
      }
      return None;
    }

    /** Takes one entry out of the pool and no other, and frees its slot if it was in. */
    method EvictSession(id: EntryId)
      requires Sound()
      modifies this`sessions
      ensures Sound()
      ensures !Pooled(View(), id) && forall e :: e != id ==> (Pooled(View(), e) <==> Pooled(old(View()), e))
      ensures Room() == old(Room()) + (if Pooled(old(View()), id) then 1 else 0)
      ensures View() == Evicted(old(View()), id)
    {
      if id < |entries| && entries[id].handle in sessions && sessions[entries[id].handle] == id {
        ghost var h := entries[id].handle;
        assert sessions.Keys == (sessions - {h}).Keys + {h};
        sessions := sessions - {entries[id].handle};
      }
    }

    /** Collects the expired entries, then pops them one by one: what stays pooled is what is live. */
    method PruneExpired(now: int)
      requires Sound()
      modifies this`sessions
      ensures Sound()
      ensures forall e: EntryId :: Pooled(View(), e) <==> Pooled(old(View()), e) && entries[e].expiresAt > now
      ensures View() == Pruned(old(View()), now)
    {
      var todo := sessions.Keys;
      while todo != {}
        invariant todo <= sessions.Keys <= old(sessions).Keys
        invariant |sessions| <= |old(sessions)|
        invariant forall h <- sessions.Keys :: sessions[h] == old(sessions)[h]
        invariant forall h <- old(sessions).Keys - todo :: h in sessions <==> Live(old(View()), h, now)
        decreases |todo|
      {
        var h :| h in todo;
        todo := todo - {h};
        if entries[sessions[h]].expiresAt <= now {
          assert sessions.Keys == (sessions - {h}).Keys + {h};
          sessions := sessions - {h};
        }
      }
    }

    /** Takes out whatever is pooled under the entry's handle. */
    method RemoveSession(id: EntryId)
      requires Sound() && id < |entries|
      modifies this`sessions
      ensures Sound()
      ensures sessions == old(sessions) - {entries[id].handle} && !Pooled(View(), id)
      ensures View() == Discarded(old(View()), id)
    {
      ghost var h := entries[id].handle;
      assert h in sessions ==> sessions.Keys == (sessions - {h}).Keys + {h};
      assert h !in sessions ==> sessions - {h} == sessions;
      sessions := sessions - {entries[id].handle};
    }

    /** A new session from end to end, when nothing interrupts it: it is pooled, under a handle of its own, exactly when it
        opens on a legacy protocol with a slot left and its first response fits; otherwise the pool is as it was. */
    method ExecuteNew(legacyAllowed: bool, opens: bool, legacy: bool, fits: bool, caller: nat, target: nat, expiresAt: int)
      returns (r: Result<Option<Handle>, Refusal>)
      requires Sound()
      modifies this
      ensures Sound() && pending == old(pending)
      ensures r.Ok? && r.value.Some? <==> legacyAllowed && opens && legacy && fits && old(Room()) > 0
      ensures r.Ok? && r.value.Some? ==>
          && r.value.value !in old(sessions) && sessions == old(sessions)[r.value.value := |old(entries)|]
          && forall now :: now < expiresAt ==> Owned(View(), r.value.value, caller, target, now)
      ensures !(r.Ok? && r.value.Some?) ==> sessions == old(sessions)
      ensures r == Err(AtCapacity) <==> (legacyAllowed && old(Room()) <= 0) || (!legacyAllowed && opens && legacy)
      ensures r == Err(TooLarge) <==> opens && !fits && (if legacyAllowed then old(Room()) > 0 else !legacy)
    {
      var reserved := legacyAllowed;
      if reserved {
        var slot := ReserveLegacySlot();
        if slot.Err? {
          return Err(slot.error);
        }
      }
      r := Ok(None);
      if opens && legacy {
        var stored := StoreLegacySession(reserved, caller, target, expiresAt);
        if stored.Ok? {
          if !fits {
            RemoveSession(stored.value.1);
            assert sessions == old(sessions);
            return Err(TooLarge);
          }
          return Ok(Some(stored.value.0));
        }
        r := Err(stored.error);
      } else if opens && !fits {
        r := Err(TooLarge);
      }
      if reserved {
        ReleaseLegacyReservation();
      }
    }

    /** Both checks of a cached operation, when nothing interrupts them. */
    method AcquireSession(handle: Handle, caller: nat, target: nat, now: int, later: int) returns (r: Result<EntryId, Refusal>)
      requires Sound() && now <= later
      modifies this`sessions
      ensures Sound()
      ensures r.Ok? <==> Owned(old(View()), handle, caller, target, later)
      ensures r.Ok? ==> Pooled(View(), r.value) && sessions == old(sessions)
    {
      r := FindSession(handle, caller, target, now);
      if r.Ok? {
        var refused := RecheckSession(r.value, later);
        if refused.Some? {
          r := Err(refused.value);
        }
      }
    }
  }
}
