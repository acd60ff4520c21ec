/**
 What a cancelled release costs. Giving a reservation back waits for the cache lock and is not shielded, so a
 cancellation can reach the request there; the slot it had reserved then stays taken for as long as the process
 lives. Counted over a run, and shown by a run of one request that leaves an idle pool without room.
 */
module SessionLeaks {
  import opened Common
  import opened SessionPool
  import opened SessionProtocol

  /** The releases of a reservation that were cancelled among the first `i` steps of a run. */
  function CancelledReleases(r: Run, i: nat): nat
    requires IsRun(r) && i <= |r.actions|
  {
    if i == 0 then 0
    else
      var s, a := r.states[i - 1], r.actions[i - 1];
      CancelledReleases(r, i - 1) + if a.GiveUp? && s.tasks[a.task].pc == Want(Release) then 1 else 0
  }

  lemma {:induction false} LeaksAreCancelledReleases(r: Run, i: nat)
    requires IsRun(r) && i < |r.states|
    ensures r.states[i].leaked == CancelledReleases(r, i)
  {
    if i > 0 {
      LeaksAreCancelledReleases(r, i - 1);
      assert r.states[i - 1 + 1] == Apply(r.states[i - 1], r.actions[i - 1]);
    }
  }

  // ----- A cancelled release -----

  lemma Extend(r: Run, a: Action) returns (longer: Run)
    requires IsRun(r) && Enabled(r.states[|r.actions|], a)
    ensures IsRun(longer) && |longer.actions| == |r.actions| + 1
    ensures longer.states[|longer.actions|] == Apply(r.states[|r.actions|], a)
  {
    hide Enabled, Apply, Initial;
    longer := Run(r.states + [Apply(r.states[|r.actions|], a)], r.actions + [a]);
    var n := |r.actions|;
    forall i | 0 <= i < |longer.actions|
      ensures Enabled(longer.states[i], longer.actions[i])
      ensures longer.states[i + 1] == Apply(longer.states[i], longer.actions[i])
    {
      if i < n {
        assert longer.states[i] == r.states[i] && longer.states[i + 1] == r.states[i + 1];
      }
    }
  }

  const LONE: Request := Fresh(1, 1, true)

  /** One request alone in a pool of one slot. */
  function Alone(pending: nat, pc: Pc, lock: Option<TaskId>, leaked: nat): State {
    State(Pool(1, [], map[], pending), 0, 60, map[0 := Task(LONE, pc)], lock, map[], {}, leaked)
  }

  lemma AloneReserves() returns (r: Run)
    ensures IsRun(r) && r.states[|r.actions|] == Alone(1, Opening(true, 60), None, 0)
  {
    r := Run([State(Pool(1, [], map[], 0), 0, 60, map[], None, map[], {}, 0)], []);
    r := Extend(r, Arrive(0, LONE));
    assert r.states[|r.actions|] == Alone(0, Want(Prune(0)), None, 0);
    r := Extend(r, LockCache(0));
    assert r.states[|r.actions|] == Alone(0, Have(Prune(0)), Some(0), 0);
    r := Extend(r, Body(0, 0));
    assert r.states[|r.actions|] == Alone(0, Want(Reserve), None, 0);
    r := Extend(r, LockCache(0));
    assert r.states[|r.actions|] == Alone(0, Have(Reserve), Some(0), 0);
    r := Extend(r, Body(0, 0));
  }

  /** A run that ends with nothing going on and the only slot still reserved. */
  lemma CancelledReleaseLeaks() returns (r: Run)
    ensures IsRun(r) && r.states[|r.actions|] == Alone(1, Done, None, 1)
    ensures Reserved(r.states[|r.actions|].pool) == Err(AtCapacity)
  {
    r := AloneReserves();
    r := Extend(r, FinishOpening(0, Failed));
    assert r.states[|r.actions|] == Alone(1, Want(Release), None, 0);
    r := Extend(r, GiveUp(0));
  }
}
