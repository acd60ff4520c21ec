/**
 Combining the acquire functions of the runtime fences in one transaction: exactly when the combined
 lock list can deadlock beside transactions in the canonical order.
 */
module FenceComposition {
  import opened Common
  import opened RuntimeFences
  import opened FenceProtocol

  /** Running transactions with lock list `p` beside any canonical ones never yields a wait-for cycle. */
  ghost predicate SafeBesideCanonical(p: seq<Lock>) {
    forall r: Run, path: seq<TxId> {:trigger WaitChain(Last(r), path)} ::
      IsRun(r) && WaitChain(Last(r), path) && CanonicalBut(Last(r), p) ==> path[0] != path[|path| - 1]
  }

  /** Two transactions each wait for a lock that the other holds. */
  predicate Embrace(s: State, t: TxId, u: TxId) {
    && t in s.txs && u in s.txs && Waiting(s.txs[t]) && Waiting(s.txs[u])
    && HeldAgainst(s, t, u) && HeldAgainst(s, u, t)
  }

  ghost function Last(r: Run): State {
    if r.states == [] then State(map[], 0, map[]) else r.states[|r.states| - 1]
  }

  lemma Extend(r: Run, a: Action) returns (longer: Run)
    requires IsRun(r) && Enabled(Last(r), a)
    ensures IsRun(longer) && Last(longer) == Apply(Last(r), a) && longer.states == r.states + [Last(longer)]
  {
    longer := Run(r.states + [Apply(Last(r), a)], r.actions + [a]);
    var n := |r.actions|;
    forall i | 0 <= i < |longer.actions|
      ensures Enabled(longer.states[i], longer.actions[i])
      ensures longer.states[i + 1] == Apply(longer.states[i], longer.actions[i])
    {
      if i < n {
        assert longer.states[i] == r.states[i] && longer.states[i + 1] == r.states[i + 1];
      }
    }
  }

  // ----- Two transactions -----

  /** Transaction 0 runs `p` and holds its first `k` locks, 1 runs `q` and holds its first `l`. */
  function Pair(p: seq<Lock>, k: nat, tp: Option<nat>, q: seq<Lock>, l: nat, tq: Option<nat>, clock: nat): State {
    State(map[0 := Tx(p, k, tp, true), 1 := Tx(q, l, tq, true)], clock, map[])
  }

  lemma StartPair(p: seq<Lock>, q: seq<Lock>) returns (r: Run)
    requires q != []
    ensures IsRun(r) && Last(r) == Pair(p, 0, None, q, 1, None, 0)
  {
    r := Run([State(map[], 0, map[])], []);
    r := Extend(r, Start(0, p));
    r := Extend(r, Start(1, q));
    assert Last(r) == Pair(p, 0, None, q, 0, None, 0);
    r := Extend(r, Request(1));
    assert Last(r).txs == Pair(p, 0, None, q, 1, None, 0).txs;
  }

  /** A mutation waits while an admission holds its fence, is granted it when the admission is over, and then changes what
      the fence protects. */
  lemma MutationWaitsItsTurn(f: Fence, value: int) returns (r: Run, waits: State)
    ensures IsRun(r) && waits in r.states
    ensures waits == State(map[0 := Tx([Lock(f, Shared)], 1, None, true), 1 := Tx([Lock(f, Exclusive)], 0, Some(0), true)], 1, map[])
    ensures Last(r) == State(map[0 := Tx([Lock(f, Shared)], 1, None, false), 1 := Tx([Lock(f, Exclusive)], 1, None, true)],
                             1, map[f := value])
  {
    var a, b := [Lock(f, Shared)], [Lock(f, Exclusive)];
    assert a[..1] == [Lock(f, Shared)] && b[..1] == [Lock(f, Exclusive)];
    r := Run([State(map[], 0, map[])], []);
    r := Extend(r, Start(0, a));
    r := Extend(r, Start(1, b));
    r := Extend(r, Request(0));
    assert Last(r) == State(map[0 := Tx(a, 1, None, true), 1 := Tx(b, 0, None, true)], 0, map[]);
    assert Holds(Last(r).txs[0], f, Shared) && HeldAgainst(Last(r), 0, 1) && Blocks(Last(r), 0, 1);
    r := Extend(r, Request(1));
    waits := Last(r);
    r := IsGranted(r, f, value);
  }

  lemma IsGranted(r: Run, f: Fence, value: int) returns (longer: Run)
    requires IsRun(r)
    requires Last(r) == State(map[0 := Tx([Lock(f, Shared)], 1, None, true), 1 := Tx([Lock(f, Exclusive)], 0, Some(0), true)], 1, map[])
    ensures IsRun(longer) && Last(r) in longer.states
    ensures Last(longer) == State(map[0 := Tx([Lock(f, Shared)], 1, None, false), 1 := Tx([Lock(f, Exclusive)], 1, None, true)],
                                  1, map[f := value])
  {
    var waits := Last(r);
    longer := Extend(r, Finish(0));
    assert forall m :: !Holds(Last(longer).txs[0], f, m);
    assert Free(Last(longer), 1);
    longer := Extend(longer, Grant(1));
    assert Last(longer).txs[1].program[..1] == [Lock(f, Exclusive)];
    assert Holds(Last(longer).txs[1], f, Exclusive);
    longer := Extend(longer, Change(1, f, value));
    assert longer.states[|r.states| - 1] == waits;
  }

  /** None of the first `j` locks of `p` conflicts with `l`. */
  predicate Clear(p: seq<Lock>, j: nat, l: Lock) {
    forall i :: 0 <= i < j && i < |p| && p[i].fence == l.fence ==> !Conflicting(p[i].mode, l.mode)
  }

  /** Transaction 0 takes its locks up to index `j`, while 1 holds its first. */
  lemma {:induction false} TakeUpTo(p: seq<Lock>, q: seq<Lock>, j: nat) returns (r: Run)
    requires j <= |p| && q != [] && Clear(p, j, q[0])
    ensures IsRun(r) && Last(r) == Pair(p, j, None, q, 1, None, 0)
  {
    if j == 0 {
      r := StartPair(p, q);
    } else {
      r := TakeUpTo(p, q, j - 1);
      var s := Last(r);
      assert q[..1] == [q[0]];
      assert Free(s, 0);
      r := Extend(r, Request(0));
      assert Last(r).txs == Pair(p, j, None, q, 1, None, 0).txs;
    }
  }

  lemma TakenHere(p: seq<Lock>, i: nat, j: nat)
    requires i < j <= |p|
    ensures p[i] in p[..j] && p[i] == Lock(p[i].fence, p[i].mode) && (p[i].mode == Shared || p[i].mode == Exclusive)
  {
    assert p[..j][i] == p[i];
  }

  /** 0 asks for what 1 holds, and 1 for what 0 holds. */
  lemma Meet(r: Run, p: seq<Lock>, j: nat, q: seq<Lock>, l: nat, i: nat, h: nat) returns (longer: Run)
    requires IsRun(r) && j < |p| && l < |q| && Last(r) == Pair(p, j, None, q, l, None, 0)
    requires i < j && p[i].fence == q[l].fence && Conflicting(p[i].mode, q[l].mode)
    requires h < l && q[h].fence == p[j].fence && Conflicting(q[h].mode, p[j].mode)
    ensures IsRun(longer) && Last(longer) == Pair(p, j, Some(0), q, l, Some(1), 2)
    ensures Embrace(Last(longer), 0, 1)
  {
    TakenHere(p, i, j);
    TakenHere(q, h, l);
    assert Holds(Last(r).txs[0], p[i].fence, p[i].mode) && Holds(Last(r).txs[1], q[h].fence, q[h].mode);
    assert HeldAgainst(Last(r), 1, 0) && Blocks(Last(r), 1, 0);
    longer := Extend(r, Request(0));
    assert Last(longer).txs == Pair(p, j, Some(0), q, l, None, 1).txs;
    assert Holds(Last(longer).txs[0], p[i].fence, p[i].mode);
    assert HeldAgainst(Last(longer), 0, 1) && Blocks(Last(longer), 0, 1);
    longer := Extend(longer, Request(1));
    assert Last(longer).txs == Pair(p, j, Some(0), q, l, Some(1), 2).txs;
    assert Holds(Last(longer).txs[0], p[i].fence, p[i].mode) && Holds(Last(longer).txs[1], q[h].fence, q[h].mode);
  }

  lemma EmbraceIsACycle(r: Run, p: seq<Lock>)
    requires IsRun(r) && Embrace(Last(r), 0, 1) && CanonicalBut(Last(r), p)
    ensures !SafeBesideCanonical(p)
  {
    var path := [0, 1, 0];
    assert Blocks(Last(r), 1, 0) && Blocks(Last(r), 0, 1);
    assert WaitChain(Last(r), path);
  }

  // ----- Why a list is unsafe -----

  /** A fence first taken after a later one: a canonical transaction takes the two the other way round. */
  lemma OutOfOrderDeadlocks(p: seq<Lock>, i: nat, j: nat) returns (r: Run)
    requires i < j < |p| && FirstTake(p, j) && !Before(p[i].fence, p[j].fence)
    ensures IsRun(r) && Embrace(Last(r), 0, 1) && CanonicalBut(Last(r), p)
  {
    BeforeStrict(p[i].fence, p[j].fence);
    var q := [Lock(p[j].fence, Exclusive), Lock(p[i].fence, Exclusive)];
    r := TakeUpTo(p, q, j);
    r := Meet(r, p, j, q, 1, i, 0);
    AscendingIsCanonical(q);
  }

  /** An upgrade with a later fence held: a canonical transaction shares the fence and asks for the later one. */
  lemma UpgradeBelowDeadlocks(p: seq<Lock>, i: nat, j: nat) returns (r: Run)
    requires i < j < |p| && Upgrade(p, j) && Before(p[j].fence, p[i].fence)
    ensures IsRun(r) && Embrace(Last(r), 0, 1) && CanonicalBut(Last(r), p)
  {
    var q := [Lock(p[j].fence, Shared), Lock(p[i].fence, Exclusive)];
    assert Clear(p, j, q[0]) by {
      forall k | 0 <= k < j && p[k].fence == q[0].fence
        ensures p[k].mode.Shared?
      {
        assert p[k] == Lock(p[k].fence, p[k].mode);
      }
    }
    r := TakeUpTo(p, q, j);
    r := Meet(r, p, j, q, 1, i, 0);
    AscendingIsCanonical(q);
  }

  /** An upgrade with nothing held exclusively: two transactions with the same list both share the fence. */
  lemma SharedUpgradesDeadlock(p: seq<Lock>, j: nat) returns (r: Run)
    requires j < |p| && Upgrade(p, j) && forall i :: 0 <= i < j ==> p[i].mode.Shared?
    ensures IsRun(r) && Embrace(Last(r), 0, 1) && CanonicalBut(Last(r), p)
  {
    var i :| 0 <= i < j && p[i].fence == p[j].fence;
    r := TakeUpTo(p, p, j);
    r := SecondTakes(r, p, j, 1);
    r := Meet(r, p, j, p, j, i, i);
  }

  /** The second transaction takes the rest of its shared locks. */
  lemma {:induction false} SecondTakes(r: Run, p: seq<Lock>, j: nat, l: nat) returns (longer: Run)
    requires IsRun(r) && l <= j <= |p| && Last(r) == Pair(p, j, None, p, l, None, 0)
    requires forall i :: 0 <= i < j ==> p[i].mode.Shared?
    ensures IsRun(longer) && Last(longer) == Pair(p, j, None, p, j, None, 0)
    decreases j - l
  {
    if l == j {
      longer := r;
    } else {
      longer := Extend(r, Request(1));
      assert Last(longer).txs == Pair(p, j, None, p, l + 1, None, 0).txs;
      longer := SecondTakes(longer, p, j, l + 1);
    }
  }

  // ----- The exact condition -----

  lemma OrderlyIsSafe(p: seq<Lock>)
    requires Orderly(p)
    ensures SafeBesideCanonical(p)
  {
    forall r: Run, path: seq<TxId> | IsRun(r) && WaitChain(Last(r), path) && CanonicalBut(Last(r), p)
      ensures path[0] != path[|path| - 1]
    {
      NoWaitCycle(r, |r.states| - 1, p, path);
    }
  }

  lemma DisorderDeadlocks(p: seq<Lock>) returns (r: Run)
    requires !Orderly(p)
    ensures IsRun(r) && Embrace(Last(r), 0, 1) && CanonicalBut(Last(r), p)
  {
    hide Upgrade, FirstTake, Embrace, CanonicalBut;
    if !InOrder(p) {
      var i, j :| 0 <= i < j < |p| && FirstTake(p, j) && !Before(p[i].fence, p[j].fence);
      r := OutOfOrderDeadlocks(p, i, j);
    } else {
      var j :| 0 <= j < |p| && Upgrade(p, j) && !SafeUpgrade(p, j);
      if i :| 0 <= i < j && Before(p[j].fence, p[i].fence) {
        r := UpgradeBelowDeadlocks(p, i, j);
      } else {
        assert forall i :: 0 <= i < j ==> p[i].mode.Shared? || p[i].mode.Exclusive?;
        r := SharedUpgradesDeadlock(p, j);
      }
    }
  }

  /**
   The exact condition under which acquire functions may be combined in one transaction: beside canonical
   transactions, and others like itself, the combined list is safe exactly when each fence is first taken
   in the canonical order, and a shared fence is upgraded only with no later fence held and something held
   exclusively. A list that is not like that has a run into two transactions that hold each other up.
   */
  lemma SafeExactlyWhenOrderly(p: seq<Lock>)
    ensures SafeBesideCanonical(p) <==> Orderly(p)
  {
    hide Orderly, SafeBesideCanonical, CanonicalBut, Embrace;
    if Orderly(p) {
      OrderlyIsSafe(p);
    } else {
      var r := DisorderDeadlocks(p);
      EmbraceIsACycle(r, p);
    }
  }

  // ----- The calls that the code makes -----

  datatype Call =
    | Admit(workspace: WorkspaceId, slugs: seq<string>, targets: seq<string>)
    | MutateApp(slug: string)
    | MutateWorkspace(workspace: WorkspaceId)
    | MutateWorkspaceApp(workspace: WorkspaceId, slug: string)
    | MutateSurfaces(workspace: WorkspaceId, targets: seq<string>)

  /** The lock list of one acquire call that is not refused. */
  function Locks(c: Call): seq<Lock> {
    match c
    case Admit(w, slugs, targets) => AdmissionList(w, SortedSet(slugs), SortedSet(targets))
    case MutateApp(slug) => [Lock(App(slug), Exclusive)]
    case MutateWorkspace(w) => [Lock(Workspace(w), Exclusive)]
    case MutateWorkspaceApp(w, slug) => [Lock(WorkspaceApp(w, slug), Exclusive)]
    case MutateSurfaces(w, targets) => SurfaceLocks(w, SortedSet(targets), Exclusive)
  }

  /** Every single call asks in the canonical order. */
  lemma CallsAscend(c: Call)
    ensures Ascending(Locks(c)) && Canonical(Locks(c))
  {
    hide LexLess, Canonical;
    if c.Admit? {
      AdmissionListed(c.workspace, SortedSet(c.slugs), SortedSet(c.targets), c.slugs, c.targets);
    }
    AscendingIsCanonical(Locks(c));
  }

  /**
   From the moment an admission has its fences to its end, no other transaction, whatever calls it combines,
   holds exclusively a fence of the admission's apps, workspace, workspace apps or surface targets.
   */
  lemma AdmissionShutsMutationsOut(r: Run, i: nat, t: TxId, u: TxId, c: Call, f: Fence)
    requires IsRun(r) && i < |r.states| && t in r.states[i].txs && u in r.states[i].txs && t != u
    requires c.Admit? && AdmissionCovers(c.workspace, c.slugs, c.targets, f)
    requires r.states[i].txs[t].active && r.states[i].txs[t].program == Locks(c) && r.states[i].txs[t].held == |Locks(c)|
    ensures Holds(r.states[i].txs[t], f, Shared) && !Holds(r.states[i].txs[u], f, Exclusive)
  {
    hide LexLess;
    AdmissionListed(c.workspace, SortedSet(c.slugs), SortedSet(c.targets), c.slugs, c.targets);
    assert Locks(c)[..|Locks(c)|] == Locks(c);
    NoOverlap(r, i, t, u, f);
  }

  /** The transaction is running and has every lock of the call. */
  ghost predicate Has(x: Tx, c: Call) {
    x.active && forall l <- Locks(c) :: Holds(x, l.fence, l.mode)
  }

  /** The mutation is of an app, the workspace, an app in the workspace, or a surface target that the admission names. */
  predicate Touches(mutation: Call, admission: Call)
    requires admission.Admit?
  {
    match mutation
    case Admit(_, _, _) => false
    case MutateApp(slug) => slug in admission.slugs
    case MutateWorkspace(w) => w == admission.workspace
    case MutateWorkspaceApp(w, slug) => w == admission.workspace && slug in admission.slugs
    case MutateSurfaces(w, targets) =>
      w == admission.workspace && exists target :: target in targets && target in admission.targets
  }

  /** In no state of any run do an admission and a mutation of what it names both have all their locks. */
  lemma NeverBothAtWork(r: Run, i: nat, t: TxId, u: TxId, admission: Call, mutation: Call)
    requires IsRun(r) && i < |r.states| && t in r.states[i].txs && u in r.states[i].txs && t != u
    requires admission.Admit? && Touches(mutation, admission)
    requires Has(r.states[i].txs[t], admission)
    ensures !Has(r.states[i].txs[u], mutation)
  {
    hide LexLess, Holds;
    AdmissionListed(admission.workspace, SortedSet(admission.slugs), SortedSet(admission.targets), admission.slugs, admission.targets);
    var f := match mutation
      case MutateApp(slug) => App(slug)
      case MutateWorkspace(w) => Workspace(w)
      case MutateWorkspaceApp(w, slug) => WorkspaceApp(w, slug)
      case MutateSurfaces(w, targets) => (var target :| target in targets && target in admission.targets; Surface(w, target))
      case Admit(w, _, _) => Workspace(w);
    assert Lock(f, Shared) in Locks(admission);
    SurfaceIsTaken(mutation);
    assert Lock(f, Exclusive) in Locks(mutation);
    NoOverlap(r, i, t, u, f);
  }

  lemma SurfaceIsTaken(c: Call)
    ensures c.MutateSurfaces? ==> forall target <- c.targets :: Lock(Surface(c.workspace, target), Exclusive) in Locks(c)
  {
    hide LexLess;
    if c.MutateSurfaces? {
      forall target | target in c.targets
        ensures Lock(Surface(c.workspace, target), Exclusive) in Locks(c)
      {
        MemberOf(SortedSet(c.targets), target, Locks(c), Lock(Surface(c.workspace, target), Exclusive));
      }
    }
  }

  /** The reconciliation takes its app's fence twice, and the second take waits for nothing. */
  lemma ReconciliationIsCanonical(slug: string)
    ensures Canonical(Locks(MutateApp(slug)) + Locks(MutateApp(slug)))
  {
    var p := Locks(MutateApp(slug)) + Locks(MutateApp(slug));
    assert p == [Lock(App(slug), Exclusive), Lock(App(slug), Exclusive)];
    assert p[0].fence == p[1].fence && Taken(p, 1, p[1].fence);
  }

  /** The catalog seed takes the fences of the two products it may guard in order. */
  lemma SeedIsCanonical()
    ensures Canonical(Locks(MutateApp("agents-ai")) + Locks(MutateApp("mcp-connectors")))
  {
    assert LexLess("agents-ai", "mcp-connectors");
    AscendingIsCanonical(Locks(MutateApp("agents-ai")) + Locks(MutateApp("mcp-connectors")));
  }

  /** A surface binding is created under an admission without targets and then the surface's own fence. */
  lemma BindingIsCanonical(w: WorkspaceId, slugs: seq<string>, targets: seq<string>)
    ensures Canonical(Locks(Admit(w, slugs, [])) + Locks(MutateSurfaces(w, targets)))
  {
    hide LexLess, Canonical;
    CallsAscend(Admit(w, slugs, []));
    CallsAscend(MutateSurfaces(w, targets));
    assert SortedSet([]) == [];
    AdmissionThenSurfaceMutation(Locks(Admit(w, slugs, [])), Locks(MutateSurfaces(w, targets)));
    AscendingIsCanonical(Locks(Admit(w, slugs, [])) + Locks(MutateSurfaces(w, targets)));
  }

  /** An admission that named a surface target must not go on to mutate that target. */
  lemma AdmittedTargetMustNotBeMutated(w: WorkspaceId, slugs: seq<string>, targets: seq<string>, target: string)
    requires target in targets
    ensures !SafeBesideCanonical(Locks(Admit(w, slugs, targets)) + Locks(MutateSurfaces(w, [target])))
  {
    hide LexLess, SafeBesideCanonical, InOrder;
    var a := Locks(Admit(w, slugs, targets));
    AdmissionListed(w, SortedSet(slugs), SortedSet(targets), slugs, targets);
    var p := a + Locks(MutateSurfaces(w, [target]));
    OneTarget(target);
    assert p == a + [Lock(Surface(w, target), Exclusive)];
    assert Lock(Surface(w, target), Shared) in a;
    var i :| 0 <= i < |a| && a[i] == Lock(Surface(w, target), Shared);
    assert p[i] == a[i];
    assert forall k :: 0 <= k < |a| ==> p[k] == a[k] && p[k] in a;
    assert Upgrade(p, |a|) && !SafeUpgrade(p, |a|);
    SafeExactlyWhenOrderly(p);
  }

  lemma OneTarget(target: string)
    ensures SortedSet([target]) == [target]
  {
    assert SortedSet([target]) == Insert(target, SortedSet([target][1..]));
    assert [target][1..] == [];
  }
}
