/**
 Any number of transactions taking runtime fences: a lock table with shared and
 exclusive holders and a first-come queue of waiters, under an arbitrary scheduler.
 Locks are held to the end of the transaction.
 */
module FenceProtocol {
  import opened Common
  import opened RuntimeFences

  type TxId = nat

  /** A transaction: the locks it asks for in order, how many it holds, and its place
      in the queue while it waits for the next one. */
  datatype Tx = Tx(program: seq<Lock>, held: nat, ticket: Option<nat>, active: bool)

  /** `authority` is the paid-access state that the fences protect. */
  datatype State = State(txs: map<TxId, Tx>, clock: nat, authority: map<Fence, int>)

  datatype Action =
    | Start(tx: TxId, program: seq<Lock>)
    | Request(tx: TxId)
    | Grant(tx: TxId)
    | Finish(tx: TxId)                       // commit or rollback
    | Change(tx: TxId, fence: Fence, value: int)

  predicate Conflicting(a: Mode, b: Mode) {
    a.Exclusive? || b.Exclusive?
  }

  predicate Pending(x: Tx) {
    x.active && x.held < |x.program|
  }

  predicate Waiting(x: Tx) {
    Pending(x) && x.ticket.Some?
  }

  predicate Holds(x: Tx, f: Fence, m: Mode) {
    x.active && x.held <= |x.program| && Lock(f, m) in x.program[..x.held]
  }

  predicate HoldsFence(x: Tx, f: Fence) {
    Holds(x, f, Shared) || Holds(x, f, Exclusive)
  }

  /** Transaction `u` stands in the way of `t`: it holds the next lock of `t` in a conflicting mode. */
  predicate HeldAgainst(s: State, u: TxId, t: TxId)
    requires t in s.txs && Pending(s.txs[t])
  {
    var next := s.txs[t].program[s.txs[t].held];
    && u in s.txs && u != t
    && (|| (Holds(s.txs[u], next.fence, Shared) && Conflicting(Shared, next.mode))
        || Holds(s.txs[u], next.fence, Exclusive))
  }

  /** Or it waits for that lock in a conflicting mode and is ahead in the queue, where a transaction that
      already holds the fence goes before those that do not, and the others keep their order. */
  predicate QueuedAgainst(s: State, u: TxId, t: TxId)
    requires t in s.txs && Pending(s.txs[t])
  {
    var x := s.txs[t];
    var next := x.program[x.held];
    && u in s.txs && u != t && Waiting(s.txs[u]) && !HoldsFence(x, next.fence)
    && s.txs[u].program[s.txs[u].held].fence == next.fence
    && Conflicting(s.txs[u].program[s.txs[u].held].mode, next.mode)
    && (HoldsFence(s.txs[u], next.fence) || x.ticket.None? || s.txs[u].ticket.value < x.ticket.value)
  }

  predicate Blocks(s: State, u: TxId, t: TxId)
    requires t in s.txs && Pending(s.txs[t])
  {
    HeldAgainst(s, u, t) || QueuedAgainst(s, u, t)
  }

  predicate Free(s: State, t: TxId)
    requires t in s.txs && Pending(s.txs[t])
  {
    forall u <- s.txs :: !Blocks(s, u, t)
  }

  predicate Enabled(s: State, a: Action) {
    match a
    case Start(t, _) => t !in s.txs
    case Request(t) => t in s.txs && Pending(s.txs[t]) && s.txs[t].ticket.None?
    case Grant(t) => t in s.txs && Waiting(s.txs[t]) && Free(s, t)
    case Finish(t) => t in s.txs && s.txs[t].active
    // a restrictive writer takes the exclusive fence before it changes authority
    case Change(t, f, _) => t in s.txs && Holds(s.txs[t], f, Exclusive)
  }

  function Acquired(x: Tx): Tx {
    x.(held := x.held + 1, ticket := None)
  }

  function Apply(s: State, a: Action): State
    requires Enabled(s, a)
  {
    match a
    case Start(t, program) => s.(txs := s.txs[t := Tx(program, 0, None, true)])
    case Request(t) =>
      if Free(s, t) then s.(txs := s.txs[t := Acquired(s.txs[t])])
      else s.(txs := s.txs[t := s.txs[t].(ticket := Some(s.clock))], clock := s.clock + 1)
    case Grant(t) => s.(txs := s.txs[t := Acquired(s.txs[t])])
    case Finish(t) => s.(txs := s.txs[t := s.txs[t].(active := false, ticket := None)])
    case Change(t, f, value) => s.(authority := s.authority[f := value])
  }

  datatype Run = Run(states: seq<State>, actions: seq<Action>)

  ghost predicate IsRun(r: Run) {
    && |r.states| == |r.actions| + 1
    && r.states[0].txs == map[]
    && forall i :: 0 <= i < |r.actions| ==>
      Enabled(r.states[i], r.actions[i]) && r.states[i + 1] == Apply(r.states[i], r.actions[i])
  }

  // ----- Invariants -----

  ghost predicate Compatible(s: State) {
    forall t, u, f, m, n ::
      (t in s.txs && u in s.txs && t != u && Holds(s.txs[t], f, m) && Holds(s.txs[u], f, n))
      ==> !Conflicting(m, n)
  }

  ghost predicate Queued(s: State) {
    && (forall t <- s.txs :: s.txs[t].held <= |s.txs[t].program|)
    && (forall t <- s.txs :: s.txs[t].ticket.Some? ==> Pending(s.txs[t]) && s.txs[t].ticket.value < s.clock)
    && (forall t, u :: t in s.txs && u in s.txs && t != u && s.txs[t].ticket.Some? ==>
          s.txs[t].ticket != s.txs[u].ticket)
  }

  /** The transaction already holds its next lock, in the same or the stronger mode. */
  predicate Covered(x: Tx)
    requires Pending(x)
  {
    var next := x.program[x.held];
    Holds(x, next.fence, Exclusive) || (next.mode.Shared? && Holds(x, next.fence, Shared))
  }

  ghost predicate NoRetakeWaits(s: State) {
    forall t <- s.txs :: Waiting(s.txs[t]) ==> !Covered(s.txs[t])
  }

  ghost predicate Inv(s: State) {
    Compatible(s) && Queued(s) && NoRetakeWaits(s)
  }

  /** A lock that is already held is granted at once, whoever waits for it. */
  lemma RetakeIsImmediate(s: State, t: TxId)
    requires Compatible(s) && t in s.txs && Pending(s.txs[t]) && Covered(s.txs[t])
    ensures Free(s, t)
  {
    var x := s.txs[t];
    var f := x.program[x.held].fence;
    forall u | u in s.txs
      ensures !Blocks(s, u, t)
    {
      assert u != t && Holds(s.txs[u], f, Exclusive) && Holds(x, f, Shared) ==> !Conflicting(Exclusive, Shared);
      assert u != t && Holds(s.txs[u], f, Exclusive) && Holds(x, f, Exclusive) ==> !Conflicting(Exclusive, Exclusive);
      assert u != t && Holds(s.txs[u], f, Shared) && Holds(x, f, Exclusive) ==> !Conflicting(Shared, Exclusive);
    }
  }

  /** A lock is granted exactly when nobody else holds it, or everybody shares it; and, to a transaction that does not hold it
      yet, when nobody who holds it, and nobody who came before, waits for it in a mode that does not go with the one asked for. */
  lemma GrantedExactlyInTurn(s: State, t: TxId)
    requires t in s.txs && Pending(s.txs[t])
    ensures
      var x := s.txs[t];
      var next := x.program[x.held];
      Free(s, t) <==> forall u :: u in s.txs && u != t ==>
        var y := s.txs[u];
        && !Holds(y, next.fence, Exclusive)
        && (next.mode == Exclusive ==> !Holds(y, next.fence, Shared))
        && (Holds(x, next.fence, Shared) || Holds(x, next.fence, Exclusive)
            || (Waiting(y) && y.program[y.held].fence == next.fence && !(y.program[y.held].mode == next.mode == Shared) ==>
                  !HoldsFence(y, next.fence) && x.ticket.Some? && x.ticket.value <= y.ticket.value))
  {
    assert forall u :: u in s.txs && u != t && Waiting(s.txs[u]) ==> s.txs[u].held < |s.txs[u].program|;
  }

  lemma NewHoldCompatible(s: State, t: TxId, v: TxId, f: Fence, m: Mode, n: Mode)
    requires Inv(s) && t in s.txs && Pending(s.txs[t]) && Free(s, t)
    requires v in s.txs && v != t && Holds(s.txs[v], f, n) && Holds(Acquired(s.txs[t]), f, m)
    ensures !Conflicting(m, n)
  {
    assert !Blocks(s, v, t);
  }

  /** A lock is granted only when nothing held conflicts with it. */
  lemma AcquireKeeps(s: State, t: TxId)
    requires Inv(s) && t in s.txs && Pending(s.txs[t]) && Free(s, t)
    ensures Inv(s.(txs := s.txs[t := Acquired(s.txs[t])]))
  {
    var s' := s.(txs := s.txs[t := Acquired(s.txs[t])]);
    assert Compatible(s') by {
      hide Holds, Free;
      forall u, v, f, m, n | u in s'.txs && v in s'.txs && u != v
        && Holds(s'.txs[u], f, m) && Holds(s'.txs[v], f, n)
        ensures !Conflicting(m, n)
      {
        if u == t {
          NewHoldCompatible(s, t, v, f, m, n);
        } else if v == t {
          NewHoldCompatible(s, t, u, f, n, m);
        }
      }
    }
  }

  lemma InvKept(s: State, a: Action)
    requires Inv(s) && Enabled(s, a)
    ensures Inv(Apply(s, a))
  {
    match a
    case Start(t, _) =>
    case Request(t) =>
      if Free(s, t) {
        AcquireKeeps(s, t);
      } else {
        if Covered(s.txs[t]) {
          RetakeIsImmediate(s, t);
        }
        QueueKeeps(s, t);
      }
    case Grant(t) => AcquireKeeps(s, t);
    case Finish(t) =>
    case Change(t, _, _) =>
  }

  lemma QueueKeeps(s: State, t: TxId)
    requires Inv(s) && t in s.txs && Pending(s.txs[t]) && s.txs[t].ticket.None? && !Covered(s.txs[t])
    ensures Inv(s.(txs := s.txs[t := s.txs[t].(ticket := Some(s.clock))], clock := s.clock + 1))
  {
    var x := s.txs[t].(ticket := Some(s.clock));
    var s' := s.(txs := s.txs[t := x], clock := s.clock + 1);
    assert forall f, m :: Holds(x, f, m) <==> Holds(s.txs[t], f, m);
    forall u, v | u in s'.txs && v in s'.txs && u != v && s'.txs[u].ticket.Some?
      ensures s'.txs[u].ticket != s'.txs[v].ticket
    {
      if v in s.txs && s.txs[v].ticket.Some? {
        assert s.txs[v].ticket.value < s.clock;
      }
    }
  }

  lemma {:induction false} InvHolds(r: Run, i: nat)
    requires IsRun(r) && i < |r.states|
    ensures Inv(r.states[i])
  {
    if i > 0 {
      InvHolds(r, i - 1);
      InvKept(r.states[i - 1], r.actions[i - 1]);
      assert r.states[i - 1 + 1] == Apply(r.states[i - 1], r.actions[i - 1]);
    }
  }

  // ----- Lock lists -----

  /** The list takes fence `f` before position `j`. */
  predicate Taken(p: seq<Lock>, j: nat, f: Fence) {
    exists i :: 0 <= i < j && i < |p| && p[i].fence == f
  }

  predicate FirstTake(p: seq<Lock>, j: nat)
    requires j < |p|
  {
    !Taken(p, j, p[j].fence)
  }

  /** An exclusive lock on a fence that was taken shared only. */
  predicate Upgrade(p: seq<Lock>, j: nat)
    requires j < |p|
  {
    && p[j].mode.Exclusive? && Taken(p, j, p[j].fence)
    && forall i :: 0 <= i < j ==> p[i] != Lock(p[j].fence, Exclusive)
  }

  /** Each fence, where it is first taken, is after all fences taken so far. */
  predicate InOrder(p: seq<Lock>) {
    forall i, j :: 0 <= i < j < |p| && FirstTake(p, j) ==> Before(p[i].fence, p[j].fence)
  }

  predicate NeverUpgrades(p: seq<Lock>) {
    forall j :: 0 <= j < |p| ==> !Upgrade(p, j)
  }

  /** In the canonical order, with any fence taken again in a mode it is held in. */
  predicate Canonical(p: seq<Lock>) { InOrder(p) && NeverUpgrades(p) }

  /** No later fence is taken before an upgrade, and something is held exclusively when it is asked for. */
  predicate SafeUpgrade(p: seq<Lock>, j: nat)
    requires j < |p|
  {
    && (forall i :: 0 <= i < j ==> !Before(p[j].fence, p[i].fence))
    && exists i :: 0 <= i < j && p[i].mode.Exclusive?
  }

  predicate Orderly(p: seq<Lock>) {
    InOrder(p) && forall j :: 0 <= j < |p| && Upgrade(p, j) ==> SafeUpgrade(p, j)
  }

  lemma AscendingIsCanonical(p: seq<Lock>)
    requires Ascending(p)
    ensures Canonical(p)
  {
    forall j | 0 <= j < |p|
      ensures !Taken(p, j, p[j].fence)
    {
      forall i | 0 <= i < j
        ensures p[i].fence != p[j].fence
      {
        BeforeStrict(p[i].fence, p[j].fence);
      }
    }
  }

  // ----- No deadlock -----

  /** The lock list of the transaction is canonical, or the orderly list `p`. */
  predicate Obeys(x: Tx, p: seq<Lock>) {
    x.program == p || Canonical(x.program)
  }

  ghost predicate CanonicalBut(s: State, p: seq<Lock>) {
    forall t <- s.txs :: Obeys(s.txs[t], p)
  }

  function Next(s: State, t: TxId): Fence
    requires t in s.txs && Pending(s.txs[t])
  {
    s.txs[t].program[s.txs[t].held].fence
  }

  /** A waiting transaction already holds the fence it waits for, so it upgrades. */
  predicate Upgrading(s: State, t: TxId)
    requires t in s.txs && Waiting(s.txs[t])
  {
    HoldsFence(s.txs[t], Next(s, t))
  }

  /** The order that waiting follows: a later fence; for one fence, an upgrade before the others, and
      then an earlier place in the queue. */
  predicate Ahead(s: State, t: TxId, u: TxId)
    requires t in s.txs && Waiting(s.txs[t]) && u in s.txs && Waiting(s.txs[u])
  {
    || Before(Next(s, t), Next(s, u))
    || (&& Next(s, t) == Next(s, u) && !Upgrading(s, t)
        && (Upgrading(s, u) || s.txs[u].ticket.value < s.txs[t].ticket.value))
  }

  lemma HeldIsTaken(x: Tx, f: Fence, m: Mode) returns (i: nat)
    requires Holds(x, f, m)
    ensures i < x.held <= |x.program| && x.program[i] == Lock(f, m)
  {
    i :| 0 <= i < |x.program[..x.held]| && x.program[..x.held][i] == Lock(f, m);
  }

  /** What a transaction waits for is the first take of its fence, or an upgrade. */
  lemma WaitsForFirstOrUpgrade(x: Tx)
    requires Waiting(x) && !Covered(x)
    ensures if HoldsFence(x, x.program[x.held].fence) then Upgrade(x.program, x.held) else FirstTake(x.program, x.held)
  {
    var p, j := x.program, x.held;
    var f := p[j].fence;
    forall i | 0 <= i < j && p[i].fence == f
      ensures HoldsFence(x, f) && p[i].mode.Shared? && p[j].mode.Exclusive?
    {
      assert p[i].mode == Shared || p[i].mode == Exclusive;
    }
    if HoldsFence(x, f) {
      var i := HeldIsTaken(x, f, if Holds(x, f, Shared) then Shared else Exclusive);
    }
  }

  /** A waiting transaction that holds fence `f` waits for a later one, or upgrades `f` itself. */
  lemma HolderWaitsLater(s: State, p: seq<Lock>, u: TxId, f: Fence)
    requires Inv(s) && Orderly(p)
    requires u in s.txs && Waiting(s.txs[u]) && HoldsFence(s.txs[u], f) && Obeys(s.txs[u], p)
    ensures Before(f, Next(s, u)) || (f == Next(s, u) && Upgrading(s, u) && s.txs[u].program == p)
  {
    hide Compatible, Canonical, Taken;
    var x := s.txs[u];
    WaitsForFirstOrUpgrade(x);
    var i := HeldIsTaken(x, f, if Holds(x, f, Shared) then Shared else Exclusive);
    CanonicalUpgradesNever(x.program, x.held);
    BeforeStrict(f, Next(s, u));
  }

  lemma CanonicalUpgradesNever(p: seq<Lock>, j: nat)
    requires j < |p|
    ensures Canonical(p) ==> !Upgrade(p, j) && InOrder(p)
  {
  }

  lemma OneExclusiveHolder(s: State, t: TxId, u: TxId, f: Fence)
    requires Compatible(s) && t in s.txs && u in s.txs
    requires Holds(s.txs[t], f, Exclusive) && Holds(s.txs[u], f, Exclusive)
    ensures t == u
  {
    assert t != u ==> !Conflicting(Exclusive, Exclusive);
  }

  lemma UpgradeIsSafe(s: State, p: seq<Lock>, t: TxId)
    requires NoRetakeWaits(s) && Orderly(p) && t in s.txs && Waiting(s.txs[t]) && Upgrading(s, t) && s.txs[t].program == p
    ensures SafeUpgrade(p, s.txs[t].held)
  {
    hide InOrder, SafeUpgrade, Upgrade, Holds;
    WaitsForFirstOrUpgrade(s.txs[t]);
  }

  /** Two transactions with one orderly list never wait to upgrade at the same time. */
  lemma OneUpgradeAtATime(s: State, p: seq<Lock>, t: TxId, u: TxId)
    requires Inv(s) && Orderly(p)
    requires t in s.txs && Waiting(s.txs[t]) && Upgrading(s, t) && s.txs[t].program == p
    requires u in s.txs && Waiting(s.txs[u]) && Upgrading(s, u) && s.txs[u].program == p
    ensures t == u
  {
    hide Compatible, Queued, Orderly, Upgrading, Holds;
    var x, y := s.txs[t], s.txs[u];
    UpgradeIsSafe(s, p, t);
    UpgradeIsSafe(s, p, u);
    var first := if x.held <= y.held then x.held else y.held;
    var i :| 0 <= i < first && p[i].mode.Exclusive?;
    OneExclusiveHolder(s, t, u, p[i].fence);
  }

  lemma BlockerIsAhead(s: State, p: seq<Lock>, u: TxId, t: TxId)
    requires Inv(s) && Orderly(p) && CanonicalBut(s, p)
    requires t in s.txs && u in s.txs && Waiting(s.txs[t]) && Waiting(s.txs[u]) && Blocks(s, u, t)
    ensures Ahead(s, t, u)
  {
    hide Inv, Orderly, Canonical, Holds;
    if HeldAgainst(s, u, t) {
      HolderWaitsLater(s, p, u, Next(s, t));
      if !Before(Next(s, t), Next(s, u)) && Upgrading(s, t) {
        HolderWaitsLater(s, p, t, Next(s, t));
        BeforeStrict(Next(s, t), Next(s, t));
        OneUpgradeAtATime(s, p, t, u);
      }
    }
  }

  lemma AheadTransitive(s: State, t: TxId, u: TxId, v: TxId)
    requires t in s.txs && Waiting(s.txs[t]) && u in s.txs && Waiting(s.txs[u]) && v in s.txs && Waiting(s.txs[v])
    requires Ahead(s, t, u) && Ahead(s, u, v)
    ensures Ahead(s, t, v) && t != v
  {
    BeforeStrict(Next(s, t), Next(s, v));
    if Before(Next(s, t), Next(s, u)) && Before(Next(s, u), Next(s, v)) {
      BeforeTransitive(Next(s, t), Next(s, u), Next(s, v));
    }
  }

  /** A chain of waiting transactions, each blocked by the next. */
  ghost predicate WaitChain(s: State, path: seq<TxId>) {
    && |path| >= 2
    && (forall i :: 0 <= i < |path| ==> path[i] in s.txs && Waiting(s.txs[path[i]]))
    && (forall i :: 0 <= i < |path| - 1 ==> Blocks(s, path[i + 1], path[i]))
  }

  lemma {:induction false} ChainGoesAhead(s: State, p: seq<Lock>, path: seq<TxId>)
    requires Inv(s) && Orderly(p) && CanonicalBut(s, p) && WaitChain(s, path)
    ensures Ahead(s, path[0], path[|path| - 1])
    decreases |path|
  {
    hide Inv, Orderly, CanonicalBut, Ahead, Blocks;
    BlockerIsAhead(s, p, path[1], path[0]);
    if |path| > 2 {
      assert WaitChain(s, path[1..]) by {
        assert forall i :: 0 <= i < |path| - 1 ==> path[1..][i] == path[i + 1];
      }
      ChainGoesAhead(s, p, path[1..]);
      AheadTransitive(s, path[0], path[1], path[|path| - 1]);
    }
  }

  /** No wait-for cycle: however many transactions there are and however they are scheduled, a chain of
      blocked transactions never returns to its start, as long as each lock list is canonical or is `p`. */
  lemma NoWaitCycle(r: Run, i: nat, p: seq<Lock>, path: seq<TxId>)
    requires IsRun(r) && i < |r.states| && Orderly(p) && CanonicalBut(r.states[i], p)
    requires WaitChain(r.states[i], path)
    ensures path[0] != path[|path| - 1]
  {
    InvHolds(r, i);
    ChainGoesAhead(r.states[i], p, path);
    BeforeStrict(Next(r.states[i], path[0]), Next(r.states[i], path[0]));
  }

  /** A transaction at the front: waiting, with no waiting transaction ahead of it. */
  lemma {:induction false} Front(s: State, waiting: set<TxId>) returns (t: TxId)
    requires waiting != {} && forall u <- waiting :: u in s.txs && Waiting(s.txs[u])
    requires Queued(s)
    ensures t in waiting && forall u <- waiting :: !Ahead(s, t, u)
    decreases waiting
  {
    var x :| x in waiting;
    var rest := waiting - {x};
    BeforeStrict(Next(s, x), Next(s, x));
    if rest == {} {
      t := x;
      assert waiting == {x};
    } else {
      var y := Front(s, rest);
      BeforeStrict(Next(s, x), Next(s, y));
      if Ahead(s, y, x) {
        t := x;
        forall u <- waiting
          ensures !Ahead(s, t, u)
        {
          if u != x && Ahead(s, x, u) {
            AheadTransitive(s, y, x, u);
          }
        }
      } else {
        t := y;
        assert forall u <- waiting :: u == x || u in rest;
      }
    }
  }

  /** Progress: while some transaction waits, a transaction that does not wait can go on,
      or a waiting one can be granted its lock. */
  lemma NeverStuck(r: Run, i: nat, p: seq<Lock>, w: TxId) returns (a: Action)
    requires IsRun(r) && i < |r.states| && Orderly(p) && CanonicalBut(r.states[i], p)
    requires w in r.states[i].txs && Waiting(r.states[i].txs[w])
    ensures Enabled(r.states[i], a) && (a.Grant? || (a.Finish? && !Waiting(r.states[i].txs[a.tx])))
  {
    var s := r.states[i];
    InvHolds(r, i);
    var waiting := set t | t in s.txs && Waiting(s.txs[t]);
    assert w in waiting;
    var t := Front(s, waiting);
    if Free(s, t) {
      a := Grant(t);
    } else {
      var u :| u in s.txs && Blocks(s, u, t);
      assert u in waiting <==> Waiting(s.txs[u]);
      if Waiting(s.txs[u]) {
        BlockerIsAhead(s, p, u, t);
      }
      a := Finish(u);
    }
  }

  // ----- Authority -----

  /** From the moment a transaction holds a fence to its end, no other transaction holds
      that fence in a conflicting mode; so an admission and a mutation of the same app,
      workspace, workspace app or surface never overlap. */
  lemma NoOverlap(r: Run, i: nat, t: TxId, u: TxId, f: Fence)
    requires IsRun(r) && i < |r.states|
    requires t in r.states[i].txs && u in r.states[i].txs && t != u
    requires Holds(r.states[i].txs[t], f, Shared)
    ensures !Holds(r.states[i].txs[u], f, Exclusive)
  {
    InvHolds(r, i);
    assert Holds(r.states[i].txs[u], f, Exclusive) ==> !Conflicting(Shared, Exclusive);
  }

  lemma {:induction false} FinishedForGood(r: Run, i: nat, j: nat, t: TxId)
    requires IsRun(r) && i <= j < |r.states| && t in r.states[i].txs && !r.states[i].txs[t].active
    ensures t in r.states[j].txs && !r.states[j].txs[t].active
    decreases j - i
  {
    if i < j {
      assert r.states[i + 1] == Apply(r.states[i], r.actions[i]);
      FinishedForGood(r, i + 1, j, t);
    }
  }

  /** A transaction that only reads what a fence protects. */
  predicate OnlyShares(x: Tx, f: Fence) {
    forall i :: 0 <= i < |x.program| ==> x.program[i] != Lock(f, Exclusive)
  }

  /** Stable authority: what an admission reads under its shared fence is what still
      holds when it commits, whatever the other transactions do meanwhile. */
  lemma {:induction false} AuthorityIsStable(r: Run, i: nat, j: nat, t: TxId, f: Fence)
    requires IsRun(r) && i <= j < |r.states|
    requires t in r.states[i].txs && Holds(r.states[i].txs[t], f, Shared) && OnlyShares(r.states[i].txs[t], f)
    requires t in r.states[j].txs && r.states[j].txs[t].active
    ensures f in r.states[j].authority <==> f in r.states[i].authority
    ensures f in r.states[i].authority ==> r.states[j].authority[f] == r.states[i].authority[f]
    decreases j - i
  {
    if i < j {
      var s, a := r.states[i], r.actions[i];
      assert r.states[i + 1] == Apply(s, a);
      InvHolds(r, i);
      if a.Change? && a.fence == f {
        if a.tx != t {
          NoOverlap(r, i, t, a.tx, f);
        }
      }
      if r.states[i + 1].txs[t].active {
        AuthorityIsStable(r, i + 1, j, t, f);
      } else {
        FinishedForGood(r, i + 1, j, t);
      }
    }
  }
}
