/**
 Every transaction of the code that takes runtime fences, and exactly when a mix of them can deadlock.
 */
module FenceTransactions {
  import opened Common
  import opened RuntimeFences
  import opened FenceProtocol
  import opened FenceComposition

  // ----- The transactions -----

  const AGENTS := "agents-ai"
  const CONNECTORS := "mcp-connectors"
  const CHAT_WIDGET := "chat-widget"
  const WHATSAPP := "whatsapp"

  /** Where a tool call may come from besides the workspace itself. */
  datatype Source = Widget(id: string) | Channel(connection: string, binding: string)

  function SourceSlug(s: Source): string {
    if s.Widget? then CHAT_WIDGET else WHATSAPP
  }

  function TargetKey(s: Source): string {
    match s
    case Widget(id) => "widget:" + id
    case Channel(connection, binding) => "whatsapp:" + connection + ":" + binding
  }

  datatype Transaction =
    | AdmitApp(workspace: WorkspaceId, slug: string)
    | AdmitSource(workspace: WorkspaceId, source: Source)       // a call of a tool, and listing its tools
    | Deliver(workspace: WorkspaceId, connection: string, binding: string)
    | BindSource(workspace: WorkspaceId, source: Source)
    | ChangeApp(slug: string)
    | ChangeWorkspace(workspace: WorkspaceId)
    | ChangeWorkspaceApp(workspace: WorkspaceId, slug: string)
    | ChangeSource(workspace: WorkspaceId, source: Source, takes: nat)  // a channel's helpers take the fence again
    | Reconcile
    | Seed(agents: bool, connectors: bool)
    | DisconnectWidget(workspace: WorkspaceId, id: string)      // marks its bindings stale, then uninstalls the app

  function Calls(x: Transaction): seq<Call> {
    match x
    case AdmitApp(w, slug) => [Admit(w, [slug], [])]
    case AdmitSource(w, src) => [Admit(w, [CONNECTORS, SourceSlug(src)], [TargetKey(src)])]
    case Deliver(w, c, b) => [Admit(w, [WHATSAPP], [TargetKey(Channel(c, b))])]
    case BindSource(w, src) => [Admit(w, [CONNECTORS, SourceSlug(src)], []), MutateSurfaces(w, [TargetKey(src)])]
    case ChangeApp(slug) => [MutateApp(slug)]
    case ChangeWorkspace(w) => [MutateWorkspace(w)]
    case ChangeWorkspaceApp(w, slug) => [MutateWorkspaceApp(w, slug)]
    case ChangeSource(w, src, takes) => seq(takes, _ => MutateSurfaces(w, [TargetKey(src)]))
    case Reconcile => [MutateApp(CONNECTORS), MutateApp(CONNECTORS)]
    case Seed(agents, connectors) =>
      (if agents then [MutateApp(AGENTS)] else []) + (if connectors then [MutateApp(CONNECTORS)] else [])
    case DisconnectWidget(w, id) => [MutateSurfaces(w, [TargetKey(Widget(id))]), MutateWorkspaceApp(w, CHAT_WIDGET)]
  }

  function LocksOf(calls: seq<Call>): seq<Lock> {
    if calls == [] then [] else Locks(calls[0]) + LocksOf(calls[1..])
  }

  function TransactionLocks(x: Transaction): seq<Lock> {
    LocksOf(Calls(x))
  }

  // ----- Their lock lists -----

  lemma OneCall(c: Call)
    ensures LocksOf([c]) == Locks(c)
  {
    assert [c][1..] == [];
  }

  lemma TwoCalls(c: Call, d: Call)
    ensures LocksOf([c, d]) == Locks(c) + Locks(d)
  {
    assert [c, d][1..] == [d];
    OneCall(d);
  }

  lemma OneSurface(w: WorkspaceId, target: string)
    ensures Locks(MutateSurfaces(w, [target])) == [Lock(Surface(w, target), Exclusive)]
  {
    OneTarget(target);
  }

  lemma DisconnectTakes(w: WorkspaceId, id: string)
    ensures TransactionLocks(DisconnectWidget(w, id)) ==
            [Lock(Surface(w, TargetKey(Widget(id))), Exclusive), Lock(WorkspaceApp(w, CHAT_WIDGET), Exclusive)]
  {
    TwoCalls(MutateSurfaces(w, [TargetKey(Widget(id))]), MutateWorkspaceApp(w, CHAT_WIDGET));
    OneSurface(w, TargetKey(Widget(id)));
  }

  lemma {:induction false} RepeatedCall(c: Call, l: Lock, n: nat)
    requires Locks(c) == [l]
    ensures var p := LocksOf(seq(n, _ => c)); |p| == n && forall i :: 0 <= i < |p| ==> p[i] == l
  {
    if n > 0 {
      var calls := seq(n, _ => c);
      assert calls[1..] == seq(n - 1, _ => c);
      RepeatedCall(c, l, n - 1);
    }
  }

  lemma RepeatedIsCanonical(p: seq<Lock>, f: Fence)
    requires forall i :: 0 <= i < |p| ==> p[i] == Lock(f, Exclusive)
    ensures Canonical(p)
  {
    forall j | 0 < j < |p|
      ensures !FirstTake(p, j) && !Upgrade(p, j)
    {
      assert p[0].fence == p[j].fence && p[0] == Lock(p[j].fence, Exclusive);
    }
  }

  lemma OthersAreCanonical(x: Transaction)
    requires !x.DisconnectWidget?
    ensures Canonical(TransactionLocks(x))
  {
    hide Canonical, Locks;
    var calls := Calls(x);
    match x
    case BindSource(w, src) =>
      TwoCalls(calls[0], calls[1]);
      BindingIsCanonical(w, [CONNECTORS, SourceSlug(src)], [TargetKey(src)]);
    case ChangeSource(w, src, takes) =>
      OneSurface(w, TargetKey(src));
      RepeatedCall(MutateSurfaces(w, [TargetKey(src)]), Lock(Surface(w, TargetKey(src)), Exclusive), takes);
      RepeatedIsCanonical(TransactionLocks(x), Surface(w, TargetKey(src)));
    case Reconcile =>
      TwoCalls(calls[0], calls[1]);
      ReconciliationIsCanonical(CONNECTORS);
    case Seed(agents, connectors) =>
      if agents && connectors {
        assert calls == [MutateApp(AGENTS), MutateApp(CONNECTORS)];
        TwoCalls(MutateApp(AGENTS), MutateApp(CONNECTORS));
        SeedIsCanonical();
      } else if agents || connectors {
        assert calls == [MutateApp(if agents then AGENTS else CONNECTORS)];
        OneCall(calls[0]);
        CallsAscend(calls[0]);
      } else {
        AscendingIsCanonical([]);
      }
    case DisconnectWidget(_, _) => assert false;
    case _ =>
      OneCall(calls[0]);
      CallsAscend(calls[0]);
  }

  /** Disconnecting a widget takes the later fence first: it is the one transaction that is not canonical. */
  lemma TransactionIsSafeExactlyWhen(x: Transaction)
    ensures Canonical(TransactionLocks(x)) <==> !x.DisconnectWidget?
    ensures SafeBesideCanonical(TransactionLocks(x)) <==> !x.DisconnectWidget?
  {
    hide Canonical, SafeBesideCanonical, TransactionLocks;
    var p := TransactionLocks(x);
    SafeExactlyWhenOrderly(p);
    if x.DisconnectWidget? {
      DisconnectTakes(x.workspace, x.id);
      assert FirstTake(p, 1) && !Before(p[0].fence, p[1].fence);
      assert !InOrder(p);
      CanonicalIsInOrder(p);
    } else {
      OthersAreCanonical(x);
      CanonicalIsInOrder(p);
    }
  }

  lemma CanonicalIsInOrder(p: seq<Lock>)
    ensures Canonical(p) ==> InOrder(p) && Orderly(p)
    ensures Orderly(p) ==> InOrder(p)
  {
  }

  // ----- What they protect from each other -----

  /** What a transaction reads under its admission. */
  predicate ReliesOn(x: Transaction, f: Fence) {
    match x
    case AdmitApp(w, slug) => f == App(slug) || f == Workspace(w) || f == WorkspaceApp(w, slug)
    case AdmitSource(w, src) => ServesSource(w, src, f) || f == Surface(w, TargetKey(src))
    case Deliver(w, c, b) =>
      || f == App("whatsapp") || f == Workspace(w) || f == WorkspaceApp(w, "whatsapp")
      || f == Surface(w, "whatsapp:" + c + ":" + b)
    case BindSource(w, src) => ServesSource(w, src, f)
    case _ => false
  }

  predicate ServesSource(w: WorkspaceId, src: Source, f: Fence) {
    var slug := if src.Widget? then "chat-widget" else "whatsapp";
    || f == Workspace(w)
    || f == App("mcp-connectors") || f == App(slug)
    || f == WorkspaceApp(w, "mcp-connectors") || f == WorkspaceApp(w, slug)
  }

  /** What a transaction changes. */
  predicate Restricts(y: Transaction, f: Fence) {
    match y
    case BindSource(w, src) => f == Surface(w, TargetKey(src))
    case ChangeApp(slug) => f == App(slug)
    case ChangeWorkspace(w) => f == Workspace(w)
    case ChangeWorkspaceApp(w, slug) => f == WorkspaceApp(w, slug)
    case ChangeSource(w, src, takes) => takes > 0 && f == Surface(w, TargetKey(src))
    case Reconcile => f == App("mcp-connectors")
    case Seed(agents, connectors) => (agents && f == App("agents-ai")) || (connectors && f == App("mcp-connectors"))
    case DisconnectWidget(w, id) => f == Surface(w, "widget:" + id) || f == WorkspaceApp(w, "chat-widget")
    case _ => false
  }

  lemma {:induction false} TakesEachCall(calls: seq<Call>, i: nat, l: Lock)
    requires i < |calls| && l in Locks(calls[i])
    ensures l in LocksOf(calls)
  {
    hide Locks;
    if i > 0 {
      TakesEachCall(calls[1..], i - 1, l);
    }
  }

  lemma ReliedOnIsShared(x: Transaction, f: Fence)
    requires ReliesOn(x, f)
    ensures Lock(f, Shared) in TransactionLocks(x)
  {
    hide Locks, LexLess, LocksOf;
    var c := Calls(x)[0];
    AdmissionHas(c.workspace, c.slugs, c.targets);
    TakesEachCall(Calls(x), 0, Lock(f, Shared));
  }

  lemma RestrictedIsExclusive(y: Transaction, f: Fence)
    requires Restricts(y, f)
    ensures Lock(f, Exclusive) in TransactionLocks(y)
  {
    hide LocksOf, LexLess;
    var calls := Calls(y);
    var i := if y.BindSource? || (y.DisconnectWidget? && f.WorkspaceApp?) then 1
             else if y.Seed? && y.agents && f == App("mcp-connectors") then 1 else 0;
    if y.BindSource? || y.ChangeSource? {
      OneSurface(y.workspace, TargetKey(y.source));
    } else if y.DisconnectWidget? {
      OneSurface(y.workspace, TargetKey(Widget(y.id)));
    }
    TakesEachCall(calls, i, Lock(f, Exclusive));
  }

  /** While a transaction that relies on something is past its locks, no other is past its own that changes the same. */
  lemma NoneChangesWhatAnotherReliesOn(r: Run, i: nat, t: TxId, u: TxId, x: Transaction, y: Transaction, f: Fence)
    requires IsRun(r) && i < |r.states| && t in r.states[i].txs && u in r.states[i].txs && t != u
    requires r.states[i].txs[t].program == TransactionLocks(x) && r.states[i].txs[u].program == TransactionLocks(y)
    requires ReliesOn(x, f) && Restricts(y, f)
    requires r.states[i].txs[t].active && !Pending(r.states[i].txs[t])
    ensures !r.states[i].txs[u].active || Pending(r.states[i].txs[u])
  {
    hide TransactionLocks, ReliesOn, Restricts;
    ReliedOnIsShared(x, f);
    RestrictedIsExclusive(y, f);
    InvHolds(r, i);
    var a, b := r.states[i].txs[t], r.states[i].txs[u];
    assert a.held == |a.program| && a.program[..a.held] == a.program;
    assert Holds(a, f, Shared);
    assert b.held == |b.program| ==> b.program[..b.held] == b.program;
    NoOverlap(r, i, t, u, f);
  }

  // ----- A mix of transactions -----

  ghost predicate RunsOf(s: State, mix: iset<Transaction>) {
    forall t <- s.txs :: ProgramOf(s.txs[t].program, mix)
  }

  ghost predicate ProgramOf(p: seq<Lock>, mix: iset<Transaction>) {
    exists x :: x in mix && p == TransactionLocks(x)
  }

  /** However many of them run and however they are scheduled, no wait-for cycle comes up. */
  ghost predicate FreeOfCycles(mix: iset<Transaction>) {
    forall r: Run, path: seq<TxId> {:trigger WaitChain(Last(r), path)} ::
      IsRun(r) && RunsOf(Last(r), mix) && WaitChain(Last(r), path) ==> path[0] != path[|path| - 1]
  }

  /** A widget is disconnected while calls from it are admitted, or while a tool is bound to it. */
  ghost predicate ServesWhileDisconnecting(mix: iset<Transaction>) {
    exists w, id :: DisconnectWidget(w, id) in mix
                    && (AdmitSource(w, Widget(id)) in mix || BindSource(w, Widget(id)) in mix)
  }

  // ----- The deadlock -----

  /** What an admission or a binding for a widget takes: the app among others, and the surface last. */
  lemma ServingTakes(w: WorkspaceId, id: string, x: Transaction) returns (i: nat)
    requires x == AdmitSource(w, Widget(id)) || x == BindSource(w, Widget(id))
    ensures var p := TransactionLocks(x);
      && i < |p| - 1 && p[i] == Lock(WorkspaceApp(w, CHAT_WIDGET), Shared)
      && p[|p| - 1].fence == Surface(w, TargetKey(Widget(id)))
      && forall k :: 0 <= k < |p| - 1 ==> !p[k].fence.Surface?
  {
    hide TransactionLocks, Locks, LexLess, TargetKey;
    var base := Locks(Admit(w, [CONNECTORS, CHAT_WIDGET], []));
    var last := ServingEnds(w, id, x);
    AdmissionHas(w, [CONNECTORS, CHAT_WIDGET], []);
    assert Lock(WorkspaceApp(w, CHAT_WIDGET), Shared) in base;
    i :| 0 <= i < |base| && base[i] == Lock(WorkspaceApp(w, CHAT_WIDGET), Shared);
    assert forall k :: 0 <= k < |base| ==> TransactionLocks(x)[k] == base[k] && base[k] in base;
  }

  lemma ServingEnds(w: WorkspaceId, id: string, x: Transaction) returns (last: Lock)
    requires x == AdmitSource(w, Widget(id)) || x == BindSource(w, Widget(id))
    ensures last.fence == Surface(w, TargetKey(Widget(id)))
    ensures TransactionLocks(x) == Locks(Admit(w, [CONNECTORS, CHAT_WIDGET], [])) + [last]
  {
    hide LexLess;
    var key := TargetKey(Widget(id));
    OneTarget(key);
    assert SortedSet([]) == [];
    last := Lock(Surface(w, key), if x.BindSource? then Exclusive else Shared);
    if x.BindSource? {
      OneSurface(w, key);
      TwoCalls(Calls(x)[0], Calls(x)[1]);
    } else {
      OneCall(Calls(x)[0]);
    }
  }

  lemma AdmissionHas(w: WorkspaceId, slugs: seq<string>, targets: seq<string>)
    ensures forall l: Lock :: l in Locks(Admit(w, slugs, targets)) <==>
      l.mode == Shared && AdmissionCovers(w, slugs, targets, l.fence)
  {
    hide LexLess;
    AdmissionListed(w, SortedSet(slugs), SortedSet(targets), slugs, targets);
    forall l: Lock
      ensures l in Locks(Admit(w, slugs, targets)) <==> l.mode == Shared && AdmissionCovers(w, slugs, targets, l.fence)
    {
      assert l == Lock(l.fence, l.mode);
    }
  }

  /** Disconnecting the widget holds its surface and waits for its app, which a call or binding holds the other way round. */
  lemma DisconnectDeadlocks(w: WorkspaceId, id: string, x: Transaction) returns (r: Run)
    requires x == AdmitSource(w, Widget(id)) || x == BindSource(w, Widget(id))
    ensures IsRun(r) && Embrace(Last(r), 0, 1)
    ensures RunsOf(Last(r), iset{x, DisconnectWidget(w, id)})
  {
    hide TransactionLocks;
    var p, q := TransactionLocks(x), TransactionLocks(DisconnectWidget(w, id));
    DisconnectTakes(w, id);
    var i := ServingTakes(w, id, x);
    r := TakeUpTo(p, q, |p| - 1);
    r := Meet(r, p, |p| - 1, q, 1, i, 0);
  }

  // ----- No other deadlock -----

  lemma WidgetKey(s: Source, id: string)
    ensures TargetKey(s) == TargetKey(Widget(id)) <==> s == Widget(id)
  {
    assert TargetKey(Widget(id))[7..] == id;
    assert TargetKey(Widget(id))[1] == 'i';
    match s
    case Widget(other) => assert TargetKey(s)[7..] == other;
    case Channel(c, b) => assert TargetKey(s)[1] == 'h';
  }

  /** A transaction that waits for a widget's surface and does not serve the widget holds nothing. */
  lemma SurfaceWaiterHoldsNothing(x: Transaction, y: Tx, w: WorkspaceId, id: string)
    requires y.program == TransactionLocks(x) && Waiting(y) && !Covered(y)
    requires y.program[y.held].fence == Surface(w, TargetKey(Widget(id)))
    requires x != AdmitSource(w, Widget(id)) && x != BindSource(w, Widget(id))
    ensures y.held == 0
  {
    hide Locks, LexLess;
    var next, calls := y.program[y.held], Calls(x);
    assert next in y.program && next == Lock(next.fence, next.mode);
    match x
    case ChangeSource(v, src, takes) =>
      OneSurface(v, TargetKey(src));
      RepeatedCall(MutateSurfaces(v, [TargetKey(src)]), Lock(Surface(v, TargetKey(src)), Exclusive), takes);
      if y.held > 0 {
        TakenBefore(y);
      }
    case DisconnectWidget(v, other) => DisconnectTakes(v, other);
    case _ => NoSurfaceBut(x, next, w, id);
  }

  lemma TakenBefore(y: Tx)
    requires Pending(y) && y.held > 0 && y.program[0] == y.program[y.held] && y.program[y.held].mode.Exclusive?
    ensures Covered(y)
  {
    assert y.program[..y.held][0] == Lock(y.program[y.held].fence, Exclusive);
  }

  lemma NoSurfaceBut(x: Transaction, l: Lock, w: WorkspaceId, id: string)
    requires !x.ChangeSource? && !x.DisconnectWidget? && l in TransactionLocks(x)
    requires l.fence == Surface(w, TargetKey(Widget(id)))
    ensures x == AdmitSource(w, Widget(id)) || x == BindSource(w, Widget(id))
  {
    var calls := Calls(x);
    assert l in LocksOf(calls);
    if |calls| == 2 {
      TwoCalls(calls[0], calls[1]);
      assert calls == [calls[0], calls[1]];
    } else if |calls| == 1 {
      OneCall(calls[0]);
      assert calls == [calls[0]];
    }
    match x
    case AdmitApp(v, slug) => AdmissionHas(v, [slug], []);
    case AdmitSource(v, src) =>
      AdmissionHas(v, [CONNECTORS, SourceSlug(src)], [TargetKey(src)]);
      WidgetKey(src, id);
    case Deliver(v, c, b) =>
      AdmissionHas(v, [WHATSAPP], [TargetKey(Channel(c, b))]);
      WidgetKey(Channel(c, b), id);
    case BindSource(v, src) =>
      AdmissionHas(v, [CONNECTORS, SourceSlug(src)], []);
      OneSurface(v, TargetKey(src));
      WidgetKey(src, id);
    case _ =>
  }

  /** The surface of a widget that some transaction of the mix disconnects. */
  ghost predicate Contended(mix: iset<Transaction>, f: Fence) {
    exists w, id :: DisconnectWidget(w, id) in mix && f == Surface(w, TargetKey(Widget(id)))
  }

  /** The order that waiting follows in such a mix: contended surfaces go first. */
  ghost predicate Beyond(s: State, mix: iset<Transaction>, t: TxId, u: TxId)
    requires t in s.txs && Waiting(s.txs[t]) && u in s.txs && Waiting(s.txs[u])
  {
    var first, second := Contended(mix, Next(s, t)), Contended(mix, Next(s, u));
    (first && !second) || (first == second && Ahead(s, t, u))
  }

  lemma ContendedWaiterHoldsNothing(s: State, mix: iset<Transaction>, t: TxId)
    requires NoRetakeWaits(s) && RunsOf(s, mix) && !ServesWhileDisconnecting(mix)
    requires t in s.txs && Waiting(s.txs[t]) && Contended(mix, Next(s, t))
    ensures s.txs[t].held == 0
  {
    hide TransactionLocks, Covered;
    assert ProgramOf(s.txs[t].program, mix);
    var x :| x in mix && s.txs[t].program == TransactionLocks(x);
    var w, id :| DisconnectWidget(w, id) in mix && Next(s, t) == Surface(w, TargetKey(Widget(id)));
    SurfaceWaiterHoldsNothing(x, s.txs[t], w, id);
  }

  lemma DisconnectHoldsItsSurface(y: Tx, f: Fence, w: WorkspaceId, id: string)
    requires y.program == TransactionLocks(DisconnectWidget(w, id)) && Waiting(y) && HoldsFence(y, f)
    ensures f == Surface(w, TargetKey(Widget(id)))
  {
    hide TransactionLocks;
    DisconnectTakes(w, id);
    var i := HeldIsTaken(y, f, if Holds(y, f, Shared) then Shared else Exclusive);
  }

  lemma BlockerIsBeyond(s: State, mix: iset<Transaction>, u: TxId, t: TxId)
    requires Inv(s) && RunsOf(s, mix) && !ServesWhileDisconnecting(mix)
    requires t in s.txs && u in s.txs && Waiting(s.txs[t]) && Waiting(s.txs[u]) && Blocks(s, u, t)
    ensures Beyond(s, mix, t, u)
  {
    hide Inv, RunsOf, TransactionLocks, Canonical, Covered, ServesWhileDisconnecting, Holds;
    if HeldAgainst(s, u, t) {
      var f := Next(s, t);
      assert HoldsFence(s.txs[u], f);
      HolderHolds(s.txs[u], f);
      assert Inv(s) ==> NoRetakeWaits(s) by { InvParts(s); }
      if Contended(mix, Next(s, u)) {
        ContendedWaiterHoldsNothing(s, mix, u);
      }
      var x := RunsSome(s, mix, u);
      if x.DisconnectWidget? {
        DisconnectHoldsItsSurface(s.txs[u], f, x.workspace, x.id);
        assert DisconnectWidget(x.workspace, x.id) == x;
      } else {
        OthersAreCanonical(x);
        assert Obeys(s.txs[u], []);
        HolderWaitsLater(s, [], u, f);
      }
    }
  }

  lemma HolderHolds(y: Tx, f: Fence)
    requires HoldsFence(y, f)
    ensures y.held > 0
  {
  }

  lemma InvParts(s: State)
    requires Inv(s)
    ensures NoRetakeWaits(s)
  {
  }

  lemma RunsSome(s: State, mix: iset<Transaction>, u: TxId) returns (x: Transaction)
    requires RunsOf(s, mix) && u in s.txs
    ensures x in mix && s.txs[u].program == TransactionLocks(x)
  {
    assert ProgramOf(s.txs[u].program, mix);
    x :| x in mix && s.txs[u].program == TransactionLocks(x);
  }

  lemma {:induction false} ChainGoesBeyond(s: State, mix: iset<Transaction>, path: seq<TxId>)
    requires Inv(s) && RunsOf(s, mix) && !ServesWhileDisconnecting(mix) && WaitChain(s, path)
    ensures Beyond(s, mix, path[0], path[|path| - 1])
    decreases |path|
  {
    hide Inv, RunsOf, ServesWhileDisconnecting, Ahead, Blocks, Contended;
    BlockerIsBeyond(s, mix, path[1], path[0]);
    if |path| > 2 {
      assert WaitChain(s, path[1..]) by {
        assert forall i :: 0 <= i < |path| - 1 ==> path[1..][i] == path[i + 1];
      }
      ChainGoesBeyond(s, mix, path[1..]);
      if Ahead(s, path[0], path[1]) && Ahead(s, path[1], path[|path| - 1]) {
        AheadTransitive(s, path[0], path[1], path[|path| - 1]);
      }
    }
  }

  /**
   The transactions of the code, any number of each and in any interleaving, are free of wait-for cycles
   exactly when no widget is disconnected while it is served: with no call from it admitted and no tool bound to it.
   */
  lemma FreeOfCyclesExactlyWhen(mix: iset<Transaction>)
    ensures FreeOfCycles(mix) <==> !ServesWhileDisconnecting(mix)
  {
    hide TransactionLocks, Inv, Ahead;
    if ServesWhileDisconnecting(mix) {
      var w, id :| DisconnectWidget(w, id) in mix
                   && (AdmitSource(w, Widget(id)) in mix || BindSource(w, Widget(id)) in mix);
      var x := if AdmitSource(w, Widget(id)) in mix then AdmitSource(w, Widget(id)) else BindSource(w, Widget(id));
      var r := DisconnectDeadlocks(w, id, x);
      EmbraceRefutes(r, iset{x, DisconnectWidget(w, id)}, mix);
    } else {
      forall r: Run, path: seq<TxId> | IsRun(r) && RunsOf(Last(r), mix) && WaitChain(Last(r), path)
        ensures path[0] != path[|path| - 1]
      {
        InvHolds(r, |r.states| - 1);
        ChainGoesBeyond(Last(r), mix, path);
        AheadStrict(Last(r), path[0]);
      }
    }
  }

  lemma AheadStrict(s: State, t: TxId)
    requires t in s.txs && Waiting(s.txs[t])
    ensures !Ahead(s, t, t)
  {
    BeforeStrict(Next(s, t), Next(s, t));
  }

  lemma EmbraceRefutes(r: Run, part: iset<Transaction>, mix: iset<Transaction>)
    requires IsRun(r) && Embrace(Last(r), 0, 1) && RunsOf(Last(r), part) && part <= mix
    ensures !FreeOfCycles(mix)
  {
    hide TransactionLocks;
    var path := [0, 1, 0];
    assert Blocks(Last(r), 1, 0) && Blocks(Last(r), 0, 1);
    assert WaitChain(Last(r), path);
    forall t <- Last(r).txs
      ensures ProgramOf(Last(r).txs[t].program, mix)
    {
      var x := RunsSome(Last(r), part, t);
    }
  }
}
