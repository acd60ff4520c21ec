/**
 Paid-admission fences: the advisory locks that an admission takes shared and a restrictive mutation takes
 exclusive, in one canonical order: apps, then workspaces, then apps of a workspace, then surface targets. Lock
 identity is the fence itself, that is, the hashed fence keys are taken as injective.
 */
module RuntimeFences {
  import opened Common

  type WorkspaceId = nat

  datatype Fence =
    | App(slug: string)
    | Workspace(workspace: WorkspaceId)
    | WorkspaceApp(workspace: WorkspaceId, slug: string)
    | Surface(workspace: WorkspaceId, target: string)

  datatype Mode = Shared | Exclusive

  datatype Lock = Lock(fence: Fence, mode: Mode)

  // ----- The canonical order -----

  /** Code-point order of strings, as `sorted` uses it. */
  predicate LexLess(a: string, b: string) {
    b != [] && (a == [] || a[0] < b[0] || (a[0] == b[0] && LexLess(a[1..], b[1..])))
  }

  lemma {:induction false} LexTransitive(a: string, b: string, c: string)
    requires LexLess(a, b) && LexLess(b, c)
    ensures LexLess(a, c)
  {
    if a != [] && a[0] == b[0] && b[0] == c[0] {
      LexTransitive(a[1..], b[1..], c[1..]);
    }
  }

  lemma {:induction false} LexIrreflexive(a: string)
    ensures !LexLess(a, a)
  {
    if a != [] {
      LexIrreflexive(a[1..]);
    }
  }

  lemma {:induction false} LexTotal(a: string, b: string)
    ensures a == b || LexLess(a, b) || LexLess(b, a)
  {
    if a != [] && b != [] && a[0] == b[0] {
      LexTotal(a[1..], b[1..]);
      assert a == [a[0]] + a[1..] && b == [b[0]] + b[1..];
    }
  }

  function Rank(f: Fence): nat {
    match f
    case App(_) => 0
    case Workspace(_) => 1
    case WorkspaceApp(_, _) => 2
    case Surface(_, _) => 3
  }

  function FenceWorkspace(f: Fence): nat {
    if f.App? then 0 else f.workspace
  }

  function FenceName(f: Fence): string {
    match f
    case App(slug) => slug
    case Workspace(_) => ""
    case WorkspaceApp(_, slug) => slug
    case Surface(_, target) => target
  }

  predicate Before(f: Fence, g: Fence) {
    || Rank(f) < Rank(g)
    || (Rank(f) == Rank(g) && FenceWorkspace(f) < FenceWorkspace(g))
    || (Rank(f) == Rank(g) && FenceWorkspace(f) == FenceWorkspace(g) && LexLess(FenceName(f), FenceName(g)))
  }

  lemma BeforeTransitive(f: Fence, g: Fence, h: Fence)
    requires Before(f, g) && Before(g, h)
    ensures Before(f, h)
  {
    if Rank(f) == Rank(h) && FenceWorkspace(f) == FenceWorkspace(h) {
      LexTransitive(FenceName(f), FenceName(g), FenceName(h));
    }
  }

  lemma BeforeStrict(f: Fence, g: Fence)
    ensures !Before(f, f)
    ensures f == g || Before(f, g) || Before(g, f)
    ensures !(Before(f, g) && Before(g, f))
  {
    LexIrreflexive(FenceName(f));
    LexTotal(FenceName(f), FenceName(g));
    if Before(f, g) && Before(g, f) {
      BeforeTransitive(f, g, f);
    }
  }

  /** Locks listed strictly in the canonical order. */
  predicate Ascending(locks: seq<Lock>) {
    forall i, j :: 0 <= i < j < |locks| ==> Before(locks[i].fence, locks[j].fence)
  }

  // ----- What the acquire functions request -----

  predicate StrictlySorted(names: seq<string>) {
    forall i, j :: 0 <= i < j < |names| ==> LexLess(names[i], names[j])
  }

  function Insert(name: string, names: seq<string>): (r: seq<string>)
    requires StrictlySorted(names)
    ensures StrictlySorted(r)
    ensures forall x :: x in r <==> x == name || x in names
  {
    if names == [] then [name]
    else if name == names[0] then names
    else if LexLess(name, names[0]) then
      assert forall j :: 0 < j < |names| ==> LexLess(name, names[j]) by {
        forall j | 0 < j < |names| ensures LexLess(name, names[j]) { LexTransitive(name, names[0], names[j]); }
      }
      [name] + names
    else
      LexTotal(name, names[0]);
      var rest := Insert(name, names[1..]);
      assert forall x :: x in names <==> x == names[0] || x in names[1..];
      assert forall j :: 0 <= j < |rest| ==> rest[j] in rest;
      [names[0]] + rest
  }

  /** `tuple(sorted(set(names)))` */
  function SortedSet(names: seq<string>): (r: seq<string>)
    ensures StrictlySorted(r)
    ensures forall x :: x in r <==> x in names
  {
    if names == [] then [] else Insert(names[0], SortedSet(names[1..]))
  }

  function AppLocks(slugs: seq<string>, mode: Mode): (r: seq<Lock>)
    ensures |r| == |slugs| && forall i :: 0 <= i < |r| ==> r[i] == Lock(App(slugs[i]), mode)
  {
    seq(|slugs|, i requires 0 <= i < |slugs| => Lock(App(slugs[i]), mode))
  }

  function WorkspaceAppLocks(w: WorkspaceId, slugs: seq<string>, mode: Mode): (r: seq<Lock>)
    ensures |r| == |slugs| && forall i :: 0 <= i < |r| ==> r[i] == Lock(WorkspaceApp(w, slugs[i]), mode)
  {
    seq(|slugs|, i requires 0 <= i < |slugs| => Lock(WorkspaceApp(w, slugs[i]), mode))
  }

  function SurfaceLocks(w: WorkspaceId, targets: seq<string>, mode: Mode): (r: seq<Lock>)
    ensures |r| == |targets| && forall i :: 0 <= i < |r| ==> r[i] == Lock(Surface(w, targets[i]), mode)
  {
    seq(|targets|, i requires 0 <= i < |targets| => Lock(Surface(w, targets[i]), mode))
  }

  datatype Refused = NoSlug | NoTarget

  /** The lock list of `acquire_runtime_admission_fences`, in its order. */
  method AdmissionLocks(w: WorkspaceId, appSlugs: seq<string>, surfaceTargets: seq<string>)
    returns (r: Result<seq<Lock>, Refused>)
    ensures r.Err? <==> appSlugs == []
    ensures r.Ok? ==>
      && Ascending(r.value)
      && (forall l <- r.value :: l.mode == Shared)
      && (forall f :: Lock(f, Shared) in r.value <==> AdmissionCovers(w, appSlugs, surfaceTargets, f))
      && r.value == AdmissionList(w, SortedSet(appSlugs), SortedSet(surfaceTargets))
  {
    var slugs := SortedSet(appSlugs);
    assert appSlugs == [] || appSlugs[0] in slugs;
    if slugs == [] {
      return Err(NoSlug);
    }
    assert slugs[0] in appSlugs;
    var targets := SortedSet(surfaceTargets);
    var locks := AppLocks(slugs, Shared);
    locks := locks + [Lock(Workspace(w), Shared)];
    locks := locks + WorkspaceAppLocks(w, slugs, Shared);
    locks := locks + SurfaceLocks(w, targets, Shared);
    AdmissionListed(w, slugs, targets, appSlugs, surfaceTargets);
    return Ok(locks);
  }

  /** The fences of an admission: its apps, its workspace, its apps in that workspace,
      and its exact surface targets. */
  predicate AdmissionCovers(w: WorkspaceId, appSlugs: seq<string>, surfaceTargets: seq<string>, f: Fence) {
    match f
    case App(slug) => slug in appSlugs
    case Workspace(v) => v == w
    case WorkspaceApp(v, slug) => v == w && slug in appSlugs
    case Surface(v, target) => v == w && target in surfaceTargets
  }

  function AdmissionList(w: WorkspaceId, slugs: seq<string>, targets: seq<string>): seq<Lock> {
    AppLocks(slugs, Shared) + [Lock(Workspace(w), Shared)]
    + WorkspaceAppLocks(w, slugs, Shared) + SurfaceLocks(w, targets, Shared)
  }

  lemma AdmissionListed(w: WorkspaceId, slugs: seq<string>, targets: seq<string>, appSlugs: seq<string>, surfaceTargets: seq<string>)
    requires StrictlySorted(slugs) && StrictlySorted(targets)
    requires forall x :: x in slugs <==> x in appSlugs
    requires forall x :: x in targets <==> x in surfaceTargets
    ensures
      var locks := AdmissionList(w, slugs, targets);
      && Ascending(locks)
      && (forall l <- locks :: l.mode == Shared)
      && (forall f :: Lock(f, Shared) in locks <==> AdmissionCovers(w, appSlugs, surfaceTargets, f))
  {
    hide LexLess;
    var a, b := AppLocks(slugs, Shared), [Lock(Workspace(w), Shared)];
    var c, d := WorkspaceAppLocks(w, slugs, Shared), SurfaceLocks(w, targets, Shared);
    forall f
      ensures Lock(f, Shared) in AdmissionList(w, slugs, targets) <==> AdmissionCovers(w, appSlugs, surfaceTargets, f)
    {
      match f
      case App(slug) => MemberOf(slugs, slug, a, Lock(f, Shared));
      case Workspace(v) =>
      case WorkspaceApp(v, slug) => MemberOf(slugs, slug, c, Lock(WorkspaceApp(w, slug), Shared));
      case Surface(v, target) => MemberOf(targets, target, d, Lock(Surface(w, target), Shared));
    }
  }

  lemma MemberOf(names: seq<string>, name: string, locks: seq<Lock>, l: Lock)
    requires |names| == |locks|
    requires forall i :: 0 <= i < |names| ==> (names[i] == name <==> locks[i] == l)
    ensures name in names <==> l in locks
  {
    if name in names {
      var i :| 0 <= i < |names| && names[i] == name;
      assert locks[i] == l;
    }
    if l in locks {
      var i :| 0 <= i < |locks| && locks[i] == l;
      assert names[i] == name;
    }
  }

  predicate SurfaceMutationCovers(w: WorkspaceId, surfaceTargets: seq<string>, l: Lock) {
    l.mode == Exclusive && l.fence.Surface? && l.fence.workspace == w && l.fence.target in surfaceTargets
  }

  /** The lock list of `acquire_surface_target_runtime_mutation_fences`. */
  method SurfaceMutationLocks(w: WorkspaceId, surfaceTargets: seq<string>) returns (r: Result<seq<Lock>, Refused>)
    ensures r.Err? <==> surfaceTargets == []
    ensures r.Ok? ==>
      && Ascending(r.value)
      && (forall l: Lock :: l in r.value <==> SurfaceMutationCovers(w, surfaceTargets, l))
      && r.value == SurfaceLocks(w, SortedSet(surfaceTargets), Exclusive)
  {
    hide LexLess;
    var targets := SortedSet(surfaceTargets);
    assert surfaceTargets == [] || surfaceTargets[0] in targets;
    if targets == [] {
      return Err(NoTarget);
    }
    assert targets[0] in surfaceTargets;
    var locks := SurfaceLocks(w, targets, Exclusive);
    forall l: Lock | SurfaceMutationCovers(w, surfaceTargets, l)
      ensures l in locks
    {
      MemberOf(targets, l.fence.target, locks, l);
    }
    return Ok(locks);
  }

  /** A transaction that admits without surface targets and then mutates surface
      targets still takes its locks in order. */
  lemma AdmissionThenSurfaceMutation(admission: seq<Lock>, mutation: seq<Lock>)
    requires Ascending(admission) && forall i :: 0 <= i < |admission| ==> !admission[i].fence.Surface?
    requires Ascending(mutation) && forall i :: 0 <= i < |mutation| ==> mutation[i].fence.Surface?
    ensures Ascending(admission + mutation)
  {
  }
}
