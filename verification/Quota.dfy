/**
 The daily request quota of the agents product: one charge for each committed request,
 counted per workspace and UTC day, with the receipt stored on the request's reservation.
 Moments are microseconds since the Unix epoch.
 */
module Quota {
  import opened Common

  const SECOND: int := 1_000_000
  const DAY: int := 86_400 * SECOND

  datatype Window = Window(start: int, end: int)

  /** The UTC day that holds a moment. */
  function DailyWindow(moment: int): (w: Window)
    ensures w.start <= moment < w.end
    ensures forall other: int :: w.start <= other < w.end ==> (other - other % DAY) == w.start
  {
    Window(moment - moment % DAY, moment - moment % DAY + DAY)
  }

  // ----- Rows -----

  /** What the unique constraint on counters tells apart, for this metric's daily periods. */
  datatype CounterKey = CounterKey(workspace: nat, start: int)

  datatype Counter = Counter(id: nat, end: int, used: int, reserved: int)

  /** The quota receipt in a reservation's metadata: none yet, one that does not parse, or a charge. */
  datatype Stored = NoReceipt | Garbled | Charged(counter: nat, start: int, end: int, limit: int)

  datatype ReservationKey = ReservationKey(workspace: nat, request: string)

  datatype Store = Store(counters: map<CounterKey, Counter>, reservations: map<ReservationKey, Stored>)

  /** The access snapshot of an admission. */
  datatype Access = Access(workspace: nat, agentsApp: bool, limit: int, decisionAt: int)

  datatype Receipt = Receipt(request: string, start: int, end: int, counter: nat, used: int, limit: int)

  datatype Refusal =
    | RequestIdMissing
    | SnapshotMismatch
    | ReservationMissing
    | ReceiptInvalid
    | ReceiptUnavailable
    | MeteringUnavailable
    | Exceeded(used: int, limit: int, resetAt: int, retryAfter: int)

  // ----- What a charge and a replay compute -----

  predicate IdTaken(counters: map<CounterKey, Counter>, id: nat) {
    exists k <- counters :: counters[k].id == id
  }

  /** Whole seconds until the reset, at least one. */
  function RetryAfter(resetAt: int, decisionAt: int): int {
    var seconds := -((decisionAt - resetAt) / SECOND);
    if seconds < 1 then 1 else seconds
  }

  function Opened(c: map<CounterKey, Counter>, k: CounterKey, id: nat): map<CounterKey, Counter> {
    if k in c then c else c[k := Counter(id, k.start + DAY, 0, 0)]
  }

  predicate Usable(c: Counter, end: int) {
    c.end == end && c.used >= 0 && c.reserved >= 0
  }

  function Charge(s: Store, r: ReservationKey, a: Access, id: nat): (Store, Result<Receipt, Refusal>)
  {
    var w := DailyWindow(a.decisionAt);
    var k := CounterKey(r.workspace, w.start);
    if k !in s.counters && IdTaken(s.counters, id) then (s, Err(MeteringUnavailable))
    else
      var counters := Opened(s.counters, k, id);
      var c := counters[k];
      if !Usable(c, w.end) then (s.(counters := counters), Err(MeteringUnavailable))
      else if c.used + c.reserved >= a.limit then
        (s.(counters := counters), Err(Exceeded(c.used, a.limit, w.end, RetryAfter(w.end, a.decisionAt))))
      else
        (Store(counters[k := c.(used := c.used + 1)],
               s.reservations[r := Charged(c.id, w.start, w.end, a.limit)]),
         Ok(Receipt(r.request, w.start, w.end, c.id, c.used + 1, a.limit)))
  }

  function Replay(s: Store, r: ReservationKey, stored: Stored): Result<Receipt, Refusal>
    requires stored.Charged?
  {
    var k := CounterKey(r.workspace, stored.start);
    if stored.end <= stored.start || stored.limit <= 0 then Err(ReceiptInvalid)
    else if k !in s.counters || s.counters[k].id != stored.counter || s.counters[k].end != stored.end then
      Err(ReceiptUnavailable)
    else
      Ok(Receipt(r.request, stored.start, stored.end, stored.counter, s.counters[k].used, stored.limit))
  }

  function Consumed(s: Store, workspace: nat, request: string, a: Access, id: nat): (Store, Result<Receipt, Refusal>)
  {
    var r := ReservationKey(workspace, request);
    if request == "" then (s, Err(RequestIdMissing))
    else if a.workspace != workspace || !a.agentsApp then (s, Err(SnapshotMismatch))
    else if r !in s.reservations then (s, Err(ReservationMissing))
    else match s.reservations[r]
      case Garbled => (s, Err(ReceiptInvalid))
      case Charged(_, _, _, _) => (s, Replay(s, r, s.reservations[r]))
      case NoReceipt => Charge(s, r, a, id)
  }

  // ----- The service, on its rows -----

  class QuotaRows {
    var counters: map<CounterKey, Counter>
    var reservations: map<ReservationKey, Stored>

    ghost function Now(): Store
      reads this
    {
      Store(counters, reservations)
    }

    /** The conditional update: at most one row matches, and a match is charged. */
    method ChargeCounter(k: CounterKey, end: int, limit: int) returns (charged: Option<(nat, int)>)
      modifies this`counters
      ensures charged.Some? <==>
          (&& k in old(counters) && Usable(old(counters)[k], end)
           && old(counters)[k].used + old(counters)[k].reserved < limit)
      ensures charged.None? ==> counters == old(counters)
      ensures charged.Some? ==>
          (&& charged.value == (old(counters)[k].id, old(counters)[k].used + 1)
           && counters == old(counters)[k := old(counters)[k].(used := old(counters)[k].used + 1)])
    {
      charged := None;
      if k in counters {
        var c := counters[k];
        if c.end == end && c.used >= 0 && c.reserved >= 0 && c.used + c.reserved < limit {
          counters := counters[k := c.(used := c.used + 1)];
          charged := Some((c.id, c.used + 1));
        }
      }
    }

    /** Charges a reservation once, or returns what it was charged before. */
    method Consume(workspace: nat, request: string, access: Access, freshId: nat) returns (result: Result<Receipt, Refusal>)
      modifies this
      ensures (Now(), result) == Consumed(old(Now()), workspace, request, access, freshId)
    {
      if request == "" {
        return Err(RequestIdMissing);
      }
      if access.workspace != workspace || !access.agentsApp {
        return Err(SnapshotMismatch);
      }
      var window := DailyWindow(access.decisionAt);
      var r := ReservationKey(workspace, request);
      if r !in reservations {
        return Err(ReservationMissing);
      }
      var stored := reservations[r];
      if stored.Charged? {
        result := Replay(Store(counters, reservations), r, stored);
        return;
      }
      if stored.Garbled? {
        return Err(ReceiptInvalid);
      }
      var k := CounterKey(workspace, window.start);
      if k !in counters {
        if IdTaken(counters, freshId) {
          return Err(MeteringUnavailable);
        }
        counters := counters[k := Counter(freshId, window.end, 0, 0)];
      }
      var charged := ChargeCounter(k, window.end, access.limit);
      if charged.None? {
        var state := counters[k];
        if state.reserved < 0 || state.used < 0 || state.end != window.end {
          return Err(MeteringUnavailable);
        }
        return Err(Exceeded(state.used, access.limit, window.end, RetryAfter(window.end, access.decisionAt)));
      }
      reservations := reservations[r := Charged(charged.value.0, window.start, window.end, access.limit)];
      return Ok(Receipt(request, window.start, window.end, charged.value.0, charged.value.1, access.limit));
    }
  }

  // ----- Runs of admissions -----

  /**
   One admission transaction: the reservation is made if it is not there, the quota is consumed,
   and the transaction commits. A refusal, or a failure to commit, rolls everything back.
   */
  datatype Admission = Admission(workspace: nat, request: string, access: Access, freshId: nat, commits: bool)

  function Reserved(s: Store, r: ReservationKey): Store {
    if r in s.reservations then s else s.(reservations := s.reservations[r := NoReceipt])
  }

  function Outcome(s: Store, m: Admission): (Store, Result<Receipt, Refusal>) {
    Consumed(Reserved(s, ReservationKey(m.workspace, m.request)), m.workspace, m.request, m.access, m.freshId)
  }

  function Next(s: Store, m: Admission): Store {
    var after := Outcome(s, m);
    if after.1.Ok? && m.commits then after.0 else s
  }

  function Run(ms: seq<Admission>): Store
    decreases |ms|
  {
    if ms == [] then Store(map[], map[]) else Next(Run(ms[..|ms| - 1]), ms[|ms| - 1])
  }

  /** The reservations charged on one counter's day. */
  function ChargedOn(s: Store, k: CounterKey): set<ReservationKey> {
    set r <- s.reservations | r.workspace == k.workspace && s.reservations[r].Charged? && s.reservations[r].start == k.start
  }

  /** The reservations whose receipt names a counter. */
  function Naming(s: Store, id: nat): set<ReservationKey> {
    set r <- s.reservations | s.reservations[r].Charged? && s.reservations[r].counter == id
  }

  predicate CounterGood(s: Store, k: CounterKey)
    requires k in s.counters
  {
    var c := s.counters[k];
    c.end == k.start + DAY && c.reserved == 0 && c.used == |ChargedOn(s, k)|
  }

  predicate ReservationGood(s: Store, r: ReservationKey)
    requires r in s.reservations
  {
    var stored := s.reservations[r];
    var k := CounterKey(r.workspace, if stored.Charged? then stored.start else 0);
    && !stored.Garbled?
    && (stored.Charged? ==>
          (k in s.counters && s.counters[k].id == stored.counter && stored.end == k.start + DAY && stored.limit > 0))
  }

  predicate DistinctIds(c: map<CounterKey, Counter>) {
    forall k, l :: k in c && l in c && c[k].id == c[l].id ==> k == l
  }

  predicate Inv(s: Store) {
    && DistinctIds(s.counters)
    && (forall k <- s.counters :: CounterGood(s, k))
    && (forall r <- s.reservations :: ReservationGood(s, r))
  }

  // ----- One step -----

  /** The admission asks for a new charge on the day of `k`. */
  predicate Asks(s: Store, m: Admission, k: CounterKey) {
    var r := ReservationKey(m.workspace, m.request);
    && m.request != "" && m.access.workspace == m.workspace && m.access.agentsApp
    && (r in s.reservations ==> s.reservations[r].NoReceipt?)
    && k == CounterKey(m.workspace, DailyWindow(m.access.decisionAt).start)
  }

  predicate ChargesOn(s: Store, m: Admission, k: CounterKey) {
    Asks(s, m, k) && m.commits && Outcome(s, m).1.Ok?
  }

  /** What a charge does to the store, in the terms of the invariant. */
  predicate ChargedStep(s: Store, t: Store, r: ReservationKey, k: CounterKey, limit: int) {
    && r.workspace == k.workspace
    && t.counters.Keys == s.counters.Keys + {k}
    && k in t.counters
    && (forall l <- s.counters :: l != k ==> t.counters[l] == s.counters[l])
    && t.counters[k].end == k.start + DAY && t.counters[k].reserved == 0
    && (if k in s.counters then
          t.counters[k].id == s.counters[k].id && t.counters[k].used == s.counters[k].used + 1
        else
          !IdTaken(s.counters, t.counters[k].id) && t.counters[k].used == 1)
    && t.reservations == s.reservations[r := Charged(t.counters[k].id, k.start, k.start + DAY, limit)]
    && limit > 0
  }

  lemma StepIs(s: Store, m: Admission)
    requires Inv(s)
    ensures var r, k := ReservationKey(m.workspace, m.request),
              CounterKey(m.workspace, DailyWindow(m.access.decisionAt).start);
      && (ChargesOn(s, m, k) ==> ChargedStep(s, Next(s, m), r, k, m.access.limit))
      && (!ChargesOn(s, m, k) ==> Next(s, m) == s)
  {
    hide ChargedOn;
    var r, k := ReservationKey(m.workspace, m.request), CounterKey(m.workspace, DailyWindow(m.access.decisionAt).start);
    assert r in s.reservations ==> ReservationGood(s, r);
    assert k in s.counters ==> CounterGood(s, k);
    var after := Outcome(s, m).0.reservations;
    assert r in after ==> Reserved(s, r).reservations[r := after[r]] == s.reservations[r := after[r]];
  }

  lemma ChargedOnAfter(s: Store, t: Store, r: ReservationKey, k: CounterKey, limit: int)
    requires ChargedStep(s, t, r, k, limit)
    requires r in s.reservations ==> s.reservations[r].NoReceipt?
    ensures ChargedOn(t, k) == ChargedOn(s, k) + {r} && r !in ChargedOn(s, k)
    ensures forall l: CounterKey :: l != k ==> ChargedOn(t, l) == ChargedOn(s, l)
  {
  }

  /** A day without a counter has no charges. */
  lemma NoCounterNoCharge(s: Store, k: CounterKey)
    requires Inv(s) && k !in s.counters
    ensures ChargedOn(s, k) == {}
  {
    forall r | r in s.reservations
      ensures r !in ChargedOn(s, k)
    {
      assert ReservationGood(s, r);
    }
  }

  lemma ChargeKeepsInv(s: Store, t: Store, r: ReservationKey, k: CounterKey, limit: int)
    requires Inv(s) && ChargedStep(s, t, r, k, limit)
    requires r in s.reservations ==> s.reservations[r].NoReceipt?
    ensures Inv(t)
  {
    hide ChargedOn;
    forall l | l in t.counters
      ensures CounterGood(t, l)
    {
      CountersStayGood(s, t, r, k, limit, l);
    }
    forall q | q in t.reservations
      ensures ReservationGood(t, q)
    {
      assert q != r ==> ReservationGood(s, q);
    }
  }

  lemma CountersStayGood(s: Store, t: Store, r: ReservationKey, k: CounterKey, limit: int, l: CounterKey)
    requires Inv(s) && ChargedStep(s, t, r, k, limit) && l in t.counters
    requires r in s.reservations ==> s.reservations[r].NoReceipt?
    ensures CounterGood(t, l)
  {
    ChargedOnAfter(s, t, r, k, limit);
    if k !in s.counters {
      NoCounterNoCharge(s, k);
    }
    hide ChargedOn;
    assert l in s.counters ==> CounterGood(s, l);
  }

  lemma {:induction false} InvHolds(ms: seq<Admission>)
    ensures Inv(Run(ms))
    decreases |ms|
  {
    if ms != [] {
      var m := ms[|ms| - 1];
      var s := Run(ms[..|ms| - 1]);
      InvHolds(ms[..|ms| - 1]);
      StepKeepsInv(s, m);
    }
  }

  lemma StepKeepsInv(s: Store, m: Admission)
    requires Inv(s)
    ensures Inv(Next(s, m))
  {
    hide Outcome, Next, ChargedStep, Inv;
    var r, k := ReservationKey(m.workspace, m.request), CounterKey(m.workspace, DailyWindow(m.access.decisionAt).start);
    StepIs(s, m);
    if ChargesOn(s, m, k) {
      ChargeKeepsInv(s, Next(s, m), r, k, m.access.limit);
    }
  }

  // ----- Whole runs -----

  /** Over every run, a counter's usage is the number of reservations whose receipt names it. */
  lemma UsageIsConserved(ms: seq<Admission>, k: CounterKey)
    requires k in Run(ms).counters
    ensures Run(ms).counters[k].used == |Naming(Run(ms), Run(ms).counters[k].id)|
  {
    InvHolds(ms);
    var s := Run(ms);
    assert CounterGood(s, k);
    forall r | r in s.reservations
      ensures r in Naming(s, s.counters[k].id) <==> r in ChargedOn(s, k)
    {
      assert ReservationGood(s, r);
    }
    assert Naming(s, s.counters[k].id) == ChargedOn(s, k);
  }

  /** The admission is decided on the day of `k`: charged for good, or refused by the quota. */
  predicate Decided(s: Store, m: Admission, k: CounterKey) {
    && Asks(s, m, k)
    && (match Outcome(s, m).1
        case Ok(_) => m.commits
        case Err(e) => e.Exceeded?)
  }

  /** The distinct requests decided on the day of `k`. */
  function Requests(ms: seq<Admission>, k: CounterKey): set<ReservationKey>
    decreases |ms|
  {
    if ms == [] then {}
    else
      var m := ms[|ms| - 1];
      Requests(ms[..|ms| - 1], k)
      + (if Decided(Run(ms[..|ms| - 1]), m, k) then {ReservationKey(m.workspace, m.request)} else {})
  }

  predicate LimitIs(m: Admission, k: CounterKey, limit: int) {
    m.workspace == k.workspace && DailyWindow(m.access.decisionAt).start == k.start ==> m.access.limit == limit
  }

  ghost predicate QuotaExact(s: Store, requests: set<ReservationKey>, k: CounterKey, limit: int) {
    && ChargedOn(s, k) <= requests
    && |ChargedOn(s, k)| <= Max(limit, 0)
    && (ChargedOn(s, k) == requests || |ChargedOn(s, k)| == Max(limit, 0))
  }

  /** A refusal by the quota happens only when the day's charges have reached the limit. */
  lemma RefusedAtTheLimit(s: Store, m: Admission, k: CounterKey)
    requires Inv(s) && Asks(s, m, k)
    ensures Outcome(s, m).1.Err? && Outcome(s, m).1.error.Exceeded? ==> |ChargedOn(s, k)| >= m.access.limit
    ensures Outcome(s, m).1.Ok? ==> |ChargedOn(s, k)| < m.access.limit
  {
    hide ChargedOn;
    var r := ReservationKey(m.workspace, m.request);
    assert k in s.counters ==> CounterGood(s, k);
    if k !in s.counters {
      NoCounterNoCharge(s, k);
    }
  }

  lemma StepKeepsQuota(s: Store, m: Admission, requests: set<ReservationKey>, k: CounterKey, limit: int)
    requires Inv(s) && QuotaExact(s, requests, k, limit) && LimitIs(m, k, limit)
    ensures QuotaExact(Next(s, m),
                       requests + (if Decided(s, m, k) then {ReservationKey(m.workspace, m.request)} else {}), k, limit)
  {
    hide Outcome, Next, ChargedOn, Inv, ChargedStep;
    var r, j := ReservationKey(m.workspace, m.request), CounterKey(m.workspace, DailyWindow(m.access.decisionAt).start);
    StepIs(s, m);
    if ChargesOn(s, m, j) {
      ChargedOnAfter(s, Next(s, m), r, j, m.access.limit);
    }
    if Asks(s, m, k) {
      RefusedAtTheLimit(s, m, k);
    }
  }

  lemma {:induction false} QuotaHolds(ms: seq<Admission>, k: CounterKey, limit: int)
    requires forall i :: 0 <= i < |ms| ==> LimitIs(ms[i], k, limit)
    ensures QuotaExact(Run(ms), Requests(ms, k), k, limit)
    decreases |ms|
  {
    if ms != [] {
      hide QuotaExact, LimitIs;
      var rest, m := ms[..|ms| - 1], ms[|ms| - 1];
      QuotaHolds(rest, k, limit);
      InvHolds(rest);
      StepKeepsQuota(Run(rest), m, Requests(rest, k), k, limit);
    }
  }

  /** Under a constant limit, exactly the smaller of the limit and the number of distinct requests is charged. */
  lemma ExactlyTheQuotaIsCharged(ms: seq<Admission>, k: CounterKey, limit: int)
    requires forall i :: 0 <= i < |ms| ==> LimitIs(ms[i], k, limit)
    ensures |ChargedOn(Run(ms), k)| == Min(|Requests(ms, k)|, Max(limit, 0))
    ensures ChargedOn(Run(ms), k) <= Requests(ms, k)
  {
    QuotaHolds(ms, k, limit);
    hide ChargedOn, Requests, Run;
    SubsetSize(ChargedOn(Run(ms), k), Requests(ms, k));
  }

  lemma {:induction false} SubsetSize<T>(a: set<T>, b: set<T>)
    requires a <= b
    ensures |a| <= |b|
    ensures |a| == |b| ==> a == b
  {
    var rest := b - a;
    assert b == a + rest;
    assert |b| == |a| + |rest|;
  }

  // ----- Replays -----

  /** A step never touches a receipt that is already there. */
  lemma ReceiptsStay(s: Store, m: Admission, r: ReservationKey)
    requires Inv(s) && r in s.reservations && s.reservations[r].Charged?
    ensures r in Next(s, m).reservations && Next(s, m).reservations[r] == s.reservations[r]
  {
    hide Outcome, Next, Inv;
    StepIs(s, m);
  }

  lemma RunSnoc(ms: seq<Admission>, m: Admission)
    ensures Run(ms + [m]) == Next(Run(ms), m)
  {
    hide Next;
    assert (ms + [m])[..|ms|] == ms;
  }

  lemma {:induction false} ReceiptsStayForGood(ms: seq<Admission>, more: seq<Admission>, r: ReservationKey)
    requires r in Run(ms).reservations && Run(ms).reservations[r].Charged?
    ensures r in Run(ms + more).reservations && Run(ms + more).reservations[r] == Run(ms).reservations[r]
    decreases |more|
  {
    hide Next, Run, Inv;
    if more == [] {
      assert ms + more == ms;
    } else {
      var rest, m := more[..|more| - 1], more[|more| - 1];
      ReceiptsStayForGood(ms, rest, r);
      assert ms + more == (ms + rest) + [m];
      RunSnoc(ms + rest, m);
      InvHolds(ms + rest);
      ReceiptsStay(Run(ms + rest), m, r);
    }
  }

  /**
   A request charged by one admission is answered the same by every later one, whatever its day, its limit and
   what ran in between: the period, the counter and the limit of its own charge, and no row changes.
   */
  lemma ReplayIsStable(ms: seq<Admission>, first: Admission, more: seq<Admission>, again: Admission)
    requires first.commits && Outcome(Run(ms), first).1.Ok?
    requires again.workspace == first.workspace && again.request == first.request
    requires again.access.workspace == again.workspace && again.access.agentsApp
    ensures var s := Run(ms + [first] + more);
            var was, now := Outcome(Run(ms), first).1.value, Outcome(s, again);
      && now.1.Ok? && now.0 == s && Next(s, again) == s
      && now.1.value.(used := 0) == was.(used := 0)
  {
    var s0, s := Run(ms), Run(ms + [first] + more);
    var r := ReservationKey(first.workspace, first.request);
    var was := Outcome(s0, first).1.value;
    InvHolds(ms);
    InvHolds(ms + [first] + more);
    RunSnoc(ms, first);
    hide Run, Next, Outcome, Inv;
    ReceiptsStayForGood(ms + [first], more, r);
  }

  /** Waiting as long as a refusal says always reaches the next period, and never takes more than a day. */
  lemma RetryAfterReachesTheReset(moment: int)
    ensures var w := DailyWindow(moment); var wait := RetryAfter(w.end, moment);
      && 1 <= wait <= 86_400
      && moment + wait * SECOND >= w.end
      && (wait > 1 ==> moment + (wait - 1) * SECOND < w.end)
  {
    var w := DailyWindow(moment);
    var q := (moment - w.end) / SECOND;
    assert q * SECOND <= moment - w.end < q * SECOND + SECOND;
  }
}
