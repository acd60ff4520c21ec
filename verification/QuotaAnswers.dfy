/**
 What an admission is told about its quota, over every run of admissions before it.
 */
module QuotaAnswers {
  import opened Common
  import opened Quota

  /** `start` is the beginning of the UTC day of the moment, in microseconds since the epoch. */
  predicate DayOf(start: int, moment: int) {
    start % 86_400_000_000 == 0 && start <= moment < start + 86_400_000_000
  }

  /** The requests of the workspace that have been charged for the day that begins at `start`. */
  function ChargedSoFar(ms: seq<Admission>, workspace: nat, start: int): set<ReservationKey> {
    ChargedOn(Run(ms), CounterKey(workspace, start))
  }

  /** The receipt is a new charge for the day of the decision: the next one of that day, within the limit. */
  predicate NewCharge(ms: seq<Admission>, m: Admission, receipt: Receipt) {
    && DayOf(receipt.start, m.access.decisionAt) && receipt.end == receipt.start + 86_400_000_000
    && receipt.used == |ChargedSoFar(ms, m.workspace, receipt.start)| + 1 <= receipt.limit == m.access.limit
  }

  /** The receipt is the one that the request got before, with the usage of its day by now. */
  predicate OldCharge(ms: seq<Admission>, m: Admission, receipt: Receipt) {
    var r := ReservationKey(m.workspace, m.request);
    && r in Run(ms).reservations
    && Run(ms).reservations[r] == Charged(receipt.counter, receipt.start, receipt.end, receipt.limit)
    && receipt.used == |ChargedSoFar(ms, m.workspace, receipt.start)|
  }

  /** The refusal says how many requests of that day were charged, and when the next day begins. */
  predicate FullDay(ms: seq<Admission>, m: Admission, used: int, limit: int, resetAt: int, retryAfter: int) {
    && m.access.limit == limit && limit <= used
    && DayOf(resetAt - 86_400_000_000, m.access.decisionAt)
    && used == |ChargedSoFar(ms, m.workspace, resetAt - 86_400_000_000)|
    && retryAfter >= 1 && m.access.decisionAt + 1_000_000 * retryAfter >= resetAt
    && (retryAfter > 1 ==> m.access.decisionAt + 1_000_000 * (retryAfter - 1) < resetAt)
  }

  predicate Truthful(ms: seq<Admission>, m: Admission, answer: Result<Receipt, Refusal>) {
    match answer
    case Ok(receipt) =>
      && m.request != "" && m.access.workspace == m.workspace && m.access.agentsApp && receipt.request == m.request
      && (NewCharge(ms, m, receipt) || OldCharge(ms, m, receipt))
    case Err(e) =>
      match e
      case RequestIdMissing => m.request == ""
      case SnapshotMismatch => m.access.workspace != m.workspace || !m.access.agentsApp
      case MeteringUnavailable => exists k <- Run(ms).counters :: Run(ms).counters[k].id == m.freshId
      case Exceeded(used, limit, resetAt, retryAfter) => FullDay(ms, m, used, limit, resetAt, retryAfter)
      case _ => false
  }

  /** What an admission is told is true, whatever has run before it; in particular no receipt ever turns out to be unusable. */
  lemma AnswersAreTrue(ms: seq<Admission>, m: Admission)
    ensures Truthful(ms, m, Outcome(Run(ms), m).1)
  {
    hide ChargedOn, Run;
    var s, w := Run(ms), DailyWindow(m.access.decisionAt);
    var r, k := ReservationKey(m.workspace, m.request), CounterKey(m.workspace, w.start);
    InvHolds(ms);
    RetryAfterReachesTheReset(m.access.decisionAt);
    DayBegins(m.access.decisionAt);
    assert r in s.reservations ==> ReservationGood(s, r);
    assert k in s.counters ==> CounterGood(s, k);
    if k !in s.counters {
      NoCounterNoCharge(s, k);
    }
    if r in s.reservations && s.reservations[r].Charged? {
      assert CounterGood(s, CounterKey(r.workspace, s.reservations[r].start));
    }
    hide Inv, RetryAfter, DailyWindow;
  }

  lemma DayBegins(moment: int)
    ensures DayOf(DailyWindow(moment).start, moment) && DailyWindow(moment).end == DailyWindow(moment).start + 86_400_000_000
  {
  }

  // ----- Any rows, also ones that no admission has written -----

  /** The counter of a day as a new charge finds it: the row that is there, or a new one. */
  function Finds(s: Store, k: CounterKey, id: nat): Counter {
    if k in s.counters then s.counters[k] else Counter(id, k.start + 86_400_000_000, 0, 0)
  }

  /** A row that can be charged: it ends with its day and counts from zero up. */
  predicate Chargeable(s: Store, k: CounterKey, id: nat) {
    && (k in s.counters || forall l <- s.counters :: s.counters[l].id != id)
    && Finds(s, k, id).end == k.start + 86_400_000_000 && Finds(s, k, id).used >= 0 && Finds(s, k, id).reserved >= 0
  }

  /** On any rows: a stored receipt is answered exactly when it is sound and its own counter is there, and a request
      without one is charged exactly when the row of its day can be charged and has room. */
  lemma ConsumesExactlyWhen(s: Store, workspace: nat, request: string, a: Access, id: nat, start: int)
    requires request != "" && a.workspace == workspace && a.agentsApp && DayOf(start, a.decisionAt)
    requires ReservationKey(workspace, request) in s.reservations
    ensures
      var stored := s.reservations[ReservationKey(workspace, request)];
      var answer := Consumed(s, workspace, request, a, id).1;
      match stored
      case Garbled => answer == Err(ReceiptInvalid)
      case Charged(counter, from, to, limit) =>
        var k := CounterKey(workspace, from);
        && (answer == Err(ReceiptInvalid) <==> !(from < to && limit > 0))
        && (answer.Ok? <==>
              && from < to && limit > 0
              && k in s.counters && s.counters[k].id == counter && s.counters[k].end == to)
        && (answer.Ok? ==> answer.value == Receipt(request, from, to, counter, s.counters[k].used, limit))
      case NoReceipt =>
        var k := CounterKey(workspace, start);
        var c := Finds(s, k, id);
        && (answer == Err(MeteringUnavailable) <==> !Chargeable(s, k, id))
        && (answer.Ok? <==> Chargeable(s, k, id) && c.used + c.reserved < a.limit)
        && (answer.Ok? ==> answer.value == Receipt(request, start, start + 86_400_000_000, c.id, c.used + 1, a.limit))
        && (answer.Err? && answer.error.Exceeded? ==> answer.error.used == c.used && answer.error.limit == a.limit)
  {
    DayBegins(a.decisionAt);
    OneDay(start, DailyWindow(a.decisionAt).start, a.decisionAt);
    hide DailyWindow, RetryAfter;
  }

  lemma OneDay(a: int, b: int, moment: int)
    requires DayOf(a, moment) && DayOf(b, moment)
    ensures a == b
  {
    var day := 86_400_000_000;
    assert a == day * (a / day) && b == day * (b / day);
    assert -day < a - b < day;
  }
}
