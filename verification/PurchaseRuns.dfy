/**
 Whole histories of checkouts, browser returns and reconciliations, against any provider: what they make
 of a purchase, and of the subscription and the license it pays for.
 */
module PurchaseRuns {
  import opened Common
  import opened Calendar
  import opened Purchases

  datatype Step =
    | Checkout(id: nat, purchase: Purchase)
    | Call(id: nat, door: Door, world: World, commits: bool)

  /** A refused call, or one whose transaction does not commit, leaves the books alone. */
  function Next(b: Books, step: Step): Books {
    match step
    case Checkout(id, p) =>
      if id in b.purchases then b else b.(purchases := b.purchases[id := p.(status := Redirected)])
    case Call(id, door, w, commits) =>
      var r := Called(b, id, door, w);
      if r.Ok? && commits then r.value.0 else b
  }

  function Run(steps: seq<Step>): Books
    decreases |steps|
  {
    if steps == [] then Books(map[], map[], map[], {}) else Next(Run(steps[..|steps| - 1]), steps[|steps| - 1])
  }

  /** The step fulfils its purchase. */
  predicate Fulfils(b: Books, step: Step) {
    && step.Call? && step.commits && Called(b, step.id, step.door, step.world).Ok?
    && Called(b, step.id, step.door, step.world).value.1.applied
  }

  /** The purchases fulfilled, in order. */
  function Fulfilments(steps: seq<Step>): seq<nat>
    decreases |steps|
  {
    if steps == [] then []
    else
      var before, last := steps[..|steps| - 1], steps[|steps| - 1];
      Fulfilments(before) + (if Fulfils(Run(before), last) then [last.id] else [])
  }

  predicate IsPaid(b: Books, id: nat) { id in b.purchases && b.purchases[id].status.Paid? }

  // ----- One step -----

  lemma StepEffect(b: Books, step: Step)
    ensures forall id :: id != step.id ==> (IsPaid(Next(b, step), id) <==> IsPaid(b, id))
    ensures Fulfils(b, step) ==> step.id in b.purchases && !IsPaid(b, step.id) && IsPaid(Next(b, step), step.id)
    ensures !Fulfils(b, step) ==> (IsPaid(Next(b, step), step.id) <==> IsPaid(b, step.id))
    ensures IsPaid(b, step.id) ==> Next(b, step) == b
    ensures !Fulfils(b, step) ==>
        Next(b, step).subs == b.subs && Next(b, step).licenses == b.licenses && Next(b, step).installed == b.installed
    ensures Fulfils(b, step) ==>
        (&& Fulfilled(b, step.id, step.world).Ok?
         && var done := Fulfilled(b, step.id, step.world).value;
            Next(b, step).subs == done.subs && Next(b, step).licenses == done.licenses
            && Next(b, step).installed == done.installed)
  {
    hide Fulfilled, Matches;
  }

  /** What was bought can be read and delivered, and a renewal is for the plan the subscription has. */
  predicate Deliverable(b: Books, id: nat, w: World)
    requires id in b.purchases
  {
    var p := b.purchases[id];
    match p.goods
    case Unreadable => false
    case Elsewhere => w.elsewhereSucceeds
    case OneTime(_) => p.place.Some?
    case Subscription(action, plan) =>
      && p.place.Some?
      && (action.Renew? && p.place.value in b.subs && b.subs[p.place.value].latest != id ==>
            b.subs[p.place.value].plan == plan)
  }

  lemma FulfilmentSucceedsExactlyWhen(b: Books, id: nat, w: World)
    requires id in b.purchases
    ensures Fulfilled(b, id, w).Ok? <==> Deliverable(b, id, w)
  {
    hide RenewalPeriod, InitialPeriod, Instant;
  }

  /** A purchase is fulfilled exactly when its door admits the call, the provider confirms it, and it is deliverable. */
  lemma FulfilledExactlyWhen(b: Books, id: nat, door: Door, w: World)
    ensures Fulfils(b, Call(id, door, w, true)) <==>
      && id in b.purchases && !IsPaid(b, id)
      && (match door
          case Return(token, code) =>
            TokenMatches(b.purchases[id], token) && (code.None? || code.value in {"", b.purchases[id].gateway})
          case Reconcile => b.purchases[id].status in {Pending, Redirected})
      && w.configured && w.usable && b.purchases[id].hasReference
      && w.answer.Some? && w.answer.value.status == GatewayPaid && Matches(w.answer.value, b.purchases[id])
      && Deliverable(b, id, w)
  {
    hide Fulfilled, Matches, StatusFor, Deliverable;
    if id in b.purchases {
      FulfilmentSucceedsExactlyWhen(b, id, w);
    }
  }

  // ----- At most once -----

  /** Over every history a purchase is paid exactly when it was fulfilled, and it is fulfilled at most once. */
  lemma {:induction false} FulfilledAtMostOnce(steps: seq<Step>)
    ensures Distinct(Fulfilments(steps))
    ensures forall id: nat :: id in Fulfilments(steps) <==> IsPaid(Run(steps), id)
    decreases |steps|
  {
    hide Next, Fulfils;
    if steps != [] {
      var before, last := steps[..|steps| - 1], steps[|steps| - 1];
      FulfilledAtMostOnce(before);
      StepEffect(Run(before), last);
    }
  }

  lemma RunSnoc(steps: seq<Step>, last: Step)
    ensures Run(steps + [last]) == Next(Run(steps), last)
    ensures Fulfilments(steps + [last]) == Fulfilments(steps) + (if Fulfils(Run(steps), last) then [last.id] else [])
  {
    hide Next, Fulfils;
    assert (steps + [last])[..|steps|] == steps;
  }

  /** Paid is absorbing: nothing that follows changes the row or fulfils it again. */
  lemma {:induction false} PaidIsAbsorbing(steps: seq<Step>, more: seq<Step>, id: nat)
    requires IsPaid(Run(steps), id)
    ensures IsPaid(Run(steps + more), id)
    ensures Run(steps + more).purchases[id] == Run(steps).purchases[id]
    decreases |more|
  {
    if more == [] {
      assert steps + more == steps;
    } else {
      var rest, last := more[..|more| - 1], more[|more| - 1];
      PaidIsAbsorbing(steps, rest, id);
      assert steps + more == (steps + rest) + [last];
      hide Run, Fulfils, IsPaid;
      RunSnoc(steps + rest, last);
      PaidRowStays(Run(steps + rest), last, id);
    }
  }

  lemma PaidRowStays(b: Books, step: Step, id: nat)
    requires IsPaid(b, id)
    ensures IsPaid(Next(b, step), id) && Next(b, step).purchases[id] == b.purchases[id]
  {
    hide Fulfilled, Matches, StatusFor;
  }

  /** A purchase that a query marked failed is fulfilled by a later return, though it can no longer be reconciled. */
  lemma FailedCanStillBePaid(b: Books, id: nat, token: string, w: World)
    requires id in b.purchases && b.purchases[id].status == Failed && TokenMatches(b.purchases[id], token)
    requires w.configured && w.usable && b.purchases[id].hasReference
    requires w.answer.Some? && w.answer.value.status == GatewayPaid && Matches(w.answer.value, b.purchases[id])
    requires Deliverable(b, id, w)
    ensures Fulfils(b, Call(id, Return(token, None), w, true))
    ensures Called(b, id, Reconcile, w) == Err(NotReconcilable(Failed))
  {
    hide Fulfilled, Matches, Deliverable;
    FulfilledExactlyWhen(b, id, Return(token, None), w);
  }

  const SOLD: Purchase := Purchase(Pending, 100, "SAR", true, "t", "g", Some(Place(1, 1)), OneTime(5))

  /** What the provider says was paid, on an ordinary day. */
  function Says(amount: int): World {
    World(true, true, Some(Answer(GatewayPaid, Some(amount), None)), RawMoment.Moment(Date(2026, 1, 1), 0), true)
  }

  function Asked(amount: int): Step { Call(0, Return("t", None), Says(amount), true) }

  /** A history: the provider first names another amount, which marks the purchase failed, and then the right one. */
  lemma FailedThenPaid()
    ensures
      var failed := Run([Checkout(0, SOLD), Asked(99)]);
      && failed.purchases == map[0 := SOLD.(status := Failed)]
      && Called(failed, 0, Reconcile, Says(100)) == Err(NotReconcilable(Failed))
      && IsPaid(Run([Checkout(0, SOLD), Asked(99), Asked(100)]), 0)
  {
    var s0 := Run([]);
    RunSnoc([], Checkout(0, SOLD));
    assert [] + [Checkout(0, SOLD)] == [Checkout(0, SOLD)];
    RunSnoc([Checkout(0, SOLD)], Asked(99));
    assert [Checkout(0, SOLD)] + [Asked(99)] == [Checkout(0, SOLD), Asked(99)];
    RunSnoc([Checkout(0, SOLD), Asked(99)], Asked(100));
    assert [Checkout(0, SOLD), Asked(99)] + [Asked(100)] == [Checkout(0, SOLD), Asked(99), Asked(100)];
    hide Run;
    var s1 := Next(s0, Checkout(0, SOLD));
    assert s1.purchases == map[0 := SOLD.(status := Redirected)];
    var s2 := Next(s1, Asked(99));
    assert s2.purchases == map[0 := SOLD.(status := Failed)];
    FailedCanStillBePaid(s2, 0, "t", Says(100));
    StepEffect(s2, Asked(100));
  }

  // ----- The period is a fold over the payments -----

  datatype Payment = Payment(action: Action, plan: nat, now: Moment, id: nat)

  /** The payment a step makes towards the subscription at `k`, if any. */
  function PaymentOf(b: Books, step: Step, k: Place): seq<Payment> {
    if Fulfils(b, step) && step.id in b.purchases && b.purchases[step.id].place == Some(k)
       && b.purchases[step.id].goods.Subscription?
    then [Payment(b.purchases[step.id].goods.action, b.purchases[step.id].goods.plan, step.world.now, step.id)]
    else []
  }

  function Payments(steps: seq<Step>, k: Place): seq<Payment>
    decreases |steps|
  {
    if steps == [] then []
    else Payments(steps[..|steps| - 1], k) + PaymentOf(Run(steps[..|steps| - 1]), steps[|steps| - 1], k)
  }

  function Renewed(sub: Option<Sub>, p: Payment): Sub {
    match sub
    case None => Sub(p.plan, InitialPeriod(p.now).0, InitialPeriod(p.now).1, p.id)
    case Some(s) =>
      var period := RenewalPeriod(s.start, s.end, p.now);
      Sub(if p.action.Subscribe? && Instant(s.end) <= Instant(p.now) then p.plan else s.plan, period.0, period.1, p.id)
  }

  function Fold(ps: seq<Payment>): Option<Sub>
    decreases |ps|
  {
    if ps == [] then None else Some(Renewed(Fold(ps[..|ps| - 1]), ps[|ps| - 1]))
  }

  predicate LatestArePaid(b: Books) {
    forall k :: k in b.subs ==> IsPaid(b, b.subs[k].latest)
  }

  /** A fulfilled subscription is renewed by its payment: the guard on the latest purchase never acts. */
  lemma FulfilmentRenews(b: Books, step: Step, k: Place)
    requires LatestArePaid(b)
    ensures Lookup(Next(b, step).subs, k) ==
            (if PaymentOf(b, step, k) == [] then Lookup(b.subs, k)
             else Some(Renewed(Lookup(b.subs, k), PaymentOf(b, step, k)[0])))
    ensures PaymentOf(b, step, k) != [] ==> Renewed(Lookup(b.subs, k), PaymentOf(b, step, k)[0]).latest == step.id
  {
    StepEffect(b, step);
    hide Next, Fulfils, RenewalPeriod, InitialPeriod, Instant;
  }

  lemma LatestStayPaid(b: Books, step: Step)
    requires LatestArePaid(b)
    ensures LatestArePaid(Next(b, step))
  {
    hide Next, Fulfils, PaymentOf, Renewed;
    StepEffect(b, step);
    forall k | k in Next(b, step).subs
      ensures IsPaid(Next(b, step), Next(b, step).subs[k].latest)
    {
      FulfilmentRenews(b, step, k);
      PaymentIsFulfilment(b, step, k);
    }
  }

  lemma PaymentIsFulfilment(b: Books, step: Step, k: Place)
    ensures PaymentOf(b, step, k) != [] ==> Fulfils(b, step) && PaymentOf(b, step, k)[0].id == step.id
    ensures |PaymentOf(b, step, k)| <= 1
  {
    hide Fulfils;
  }

  /** Over every history a subscription is the fold of the renewal rule over its distinct paid purchases. */
  lemma {:induction false} PeriodIsTheFold(steps: seq<Step>, k: Place)
    ensures Lookup(Run(steps).subs, k) == Fold(Payments(steps, k))
    ensures LatestArePaid(Run(steps))
    decreases |steps|
  {
    hide Next, PaymentOf, LatestArePaid, Renewed, Lookup;
    if steps == [] {
      assert Run(steps) == Books(map[], map[], map[], {});
      NoSubs(Run(steps), k);
    } else {
      var before, last := steps[..|steps| - 1], steps[|steps| - 1];
      PeriodIsTheFold(before, k);
      FulfilmentRenews(Run(before), last, k);
      LatestStayPaid(Run(before), last);
      PaymentIsFulfilment(Run(before), last, k);
      var paid := PaymentOf(Run(before), last, k);
      if paid != [] {
        assert Payments(steps, k)[..|Payments(before, k)|] == Payments(before, k);
      } else {
        assert Payments(steps, k) == Payments(before, k);
      }
    }
  }

  lemma NoSubs(b: Books, k: Place)
    requires b.subs == map[]
    ensures LatestArePaid(b) && Lookup(b.subs, k) == None
  {
  }

  /** The payments of a subscription are fulfilments, so no purchase pays twice. */
  lemma {:induction false} PaymentsAreDistinct(steps: seq<Step>, k: Place)
    ensures forall i :: 0 <= i < |Payments(steps, k)| ==> Payments(steps, k)[i].id in Fulfilments(steps)
    ensures forall i, j :: 0 <= i < j < |Payments(steps, k)| ==> Payments(steps, k)[i].id != Payments(steps, k)[j].id
    decreases |steps|
  {
    hide Next, Fulfils, PaymentOf, IsPaid, Run;
    if steps != [] {
      var before, last := steps[..|steps| - 1], steps[|steps| - 1];
      PaymentsAreDistinct(before, k);
      FulfilledAtMostOnce(before);
      StepEffect(Run(before), last);
      PaymentIsFulfilment(Run(before), last, k);
    }
  }

  /** A renewal that is fulfilled pays for the plan the subscription has. */
  lemma RenewalMatches(b: Books, step: Step, k: Place)
    ensures LatestArePaid(b) && k in b.subs && PaymentOf(b, step, k) != [] && PaymentOf(b, step, k)[0].action.Renew?
            ==> b.subs[k].plan == PaymentOf(b, step, k)[0].plan
  {
    StepEffect(b, step);
    hide Next, Fulfils, RenewalPeriod, InitialPeriod, Instant;
  }

  /** Over every history each renewal after the first payment was for the plan that the payments before it left. */
  lemma {:induction false} RenewalsPayTheCurrentPlan(steps: seq<Step>, k: Place, i: nat)
    requires 0 < i < |Payments(steps, k)| && Payments(steps, k)[i].action.Renew?
    ensures Fold(Payments(steps, k)[..i]).Some? && Fold(Payments(steps, k)[..i]).value.plan == Payments(steps, k)[i].plan
    decreases |steps|
  {
    hide Next, PaymentOf, LatestArePaid, Renewed, Run;
    var before, last := steps[..|steps| - 1], steps[|steps| - 1];
    var paid := Payments(before, k);
    PaymentIsFulfilment(Run(before), last, k);
    assert Payments(steps, k)[..i] == paid[..i];
    if i < |paid| {
      RenewalsPayTheCurrentPlan(before, k, i);
    } else {
      assert paid[..i] == paid;
      PeriodIsTheFold(before, k);
      RenewalMatches(Run(before), last, k);
    }
  }

  /** Each payment moves the end strictly later, and `n` of them buy at least 28 days each from the first. */
  lemma {:induction false} EndGrows(ps: seq<Payment>)
    requires ps != []
    ensures var end := Instant(Fold(ps).value.end);
      && end >= Instant(ps[0].now) + 28 * DAY * |ps|
      && end >= Instant(ps[|ps| - 1].now) + 28 * DAY
      && (|ps| > 1 ==> end >= Instant(Fold(ps[..|ps| - 1]).value.end) + 28 * DAY)
    decreases |ps|
  {
    hide Instant, RenewalPeriod, AddMonths;
    var last := ps[|ps| - 1];
    if |ps| == 1 {
      OneMonthAdvances(last.now);
    } else {
      var before := Fold(ps[..|ps| - 1]).value;
      EndGrows(ps[..|ps| - 1]);
      RenewalExtends(before.start, before.end, last.now);
    }
  }

  // ----- Licenses -----

  function LicensePaymentOf(b: Books, step: Step, k: Place): seq<License> {
    if Fulfils(b, step) && step.id in b.purchases && b.purchases[step.id].place == Some(k)
       && b.purchases[step.id].goods.OneTime?
    then [License(b.purchases[step.id].goods.plan, step.id, true)]
    else []
  }

  function LicensePayments(steps: seq<Step>, k: Place): seq<License>
    decreases |steps|
  {
    if steps == [] then []
    else LicensePayments(steps[..|steps| - 1], k) + LicensePaymentOf(Run(steps[..|steps| - 1]), steps[|steps| - 1], k)
  }

  function First<T>(s: seq<T>): Option<T> { if s == [] then None else Some(s[0]) }

  lemma LicenseStep(b: Books, step: Step, k: Place)
    requires k in b.licenses ==> b.licenses[k].active
    ensures Lookup(Next(b, step).licenses, k) ==
            (if k in b.licenses then Some(b.licenses[k]) else First(LicensePaymentOf(b, step, k)))
  {
    StepEffect(b, step);
    hide Next, Fulfils;
  }

  /** The license is the one its first payment granted, and later one-time payments leave it alone. */
  lemma {:induction false} LicenseIsTheFirstPaid(steps: seq<Step>, k: Place)
    ensures Lookup(Run(steps).licenses, k) == First(LicensePayments(steps, k))
    ensures k in Run(steps).licenses ==> Run(steps).licenses[k].active
    decreases |steps|
  {
    hide Next, Fulfils;
    if steps != [] {
      var before, last := steps[..|steps| - 1], steps[|steps| - 1];
      LicenseIsTheFirstPaid(before, k);
      LicenseStep(Run(before), last, k);
    }
  }

  /** An app is installed in a workspace exactly when something there was paid for. */
  lemma {:induction false} InstalledExactlyWhenPaid(steps: seq<Step>, k: Place)
    ensures k in Run(steps).installed <==> Payments(steps, k) != [] || LicensePayments(steps, k) != []
    decreases |steps|
  {
    hide Next, Fulfils;
    if steps != [] {
      var before, last := steps[..|steps| - 1], steps[|steps| - 1];
      InstalledExactlyWhenPaid(before, k);
      StepEffect(Run(before), last);
    }
  }
}
