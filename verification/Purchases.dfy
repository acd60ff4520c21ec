/**
 The life of an app purchase, and what its fulfilment does to what it pays for. One call is one
 transaction; amounts are in minor units, currency codes in upper case.
 */
module Purchases {
  import opened Common
  import opened Calendar

  // ----- Rows -----

  datatype Status = Pending | Redirected | Paid | Failed | Cancelled | Expired

  datatype Action = Subscribe | Renew | OtherAction

  /** What the immutable snapshot of a purchase says was bought. */
  datatype Goods =
    | OneTime(plan: nat)
    | Subscription(action: Action, plan: nat)
    | Unreadable
    | Elsewhere

  datatype Place = Place(workspace: nat, app: nat)

  datatype Purchase = Purchase(
    status: Status, amount: int, currency: string, hasReference: bool,
    token: string, gateway: string, place: Option<Place>, goods: Goods)

  datatype Sub = Sub(plan: nat, start: Moment, end: Moment, latest: nat)

  datatype License = License(plan: nat, purchase: nat, active: bool)

  datatype Books = Books(
    purchases: map<nat, Purchase>, subs: map<Place, Sub>, licenses: map<Place, License>, installed: set<Place>)

  // ----- One call -----

  datatype GatewayStatus = GatewayPending | GatewayPaid | GatewayFailed | GatewayCancelled | GatewayExpired

  datatype Answer = Answer(status: GatewayStatus, amount: Option<int>, currency: Option<string>)

  datatype Door = Return(token: string, code: Option<string>) | Reconcile

  /** The world one call meets: the gateway's configuration, its answer, and the clock. */
  datatype World = World(configured: bool, usable: bool, answer: Option<Answer>, now: Moment, elsewhereSucceeds: bool)

  datatype Refusal =
    | PurchaseNotFound
    | VerificationFailed
    | NotReconcilable(status: Status)
    | GatewayUnavailable
    | ProviderFailed
    | InvalidPurchase
    | PlanMismatch

  datatype Completion = Completion(prior: Status, applied: bool)

  function StatusFor(s: GatewayStatus): Status {
    match s
    case GatewayCancelled => Cancelled
    case GatewayExpired => Expired
    case GatewayPending => Redirected
    case _ => Failed
  }

  // ----- What a fulfilment computes -----

  function Lookup<K, V>(m: map<K, V>, k: K): Option<V> {
    if k in m then Some(m[k]) else None
  }

  /**
   The subscription after a payment: a first one starts now, any other is renewed by the calendar rule,
   whatever its action, and takes the paid plan only when it resubscribes after its end.
   */
  function Extended(sub: Option<Sub>, action: Action, plan: nat, now: Moment, id: nat): Result<Sub, Refusal> {
    match sub
    case None =>
      var period := InitialPeriod(now);
      Ok(Sub(plan, period.0, period.1, id))
    case Some(s) =>
      if s.latest == id then Ok(s)
      else if action.Renew? && s.plan != plan then Err(PlanMismatch)
      else
        var period := RenewalPeriod(s.start, s.end, now);
        var lapsed := Instant(s.end) <= Instant(now);
        Ok(Sub(if action.Subscribe? && lapsed then plan else s.plan, period.0, period.1, id))
  }

  /** The license after a payment: an active one keeps its purchase. */
  function Licensed(license: Option<License>, plan: nat, id: nat): License {
    match license
    case Some(l) => if l.purchase == id || l.active then l else License(plan, id, true)
    case None => License(plan, id, true)
  }

  function Fulfilled(b: Books, id: nat, w: World): (r: Result<Books, Refusal>)
    requires id in b.purchases
    ensures r.Ok? ==> r.value.purchases == b.purchases
  {
    var p := b.purchases[id];
    match p.goods
    case Unreadable => Err(InvalidPurchase)
    case Elsewhere => if w.elsewhereSucceeds then Ok(b) else Err(InvalidPurchase)
    case OneTime(plan) =>
      if p.place.None? then Err(InvalidPurchase)
      else
        var k := p.place.value;
        Ok(b.(licenses := b.licenses[k := Licensed(Lookup(b.licenses, k), plan, id)], installed := b.installed + {k}))
    case Subscription(action, plan) =>
      if p.place.None? then Err(InvalidPurchase)
      else
        var k := p.place.value;
        match Extended(Lookup(b.subs, k), action, plan, w.now, id)
        case Err(e) => Err(e)
        case Ok(s) => Ok(b.(subs := b.subs[k := s], installed := b.installed + {k}))
  }

  function WithStatus(b: Books, id: nat, status: Status): Books
    requires id in b.purchases
  {
    b.(purchases := b.purchases[id := b.purchases[id].(status := status)])
  }

  /** Whether a paid answer is for the amount and the currency of the purchase, where it names them. */
  predicate Matches(a: Answer, p: Purchase) {
    (a.amount.Some? ==> a.amount.value == p.amount) && (a.currency.Some? ==> a.currency.value == p.currency)
  }

  function Queried(b: Books, id: nat, w: World): Result<(Books, Completion), Refusal>
    requires id in b.purchases
  {
    var p := b.purchases[id];
    if p.status.Paid? then Ok((b, Completion(Paid, false)))
    else if !w.configured || !p.hasReference then Err(VerificationFailed)
    else if !w.usable then Err(GatewayUnavailable)
    else if w.answer.None? then Err(ProviderFailed)
    else if !w.answer.value.status.GatewayPaid? then
      Ok((WithStatus(b, id, StatusFor(w.answer.value.status)), Completion(p.status, false)))
    else if !Matches(w.answer.value, p) then Ok((WithStatus(b, id, Failed), Completion(p.status, false)))
    else match Fulfilled(b, id, w)
      case Err(e) => Err(e)
      case Ok(done) => Ok((WithStatus(done, id, Paid), Completion(p.status, true)))
  }

  function TokenMatches(p: Purchase, token: string): bool {
    token != "" && p.token != "" && token == p.token
  }

  function Called(b: Books, id: nat, door: Door, w: World): Result<(Books, Completion), Refusal> {
    if id !in b.purchases then Err(PurchaseNotFound)
    else
      var p := b.purchases[id];
      match door
      case Return(token, code) =>
        var named := code.Some? && code.value != "";
        if !TokenMatches(p, token) || (named && (!w.configured || code.value != p.gateway)) then Err(PurchaseNotFound)
        else if !w.configured then Err(VerificationFailed)
        else Queried(b, id, w)
      case Reconcile =>
        if p.status.Paid? || p.status.Pending? || p.status.Redirected? then Queried(b, id, w)
        else Err(NotReconcilable(p.status))
  }

  // ----- The services, on their rows -----

  class BillingRows {
    var purchases: map<nat, Purchase>
    var subs: map<Place, Sub>
    var licenses: map<Place, License>
    var installed: set<Place>

    ghost function Now(): Books
      reads this
    {
      Books(purchases, subs, licenses, installed)
    }

    /** Each of the three branches gives the renewal period. */
    method ApplySubscriptionPeriod(k: Place, plan: nat, action: Action, now: Moment, id: nat)
      returns (refusal: Option<Refusal>)
      requires k in subs && subs[k].latest != id
      modifies this`subs
      ensures var next := Extended(Some(old(subs)[k]), action, plan, now, id);
        && refusal == (if next.Ok? then None else Some(next.error))
        && subs == (if next.Ok? then old(subs)[k := next.value] else old(subs))
    {
      var sub := subs[k];
      if action == Renew && sub.plan != plan {
        return Some(PlanMismatch);
      }
      var stillValid := Instant(sub.end) > Instant(now);
      var period;
      if action == Subscribe && stillValid {
        period := RenewalPeriod(sub.start, sub.end, now);
      } else if action == Subscribe {
        period := InitialPeriod(now);
        sub := sub.(plan := plan);
      } else {
        period := RenewalPeriod(sub.start, sub.end, now);
      }
      subs := subs[k := sub.(start := period.0, end := period.1, latest := id)];
      return None;
    }

    method FulfillSubscription(id: nat, now: Moment) returns (refusal: Option<Refusal>)
      requires id in purchases && purchases[id].goods.Subscription?
      modifies this`subs, this`installed
      ensures forall w: World :: w.now == now ==>
          (match Fulfilled(old(Now()), id, w)
           case Ok(done) => refusal == None && Now() == done
           case Err(e) => refusal == Some(e) && Now() == old(Now()))
    {
      var p := purchases[id];
      if p.place.None? {
        return Some(InvalidPurchase);
      }
      var k := p.place.value;
      if k in subs && subs[k].latest == id {
        assert subs == subs[k := subs[k]];
        installed := installed + {k};
        return None;
      }
      if k !in subs {
        var period := InitialPeriod(now);
        subs := subs[k := Sub(p.goods.plan, period.0, period.1, id)];
      } else {
        refusal := ApplySubscriptionPeriod(k, p.goods.plan, p.goods.action, now, id);
        if refusal.Some? {
          return;
        }
      }
      installed := installed + {k};
      return None;
    }

    method FulfillOneTime(id: nat) returns (refusal: Option<Refusal>)
      requires id in purchases && purchases[id].goods.OneTime?
      modifies this`licenses, this`installed
      ensures forall w: World ::
          (match Fulfilled(old(Now()), id, w)
           case Ok(done) => refusal == None && Now() == done
           case Err(e) => refusal == Some(e) && Now() == old(Now()))
    {
      var p := purchases[id];
      if p.place.None? {
        return Some(InvalidPurchase);
      }
      var k := p.place.value;
      if k in licenses {
        if licenses[k].purchase == id || licenses[k].active {
          assert licenses == licenses[k := licenses[k]];
          installed := installed + {k};
          return None;
        }
        licenses := licenses[k := licenses[k].(active := true, plan := p.goods.plan, purchase := id)];
      } else {
        licenses := licenses[k := License(p.goods.plan, id, true)];
      }
      installed := installed + {k};
      return None;
    }

    method Fulfill(id: nat, w: World) returns (refusal: Option<Refusal>)
      requires id in purchases
      modifies this`subs, this`licenses, this`installed
      ensures match Fulfilled(old(Now()), id, w)
        case Ok(done) => refusal == None && Now() == done
        case Err(e) => refusal == Some(e) && Now() == old(Now())
    {
      match purchases[id].goods
      case Unreadable => return Some(InvalidPurchase);
      case Elsewhere => return if w.elsewhereSucceeds then None else Some(InvalidPurchase);
      case OneTime(_) => refusal := FulfillOneTime(id);
      case Subscription(_, _) => refusal := FulfillSubscription(id, w.now);
    }

    /** Asks the provider, and fulfils a purchase that it says was paid. A refusal leaves the rows alone. */
    method CompleteFromProvider(id: nat, w: World) returns (r: Result<Completion, Refusal>)
      requires id in purchases
      modifies this
      ensures match Queried(old(Now()), id, w)
        case Ok(done) => r == Ok(done.1) && Now() == done.0
        case Err(e) => r == Err(e) && Now() == old(Now())
    {
      var p := purchases[id];
      if p.status == Paid {
        return Ok(Completion(Paid, false));
      }
      if !w.configured {
        return Err(VerificationFailed);
      }
      if !p.hasReference {
        return Err(VerificationFailed);
      }
      if !w.usable {
        return Err(GatewayUnavailable);
      }
      if w.answer.None? {
        return Err(ProviderFailed);
      }
      var answer := w.answer.value;
      if answer.status != GatewayPaid {
        purchases := purchases[id := p.(status := StatusFor(answer.status))];
        return Ok(Completion(p.status, false));
      }
      if answer.amount.Some? && answer.amount.value != p.amount {
        purchases := purchases[id := p.(status := Failed)];
        return Ok(Completion(p.status, false));
      }
      if answer.currency.Some? && answer.currency.value != p.currency {
        purchases := purchases[id := p.(status := Failed)];
        return Ok(Completion(p.status, false));
      }
      var refusal := Fulfill(id, w);
      if refusal.Some? {
        return Err(refusal.value);
      }
      purchases := purchases[id := p.(status := Paid)];
      return Ok(Completion(p.status, true));
    }

    method CompleteOnReturn(id: nat, token: string, code: Option<string>, w: World) returns (r: Result<Completion, Refusal>)
      modifies this
      ensures match Called(old(Now()), id, Return(token, code), w)
        case Ok(done) => r == Ok(done.1) && Now() == done.0
        case Err(e) => r == Err(e) && Now() == old(Now())
    {
      if id !in purchases || !TokenMatches(purchases[id], token) {
        return Err(PurchaseNotFound);
      }
      if code.Some? && code.value != "" {
        if !w.configured || code.value != purchases[id].gateway {
          return Err(PurchaseNotFound);
        }
      }
      if !w.configured {
        return Err(VerificationFailed);
      }
      r := CompleteFromProvider(id, w);
    }

    method ReconcilePurchase(id: nat, w: World) returns (r: Result<Completion, Refusal>)
      modifies this
      ensures match Called(old(Now()), id, Reconcile, w)
        case Ok(done) => r == Ok(done.1) && Now() == done.0
        case Err(e) => r == Err(e) && Now() == old(Now())
    {
      if id !in purchases {
        return Err(PurchaseNotFound);
      }
      var status := purchases[id].status;
      if status == Paid {
        return Ok(Completion(Paid, false));
      }
      if status != Pending && status != Redirected {
        return Err(NotReconcilable(status));
      }
      if !purchases[id].hasReference {
        return Err(VerificationFailed);
      }
      r := CompleteFromProvider(id, w);
    }
  }
}
