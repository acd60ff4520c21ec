/**
 What one call to complete a purchase comes to, said of the purchase and of what the provider answers.
 */
module BillingRules {
  import opened Common
  import opened Calendar
  import opened Purchases
  import opened PurchaseRuns

  /** The return carries the purchase's own token, and the code of its gateway where it names one; only a purchase that
      may still be open, or is paid already, can be reconciled. */
  predicate Admitted(p: Purchase, door: Door, w: World) {
    match door
    case Return(token, code) =>
      && token == p.token && token != ""
      && (code == None || code == Some("") || (w.configured && code == Some(p.gateway)))
    case Reconcile => p.status in {Pending, Redirected, Paid}
  }

  /** The provider says that the whole price was paid, in the currency of the purchase. */
  predicate Confirms(a: Answer, p: Purchase) {
    a.status.GatewayPaid? && a.amount in {None, Some(p.amount)} && a.currency in {None, Some(p.currency)}
  }

  predicate Confirmed(w: World, p: Purchase) { w.answer.Some? && Confirms(w.answer.value, p) }

  /** What the provider's answer makes of an unpaid purchase. */
  function Standing(a: Answer, p: Purchase): Status {
    if Confirms(a, p) then Paid
    else if a.status.GatewayPending? then Redirected
    else if a.status.GatewayCancelled? then Cancelled
    else if a.status.GatewayExpired? then Expired
    else Failed
  }

  predicate Undeliverable(p: Purchase, w: World) {
    p.goods.Unreadable? || (p.goods.Elsewhere? && !w.elsewhereSucceeds) || p.place == None
  }

  /** The renewal is for another plan than the subscription has. */
  predicate OtherPlan(b: Books, p: Purchase) {
    && p.goods.Subscription? && p.goods.action.Renew? && p.place.Some? && p.place.value in b.subs
    && b.subs[p.place.value].plan != p.goods.plan
  }

  /** The reason of a refusal is true. */
  predicate Refuses(b: Books, id: nat, door: Door, w: World, e: Refusal) {
    if e.PurchaseNotFound? then id !in b.purchases || (door.Return? && !Admitted(b.purchases[id], door, w))
    else
      && id in b.purchases
      && var p := b.purchases[id];
      match e
      case NotReconcilable(status) => door.Reconcile? && status == p.status && status in {Failed, Cancelled, Expired}
      case _ =>
        && Admitted(p, door, w)
        && match e
           case VerificationFailed => !w.configured || !p.hasReference
           case GatewayUnavailable => w.configured && p.hasReference && !w.usable
           case ProviderFailed => w.configured && p.hasReference && w.usable && w.answer == None
           case InvalidPurchase => Confirmed(w, p) && Undeliverable(p, w)
           case PlanMismatch => Confirmed(w, p) && OtherPlan(b, p)
           case _ => false
  }

  /** What a call that goes through does: nothing to a paid purchase, and otherwise the status follows the answer, nothing
      else of the purchase and no other purchase changes, and something is delivered only when it becomes paid. */
  predicate Does(b: Books, id: nat, w: World, after: Books, done: Completion)
    requires id in b.purchases
  {
    var p := b.purchases[id];
    && done.prior == p.status
    && if p.status.Paid? then after == b && !done.applied
       else
         && w.configured && w.usable && p.hasReference && w.answer.Some?
         && after.purchases == b.purchases[id := p.(status := Standing(w.answer.value, p))]
         && (done.applied <==> Confirms(w.answer.value, p))
         && (!done.applied ==> after.subs == b.subs && after.licenses == b.licenses && after.installed == b.installed)
  }

  lemma CallComesTo(b: Books, id: nat, door: Door, w: World)
    ensures match Called(b, id, door, w)
      case Err(e) => Refuses(b, id, door, w, e)
      case Ok(r) => id in b.purchases && Admitted(b.purchases[id], door, w) && Does(b, id, w, r.0, r.1)
  {
    hide Fulfilled, Queried, Confirmed, Undeliverable, OtherPlan, Does;
    if id in b.purchases && Admitted(b.purchases[id], door, w) {
      if Queried(b, id, w).Ok? {
        QueryDoes(b, id, w);
      } else {
        QueryRefuses(b, id, door, w);
      }
    }
  }

  lemma QueryDoes(b: Books, id: nat, w: World)
    requires id in b.purchases && Queried(b, id, w).Ok?
    ensures Does(b, id, w, Queried(b, id, w).value.0, Queried(b, id, w).value.1)
  {
    hide Fulfilled;
    assert Fulfilled(b, id, w).Ok? ==> Fulfilled(b, id, w).value.purchases == b.purchases;
  }

  lemma QueryRefuses(b: Books, id: nat, door: Door, w: World)
    requires id in b.purchases && Queried(b, id, w).Err? && Admitted(b.purchases[id], door, w)
    ensures Refuses(b, id, door, w, Queried(b, id, w).error)
  {
    hide Admitted, Confirmed, Undeliverable, OtherPlan;
    var p := b.purchases[id];
    ConfirmedExactly(w, p);
    FulfilmentFails(b, id, w);
    hide Fulfilled;
  }

  lemma ConfirmedExactly(w: World, p: Purchase)
    ensures Confirmed(w, p) <==> w.answer.Some? && w.answer.value.status.GatewayPaid? && Matches(w.answer.value, p)
  {
  }

  lemma FulfilmentFails(b: Books, id: nat, w: World)
    requires id in b.purchases
    ensures Fulfilled(b, id, w).Err? ==>
      match Fulfilled(b, id, w).error
      case InvalidPurchase => Undeliverable(b.purchases[id], w)
      case PlanMismatch => OtherPlan(b, b.purchases[id])
      case _ => false
  {
    hide RenewalPeriod, InitialPeriod, Instant;
  }

  /** What a fulfilment delivers, at the place of the purchase and nowhere else: a license that is active and of this purchase,
      unless there is an active one or this purchase has one; or a subscription whose latest purchase is this one. */
  predicate Delivers(b: Books, id: nat, after: Books)
    requires id in b.purchases
  {
    var p := b.purchases[id];
    if p.goods.Elsewhere? then after == b
    else
      && p.place.Some?
      && var k := p.place.value;
      && after.purchases == b.purchases && after.installed == b.installed + {k}
      && match p.goods
         case OneTime(plan) =>
           && after.subs == b.subs && after.licenses.Keys == b.licenses.Keys + {k}
           && (forall l <- b.licenses :: l != k ==> after.licenses[l] == b.licenses[l])
           && (if k in b.licenses && (b.licenses[k].active || b.licenses[k].purchase == id)
               then after.licenses[k] == b.licenses[k]
               else after.licenses[k] == License(plan, id, true))
         case Subscription(_, plan) =>
           && after.licenses == b.licenses && after.subs.Keys == b.subs.Keys + {k}
           && (forall l <- b.subs :: l != k ==> after.subs[l] == b.subs[l])
           && after.subs[k].latest == id
           && (k in b.subs && b.subs[k].latest == id ==> after.subs[k] == b.subs[k])
           && (k !in b.subs ==> after.subs[k].plan == plan)
         case _ => false
  }

  lemma FulfilmentDelivers(b: Books, id: nat, w: World)
    requires id in b.purchases && Fulfilled(b, id, w).Ok?
    ensures Delivers(b, id, Fulfilled(b, id, w).value)
  {
    hide RenewalPeriod, InitialPeriod, Instant;
  }
}
