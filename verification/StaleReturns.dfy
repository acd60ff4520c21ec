/**
 A browser return reads its purchase before it locks it, and the locking query does not refresh what the
 session already holds. So a return that waited for another call goes by the status that it read first.
 */
module StaleReturns {
  import opened Common
  import opened Calendar
  import opened Purchases
  import opened PurchaseRuns

  // ----- A return that goes by what it read -----

  /** The admitted return, with the row as it was read. A status is written only where it differs from the one read. */
  function ReturnedSeeing(b: Books, id: nat, seen: Status, w: World): Result<(Books, Completion), Refusal>
    requires id in b.purchases
  {
    match Queried(WithStatus(b, id, seen), id, w)
    case Err(e) => Err(e)
    case Ok(done) =>
      var written := done.0.purchases[id].status;
      Ok((WithStatus(done.0, id, if written == seen then b.purchases[id].status else written), done.1))
  }

  /** A return that nothing overtook is the atomic call that the histories are made of. */
  lemma FreshReturnIsTheCall(b: Books, id: nat, token: string, w: World)
    requires id in b.purchases && TokenMatches(b.purchases[id], token) && w.configured
    ensures ReturnedSeeing(b, id, b.purchases[id].status, w) == Called(b, id, Return(token, None), w)
  {
    hide Fulfilled, Matches;
    var p := b.purchases[id];
    assert WithStatus(b, id, p.status) == b;
    match Queried(b, id, w)
    case Err(_) =>
    case Ok(done) => assert WithStatus(done.0, id, done.0.purchases[id].status) == done.0;
  }

  /** The goods of the purchase are in place, and were the last to be paid for there. */
  predicate Delivered(b: Books, id: nat)
    requires id in b.purchases
  {
    var p := b.purchases[id];
    match p.goods
    case Unreadable => false
    case Elsewhere => true
    case OneTime(_) =>
      && p.place.Some? && p.place.value in b.installed && p.place.value in b.licenses
      && (b.licenses[p.place.value].purchase == id || b.licenses[p.place.value].active)
    case Subscription(_, _) =>
      p.place.Some? && p.place.value in b.installed && p.place.value in b.subs && b.subs[p.place.value].latest == id
  }

  lemma DeliversNothingExactlyWhen(b: Books, id: nat, w: World)
    requires id in b.purchases && Fulfilled(b, id, w).Ok?
    ensures Fulfilled(b, id, w).value == b <==> Delivered(b, id)
  {
    hide RenewalPeriod, InitialPeriod, Instant;
    var p := b.purchases[id];
    if p.place.Some? {
      var k := p.place.value;
      if Delivered(b, id) && !p.goods.Elsewhere? {
        assert b.installed + {k} == b.installed;
        assert k in b.subs ==> b.subs[k := b.subs[k]] == b.subs;
        assert k in b.licenses ==> b.licenses[k := b.licenses[k]] == b.licenses;
      } else if Fulfilled(b, id, w).value == b && !p.goods.Elsewhere? {
        assert k in b.installed + {k};
      }
    }
  }

  lemma StatusDoesNotDeliver(b: Books, id: nat, seen: Status, w: World)
    requires id in b.purchases
    ensures Delivered(WithStatus(b, id, seen), id) <==> Delivered(b, id)
    ensures Fulfilled(WithStatus(b, id, seen), id, w).Ok? <==> Fulfilled(b, id, w).Ok?
    ensures Fulfilled(b, id, w).Ok? ==> Fulfilled(WithStatus(b, id, seen), id, w).value == WithStatus(Fulfilled(b, id, w).value, id, seen)
  {
    hide RenewalPeriod, InitialPeriod, Instant;
  }

  /**
   A return that read a purchase before it was paid, and is served after it, leaves the books alone exactly when the provider
   confirms the payment and the goods are still the last ones paid for there, or the answer is the status it had read.
   */
  lemma StaleReturnIsHarmlessExactlyWhen(b: Books, id: nat, seen: Status, w: World)
    requires IsPaid(b, id) && !seen.Paid?
    requires ReturnedSeeing(b, id, seen, w).Ok?
    ensures
      var answer := w.answer.value;
      ReturnedSeeing(b, id, seen, w).value.0 == b <==>
        if answer.status.GatewayPaid? && Matches(answer, b.purchases[id]) then Delivered(b, id)
        else seen == (if answer.status.GatewayPaid? then Failed else StatusFor(answer.status))
  {
    var v := WithStatus(b, id, seen);
    var p, answer := b.purchases[id], w.answer.value;
    hide Fulfilled, Matches, Delivered;
    assert Matches(answer, v.purchases[id]) == Matches(answer, p) by { MatchesByPrice(answer, p, seen); }
    assert WithStatus(b, id, Paid) == b;
    if answer.status.GatewayPaid? && Matches(answer, p) {
      StatusDoesNotDeliver(b, id, seen, w);
      DeliversNothingExactlyWhen(b, id, w);
      var done := Fulfilled(b, id, w).value;
      assert ReturnedSeeing(b, id, seen, w).value.0 == WithStatus(done, id, Paid);
      assert WithStatus(done, id, Paid) == done;
    } else {
      var x := if answer.status.GatewayPaid? then Failed else StatusFor(answer.status);
      assert ReturnedSeeing(b, id, seen, w).value.0 == WithStatus(b, id, if x == seen then Paid else x);
      assert x != Paid;
      assert WithStatus(b, id, x).purchases[id].status == x;
    }
  }

  lemma MatchesByPrice(a: Answer, p: Purchase, seen: Status)
    ensures Matches(a, p.(status := seen)) == Matches(a, p)
  {
  }

  // ----- A payment that counts twice -----

  /** A stale return of a subscription purchase that is not the last one extends the period once more. */
  lemma StaleReturnPaysAgain(b: Books, id: nat, k: Place, seen: Status, w: World)
    requires IsPaid(b, id) && !seen.Paid? && b.purchases[id].hasReference
    requires b.purchases[id].goods.Subscription? && b.purchases[id].place == Some(k) && Deliverable(b, id, w)
    requires k in b.subs && b.subs[k].latest != id
    requires w.configured && w.usable && w.answer.Some? && w.answer.value.status.GatewayPaid?
    requires Matches(w.answer.value, b.purchases[id])
    ensures ReturnedSeeing(b, id, seen, w).Ok?
    ensures
      var after := ReturnedSeeing(b, id, seen, w).value.0;
      && k in after.subs && after.subs[k].latest == id
      && Instant(after.subs[k].end) >= Instant(b.subs[k].end) + 28 * DAY
  {
    hide Fulfilled, Matches, Instant, RenewalPeriod;
    FulfilmentSucceedsExactlyWhen(b, id, w);
    StatusDoesNotDeliver(b, id, seen, w);
    MatchesByPrice(w.answer.value, b.purchases[id], seen);
    RenewalExtends(b.subs[k].start, b.subs[k].end, w.now);
    ExtendsTheSubscription(b, id, k, w);
  }

  lemma ExtendsTheSubscription(b: Books, id: nat, k: Place, w: World)
    requires id in b.purchases && b.purchases[id].goods.Subscription? && b.purchases[id].place == Some(k)
    requires k in b.subs && b.subs[k].latest != id && Fulfilled(b, id, w).Ok?
    ensures var s := b.subs[k]; var after := Fulfilled(b, id, w).value.subs;
      k in after && after[k].latest == id && after[k].end == RenewalPeriod(s.start, s.end, w.now).1
  {
    hide RenewalPeriod, Instant;
  }

  const MONTH: Purchase := SOLD.(goods := Subscription(Subscribe, 5))

  function Pays(id: nat): Step { Call(id, Return("t", None), Says(100), true) }

  /** A history with two paid months, in which a return of the first that read it before it was paid adds a third. */
  lemma ThirdMonthForTwoPayments()
    ensures
      var b := Run([Checkout(0, MONTH), Checkout(1, MONTH), Pays(0), Pays(1)]);
      && IsPaid(b, 0) && IsPaid(b, 1) && Place(1, 1) in b.subs
      && ReturnedSeeing(b, 0, Redirected, Says(100)).Ok?
      && Place(1, 1) in ReturnedSeeing(b, 0, Redirected, Says(100)).value.0.subs
      && Instant(ReturnedSeeing(b, 0, Redirected, Says(100)).value.0.subs[Place(1, 1)].end)
           >= Instant(b.subs[Place(1, 1)].end) + 28 * DAY
  {
    var k := Place(1, 1);
    var h0, h1 := [Checkout(0, MONTH)], [Checkout(0, MONTH), Checkout(1, MONTH)];
    var h2, h3 := h1 + [Pays(0)], h1 + [Pays(0), Pays(1)];
    RunSnoc([], Checkout(0, MONTH));
    assert [] + [Checkout(0, MONTH)] == h0;
    RunSnoc(h0, Checkout(1, MONTH));
    assert h0 + [Checkout(1, MONTH)] == h1;
    RunSnoc(h1, Pays(0));
    RunSnoc(h2, Pays(1));
    assert h2 + [Pays(1)] == h3 == [Checkout(0, MONTH), Checkout(1, MONTH), Pays(0), Pays(1)];
    var b1 := Books(map[0 := MONTH.(status := Redirected), 1 := MONTH.(status := Redirected)], map[], map[], {});
    assert Run([]) == Books(map[], map[], map[], {});
    assert Run(h1).purchases == b1.purchases && Run(h1) == b1;
    hide Run, RenewalPeriod, InitialPeriod, Instant;
    MonthIsPaid(b1, 0);
    MonthIsPaid(Next(b1, Pays(0)), 1);
    StaleReturnPaysAgain(Run(h3), 0, k, Redirected, Says(100));
  }

  lemma MonthIsPaid(b: Books, id: nat)
    requires id in b.purchases && b.purchases[id] == MONTH.(status := Redirected)
    requires Place(1, 1) in b.subs ==> b.subs[Place(1, 1)].latest != id
    ensures var after := Next(b, Pays(id));
      && after.purchases == b.purchases[id := MONTH.(status := Paid)]
      && Place(1, 1) in after.subs && after.subs[Place(1, 1)].latest == id
  {
    hide RenewalPeriod, InitialPeriod, Instant;
  }
}
