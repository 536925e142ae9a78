/** What whole sequences of Stripe deliveries and billing calls do to the billing store. */
module BillingWebhooks {
  import opened Foundations
  import opened Billing

  ghost function Run(s: Store, ds: seq<Delivery>): Store
    decreases ds
  {
    if ds == [] then s else Run(Deliver(s, ds[0]), ds[1..])
  }

  /** The deliveries whose event id has not come before. */
  function Firsts(ds: seq<Delivery>, seen: set<string>): seq<Delivery> {
    if ds == [] then []
    else if ds[0].event.id in seen then Firsts(ds[1..], seen)
    else [ds[0]] + Firsts(ds[1..], seen + {ds[0].event.id})
  }

  lemma DispatchKeepsRows(s: Store, e: Event, env: Env)
    ensures Dispatch(s, e, env).orgs.Keys == s.orgs.Keys
    ensures Dispatch(s, e, env).fence == s.fence
  {
  }

  /** The fence row of each of these deliveries can be written. */
  ghost predicate Recordable(s: Store, ds: seq<Delivery>) {
    forall d | d in ds :: d.env.fenceUp && FenceAccepts(s.orgs, d.event.metaOrg)
  }

  lemma {:induction false} RepeatsChangeNothing(s: Store, ds: seq<Delivery>, seen: set<string>)
    requires Recordable(s, Firsts(ds, seen)) && seen <= s.fence.Keys
    ensures Run(s, ds) == Run(s, Firsts(ds, seen))
    decreases ds
  {
    if ds != [] {
      var d := ds[0];
      DispatchKeepsRows(s, d.event, d.env);
      var next := Deliver(s, d);
      if d.event.id in seen {
        RepeatsChangeNothing(s, ds[1..], seen);
      } else {
        var firsts := Firsts(ds, seen);
        assert firsts[0] == d && firsts[1..] == Firsts(ds[1..], seen + {d.event.id});
        assert d in firsts && forall e | e in firsts[1..] :: e in firsts;
        RepeatsChangeNothing(next, ds[1..], seen + {d.event.id});
      }
    }
  }

  /**
   * However often deliveries repeat, and however handlers fail, organisations, snapshots, fence rows and
   * published events end as if each event had been delivered once, provided the fence row of each event's
   * first delivery can be written.
   */
  lemma EachEventProcessedOnce(s: Store, ds: seq<Delivery>)
    requires Recordable(s, Firsts(ds, {}))
    ensures Run(s, ds) == Run(s, Firsts(ds, {}))
  {
    RepeatsChangeNothing(s, ds, {});
  }

  // ---- One event twice in a row ----

  lemma UpdateKeepsUnique(orgs: Orgs, id: string, p: Patch)
    requires Unique(orgs)
    ensures Update(orgs, id, p).Some? ==> Unique(Update(orgs, id, p).value)
  {
  }

  lemma SameCustomerSameOrg(orgs: Orgs, customer: string, id: string)
    requires Unique(orgs) && id in orgs && orgs[id].stripeCustomerId == Some(customer)
    ensures FindByCustomer(orgs, customer) == Some(id)
  {
    var found := FindByCustomer(orgs, customer);
    assert found.Some? && !(found.value != id && Collides(orgs[found.value], orgs[id]));
  }

  /** An update that went through, and changes neither unique column when repeated, goes through again to the same rows. */
  lemma UpdateTwice(orgs: Orgs, id: string, p: Patch, q: Patch)
    requires Update(orgs, id, p).Some?
    requires Patched(Patched(orgs[id], p), q) == Patched(orgs[id], p)
    ensures Update(Update(orgs, id, p).value, id, q) == Update(orgs, id, p)
  {
    var after := Update(orgs, id, p).value;
    assert after[id := Patched(after[id], q)] == after;
  }

  /** Running a handler again right after it has written writes the same organisation rows. */
  lemma HandlerTwice(orgs: Orgs, e: Event, now: int, later: int)
    requires Unique(orgs)
    ensures match HandlerWrites(orgs, e, now)
      case None => HandlerWrites(orgs, e, later) == None
      case Some(w) => Unique(w.orgs) && w.events != [] && HandlerWrites(w.orgs, e, later).Some? && HandlerWrites(w.orgs, e, later).value.orgs == w.orgs
  {
    var first := HandlerWrites(orgs, e, now);
    if first.Some? {
      match e.body
      case CheckoutCompleted(customer, subscription, _) =>
        var id := e.metaOrg.value;
        var p := CheckoutPatch(orgs[id], customer.value, subscription);
        var q := CheckoutPatch(Patched(orgs[id], p), customer.value, subscription);
        UpdateKeepsUnique(orgs, id, p);
        UpdateTwice(orgs, id, p, q);
      case SubscriptionEvent(kind, sub, _) =>
        var id := FindByCustomer(orgs, sub.customer).value;
        UpdateKeepsUnique(orgs, id, SyncPatch(sub));
        SameCustomerSameOrg(first.value.orgs, sub.customer, id);
        UpdateTwice(orgs, id, SyncPatch(sub), SyncPatch(sub));
      case InvoicePaid(customer, _) =>
        InvoiceTwice(orgs, customer.value, ACTIVE);
      case InvoiceFailed(customer, _) =>
        InvoiceTwice(orgs, customer.value, PAST_DUE);
      case Unhandled =>
    }
  }

  lemma InvoiceTwice(orgs: Orgs, customer: string, status: BillingStatus)
    requires Unique(orgs) && FindByCustomer(orgs, customer).Some?
    requires Update(orgs, FindByCustomer(orgs, customer).value, NO_CHANGE.(billingStatus := Set(status))).Some?
    ensures var id := FindByCustomer(orgs, customer).value;
      var p := NO_CHANGE.(billingStatus := Set(status));
      var after := Update(orgs, id, p).value;
      Unique(after) && FindByCustomer(after, customer) == Some(id) && Update(after, id, p) == Some(after)
  {
    var id := FindByCustomer(orgs, customer).value;
    var p := NO_CHANGE.(billingStatus := Set(status));
    UpdateKeepsUnique(orgs, id, p);
    SameCustomerSameOrg(Update(orgs, id, p).value, customer, id);
    UpdateTwice(orgs, id, p, p);
  }

  /** A crash after dispatch and before the fence write: dispatching again leaves the billing fields as they are. */
  lemma RedispatchKeepsOrgs(s: Store, e: Event, first: Env, again: Env)
    requires Unique(s.orgs) && first.databaseUp
    ensures Dispatch(Dispatch(s, e, first), e, again).orgs == Dispatch(s, e, first).orgs
  {
    HandlerTwice(s.orgs, e, first.now, again.now);
  }

  /** Back from a lapsed state: what the published change is then called depends on the row before it. */
  predicate Reactivates(before: Org, status: BillingStatus) {
    before.billingStatus in {CANCELED, PAST_DUE, UNPAID} && status in {ACTIVE, TRIALING}
  }

  /**
   * The domain events are another matter: dispatching a subscription event again publishes what it
   * published before if and only if the event creates the subscription, or it neither changed the plan
   * nor brought a lapsed subscription back. Otherwise the second event names the new plan as the old one.
   */
  lemma RedispatchPublishesTheSameIff(orgs: Orgs, e: Event, now: int, later: int)
    requires Unique(orgs) && e.body.SubscriptionEvent? && HandlerWrites(orgs, e, now).Some?
    ensures var first := HandlerWrites(orgs, e, now).value;
      var sub := e.body.sub;
      && FindByCustomer(orgs, sub.customer).Some? && HandlerWrites(first.orgs, e, later).Some?
      && var before := orgs[FindByCustomer(orgs, sub.customer).value];
         HandlerWrites(first.orgs, e, later).value.events == first.events <==>
           || e.body.kind.Created?
           || (before.planId == sub.Plan()
               && (e.body.kind.Deleted? || sub.status.Canceled? || !Reactivates(before, BillingStatusOf(sub.status))))
  {
    HandlerTwice(orgs, e, now, later);
    var first := HandlerWrites(orgs, e, now).value;
    var sub := e.body.sub;
    var id := FindByCustomer(orgs, sub.customer).value;
    var before, after := orgs[id], first.orgs[id];
    SameCustomerSameOrg(first.orgs, sub.customer, id);
    var x := SyncEvents(id, before, e.body.kind, sub, e.body.previousPlan);
    var y := SyncEvents(id, after, e.body.kind, sub, e.body.previousPlan);
    assert first.events == x && HandlerWrites(first.orgs, e, later).value.events == y;
    if !e.body.kind.Created? && x == y {
      assert x[0] == y[0];
    }
  }

  /** The event is recorded by its first delivery, or was before. */
  predicate Recorded(s: Store, d: Delivery) {
    d.event.id in s.fence || (d.env.fenceUp && FenceAccepts(s.orgs, d.event.metaOrg))
  }

  /** A repeat that finds no fence row writes none either, and its handler, if it runs to its writes, leaves no trace. */
  ghost predicate RepeatIsIdle(s: Store, d: Delivery, again: Env) {
    && !(again.fenceUp && FenceAccepts(s.orgs, d.event.metaOrg))
    && (|| !again.databaseUp
        || HandlerWrites(s.orgs, d.event, d.env.now).None?
        || (again.publishes == 0 && !d.event.body.SubscriptionEvent?))
  }

  /**
   * Exactly when a redelivery, at its own time and with its own failures, is invisible: the event was
   * recorded, or the repeat writes no fence row and no handler output. A handler that writes at all
   * appends a snapshot or publishes, so an unrecorded event is processed again on every such delivery.
   */
  lemma RepeatInvisibleIff(s: Store, d: Delivery, again: Delivery)
    requires Unique(s.orgs) && d.env.databaseUp && again.event == d.event
    ensures Deliver(Deliver(s, d), again) == Deliver(s, d) <==> Recorded(s, d) || RepeatIsIdle(s, d, again.env)
  {
    if !Recorded(s, d) {
      var once := Dispatch(s, d.event, d.env);
      DispatchKeepsRows(s, d.event, d.env);
      assert Deliver(s, d) == once;
      DispatchKeepsRows(once, d.event, again.env);
      RedispatchVisibleIff(s, d.event, d.env, again.env);
      if again.env.fenceUp && FenceAccepts(s.orgs, d.event.metaOrg) {
        assert d.event.id in Deliver(once, again).fence;
      } else {
        assert Deliver(once, again) == Dispatch(once, d.event, again.env);
      }
    }
  }

  /** What a second dispatch leaves behind: nothing, unless the handler writes again and publishes or takes a snapshot. */
  lemma RedispatchVisibleIff(s: Store, e: Event, first: Env, again: Env)
    requires Unique(s.orgs) && first.databaseUp
    ensures var once := Dispatch(s, e, first);
      Dispatch(once, e, again) == once <==>
        || !again.databaseUp || HandlerWrites(s.orgs, e, first.now).None?
        || (again.publishes == 0 && !e.body.SubscriptionEvent?)
  {
    HandlerTwice(s.orgs, e, first.now, again.now);
    if HandlerWrites(s.orgs, e, first.now).Some? {
      var once := Dispatch(s, e, first);
      var w := HandlerWrites(once.orgs, e, again.now).value;
      HandlerTwice(once.orgs, e, again.now, again.now);
      HandlerSnapshots(once.orgs, e, again.now);
      var twice := Dispatch(once, e, again);
      if again.databaseUp {
        assert |twice.snapshots| == |once.snapshots| + |w.snapshots|;
        assert |twice.published| == |once.published| + |Prefix(w.events, again.publishes)|;
      }
    }
  }

  /**
   * Such events exist: the invoice of any organisation that has a customer, its metadata naming an
   * organisation that does not exist. No delivery of it is ever recorded and every one publishes again.
   */
  lemma UnrecordableInvoice(s: Store, id: string, missing: string, d: Delivery, again: Delivery)
    requires Unique(s.orgs) && id in s.orgs && Truthy(s.orgs[id].stripeCustomerId) && missing !in s.orgs && missing != ""
    requires d.event.body.InvoicePaid? && d.event.body.customer == s.orgs[id].stripeCustomerId && d.event.metaOrg == Some(missing)
    requires d.event.id !in s.fence && d.env.databaseUp && again.event == d.event
    ensures HandlerWrites(s.orgs, d.event, d.env.now).Some? && !Recorded(s, d) && d.event.id !in Deliver(s, d).fence
    ensures again.env.databaseUp && again.env.publishes > 0 ==> |Deliver(Deliver(s, d), again).published| > |Deliver(s, d).published|
  {
    SameCustomerSameOrg(s.orgs, s.orgs[id].stripeCustomerId.value, id);
    StatusUpdateWorks(s.orgs, id, ACTIVE);
    DispatchKeepsRows(s, d.event, d.env);
    HandlerTwice(s.orgs, d.event, d.env.now, again.env.now);
    var once := Deliver(s, d);
    HandlerTwice(once.orgs, d.event, again.env.now, again.env.now);
    DispatchKeepsRows(once, d.event, again.env);
  }

  lemma StatusUpdateWorks(orgs: Orgs, id: string, status: BillingStatus)
    requires Unique(orgs) && id in orgs
    ensures Update(orgs, id, NO_CHANGE.(billingStatus := Set(status))).Some?
  {
    var org := Patched(orgs[id], NO_CHANGE.(billingStatus := Set(status)));
    forall other | other in orgs && other != id ensures !Collides(org, orgs[other]) {
      assert !Collides(orgs[id], orgs[other]);
    }
  }

  /** One concrete store and event of that kind. */
  lemma UnrecordableInvoiceExists()
    ensures var org := Org(Some("cus_1"), None, NONE, None, None, None, None, false);
      var s := Store(map["org_1" := org], [], map[], []);
      var d := Delivery(Event("evt_1", Some("org_2"), InvoicePaid(Some("cus_1"), "in_1")), "", Env(true, 2, true, 0));
      Unique(s.orgs) && !Recorded(s, d) && HandlerWrites(s.orgs, d.event, 0).Some? && Deliver(Deliver(s, d), d) != Deliver(s, d)
  {
    var org := Org(Some("cus_1"), None, NONE, None, None, None, None, false);
    var s := Store(map["org_1" := org], [], map[], []);
    var d := Delivery(Event("evt_1", Some("org_2"), InvoicePaid(Some("cus_1"), "in_1")), "", Env(true, 2, true, 0));
    assert "org_2"[4] != "org_1"[4];
    assert Unique(s.orgs);
    UnrecordableInvoice(s, "org_1", "org_2", d, d);
  }

  // ---- What one delivery writes, field by field ----

  lemma TruthyMeans(o: Option<string>)
    ensures Truthy(o) <==> o !in {None, Some("")}
  {
    if o.Some? && |o.value| == 0 {
      assert o.value == "";
    }
  }

  /** A recorded event changes nothing; any other writes at most its own fence row, and that row in full. */
  lemma FenceWritten(s: Store, d: Delivery)
    ensures d.event.id in s.fence ==> Deliver(s, d) == s
    ensures d.event.id !in s.fence ==>
      var none := d.event.metaOrg == None || d.event.metaOrg == Some("");
      Deliver(s, d).fence ==
        if d.env.fenceUp && (none || d.event.metaOrg.value in s.orgs) then
          s.fence[d.event.id := FenceRow(if none then None else d.event.metaOrg, d.payloadHash, d.env.now)]
        else s.fence
  {
    DispatchKeepsRows(s, d.event, d.env);
  }

  /** Without a database or a matching organisation the handler leaves no trace. */
  lemma NothingToWrite(s: Store, d: Delivery)
    requires
      || !d.env.databaseUp
      || d.event.body.Unhandled?
      || (d.event.body.SubscriptionEvent? && forall id | id in s.orgs :: s.orgs[id].stripeCustomerId != Some(d.event.body.sub.customer))
      || (d.event.body.CheckoutCompleted? &&
            (d.event.body.customer in {None, Some("")} || d.event.metaOrg in {None, Some("")} || d.event.metaOrg.value !in s.orgs))
      || ((d.event.body.InvoicePaid? || d.event.body.InvoiceFailed?) &&
            (d.event.body.customer in {None, Some("")} || forall id | id in s.orgs :: s.orgs[id].stripeCustomerId != d.event.body.customer))
    ensures Deliver(s, d).orgs == s.orgs && Deliver(s, d).snapshots == s.snapshots && Deliver(s, d).published == s.published
  {
    TruthyMeans(d.event.metaOrg);
    if !d.event.body.SubscriptionEvent? && !d.event.body.Unhandled? {
      TruthyMeans(d.event.body.customer);
    }
  }

  /** The delivery is the event's first, the database answers, and the customer is this organisation's. */
  ghost predicate Reaches(s: Store, d: Delivery, id: string, customer: string) {
    && Unique(s.orgs) && d.event.id !in s.fence && d.env.databaseUp
    && id in s.orgs && s.orgs[id].stripeCustomerId == Some(customer)
  }

  /** A paid invoice makes its organisation ACTIVE, changes nothing else, and is announced, then the activation. */
  lemma PaidInvoiceActivates(s: Store, d: Delivery, id: string, customer: string, invoice: string)
    requires Reaches(s, d, id, customer) && customer != "" && d.event.body == InvoicePaid(Some(customer), invoice)
    ensures Deliver(s, d).orgs == s.orgs[id := s.orgs[id].(billingStatus := ACTIVE)] && Deliver(s, d).snapshots == s.snapshots
    ensures Deliver(s, d).published ==
      s.published + (if d.env.publishes > 0 then [BillingPaymentSucceeded(id, invoice)] else [])
                  + (if d.env.publishes > 1 then [SubscriptionActivated(id)] else [])
  {
    SameCustomerSameOrg(s.orgs, customer, id);
    StatusUpdateWorks(s.orgs, id, ACTIVE);
  }

  /** A failed invoice makes its organisation PAST_DUE, changes nothing else, and is announced. */
  lemma FailedInvoiceIsPastDue(s: Store, d: Delivery, id: string, customer: string, invoice: string)
    requires Reaches(s, d, id, customer) && customer != "" && d.event.body == InvoiceFailed(Some(customer), invoice)
    ensures Deliver(s, d).orgs == s.orgs[id := s.orgs[id].(billingStatus := PAST_DUE)] && Deliver(s, d).snapshots == s.snapshots
    ensures Deliver(s, d).published == s.published + if d.env.publishes > 0 then [BillingPaymentFailed(id, invoice)] else []
  {
    SameCustomerSameOrg(s.orgs, customer, id);
    StatusUpdateWorks(s.orgs, id, PAST_DUE);
  }

  /** Some other organisation already has this customer or this subscription, so the unique columns refuse the row. */
  ghost predicate Taken(orgs: Orgs, id: string, row: Org) {
    exists other | other in orgs && other != id ::
      || (row.stripeCustomerId != None && orgs[other].stripeCustomerId == row.stripeCustomerId)
      || (row.subscriptionId != None && orgs[other].subscriptionId == row.subscriptionId)
  }

  lemma UpdateRefusedIff(orgs: Orgs, id: string, p: Patch)
    requires id in orgs
    ensures var row := Patched(orgs[id], p); Update(orgs, id, p) == if Taken(orgs, id, row) then None else Some(orgs[id := row])
  {
    var row := Patched(orgs[id], p);
    if Taken(orgs, id, row) {
      var other :| other in orgs && other != id &&
        ((row.stripeCustomerId != None && orgs[other].stripeCustomerId == row.stripeCustomerId)
         || (row.subscriptionId != None && orgs[other].subscriptionId == row.subscriptionId));
      assert Collides(row, orgs[other]);
    } else {
      forall other | other in orgs && other != id ensures !Collides(row, orgs[other]) {
      }
    }
  }

  /** A completed checkout makes the organisation ACTIVE, gives it the customer it lacks and the subscription it names. */
  lemma CheckoutActivates(s: Store, d: Delivery, id: string, customer: string, subscription: Option<string>, session: string)
    requires d.event.id !in s.fence && d.env.databaseUp && customer != "" && id != "" && id in s.orgs
    requires d.event.metaOrg == Some(id) && d.event.body == CheckoutCompleted(Some(customer), subscription, session)
    ensures var org := s.orgs[id];
      var row := org.(
        billingStatus := ACTIVE,
        stripeCustomerId := if org.stripeCustomerId in {None, Some("")} then Some(customer) else org.stripeCustomerId,
        subscriptionId := if subscription in {None, Some("")} then org.subscriptionId else subscription);
      && Deliver(s, d).snapshots == s.snapshots
      && Deliver(s, d).orgs == (if Taken(s.orgs, id, row) then s.orgs else s.orgs[id := row])
      && Deliver(s, d).published == s.published +
           if Taken(s.orgs, id, row) || d.env.publishes == 0 then [] else [BillingCheckoutCompleted(id, customer, subscription, session)]
  {
    var org := s.orgs[id];
    var patch := CheckoutPatch(org, customer, subscription);
    TruthyMeans(org.stripeCustomerId);
    TruthyMeans(subscription);
    UpdateRefusedIff(s.orgs, id, patch);
  }

  /** The row a subscription event leaves: what it says of the subscription; customer and storage limit stay. */
  function Synced(org: Org, sub: Subscription): (row: Org)
    ensures row.stripeCustomerId == org.stripeCustomerId && row.storageLimit == org.storageLimit
    ensures row.subscriptionId == Some(sub.id) && row.cancelAtPeriodEnd == sub.cancelAtPeriodEnd
    ensures row.billingStatus ==
      match sub.status
      case Active => ACTIVE
      case Trialing => TRIALING
      case PastDue => PAST_DUE
      case Unpaid => UNPAID
      case Paused => PAUSED
      case Canceled => CANCELED
      case Incomplete => INCOMPLETE
      case IncompleteExpired => INCOMPLETE_EXPIRED
      case Unrecognised => NONE
    ensures row.planId == if sub.item.None? then None else sub.item.value.price
    ensures row.periodStart == if sub.item.None? || sub.item.value.periodStart.None? then org.periodStart else sub.item.value.periodStart
    ensures row.periodEnd == if sub.item.None? || sub.item.value.periodEnd.None? then org.periodEnd else sub.item.value.periodEnd
  {
    Patched(org, SyncPatch(sub))
  }

  /** A subscription event writes that row and appends one snapshot of the subscription, or neither. */
  lemma SubscriptionEventSyncs(s: Store, d: Delivery, id: string)
    requires d.event.body.SubscriptionEvent? && Reaches(s, d, id, d.event.body.sub.customer)
    ensures var sub := d.event.body.sub;
      var row := Synced(s.orgs[id], sub);
      var item := if sub.item.Some? then sub.item.value else Item(None, None, None, None);
      var start := if item.periodStart.Some? then item.periodStart.value else d.env.now;
      var end := if item.periodEnd.Some? then item.periodEnd.value else d.env.now;
      if Taken(s.orgs, id, row) then
        Deliver(s, d).orgs == s.orgs && Deliver(s, d).snapshots == s.snapshots && Deliver(s, d).published == s.published
      else
        && Deliver(s, d).orgs == s.orgs[id := row]
        && Deliver(s, d).snapshots == s.snapshots + [Snapshot(id, sub.id, item.price, sub.status, item.quantity, start, end)]
  {
    var sub := d.event.body.sub;
    SameCustomerSameOrg(s.orgs, sub.customer, id);
    UpdateRefusedIff(s.orgs, id, SyncPatch(sub));
  }

  /**
   * What it publishes: a creation names the subscription; anything else carries the old plan, the new one
   * and the kind of change; a cancelled subscription is also announced as expired.
   */
  lemma SubscriptionEventPublishes(s: Store, d: Delivery, id: string)
    requires d.event.body.SubscriptionEvent? && Reaches(s, d, id, d.event.body.sub.customer)
    requires !Taken(s.orgs, id, Synced(s.orgs[id], d.event.body.sub))
    ensures var org, sub, kind := s.orgs[id], d.event.body.sub, d.event.body.kind;
      var plan := if sub.item.None? then None else sub.item.value.price;
      var from := if d.event.body.previousPlan == None then org.planId else d.event.body.previousPlan;
      var direction :=
        if kind == Deleted || sub.status == Canceled then SubscriptionCancelled
        else if org.billingStatus in {CANCELED, PAST_DUE, UNPAID} && sub.status in {Active, Trialing} then SubscriptionReactivated
        else if from in {None, Some("")} || plan in {None, Some("")} || from == plan then SubscriptionUpdated
        else SubscriptionUpgraded;
      var change := SubscriptionChange(sub.id, sub.status, sub.cancelAtPeriodEnd, org.planId, plan, direction);
      Deliver(s, d).published == s.published + Prefix(
        if kind == Created then [BillingSubscriptionCreated(id, sub.id, sub.status, plan)]
        else if sub.status == Canceled then [BillingSubscriptionCancelled(id, change), SubscriptionExpired(id)]
        else [SubscriptionPlanChanged(id, change)], d.env.publishes)
  {
    var sub := d.event.body.sub;
    SameCustomerSameOrg(s.orgs, sub.customer, id);
    UpdateRefusedIff(s.orgs, id, SyncPatch(sub));
    TruthyMeans(sub.Plan());
    TruthyMeans(if d.event.body.previousPlan.Some? then d.event.body.previousPlan else s.orgs[id].planId);
  }

  /** A new customer is stored where there is none, unless another organisation holds it. */
  lemma EnsureCustomerStores(s: Store, id: string, created: string)
    requires Unique(s.orgs)
    ensures Apply(s, EnsureCustomer(id, created)) ==
      if id in s.orgs && s.orgs[id].stripeCustomerId in {None, Some("")}
         && forall other | other in s.orgs && other != id :: s.orgs[other].stripeCustomerId != Some(created) then
        s.(orgs := s.orgs[id := s.orgs[id].(stripeCustomerId := Some(created))])
      else s
  {
    if id in s.orgs {
      TruthyMeans(s.orgs[id].stripeCustomerId);
      var row := s.orgs[id].(stripeCustomerId := Some(created));
      assert row == Patched(s.orgs[id], NO_CHANGE.(stripeCustomerId := Set(Some(created))));
      forall other | other in s.orgs && other != id ensures Collides(row, s.orgs[other]) <==> s.orgs[other].stripeCustomerId == Some(created) {
        assert !Collides(s.orgs[id], s.orgs[other]);
      }
    }
  }

  /** A cancellation Stripe accepted marks the subscription to end with its period, and nothing else. */
  lemma CancellationMarks(s: Store, id: string, stripeUp: bool, publishUp: bool)
    requires Unique(s.orgs)
    ensures Apply(s, CancelAtPeriodEnd(id, stripeUp, publishUp)) ==
      if stripeUp && id in s.orgs && s.orgs[id].subscriptionId !in {None, Some("")} then
        s.(orgs := s.orgs[id := s.orgs[id].(cancelAtPeriodEnd := true)],
           published := s.published + if publishUp then [CancellationRequested(id, s.orgs[id].subscriptionId.value)] else [])
      else s
  {
    if id in s.orgs {
      TruthyMeans(s.orgs[id].subscriptionId);
      var row := s.orgs[id].(cancelAtPeriodEnd := true);
      assert row == Patched(s.orgs[id], NO_CHANGE.(cancelAtPeriodEnd := Set(true)));
      forall other | other in s.orgs && other != id ensures !Collides(row, s.orgs[other]) {
        assert !Collides(s.orgs[id], s.orgs[other]);
      }
    }
  }

  // ---- Runs of deliveries and billing calls ----

  ghost function RunCalls(s: Store, cs: seq<Call>): Store
    decreases cs
  {
    if cs == [] then s else RunCalls(Apply(s, cs[0]), cs[1..])
  }

  /** The plan of the organisation's newest snapshot, or `none` when it has no snapshot. */
  function NewestPlan(snapshots: seq<Snapshot>, orgId: string, none: Option<string>): Option<string> {
    if snapshots == [] then none
    else if snapshots[|snapshots| - 1].orgId == orgId then snapshots[|snapshots| - 1].planId
    else NewestPlan(snapshots[..|snapshots| - 1], orgId, none)
  }

  ghost predicate PlansAgree(s: Store) {
    forall id | id in s.orgs :: NewestPlan(s.snapshots, id, s.orgs[id].planId) == s.orgs[id].planId
  }

  lemma NewestAfterAppend(snapshots: seq<Snapshot>, snapshot: Snapshot, orgId: string, none: Option<string>)
    ensures NewestPlan(snapshots + [snapshot], orgId, none)
         == if snapshot.orgId == orgId then snapshot.planId else NewestPlan(snapshots, orgId, none)
  {
    assert (snapshots + [snapshot])[..|snapshots|] == snapshots;
  }

  /** How far one call may move the store. */
  ghost predicate Follows(s: Store, n: Store) {
    && s.snapshots <= n.snapshots && s.published <= n.published
    && n.orgs.Keys == s.orgs.Keys
    && (forall id | id in s.orgs && Truthy(s.orgs[id].stripeCustomerId) :: n.orgs[id].stripeCustomerId == s.orgs[id].stripeCustomerId)
    && (forall e | e in s.fence :: e in n.fence && n.fence[e] == s.fence[e])
  }

  /** A handler touches one organisation; it moves the plan only with a snapshot of that plan. */
  lemma HandlerTouches(orgs: Orgs, e: Event, now: int)
    requires HandlerWrites(orgs, e, now).Some?
    ensures var w := HandlerWrites(orgs, e, now).value;
      && w.orgs.Keys == orgs.Keys
      && (forall id | id in orgs && Truthy(orgs[id].stripeCustomerId) :: w.orgs[id].stripeCustomerId == orgs[id].stripeCustomerId)
      && (if e.body.SubscriptionEvent? then
            && |w.snapshots| == 1 && w.snapshots[0].orgId in orgs
            && w.orgs[w.snapshots[0].orgId].planId == w.snapshots[0].planId
            && forall id | id in orgs && id != w.snapshots[0].orgId :: w.orgs[id].planId == orgs[id].planId
          else w.snapshots == [] && forall id | id in orgs :: w.orgs[id].planId == orgs[id].planId)
  {
  }

  lemma WritesAgree(s: Store, e: Event, env: Env)
    requires PlansAgree(s)
    ensures PlansAgree(Dispatch(s, e, env)) && Follows(s, Dispatch(s, e, env))
  {
    var n := Dispatch(s, e, env);
    if env.databaseUp && HandlerWrites(s.orgs, e, env.now).Some? {
      HandlerTouches(s.orgs, e, env.now);
      forall id | id in n.orgs ensures NewestPlan(n.snapshots, id, n.orgs[id].planId) == n.orgs[id].planId {
        assert NewestPlan(s.snapshots, id, s.orgs[id].planId) == s.orgs[id].planId;
        if e.body.SubscriptionEvent? {
          NewestAfterAppend(s.snapshots, n.snapshots[|s.snapshots|], id, n.orgs[id].planId);
        } else {
          assert n.snapshots == s.snapshots;
        }
      }
    }
  }

  lemma DispatchKeepsUnique(s: Store, e: Event, env: Env)
    requires Unique(s.orgs)
    ensures Unique(Dispatch(s, e, env).orgs)
  {
    HandlerTwice(s.orgs, e, env.now, env.now);
  }

  lemma CallFollows(s: Store, c: Call)
    requires Unique(s.orgs) && PlansAgree(s)
    ensures var n := Apply(s, c); Unique(n.orgs) && PlansAgree(n) && Follows(s, n)
  {
    match c
    case Webhook(d) =>
      WritesAgree(s, d.event, d.env);
      DispatchKeepsUnique(s, d.event, d.env);
    case EnsureCustomer(id, created) =>
      UpdateKeepsUnique(s.orgs, id, NO_CHANGE.(stripeCustomerId := Set(Some(created))));
    case CancelAtPeriodEnd(id, _, _) =>
      UpdateKeepsUnique(s.orgs, id, NO_CHANGE.(cancelAtPeriodEnd := Set(true)));
  }

  /**
   * Over every run of deliveries and billing calls: snapshots and published events are append-only, each
   * organisation's plan is its newest snapshot's plan, and a customer id once set never changes, so the
   * customer lookup keeps finding the same organisation.
   */
  lemma {:induction false} BillingRunsAgree(s: Store, cs: seq<Call>)
    requires Unique(s.orgs) && PlansAgree(s)
    ensures var n := RunCalls(s, cs); Unique(n.orgs) && PlansAgree(n) && Follows(s, n)
    ensures forall customer | customer != "" && FindByCustomer(s.orgs, customer).Some? ::
              FindByCustomer(RunCalls(s, cs).orgs, customer) == FindByCustomer(s.orgs, customer)
    decreases cs
  {
    if cs != [] {
      CallFollows(s, cs[0]);
      BillingRunsAgree(Apply(s, cs[0]), cs[1..]);
    }
    forall customer | customer != "" && FindByCustomer(s.orgs, customer).Some?
      ensures FindByCustomer(RunCalls(s, cs).orgs, customer) == FindByCustomer(s.orgs, customer)
    {
      SameCustomerSameOrg(RunCalls(s, cs).orgs, customer, FindByCustomer(s.orgs, customer).value);
    }
  }

  function SnapshotsOf(snapshots: seq<Snapshot>, orgId: string): nat {
    if snapshots == [] then 0
    else SnapshotsOf(snapshots[..|snapshots| - 1], orgId) + if snapshots[|snapshots| - 1].orgId == orgId then 1 else 0
  }

  /** A call syncs an organisation: a new, unfenced subscription event whose customer is that organisation's. */
  ghost predicate Syncs(s: Store, c: Call, orgId: string) {
    c.Webhook? && c.delivery.event.id !in s.fence && c.delivery.env.databaseUp && SyncedOrg(s.orgs, c.delivery.event) == Some(orgId)
  }

  ghost function SyncsIn(s: Store, cs: seq<Call>, orgId: string): nat
    decreases cs
  {
    if cs == [] then 0 else (if Syncs(s, cs[0], orgId) then 1 else 0) + SyncsIn(Apply(s, cs[0]), cs[1..], orgId)
  }

  /** The organisation a subscription event is for, when its update goes through. */
  ghost function SyncedOrg(orgs: Orgs, e: Event): Option<string> {
    if !e.body.SubscriptionEvent? then None
    else
      var found := FindByCustomer(orgs, e.body.sub.customer);
      if found.Some? && Update(orgs, found.value, SyncPatch(e.body.sub)).Some? then found else None
  }

  lemma HandlerSnapshots(orgs: Orgs, e: Event, now: int)
    ensures var w := HandlerWrites(orgs, e, now);
      match SyncedOrg(orgs, e)
      case None => w.None? || w.value.snapshots == []
      case Some(id) => w.Some? && w.value.snapshots == [BuildSnapshot(id, e.body.sub, now)]
  {
  }

  lemma DispatchSnapshots(s: Store, e: Event, env: Env)
    ensures var n := Dispatch(s, e, env);
      match SyncedOrg(s.orgs, e)
      case None => n.snapshots == s.snapshots
      case Some(id) => n.snapshots == if env.databaseUp then s.snapshots + [BuildSnapshot(id, e.body.sub, env.now)] else s.snapshots
  {
    HandlerSnapshots(s.orgs, e, env.now);
  }

  lemma SnapshotAdded(snapshots: seq<Snapshot>, snapshot: Snapshot, orgId: string)
    ensures SnapshotsOf(snapshots + [snapshot], orgId) == SnapshotsOf(snapshots, orgId) + if snapshot.orgId == orgId then 1 else 0
  {
    assert (snapshots + [snapshot])[..|snapshots|] == snapshots;
  }

  lemma SnapshotGained(s: Store, c: Call, orgId: string)
    ensures SnapshotsOf(Apply(s, c).snapshots, orgId) == SnapshotsOf(s.snapshots, orgId) + if Syncs(s, c, orgId) then 1 else 0
  {
    if c.Webhook? && c.delivery.event.id !in s.fence {
      var d := c.delivery;
      DispatchSnapshots(s, d.event, d.env);
      assert Apply(s, c).snapshots == Dispatch(s, d.event, d.env).snapshots;
      var id := SyncedOrg(s.orgs, d.event);
      if id.Some? && d.env.databaseUp {
        SnapshotAdded(s.snapshots, BuildSnapshot(id.value, d.event.body.sub, d.env.now), orgId);
      }
    } else {
      assert Apply(s, c).snapshots == s.snapshots;
    }
  }

  /** An organisation gains exactly one snapshot per sync that finds it. */
  lemma {:induction false} OneSnapshotPerSync(s: Store, cs: seq<Call>, orgId: string)
    ensures SnapshotsOf(RunCalls(s, cs).snapshots, orgId) == SnapshotsOf(s.snapshots, orgId) + SyncsIn(s, cs, orgId)
    decreases cs
  {
    if cs != [] {
      SnapshotGained(s, cs[0], orgId);
      OneSnapshotPerSync(Apply(s, cs[0]), cs[1..], orgId);
    }
  }
}
