/** The webhook pipeline and the billing calls, statement by statement, over one billing store. */
module BillingService {
  import opened Foundations
  import opened Billing
  import BillingWebhooks

  class Service {
    var orgs: Orgs
    var snapshots: seq<Snapshot>
    var fence: map<string, FenceRow>
    var published: seq<DomainEvent>
    /** How many more publishes the event bus accepts before one throws. */
    var budget: nat

    ghost function Stored(): Store
      reads this
    {
      Store(orgs, snapshots, fence, published)
    }

    // ---- Repository ----

    method FindOrgByStripeCustomerId(customer: string) returns (found: Option<string>)
      requires Unique(orgs)
      ensures found == FindByCustomer(orgs, customer)
      ensures found.Some? ==> found.value in orgs && orgs[found.value].stripeCustomerId == Some(customer)
    {
      if id :| id in orgs && orgs[id].stripeCustomerId == Some(customer) {
        BillingWebhooks.SameCustomerSameOrg(orgs, customer, id);
        return Some(id);
      }
      return None;
    }

    /** False when the statement throws; then nothing has changed. */
    method UpdateOrgBillingData(id: string, p: Patch) returns (ok: bool)
      modifies this`orgs
      ensures ok == Update(old(orgs), id, p).Some?
      ensures orgs == Update(old(orgs), id, p).GetOr(old(orgs))
    {
      if id !in orgs {
        return false;
      }
      var org := Patched(orgs[id], p);
      if exists other | other in orgs :: other != id && Collides(org, orgs[other]) {
        return false;
      }
      orgs := orgs[id := org];
      return true;
    }

    /** One transaction: the organisation and the snapshot change together or not at all. */
    method UpdateOrgAndSnapshotTx(id: string, p: Patch, snapshot: Snapshot) returns (ok: bool)
      modifies this`orgs, this`snapshots
      ensures ok == Update(old(orgs), id, p).Some?
      ensures orgs == Update(old(orgs), id, p).GetOr(old(orgs))
      ensures snapshots == old(snapshots) + if ok then [snapshot] else []
    {
      ok := UpdateOrgBillingData(id, p);
      if ok {
        snapshots := snapshots + [snapshot];
      }
    }

    method CreateBillingEvent(eventId: string, payloadHash: string, orgId: Option<string>, env: Env) returns (ok: bool)
      modifies this`fence
      ensures ok == (env.fenceUp && FenceAccepts(orgs, orgId))
      ensures ok && eventId in old(fence) ==> fence == old(fence)
      ensures ok && eventId !in old(fence) ==>
                fence == old(fence)[eventId := FenceRow(if Truthy(orgId) then orgId else None, payloadHash, env.now)]
      ensures !ok ==> fence == old(fence)
    {
      if !env.fenceUp || (Truthy(orgId) && orgId.value !in orgs) {
        return false;
      }
      if eventId !in fence {
        fence := fence[eventId := FenceRow(if Truthy(orgId) then orgId else None, payloadHash, env.now)];
      }
      return true;
    }

    method Publish(events: seq<DomainEvent>)
      modifies this`published, this`budget
      ensures published == old(published) + Prefix(events, old(budget))
    {
      var i := 0;
      while i < |events| && budget > 0
        invariant i <= |events| && i + budget == old(budget)
        invariant published == old(published) + events[..i]
      {
        published := published + [events[i]];
        budget := budget - 1;
        i := i + 1;
      }
    }

    // ---- Handlers ----

    method SyncFromStripeSubscription(sub: Subscription, now: int) returns (found: Option<string>, before: Option<Org>)
      requires Unique(orgs)
      modifies this`orgs, this`snapshots
      ensures
        var id := FindByCustomer(old(orgs), sub.customer);
        if id.Some? && Update(old(orgs), id.value, SyncPatch(sub)).Some? then
          && found == id && before == Some(old(orgs)[id.value])
          && orgs == Update(old(orgs), id.value, SyncPatch(sub)).value
          && snapshots == old(snapshots) + [BuildSnapshot(id.value, sub, now)]
        else found == None && orgs == old(orgs) && snapshots == old(snapshots)
    {
      found := FindOrgByStripeCustomerId(sub.customer);
      before := None;
      if found.Some? {
        before := Some(orgs[found.value]);
        var ok := UpdateOrgAndSnapshotTx(found.value, SyncPatch(sub), BuildSnapshot(found.value, sub, now));
        if !ok {
          found := None;
        }
      }
    }

    method HandleSubscription(e: Event, env: Env)
      requires Unique(orgs) && budget == env.publishes && env.databaseUp && e.body.SubscriptionEvent?
      modifies this
      ensures Stored() == Dispatch(old(Stored()), e, env)
    {
      var sub := e.body.sub;
      var found, before := SyncFromStripeSubscription(sub, env.now);
      if found.None? {
        return;
      }
      var id := found.value;
      if e.body.kind.Created? {
        Publish([BillingSubscriptionCreated(id, sub.id, sub.status, sub.Plan())]);
      } else {
        var direction := ResolveAction(e.body.kind, e.body.previousPlan, before.value, sub.Plan(), BillingStatusOf(sub.status));
        var change := SubscriptionChange(sub.id, sub.status, sub.cancelAtPeriodEnd, before.value.planId, sub.Plan(), direction);
        if sub.status.Canceled? {
          Publish([BillingSubscriptionCancelled(id, change), SubscriptionExpired(id)]);
        } else {
          Publish([SubscriptionPlanChanged(id, change)]);
        }
      }
    }

    method HandleCheckoutCompleted(e: Event, env: Env)
      requires Unique(orgs) && budget == env.publishes && env.databaseUp && e.body.CheckoutCompleted?
      modifies this
      ensures Stored() == Dispatch(old(Stored()), e, env)
    {
      if !Truthy(e.body.customer) || !Truthy(e.metaOrg) {
        return;
      }
      var id, customer := e.metaOrg.value, e.body.customer.value;
      if id !in orgs {
        return;
      }
      var updateData := NO_CHANGE.(billingStatus := Set(ACTIVE));
      if !Truthy(orgs[id].stripeCustomerId) {
        updateData := updateData.(stripeCustomerId := Set(Some(customer)));
      }
      if Truthy(e.body.subscription) {
        updateData := updateData.(subscriptionId := Set(e.body.subscription));
      }
      var ok := UpdateOrgBillingData(id, updateData);
      if ok {
        Publish([BillingCheckoutCompleted(id, customer, e.body.subscription, e.body.session)]);
      }
    }

    method HandleInvoice(e: Event, env: Env)
      requires Unique(orgs) && budget == env.publishes && env.databaseUp && (e.body.InvoicePaid? || e.body.InvoiceFailed?)
      modifies this
      ensures Stored() == Dispatch(old(Stored()), e, env)
      ensures forall id | id in old(orgs) && Truthy(e.body.customer) && old(orgs)[id].stripeCustomerId == e.body.customer ::
                orgs == old(orgs)[id := old(orgs)[id].(billingStatus := if e.body.InvoicePaid? then ACTIVE else PAST_DUE)]
    {
      if !Truthy(e.body.customer) {
        return;
      }
      var found := FindOrgByStripeCustomerId(e.body.customer.value);
      if found.None? {
        return;
      }
      var id := found.value;
      BillingWebhooks.StatusUpdateWorks(orgs, id, if e.body.InvoicePaid? then ACTIVE else PAST_DUE);
      var ok := UpdateOrgBillingData(id, NO_CHANGE.(billingStatus := Set(if e.body.InvoicePaid? then ACTIVE else PAST_DUE)));
      if ok && e.body.InvoicePaid? {
        Publish([BillingPaymentSucceeded(id, e.body.invoice), SubscriptionActivated(id)]);
      } else if ok {
        Publish([BillingPaymentFailed(id, e.body.invoice)]);
      }
    }

    method DispatchEvent(e: Event, env: Env)
      requires Unique(orgs) && budget == env.publishes
      modifies this
      ensures Stored() == Dispatch(old(Stored()), e, env)
    {
      if env.databaseUp {
        match e.body
        case CheckoutCompleted(_, _, _) => HandleCheckoutCompleted(e, env);
        case SubscriptionEvent(_, _, _) => HandleSubscription(e, env);
        case InvoicePaid(_, _) => HandleInvoice(e, env);
        case InvoiceFailed(_, _) => HandleInvoice(e, env);
        case Unhandled =>
      }
    }

    /** Steps 4 to 7 of the webhook: fence check, dispatch, fence write. */
    method HandleWebhook(d: Delivery) returns (received: bool)
      requires Unique(orgs)
      modifies this
      ensures Stored() == Deliver(old(Stored()), d) && Unique(orgs)
      ensures received <==> d.event.id in fence
    {
      if d.event.id in fence {
        return true;
      }
      budget := d.env.publishes;
      BillingWebhooks.DispatchKeepsUnique(Stored(), d.event, d.env);
      DispatchEvent(d.event, d.env);
      received := CreateBillingEvent(d.event.id, d.payloadHash, d.event.metaOrg, d.env);
    }

    // ---- Calls from the API ----

    /** `created` is the customer id Stripe returns when asked for a new one. */
    method EnsureStripeCustomer(id: string, created: string) returns (customer: Option<string>)
      modifies this`orgs
      ensures Stored() == Apply(old(Stored()), EnsureCustomer(id, created))
      ensures customer.Some? ==> id in orgs && orgs[id].stripeCustomerId == customer
    {
      if id !in orgs {
        return None;
      }
      if Truthy(orgs[id].stripeCustomerId) {
        return orgs[id].stripeCustomerId;
      }
      var ok := UpdateOrgBillingData(id, NO_CHANGE.(stripeCustomerId := Set(Some(created))));
      return if ok then Some(created) else None;
    }

    method CancelSubscription(id: string, stripeUp: bool, publishUp: bool)
      modifies this
      ensures Stored() == Apply(old(Stored()), CancelAtPeriodEnd(id, stripeUp, publishUp))
    {
      if id !in orgs || !Truthy(orgs[id].subscriptionId) || !stripeUp {
        return;
      }
      var subscription := orgs[id].subscriptionId.value;
      var ok := UpdateOrgBillingData(id, NO_CHANGE.(cancelAtPeriodEnd := Set(true)));
      if ok && publishUp {
        published := published + [CancellationRequested(id, subscription)];
      }
    }
  }
}
