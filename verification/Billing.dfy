/** Billing rows, the Stripe events that change them, and what each handler writes. */
module Billing {
  import opened Foundations

  datatype BillingStatus =
    | NONE | TRIALING | ACTIVE | PAST_DUE | CANCELED | UNPAID | INCOMPLETE | INCOMPLETE_EXPIRED | PAUSED

  datatype StripeStatus =
    | Active | Canceled | Incomplete | IncompleteExpired | PastDue | Trialing | Unpaid | Paused | Unrecognised

  datatype Org = Org(
    stripeCustomerId: Option<string>,
    subscriptionId: Option<string>,
    billingStatus: BillingStatus,
    planId: Option<string>,
    storageLimit: Option<int>,
    periodStart: Option<int>,
    periodEnd: Option<int>,
    cancelAtPeriodEnd: bool)

  type Orgs = map<string, Org>

  /** The fields an update names; the others keep their values. */
  datatype Patch = Patch(
    stripeCustomerId: Change<Option<string>>,
    subscriptionId: Change<Option<string>>,
    billingStatus: Change<BillingStatus>,
    planId: Change<Option<string>>,
    storageLimit: Change<Option<int>>,
    periodStart: Change<Option<int>>,
    periodEnd: Change<Option<int>>,
    cancelAtPeriodEnd: Change<bool>)

  const NO_CHANGE := Patch(Keep, Keep, Keep, Keep, Keep, Keep, Keep, Keep)

  function Patched(org: Org, p: Patch): Org {
    Org(p.stripeCustomerId.Over(org.stripeCustomerId),
        p.subscriptionId.Over(org.subscriptionId),
        p.billingStatus.Over(org.billingStatus),
        p.planId.Over(org.planId),
        p.storageLimit.Over(org.storageLimit),
        p.periodStart.Over(org.periodStart),
        p.periodEnd.Over(org.periodEnd),
        p.cancelAtPeriodEnd.Over(org.cancelAtPeriodEnd))
  }

  /** Unique columns: no two organisations share a customer or a subscription. */
  predicate Collides(a: Org, b: Org) {
    || (a.stripeCustomerId.Some? && a.stripeCustomerId == b.stripeCustomerId)
    || (a.subscriptionId.Some? && a.subscriptionId == b.subscriptionId)
  }

  ghost predicate Unique(orgs: Orgs) {
    forall a, b | a in orgs && b in orgs && a != b :: !Collides(orgs[a], orgs[b])
  }

  /** The update statement: None when it throws, because the row is missing or a unique column would clash. */
  function Update(orgs: Orgs, id: string, p: Patch): Option<Orgs> {
    if id !in orgs then None
    else
      var org := Patched(orgs[id], p);
      if exists other | other in orgs :: other != id && Collides(org, orgs[other]) then None
      else Some(orgs[id := org])
  }

  datatype Snapshot = Snapshot(
    orgId: string,
    stripeSubscriptionId: string,
    planId: Option<string>,
    status: StripeStatus,
    seats: Option<int>,
    periodStart: int,
    periodEnd: int)

  datatype FenceRow = FenceRow(orgId: Option<string>, payloadHash: string, processedAt: int)

  datatype Action = SubscriptionCreated | SubscriptionCancelled | SubscriptionReactivated | SubscriptionUpgraded | SubscriptionUpdated

  datatype DomainEvent =
    | BillingCheckoutCompleted(org: string, customer: string, subscription: Option<string>, session: string)
    | BillingSubscriptionCreated(org: string, subscriptionId: string, status: StripeStatus, plan: Option<string>)
    | BillingSubscriptionCancelled(org: string, change: SubscriptionChange)
    | SubscriptionPlanChanged(org: string, change: SubscriptionChange)
    | SubscriptionExpired(org: string)
    | BillingPaymentSucceeded(org: string, invoice: string)
    | SubscriptionActivated(org: string)
    | BillingPaymentFailed(org: string, invoice: string)
    | CancellationRequested(org: string, subscriptionId: string)

  datatype SubscriptionChange = SubscriptionChange(
    subscriptionId: string,
    status: StripeStatus,
    cancelAtPeriodEnd: bool,
    previousPlan: Option<string>,
    newPlan: Option<string>,
    direction: Action)

  datatype Store = Store(orgs: Orgs, snapshots: seq<Snapshot>, fence: map<string, FenceRow>, published: seq<DomainEvent>)

  // ---- Stripe events ----

  datatype Item = Item(price: Option<string>, periodStart: Option<int>, periodEnd: Option<int>, quantity: Option<int>)

  datatype Subscription = Subscription(id: string, customer: string, status: StripeStatus, item: Option<Item>, cancelAtPeriodEnd: bool)
  {
    function Plan(): Option<string> { if item.Some? then item.value.price else None }
    function Start(): Option<int> { if item.Some? then item.value.periodStart else None }
    function End(): Option<int> { if item.Some? then item.value.periodEnd else None }
    function Seats(): Option<int> { if item.Some? then item.value.quantity else None }
  }

  datatype Kind = Created | Updated | Deleted | TrialWillEnd

  datatype Body =
    | CheckoutCompleted(customer: Option<string>, subscription: Option<string>, session: string)
    | SubscriptionEvent(kind: Kind, sub: Subscription, previousPlan: Option<string>)
    | InvoicePaid(customer: Option<string>, invoice: string)
    | InvoiceFailed(customer: Option<string>, invoice: string)
    | Unhandled

  /** `metaOrg` is the orgId in the event object's metadata, where there is one. */
  datatype Event = Event(id: string, metaOrg: Option<string>, body: Body)

  function BillingStatusOf(status: StripeStatus): BillingStatus {
    match status
    case Active => ACTIVE
    case Canceled => CANCELED
    case Incomplete => INCOMPLETE
    case IncompleteExpired => INCOMPLETE_EXPIRED
    case PastDue => PAST_DUE
    case Trialing => TRIALING
    case Unpaid => UNPAID
    case Paused => PAUSED
    case Unrecognised => NONE
  }

  function ResolveAction(kind: Kind, hint: Option<string>, before: Org, newPlan: Option<string>, status: BillingStatus): Action {
    if kind.Created? then SubscriptionCreated
    else if kind.Deleted? || status == CANCELED then SubscriptionCancelled
    else if before.billingStatus in {CANCELED, PAST_DUE, UNPAID} && status in {ACTIVE, TRIALING} then SubscriptionReactivated
    else
      var previous := if hint.Some? then hint else before.planId;
      if Truthy(previous) && Truthy(newPlan) && previous != newPlan then SubscriptionUpgraded else SubscriptionUpdated
  }

  function SyncPatch(sub: Subscription): Patch {
    Patch(Keep,
          Set(Some(sub.id)),
          Set(BillingStatusOf(sub.status)),
          Set(sub.Plan()),
          Keep,
          if sub.Start().Some? then Set(sub.Start()) else Keep,
          if sub.End().Some? then Set(sub.End()) else Keep,
          Set(sub.cancelAtPeriodEnd))
  }

  function BuildSnapshot(orgId: string, sub: Subscription, now: int): Snapshot {
    Snapshot(orgId, sub.id, sub.Plan(), sub.status, sub.Seats(), sub.Start().GetOr(now), sub.End().GetOr(now))
  }

  ghost function FindByCustomer(orgs: Orgs, customer: string): Option<string> {
    if id :| id in orgs && orgs[id].stripeCustomerId == Some(customer) then Some(id) else None
  }

  /** What one handler commits and then publishes, in order. */
  datatype Writes = Writes(orgs: Orgs, snapshots: seq<Snapshot>, events: seq<DomainEvent>)

  function SyncEvents(orgId: string, before: Org, kind: Kind, sub: Subscription, hint: Option<string>): seq<DomainEvent> {
    if kind.Created? then
      [BillingSubscriptionCreated(orgId, sub.id, sub.status, sub.Plan())]
    else
      var direction := ResolveAction(kind, hint, before, sub.Plan(), BillingStatusOf(sub.status));
      var change := SubscriptionChange(sub.id, sub.status, sub.cancelAtPeriodEnd, before.planId, sub.Plan(), direction);
      if sub.status.Canceled? then [BillingSubscriptionCancelled(orgId, change), SubscriptionExpired(orgId)]
      else [SubscriptionPlanChanged(orgId, change)]
  }

  function CheckoutPatch(org: Org, customer: string, subscription: Option<string>): Patch {
    NO_CHANGE.(billingStatus := Set(ACTIVE),
               stripeCustomerId := if Truthy(org.stripeCustomerId) then Keep else Set(Some(customer)),
               subscriptionId := if Truthy(subscription) then Set(subscription) else Keep)
  }

  /** None when the handler stops before writing: nothing to do, no organisation, or the update throws. */
  ghost function HandlerWrites(orgs: Orgs, e: Event, now: int): Option<Writes> {
    match e.body
    case CheckoutCompleted(customer, subscription, session) =>
      if !Truthy(customer) || !Truthy(e.metaOrg) || e.metaOrg.value !in orgs then None
      else
        var id := e.metaOrg.value;
        (match Update(orgs, id, CheckoutPatch(orgs[id], customer.value, subscription))
         case None => None
         case Some(after) => Some(Writes(after, [], [BillingCheckoutCompleted(id, customer.value, subscription, session)])))
    case SubscriptionEvent(kind, sub, hint) =>
      (match FindByCustomer(orgs, sub.customer)
       case None => None
       case Some(id) =>
         match Update(orgs, id, SyncPatch(sub))
         case None => None
         case Some(after) => Some(Writes(after, [BuildSnapshot(id, sub, now)], SyncEvents(id, orgs[id], kind, sub, hint))))
    case InvoicePaid(customer, invoice) =>
      InvoiceWrites(orgs, customer, ACTIVE, (id: string) => [BillingPaymentSucceeded(id, invoice), SubscriptionActivated(id)])
    case InvoiceFailed(customer, invoice) =>
      InvoiceWrites(orgs, customer, PAST_DUE, (id: string) => [BillingPaymentFailed(id, invoice)])
    case Unhandled => None
  }

  ghost function InvoiceWrites(orgs: Orgs, customer: Option<string>, status: BillingStatus, events: string -> seq<DomainEvent>): Option<Writes> {
    if !Truthy(customer) then None
    else
      match FindByCustomer(orgs, customer.value)
      case None => None
      case Some(id) =>
        match Update(orgs, id, NO_CHANGE.(billingStatus := Set(status)))
        case None => None
        case Some(after) => Some(Writes(after, [], events(id)))
  }

  /**
   * What the surroundings do to one delivery: whether the database answers the handler, how many
   * publishes succeed before one throws, whether the fence write gets through, and the time.
   */
  datatype Env = Env(databaseUp: bool, publishes: nat, fenceUp: bool, now: int)

  datatype Delivery = Delivery(event: Event, payloadHash: string, env: Env)

  function Prefix<T>(s: seq<T>, n: nat): seq<T> { if n < |s| then s[..n] else s }

  /** dispatch: handler errors are swallowed, so whatever was written before one stays. */
  ghost function Dispatch(s: Store, e: Event, env: Env): Store {
    var writes := if env.databaseUp then HandlerWrites(s.orgs, e, env.now) else None;
    match writes
    case None => s
    case Some(w) => s.(orgs := w.orgs, snapshots := s.snapshots + w.snapshots, published := s.published + Prefix(w.events, env.publishes))
  }

  /** A billing_events row may only name an organisation that exists. */
  predicate FenceAccepts(orgs: Orgs, metaOrg: Option<string>) { Truthy(metaOrg) ==> metaOrg.value in orgs }

  /** handleWebhook from the idempotency check on; a fence write that throws leaves what dispatch did. */
  ghost function Deliver(s: Store, d: Delivery): Store {
    if d.event.id in s.fence then s
    else
      var after := Dispatch(s, d.event, d.env);
      if d.env.fenceUp && FenceAccepts(after.orgs, d.event.metaOrg) then
        var row := FenceRow(if Truthy(d.event.metaOrg) then d.event.metaOrg else None, d.payloadHash, d.env.now);
        after.(fence := after.fence[d.event.id := row])
      else after
  }

  // ---- Calls made from the API rather than by Stripe ----

  datatype Call =
    | Webhook(delivery: Delivery)
    | EnsureCustomer(orgId: string, created: string)
    | CancelAtPeriodEnd(orgId: string, stripeUp: bool, publishUp: bool)

  ghost function Apply(s: Store, c: Call): Store {
    match c
    case Webhook(d) => Deliver(s, d)
    case EnsureCustomer(id, created) =>
      if id !in s.orgs || Truthy(s.orgs[id].stripeCustomerId) then s
      else
        (match Update(s.orgs, id, NO_CHANGE.(stripeCustomerId := Set(Some(created))))
         case None => s
         case Some(after) => s.(orgs := after))
    case CancelAtPeriodEnd(id, stripeUp, publishUp) =>
      if id !in s.orgs || !Truthy(s.orgs[id].subscriptionId) || !stripeUp then s
      else
        match Update(s.orgs, id, NO_CHANGE.(cancelAtPeriodEnd := Set(true)))
        case None => s
        case Some(after) =>
          var event := CancellationRequested(id, s.orgs[id].subscriptionId.value);
          s.(orgs := after, published := s.published + if publishUp then [event] else [])
  }
}
