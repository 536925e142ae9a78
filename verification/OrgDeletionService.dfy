/** Requesting a deletion, finding the organisations that are due, and the worker that carries one out. */
module OrgDeletionService {
  import opened Foundations
  import opened OrgDeletion

  const MILLISECONDS_PER_DAY := 24 * 60 * 60 * 1000

  datatype RequestResult = Requested | NotFound | BadRequest | PublishFailed

  function Retention(org: Org, defaultDays: int): int { org.retentionDays.GetOr(defaultDays) * MILLISECONDS_PER_DAY }

  /** What a request does to the rows, and how it ends. */
  function Request(orgs: map<string, Org>, orgId: string, now: int, defaultDays: int, publishes: bool): (map<string, Org>, RequestResult) {
    if orgId !in orgs then (orgs, NotFound)
    else if orgs[orgId].status in {PENDING_DELETION, DELETED} then (orgs, BadRequest)
    else
      var pending := orgs[orgId].(status := PENDING_DELETION, requestedAt := Some(now),
                                  scheduledAt := Some(now + Retention(orgs[orgId], defaultDays)));
      (orgs[orgId := pending], if publishes then Requested else PublishFailed)
  }

  /** Suspended, its paid period over, and its retention window passed. */
  predicate Eligible(org: Org, now: int, defaultDays: int) {
    && org.status == SUSPENDED
    && org.periodEnd.Some? && org.periodEnd.value < now
    && now >= org.periodEnd.value + Retention(org, defaultDays)
  }

  /**
   * At most one request per organisation gets past the guard. It marks the organisation, the deletion due
   * after the organisation's own or the default number of days; afterwards every request is refused and
   * the scheduler never picks the organisation up, so a request whose publish failed is never carried out.
   */
  lemma RequestsAreFinal(orgs: map<string, Org>, orgId: string, now: int, defaultDays: int, publishes: bool, later: int, again: bool)
    ensures var (after, result) := Request(orgs, orgId, now, defaultDays, publishes);
      && (result in {Requested, PublishFailed} <==> orgId in orgs && orgs[orgId].status !in {PENDING_DELETION, DELETED})
      && (orgId in orgs ==>
            && Request(after, orgId, later, defaultDays, again) == (after, BadRequest)
            && after.Keys == orgs.Keys && (forall other | other in orgs && other != orgId :: after[other] == orgs[other])
            && !Eligible(after[orgId], later, defaultDays))
      && (result in {Requested, PublishFailed} ==>
            var days := if orgs[orgId].retentionDays.Some? then orgs[orgId].retentionDays.value else defaultDays;
            after[orgId] == orgs[orgId].(status := PENDING_DELETION, requestedAt := Some(now), scheduledAt := Some(now + days * 86400000)))
      && (result !in {Requested, PublishFailed} ==> after == orgs && result == if orgId in orgs then BadRequest else NotFound)
      && (result == PublishFailed ==> !publishes) && (result == Requested ==> publishes)
  {
  }

  class Requests {
    var orgs: map<string, Org>
    var published: seq<string>
    const defaultDays: int

    constructor (orgs: map<string, Org>, defaultDays: int)
      ensures this.orgs == orgs && published == [] && this.defaultDays == defaultDays
    {
      this.orgs := orgs;
      this.defaultDays := defaultDays;
      published := [];
    }

    method RequestDeletion(orgId: string, now: int, publishes: bool) returns (r: RequestResult)
      modifies this
      ensures (orgs, r) == Request(old(orgs), orgId, now, defaultDays, publishes)
      ensures published == if r == Requested then old(published) + [orgId] else old(published)
    {
      if orgId !in orgs {
        return NotFound;
      }
      var org := orgs[orgId];
      if org.status == PENDING_DELETION || org.status == DELETED {
        return BadRequest;
      }
      var retentionDays := org.retentionDays.GetOr(defaultDays);
      var scheduledAt := now + retentionDays * 24 * 60 * 60 * 1000;
      orgs := orgs[orgId := org.(status := PENDING_DELETION, requestedAt := Some(now), scheduledAt := Some(scheduledAt))];
      if !publishes {
        return PublishFailed;
      }
      published := published + [orgId];
      r := Requested;
    }

    /** `listed` is the order in which the database returns the organisations. */
    method FindOrgsEligibleForDeletion(listed: seq<string>, now: int) returns (due: seq<string>)
      requires Elements(listed) == orgs.Keys && forall i, j | 0 <= i < j < |listed| :: listed[i] != listed[j]
      ensures forall orgId :: orgId in due <==> orgId in orgs && Eligible(orgs[orgId], now, defaultDays)
      ensures forall orgId | orgId in orgs :: orgId in due <==>
                var org := orgs[orgId];
                && org.status == SUSPENDED && org.periodEnd.Some? && org.periodEnd.value < now
                && org.periodEnd.value + (if org.retentionDays.Some? then org.retentionDays.value else defaultDays) * 86400000 <= now
      ensures forall i, j | 0 <= i < j < |due| :: due[i] != due[j]
    {
      due := [];
      var i := 0;
      while i < |listed|
        invariant i <= |listed|
        invariant forall orgId :: orgId in due <==> orgId in orgs && orgId in listed[..i] && Eligible(orgs[orgId], now, defaultDays)
        invariant forall j, k | 0 <= j < k < |due| :: due[j] != due[k]
      {
        assert listed[i] in Elements(listed);
        assert listed[..i + 1] == listed[..i] + [listed[i]];
        assert forall j | 0 <= j < i :: listed[..i][j] == listed[j];
        assert listed[i] !in listed[..i];
        var org := orgs[listed[i]];
        if org.status == SUSPENDED && org.periodEnd.Some? && org.periodEnd.value < now {
          var retentionDays := org.retentionDays.GetOr(defaultDays);
          var retentionEnd := org.periodEnd.value + retentionDays * 24 * 60 * 60 * 1000;
          if now >= retentionEnd {
            due := due + [listed[i]];
          }
        }
        i := i + 1;
      }
      assert listed[..i] == listed;
      forall orgId | orgId in orgs ensures orgId in listed {
        assert orgId in Elements(listed);
      }
    }
  }

  // ---- The worker ----

  datatype Published = Started | Completed | Failed

  /** The calls of an attempt that can throw. */
  datatype Point = StartedEvent | FindOrg | FindFiles | ListKeys | Transaction | Update | CompletedEvent | FailedEvent

  /** How many of a plan's steps are taken before the first call that throws; the last ones drop `keys` keys and write twice. */
  function Cut(steps: nat, keys: nat, throwing: set<Point>): (n: nat)
    requires keys + 2 <= steps
    ensures n <= steps
  {
    if StartedEvent in throwing || FindOrg in throwing || FindFiles in throwing then 0
    else if ListKeys in throwing then steps - keys - 2
    else if Transaction in throwing then steps - 2
    else if Update in throwing then steps - 1
    else steps
  }

  /** What a call of the worker does to the world. */
  function Executed(w: World, orgId: string, listed: seq<string>, keys: seq<string>, failing: set<Effect>, throwing: set<Point>, at: int): World {
    if Skips(w, orgId) then w
    else
      PlansAreLaid(w.orgs[orgId], listed, keys);
      var steps := |Plan(w.orgs[orgId], listed, keys)|;
      Execute(w, orgId, Attempt(listed, keys, failing, Cut(steps, |keys|, throwing), at))
  }

  /**
   * The worker reports a failure and returns, so its message counts as handled. A pending organisation
   * whose attempt met a failing database or listing call is then still pending, no new request for it
   * passes the guard and the scheduler does not select it: unless the old message comes back, it stays as
   * the attempt left it. It is still pending if and only if one of those calls failed.
   */
  lemma HalfDeletedStaysIff(w: World, orgId: string, listed: seq<string>, keys: seq<string>, failing: set<Effect>,
                            throwing: set<Point>, at: int, later: int, defaultDays: int, publishes: bool)
    requires orgId in w.orgs && w.orgs[orgId].status == PENDING_DELETION && StartedEvent !in throwing
    ensures var n := Executed(w, orgId, listed, keys, failing, throwing, at);
      && orgId in n.orgs
      && (n.orgs[orgId].status == PENDING_DELETION <==> exists p | p in throwing :: p in {FindOrg, FindFiles, ListKeys, Transaction, Update})
      && Request(n.orgs, orgId, later, defaultDays, publishes) == (n.orgs, BadRequest)
      && !Eligible(n.orgs[orgId], later, defaultDays)
  {
    var plan := Plan(w.orgs[orgId], listed, keys);
    PlansAreLaid(w.orgs[orgId], listed, keys);
    var cut := Cut(|plan|, |keys|, throwing);
    assert Executed(w, orgId, listed, keys, failing, throwing, at) == After(w, orgId, plan, failing, at, cut);
    StatusAfter(w, orgId, plan, failing, at, cut);
  }

  /** The last step of a plan marks the organisation; the ones before leave its row alone. */
  lemma StatusAfter(w: World, orgId: string, plan: seq<Effect>, failing: set<Effect>, at: int, n: nat)
    requires orgId in w.orgs && 2 <= |plan| && n <= |plan|
    requires plan[|plan| - 1] == MarkDeleted && forall i | 0 <= i < |plan| - 1 :: !plan[i].MarkDeleted?
    ensures var u := After(w, orgId, plan, failing, at, n);
      if n < |plan| then u.orgs == w.orgs else u.orgs[orgId].status == DELETED
    decreases n
  {
    if n > 0 {
      StatusAfter(w, orgId, plan, failing, at, n - 1);
    }
  }

  /** Nothing but an event fails: the attempt is a finished one. */
  lemma FullAttemptLeaves(w: World, orgId: string, listed: seq<string>, keys: seq<string>, failing: set<Effect>, throwing: set<Point>, at: int)
    requires orgId in w.orgs && w.orgs[orgId].status != DELETED && throwing <= {CompletedEvent, FailedEvent}
    requires Reads(w, orgId, Attempt(listed, keys, failing, 0, at))
    ensures var end := Executed(w, orgId, listed, keys, failing, throwing, at);
      && end.orgs == w.orgs[orgId := w.orgs[orgId].(status := DELETED, completedAt := Some(at))]
      && (forall r: Record :: r in end.records <==>
            r in w.records && (r.orgId != orgId || r.table == EntitlementOverrides || r.table == BillingEvents))
      && (forall f: File :: f in end.files <==> f in w.files && f.orgId != orgId)
  {
    PlansAreLaid(w.orgs[orgId], listed, keys);
    var a := Attempt(listed, keys, failing, |Plan(w.orgs[orgId], listed, keys)|, at);
    FinishedAttemptLeaves(w, orgId, a);
  }

  class Worker {
    var orgs: map<string, Org>
    var records: set<Record>
    var files: set<File>
    var objects: set<string>
    var customers: set<string>
    var subscriptions: set<string>
    var cache: set<string>
    var events: seq<Published>

    constructor (w: World)
      ensures Stored() == w && events == []
    {
      orgs := w.orgs;
      records := w.records;
      files := w.files;
      objects := w.objects;
      customers := w.customers;
      subscriptions := w.subscriptions;
      cache := w.cache;
      events := [];
    }

    function Stored(): World
      reads this
    {
      World(orgs, records, files, objects, customers, subscriptions, cache)
    }

    /** Asks the provider to delete each listed object; failures are logged only. */
    method DeleteFolder(orgId: string, listed: seq<string>, failing: set<Effect>, ghost plan: seq<Effect>, ghost at: int)
      requires orgId in orgs && |listed| <= |plan| && forall i | 0 <= i < |listed| :: plan[i] == DeleteObject(listed[i])
      modifies this`objects
      ensures Stored() == After(old(Stored()), orgId, plan, failing, at, |listed|)
    {
      var i := 0;
      while i < |listed|
        invariant i <= |listed| && Stored() == After(old(Stored()), orgId, plan, failing, at, i)
      {
        if DeleteObject(listed[i]) !in failing {
          objects := objects - {listed[i]};
        }
        i := i + 1;
      }
    }

    method RevokeExternalResources(customer: Option<string>, subscription: Option<string>, failing: set<Effect>)
      modifies this`customers, this`subscriptions
      ensures subscriptions == if Truthy(subscription) && Terminate(subscription.value) !in failing
                               then old(subscriptions) - {subscription.value} else old(subscriptions)
      ensures customers == if Truthy(customer) && DeleteCustomer(customer.value) !in failing
                           then old(customers) - {customer.value} else old(customers)
    {
      if Truthy(subscription) && Terminate(subscription.value) !in failing {
        subscriptions := subscriptions - {subscription.value};
      }
      if Truthy(customer) && DeleteCustomer(customer.value) !in failing {
        customers := customers - {customer.value};
      }
    }

    method DeleteByPattern(orgId: string, keys: seq<string>, failing: set<Effect>, ghost plan: seq<Effect>, ghost from: nat,
                           ghost start: World, ghost at: int)
      requires orgId in start.orgs && from + |keys| <= |plan| && forall i | 0 <= i < |keys| :: plan[from + i] == DropKey(keys[i])
      requires Stored() == After(start, orgId, plan, failing, at, from)
      modifies this`cache
      ensures Stored() == After(start, orgId, plan, failing, at, from + |keys|)
    {
      var i := 0;
      while i < |keys|
        invariant i <= |keys| && Stored() == After(start, orgId, plan, failing, at, from + i)
      {
        assert plan[from + i] == DropKey(keys[i]);
        if DropKey(keys[i]) !in failing {
          cache := cache - {keys[i]};
        }
        i := i + 1;
      }
    }

    /** The attempt the protocol describes, with its events; an error is reported, not thrown, unless reporting it fails too. */
    method ExecuteDeletion(orgId: string, listed: seq<string>, keys: seq<string>, failing: set<Effect>, throwing: set<Point>, at: int)
      returns (threw: bool)
      requires !Skips(Stored(), orgId) ==> Reads(Stored(), orgId, Attempt(listed, keys, failing, 0, at))
      modifies this
      ensures var w := old(Stored());
        && Stored() == Executed(w, orgId, listed, keys, failing, throwing, at)
        && (StartedEvent in throwing ==> threw && events == old(events))
        && (StartedEvent !in throwing ==>
              var fails := FindOrg in throwing || (!Skips(w, orgId) && exists p | p in throwing :: p != FailedEvent);
              && (threw <==> fails && FailedEvent in throwing)
              && events == old(events) + [Started] + if fails then (if threw then [] else [Failed])
                                                     else if Skips(w, orgId) then [] else [Completed])
      // Nothing but an event fails: no row is left but those of two tables, and the organisation is DELETED.
      ensures orgId in old(orgs) && old(orgs)[orgId].status != DELETED && throwing <= {CompletedEvent, FailedEvent} ==>
        && orgs == old(orgs)[orgId := old(orgs)[orgId].(status := DELETED, completedAt := Some(at))]
        && (forall r: Record :: r in records <==>
              r in old(records) && (r.orgId != orgId || r.table == EntitlementOverrides || r.table == BillingEvents))
        && (forall f: File :: f in files <==> f in old(files) && f.orgId != orgId)
    {
      ghost var w := Stored();
      if orgId in w.orgs && w.orgs[orgId].status != DELETED && throwing <= {CompletedEvent, FailedEvent} {
        FullAttemptLeaves(w, orgId, listed, keys, failing, throwing, at);
      }
      if StartedEvent in throwing {
        return true;
      }
      events := events + [Started];
      var ok := AttemptDeletion(orgId, listed, keys, failing, throwing, at);
      if ok {
        return false;
      }
      if FailedEvent in throwing {
        return true;
      }
      events := events + [Failed];
      threw := false;
    }

    /** The body of the try block. */
    method AttemptDeletion(orgId: string, listed: seq<string>, keys: seq<string>, failing: set<Effect>, throwing: set<Point>, at: int)
      returns (ok: bool)
      requires StartedEvent !in throwing
      modifies this
      ensures var w := old(Stored());
        && (ok <==> FindOrg !in throwing && (Skips(w, orgId) || forall p | p in throwing :: p == FailedEvent))
        && events == old(events) + (if ok && !Skips(w, orgId) then [Completed] else [])
        && Stored() == Executed(w, orgId, listed, keys, failing, throwing, at)
    {
      if FindOrg in throwing {
        return false;
      }
      if orgId !in orgs || orgs[orgId].status == DELETED {
        return true;
      }
      ghost var plan := Plan(orgs[orgId], listed, keys);
      PlansAreLaid(orgs[orgId], listed, keys);
      ok := Carry(orgId, listed, keys, failing, throwing, at, plan);
    }

    method Carry(orgId: string, listed: seq<string>, keys: seq<string>, failing: set<Effect>, throwing: set<Point>, at: int,
                 ghost plan: seq<Effect>) returns (ok: bool)
      requires orgId in orgs && Laid(plan, orgs[orgId], listed, keys) && StartedEvent !in throwing && FindOrg !in throwing
      modifies this
      ensures ok <==> forall p | p in throwing :: p == FailedEvent
      ensures events == old(events) + if ok then [Completed] else []
      ensures Stored() == After(old(Stored()), orgId, plan, failing, at, Cut(|plan|, |keys|, throwing))
    {
      ok := RemoveOutside(orgId, listed, keys, failing, throwing, at, plan);
      if ok {
        ok := RemoveRows(orgId, throwing, at, plan, old(Stored()), failing);
      }
      if !ok {
        return;
      }
      if CompletedEvent in throwing {
        return false;
      }
      events := events + [Completed];
      forall p | p in throwing ensures p == FailedEvent {
        match p {
          case StartedEvent =>
          case FindOrg =>
          case FindFiles =>
          case ListKeys =>
          case Transaction =>
          case Update =>
          case CompletedEvent =>
          case FailedEvent =>
        }
      }
    }

    /** Storage, Stripe and the cache, in this order. */
    method RemoveOutside(orgId: string, listed: seq<string>, keys: seq<string>, failing: set<Effect>, throwing: set<Point>, at: int,
                         ghost plan: seq<Effect>) returns (ok: bool)
      requires orgId in orgs && Laid(plan, orgs[orgId], listed, keys)
      modifies this`objects, this`customers, this`subscriptions, this`cache
      ensures ok <==> FindFiles !in throwing && ListKeys !in throwing
      ensures Stored() == After(old(Stored()), orgId, plan, failing, at,
                                if FindFiles in throwing then 0 else if ok then |plan| - 2 else |plan| - |keys| - 2)
    {
      var org := orgs[orgId];
      ghost var w := Stored();
      RevocationSteps(w, org, orgId, plan, listed, keys, failing, at);
      if FindFiles in throwing {
        return false;
      }
      DeleteFolder(orgId, listed, failing, plan, at);
      if Truthy(org.customer) || Truthy(org.subscription) {
        RevokeExternalResources(org.customer, org.subscription, failing);
      }
      if ListKeys in throwing {
        return false;
      }
      DeleteByPattern(orgId, keys, failing, plan, |plan| - |keys| - 2, w, at);
      ok := true;
    }

    /** The transaction and the final update. */
    method RemoveRows(orgId: string, throwing: set<Point>, at: int, ghost plan: seq<Effect>, ghost w: World, ghost failing: set<Effect>)
      returns (ok: bool)
      requires orgId in w.orgs && |plan| >= 2 && plan[|plan| - 2] == DeleteRecords && plan[|plan| - 1] == MarkDeleted
      requires orgId in orgs && Stored() == After(w, orgId, plan, failing, at, |plan| - 2)
      modifies this`records, this`files, this`orgs
      ensures ok <==> Transaction !in throwing && Update !in throwing
      ensures Stored() == After(w, orgId, plan, failing, at,
                                if Transaction in throwing then |plan| - 2 else if ok then |plan| else |plan| - 1)
    {
      if Transaction in throwing {
        return false;
      }
      records := set r | r in records && !(r.table in EMPTIED && r.orgId == orgId);
      files := set f | f in files && f.orgId != orgId;
      assert Stored() == After(w, orgId, plan, failing, at, |plan| - 1);
      if Update in throwing {
        return false;
      }
      orgs := orgs[orgId := orgs[orgId].(status := DELETED, completedAt := Some(at))];
      ok := true;
    }
  }

  function Revocations(org: Org): nat { (if Truthy(org.subscription) then 1 else 0) + if Truthy(org.customer) then 1 else 0 }

  /** Which step stands where in a plan. */
  predicate Laid(plan: seq<Effect>, org: Org, listed: seq<string>, keys: seq<string>) {
    var n, r := |listed|, Revocations(org);
    && |plan| == n + r + |keys| + 2
    && (forall i | 0 <= i < n :: plan[i] == DeleteObject(listed[i]))
    && (Truthy(org.subscription) ==> plan[n] == Terminate(org.subscription.value))
    && (Truthy(org.customer) ==> plan[n + r - 1] == DeleteCustomer(org.customer.value))
    && (forall i | 0 <= i < |keys| :: plan[n + r + i] == DropKey(keys[i]))
    && plan[|plan| - 2] == DeleteRecords && plan[|plan| - 1] == MarkDeleted
  }

  lemma PlansAreLaid(org: Org, listed: seq<string>, keys: seq<string>)
    ensures Laid(Plan(org, listed, keys), org, listed, keys)
  {
  }

  lemma RevocationSteps(w: World, org: Org, orgId: string, plan: seq<Effect>, listed: seq<string>, keys: seq<string>, failing: set<Effect>, at: int)
    requires orgId in w.orgs && Laid(plan, org, listed, keys)
    ensures var u := After(w, orgId, plan, failing, at, |listed|);
      After(w, orgId, plan, failing, at, |plan| - |keys| - 2) == u.(
        subscriptions := if Truthy(org.subscription) && Terminate(org.subscription.value) !in failing
                         then u.subscriptions - {org.subscription.value} else u.subscriptions,
        customers := if Truthy(org.customer) && DeleteCustomer(org.customer.value) !in failing
                     then u.customers - {org.customer.value} else u.customers)
  {
    var n := |listed|;
    if Truthy(org.subscription) {
      assert !plan[n].DeleteRecords? && !plan[n].MarkDeleted?;
    }
  }
}
