/**
 * The organisation deletion worker as a list of destructive steps. An attempt reads what there is to
 * delete, then takes the steps one by one and may stop after any of them; provider, Stripe and cache
 * failures are swallowed, a failing database write ends the attempt.
 */
module OrgDeletion {
  import opened Foundations

  datatype OrgStatus = ACTIVE | SUSPENDED | PENDING_DELETION | DELETED

  datatype Org = Org(
    status: OrgStatus,
    customer: Option<string>,
    subscription: Option<string>,
    retentionDays: Option<int>,
    periodEnd: Option<int>,
    requestedAt: Option<int>,
    scheduledAt: Option<int>,
    completedAt: Option<int>)

  /** The eight tables the deletion empties (files are rows of their own below), and two it leaves alone. */
  datatype Table =
    | SubscriptionSnapshots | Events | Notifications | OrgExports | JobRows | ActivityLogs | Memberships
    | EntitlementOverrides | BillingEvents

  const EMPTIED: set<Table> :=
    {SubscriptionSnapshots, Events, Notifications, OrgExports, JobRows, ActivityLogs, Memberships}

  datatype Record = Record(table: Table, id: string, orgId: string)

  datatype File = File(id: string, orgId: string, key: string, completed: bool)

  datatype World = World(
    orgs: map<string, Org>,
    records: set<Record>,
    files: set<File>,
    objects: set<string>,
    customers: set<string>,
    subscriptions: set<string>,
    cache: set<string>)

  function Folder(orgId: string): string { "org/" + orgId }

  function CachePrefix(orgId: string): string { "tenant:" + orgId + ":" }

  /** The objects an attempt asks the storage provider to delete. */
  function Listed(w: World, orgId: string): set<string> {
    set f | f in w.files && Folder(orgId) <= f.key && f.completed :: f.key
  }

  function CachedKeys(w: World, orgId: string): set<string> { set k | k in w.cache && CachePrefix(orgId) <= k }

  datatype Effect =
    | DeleteObject(key: string)
    | Terminate(subscription: string)
    | DeleteCustomer(customer: string)
    | DropKey(key: string)
    | DeleteRecords
    | MarkDeleted

  /** DeleteRecords is one transaction. */
  function Apply(w: World, orgId: string, e: Effect, at: int): World
    requires orgId in w.orgs
  {
    match e
    case DeleteObject(key) => w.(objects := w.objects - {key})
    case Terminate(s) => w.(subscriptions := w.subscriptions - {s})
    case DeleteCustomer(c) => w.(customers := w.customers - {c})
    case DropKey(key) => w.(cache := w.cache - {key})
    case DeleteRecords =>
      w.(records := (set r | r in w.records && !(r.table in EMPTIED && r.orgId == orgId)),
         files := (set f | f in w.files && f.orgId != orgId))
    case MarkDeleted => w.(orgs := w.orgs[orgId := w.orgs[orgId].(status := DELETED, completedAt := Some(at))])
  }

  /**
   * One call of the worker: the orders in which the database and the cache list what is there, the
   * steps whose failure is swallowed, how many steps are taken, and the clock.
   */
  datatype Attempt = Attempt(objects: seq<string>, keys: seq<string>, failing: set<Effect>, cut: nat, at: int)

  predicate Skips(w: World, orgId: string) { orgId !in w.orgs || w.orgs[orgId].status == DELETED }

  predicate Reads(w: World, orgId: string, a: Attempt) {
    Elements(a.objects) == Listed(w, orgId) && Elements(a.keys) == CachedKeys(w, orgId)
  }

  function Plan(org: Org, objects: seq<string>, keys: seq<string>): seq<Effect> {
    seq(|objects|, i requires 0 <= i < |objects| => DeleteObject(objects[i]))
    + (if Truthy(org.subscription) then [Terminate(org.subscription.value)] else [])
    + (if Truthy(org.customer) then [DeleteCustomer(org.customer.value)] else [])
    + seq(|keys|, i requires 0 <= i < |keys| => DropKey(keys[i]))
    + [DeleteRecords, MarkDeleted]
  }

  /** A database step that fails ends the attempt, so it counts as a cut; the others are skipped over. */
  predicate Swallowed(e: Effect, failing: set<Effect>) { e in failing && !e.DeleteRecords? && !e.MarkDeleted? }

  /** The world after the first `n` steps of a plan. */
  function After(w: World, orgId: string, plan: seq<Effect>, failing: set<Effect>, at: int, n: nat): (r: World)
    requires orgId in w.orgs && n <= |plan|
    ensures orgId in r.orgs
  {
    if n == 0 then w
    else
      var before := After(w, orgId, plan, failing, at, n - 1);
      if Swallowed(plan[n - 1], failing) then before else Apply(before, orgId, plan[n - 1], at)
  }

  function Execute(w: World, orgId: string, a: Attempt): World {
    if Skips(w, orgId) then w
    else
      var plan := Plan(w.orgs[orgId], a.objects, a.keys);
      After(w, orgId, plan, a.failing, a.at, Min(a.cut, |plan|))
  }

  predicate Finishes(w: World, orgId: string, a: Attempt) {
    Skips(w, orgId) || a.cut >= |Plan(w.orgs[orgId], a.objects, a.keys)|
  }

  predicate ReachesRecords(w: World, orgId: string, a: Attempt) {
    !Skips(w, orgId) && a.cut >= |Plan(w.orgs[orgId], a.objects, a.keys)| - 1
  }

  ghost predicate Possible(w: World, orgId: string, attempts: seq<Attempt>)
    decreases attempts
  {
    attempts == []
    || (Reads(w, orgId, attempts[0]) && Possible(Execute(w, orgId, attempts[0]), orgId, attempts[1..]))
  }

  ghost function Run(w: World, orgId: string, attempts: seq<Attempt>): World
    requires Possible(w, orgId, attempts)
    decreases attempts
  {
    if attempts == [] then w else Run(Execute(w, orgId, attempts[0]), orgId, attempts[1..])
  }

  // ---- Progress inside one attempt ----

  predicate Gone(w: World, e: Effect) {
    match e
    case DeleteObject(key) => key !in w.objects
    case Terminate(s) => s !in w.subscriptions
    case DeleteCustomer(c) => c !in w.customers
    case DropKey(key) => key !in w.cache
    case _ => true
  }

  /** `v` is `w` with nothing removed but what the steps in `doomed` name. */
  ghost predicate Between(w: World, v: World, doomed: set<Effect>) {
    && v.objects <= w.objects && (forall k | k in w.objects && k !in v.objects :: DeleteObject(k) in doomed)
    && v.subscriptions <= w.subscriptions && (forall s | s in w.subscriptions && s !in v.subscriptions :: Terminate(s) in doomed)
    && v.customers <= w.customers && (forall c | c in w.customers && c !in v.customers :: DeleteCustomer(c) in doomed)
    && v.cache <= w.cache && (forall k | k in w.cache && k !in v.cache :: DropKey(k) in doomed)
  }

  /** Everything an undisturbed attempt removes outside the database, when the steps in `stuck` never succeed. */
  function Doomed(w: World, orgId: string, stuck: set<Effect>): set<Effect>
    requires orgId in w.orgs
  {
    var org := w.orgs[orgId];
    (set k | k in Listed(w, orgId) :: DeleteObject(k)) + (set k | k in CachedKeys(w, orgId) :: DropKey(k))
    + (if Truthy(org.subscription) then {Terminate(org.subscription.value)} else {})
    + (if Truthy(org.customer) then {DeleteCustomer(org.customer.value)} else {})
    - stuck
  }

  /** What an unfinished run has done so far: some removals, and the rows only once all removals are done. */
  ghost predicate Underway(w: World, v: World, orgId: string, stuck: set<Effect>)
    requires orgId in w.orgs
  {
    && v.orgs == w.orgs
    && Between(w, v, Doomed(w, orgId, stuck))
    && if v.records == w.records && v.files == w.files then true
       else Emptied(w, v, orgId, stuck)
  }

  ghost predicate Emptied(w: World, v: World, orgId: string, stuck: set<Effect>)
    requires orgId in w.orgs
  {
    && v.records == Purged(w, orgId).records && v.files == Purged(w, orgId).files
    && forall e | e in Doomed(w, orgId, stuck) :: Gone(v, e)
  }

  function Marked(w: World, orgId: string, at: int): map<string, Org>
    requires orgId in w.orgs
  {
    Apply(w, orgId, MarkDeleted, at).orgs
  }

  function Purged(w: World, orgId: string): World
    requires orgId in w.orgs
  {
    Apply(w, orgId, DeleteRecords, 0)
  }

  lemma PlanParts(org: Org, objects: seq<string>, keys: seq<string>)
    ensures var plan := Plan(org, objects, keys);
      && |plan| >= 2 && plan[|plan| - 2] == DeleteRecords && plan[|plan| - 1] == MarkDeleted
      && (forall i | 0 <= i < |plan| - 2 :: !plan[i].DeleteRecords? && !plan[i].MarkDeleted?)
      && (forall k | k in objects :: DeleteObject(k) in plan[..|plan| - 2])
      && (forall k | k in keys :: DropKey(k) in plan[..|plan| - 2])
      && (Truthy(org.subscription) ==> Terminate(org.subscription.value) in plan[..|plan| - 2])
      && (Truthy(org.customer) ==> DeleteCustomer(org.customer.value) in plan[..|plan| - 2])
      && (forall e | e in plan[..|plan| - 2] ::
            || (e.DeleteObject? && e.key in objects) || (e.DropKey? && e.key in keys)
            || (Truthy(org.subscription) && e == Terminate(org.subscription.value))
            || (Truthy(org.customer) && e == DeleteCustomer(org.customer.value)))
  {
    var plan := Plan(org, objects, keys);
    var a := seq(|objects|, i requires 0 <= i < |objects| => DeleteObject(objects[i]));
    var b := if Truthy(org.subscription) then [Terminate(org.subscription.value)] else [];
    var c := if Truthy(org.customer) then [DeleteCustomer(org.customer.value)] else [];
    var d := seq(|keys|, i requires 0 <= i < |keys| => DropKey(keys[i]));
    var body := a + b + c + d;
    assert plan == body + [DeleteRecords, MarkDeleted];
    assert plan[..|plan| - 2] == body;
    forall e | e in body ensures e in a || e in b || e in c || e in d {
    }
    forall k | k in objects ensures DeleteObject(k) in body {
      var i :| 0 <= i < |objects| && objects[i] == k;
      assert a[i] == DeleteObject(k);
    }
    forall k | k in keys ensures DropKey(k) in body {
      var i :| 0 <= i < |keys| && keys[i] == k;
      assert d[i] == DropKey(k);
      assert body[|a + b + c| + i] == d[i];
    }
    forall i | 0 <= i < |plan| - 2 ensures !plan[i].DeleteRecords? && !plan[i].MarkDeleted? {
      assert plan[i] in body;
    }
  }

  function Removals(plan: seq<Effect>, failing: set<Effect>, n: nat): set<Effect>
    requires n <= |plan|
  {
    Elements(plan[..n]) - failing
  }

  lemma StepRemoves(v: World, u: World, orgId: string, e: Effect, at: int, done: set<Effect>)
    requires orgId in u.orgs && Between(v, u, done) && !e.DeleteRecords? && !e.MarkDeleted?
    ensures var next := Apply(u, orgId, e, at);
      && Between(v, next, done + {e}) && Gone(next, e) && SameRows(u, next)
      && forall d | Gone(u, d) :: Gone(next, d)
  {
  }

  predicate SameRows(v: World, u: World) { u.orgs == v.orgs && u.records == v.records && u.files == v.files }

  /** The steps before the database transaction remove what they name and nothing else. */
  lemma {:induction false} RemovalsProgress(v: World, orgId: string, plan: seq<Effect>, failing: set<Effect>, at: int, n: nat)
    requires orgId in v.orgs && n <= |plan| && forall i | 0 <= i < n :: !plan[i].DeleteRecords? && !plan[i].MarkDeleted?
    ensures var u := After(v, orgId, plan, failing, at, n);
      && SameRows(v, u) && Between(v, u, Removals(plan, failing, n))
      && forall e | e in Removals(plan, failing, n) :: Gone(u, e)
  {
    if n > 0 {
      RemovalsProgress(v, orgId, plan, failing, at, n - 1);
      var before := After(v, orgId, plan, failing, at, n - 1);
      var e := plan[n - 1];
      assert plan[..n] == plan[..n - 1] + [e];
      assert Elements(plan[..n]) == Elements(plan[..n - 1]) + {e};
      if e in failing {
        assert Removals(plan, failing, n) == Removals(plan, failing, n - 1);
      } else {
        assert Removals(plan, failing, n) == Removals(plan, failing, n - 1) + {e};
        StepRemoves(v, before, orgId, e, at, Removals(plan, failing, n - 1));
      }
    }
  }

  lemma BetweenChains(w: World, v: World, u: World, doomed: set<Effect>, removed: set<Effect>)
    requires Between(w, v, doomed) && Between(v, u, removed) && removed <= doomed
    ensures Between(w, u, doomed)
    ensures forall e | Gone(v, e) :: Gone(u, e)
  {
  }

  /** While the rows are there, what an attempt plans and what is left to remove are the same, permanent failures aside. */
  lemma PlannedAndDoomed(w: World, v: World, orgId: string, stuck: set<Effect>, a: Attempt)
    requires orgId in w.orgs && Underway(w, v, orgId, stuck) && Reads(v, orgId, a)
    ensures var plan := Plan(v.orgs[orgId], a.objects, a.keys);
      && |plan| >= 2
      && Removals(plan, stuck, |plan| - 2) <= Doomed(w, orgId, stuck)
      && forall e | e in Doomed(w, orgId, stuck) && !Gone(v, e) :: e in Removals(plan, stuck, |plan| - 2)
  {
    var org := v.orgs[orgId];
    var plan := Plan(org, a.objects, a.keys);
    PlanParts(org, a.objects, a.keys);
    forall e | e in Removals(plan, stuck, |plan| - 2) ensures e in Doomed(w, orgId, stuck) {
      assert e in plan[..|plan| - 2];
      if e.DeleteObject? {
        assert e.key in Elements(a.objects) && e.key in Listed(v, orgId);
        assert v.files <= w.files;
        assert e.key in Listed(w, orgId);
      } else if e.DropKey? {
        assert e.key in Elements(a.keys) && e.key in CachedKeys(v, orgId);
        assert e.key in CachedKeys(w, orgId);
      }
    }
    forall e | e in Doomed(w, orgId, stuck) && !Gone(v, e) ensures e in Removals(plan, stuck, |plan| - 2) {
      assert v.files == w.files;
      if e.DropKey? {
        assert e.key in CachedKeys(v, orgId) && e.key in Elements(a.keys);
      } else if e.DeleteObject? {
        assert e.key in Listed(v, orgId) && e.key in Elements(a.objects);
      }
      assert e in plan[..|plan| - 2];
    }
  }

  lemma RemovalsMonotone(plan: seq<Effect>, stuck: set<Effect>, failing: set<Effect>, n: nat, m: nat)
    requires n <= m <= |plan| && stuck <= failing
    ensures Removals(plan, failing, n) <= Removals(plan, stuck, m)
  {
    assert plan[..n] == plan[..m][..n];
  }

  /** An attempt that stops before the transaction. */
  lemma EarlyStop(w: World, v: World, orgId: string, stuck: set<Effect>, a: Attempt)
    requires orgId in w.orgs && Underway(w, v, orgId, stuck) && !Skips(v, orgId) && Reads(v, orgId, a)
    requires stuck <= a.failing && !ReachesRecords(v, orgId, a)
    ensures Underway(w, Execute(v, orgId, a), orgId, stuck)
  {
    var plan := Plan(v.orgs[orgId], a.objects, a.keys);
    PlanParts(v.orgs[orgId], a.objects, a.keys);
    var n := a.cut;
    RemovalsProgress(v, orgId, plan, a.failing, a.at, n);
    PlannedAndDoomed(w, v, orgId, stuck, a);
    RemovalsMonotone(plan, stuck, a.failing, n, |plan| - 2);
    BetweenChains(w, v, Execute(v, orgId, a), Doomed(w, orgId, stuck), Removals(plan, a.failing, n));
  }

  lemma RemovalsDone(w: World, v: World, orgId: string, plan: seq<Effect>, failing: set<Effect>, at: int, n: nat, doomed: set<Effect>)
    requires orgId in v.orgs && n <= |plan| && forall i | 0 <= i < n :: !plan[i].DeleteRecords? && !plan[i].MarkDeleted?
    requires Between(w, v, doomed) && Removals(plan, failing, n) <= doomed
    requires forall e | e in doomed && !Gone(v, e) :: e in Removals(plan, failing, n)
    ensures var u := After(v, orgId, plan, failing, at, n);
      && SameRows(v, u) && Between(w, u, doomed) && forall e | e in doomed :: Gone(u, e)
  {
    RemovalsProgress(v, orgId, plan, failing, at, n);
    BetweenChains(w, v, After(v, orgId, plan, failing, at, n), doomed, Removals(plan, failing, n));
  }

  lemma LastTwoSteps(v: World, orgId: string, plan: seq<Effect>, failing: set<Effect>, at: int)
    requires orgId in v.orgs && |plan| >= 2 && plan[|plan| - 2] == DeleteRecords && plan[|plan| - 1] == MarkDeleted
    ensures var purged := Apply(After(v, orgId, plan, failing, at, |plan| - 2), orgId, DeleteRecords, at);
      && After(v, orgId, plan, failing, at, |plan| - 1) == purged
      && After(v, orgId, plan, failing, at, |plan|) == Apply(purged, orgId, MarkDeleted, at)
  {
  }

  lemma TransactionEmpties(w: World, u: World, orgId: string, stuck: set<Effect>, at: int)
    requires orgId in w.orgs && u.orgs == w.orgs && Between(w, u, Doomed(w, orgId, stuck))
    requires (u.records == w.records && u.files == w.files) || (u.records == Purged(w, orgId).records && u.files == Purged(w, orgId).files)
    requires forall e | e in Doomed(w, orgId, stuck) :: Gone(u, e)
    ensures var purged := Apply(u, orgId, DeleteRecords, at);
      && Between(w, purged, Doomed(w, orgId, stuck)) && Emptied(w, purged, orgId, stuck) && purged.orgs == w.orgs
      && Apply(purged, orgId, MarkDeleted, at) == Whole(w, orgId, stuck, at)
  {
    var purged := Apply(u, orgId, DeleteRecords, at);
    PurgedOnce(w, u, orgId, at);
    forall e | e in Doomed(w, orgId, stuck) ensures Gone(purged, e) {
      assert Gone(u, e);
    }
    var end := Apply(purged, orgId, MarkDeleted, at);
    forall e | e in Doomed(w, orgId, stuck) ensures Gone(end, e) {
      assert Gone(purged, e);
    }
    FinishedIsWhole(w, end, orgId, stuck, at);
  }

  lemma TransactionAndAfter(w: World, v: World, orgId: string, stuck: set<Effect>, plan: seq<Effect>, at: int)
    requires orgId in w.orgs && Underway(w, v, orgId, stuck)
    requires |plan| >= 2 && plan[|plan| - 2] == DeleteRecords && plan[|plan| - 1] == MarkDeleted
    requires forall i | 0 <= i < |plan| - 2 :: !plan[i].DeleteRecords? && !plan[i].MarkDeleted?
    requires Removals(plan, stuck, |plan| - 2) <= Doomed(w, orgId, stuck)
    requires forall e | e in Doomed(w, orgId, stuck) && !Gone(v, e) :: e in Removals(plan, stuck, |plan| - 2)
    ensures Underway(w, After(v, orgId, plan, stuck, at, |plan| - 1), orgId, stuck)
    ensures After(v, orgId, plan, stuck, at, |plan|) == Whole(w, orgId, stuck, at)
  {
    RemovalsDone(w, v, orgId, plan, stuck, at, |plan| - 2, Doomed(w, orgId, stuck));
    TransactionEmpties(w, After(v, orgId, plan, stuck, at, |plan| - 2), orgId, stuck, at);
    LastTwoSteps(v, orgId, plan, stuck, at);
  }

  /** An attempt that reaches the transaction, having met no failures but the permanent ones. */
  lemma LateStop(w: World, v: World, orgId: string, stuck: set<Effect>, a: Attempt)
    requires orgId in w.orgs && Underway(w, v, orgId, stuck) && !Skips(v, orgId) && Reads(v, orgId, a)
    requires a.failing == stuck && ReachesRecords(v, orgId, a)
    ensures if Finishes(v, orgId, a) then Execute(v, orgId, a) == Whole(w, orgId, stuck, a.at)
            else Underway(w, Execute(v, orgId, a), orgId, stuck)
  {
    var plan := Plan(v.orgs[orgId], a.objects, a.keys);
    assert |plan| >= 2 && Underway(w, After(v, orgId, plan, stuck, a.at, |plan| - 1), orgId, stuck)
           && After(v, orgId, plan, stuck, a.at, |plan|) == Whole(w, orgId, stuck, a.at) by {
      PlanParts(v.orgs[orgId], a.objects, a.keys);
      PlannedAndDoomed(w, v, orgId, stuck, a);
      TransactionAndAfter(w, v, orgId, stuck, plan, a.at);
    }
    if a.cut == |plan| - 1 {
      assert Execute(v, orgId, a) == After(v, orgId, plan, stuck, a.at, |plan| - 1);
    } else {
      assert Execute(v, orgId, a) == After(v, orgId, plan, stuck, a.at, |plan|);
    }
  }

  lemma PurgedOnce(w: World, u: World, orgId: string, at: int)
    requires orgId in w.orgs && orgId in u.orgs
    requires (u.records == w.records && u.files == w.files) || (u.records == Purged(w, orgId).records && u.files == Purged(w, orgId).files)
    ensures Apply(u, orgId, DeleteRecords, at).records == Purged(w, orgId).records
    ensures Apply(u, orgId, DeleteRecords, at).files == Purged(w, orgId).files
  {
  }

  // ---- Runs of attempts ----

  /** The outcome of one undisturbed attempt from `w`. */
  function Whole(w: World, orgId: string, stuck: set<Effect>, at: int): World
    requires orgId in w.orgs
  {
    var doomed := Doomed(w, orgId, stuck);
    var purged := Purged(w, orgId);
    purged.(
      orgs := Marked(w, orgId, at),
      objects := (set k | k in w.objects && DeleteObject(k) !in doomed),
      subscriptions := (set s | s in w.subscriptions && Terminate(s) !in doomed),
      customers := (set c | c in w.customers && DeleteCustomer(c) !in doomed),
      cache := (set k | k in w.cache && DropKey(k) !in doomed))
  }

  lemma FinishedIsWhole(w: World, v: World, orgId: string, stuck: set<Effect>, at: int)
    requires orgId in w.orgs && Between(w, v, Doomed(w, orgId, stuck))
    requires v.orgs == Marked(w, orgId, at) && Emptied(w, v, orgId, stuck)
    ensures v == Whole(w, orgId, stuck, at)
  {
    var end := Whole(w, orgId, stuck, at);
    forall k ensures k in v.objects <==> k in end.objects {
      if k in w.objects && DeleteObject(k) in Doomed(w, orgId, stuck) { assert Gone(v, DeleteObject(k)); }
    }
    forall k ensures k in v.cache <==> k in end.cache {
      if k in w.cache && DropKey(k) in Doomed(w, orgId, stuck) { assert Gone(v, DropKey(k)); }
    }
    forall s ensures s in v.subscriptions <==> s in end.subscriptions {
      if s in w.subscriptions && Terminate(s) in Doomed(w, orgId, stuck) { assert Gone(v, Terminate(s)); }
    }
    forall c ensures c in v.customers <==> c in end.customers {
      if c in w.customers && DeleteCustomer(c) in Doomed(w, orgId, stuck) { assert Gone(v, DeleteCustomer(c)); }
    }
  }

  lemma {:induction false} ConvergesFrom(w: World, v: World, orgId: string, stuck: set<Effect>, attempts: seq<Attempt>) returns (at: int)
    requires orgId in w.orgs && w.orgs[orgId].status != DELETED
    requires Underway(w, v, orgId, stuck) && Possible(v, orgId, attempts)
    requires Converging(v, orgId, stuck, attempts) && SomeFinishes(v, orgId, attempts)
    ensures exists a | a in attempts :: at == a.at
    ensures Run(v, orgId, attempts) == Whole(w, orgId, stuck, at)
    decreases attempts
  {
    var a := attempts[0];
    var next := Execute(v, orgId, a);
    if ReachesRecords(v, orgId, a) {
      LateStop(w, v, orgId, stuck, a);
    } else {
      EarlyStop(w, v, orgId, stuck, a);
    }
    if Finishes(v, orgId, a) {
      at := a.at;
      SettledStays(next, orgId, attempts[1..]);
    } else {
      at := ConvergesFrom(w, next, orgId, stuck, attempts[1..]);
      var b :| b in attempts[1..] && at == b.at;
      assert b in attempts;
    }
  }

  /**
   * Any attempts, each cut off after any step, one of which finishes: the result is exactly what one
   * undisturbed attempt makes of the starting world, provided the steps that fail in an attempt that
   * gets as far as deleting the rows are the ones that always fail.
   */
  lemma DeletionConverges(w: World, orgId: string, stuck: set<Effect>, attempts: seq<Attempt>) returns (at: int)
    requires orgId in w.orgs && w.orgs[orgId].status != DELETED
    requires Possible(w, orgId, attempts) && Converging(w, orgId, stuck, attempts) && SomeFinishes(w, orgId, attempts)
    ensures exists a | a in attempts :: at == a.at
    ensures Run(w, orgId, attempts) == Whole(w, orgId, stuck, at)
  {
    at := ConvergesFrom(w, w, orgId, stuck, attempts);
  }

  ghost predicate Converging(w: World, orgId: string, stuck: set<Effect>, attempts: seq<Attempt>)
    requires Possible(w, orgId, attempts)
    decreases attempts
  {
    attempts == []
    || (stuck <= attempts[0].failing && (ReachesRecords(w, orgId, attempts[0]) ==> attempts[0].failing == stuck)
        && Converging(Execute(w, orgId, attempts[0]), orgId, stuck, attempts[1..]))
  }

  ghost predicate SomeFinishes(w: World, orgId: string, attempts: seq<Attempt>)
    requires Possible(w, orgId, attempts)
    decreases attempts
  {
    attempts != [] && (Finishes(w, orgId, attempts[0]) || SomeFinishes(Execute(w, orgId, attempts[0]), orgId, attempts[1..]))
  }

  /** Once the organisation is DELETED (or unknown), no later attempt changes anything. */
  lemma {:induction false} SettledStays(w: World, orgId: string, attempts: seq<Attempt>)
    requires Skips(w, orgId) && Possible(w, orgId, attempts)
    ensures Run(w, orgId, attempts) == w
    decreases attempts
  {
    if attempts != [] {
      SettledStays(Execute(w, orgId, attempts[0]), orgId, attempts[1..]);
    }
  }

  /** One undisturbed attempt is itself such a run, so `Whole` is what the worker does when nothing stops it. */
  lemma OneAttemptIsWhole(w: World, orgId: string, a: Attempt)
    requires !Skips(w, orgId) && Reads(w, orgId, a) && Finishes(w, orgId, a)
    ensures Execute(w, orgId, a) == Whole(w, orgId, a.failing, a.at)
  {
    LateStop(w, w, orgId, a.failing, a);
  }

  /**
   * An object outlives a finished attempt exactly when the attempt did not list it or failed to delete
   * it, and then no number of later attempts removes it: its file row is gone.
   */
  lemma MissedObjectsStayIff(w: World, orgId: string, a: Attempt, later: seq<Attempt>, key: string)
    requires !Skips(w, orgId) && Reads(w, orgId, a) && Finishes(w, orgId, a) && Possible(w, orgId, [a] + later)
    ensures key in Run(w, orgId, [a] + later).objects <==>
              && key in w.objects
              && (DeleteObject(key) in a.failing || forall f | f in w.files && f.key == key :: !f.completed || !("org/" + orgId <= key))
  {
    OneAttemptIsWhole(w, orgId, a);
    assert ([a] + later)[1..] == later;
    SettledStays(Execute(w, orgId, a), orgId, later);
    assert key in Listed(w, orgId) <==> exists f | f in w.files :: f.key == key && f.completed && "org/" + orgId <= key;
  }

  // ---- What is left afterwards ----

  /**
   * Everything a finished attempt leaves. Of the organisation's rows only those of two tables stay, and
   * they all stay; its files go; an object goes when a COMPLETED file row of the organisation's folder
   * named it and the provider deleted it; cached keys, subscription and customer go unless their call
   * failed; the organisation is DELETED; and nothing else changes.
   */
  lemma FinishedAttemptLeaves(w: World, orgId: string, a: Attempt)
    requires orgId in w.orgs && w.orgs[orgId].status != DELETED && Reads(w, orgId, a) && Finishes(w, orgId, a)
    ensures var end := Execute(w, orgId, a);
      && end.orgs == w.orgs[orgId := w.orgs[orgId].(status := DELETED, completedAt := Some(a.at))]
      && (forall r: Record :: r in end.records <==>
            r in w.records && (r.orgId != orgId || r.table == EntitlementOverrides || r.table == BillingEvents))
      && (forall f: File :: f in end.files <==> f in w.files && f.orgId != orgId)
      && (forall k: string :: k in end.objects <==>
            && k in w.objects
            && (DeleteObject(k) in a.failing || forall f | f in w.files && f.key == k :: !f.completed || !("org/" + orgId <= k)))
      && (forall k: string :: k in end.cache <==> k in w.cache && (DropKey(k) in a.failing || !("tenant:" + orgId + ":" <= k)))
      && (forall s: string :: s in end.subscriptions <==>
            s in w.subscriptions && (Terminate(s) in a.failing || s == "" || w.orgs[orgId].subscription != Some(s)))
      && (forall c: string :: c in end.customers <==>
            c in w.customers && (DeleteCustomer(c) in a.failing || c == "" || w.orgs[orgId].customer != Some(c)))
  {
    OneAttemptIsWhole(w, orgId, a);
    WholeRows(w, orgId, a.failing, a.at);
    WholeOutside(w, orgId, a.failing, a.at);
  }

  lemma WholeRows(w: World, orgId: string, stuck: set<Effect>, at: int)
    requires orgId in w.orgs
    ensures var end := Whole(w, orgId, stuck, at);
      && (forall r: Record :: r in end.records <==>
            r in w.records && (r.orgId != orgId || r.table == EntitlementOverrides || r.table == BillingEvents))
      && (forall f: File :: f in end.files <==> f in w.files && f.orgId != orgId)
  {
    assert forall t: Table :: t in EMPTIED <==> t != EntitlementOverrides && t != BillingEvents;
  }

  lemma WholeOutside(w: World, orgId: string, stuck: set<Effect>, at: int)
    requires orgId in w.orgs
    ensures var end := Whole(w, orgId, stuck, at);
      && (forall k: string :: k in end.objects <==>
            && k in w.objects
            && (DeleteObject(k) in stuck || forall f | f in w.files && f.key == k :: !f.completed || !("org/" + orgId <= k)))
      && (forall k: string :: k in end.cache <==> k in w.cache && (DropKey(k) in stuck || !("tenant:" + orgId + ":" <= k)))
      && (forall s: string :: s in end.subscriptions <==>
            s in w.subscriptions && (Terminate(s) in stuck || s == "" || w.orgs[orgId].subscription != Some(s)))
      && (forall c: string :: c in end.customers <==>
            c in w.customers && (DeleteCustomer(c) in stuck || c == "" || w.orgs[orgId].customer != Some(c)))
  {
    forall k: string
      ensures k in Listed(w, orgId) <==> exists f | f in w.files :: f.key == k && f.completed && "org/" + orgId <= k
    {
    }
  }

  /** Every stored file lies in its organisation's folder, and organisation ids are UUIDs: all equally long. */
  predicate WellKept(w: World) {
    && (forall f | f in w.files :: f.key == "org/" + f.orgId + "/" + f.id)
    && (forall f | f in w.files :: |f.orgId| == UUID_LENGTH)
    && (forall o | o in w.orgs :: |o| == UUID_LENGTH)
  }

  const UUID_LENGTH := 36

  /** No prefix of another organisation's folder or cache key. */
  lemma FolderNamesOwner(orgId: string, other: string, rest: string)
    requires |orgId| == |other|
    ensures "org/" + orgId <= "org/" + other + rest <==> orgId == other
    ensures "tenant:" + orgId + ":" <= "tenant:" + other + ":" + rest <==> orgId == other
  {
    if Folder(orgId) <= Folder(other) + rest {
      assert forall i | 0 <= i < |orgId| :: orgId[i] == Folder(orgId)[4 + i] == (Folder(other) + rest)[4 + i] == other[i];
    }
    if CachePrefix(orgId) <= CachePrefix(other) + rest {
      assert forall i | 0 <= i < |orgId| :: orgId[i] == CachePrefix(orgId)[7 + i] == (CachePrefix(other) + rest)[7 + i] == other[i];
    }
    assert Folder(orgId) <= Folder(orgId) + rest && CachePrefix(orgId) <= CachePrefix(orgId) + rest;
  }

  /**
   * After a finished attempt the organisation has no row in the eight tables and is DELETED, and its
   * folder is empty exactly when every object in it belonged to a COMPLETED file row and its deletion worked.
   */
  lemma FolderEmptiedIff(w: World, orgId: string, stuck: set<Effect>, at: int)
    requires orgId in w.orgs
    ensures var end := Whole(w, orgId, stuck, at);
      && end.orgs[orgId].status == DELETED && end.orgs[orgId].completedAt == Some(at)
      && (forall r | r in end.records && r.orgId == orgId :: r.table == EntitlementOverrides || r.table == BillingEvents)
      && (forall f | f in end.files :: f.orgId != orgId)
      && ((forall k | k in end.objects :: !("org/" + orgId <= k)) <==>
            forall k | k in w.objects && "org/" + orgId <= k ::
              DeleteObject(k) !in stuck && exists f :: f in w.files && f.key == k && f.completed)
      && ((forall k | k in end.cache :: !("tenant:" + orgId + ":" <= k)) <==>
            forall k | k in w.cache && "tenant:" + orgId + ":" <= k :: DropKey(k) !in stuck)
  {
    var end := Whole(w, orgId, stuck, at);
    forall k | Folder(orgId) <= k
      ensures k in end.objects <==>
                k in w.objects && !(DeleteObject(k) !in stuck && exists f :: f in w.files && f.key == k && f.completed)
    {
      assert k in Listed(w, orgId) <==> exists f :: f in w.files && f.key == k && f.completed;
    }
    forall k | CachePrefix(orgId) <= k ensures k in end.cache <==> k in w.cache && DropKey(k) in stuck {
    }
  }

  /** Every other organisation keeps its row, its records, its files, its objects and its cached keys. */
  lemma OtherOrgsUntouched(w: World, orgId: string, other: string, stuck: set<Effect>, at: int, rest: string)
    requires WellKept(w) && orgId in w.orgs && other in w.orgs && other != orgId
    ensures var end := Whole(w, orgId, stuck, at);
      && end.orgs[other] == w.orgs[other]
      && (forall r: Record | r.orgId == other :: r in end.records <==> r in w.records)
      && (forall f: File | f.orgId == other :: f in end.files <==> f in w.files)
      && ("org/" + other + rest in end.objects <==> "org/" + other + rest in w.objects)
      && ("tenant:" + other + ":" + rest in end.cache <==> "tenant:" + other + ":" + rest in w.cache)
      && (w.orgs[other].customer.Some? && w.orgs[other].customer != w.orgs[orgId].customer ==>
            (w.orgs[other].customer.value in end.customers <==> w.orgs[other].customer.value in w.customers))
      && (w.orgs[other].subscription.Some? && w.orgs[other].subscription != w.orgs[orgId].subscription ==>
            (w.orgs[other].subscription.value in end.subscriptions <==> w.orgs[other].subscription.value in w.subscriptions))
  {
    FolderNamesOwner(orgId, other, rest);
  }
}
