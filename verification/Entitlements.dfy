/**
 * Plan entitlements: computed from the billing row and the organisation's overrides, and cached in Redis.
 * Calls run whole, each at one instant; any Redis command may fail, and the cache may lose keys at any time.
 */
module Entitlements {
  import opened Foundations
  import opened RedisKeys
  import Billing

  datatype Tier = FREE | PRO | ENTERPRISE

  datatype Value = Text(text: string) | Flag(on: bool) | Number(n: int) | Plan(tier: Tier) | Status(status: Billing.BillingStatus)

  type Set = map<string, Value>

  /** The environment: the two price ids, the cache TTL in seconds, JSON for override values, and the plan table. */
  datatype Config = Config(pro: Option<string>, enterprise: Option<string>, cacheTtl: int,
                           parse: string -> Option<Value>, stringify: Value -> string, plans: Tier -> Set)

  function PlanEntitlements(t: Tier): Set {
    map["advancedAnalytics" := Flag(t != FREE), "customReports" := Flag(t != FREE), "apiAccess" := Flag(t != FREE),
        "ssoEnabled" := Flag(t == ENTERPRISE), "prioritySupport" := Flag(t == ENTERPRISE),
        "maxSeats" := Number(match t case FREE => 3 case PRO => 10 case ENTERPRISE => 999999),
        "storageLimitBytes" := Number(match t case FREE => 100 * 1024 * 1024
                                              case PRO => 5 * 1024 * 1024 * 1024
                                              case ENTERPRISE => 50 * 1024 * 1024 * 1024)]
  }

  function ResolvePlanTier(cfg: Config, planId: Option<string>): Tier {
    if !Truthy(planId) then FREE
    else if planId == cfg.pro then PRO
    else if planId == cfg.enterprise then ENTERPRISE
    else FREE
  }

  datatype Override = Override(value: string, expiresAt: Option<int>)

  datatype World = World(clock: int, orgs: Billing.Orgs, overrides: map<string, map<string, Override>>, cache: map<string, Entry<Set>>)

  /** The override rows of one organisation: (orgId, key) is unique. */
  function Overrides(w: World, orgId: string): map<string, Override> { if orgId in w.overrides then w.overrides[orgId] else map[] }

  predicate InForce(o: Override, clock: int) { o.expiresAt.None? || o.expiresAt.value > clock }

  /** Assigning the property "__proto__" of a plain object sets its prototype, not a property of its own. */
  const PROTO := "__proto__"

  function Patch(cfg: Config, w: World, orgId: string): Set {
    var rows := Overrides(w, orgId);
    map key | key in rows && key != PROTO && InForce(rows[key], w.clock) && cfg.parse(rows[key].value).Some?
      :: cfg.parse(rows[key].value).value
  }

  function Base(cfg: Config, w: World, orgId: string): Set {
    var status := if orgId in w.orgs then w.orgs[orgId].billingStatus else Billing.NONE;
    var tier := if status == Billing.ACTIVE then ResolvePlanTier(cfg, w.orgs[orgId].planId) else FREE;
    map["organizationId" := Text(orgId), "plan" := Plan(tier), "subscriptionStatus" := Status(status)]
    + cfg.plans(tier)
  }

  /** The uncached result. */
  function Compute(cfg: Config, w: World, orgId: string): Set { Base(cfg, w, orgId) + Patch(cfg, w, orgId) }

  function CacheKey(orgId: string): string { "entitlements:" + orgId }

  // ---- The cache service: failures are logged, never thrown ----

  function CacheGet(w: World, orgId: string, ok: bool): Option<Set> { if ok then Get(w.cache, CacheKey(orgId), w.clock) else None }

  /** A TTL of 0 stores without expiry; Redis refuses a negative one. */
  function CacheSet(w: World, orgId: string, value: Set, ttl: int, ok: bool): World {
    if !ok || ttl < 0 then w
    else if ttl == 0 then w.(cache := w.cache[CacheKey(orgId) := Entry(value, None)])
    else w.(cache := SetEx(w.cache, CacheKey(orgId), value, w.clock, ttl))
  }

  function CacheDel(w: World, orgId: string, ok: bool): World { if ok then w.(cache := Del(w.cache, CacheKey(orgId))) else w }

  // ---- Calls ----

  datatype Op =
    | Tick(to: int)
    | BillingChanges(orgs: Billing.Orgs)
    | Evict(keys: set<string>)
    | GetEntitlements(orgId: string, getOk: bool, setOk: bool)
    | SetOverride(orgId: string, key: string, value: Value, expiresAt: Option<int>, delOk: bool)
    | DeleteOverride(orgId: string, key: string, delOk: bool)
    | Invalidate(orgId: string, delOk: bool)

  predicate Allowed(w: World, op: Op) { op.Tick? ==> w.clock <= op.to }

  function Apply(cfg: Config, w: World, op: Op): World {
    match op
    case Tick(to) => w.(clock := to)
    case BillingChanges(orgs) => w.(orgs := orgs)
    case Evict(keys) => w.(cache := w.cache - keys)
    case GetEntitlements(orgId, getOk, setOk) =>
      if CacheGet(w, orgId, getOk).Some? then w else CacheSet(w, orgId, Compute(cfg, w, orgId), cfg.cacheTtl, setOk)
    case SetOverride(orgId, key, value, expiresAt, delOk) =>
      CacheDel(w.(overrides := w.overrides[orgId := Overrides(w, orgId)[key := Override(cfg.stringify(value), expiresAt)]]), orgId, delOk)
    case DeleteOverride(orgId, key, delOk) =>
      if key !in Overrides(w, orgId) then w
      else CacheDel(w.(overrides := w.overrides[orgId := Overrides(w, orgId) - {key}]), orgId, delOk)
    case Invalidate(orgId, delOk) => CacheDel(w, orgId, delOk)
  }

  /** What getEntitlements answers in `w`. */
  function Answer(cfg: Config, w: World, orgId: string, getOk: bool): Set {
    CacheGet(w, orgId, getOk).GetOr(Compute(cfg, w, orgId))
  }

  ghost predicate Possible(cfg: Config, w: World, ops: seq<Op>)
    decreases ops
  {
    ops == [] || (Allowed(w, ops[0]) && Possible(cfg, Apply(cfg, w, ops[0]), ops[1..]))
  }

  /** Every world the run passes through, first and last included. */
  ghost function Trace(cfg: Config, w: World, ops: seq<Op>): (t: seq<World>)
    requires Possible(cfg, w, ops)
    ensures |t| == |ops| + 1 && t[0] == w
    decreases ops
  {
    if ops == [] then [w] else [w] + Trace(cfg, Apply(cfg, w, ops[0]), ops[1..])
  }

  // ---- Staleness ----

  type Computation = (World, string) -> Set

  function Uncached(cfg: Config): Computation { (w: World, orgId: string) => Compute(cfg, w, orgId) }

  /** `e` was filled in from `w` and expires `ttl` seconds after it. */
  predicate Filled(c: Computation, ttl: int, e: Entry<Set>, w: World, orgId: string) {
    e.value == c(w, orgId) && e.deadline == Some(w.clock + ttl * 1000)
  }

  /** Each entry is the result of some world in `past`. */
  ghost predicate Explained(c: Computation, ttl: int, past: seq<World>, w: World) {
    forall orgId: string | CacheKey(orgId) in w.cache ::
      exists i | 0 <= i < |past| :: Filled(c, ttl, w.cache[CacheKey(orgId)], past[i], orgId)
  }

  ghost predicate Earlier(past: seq<World>, w: World) { forall i | 0 <= i < |past| :: past[i].clock <= w.clock }

  /** A call changes the cache in one of two ways: it drops keys, or it fills one from the world as it is. */
  predicate FillsFrom(c: Computation, ttl: int, w: World, n: World, orgId: string) {
    n.cache == w.cache[CacheKey(orgId) := Entry(c(w, orgId), Some(w.clock + ttl * 1000))]
  }

  predicate Drops(w: World, n: World) { forall k | k in n.cache :: k in w.cache && n.cache[k] == w.cache[k] }

  lemma CallsDropOrFill(cfg: Config, w: World, op: Op)
    requires cfg.cacheTtl > 0
    ensures Drops(w, Apply(cfg, w, op))
            || (op.GetEntitlements? && FillsFrom(Uncached(cfg), cfg.cacheTtl, w, Apply(cfg, w, op), op.orgId))
  {
  }

  lemma StepKeepsExplained(c: Computation, ttl: int, past: seq<World>, w: World, n: World, filled: string)
    requires |past| > 0 && past[|past| - 1] == w && Explained(c, ttl, past, w)
    requires Drops(w, n) || FillsFrom(c, ttl, w, n, filled)
    ensures Explained(c, ttl, past + [n], n)
  {
    var all := past + [n];
    forall orgId: string | CacheKey(orgId) in n.cache
      ensures exists i | 0 <= i < |all| :: Filled(c, ttl, n.cache[CacheKey(orgId)], all[i], orgId)
    {
      KeysIdentifyOrgs(orgId, filled);
      if !Drops(w, n) && orgId == filled {
        assert Filled(c, ttl, n.cache[CacheKey(orgId)], all[|past| - 1], orgId);
      } else {
        var i :| 0 <= i < |past| && Filled(c, ttl, w.cache[CacheKey(orgId)], past[i], orgId);
        assert all[i] == past[i];
      }
    }
  }

  lemma KeysIdentifyOrgs(a: string, b: string)
    ensures CacheKey(a) == CacheKey(b) <==> a == b
  {
    assert CacheKey(a)[13..] == a && CacheKey(b)[13..] == b;
  }

  lemma {:induction false} RunKeepsExplained(cfg: Config, past: seq<World>, w: World, ops: seq<Op>)
    requires cfg.cacheTtl > 0 && |past| > 0 && past[|past| - 1] == w
    requires Explained(Uncached(cfg), cfg.cacheTtl, past, w) && Earlier(past, w) && Possible(cfg, w, ops)
    ensures var t := Trace(cfg, w, ops);
      Explained(Uncached(cfg), cfg.cacheTtl, past + t[1..], t[|ops|]) && Earlier(past + t[1..], t[|ops|])
    decreases ops
  {
    var t := Trace(cfg, w, ops);
    if ops == [] {
      assert past + t[1..] == past;
    } else {
      var op := ops[0];
      var n := Apply(cfg, w, op);
      assert Explained(Uncached(cfg), cfg.cacheTtl, past + [n], n) by {
        CallsDropOrFill(cfg, w, op);
        StepKeepsExplained(Uncached(cfg), cfg.cacheTtl, past, w, n, if op.GetEntitlements? then op.orgId else "");
      }
      assert w.clock <= n.clock;
      RunKeepsExplained(cfg, past + [n], n, ops[1..]);
      var u := Trace(cfg, n, ops[1..]);
      assert past + [n] + u[1..] == past + t[1..] by {
        assert u == [n] + u[1..] == t[1..];
      }
    }
  }

  lemma AnswersAreExplained(c: Computation, ttl: int, past: seq<World>, w: World, orgId: string) returns (i: nat)
    requires Explained(c, ttl, past, w) && Get(w.cache, CacheKey(orgId), w.clock).Some?
    ensures i < |past| && Get(w.cache, CacheKey(orgId), w.clock) == Some(c(past[i], orgId)) && w.clock < past[i].clock + ttl * 1000
  {
    i :| 0 <= i < |past| && Filled(c, ttl, w.cache[CacheKey(orgId)], past[i], orgId);
  }

  /**
   * From an empty cache, over every run of billing changes, override changes, invalidations, evictions
   * and Redis failures: the answer at time t is the uncached result of some world of the run whose
   * clock lies within the last cacheTtl seconds.
   */
  lemma StalenessIsBounded(cfg: Config, w: World, ops: seq<Op>, orgId: string, getOk: bool) returns (i: nat)
    requires cfg.cacheTtl > 0 && w.cache == map[] && Possible(cfg, w, ops)
    ensures i <= |ops|
    ensures var t := Trace(cfg, w, ops);
      && t[|ops|].clock - cfg.cacheTtl * 1000 < t[i].clock <= t[|ops|].clock
      && Answer(cfg, t[|ops|], orgId, getOk) == Compute(cfg, t[i], orgId)
  {
    RunKeepsExplained(cfg, [w], w, ops);
    var t := Trace(cfg, w, ops);
    assert [w] + t[1..] == t;
    if CacheGet(t[|ops|], orgId, getOk).Some? {
      i := AnswersAreExplained(Uncached(cfg), cfg.cacheTtl, t, t[|ops|], orgId);
    } else {
      i := |ops|;
    }
  }

  /** After setOverride, deleteOverride or an invalidation whose DEL worked, the next answer is the uncached one. */
  lemma ChangesAreSeenAtOnce(cfg: Config, w: World, op: Op, later: int, getOk: bool)
    requires (op.SetOverride? || op.Invalidate? || (op.DeleteOverride? && op.key in Overrides(w, op.orgId))) && op.delOk
    ensures var n := Apply(cfg, w, op).(clock := later);
      Answer(cfg, n, op.orgId, getOk) == Compute(cfg, n, op.orgId)
  {
  }

  /** One property of a set, absent or present. */
  function At(e: Set, key: string): Option<Value> { if key in e then Some(e[key]) else None }

  /** The override's value when one is in force and parses, otherwise the plan's. */
  lemma PropertyOf(cfg: Config, w: World, orgId: string, key: string)
    ensures var rows := Overrides(w, orgId);
      At(Compute(cfg, w, orgId), key) ==
        if key in rows && key != "__proto__" && (rows[key].expiresAt.None? || w.clock < rows[key].expiresAt.value)
           && cfg.parse(rows[key].value).Some?
        then cfg.parse(rows[key].value)
        else At(Base(cfg, w, orgId), key)
  {
  }

  /**
   * Without overrides an organisation has the table of its plan, and its plan is what its price id buys
   * while its status is ACTIVE; any other status, price or organisation gets the free table.
   */
  lemma PlanShown(cfg: Config, w: World, orgId: string)
    requires cfg.plans == PlanEntitlements && Overrides(w, orgId) == map[]
    ensures var status := if orgId in w.orgs then w.orgs[orgId].billingStatus else Billing.NONE;
      var price := if orgId in w.orgs && status == Billing.ACTIVE then w.orgs[orgId].planId else None;
      var tier :=
        if price == None || price == Some("") then FREE
        else if price == cfg.pro then PRO
        else if price == cfg.enterprise then ENTERPRISE
        else FREE;
      Compute(cfg, w, orgId) ==
        map["organizationId" := Text(orgId), "plan" := Plan(tier), "subscriptionStatus" := Status(status)] + PlanEntitlements(tier)
  {
    assert Patch(cfg, w, orgId) == map[];
    assert orgId in w.orgs ==> (Truthy(w.orgs[orgId].planId) <==> w.orgs[orgId].planId != None && w.orgs[orgId].planId != Some(""));
  }

  /** The three tables: features, seats and bytes. */
  lemma PlanTable(tier: Tier)
    ensures var paid, enterprise := Flag(tier in {PRO, ENTERPRISE}), Flag(tier == ENTERPRISE);
      PlanEntitlements(tier) == map[
        "advancedAnalytics" := paid, "customReports" := paid, "apiAccess" := paid, "ssoEnabled" := enterprise, "prioritySupport" := enterprise,
        "maxSeats" := Number(if tier == FREE then 3 else if tier == PRO then 10 else 999999),
        "storageLimitBytes" := Number(if tier == FREE then 104857600 else if tier == PRO then 5368709120 else 53687091200)]
  {
  }

  /** A cached answer is used until it expires, and only then is the uncached one computed. */
  lemma CacheRead(cfg: Config, w: World, orgId: string, ok: bool)
    ensures var key := "entitlements:" + orgId;
      Answer(cfg, w, orgId, ok) ==
        if ok && key in w.cache && (w.cache[key].deadline.None? || w.clock < w.cache[key].deadline.value) then w.cache[key].value
        else Compute(cfg, w, orgId)
  {
  }

  /** Which key a fill writes and for how long, and which an invalidation drops. */
  lemma CacheWritten(cfg: Config, w: World, orgId: string, ok: bool)
    requires CacheGet(w, orgId, ok).None? && cfg.cacheTtl >= 0
    ensures var key := "entitlements:" + orgId;
      var until := if cfg.cacheTtl == 0 then None else Some(w.clock + cfg.cacheTtl * 1000);
      && Apply(cfg, w, GetEntitlements(orgId, ok, true)) == w.(cache := w.cache[key := Entry(Compute(cfg, w, orgId), until)])
      && Apply(cfg, w, GetEntitlements(orgId, ok, false)) == w
      && Apply(cfg, w, Invalidate(orgId, true)) == w.(cache := w.cache - {key})
  {
  }

  /** Setting an override replaces exactly its own property while it is in force, ... */
  lemma SetOverrideReplacesItsKey(cfg: Config, w: World, orgId: string, key: string, value: Value, expiresAt: Option<int>, delOk: bool, other: string)
    requires cfg.parse(cfg.stringify(value)) == Some(value) && key != PROTO
    ensures var after := Compute(cfg, Apply(cfg, w, SetOverride(orgId, key, value, expiresAt, delOk)), orgId);
      At(after, other) ==
        if other != key then At(Compute(cfg, w, orgId), other)
        else if expiresAt.None? || w.clock < expiresAt.value then Some(value)
        else At(Base(cfg, w, orgId), key)
  {
    var n := Apply(cfg, w, SetOverride(orgId, key, value, expiresAt, delOk));
    PropertyOf(cfg, w, orgId, other);
    PropertyOf(cfg, n, orgId, other);
    assert Base(cfg, n, orgId) == Base(cfg, w, orgId);
  }

  /** ... and deleting it gives the plan's value of that property back. */
  lemma DeleteOverrideRestoresThePlan(cfg: Config, w: World, orgId: string, key: string, delOk: bool, other: string)
    ensures var after := Compute(cfg, Apply(cfg, w, DeleteOverride(orgId, key, delOk)), orgId);
      At(after, other) == At(if other == key then Base(cfg, w, orgId) else Compute(cfg, w, orgId), other)
  {
    var n := Apply(cfg, w, DeleteOverride(orgId, key, delOk));
    PropertyOf(cfg, w, orgId, other);
    PropertyOf(cfg, n, orgId, other);
    assert Base(cfg, n, orgId) == Base(cfg, w, orgId);
  }

  /**
   * Nothing is invalidated when an override lapses at `expiry`: an answer cached before keeps showing it for
   * the rest of the TTL, and for ever when the TTL is 0.
   */
  lemma LapsedOverridesLinger(cfg: Config, w: World, orgId: string, key: string, value: Value, expiry: int, later: int)
    requires cfg.cacheTtl >= 0 && CacheGet(w, orgId, true).None? && key != PROTO
    requires key in Overrides(w, orgId) && Overrides(w, orgId)[key].expiresAt == Some(expiry)
    requires cfg.parse(Overrides(w, orgId)[key].value) == Some(value)
    requires key in Base(cfg, w, orgId) ==> Base(cfg, w, orgId)[key] != value
    requires w.clock < expiry <= later
    ensures var n := Apply(cfg, w, GetEntitlements(orgId, true, true)).(clock := later);
      var shown := Answer(cfg, n, orgId, true);
      (key in shown && shown[key] == value) <==> cfg.cacheTtl == 0 || later < w.clock + cfg.cacheTtl * 1000
  {
    var filled := Apply(cfg, w, GetEntitlements(orgId, true, true));
    var n := filled.(clock := later);
    assert Base(cfg, n, orgId) == Base(cfg, w, orgId);
  }

  // ---- The service ----

  /** A row as findActiveByOrg returns it. */
  datatype Row = Row(key: string, value: string)

  class FeatureFlagsService {
    const cfg: Config
    var clock: int
    var orgs: Billing.Orgs
    var overrides: map<string, map<string, Override>>
    var cache: map<string, Entry<Set>>

    constructor (pro: Option<string>, enterprise: Option<string>, cacheTtl: int, parse: string -> Option<Value>,
                 stringify: Value -> string, w: World)
      ensures cfg == Config(pro, enterprise, cacheTtl, parse, stringify, PlanEntitlements) && Stored() == w
    {
      cfg := Config(pro, enterprise, cacheTtl, parse, stringify, PlanEntitlements);
      clock := w.clock;
      orgs := w.orgs;
      overrides := w.overrides;
      cache := w.cache;
    }

    function Stored(): World
      reads this
    {
      World(clock, orgs, overrides, cache)
    }

    /** `rows` is what the query for active overrides returns: one row per key, in some order. */
    ghost predicate Lists(rows: seq<Row>, orgId: string)
      reads this
    {
      && (forall i, j | 0 <= i < j < |rows| :: rows[i].key != rows[j].key)
      && var stored := Overrides(Stored(), orgId);
      && (forall key | key in stored && InForce(stored[key], clock) :: Row(key, stored[key].value) in rows)
      && (forall r | r in rows :: r.key in stored && stored[r.key].value == r.value && InForce(stored[r.key], clock))
    }

    /** Parses the rows, leaving out those that do not parse. */
    method ParseOverrides(rows: seq<Row>, orgId: string) returns (overridePatch: Set)
      requires Lists(rows, orgId)
      ensures overridePatch == Patch(cfg, Stored(), orgId)
    {
      overridePatch := map[];
      var i := 0;
      while i < |rows|
        invariant i <= |rows|
        invariant forall k :: k in overridePatch <==> exists j | 0 <= j < i :: rows[j].key == k && k != PROTO && cfg.parse(rows[j].value).Some?
        invariant forall j | 0 <= j < i && rows[j].key in overridePatch :: cfg.parse(rows[j].value) == Some(overridePatch[rows[j].key])
      {
        var parsed := cfg.parse(rows[i].value);
        if parsed.Some? && rows[i].key != PROTO {
          overridePatch := overridePatch[rows[i].key := parsed.value];
        }
        i := i + 1;
      }
      RowsGiveThePatch(rows, orgId, overridePatch);
    }

    method GetEntitlements(orgId: string, rows: seq<Row>, getOk: bool, setOk: bool) returns (r: Set)
      requires Lists(rows, orgId)
      modifies this`cache
      ensures r == Answer(cfg, old(Stored()), orgId, getOk)
      ensures Stored() == Apply(cfg, old(Stored()), Op.GetEntitlements(orgId, getOk, setOk))
    {
      var key := CacheKey(orgId);
      if getOk && Alive(cache, key, clock) {
        return cache[key].value;
      }
      var status := if orgId in orgs then orgs[orgId].billingStatus else Billing.NONE;
      var tier := if status == Billing.ACTIVE then ResolvePlanTier(cfg, orgs[orgId].planId) else FREE;
      var overridePatch := ParseOverrides(rows, orgId);
      r := map["organizationId" := Text(orgId), "plan" := Plan(tier), "subscriptionStatus" := Status(status)]
           + cfg.plans(tier) + overridePatch;
      if setOk && cfg.cacheTtl >= 0 {
        cache := if cfg.cacheTtl == 0 then cache[key := Entry(r, None)] else SetEx(cache, key, r, clock, cfg.cacheTtl);
      }
    }

    lemma RowsGiveThePatch(rows: seq<Row>, orgId: string, patch: Set)
      requires Lists(rows, orgId)
      requires forall k :: k in patch <==> exists j | 0 <= j < |rows| :: rows[j].key == k && k != PROTO && cfg.parse(rows[j].value).Some?
      requires forall j | 0 <= j < |rows| && rows[j].key in patch :: cfg.parse(rows[j].value) == Some(patch[rows[j].key])
      ensures patch == Patch(cfg, Stored(), orgId)
    {
      var spec := Patch(cfg, Stored(), orgId);
      forall k ensures k in patch <==> k in spec
               ensures k in patch ==> k in spec && patch[k] == spec[k]
      {
        if k in spec {
          var row := Row(k, Overrides(Stored(), orgId)[k].value);
          assert row in rows;
          var j :| 0 <= j < |rows| && rows[j] == row;
        }
        if k in patch {
          var j :| 0 <= j < |rows| && rows[j].key == k && k != PROTO && cfg.parse(rows[j].value).Some?;
          assert rows[j] in rows;
        }
      }
    }

    method InvalidateEntitlements(orgId: string, delOk: bool)
      modifies this`cache
      ensures Stored() == Apply(cfg, old(Stored()), Invalidate(orgId, delOk))
    {
      if delOk {
        cache := cache - {CacheKey(orgId)};
      }
    }

    method SetOverride(orgId: string, key: string, value: Value, expiresAt: Option<int>, delOk: bool)
      modifies this`cache, this`overrides
      ensures Stored() == Apply(cfg, old(Stored()), Op.SetOverride(orgId, key, value, expiresAt, delOk))
    {
      overrides := overrides[orgId := Overrides(Stored(), orgId)[key := Override(cfg.stringify(value), expiresAt)]];
      InvalidateEntitlements(orgId, delOk);
    }

    method DeleteOverride(orgId: string, key: string, delOk: bool) returns (notFound: bool)
      modifies this`cache, this`overrides
      ensures notFound <==> key !in Overrides(old(Stored()), orgId)
      ensures Stored() == Apply(cfg, old(Stored()), Op.DeleteOverride(orgId, key, delOk))
    {
      if key !in Overrides(Stored(), orgId) {
        return true;
      }
      overrides := overrides[orgId := Overrides(Stored(), orgId) - {key}];
      InvalidateEntitlements(orgId, delOk);
      notFound := false;
    }
  }
}
