/** The ambient tenant store of one asynchronous call chain, and the four ways to rebind it. */
module TenantContext {
  import opened Foundations

  datatype TenantStore = TenantStore(orgId: Option<string>, userId: Option<string>, systemLookup: bool)

  const NO_TENANT := TenantStore(None, None, false)

  /** What AsyncLocalStorage holds: nothing outside every `run`. */
  type Ambient = Option<TenantStore>

  function CurrentStore(ambient: Ambient): TenantStore { ambient.GetOr(NO_TENANT) }

  datatype Scope =
    | WithTenant(orgId: Option<string>)
    | WithTenantUser(userId: Option<string>)
    | AsSystemLookup
    | WithTenantContext(org: Change<Option<string>>, user: Change<Option<string>>, lookup: Change<bool>)
  {
    function OrgChange(): Change<Option<string>> {
      match this
      case WithTenant(o) => Set(o)
      case WithTenantContext(o, _, _) => o
      case _ => Keep
    }

    function UserChange(): Change<Option<string>> {
      match this
      case WithTenantUser(u) => Set(u)
      case WithTenantContext(_, u, _) => u
      case _ => Keep
    }

    function LookupChange(): Change<bool> {
      match this
      case AsSystemLookup => Set(true)
      case WithTenantContext(_, _, l) => l
      case _ => Keep
    }
  }

  /** The store `run` installs: the current store spread, then this scope's own properties (an explicit undefined reads back as null). */
  function Bind(scope: Scope, store: TenantStore): TenantStore {
    match scope
    case WithTenant(o) => store.(orgId := o)
    case WithTenantUser(u) => store.(userId := u)
    case AsSystemLookup => store.(systemLookup := true)
    case WithTenantContext(o, u, l) =>
      TenantStore(o.Over(store.orgId), u.Over(store.userId), l.Over(store.systemLookup))
  }

  /** Entering `scopes` one inside the other, outermost first. */
  function BindAll(scopes: seq<Scope>, store: TenantStore): TenantStore {
    if scopes == [] then store else BindAll(scopes[1..], Bind(scopes[0], store))
  }

  /** `v` is what the innermost of `changes` that sets anything sets, or `outside` when none does. */
  ghost predicate Innermost<T>(changes: seq<Change<T>>, outside: T, v: T) {
    || (exists i | 0 <= i < |changes| ::
          && changes[i] == Set(v)
          && forall j | i < j < |changes| :: changes[j] == Keep)
    || ((forall j | 0 <= j < |changes| :: changes[j] == Keep) && v == outside)
  }

  ghost function OrgChanges(scopes: seq<Scope>): seq<Change<Option<string>>> {
    seq(|scopes|, i requires 0 <= i < |scopes| => scopes[i].OrgChange())
  }

  ghost function UserChanges(scopes: seq<Scope>): seq<Change<Option<string>>> {
    seq(|scopes|, i requires 0 <= i < |scopes| => scopes[i].UserChange())
  }

  ghost function LookupChanges(scopes: seq<Scope>): seq<Change<bool>> {
    seq(|scopes|, i requires 0 <= i < |scopes| => scopes[i].LookupChange())
  }

  lemma InnermostStep<T>(changes: seq<Change<T>>, outside: T, v: T)
    requires changes != []
    requires Innermost(changes[1..], changes[0].Over(outside), v)
    ensures Innermost(changes, outside, v)
  {
    var tail := changes[1..];
    if i :| 0 <= i < |tail| && tail[i] == Set(v) && forall j | i < j < |tail| :: tail[j] == Keep {
      assert changes[i + 1] == Set(v);
      forall j | i + 1 < j < |changes| ensures changes[j] == Keep { assert changes[j] == tail[j - 1]; }
    } else {
      forall j | 1 <= j < |changes| ensures changes[j] == Keep { assert changes[j] == tail[j - 1]; }
      if changes[0] != Keep {
        assert changes[0] == Set(v);
      }
    }
  }

  /** Each of the three values nested scopes leave in force is the one bound by the innermost scope that binds it. */
  lemma {:induction false} NestedScopesBindInnermost(scopes: seq<Scope>, store: TenantStore)
    ensures Innermost(OrgChanges(scopes), store.orgId, BindAll(scopes, store).orgId)
    ensures Innermost(UserChanges(scopes), store.userId, BindAll(scopes, store).userId)
    ensures Innermost(LookupChanges(scopes), store.systemLookup, BindAll(scopes, store).systemLookup)
  {
    if scopes != [] {
      var inner := Bind(scopes[0], store);
      NestedScopesBindInnermost(scopes[1..], inner);
      assert OrgChanges(scopes)[1..] == OrgChanges(scopes[1..]);
      assert UserChanges(scopes)[1..] == UserChanges(scopes[1..]);
      assert LookupChanges(scopes)[1..] == LookupChanges(scopes[1..]);
      InnermostStep(OrgChanges(scopes), store.orgId, BindAll(scopes, store).orgId);
      InnermostStep(UserChanges(scopes), store.userId, BindAll(scopes, store).userId);
      InnermostStep(LookupChanges(scopes), store.systemLookup, BindAll(scopes, store).systemLookup);
    }
  }

  /** What each of the four calls leaves in force, and what is in force outside all of them. */
  lemma ScopesRebind(orgId: Option<string>, userId: Option<string>, ambient: Ambient)
    ensures CurrentStore(None) == TenantStore(None, None, false)
    ensures var s := CurrentStore(ambient);
      && Bind(WithTenant(orgId), s) == TenantStore(orgId, s.userId, s.systemLookup)
      && Bind(WithTenantUser(userId), s) == TenantStore(s.orgId, userId, s.systemLookup)
      && Bind(AsSystemLookup, s) == TenantStore(s.orgId, s.userId, true)
      && Bind(WithTenantContext(Keep, Keep, Keep), s) == s
      && forall lookup: bool :: Bind(WithTenantContext(Set(orgId), Set(userId), Set(lookup)), s) == TenantStore(orgId, userId, lookup)
  {
  }

  lemma {:induction false} BindAllLast(scopes: seq<Scope>, last: Scope, store: TenantStore)
    ensures BindAll(scopes + [last], store) == Bind(last, BindAll(scopes, store))
    decreases scopes
  {
    if scopes == [] {
      assert (scopes + [last])[1..] == [];
    } else {
      assert (scopes + [last])[1..] == scopes[1..] + [last];
      BindAllLast(scopes[1..], last, Bind(scopes[0], store));
    }
  }
}
