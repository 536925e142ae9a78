/** The permission resolver, its cache service, and the controller actions that invalidate it. */
module RbacService {
  import opened Foundations
  import opened RedisKeys
  import opened RbacCache
  import opened Memberships

  class MembershipTable {
    var members: map<Member, Membership>

    constructor (members: map<Member, Membership>)
      ensures this.members == members
    {
      this.members := members;
    }
  }

  class RBACCacheService {
    var clock: int
    var cache: map<string, Entry<Context>>

    constructor (clock: int)
      ensures this.clock == clock && cache == map[]
    {
      this.clock := clock;
      cache := map[];
    }

    method Get(userId: string, orgId: string, ok: bool) returns (r: Option<Context>)
      ensures r == if ok then RedisKeys.Get(cache, Key(userId, orgId), clock) else None
    {
      var key := "rbac:user:" + userId + ":org:" + orgId;
      r := if ok && Alive(cache, key, clock) then Some(cache[key].value) else None;
    }

    method Set(userId: string, orgId: string, context: Context, ok: bool)
      modifies this`cache
      ensures cache == if ok then SetEx(old(cache), Key(userId, orgId), context, clock, TTL) else old(cache)
    {
      if ok {
        cache := SetEx(cache, Key(userId, orgId), context, clock, TTL);
      }
    }

    method Invalidate(userId: string, orgId: string, ok: bool)
      modifies this`cache
      ensures cache == if ok then old(cache) - {Key(userId, orgId)} else old(cache)
    {
      if ok {
        cache := cache - {Key(userId, orgId)};
      }
    }

    /** Drops the listed keys, except those whose DEL fails. */
    method DeleteAll(keys: seq<string>, failing: set<string>)
      modifies this`cache
      ensures cache == map k | k in old(cache) && (k !in keys || k in failing) :: old(cache)[k]
    {
      var i := 0;
      while i < |keys|
        invariant i <= |keys|
        invariant cache == map k | k in old(cache) && (k !in keys[..i] || k in failing) :: old(cache)[k]
      {
        assert keys[..i + 1] == keys[..i] + [keys[i]];
        if keys[i] !in failing {
          cache := cache - {keys[i]};
        }
        i := i + 1;
      }
      assert keys[..i] == keys;
    }

    /** `listed` is what KEYS returns; a failing KEYS throws. */
    method InvalidateOrg(orgId: string, listed: seq<string>, ok: bool, failing: set<string>) returns (threw: bool)
      requires forall k :: k in listed <==> k in cache && Matches(OrgPattern(orgId), k)
      modifies this`cache
      ensures threw <==> !ok
      ensures cache == if ok then map k | k in old(cache) && (!Matches(OrgPattern(orgId), k) || k in failing) :: old(cache)[k]
                       else old(cache)
    {
      if !ok {
        return true;
      }
      DeleteAll(listed, failing);
      threw := false;
    }
  }

  class PermissionResolverService {
    const table: RoleTable
    const memberships: MembershipTable
    const rbacCache: RBACCacheService

    constructor (table: RoleTable, memberships: MembershipTable, rbacCache: RBACCacheService)
      ensures this.table == table && this.memberships == memberships && this.rbacCache == rbacCache
    {
      this.table := table;
      this.memberships := memberships;
      this.rbacCache := rbacCache;
    }

    function Stored(): World
      reads memberships, rbacCache
    {
      World(rbacCache.clock, memberships.members, rbacCache.cache)
    }

    /** The read-through both public lookups share. */
    method Lookup(userId: string, orgId: string, getOk: bool, setOk: bool) returns (r: Option<Context>)
      modifies rbacCache`cache
      ensures r == Answer(table, old(Stored()), userId, orgId, getOk)
      ensures Stored() == Apply(table, old(Stored()), Resolve(userId, orgId, getOk, setOk))
    {
      r := rbacCache.Get(userId, orgId, getOk);
      if r.Some? {
        return;
      }
      var m := Member(userId, orgId);
      if m !in memberships.members {
        return None;
      }
      var found := memberships.members[m];
      var context := Context(found.role, found.status, table(found.role));
      rbacCache.Set(userId, orgId, context, setOk);
      r := Some(context);
    }

    method ResolvePermissions(userId: string, orgId: string, getOk: bool, setOk: bool) returns (permissions: seq<string>)
      modifies rbacCache`cache
      ensures permissions == Permissions(Answer(table, old(Stored()), userId, orgId, getOk))
      ensures Stored() == Apply(table, old(Stored()), Resolve(userId, orgId, getOk, setOk))
    {
      var context := Lookup(userId, orgId, getOk, setOk);
      permissions := if context.Some? then context.value.permissions else [];
    }

    method GetUserRole(userId: string, orgId: string, getOk: bool, setOk: bool) returns (role: Option<Role>)
      modifies rbacCache`cache
      ensures role == RoleOf(Answer(table, old(Stored()), userId, orgId, getOk))
      ensures Stored() == Apply(table, old(Stored()), Resolve(userId, orgId, getOk, setOk))
    {
      var context := Lookup(userId, orgId, getOk, setOk);
      role := if context.Some? then Some(context.value.role) else None;
    }

    /** Every one of the wanted permissions. */
    method HasAllPermissions(userId: string, orgId: string, wanted: seq<string>, getOk: bool, setOk: bool) returns (all: bool)
      modifies rbacCache`cache
      ensures all <==> forall p | p in wanted :: p in Permissions(Answer(table, old(Stored()), userId, orgId, getOk))
      ensures Stored() == Apply(table, old(Stored()), Resolve(userId, orgId, getOk, setOk))
    {
      var permissions := ResolvePermissions(userId, orgId, getOk, setOk);
      all := forall p | p in wanted :: p in permissions;
    }
  }

  class MembershipsController {
    const table: RoleTable
    const memberships: MembershipTable
    const rbacCache: RBACCacheService

    constructor (table: RoleTable, memberships: MembershipTable, rbacCache: RBACCacheService)
      ensures this.table == table && this.memberships == memberships && this.rbacCache == rbacCache
    {
      this.table := table;
      this.memberships := memberships;
      this.rbacCache := rbacCache;
    }

    function Stored(): World
      reads memberships, rbacCache
    {
      World(rbacCache.clock, memberships.members, rbacCache.cache)
    }

    method Create(m: Member, role: Role, status: Status, delOk: bool) returns (threw: bool)
      modifies memberships, rbacCache`cache
      ensures threw <==> m in old(memberships.members)
      ensures Stored() == Apply(table, old(Stored()), Op.Create(m, role, status, delOk))
    {
      if m in memberships.members {
        return true;
      }
      memberships.members := memberships.members[m := Membership(role, status)];
      rbacCache.Invalidate(m.userId, m.orgId, delOk);
      threw := false;
    }

    method Update(m: Member, role: Role, delOk: bool) returns (notFound: bool)
      modifies memberships, rbacCache`cache
      ensures notFound <==> m !in old(memberships.members)
      ensures Stored() == Apply(table, old(Stored()), Op.Update(m, role, delOk))
    {
      if m !in memberships.members {
        return true;
      }
      memberships.members := memberships.members[m := memberships.members[m].(role := role)];
      rbacCache.Invalidate(m.userId, m.orgId, delOk);
      notFound := false;
    }

    /**
     * The membership is gone before KEYS is asked, so a failing KEYS, like a removal service that throws
     * after its delete, reports an error for a removal that happened and leaves the entries in place.
     */
    method Delete(m: Member, cleanupThrows: bool, listed: seq<string>, keysOk: bool, failing: set<string>) returns (threw: bool)
      requires forall k :: k in listed <==> k in rbacCache.cache && Matches(OrgPattern(m.orgId), k)
      modifies memberships, rbacCache`cache
      ensures threw <==> m !in old(memberships.members) || cleanupThrows || !keysOk
      ensures Stored() == Apply(table, old(Stored()), Op.Remove(m, keysOk && !cleanupThrows, failing))
    {
      if m !in memberships.members {
        return true;
      }
      memberships.members := memberships.members - {m};
      if cleanupThrows {
        return true;
      }
      threw := rbacCache.InvalidateOrg(m.orgId, listed, keysOk, failing);
    }
  }
}
