/**
 * The permission cache in front of the membership table. Calls run whole; the controller invalidates after
 * create, update and remove, while invitations, organisation creation and activation never invalidate.
 */
module RbacCache {
  import opened Foundations
  import opened Memberships
  import opened RedisKeys

  datatype Member = Member(userId: string, orgId: string)

  datatype Membership = Membership(role: Role, status: Status)

  datatype Context = Context(role: Role, status: Status, permissions: seq<string>)

  /** The static role table. */
  type RoleTable = Role -> seq<string>

  datatype World = World(clock: int, members: map<Member, Membership>, cache: map<string, Entry<Context>>)

  const TTL := 600

  function Key(userId: string, orgId: string): string { "rbac:user:" + userId + ":org:" + orgId }

  function KeyOf(m: Member): string { Key(m.userId, m.orgId) }

  /** UUIDs: 36 characters, none of them a colon or special in a glob. */
  predicate IsId(s: string) { |s| == 36 && forall c | c in s :: c !in {':', '*', '?', '[', '\\'} }

  // ---- Keys and globs ----

  /** KEYS patterns built from literal characters, `?` and `*`. */
  predicate Matches(pattern: string, s: string)
    decreases |pattern| + |s|
  {
    if pattern == [] then s == []
    else if pattern[0] == '*' then Matches(pattern[1..], s) || (s != [] && Matches(pattern, s[1..]))
    else s != [] && (pattern[0] == '?' || pattern[0] == s[0]) && Matches(pattern[1..], s[1..])
  }

  predicate Literal(s: string) { forall c | c in s :: c !in {'*', '?', '[', '\\'} }

  lemma {:induction false} LiteralPrefix(lit: string, rest: string, s: string)
    requires Literal(lit)
    ensures Matches(lit + rest, s) <==> lit <= s && Matches(rest, s[|lit|..])
    decreases |lit|
  {
    if lit == [] {
      assert lit + rest == rest;
      assert s[0..] == s;
    } else {
      assert lit[0] in lit && forall c | c in lit[1..] :: c in lit;
      assert (lit + rest)[1..] == lit[1..] + rest;
      if s != [] && s[0] == lit[0] {
        LiteralPrefix(lit[1..], rest, s[1..]);
        if lit[1..] <= s[1..] {
          assert s[1..][|lit[1..]|..] == s[|lit|..];
          assert lit == [lit[0]] + lit[1..] <= [s[0]] + s[1..] == s;
        }
      }
    }
  }

  lemma LiteralMatch(lit: string, s: string)
    requires Literal(lit)
    ensures Matches(lit, s) <==> s == lit
  {
    LiteralPrefix(lit, "", s);
    assert lit + "" == lit;
    if lit <= s && s[|lit|..] == "" {
      assert s == lit;
    }
  }

  lemma StarUnfolds(lit: string, s: string)
    ensures Matches("*" + lit, s) <==> Matches(lit, s) || (s != [] && Matches("*" + lit, s[1..]))
  {
    assert ("*" + lit)[1..] == lit;
  }

  lemma {:induction false} StarSuffix(lit: string, s: string)
    requires Literal(lit)
    ensures Matches("*" + lit, s) <==> |lit| <= |s| && s[|s| - |lit|..] == lit
    decreases |s|
  {
    StarUnfolds(lit, s);
    LiteralMatch(lit, s);
    if s != [] {
      StarSuffix(lit, s[1..]);
      if |lit| < |s| {
        assert s[1..][|s[1..]| - |lit|..] == s[|s| - |lit|..];
      }
    }
  }

  function OrgPattern(orgId: string): string { "rbac:user:*:org:" + orgId }

  lemma IdsAreLiteral(orgId: string)
    requires IsId(orgId)
    ensures Literal("rbac:user:") && Literal(":org:" + orgId)
  {
    assert forall c | c in ":org:" + orgId :: c in ":org:" || c in orgId;
  }

  /** The organisation's glob selects exactly that organisation's members' keys. */
  lemma GlobSelectsTheOrg(orgId: string, m: Member)
    requires IsId(orgId) && IsId(m.userId) && IsId(m.orgId)
    ensures Matches(OrgPattern(orgId), KeyOf(m)) <==> m.orgId == orgId
    ensures OrgPattern(orgId) == "rbac:user:*:org:" + orgId && KeyOf(m) == "rbac:user:" + m.userId + ":org:" + m.orgId
  {
    IdsAreLiteral(orgId);
    var rest := "*" + (":org:" + orgId);
    assert OrgPattern(orgId) == "rbac:user:" + rest;
    var tail := m.userId + ":org:" + m.orgId;
    assert KeyOf(m) == "rbac:user:" + tail;
    LiteralPrefix("rbac:user:", rest, KeyOf(m));
    assert KeyOf(m)[|"rbac:user:"|..] == tail;
    StarSuffix(":org:" + orgId, tail);
    assert tail[|tail| - 41..] == ":org:" + m.orgId;
    if ":org:" + orgId == ":org:" + m.orgId {
      assert (":org:" + orgId)[5..] == orgId;
      assert (":org:" + m.orgId)[5..] == m.orgId;
    }
  }

  /** The separator of a key made from UUIDs stands at position 36 only. */
  lemma SeparatorPlace(s: string, userId: string, orgId: string, n: nat)
    requires IsId(userId) && IsId(orgId) && s == userId + ":org:" + orgId
    requires n + 5 <= |s| && s[n..n + 5] == ":org:"
    ensures n == 36
  {
    assert s[n] == ':' && s[n + 4] == ':';
    if n < 36 {
      NoColonOutside(userId, orgId, n);
    }
    if n + 4 > 40 {
      NoColonOutside(userId, orgId, n + 4);
    }
  }

  lemma NoColonOutside(userId: string, orgId: string, i: nat)
    requires IsId(userId) && IsId(orgId) && i < 77 && (i < 36 || 41 <= i)
    ensures (userId + ":org:" + orgId)[i] != ':'
  {
    if i < 36 {
      assert userId[i] in userId;
    } else {
      assert orgId[i - 41] in orgId;
    }
  }

  /** Whatever strings a caller passes, a member's key is produced only by that member's own ids. */
  lemma KeysIdentifyMembers(userId: string, orgId: string, m: Member)
    requires IsId(m.userId) && IsId(m.orgId)
    ensures Key(userId, orgId) == KeyOf(m) <==> Member(userId, orgId) == m
  {
    if Key(userId, orgId) == KeyOf(m) {
      var a, b := userId + ":org:" + orgId, m.userId + ":org:" + m.orgId;
      assert a == Key(userId, orgId)[10..] && b == KeyOf(m)[10..];
      var n := |userId|;
      assert a[n..n + 5] == ":org:";
      SeparatorPlace(b, m.userId, m.orgId, n);
      assert userId == a[..36] == b[..36] == m.userId;
      assert orgId == a[41..] == b[41..] == m.orgId;
    }
  }

  // ---- Calls ----

  function Resolved(table: RoleTable, m: Membership): Context { Context(m.role, m.status, table(m.role)) }

  function ResolveContext(table: RoleTable, w: World, userId: string, orgId: string): Option<Context> {
    var m := Member(userId, orgId);
    if m in w.members then Some(Resolved(table, w.members[m])) else None
  }

  datatype Op =
    | Tick(to: int)
    | Evict(keys: set<string>)
    | Resolve(userId: string, orgId: string, getOk: bool, setOk: bool)
    | Create(m: Member, role: Role, status: Status, delOk: bool)
    | CreateSilently(m: Member, role: Role, status: Status)
    | Update(m: Member, role: Role, delOk: bool)
    | Activate(userId: string)
    | Remove(m: Member, keysOk: bool, failing: set<string>)

  function CacheGet(w: World, userId: string, orgId: string, ok: bool): Option<Context> {
    if ok then Get(w.cache, Key(userId, orgId), w.clock) else None
  }

  function Invalidated(w: World, m: Member, ok: bool): World { if ok then w.(cache := Del(w.cache, KeyOf(m))) else w }

  /** KEYS then one DEL per key; each DEL may fail on its own. `ok` is false when KEYS fails or is never asked. */
  function OrgInvalidated(w: World, orgId: string, ok: bool, failing: set<string>): World {
    if !ok then w
    else w.(cache := map k | k in w.cache && (!Matches(OrgPattern(orgId), k) || k in failing) :: w.cache[k])
  }

  function Activated(members: map<Member, Membership>, userId: string): map<Member, Membership> {
    map m | m in members :: if m.userId == userId && members[m].status == INVITED then members[m].(status := ACTIVE) else members[m]
  }

  /** Creating an existing membership, and updating or removing a missing one, throws before anything changes. */
  function Apply(table: RoleTable, w: World, op: Op): World {
    match op
    case Tick(to) => w.(clock := to)
    case Evict(keys) => w.(cache := w.cache - keys)
    case Resolve(userId, orgId, getOk, setOk) =>
      if CacheGet(w, userId, orgId, getOk).Some? then w
      else
        var context := ResolveContext(table, w, userId, orgId);
        if context.Some? && setOk then w.(cache := SetEx(w.cache, Key(userId, orgId), context.value, w.clock, TTL)) else w
    case Create(m, role, status, delOk) =>
      if m in w.members then w else Invalidated(w.(members := w.members[m := Membership(role, status)]), m, delOk)
    case CreateSilently(m, role, status) =>
      if m in w.members then w else w.(members := w.members[m := Membership(role, status)])
    case Update(m, role, delOk) =>
      if m !in w.members then w else Invalidated(w.(members := w.members[m := w.members[m].(role := role)]), m, delOk)
    case Activate(userId) =>
      w.(members := Activated(w.members, userId))
    case Remove(m, keysOk, failing) =>
      if m !in w.members then w else OrgInvalidated(w.(members := w.members - {m}), m.orgId, keysOk, failing)
  }

  /** What resolvePermissions and getUserRole answer. */
  function Answer(table: RoleTable, w: World, userId: string, orgId: string, getOk: bool): Option<Context> {
    var cached := CacheGet(w, userId, orgId, getOk);
    if cached.Some? then cached else ResolveContext(table, w, userId, orgId)
  }

  function Permissions(c: Option<Context>): seq<string> { if c.Some? then c.value.permissions else [] }

  function RoleOf(c: Option<Context>): Option<Role> { if c.Some? then Some(c.value.role) else None }

  // ---- What each call writes ----

  /** The memberships after a call; nothing else changes them. */
  lemma MembersAfter(table: RoleTable, w: World, op: Op)
    ensures var n := Apply(table, w, op).members;
      match op
      case Create(m, role, status, _) => n == if m in w.members then w.members else w.members[m := Membership(role, status)]
      case CreateSilently(m, role, status) => n == if m in w.members then w.members else w.members[m := Membership(role, status)]
      case Update(m, role, _) => n == if m in w.members then w.members[m := Membership(role, w.members[m].status)] else w.members
      case Remove(m, _, _) => m !in n && n.Keys == w.members.Keys - {m} && forall x | x in n :: n[x] == w.members[x]
      case Activate(userId) =>
        && n.Keys == w.members.Keys
        && forall x | x in n ::
             n[x] == if x.userId == userId && w.members[x].status == INVITED then Membership(w.members[x].role, ACTIVE) else w.members[x]
      case _ => n == w.members
  {
  }

  /** A lookup that finds no entry stores the member's role, status and permissions for ten minutes; an unknown pair is not stored. */
  lemma LookupFills(table: RoleTable, w: World, m: Member, getOk: bool, setOk: bool)
    ensures var key := "rbac:user:" + m.userId + ":org:" + m.orgId;
      var hit := getOk && key in w.cache && (w.cache[key].deadline.None? || w.clock < w.cache[key].deadline.value);
      Apply(table, w, Resolve(m.userId, m.orgId, getOk, setOk)).cache ==
        if hit || m !in w.members || !setOk then w.cache
        else w.cache[key := Entry(Context(w.members[m].role, w.members[m].status, table(w.members[m].role)), Some(w.clock + 600000))]
  {
  }

  // ---- Agreement ----

  /** Memberships are keyed by UUIDs. */
  predicate WellKeyed(op: Op) {
    (op.Create? || op.CreateSilently? || op.Update? || op.Remove?) ==> IsId(op.m.userId) && IsId(op.m.orgId)
  }

  /** The invalidation after an update or a removal works. */
  predicate Reliable(op: Op) {
    (op.Update? ==> op.delOk) && (op.Remove? ==> op.keysOk && op.failing == {})
  }

  predicate Current(table: RoleTable, e: Entry<Context>, m: Membership) {
    e.value.role == m.role && e.value.permissions == table(m.role)
  }

  /** Every cached entry belongs to an existing membership and shows its role and that role's permissions. */
  ghost predicate Agreed(table: RoleTable, w: World) {
    && (forall m | m in w.members :: IsId(m.userId) && IsId(m.orgId))
    && forall k | k in w.cache :: exists m | m in w.members :: KeyOf(m) == k && Current(table, w.cache[k], w.members[m])
  }

  lemma RemoveKeepsAgreed(table: RoleTable, w: World, m: Member)
    requires Agreed(table, w) && m in w.members
    ensures Agreed(table, Apply(table, w, Remove(m, true, {})))
  {
    var n := Apply(table, w, Remove(m, true, {}));
    forall k | k in n.cache ensures exists x | x in n.members :: KeyOf(x) == k && Current(table, n.cache[k], n.members[x]) {
      var x :| x in w.members && KeyOf(x) == k && Current(table, w.cache[k], w.members[x]);
      GlobSelectsTheOrg(m.orgId, x);
      assert x in n.members;
    }
  }

  lemma ResolveKeepsAgreed(table: RoleTable, w: World, userId: string, orgId: string, getOk: bool, setOk: bool)
    requires Agreed(table, w)
    ensures Agreed(table, Apply(table, w, Resolve(userId, orgId, getOk, setOk)))
  {
    var n := Apply(table, w, Resolve(userId, orgId, getOk, setOk));
    forall k | k in n.cache ensures exists x | x in n.members :: KeyOf(x) == k && Current(table, n.cache[k], n.members[x]) {
      if k in w.cache && n.cache[k] == w.cache[k] {
        var x :| x in w.members && KeyOf(x) == k && Current(table, w.cache[k], w.members[x]);
        assert x in n.members;
      } else {
        assert Member(userId, orgId) in n.members && KeyOf(Member(userId, orgId)) == k;
      }
    }
  }

  /** Entries are only dropped, and each entry kept belongs to a membership whose role did not change. */
  ghost predicate OnlyDrops(w: World, n: World) {
    && (forall m | m in n.members :: IsId(m.userId) && IsId(m.orgId))
    && forall k | k in n.cache :: k in w.cache && n.cache[k] == w.cache[k]
         && forall m | m in w.members && KeyOf(m) == k :: m in n.members && n.members[m].role == w.members[m].role
  }

  lemma DropsKeepAgreed(table: RoleTable, w: World, n: World)
    requires Agreed(table, w) && OnlyDrops(w, n)
    ensures Agreed(table, n)
  {
    forall k | k in n.cache ensures exists x | x in n.members :: KeyOf(x) == k && Current(table, n.cache[k], n.members[x]) {
      var x :| x in w.members && KeyOf(x) == k && Current(table, w.cache[k], w.members[x]);
      assert x in n.members;
    }
  }

  lemma ApplyKeepsAgreed(table: RoleTable, w: World, op: Op)
    requires Agreed(table, w) && WellKeyed(op) && Reliable(op)
    ensures Agreed(table, Apply(table, w, op))
  {
    if op.Remove? && op.m in w.members {
      RemoveKeepsAgreed(table, w, op.m);
    } else if op.Resolve? {
      ResolveKeepsAgreed(table, w, op.userId, op.orgId, op.getOk, op.setOk);
    } else {
      DropsKeepAgreed(table, w, Apply(table, w, op));
    }
  }

  ghost function Run(table: RoleTable, w: World, ops: seq<Op>): World
    decreases ops
  {
    if ops == [] then w else Run(table, Apply(table, w, ops[0]), ops[1..])
  }

  lemma {:induction false} RunKeepsAgreed(table: RoleTable, w: World, ops: seq<Op>)
    requires Agreed(table, w) && forall op | op in ops :: WellKeyed(op) && Reliable(op)
    ensures Agreed(table, Run(table, w, ops))
    decreases ops
  {
    if ops != [] {
      assert ops[0] in ops && forall op | op in ops[1..] :: op in ops;
      ApplyKeepsAgreed(table, w, ops[0]);
      RunKeepsAgreed(table, Apply(table, w, ops[0]), ops[1..]);
    }
  }

  /**
   * From an empty cache, after any sequence of calls whose update and removal invalidations work, for any
   * two strings: the permissions and the role answered are the ones the membership table gives.
   */
  lemma AnswersMatchTheDatabase(table: RoleTable, w: World, ops: seq<Op>, userId: string, orgId: string, getOk: bool)
    requires w.cache == map[] && (forall m | m in w.members :: IsId(m.userId) && IsId(m.orgId))
    requires forall op | op in ops :: WellKeyed(op) && Reliable(op)
    ensures var n := Run(table, w, ops);
      var m := Member(userId, orgId);
      && Permissions(Answer(table, n, userId, orgId, getOk)) == (if m in n.members then table(n.members[m].role) else [])
      && RoleOf(Answer(table, n, userId, orgId, getOk)) == (if m in n.members then Some(n.members[m].role) else None)
  {
    RunKeepsAgreed(table, w, ops);
    var n := Run(table, w, ops);
    if CacheGet(n, userId, orgId, getOk).Some? {
      var m :| m in n.members && KeyOf(m) == Key(userId, orgId) && Current(table, n.cache[Key(userId, orgId)], n.members[m]);
      KeysIdentifyMembers(userId, orgId, m);
    }
  }

  lemma EntryOf(table: RoleTable, w: World, m: Member)
    requires Agreed(table, w) && KeyOf(m) in w.cache && m in w.members
    ensures Current(table, w.cache[KeyOf(m)], w.members[m])
  {
    var x :| x in w.members && KeyOf(x) == KeyOf(m) && Current(table, w.cache[KeyOf(m)], w.members[x]);
    KeysIdentifyMembers(m.userId, m.orgId, x);
  }

  /** After a role change a live entry answers in the old role exactly when its DEL failed. */
  lemma UpdateStaleIff(table: RoleTable, w: World, m: Member, role: Role, ok: bool)
    requires Agreed(table, w) && m in w.members && Alive(w.cache, KeyOf(m), w.clock)
    ensures var n := Apply(table, w, Update(m, role, ok));
      RoleOf(Answer(table, n, m.userId, m.orgId, true)) == Some(if ok then role else w.members[m].role)
  {
    EntryOf(table, w, m);
  }

  lemma OrgInvalidationDrops(w: World, m: Member, ok: bool, failing: set<string>)
    requires IsId(m.userId) && IsId(m.orgId)
    ensures var n := OrgInvalidated(w, m.orgId, ok, failing);
      && (KeyOf(m) in n.cache <==> KeyOf(m) in w.cache && !(ok && KeyOf(m) !in failing))
      && (KeyOf(m) in n.cache ==> n.cache[KeyOf(m)] == w.cache[KeyOf(m)])
  {
    GlobSelectsTheOrg(m.orgId, m);
  }

  /** After a removal a live entry still answers as before exactly when KEYS or its own DEL failed. */
  lemma RemoveStaleIff(table: RoleTable, w: World, m: Member, ok: bool, failing: set<string>)
    requires IsId(m.userId) && IsId(m.orgId) && m in w.members && Alive(w.cache, KeyOf(m), w.clock)
    ensures var n := Apply(table, w, Remove(m, ok, failing));
      Answer(table, n, m.userId, m.orgId, true) ==
        if ok && KeyOf(m) !in failing then None else Answer(table, w, m.userId, m.orgId, true)
  {
    var removed := w.(members := w.members - {m});
    OrgInvalidationDrops(removed, m, ok, failing);
    RemovedAnswers(table, removed, m, OrgInvalidated(removed, m.orgId, ok, failing));
  }

  lemma RemovedAnswers(table: RoleTable, w: World, m: Member, n: World)
    requires m !in w.members && n.members == w.members && n.clock == w.clock
    requires Alive(w.cache, KeyOf(m), w.clock) && (KeyOf(m) in n.cache ==> n.cache[KeyOf(m)] == w.cache[KeyOf(m)])
    ensures Answer(table, n, m.userId, m.orgId, true) == if KeyOf(m) in n.cache then Some(w.cache[KeyOf(m)].value) else None
  {
  }

  function StatusOf(c: Option<Context>): Option<Status> { if c.Some? then Some(c.value.status) else None }

  /**
   * The cached status is not kept in step. After an activation, the answer for a pair cached while INVITED
   * reads INVITED at `later` if and only if its entry is still alive and read then, and ACTIVE otherwise;
   * role and permissions are right either way.
   */
  lemma ActivationStaleIff(table: RoleTable, w: World, m: Member, later: int, getOk: bool)
    requires m in w.members && w.members[m].status == INVITED
    requires KeyOf(m) in w.cache && w.cache[KeyOf(m)].value == Resolved(table, w.members[m])
    ensures var n := Apply(table, w, Activate(m.userId)).(clock := later);
      var answer := Answer(table, n, m.userId, m.orgId, getOk);
      && m in n.members && n.members[m].status == ACTIVE
      && StatusOf(answer) == Some(if getOk && Alive(w.cache, KeyOf(m), later) then INVITED else ACTIVE)
      && RoleOf(answer) == Some(n.members[m].role) && Permissions(answer) == table(n.members[m].role)
  {
  }

  /** An entry filled just before the activation keeps the old status for exactly the cache's ten minutes. */
  lemma InvitedStatusLastsTheTtl(table: RoleTable, w: World, m: Member, later: int)
    requires m in w.members && w.members[m].status == INVITED && CacheGet(w, m.userId, m.orgId, true).None? && w.clock <= later
    ensures var n := Apply(table, Apply(table, w, Resolve(m.userId, m.orgId, true, true)), Activate(m.userId)).(clock := later);
      StatusOf(Answer(table, n, m.userId, m.orgId, true)) == Some(INVITED) <==> later < w.clock + 600000
  {
    ActivationStaleIff(table, Apply(table, w, Resolve(m.userId, m.orgId, true, true)), m, later, true);
  }
}
