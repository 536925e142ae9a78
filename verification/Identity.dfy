/**
 * Users, organisations and memberships over invitation, first login, direct creation, role changes and
 * removal. Calls run whole; the one place a call may stop half way is between the two writes of a relink.
 */
module Identity {
  import opened Foundations
  import opened Memberships

  datatype User = User(auth0Id: string, email: string)

  datatype Membership = Membership(userId: string, orgId: string, role: Role, status: Status)

  datatype World = World(users: map<string, User>, orgs: set<string>, memberships: map<string, Membership>)

  const PENDING_USER_PREFIX := "pending:"

  const PLACEHOLDER_DOMAIN := "@auth0.placeholder"

  predicate IsPending(u: User) { PENDING_USER_PREFIX <= u.auth0Id }

  predicate IsPlaceholder(email: string) {
    |PLACEHOLDER_DOMAIN| <= |email| && email[|email| - |PLACEHOLDER_DOMAIN|..] == PLACEHOLDER_DOMAIN
  }

  // ---- What the schema enforces ----

  predicate SameKey(a: User, b: User) { a.auth0Id == b.auth0Id || a.email == b.email }

  predicate SamePair(a: Membership, b: Membership) { a.userId == b.userId && a.orgId == b.orgId }

  ghost predicate Schema(w: World) {
    && (forall a, b | a in w.users && b in w.users && a != b :: !SameKey(w.users[a], w.users[b]))
    && (forall a, b | a in w.memberships && b in w.memberships && a != b :: !SamePair(w.memberships[a], w.memberships[b]))
    && (forall m | m in w.memberships :: w.memberships[m].userId in w.users && w.memberships[m].orgId in w.orgs)
  }

  /** Statements: None when a constraint refuses them. */
  function PutUser(w: World, id: string, u: User): Option<World> {
    if exists other | other in w.users :: other != id && SameKey(w.users[other], u) then None
    else Some(w.(users := w.users[id := u]))
  }

  function InsertMembership(w: World, id: string, m: Membership): Option<World> {
    if m.userId !in w.users || m.orgId !in w.orgs || exists other | other in w.memberships :: SamePair(w.memberships[other], m) then None
    else Some(w.(memberships := w.memberships[id := m]))
  }

  /** Deletes the user and, by cascade, any membership left. */
  function DeleteUser(w: World, id: string): World {
    w.(users := w.users - {id}, memberships := map m | m in w.memberships && w.memberships[m].userId != id :: w.memberships[m])
  }

  function Activated(w: World, userId: string): World {
    w.(memberships := map m | m in w.memberships ::
         if w.memberships[m].userId == userId && w.memberships[m].status == INVITED then w.memberships[m].(status := ACTIVE)
         else w.memberships[m])
  }

  ghost function FindByAuth0Id(w: World, auth0Id: string): (r: Option<string>)
    ensures r.Some? <==> exists u | u in w.users :: w.users[u].auth0Id == auth0Id
    ensures r.Some? ==> r.value in w.users && w.users[r.value].auth0Id == auth0Id
  {
    if u :| u in w.users && w.users[u].auth0Id == auth0Id then Some(u) else None
  }

  ghost function FindByEmail(w: World, email: string): (r: Option<string>)
    ensures r.Some? <==> exists u | u in w.users :: w.users[u].email == email
    ensures r.Some? ==> r.value in w.users && w.users[r.value].email == email
  {
    if u :| u in w.users && w.users[u].email == email then Some(u) else None
  }

  predicate MemberOf(w: World, userId: string, orgId: string) {
    exists m | m in w.memberships :: w.memberships[m].userId == userId && w.memberships[m].orgId == orgId
  }

  predicate HasMemberships(w: World, userId: string) { exists m | m in w.memberships :: w.memberships[m].userId == userId }

  predicate CountsAsSeat(m: Membership, orgId: string) { m.orgId == orgId && m.status in {ACTIVE, INVITED} }

  function Seats(w: World, orgId: string): nat { |set m | m in w.memberships && CountsAsSeat(w.memberships[m], orgId)| }

  // ---- Calls ----

  datatype Outcome = Done | NotFound | Conflict | SeatLimitReached | DatabaseError | Stopped

  /** `maxSeats` is None when no seat-limit provider is configured. */
  function CreateMembership(w: World, id: string, m: Membership, maxSeats: Option<int>): (World, Outcome) {
    if maxSeats.Some? && Seats(w, m.orgId) >= maxSeats.value then (w, SeatLimitReached)
    else
      var inserted := InsertMembership(w, id, m);
      if inserted.Some? then (inserted.value, Done) else (w, DatabaseError)
  }

  /** The ids a call may generate. */
  datatype Ids = Ids(user: string, org: string, membership: string, uuid: string)

  /** A new address gets a pending user first, which stays even when a later check refuses the invitation. */
  ghost function Invite(w: World, email: string, role: Role, orgId: string, ids: Ids, maxSeats: Option<int>): (World, Outcome) {
    if orgId !in w.orgs then (w, NotFound)
    else
      var found := FindByEmail(w, email);
      var created := if found.Some? then Some(w) else PutUser(w, ids.user, User(PENDING_USER_PREFIX + ids.uuid, email));
      if created.None? then (w, DatabaseError)
      else
        var v := created.value;
        var user := found.GetOr(ids.user);
        if MemberOf(v, user, orgId) then (v, Conflict)
        else
          var status := if IsPending(v.users[user]) then INVITED else ACTIVE;
          CreateMembership(v, ids.membership, Membership(user, orgId, role, status), maxSeats)
  }

  /** `resolved` is the provider's address for a placeholder, when it answers; `stops` cuts a relink after its first write. */
  ghost function SyncUser(w: World, auth0Id: string, email: string, resolved: Option<string>, ids: Ids, stops: bool): (World, Outcome) {
    var existing := FindByAuth0Id(w, auth0Id);
    if existing.Some? then
      if w.users[existing.value].email != email && !IsPlaceholder(email) then
        var updated := PutUser(w, existing.value, User(auth0Id, email));
        if updated.Some? then (updated.value, Done) else (w, DatabaseError)
      else (w, Done)
    else
      var address := Address(email, resolved);
      var byEmail := FindByEmail(w, address);
      if byEmail.Some? then
        var relinked := PutUser(w, byEmail.value, User(auth0Id, address));
        if relinked.None? then (w, DatabaseError)
        else if !IsPending(w.users[byEmail.value]) then (relinked.value, Done)
        else if stops then (relinked.value, Stopped)
        else (Activated(relinked.value, byEmail.value), Done)
      else Provision(w, auth0Id, address, ids)
  }

  /** One transaction: the user, a personal organisation, and its OWNER membership. */
  function Provision(w: World, auth0Id: string, email: string, ids: Ids): (World, Outcome) {
    var user := PutUser(w, ids.user, User(auth0Id, email));
    if user.None? then (w, DatabaseError)
    else
      var owner := InsertMembership(user.value.(orgs := w.orgs + {ids.org}), ids.membership, Membership(ids.user, ids.org, OWNER, ACTIVE));
      if owner.None? then (w, DatabaseError) else (owner.value, Done)
  }

  function CreateOrganization(w: World, userId: string, ids: Ids): (World, Outcome) {
    var owner := InsertMembership(w.(orgs := w.orgs + {ids.org}), ids.membership, Membership(userId, ids.org, OWNER, ACTIVE));
    if owner.None? then (w, DatabaseError) else (owner.value, Done)
  }

  function UpdateRole(w: World, id: string, orgId: string, role: Role): (World, Outcome) {
    if id !in w.memberships || w.memberships[id].orgId != orgId then (w, NotFound)
    else (w.(memberships := w.memberships[id := w.memberships[id].(role := role)]), Done)
  }

  /** A user left without memberships is deleted too, unless the call stops first; deleting the provider's account is best effort. */
  function Remove(w: World, id: string, orgId: string, stops: bool): (World, Outcome) {
    if id !in w.memberships || w.memberships[id].orgId != orgId then (w, NotFound)
    else
      var user := w.memberships[id].userId;
      var v := w.(memberships := w.memberships - {id});
      if stops then (v, Stopped)
      else if HasMemberships(v, user) || user !in v.users then (v, Done)
      else (DeleteUser(v, user), Done)
  }

  datatype Op =
    | Invitation(email: string, role: Role, orgId: string, ids: Ids, maxSeats: Option<int>)
    | Login(auth0Id: string, email: string, resolved: Option<string>, ids: Ids, stops: bool)
    | NewOrganization(userId: string, ids: Ids)
    | DirectMember(userId: string, orgId: string, role: Role, ids: Ids, maxSeats: Option<int>)
    | RoleChange(id: string, orgId: string, role: Role)
    | Removal(id: string, orgId: string, stops: bool)

  /** Generated ids are new. */
  predicate Fresh(w: World, op: Op) {
    (op.Invitation? || op.Login? || op.NewOrganization? || op.DirectMember?) ==>
      op.ids.user !in w.users && op.ids.org !in w.orgs && op.ids.membership !in w.memberships
  }

  ghost function Apply(w: World, op: Op): World {
    match op
    case Invitation(email, role, orgId, ids, maxSeats) => Invite(w, email, role, orgId, ids, maxSeats).0
    case Login(auth0Id, email, resolved, ids, stops) => SyncUser(w, auth0Id, email, resolved, ids, stops).0
    case NewOrganization(userId, ids) => CreateOrganization(w, userId, ids).0
    case DirectMember(userId, orgId, role, ids, maxSeats) =>
      CreateMembership(w, ids.membership, Membership(userId, orgId, role, ACTIVE), maxSeats).0
    case RoleChange(id, orgId, role) => UpdateRole(w, id, orgId, role).0
    case Removal(id, orgId, stops) => Remove(w, id, orgId, stops).0
  }

  // ---- Invariants ----

  /** Every INVITED membership belongs to a user who has not logged in yet. */
  ghost predicate InvitedArePending(w: World) {
    forall m | m in w.memberships && w.memberships[m].status == INVITED ::
      w.memberships[m].userId in w.users && IsPending(w.users[w.memberships[m].userId])
  }

  ghost predicate Valid(w: World) { Schema(w) && InvitedArePending(w) }

  ghost predicate Keeps(w: World, n: World) { Schema(n) && (InvitedArePending(w) ==> InvitedArePending(n)) }

  lemma PutUserKeepsSchema(w: World, id: string, u: User)
    requires Schema(w) && PutUser(w, id, u).Some?
    ensures Schema(PutUser(w, id, u).value)
  {
    var n := PutUser(w, id, u).value;
    forall a, b | a in n.users && b in n.users && a != b ensures !SameKey(n.users[a], n.users[b]) {
      assert a in w.users && a != id ==> !SameKey(w.users[a], u);
      assert b in w.users && b != id ==> !SameKey(w.users[b], u);
    }
  }

  /** An insert or an update that does not take a pending user's mark away. */
  lemma PutUserKeepsValid(w: World, id: string, u: User)
    requires Schema(w) && PutUser(w, id, u).Some? && (id in w.users && IsPending(w.users[id]) ==> IsPending(u))
    ensures Keeps(w, PutUser(w, id, u).value)
  {
    PutUserKeepsSchema(w, id, u);
  }

  lemma CreateKeepsValid(w: World, id: string, m: Membership, maxSeats: Option<int>)
    requires Schema(w) && id !in w.memberships
    requires m.status == INVITED && m.userId in w.users ==> IsPending(w.users[m.userId])
    ensures Keeps(w, CreateMembership(w, id, m, maxSeats).0)
  {
    var n := CreateMembership(w, id, m, maxSeats).0;
    forall a, b | a in n.memberships && b in n.memberships && a != b ensures !SamePair(n.memberships[a], n.memberships[b]) {
      assert n != w && a in w.memberships && a != id ==> !SamePair(w.memberships[a], m);
      assert n != w && b in w.memberships && b != id ==> !SamePair(w.memberships[b], m);
    }
  }

  lemma InviteKeepsValid(w: World, email: string, role: Role, orgId: string, ids: Ids, maxSeats: Option<int>)
    requires Schema(w) && ids.user !in w.users && ids.membership !in w.memberships
    ensures Keeps(w, Invite(w, email, role, orgId, ids, maxSeats).0)
  {
    var u := User(PENDING_USER_PREFIX + ids.uuid, email);
    var found := FindByEmail(w, email);
    if found.None? && PutUser(w, ids.user, u).Some? {
      PutUserKeepsValid(w, ids.user, u);
    }
    var created := if found.Some? then Some(w) else PutUser(w, ids.user, u);
    if created.Some? {
      var v := created.value;
      var user := found.GetOr(ids.user);
      CreateKeepsValid(v, ids.membership, Membership(user, orgId, role, if IsPending(v.users[user]) then INVITED else ACTIVE), maxSeats);
    }
  }

  function Address(email: string, resolved: Option<string>): string {
    if IsPlaceholder(email) then resolved.GetOr(email) else email
  }

  /** A relink of an invited user to a provider's account that stops between its two writes. */
  ghost predicate LeavesInvitations(w: World, op: Op)
    requires op.Login?
  {
    var user := FindByEmail(w, Address(op.email, op.resolved));
    && op.stops && !(PENDING_USER_PREFIX <= op.auth0Id)
    && FindByAuth0Id(w, op.auth0Id).None? && user.Some? && IsPending(w.users[user.value])
    && exists m | m in w.memberships :: w.memberships[m].userId == user.value && w.memberships[m].status == INVITED
  }

  /** Linking the account: the user keeps its row, the keys stay unique, and its invitations are then activated. */
  lemma RelinkInvariants(w: World, id: string, u: User)
    requires Schema(w) && id in w.users && PutUser(w, id, u).Some?
    ensures var v := PutUser(w, id, u).value;
      && Schema(v) && Keeps(w, Activated(v, id))
      && (InvitedArePending(w) ==> (InvitedArePending(v) <==>
            IsPending(u) || forall m | m in w.memberships && w.memberships[m].userId == id :: w.memberships[m].status != INVITED))
  {
    PutUserKeepsSchema(w, id, u);
    var v := PutUser(w, id, u).value;
    var n := Activated(v, id);
    forall a, b | a in n.memberships && b in n.memberships && a != b ensures !SamePair(n.memberships[a], n.memberships[b]) {
      assert !SamePair(v.memberships[a], v.memberships[b]);
    }
  }

  lemma ProvisionKeepsValid(w: World, auth0Id: string, email: string, ids: Ids)
    requires Schema(w) && ids.user !in w.users && ids.org !in w.orgs && ids.membership !in w.memberships
    ensures Keeps(w, Provision(w, auth0Id, email, ids).0)
  {
    var u := User(auth0Id, email);
    if PutUser(w, ids.user, u).Some? {
      PutUserKeepsValid(w, ids.user, u);
      var v := PutUser(w, ids.user, u).value.(orgs := w.orgs + {ids.org});
      CreateKeepsValid(v, ids.membership, Membership(ids.user, ids.org, OWNER, ACTIVE), None);
    }
  }

  /** A login keeps the keys unique, and keeps the invited members pending except exactly when it stops half way through linking one. */
  lemma LoginKeepsValidIff(w: World, op: Op)
    requires Schema(w) && Fresh(w, op) && op.Login?
    ensures Schema(Apply(w, op))
    ensures InvitedArePending(w) ==> (InvitedArePending(Apply(w, op)) <==> !LeavesInvitations(w, op))
  {
    var existing := FindByAuth0Id(w, op.auth0Id);
    if existing.Some? {
      var u := User(op.auth0Id, op.email);
      if PutUser(w, existing.value, u).Some? {
        PutUserKeepsValid(w, existing.value, u);
      }
    } else {
      var address := Address(op.email, op.resolved);
      var byEmail := FindByEmail(w, address);
      if byEmail.Some? {
        if PutUser(w, byEmail.value, User(op.auth0Id, address)).Some? {
          RelinkInvariants(w, byEmail.value, User(op.auth0Id, address));
        } else {
          NoClash(w, byEmail.value, op.auth0Id, address);
        }
      } else {
        ProvisionKeepsValid(w, op.auth0Id, address, op.ids);
      }
    }
  }

  /** An unknown account can always be linked to the user who has the address. */
  lemma NoClash(w: World, id: string, auth0Id: string, email: string)
    requires Schema(w) && id in w.users && w.users[id].email == email && FindByAuth0Id(w, auth0Id).None?
    ensures PutUser(w, id, User(auth0Id, email)).Some?
  {
    forall other | other in w.users && other != id ensures !SameKey(w.users[other], User(auth0Id, email)) {
      assert !SameKey(w.users[other], w.users[id]);
    }
  }

  lemma ApplyKeepsValid(w: World, op: Op)
    requires Schema(w) && Fresh(w, op)
    ensures Schema(Apply(w, op))
    ensures InvitedArePending(w) && (op.Login? ==> !op.stops) ==> InvitedArePending(Apply(w, op))
  {
    match op
    case Invitation(email, role, orgId, ids, maxSeats) => InviteKeepsValid(w, email, role, orgId, ids, maxSeats);
    case Login(_, _, _, _, _) => LoginKeepsValidIff(w, op);
    case NewOrganization(userId, ids) =>
      CreateKeepsValid(w.(orgs := w.orgs + {ids.org}), ids.membership, Membership(userId, ids.org, OWNER, ACTIVE), None);
    case DirectMember(userId, orgId, role, ids, maxSeats) =>
      CreateKeepsValid(w, ids.membership, Membership(userId, orgId, role, ACTIVE), maxSeats);
    case RoleChange(id, orgId, role) => RoleChangeKeepsValid(w, id, orgId, role);
    case Removal(_, _, _) =>
  }

  lemma RoleChangeKeepsValid(w: World, id: string, orgId: string, role: Role)
    requires Schema(w)
    ensures Keeps(w, UpdateRole(w, id, orgId, role).0)
  {
    var n := UpdateRole(w, id, orgId, role).0;
    forall a, b | a in n.memberships && b in n.memberships && a != b ensures !SamePair(n.memberships[a], n.memberships[b]) {
      assert !SamePair(w.memberships[a], w.memberships[b]);
    }
  }

  ghost predicate Possible(w: World, ops: seq<Op>)
    decreases ops
  {
    ops == [] || (Fresh(w, ops[0]) && Possible(Apply(w, ops[0]), ops[1..]))
  }

  ghost function Run(w: World, ops: seq<Op>): World
    requires Possible(w, ops)
    decreases ops
  {
    if ops == [] then w else Run(Apply(w, ops[0]), ops[1..])
  }

  /**
   * From any valid state, over every run in which no relink stops half way (a removal may): addresses and provider
   * accounts stay unique, a user has at most one membership per organisation, and every INVITED
   * membership belongs to a user who has not logged in.
   */
  lemma {:induction false} RunKeepsValid(w: World, ops: seq<Op>)
    requires Valid(w) && Possible(w, ops) && forall op | op in ops :: op.Login? ==> !op.stops
    ensures Valid(Run(w, ops))
    decreases ops
  {
    if ops != [] {
      assert ops[0] in ops && forall op | op in ops[1..] :: op in ops;
      ApplyKeepsValid(w, ops[0]);
      RunKeepsValid(Apply(w, ops[0]), ops[1..]);
    }
  }

  /** Stopped relinks included, the keys stay unique and no membership loses its user or organisation. */
  lemma {:induction false} RunKeepsSchema(w: World, ops: seq<Op>)
    requires Schema(w) && Possible(w, ops)
    ensures Schema(Run(w, ops))
    decreases ops
  {
    if ops != [] {
      ApplyKeepsValid(w, ops[0]);
      RunKeepsSchema(Apply(w, ops[0]), ops[1..]);
    }
  }

  /** A user disappears only by a removal of that user's last membership. */
  lemma UsersLeaveWithTheirLastMembership(w: World, op: Op, user: string)
    requires Schema(w) && Fresh(w, op) && user in w.users && user !in Apply(w, op).users
    ensures op.Removal? && op.id in w.memberships && w.memberships[op.id].userId == user && w.memberships[op.id].orgId == op.orgId
    ensures forall m | m in w.memberships && w.memberships[m].userId == user :: m == op.id
    ensures Apply(w, op).memberships == w.memberships - {op.id}
  {
    if op.Removal? {
      LastMembership(w, op.id, op.orgId, op.stops, user);
    } else {
      OnlyRemovalsDropUsers(w, op);
    }
  }

  lemma OnlyRemovalsDropUsers(w: World, op: Op)
    requires !op.Removal?
    ensures w.users.Keys <= Apply(w, op).users.Keys
  {
  }

  lemma LastMembership(w: World, id: string, orgId: string, stops: bool, user: string)
    requires user in w.users && user !in Remove(w, id, orgId, stops).0.users
    ensures id in w.memberships && w.memberships[id].userId == user && w.memberships[id].orgId == orgId
    ensures forall m | m in w.memberships && w.memberships[m].userId == user :: m == id
    ensures Remove(w, id, orgId, stops).0.memberships == w.memberships - {id}
  {
    var v := w.(memberships := w.memberships - {id});
    forall m | m in w.memberships && w.memberships[m].userId == user ensures m == id {
      assert m in v.memberships ==> HasMemberships(v, user);
    }
  }

  /** A removal takes away exactly the named membership, and its user exactly when that was the last one and the call got that far. */
  lemma RemovalRemovesOne(w: World, id: string, orgId: string, stops: bool)
    requires Schema(w)
    ensures id !in w.memberships || w.memberships[id].orgId != orgId ==> Remove(w, id, orgId, stops) == (w, NotFound)
    ensures id in w.memberships && w.memberships[id].orgId == orgId ==>
      var n := Remove(w, id, orgId, stops).0;
      var user := w.memberships[id].userId;
      && n.memberships == w.memberships - {id} && n.orgs == w.orgs
      && n.users == (if stops || exists m | m in w.memberships :: m != id && w.memberships[m].userId == user then w.users else w.users - {user})
  {
    if id in w.memberships {
      var user := w.memberships[id].userId;
      var v := w.(memberships := w.memberships - {id});
      if m :| m in w.memberships && m != id && w.memberships[m].userId == user {
        assert m in v.memberships;
      }
    }
  }

  /** The user an invitation is for, once the address has one. */
  ghost predicate InvitedAs(n: World, email: string, user: string) { user in n.users && n.users[user].email == email }

  predicate SeatFree(w: World, orgId: string, maxSeats: Option<int>) { maxSeats.Some? ==> Seats(w, orgId) < maxSeats.value }

  predicate HasMemberWith(w: World, email: string, orgId: string) {
    exists m | m in w.memberships :: w.memberships[m].orgId == orgId && w.memberships[m].userId in w.users && w.users[w.memberships[m].userId].email == email
  }

  /** `user` becomes a member in the given role, INVITED exactly when it has not logged in. */
  predicate Admits(w: World, n: World, user: string, role: Role, orgId: string, id: string) {
    && user in n.users
    && n.memberships == w.memberships[id := Membership(user, orgId, role, if "pending:" <= n.users[user].auth0Id then INVITED else ACTIVE)]
  }

  lemma InviteKnown(w: World, email: string, role: Role, orgId: string, ids: Ids, maxSeats: Option<int>, user: string)
    requires Schema(w) && FindByEmail(w, email) == Some(user)
    ensures var (n, r) := Invite(w, email, role, orgId, ids, maxSeats);
      && (r == Done <==> orgId in w.orgs && SeatFree(w, orgId, maxSeats) && !HasMemberWith(w, email, orgId))
      && (if r == Done then Admits(w, n, user, role, orgId, ids.membership) else n == w)
      && n.users == w.users
  {
    MembershipOfAddress(w, email, user, orgId);
    if orgId in w.orgs && !MemberOf(w, user, orgId) {
      InsertAccepts(w, ids.membership, user, orgId);
    }
  }

  lemma InviteNew(w: World, email: string, role: Role, orgId: string, ids: Ids, maxSeats: Option<int>)
    requires Schema(w) && FindByEmail(w, email).None? && ids.user !in w.users
    ensures var u := User(PENDING_USER_PREFIX + ids.uuid, email);
      var (n, r) := Invite(w, email, role, orgId, ids, maxSeats);
      && !HasMemberWith(w, email, orgId)
      && (r == Done <==> orgId in w.orgs && SeatFree(w, orgId, maxSeats) && FindByAuth0Id(w, u.auth0Id).None?)
      && (if r == Done then Admits(w, n, ids.user, role, orgId, ids.membership) else n.memberships == w.memberships)
      && n.users == if orgId in w.orgs && FindByAuth0Id(w, u.auth0Id).None? then w.users[ids.user := u] else w.users
  {
    var u := User(PENDING_USER_PREFIX + ids.uuid, email);
    var created := PutUser(w, ids.user, u);
    assert created.Some? <==> FindByAuth0Id(w, u.auth0Id).None?;
    if created.Some? {
      var v := created.value;
      assert !MemberOf(v, ids.user, orgId);
      if orgId in w.orgs {
        InsertAccepts(v, ids.membership, ids.user, orgId);
      }
    }
  }

  /**
   * An invitation succeeds exactly when the organisation exists, a seat is free, the address has no
   * member there and, for a new address, the pending account can be stored. It then adds one membership,
   * in the given role, INVITED exactly when the user has not logged in; otherwise no membership changes.
   * Only a new address adds a user, and the answer names the reason of a refusal.
   */
  lemma InvitationAddsOneIff(w: World, email: string, role: Role, orgId: string, ids: Ids, maxSeats: Option<int>) returns (user: string)
    requires Schema(w) && ids.user !in w.users
    ensures var (n, r) := Invite(w, email, role, orgId, ids, maxSeats);
      && (r == Done <==>
            && orgId in w.orgs && SeatFree(w, orgId, maxSeats) && !HasMemberWith(w, email, orgId)
            && (FindByEmail(w, email).None? ==> FindByAuth0Id(w, "pending:" + ids.uuid).None?))
      && (if r == Done then Admits(w, n, user, role, orgId, ids.membership) && InvitedAs(n, email, user) else n.memberships == w.memberships)
      && n.users == (if orgId !in w.orgs || FindByEmail(w, email).Some? || FindByAuth0Id(w, "pending:" + ids.uuid).Some? then w.users
                     else w.users[ids.user := User("pending:" + ids.uuid, email)])
      && (r == NotFound <==> orgId !in w.orgs)
      && (r == Conflict <==> orgId in w.orgs && HasMemberWith(w, email, orgId))
      && (r == SeatLimitReached ==> !SeatFree(w, orgId, maxSeats))
  {
    var found := FindByEmail(w, email);
    user := found.GetOr(ids.user);
    if found.Some? {
      InviteKnown(w, email, role, orgId, ids, maxSeats, user);
    } else {
      InviteNew(w, email, role, orgId, ids, maxSeats);
    }
  }

  // ---- What the other calls write ----

  /** A direct member is ACTIVE in the given role; a seat is free while the ACTIVE and INVITED members are fewer than the limit. */
  lemma DirectMemberAddsOneIff(w: World, user: string, orgId: string, role: Role, ids: Ids, maxSeats: Option<int>)
    requires Schema(w) && ids.membership !in w.memberships
    ensures var taken := |set m | m in w.memberships && w.memberships[m].orgId == orgId
                                  && (w.memberships[m].status == ACTIVE || w.memberships[m].status == INVITED)|;
      var n := Apply(w, DirectMember(user, orgId, role, ids, maxSeats));
      && taken == Seats(w, orgId) && (SeatFree(w, orgId, maxSeats) <==> maxSeats.None? || taken < maxSeats.value)
      && n == if SeatFree(w, orgId, maxSeats) && user in w.users && orgId in w.orgs
                 && (forall m | m in w.memberships :: w.memberships[m].userId != user || w.memberships[m].orgId != orgId)
              then w.(memberships := w.memberships[ids.membership := Membership(user, orgId, role, ACTIVE)])
              else w
  {
    assert (set m | m in w.memberships && w.memberships[m].orgId == orgId
                    && (w.memberships[m].status == ACTIVE || w.memberships[m].status == INVITED))
        == (set m | m in w.memberships && CountsAsSeat(w.memberships[m], orgId));
  }

  /** Whoever creates an organisation becomes its OWNER at once. */
  lemma FoundersOwn(w: World, user: string, ids: Ids)
    requires Schema(w) && ids.org !in w.orgs && ids.membership !in w.memberships
    ensures Apply(w, NewOrganization(user, ids)) ==
      if user in w.users then
        w.(orgs := w.orgs + {ids.org}, memberships := w.memberships[ids.membership := Membership(user, ids.org, OWNER, ACTIVE)])
      else w
  {
    forall m | m in w.memberships ensures w.memberships[m].orgId != ids.org {
    }
  }

  /** A role change writes the role of that organisation's membership and nothing else. */
  lemma RoleChanges(w: World, id: string, orgId: string, role: Role)
    ensures var (n, r) := UpdateRole(w, id, orgId, role);
      var m := if id in w.memberships then w.memberships[id] else Membership("", orgId, role, ACTIVE);
      if id in w.memberships && m.orgId == orgId then
        r == Done && n == w.(memberships := w.memberships[id := Membership(m.userId, orgId, role, m.status)])
      else r == NotFound && n == w
  {
  }

  lemma PlaceholderMeans(email: string, name: string)
    ensures IsPlaceholder(name + "@auth0.placeholder")
    ensures IsPlaceholder(email) ==> |email| >= 18 && email == email[..|email| - 18] + "@auth0.placeholder"
  {
    var address := name + "@auth0.placeholder";
    assert address[|name|..] == "@auth0.placeholder";
  }

  /** The address a login counts as: the provider's, when the given one is a placeholder and the provider answers. */
  lemma AddressMeans(email: string, resolved: Option<string>, name: string)
    ensures Address(email, resolved) != email ==>
              |email| >= 18 && email[|email| - 18..] == "@auth0.placeholder" && resolved == Some(Address(email, resolved))
    ensures email == name + "@auth0.placeholder" && resolved.Some? ==> Address(email, resolved) == resolved.value
  {
    PlaceholderMeans(email, name);
  }

  /** A known account: at most its own address changes, to a real one nobody else has. */
  lemma KnownAccountLogin(w: World, op: Op, user: string)
    requires Schema(w) && op.Login? && user in w.users && w.users[user].auth0Id == op.auth0Id
    ensures Apply(w, op) ==
      if IsPlaceholder(op.email) || exists other | other in w.users :: other != user && w.users[other].email == op.email then w
      else w.(users := w.users[user := User(op.auth0Id, op.email)])
  {
    var existing := FindByAuth0Id(w, op.auth0Id);
    assert existing.value != user ==> !SameKey(w.users[existing.value], w.users[user]);
    var u := User(op.auth0Id, op.email);
    forall other | other in w.users && other != user ensures SameKey(w.users[other], u) <==> w.users[other].email == op.email {
      assert !SameKey(w.users[other], w.users[user]);
    }
    if w.users[user].email == op.email {
      assert w.users[user := u] == w.users;
    }
  }

  /** An unknown account whose address has a user who has logged in before: that user's account is replaced, nothing else. */
  lemma RelinkedAccount(w: World, op: Op, user: string)
    requires Schema(w) && Fresh(w, op) && op.Login? && FindByAuth0Id(w, op.auth0Id).None?
    requires user in w.users && w.users[user].email == Address(op.email, op.resolved) && (op.stops || !("pending:" <= w.users[user].auth0Id))
    ensures Apply(w, op) == w.(users := w.users[user := User(op.auth0Id, Address(op.email, op.resolved))])
  {
    var address := Address(op.email, op.resolved);
    var found := FindByEmail(w, address);
    assert found.value != user ==> !SameKey(w.users[found.value], w.users[user]);
    NoClash(w, user, op.auth0Id, address);
  }

  /** An unknown account and address: a user, an organisation, and this user as its OWNER. */
  lemma NewAccountIsProvisioned(w: World, op: Op)
    requires Schema(w) && Fresh(w, op) && op.Login? && FindByAuth0Id(w, op.auth0Id).None?
    requires FindByEmail(w, Address(op.email, op.resolved)).None?
    ensures Apply(w, op) == World(
      w.users[op.ids.user := User(op.auth0Id, Address(op.email, op.resolved))],
      w.orgs + {op.ids.org},
      w.memberships[op.ids.membership := Membership(op.ids.user, op.ids.org, OWNER, ACTIVE)])
  {
    var address := Address(op.email, op.resolved);
    var v := PutUser(w, op.ids.user, User(op.auth0Id, address));
    assert v.Some?;
    forall m | m in w.memberships ensures w.memberships[m].orgId != op.ids.org {
    }
  }

  /** The address has one user, so a member with the address is that user. */
  lemma MembershipOfAddress(w: World, email: string, user: string, orgId: string)
    requires Schema(w) && InvitedAs(w, email, user)
    ensures MemberOf(w, user, orgId) <==> HasMemberWith(w, email, orgId)
  {
    forall m | m in w.memberships && InvitedAs(w, email, w.memberships[m].userId) ensures w.memberships[m].userId == user {
      assert w.memberships[m].userId != user ==> !SameKey(w.users[w.memberships[m].userId], w.users[user]);
    }
  }

  lemma InsertAccepts(w: World, id: string, user: string, orgId: string)
    requires user in w.users && orgId in w.orgs && !MemberOf(w, user, orgId)
    ensures forall role, status :: InsertMembership(w, id, Membership(user, orgId, role, status)).Some?
  {
  }

  /** Linking an invited user's account activates all and only that user's invitations. */
  lemma LinkingActivatesInvitations(w: World, op: Op)
    requires Schema(w) && Fresh(w, op) && op.Login? && !op.stops && FindByAuth0Id(w, op.auth0Id).None?
    requires var user := FindByEmail(w, Address(op.email, op.resolved)); user.Some? && IsPending(w.users[user.value])
    ensures var user := FindByEmail(w, Address(op.email, op.resolved)).value;
      var n := Apply(w, op);
      && n.users == w.users[user := User(op.auth0Id, Address(op.email, op.resolved))] && n.orgs == w.orgs
      && n.memberships.Keys == w.memberships.Keys
      && forall m | m in w.memberships ::
           n.memberships[m] == if w.memberships[m].userId == user && w.memberships[m].status == INVITED
                               then w.memberships[m].(status := ACTIVE) else w.memberships[m]
  {
    NoClash(w, FindByEmail(w, Address(op.email, op.resolved)).value, op.auth0Id, Address(op.email, op.resolved));
  }

  /**
   * A removal that stops first leaves its user behind, without memberships exactly when this was the last
   * one; asking for the removal again finds nothing to remove and does not clean the user up.
   */
  lemma StoppedRemovalOrphansIff(w: World, id: string, orgId: string)
    requires Schema(w) && id in w.memberships && w.memberships[id].orgId == orgId
    ensures var n := Remove(w, id, orgId, true).0;
      var user := w.memberships[id].userId;
      && user in n.users
      && (HasMemberships(n, user) <==> exists m | m in w.memberships :: m != id && w.memberships[m].userId == user)
      && Remove(n, id, orgId, false) == (n, NotFound)
  {
    var n := Remove(w, id, orgId, true).0;
    var user := w.memberships[id].userId;
    if m :| m in w.memberships && m != id && w.memberships[m].userId == user {
      assert m in n.memberships;
    }
  }

  /** After a login the account belongs to a user whose address is the one given, a placeholder aside, or cannot be changed to it. */
  predicate SyncedAs(w: World, user: string, auth0Id: string, email: string) {
    && user in w.users && w.users[user].auth0Id == auth0Id
    && (w.users[user].email == email || IsPlaceholder(email) || PutUser(w, user, User(auth0Id, email)).None?)
  }

  lemma LoginSyncs(w: World, op: Op) returns (user: string)
    requires Schema(w) && Fresh(w, op) && op.Login?
    ensures SyncedAs(Apply(w, op), user, op.auth0Id, op.email)
  {
    var existing := FindByAuth0Id(w, op.auth0Id);
    var address := Address(op.email, op.resolved);
    var byEmail := FindByEmail(w, address);
    if existing.Some? {
      user := existing.value;
    } else if byEmail.Some? {
      user := byEmail.value;
      NoClash(w, user, op.auth0Id, address);
    } else {
      user := op.ids.user;
    }
  }

  lemma LoginWhenSynced(w: World, op: Op, user: string)
    requires Schema(w) && op.Login? && SyncedAs(w, user, op.auth0Id, op.email)
    ensures Apply(w, op) == w
  {
    var existing := FindByAuth0Id(w, op.auth0Id);
    assert existing.Some?;
    assert existing.value != user ==> !SameKey(w.users[existing.value], w.users[user]);
  }

  /** Logging in again with the same arguments changes nothing, whatever the provider answers the second time. */
  lemma SyncTwiceIsOnce(w: World, op: Op, again: Op)
    requires Schema(w) && Fresh(w, op) && op.Login?
    requires again.Login? && again.auth0Id == op.auth0Id && again.email == op.email
    ensures Apply(Apply(w, op), again) == Apply(w, op)
  {
    LoginKeepsValidIff(w, op);
    var user := LoginSyncs(w, op);
    LoginWhenSynced(Apply(w, op), again, user);
  }

  /** So after a relink that stopped half way, the same login never activates the invitations. */
  lemma StoppedRelinkStaysInvited(w: World, op: Op, again: Op)
    requires Valid(w) && Fresh(w, op) && op.Login? && LeavesInvitations(w, op)
    requires again.Login? && again.auth0Id == op.auth0Id && again.email == op.email
    ensures Apply(Apply(w, op), again).memberships == w.memberships && !InvitedArePending(Apply(Apply(w, op), again))
  {
    LoginKeepsValidIff(w, op);
    SyncTwiceIsOnce(w, op, again);
    var user := FindByEmail(w, Address(op.email, op.resolved)).value;
    NoClash(w, user, op.auth0Id, Address(op.email, op.resolved));
  }
}
