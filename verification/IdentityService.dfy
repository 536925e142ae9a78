/** The repositories and services of the identity lifecycle, over one database. */
module IdentityService {
  import opened Foundations
  import opened Identity
  import opened Memberships

  class Database {
    var users: map<string, User>
    var orgs: set<string>
    var memberships: map<string, Membership>

    constructor (w: World)
      ensures Stored() == w
    {
      users := w.users;
      orgs := w.orgs;
      memberships := w.memberships;
    }

    function Stored(): World
      reads this
    {
      World(users, orgs, memberships)
    }

    method FindUserByAuth0Id(auth0Id: string) returns (r: Option<string>)
      requires Schema(Stored())
      ensures r == FindByAuth0Id(Stored(), auth0Id)
    {
      if exists u :: u in users && users[u].auth0Id == auth0Id {
        var u :| u in users && users[u].auth0Id == auth0Id;
        r := Some(u);
      } else {
        r := None;
      }
    }

    method FindUserByEmail(email: string) returns (r: Option<string>)
      requires Schema(Stored())
      ensures r == FindByEmail(Stored(), email)
    {
      if exists u :: u in users && users[u].email == email {
        var u :| u in users && users[u].email == email;
        r := Some(u);
      } else {
        r := None;
      }
    }

    /** INSERT or UPDATE of a user row; the unique columns may refuse it. */
    method PutUser(id: string, u: User) returns (ok: bool)
      modifies this`users
      ensures ok <==> Identity.PutUser(old(Stored()), id, u).Some?
      ensures Stored() == Identity.PutUser(old(Stored()), id, u).GetOr(old(Stored()))
    {
      ok := !(exists other :: other in users && other != id && SameKey(users[other], u));
      if ok {
        users := users[id := u];
      }
    }

    method InsertMembership(id: string, m: Membership) returns (ok: bool)
      modifies this`memberships
      ensures ok <==> Identity.InsertMembership(old(Stored()), id, m).Some?
      ensures Stored() == Identity.InsertMembership(old(Stored()), id, m).GetOr(old(Stored()))
    {
      ok := m.userId in users && m.orgId in orgs && !(exists other :: other in memberships && SamePair(memberships[other], m));
      if ok {
        memberships := memberships[id := m];
      }
    }

    method ActivateByUserId(userId: string)
      modifies this`memberships
      ensures Stored() == Activated(old(Stored()), userId)
    {
      memberships := map m | m in memberships ::
        if memberships[m].userId == userId && memberships[m].status == INVITED then memberships[m].(status := ACTIVE) else memberships[m];
    }

    method CountActive(orgId: string) returns (n: nat)
      ensures n == Seats(Stored(), orgId)
    {
      var counted := set m | m in memberships && CountsAsSeat(memberships[m], orgId);
      n := |counted|;
    }

    /** One transaction: an organisation and its owner's membership. */
    method CreateWithOwner(userId: string, ids: Ids) returns (r: Outcome)
      requires ids.org !in orgs
      modifies this
      ensures (Stored(), r) == CreateOrganization(old(Stored()), userId, ids)
    {
      var before := orgs;
      orgs := orgs + {ids.org};
      var ok := InsertMembership(ids.membership, Membership(userId, ids.org, OWNER, ACTIVE));
      if !ok {
        orgs := before;
      }
      r := if ok then Done else DatabaseError;
    }

    /** One transaction: the user, a personal organisation, and its OWNER membership. */
    method ProvisionWithPersonalOrg(auth0Id: string, email: string, ids: Ids) returns (r: Outcome)
      modifies this
      ensures (Stored(), r) == Provision(old(Stored()), auth0Id, email, ids)
    {
      var usersBefore, orgsBefore := users, orgs;
      var ok := PutUser(ids.user, User(auth0Id, email));
      if !ok {
        return DatabaseError;
      }
      orgs := orgs + {ids.org};
      ok := InsertMembership(ids.membership, Membership(ids.user, ids.org, OWNER, ACTIVE));
      if !ok {
        users, orgs := usersBefore, orgsBefore;
      }
      r := if ok then Done else DatabaseError;
    }
  }

  class MembershipsService {
    const db: Database

    constructor (db: Database)
      ensures this.db == db
    {
      this.db := db;
    }

    method CreateMembership(id: string, m: Membership, maxSeats: Option<int>) returns (r: Outcome)
      modifies db`memberships
      ensures (db.Stored(), r) == Identity.CreateMembership(old(db.Stored()), id, m, maxSeats)
    {
      if maxSeats.Some? {
        var activeMemberCount := db.CountActive(m.orgId);
        if activeMemberCount >= maxSeats.value {
          return SeatLimitReached;
        }
      }
      var ok := db.InsertMembership(id, m);
      r := if ok then Done else DatabaseError;
    }

    method UpdateMembership(id: string, orgId: string, role: Role) returns (r: Outcome)
      modifies db`memberships
      ensures (db.Stored(), r) == UpdateRole(old(db.Stored()), id, orgId, role)
    {
      if id !in db.memberships || db.memberships[id].orgId != orgId {
        return NotFound;
      }
      db.memberships := db.memberships[id := db.memberships[id].(role := role)];
      r := Done;
    }

    method DeleteMembership(id: string, orgId: string) returns (r: Outcome)
      modifies db`memberships
      ensures r == if id in old(db.memberships) && old(db.memberships)[id].orgId == orgId then Done else NotFound
      ensures db.memberships == if r == Done then old(db.memberships) - {id} else old(db.memberships)
    {
      if id !in db.memberships || db.memberships[id].orgId != orgId {
        return NotFound;
      }
      db.memberships := db.memberships - {id};
      r := Done;
    }
  }

  class InviteMemberService {
    const db: Database
    const memberships: MembershipsService

    constructor (memberships: MembershipsService)
      ensures this.memberships == memberships && db == memberships.db
    {
      this.memberships := memberships;
      db := memberships.db;
    }

    method Invite(email: string, role: Role, orgId: string, ids: Ids, maxSeats: Option<int>) returns (r: Outcome)
      requires memberships.db == db && Schema(db.Stored()) && ids.user !in db.users
      modifies db
      ensures (db.Stored(), r) == Identity.Invite(old(db.Stored()), email, role, orgId, ids, maxSeats)
    {
      if orgId !in db.orgs {
        return NotFound;
      }
      var found := db.FindUserByEmail(email);
      if found.None? {
        var created := db.PutUser(ids.user, User(PENDING_USER_PREFIX + ids.uuid, email));
        if !created {
          return DatabaseError;
        }
      }
      var user := found.GetOr(ids.user);
      if exists m :: m in db.memberships && db.memberships[m].userId == user && db.memberships[m].orgId == orgId {
        assert MemberOf(db.Stored(), user, orgId);
        return Conflict;
      }
      var isPendingUser := PENDING_USER_PREFIX <= db.users[user].auth0Id;
      r := memberships.CreateMembership(ids.membership, Membership(user, orgId, role, if isPendingUser then INVITED else ACTIVE), maxSeats);
    }
  }

  class RemoveMemberService {
    const db: Database
    const memberships: MembershipsService

    constructor (memberships: MembershipsService)
      ensures this.memberships == memberships && db == memberships.db
    {
      this.memberships := memberships;
      db := memberships.db;
    }

    /** `stops` is a failure right after the membership has gone. */
    method Remove(membershipId: string, orgId: string, stops: bool) returns (r: Outcome)
      requires memberships.db == db
      modifies db
      ensures (db.Stored(), r) == Identity.Remove(old(db.Stored()), membershipId, orgId, stops)
    {
      if membershipId !in db.memberships || db.memberships[membershipId].orgId != orgId {
        return NotFound;
      }
      var userId := db.memberships[membershipId].userId;
      r := memberships.DeleteMembership(membershipId, orgId);
      if stops {
        return Stopped;
      }
      if exists m :: m in db.memberships && db.memberships[m].userId == userId {
        assert HasMemberships(db.Stored(), userId);
        return;
      }
      if userId in db.users {
        db.users := db.users - {userId};
        db.memberships := map m | m in db.memberships && db.memberships[m].userId != userId :: db.memberships[m];
      }
    }
  }

  class AuthService {
    const db: Database

    constructor (db: Database)
      ensures this.db == db
    {
      this.db := db;
    }

    method SyncUser(auth0Id: string, email: string, resolved: Option<string>, ids: Ids, stops: bool) returns (r: Outcome)
      requires Schema(db.Stored())
      modifies db
      ensures (db.Stored(), r) == Identity.SyncUser(old(db.Stored()), auth0Id, email, resolved, ids, stops)
    {
      var existing := db.FindUserByAuth0Id(auth0Id);
      if existing.Some? {
        r := HandleExistingUser(existing.value, email);
        return;
      }
      var resolvedEmail := if IsPlaceholder(email) then resolved.GetOr(email) else email;
      var userByEmail := db.FindUserByEmail(resolvedEmail);
      if userByEmail.Some? {
        r := RelinkExistingUser(userByEmail.value, auth0Id, resolvedEmail, stops);
        return;
      }
      r := db.ProvisionWithPersonalOrg(auth0Id, resolvedEmail, ids);
    }

    /** Only a changed, real address is written. */
    method HandleExistingUser(user: string, email: string) returns (r: Outcome)
      requires user in db.users
      modifies db
      ensures var w := old(db.Stored());
        var put := Identity.PutUser(w, user, User(w.users[user].auth0Id, email));
        (db.Stored(), r) ==
          if w.users[user].email == email || IsPlaceholder(email) then (w, Done)
          else if put.Some? then (put.value, Done) else (w, DatabaseError)
    {
      if db.users[user].email == email || IsPlaceholder(email) {
        return Done;
      }
      var ok := db.PutUser(user, db.users[user].(email := email));
      r := if ok then Done else DatabaseError;
    }

    /** The account first, then the invitations of a user who was pending. */
    method RelinkExistingUser(user: string, auth0Id: string, email: string, stops: bool) returns (r: Outcome)
      requires user in db.users && db.users[user].email == email
      modifies db
      ensures var w := old(db.Stored());
        var put := Identity.PutUser(w, user, User(auth0Id, email));
        (db.Stored(), r) ==
          if put.None? then (w, DatabaseError)
          else if !IsPending(w.users[user]) then (put.value, Done)
          else if stops then (put.value, Stopped)
          else (Activated(put.value, user), Done)
    {
      var wasPending := PENDING_USER_PREFIX <= db.users[user].auth0Id;
      var ok := db.PutUser(user, db.users[user].(auth0Id := auth0Id));
      if !ok {
        return DatabaseError;
      }
      if wasPending {
        if stops {
          return Stopped;
        }
        db.ActivateByUserId(user);
      }
      r := Done;
    }
  }
}
