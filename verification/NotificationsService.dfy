/** The notification service run one whole call at a time over its rows and its Redis counters. */
module NotificationsService {
  import opened Foundations
  import opened UnreadCounters

  class Service {
    var rows: Rows
    var counters: map<Key, int>

    ghost function State(): State
      reads this
    {
      UnreadCounters.State(rows, counters)
    }

    method IncrBy(key: Key, delta: int)
      modifies this`counters
      ensures counters == Bump(old(counters), key, delta)
    {
      counters := counters[key := Count(counters, key) + delta];
    }

    method Del(key: Key)
      modifies this`counters
      ensures counters == old(counters) - {key}
    {
      counters := counters - {key};
    }

    /** The distinct organisations of the unread rows a bulk call names, in any order. */
    method FindOrgIdsForUnreadNotifications(ids: seq<string>, user: string) returns (orgIds: seq<string>)
      ensures Elements(orgIds) == OrgsOf(rows, Matching(rows, ids, user))
    {
      orgIds := [];
      var left := OrgsOf(rows, Matching(rows, ids, user));
      while left != {}
        invariant Elements(orgIds) + left == OrgsOf(rows, Matching(rows, ids, user))
        decreases left
      {
        var o :| o in left;
        orgIds := orgIds + [o];
        left := left - {o};
      }
    }

    method CreateNotification(id: string, user: string, org: string)
      requires id !in rows
      modifies this
      ensures State() == Apply(old(State()), Create(id, user, org))
      ensures rows == old(rows)[id := Notification(user, org, false)]
    {
      rows := rows[id := Notification(user, org, false)];
      IncrBy(UserKey(user), 1);
      IncrBy(OrgKey(user, org), 1);
    }

    method MarkAsRead(id: string, user: string) returns (found: bool)
      modifies this
      ensures found <==> id in old(rows) && old(rows)[id].userId == user && !old(rows)[id].read
      ensures rows == if found then old(rows)[id := old(rows)[id].(read := true)] else old(rows)
      ensures State() == Apply(old(State()), Op.MarkAsRead(id, user))
    {
      if id !in rows || rows[id].userId != user || rows[id].read {
        return false;
      }
      var existing := rows[id];
      rows := rows[id := existing.(read := true)];
      assert rows == Reading(old(rows), {id});
      IncrBy(UserKey(user), -1);
      IncrBy(OrgKey(user, existing.orgId), -1);
      return true;
    }

    method MarkManyAsRead(ids: seq<string>, user: string)
      modifies this
      ensures State() == Apply(old(State()), Op.MarkManyAsRead(ids, user))
      ensures rows == map id | id in old(rows) ::
                if id in ids && old(rows)[id].userId == user then old(rows)[id].(read := true) else old(rows)[id]
    {
      var orgIds := FindOrgIdsForUnreadNotifications(ids, user);
      var hit := Matching(rows, ids, user);
      rows := Reading(rows, hit);
      if |hit| > 0 {
        IncrBy(UserKey(user), -|hit|);
        var before := counters;
        var i := 0;
        while i < |orgIds|
          invariant i <= |orgIds|
          invariant rows == Reading(old(rows), hit)
          invariant counters == before - OrgKeys(user, Elements(orgIds[..i]))
        {
          Del(OrgKey(user, orgIds[i]));
          i := i + 1;
        }
        assert orgIds[..i] == orgIds;
      } else {
        assert rows == old(rows);
      }
    }

    method MarkAllAsRead(user: string, org: string)
      modifies this
      ensures State() == Apply(old(State()), Op.MarkAllAsRead(user, org))
      ensures rows == map id | id in old(rows) ::
                if old(rows)[id].userId == user && old(rows)[id].orgId == org then old(rows)[id].(read := true) else old(rows)[id]
    {
      rows := Reading(rows, UnreadIds(rows, OrgKey(user, org)));
      Del(UserKey(user));
      Del(OrgKey(user, org));
    }

    method DeleteNotification(id: string, user: string) returns (found: bool)
      modifies this
      ensures found == (id in old(rows) && old(rows)[id].userId == user)
      ensures State() == Apply(old(State()), Op.Delete(id, user))
      ensures rows == if found then old(rows) - {id} else old(rows)
    {
      if id !in rows || rows[id].userId != user {
        return false;
      }
      var existing := rows[id];
      if !existing.read {
        IncrBy(UserKey(user), -1);
        IncrBy(OrgKey(user, existing.orgId), -1);
      }
      rows := rows - {id};
      return true;
    }

    /** getUnreadCount and getUnreadCountForOrg: Redis first, the rows on a miss. */
    method GetUnreadCount(key: Key) returns (count: int)
      modifies this`counters
      ensures State() == Apply(old(State()), ReadCounter(key))
      ensures count == Answer(old(State()), key)
    {
      if key in counters {
        return Max(0, counters[key]);
      }
      count := Unread(rows, key);
      counters := counters[key := count];
    }
  }
}
