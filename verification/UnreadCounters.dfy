/**
 * Unread-notification counters: Redis integers kept beside the notification rows by INCR, DECRBY, DEL
 * and SET. Here every service call runs whole; keys may expire between calls.
 */
module UnreadCounters {
  import opened Foundations

  datatype Notification = Notification(userId: string, orgId: string, read: bool)

  type Rows = map<string, Notification>

  /** A counter key: one user's, or one user's within one organisation. */
  datatype Key = UserKey(userId: string) | OrgKey(userId: string, orgId: string)
  {
    predicate Covers(n: Notification) {
      n.userId == userId && (OrgKey? ==> n.orgId == orgId)
    }
  }

  datatype State = State(rows: Rows, counters: map<Key, int>)

  /** The rows a counter stands for: what COUNT with the key's filter and `readAt: null` returns. */
  function UnreadIds(rows: Rows, key: Key): set<string> {
    set id | id in rows && !rows[id].read && key.Covers(rows[id])
  }

  function Unread(rows: Rows, key: Key): nat { |UnreadIds(rows, key)| }

  /** Redis arithmetic takes a missing key as 0. */
  function Count(counters: map<Key, int>, key: Key): int { if key in counters then counters[key] else 0 }

  function Bump(counters: map<Key, int>, key: Key, delta: int): map<Key, int> { counters[key := Count(counters, key) + delta] }

  /** How far a counter is from the rows it stands for. */
  function Drift(s: State, key: Key): int { Count(s.counters, key) - Unread(s.rows, key) }

  datatype Op =
    | Create(id: string, user: string, org: string)
    | MarkAsRead(id: string, user: string)
    | MarkManyAsRead(ids: seq<string>, user: string)
    | MarkAllAsRead(user: string, org: string)
    | Delete(id: string, user: string)
    | ReadCounter(key: Key)
    | Expire(key: Key)

  function Matching(rows: Rows, ids: seq<string>, user: string): set<string> {
    set id | id in rows && id in ids && rows[id].userId == user && !rows[id].read
  }

  function OrgsOf(rows: Rows, ids: set<string>): set<string> {
    set id | id in ids && id in rows :: rows[id].orgId
  }

  function Reading(rows: Rows, ids: set<string>): Rows {
    map id | id in rows :: if id in ids then rows[id].(read := true) else rows[id]
  }

  function OrgKeys(user: string, orgs: set<string>): set<Key> {
    set o | o in orgs :: OrgKey(user, o)
  }

  /** A created row has an id no row has: ids are random UUIDs. */
  predicate Fresh(s: State, op: Op) { op.Create? ==> op.id !in s.rows }

  predicate OwnUnread(rows: Rows, id: string, user: string) {
    id in rows && rows[id].userId == user && !rows[id].read
  }

  function Apply(s: State, op: Op): State {
    match op
    case Create(id, user, org) =>
      State(s.rows[id := Notification(user, org, false)],
            Bump(Bump(s.counters, UserKey(user), 1), OrgKey(user, org), 1))
    case MarkAsRead(id, user) =>
      if !OwnUnread(s.rows, id, user) then s
      else State(Reading(s.rows, {id}), Bump(Bump(s.counters, UserKey(user), -1), OrgKey(user, s.rows[id].orgId), -1))
    case MarkManyAsRead(ids, user) =>
      var hit := Matching(s.rows, ids, user);
      if hit == {} then s
      else State(Reading(s.rows, hit), Bump(s.counters, UserKey(user), -|hit|) - OrgKeys(user, OrgsOf(s.rows, hit)))
    case MarkAllAsRead(user, org) =>
      State(Reading(s.rows, UnreadIds(s.rows, OrgKey(user, org))), s.counters - {UserKey(user), OrgKey(user, org)})
    case Delete(id, user) =>
      if id !in s.rows || s.rows[id].userId != user then s
      else if s.rows[id].read then s.(rows := s.rows - {id})
      else State(s.rows - {id}, Bump(Bump(s.counters, UserKey(user), -1), OrgKey(user, s.rows[id].orgId), -1))
    case ReadCounter(key) =>
      if key in s.counters then s else s.(counters := s.counters[key := Unread(s.rows, key)])
    case Expire(key) =>
      s.(counters := s.counters - {key})
  }

  /** What a counter read answers. */
  function Answer(s: State, key: Key): int {
    if key in s.counters then Max(0, s.counters[key]) else Unread(s.rows, key)
  }

  /** A hit answers the rows' count plus the drift, floored at 0; a miss answers the rows' count and leaves no drift. */
  lemma ReadAnswers(s: State, key: Key)
    ensures key in s.counters ==> Answer(s, key) == Max(0, Unread(s.rows, key) + Drift(s, key))
    ensures key !in s.counters ==> Answer(s, key) == Unread(s.rows, key) && Drift(Apply(s, ReadCounter(key)), key) == 0
  {
  }

  lemma ReadingRemoves(rows: Rows, ids: set<string>, key: Key)
    ensures UnreadIds(Reading(rows, ids), key) == UnreadIds(rows, key) - ids
  {
  }

  lemma CardinalityMinus(a: set<string>, b: set<string>)
    requires b <= a
    ensures |a - b| == |a| - |b|
  {
    assert a == (a - b) + b;
  }

  lemma CreateCounts(rows: Rows, id: string, n: Notification, key: Key)
    requires id !in rows && !n.read
    ensures Unread(rows[id := n], key) == Unread(rows, key) + if key.Covers(n) then 1 else 0
  {
    var before, after := UnreadIds(rows, key), UnreadIds(rows[id := n], key);
    if key.Covers(n) {
      assert after == before + {id};
    } else {
      assert after == before;
    }
  }

  lemma OneReadCounts(rows: Rows, id: string, key: Key)
    requires id in rows && !rows[id].read
    ensures Unread(Reading(rows, {id}), key) == Unread(rows, key) - if key.Covers(rows[id]) then 1 else 0
  {
    ReadingRemoves(rows, {id}, key);
    assert key.Covers(rows[id]) <==> id in UnreadIds(rows, key);
  }

  lemma DeleteCounts(rows: Rows, id: string, key: Key)
    requires id in rows
    ensures Unread(rows - {id}, key) == Unread(rows, key) - if !rows[id].read && key.Covers(rows[id]) then 1 else 0
  {
    assert UnreadIds(rows - {id}, key) == UnreadIds(rows, key) - {id};
  }

  lemma BulkReadCounts(rows: Rows, ids: seq<string>, user: string, key: Key)
    ensures var hit := Matching(rows, ids, user);
      && (key == UserKey(user) ==> Unread(Reading(rows, hit), key) == Unread(rows, key) - |hit|)
      && (key.userId != user || (key.OrgKey? && key.orgId !in OrgsOf(rows, hit)) ==> Unread(Reading(rows, hit), key) == Unread(rows, key))
  {
    var hit := Matching(rows, ids, user);
    ReadingRemoves(rows, hit, key);
    if key == UserKey(user) {
      CardinalityMinus(UnreadIds(rows, key), hit);
    } else if key.userId != user || key.orgId !in OrgsOf(rows, hit) {
      forall id | id in hit ensures id !in UnreadIds(rows, key) {
        assert rows[id].orgId in OrgsOf(rows, hit);
      }
      assert UnreadIds(rows, key) - hit == UnreadIds(rows, key);
    }
  }

  /** A key present before and after keeps its drift; a key the call creates starts at 0 or short of the rows unread before. */
  predicate Lawful(s: State, op: Op, key: Key) {
    key in Apply(s, op).counters ==>
      Drift(Apply(s, op), key) ==
        if key in s.counters then Drift(s, key) else if op.ReadCounter? then 0 else 0 - Unread(s.rows, key)
  }

  lemma CreateIsLawful(s: State, id: string, user: string, org: string, key: Key)
    requires id !in s.rows
    ensures Lawful(s, Create(id, user, org), key)
  {
    CreateCounts(s.rows, id, Notification(user, org, false), key);
  }

  lemma MarkAsReadIsLawful(s: State, id: string, user: string, key: Key)
    ensures Lawful(s, MarkAsRead(id, user), key)
  {
    if OwnUnread(s.rows, id, user) {
      OneReadCounts(s.rows, id, key);
    }
  }

  lemma MarkManyIsLawful(s: State, ids: seq<string>, user: string, key: Key)
    ensures Lawful(s, MarkManyAsRead(ids, user), key)
  {
    BulkReadCounts(s.rows, ids, user, key);
  }

  lemma MarkAllIsLawful(s: State, user: string, org: string, key: Key)
    ensures Lawful(s, MarkAllAsRead(user, org), key)
  {
    var hit := UnreadIds(s.rows, OrgKey(user, org));
    ReadingRemoves(s.rows, hit, key);
    if key != UserKey(user) && key != OrgKey(user, org) {
      assert UnreadIds(s.rows, key) - hit == UnreadIds(s.rows, key);
    }
  }

  lemma DeleteIsLawful(s: State, id: string, user: string, key: Key)
    ensures Lawful(s, Delete(id, user), key)
  {
    if id in s.rows {
      DeleteCounts(s.rows, id, key);
    }
  }

  /**
   * The one law behind every counter. Across any call, a key that stays present keeps its drift; a key
   * the call brings into being starts exact if a read created it, and otherwise starts short by exactly
   * the rows that were already unread.
   */
  lemma CallDrift(s: State, op: Op, key: Key)
    requires Fresh(s, op) && key in Apply(s, op).counters
    ensures key in s.counters ==> Drift(Apply(s, op), key) == Drift(s, key)
    ensures key !in s.counters ==> Drift(Apply(s, op), key) == if op.ReadCounter? then 0 else 0 - Unread(s.rows, key)
  {
    assert Lawful(s, op, key) by {
      match op
      case Create(id, user, org) => CreateIsLawful(s, id, user, org, key);
      case MarkAsRead(id, user) => MarkAsReadIsLawful(s, id, user, key);
      case MarkManyAsRead(ids, user) => MarkManyIsLawful(s, ids, user, key);
      case MarkAllAsRead(user, org) => MarkAllIsLawful(s, user, org, key);
      case Delete(id, user) => DeleteIsLawful(s, id, user, key);
      case ReadCounter(_) =>
      case Expire(_) =>
    }
  }

  // ---- What each call does to the rows, and to the numbers they give ----

  /** The unread rows of one user, and of one user in one organisation. */
  lemma UnreadMeans(rows: Rows, user: string, org: string)
    ensures Unread(rows, UserKey(user)) == |set id | id in rows && rows[id].userId == user && !rows[id].read|
    ensures Unread(rows, OrgKey(user, org)) == |set id | id in rows && rows[id].userId == user && rows[id].orgId == org && !rows[id].read|
  {
    assert UnreadIds(rows, UserKey(user)) == set id | id in rows && rows[id].userId == user && !rows[id].read;
    assert UnreadIds(rows, OrgKey(user, org)) == set id | id in rows && rows[id].userId == user && rows[id].orgId == org && !rows[id].read;
  }

  /** `key`'s counter has moved by `delta`; a missing one counted as 0. */
  predicate Moved(s: State, n: State, key: Key, delta: int) {
    if delta == 0 then (key in n.counters <==> key in s.counters) && (key in n.counters ==> n.counters[key] == s.counters[key])
    else key in n.counters && n.counters[key] == delta + if key in s.counters then s.counters[key] else 0
  }

  /** A new notification is stored unread, and only its user's two numbers and counters go up. */
  lemma CreateStores(s: State, id: string, user: string, org: string, key: Key)
    requires id !in s.rows
    ensures var n := Apply(s, Create(id, user, org));
      && n.rows == s.rows[id := Notification(user, org, false)]
      && var delta := if key == UserKey(user) || key == OrgKey(user, org) then 1 else 0;
         Unread(n.rows, key) == Unread(s.rows, key) + delta && Moved(s, n, key, delta)
  {
    CreateCounts(s.rows, id, Notification(user, org, false), key);
  }

  /** An own unread row becomes read, and exactly its user's two numbers and counters go down by one; any other id changes nothing. */
  lemma MarkAsReadReads(s: State, id: string, user: string, key: Key)
    ensures var n := Apply(s, MarkAsRead(id, user));
      if id in s.rows && s.rows[id].userId == user && !s.rows[id].read then
        && n.rows == s.rows[id := Notification(user, s.rows[id].orgId, true)]
        && var delta := if key == UserKey(user) || key == OrgKey(user, s.rows[id].orgId) then 1 else 0;
           Unread(n.rows, key) == Unread(s.rows, key) - delta && Moved(s, n, key, -delta)
      else n == s
  {
    if OwnUnread(s.rows, id, user) {
      OneReadCounts(s.rows, id, key);
    }
  }

  /** Exactly the listed rows of the user are read afterwards if they were not before; every row stays. */
  lemma MarkManyReads(s: State, ids: seq<string>, user: string)
    ensures var n := Apply(s, MarkManyAsRead(ids, user));
      && n.rows.Keys == s.rows.Keys
      && forall id | id in s.rows ::
           n.rows[id] == if id in ids && s.rows[id].userId == user then s.rows[id].(read := true) else s.rows[id]
  {
    var hit := Matching(s.rows, ids, user);
    forall id | id in s.rows && id in ids && s.rows[id].userId == user ensures s.rows[id].read || id in hit {
    }
  }

  /** The user counter goes down by the number of rows read; the counter of each organisation they belong to goes; no other moves. */
  lemma MarkManyCounts(s: State, ids: seq<string>, user: string, key: Key)
    ensures var n := Apply(s, MarkManyAsRead(ids, user));
      var hit := set id | id in s.rows && id in ids && s.rows[id].userId == user && !s.rows[id].read;
      if exists id | id in hit :: key == OrgKey(user, s.rows[id].orgId) then key !in n.counters
      else Moved(s, n, key, if key == UserKey(user) then -|hit| else 0)
  {
    var hit := Matching(s.rows, ids, user);
    assert hit == set id | id in s.rows && id in ids && s.rows[id].userId == user && !s.rows[id].read;
    if id :| id in hit && key == OrgKey(user, s.rows[id].orgId) {
      assert s.rows[id].orgId in OrgsOf(s.rows, hit);
      assert key in OrgKeys(user, OrgsOf(s.rows, hit));
    }
  }

  /** Exactly the user's rows in the organisation are read afterwards, its number is 0, and exactly the two counters are gone. */
  lemma MarkAllReads(s: State, user: string, org: string)
    ensures var n := Apply(s, MarkAllAsRead(user, org));
      && n.rows.Keys == s.rows.Keys
      && (forall id | id in s.rows ::
            n.rows[id] == if s.rows[id].userId == user && s.rows[id].orgId == org then s.rows[id].(read := true) else s.rows[id])
      && Unread(n.rows, OrgKey(user, org)) == 0 && Answer(n, OrgKey(user, org)) == 0
      && n.counters == s.counters - {UserKey(user), OrgKey(user, org)}
  {
    var n := Apply(s, MarkAllAsRead(user, org));
    assert UnreadIds(n.rows, OrgKey(user, org)) == {};
  }

  /** An own row goes, and exactly its user's two numbers and counters go down by one if it was unread; any other id changes nothing. */
  lemma DeleteRemoves(s: State, id: string, user: string, key: Key)
    ensures var n := Apply(s, Delete(id, user));
      if id in s.rows && s.rows[id].userId == user then
        && id !in n.rows && n.rows.Keys == s.rows.Keys - {id} && (forall other | other in n.rows :: n.rows[other] == s.rows[other])
        && var delta := if !s.rows[id].read && (key == UserKey(user) || key == OrgKey(user, s.rows[id].orgId)) then 1 else 0;
           Unread(n.rows, key) == Unread(s.rows, key) - delta && Moved(s, n, key, -delta)
      else n == s
  {
    if id in s.rows {
      DeleteCounts(s.rows, id, key);
    }
  }

  predicate KeepsUserCounters(op: Op) { op.Create? || op.MarkAsRead? || op.MarkManyAsRead? || op.Delete? }

  /** Counting absent keys as 0, these four calls leave every user's drift unchanged. */
  lemma UserDriftConserved(s: State, op: Op, user: string)
    requires Fresh(s, op) && KeepsUserCounters(op)
    ensures Drift(Apply(s, op), UserKey(user)) == Drift(s, UserKey(user))
  {
    if UserKey(user) in Apply(s, op).counters {
      CallDrift(s, op, UserKey(user));
    } else {
      match op
      case Create(id, u, org) => CreateCounts(s.rows, id, Notification(u, org, false), UserKey(user));
      case MarkAsRead(id, u) => if OwnUnread(s.rows, id, u) { OneReadCounts(s.rows, id, UserKey(user)); }
      case MarkManyAsRead(ids, u) => BulkReadCounts(s.rows, ids, u, UserKey(user));
      case Delete(id, u) => if id in s.rows { DeleteCounts(s.rows, id, UserKey(user)); }
    }
  }

  // ---- Runs ----

  /** For each present key, the drift it was born with. */
  function Births(s: State, births: map<Key, int>, op: Op): map<Key, int> {
    map key | key in Apply(s, op).counters ::
      if key in s.counters && key in births then births[key]
      else if op.ReadCounter? then 0
      else 0 - Unread(s.rows, key)
  }

  predicate Possible(s: State, ops: seq<Op>)
    decreases ops
  {
    ops == [] || (Fresh(s, ops[0]) && Possible(Apply(s, ops[0]), ops[1..]))
  }

  function Run(s: State, ops: seq<Op>): State
    decreases ops
  {
    if ops == [] then s else Run(Apply(s, ops[0]), ops[1..])
  }

  function RunBirths(s: State, births: map<Key, int>, ops: seq<Op>): map<Key, int>
    decreases ops
  {
    if ops == [] then births else RunBirths(Apply(s, ops[0]), Births(s, births, ops[0]), ops[1..])
  }

  ghost predicate BornWith(s: State, births: map<Key, int>) {
    births.Keys == s.counters.Keys && forall key | key in s.counters :: Drift(s, key) == births[key]
  }

  /**
   * After any run of whole calls and expiries, every present user or organisation counter is off by
   * exactly the drift it was born with: so it is exact if and only if it was created by a read, or by a
   * write at a moment when nothing else was unread, and it stays exact until its key goes.
   */
  lemma {:induction false} CountersKeepTheirBirthDrift(s: State, births: map<Key, int>, ops: seq<Op>)
    requires Possible(s, ops) && BornWith(s, births)
    ensures BornWith(Run(s, ops), RunBirths(s, births, ops))
    decreases ops
  {
    if ops != [] {
      var next := Apply(s, ops[0]);
      forall key | key in next.counters ensures Drift(next, key) == Births(s, births, ops[0])[key] {
        CallDrift(s, ops[0], key);
      }
      CountersKeepTheirBirthDrift(next, Births(s, births, ops[0]), ops[1..]);
    }
  }

  /**
   * Marking one organisation read drops the user's counter; if other organisations still have unread
   * rows, the next notification recreates it at 1, and every later read under-reports by those rows.
   */
  lemma CreateAfterMarkAllUndercounts(s: State, user: string, org: string, id: string)
    requires id !in s.rows
    ensures var t := Apply(Apply(s, MarkAllAsRead(user, org)), Create(id, user, org));
      var elsewhere := |UnreadIds(s.rows, UserKey(user)) - UnreadIds(s.rows, OrgKey(user, org))|;
      && Unread(t.rows, UserKey(user)) == elsewhere + 1
      && Answer(t, UserKey(user)) == 1
  {
    var cleared := Apply(s, MarkAllAsRead(user, org));
    ReadingRemoves(s.rows, UnreadIds(s.rows, OrgKey(user, org)), UserKey(user));
    CreateCounts(cleared.rows, id, Notification(user, org, false), UserKey(user));
  }
}
