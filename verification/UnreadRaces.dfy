/**
 * The same counters when calls overlap. Every database statement and every Redis command is one atomic
 * step, and any unfinished call may take the next step; a call that crashes, or whose Redis command fails,
 * simply never moves again and its debt stays outstanding.
 * Only the per-user counters are followed, and no key expires.
 */
module UnreadRaces {
  import opened Foundations
  import opened UnreadCounters

  datatype Call =
    | CreateStart(id: string, user: string, org: string)
    | CreateInserted(user: string)
    | ManyStart(ids: seq<string>, user: string)
    | ManyUpdated(user: string, claimed: set<string>)
    | OneStart(id: string, user: string)
    | OneFound(id: string, user: string)
    | OneUpdated(user: string)
    | DeleteStart(id: string, user: string)
    | DeleteFound(id: string, user: string, unread: bool)
    | DeleteCounted(id: string, user: string, counted: bool)
    | Done(subtracted: set<string>)

  /** `used` holds every row id ever inserted; `wasted` counts, per user, decrements that met no unread row. */
  datatype Race = Race(rows: Rows, used: set<string>, counters: map<string, int>, calls: seq<Call>, wasted: map<string, int>)

  datatype Step = Arrive(call: Call) | Advance(i: nat)

  function Tally(m: map<string, int>, user: string): int { if user in m then m[user] else 0 }

  function Add(m: map<string, int>, user: string, n: int): map<string, int> { m[user := Tally(m, user) + n] }

  predicate Starts(c: Call) { c.CreateStart? || c.ManyStart? || c.OneStart? || c.DeleteStart? }

  predicate Enabled(r: Race, step: Step) {
    match step
    case Arrive(c) => Starts(c)
    case Advance(i) =>
      i < |r.calls| && !r.calls[i].Done? && (r.calls[i].CreateStart? ==> r.calls[i].id !in r.used)
  }

  function With(r: Race, i: nat, c: Call): Race
    requires i < |r.calls|
  {
    r.(calls := r.calls[i := c])
  }

  /** The next database statement or Redis command of call `i`. */
  function Command(r: Race, i: nat): Race
    requires i < |r.calls|
  {
    match r.calls[i]
    case CreateStart(id, u, o) =>
      With(r.(rows := r.rows[id := Notification(u, o, false)], used := r.used + {id}), i, CreateInserted(u))
    case CreateInserted(u) =>
      With(r.(counters := Add(r.counters, u, 1)), i, Done({}))
    case ManyStart(ids, u) =>
      var hit := Matching(r.rows, ids, u);
      With(r.(rows := Reading(r.rows, hit)), i, ManyUpdated(u, hit))
    case ManyUpdated(u, claimed) =>
      With(if |claimed| > 0 then r.(counters := Add(r.counters, u, -|claimed|)) else r, i, Done(claimed))
    case OneStart(id, u) =>
      With(r, i, if OwnUnread(r.rows, id, u) then OneFound(id, u) else Done({}))
    case OneFound(id, u) =>
      if id !in r.rows then With(r, i, Done({}))
      else if r.rows[id].read then With(r.(wasted := Add(r.wasted, u, 1)), i, OneUpdated(u))
      else With(r.(rows := Reading(r.rows, {id})), i, OneUpdated(u))
    case OneUpdated(u) =>
      With(r.(counters := Add(r.counters, u, -1)), i, Done({}))
    case DeleteStart(id, u) =>
      With(r, i, if id in r.rows && r.rows[id].userId == u then DeleteFound(id, u, !r.rows[id].read) else Done({}))
    case DeleteFound(id, u, unread) =>
      With(if unread then r.(counters := Add(r.counters, u, -1)) else r, i, DeleteCounted(id, u, unread))
    case DeleteCounted(id, u, counted) =>
      var met := id in r.rows && !r.rows[id].read;
      var after := if counted && !met then r.(wasted := Add(r.wasted, u, 1)) else r;
      With(after.(rows := r.rows - {id}), i, Done({}))
    case Done(_) => r
  }

  function Next(r: Race, step: Step): Race
    requires Enabled(r, step)
  {
    match step
    case Arrive(c) => r.(calls := r.calls + [c])
    case Advance(i) => Command(r, i)
  }

  /** The same call, taken as a whole. */
  function WholeCall(c: Call): Op
    requires Starts(c)
  {
    match c
    case CreateStart(id, u, o) => Create(id, u, o)
    case ManyStart(ids, u) => MarkManyAsRead(ids, u)
    case OneStart(id, u) => MarkAsRead(id, u)
    case DeleteStart(id, u) => Delete(id, u)
  }

  /** Three commands end the call, and rows and `u`'s counter are then what `s` becomes by the whole call. */
  ghost predicate EndsWhole(r: Race, c: Call, s: State, u: string)
    requires Starts(c)
  {
    var i := |r.calls|;
    var first := Command(Next(r, Arrive(c)), i);
    && |first.calls| == i + 1
    && var second := Command(first, i);
    && |second.calls| == i + 1
    && var end := Command(second, i);
    && end.rows == Apply(s, WholeCall(c)).rows
    && Tally(end.counters, u) == Count(Apply(s, WholeCall(c)).counters, UserKey(u))
    && Tally(end.wasted, u) == Tally(r.wasted, u)
    && |end.calls| == i + 1 && end.calls[i].Done? && forall j | 0 <= j < i :: end.calls[j] == r.calls[j]
  }

  lemma SingleReadEndsWhole(r: Race, c: Call, s: State, u: string)
    requires c.OneStart? && s.rows == r.rows && Count(s.counters, UserKey(u)) == Tally(r.counters, u)
    ensures EndsWhole(r, c, s, u)
  {
    var i := |r.calls|;
    var arrived := r.calls + [c];
    if OwnUnread(r.rows, c.id, c.user) {
      var first := r.(calls := arrived[i := OneFound(c.id, c.user)]);
      assert Command(Next(r, Arrive(c)), i) == first;
      assert Command(first, i) == r.(rows := Reading(r.rows, {c.id}), calls := first.calls[i := OneUpdated(c.user)]);
    } else {
      assert Command(Next(r, Arrive(c)), i) == r.(calls := arrived[i := Done({})]);
    }
  }

  lemma OwnDelete(r: Race, id: string, u: string)
    requires id in r.rows && r.rows[id].userId == u
    ensures var i := |r.calls|;
      var unread := !r.rows[id].read;
      var counters := if unread then Add(r.counters, u, -1) else r.counters;
      var arrived := r.(calls := r.calls + [DeleteStart(id, u)]);
      var first := r.(calls := r.calls + [DeleteFound(id, u, unread)]);
      var second := r.(counters := counters, calls := r.calls + [DeleteCounted(id, u, unread)]);
      && Command(arrived, i) == first && Command(first, i) == second
      && Command(second, i) == r.(rows := r.rows - {id}, counters := counters, calls := r.calls + [Done({})])
  {
    var i := |r.calls|;
    assert forall c, d :: (r.calls + [c])[i := d] == r.calls + [d];
  }

  lemma DeleteEndsWhole(r: Race, c: Call, s: State, u: string)
    requires c.DeleteStart? && s.rows == r.rows && Count(s.counters, UserKey(u)) == Tally(r.counters, u)
    ensures EndsWhole(r, c, s, u)
  {
    if c.id in r.rows && r.rows[c.id].userId == c.user {
      OwnDelete(r, c.id, c.user);
    } else {
      assert Command(Next(r, Arrive(c)), |r.calls|) == r.(calls := (r.calls + [c])[|r.calls| := Done({})]);
    }
  }

  lemma BulkReadEndsWhole(r: Race, c: Call, s: State, u: string)
    requires c.ManyStart? && s.rows == r.rows && Count(s.counters, UserKey(u)) == Tally(r.counters, u)
    ensures EndsWhole(r, c, s, u)
  {
    var i := |r.calls|;
    var hit := Matching(r.rows, c.ids, c.user);
    var first := r.(rows := Reading(r.rows, hit), calls := (r.calls + [c])[i := ManyUpdated(c.user, hit)]);
    assert Command(Next(r, Arrive(c)), i) == first;
    if hit == {} {
      assert Reading(r.rows, hit) == r.rows;
    }
  }

  lemma CreateEndsWhole(r: Race, c: Call, s: State, u: string)
    requires c.CreateStart? && s.rows == r.rows && Count(s.counters, UserKey(u)) == Tally(r.counters, u)
    ensures EndsWhole(r, c, s, u)
  {
    var i := |r.calls|;
    var first := r.(rows := r.rows[c.id := Notification(c.user, c.org, false)], used := r.used + {c.id},
                    calls := (r.calls + [c])[i := CreateInserted(c.user)]);
    assert Command(Next(r, Arrive(c)), i) == first;
  }

  /** A call that nobody interrupts is over after three commands and leaves rows and user counters as the whole call does. */
  lemma UndisturbedCallIsWhole(r: Race, c: Call, s: State, u: string)
    requires Starts(c) && s.rows == r.rows && Count(s.counters, UserKey(u)) == Tally(r.counters, u)
    ensures EndsWhole(r, c, s, u)
  {
    match c
    case CreateStart(_, _, _) => CreateEndsWhole(r, c, s, u);
    case ManyStart(_, _) => BulkReadEndsWhole(r, c, s, u);
    case OneStart(_, _) => SingleReadEndsWhole(r, c, s, u);
    case DeleteStart(_, _) => DeleteEndsWhole(r, c, s, u);
  }

  /** What a call has changed in the rows but not yet in `u`'s counter, or the other way round. */
  function Outstanding(c: Call, u: string): int {
    match c
    case CreateInserted(v) => if v == u then -1 else 0
    case ManyUpdated(v, claimed) => if v == u then |claimed| else 0
    case OneUpdated(v) => if v == u then 1 else 0
    case DeleteCounted(_, v, counted) => if v == u && counted then -1 else 0
    case _ => 0
  }

  function OutstandingOf(u: string): Call -> int { (c: Call) => Outstanding(c, u) }

  function UnreadOf(r: Race, u: string): int { Unread(r.rows, UserKey(u)) }

  /** counter + wasted = unread + outstanding, for the user `u`. */
  predicate Balanced(r: Race, u: string) {
    Tally(r.counters, u) + Tally(r.wasted, u) == UnreadOf(r, u) + Sum(OutstandingOf(u), r.calls)
  }

  /** What a call remembers about a row: it existed, and it was this user's. */
  predicate Remembers(r: Race, c: Call) {
    match c
    case OneFound(id, u) => id in r.used && (id in r.rows ==> r.rows[id].userId == u)
    case DeleteFound(id, u, unread) =>
      id in r.used && (id in r.rows ==> r.rows[id].userId == u && (!unread ==> r.rows[id].read))
    case DeleteCounted(id, u, counted) =>
      id in r.used && (id in r.rows ==> r.rows[id].userId == u && (!counted ==> r.rows[id].read))
    case _ => true
  }

  /** Rows a bulk call's UPDATE matched. */
  function Claimed(c: Call): set<string> {
    match c
    case ManyUpdated(_, claimed) => claimed
    case Done(subtracted) => subtracted
    case _ => {}
  }

  ghost predicate Valid(r: Race) {
    && r.rows.Keys <= r.used
    && (forall i | 0 <= i < |r.calls| :: Remembers(r, r.calls[i]))
    && (forall i | 0 <= i < |r.calls| :: Claimed(r.calls[i]) <= r.used)
    && (forall i, id | 0 <= i < |r.calls| && id in Claimed(r.calls[i]) && id in r.rows :: r.rows[id].read)
    && (forall i, j | 0 <= i < j < |r.calls| :: Claimed(r.calls[i]) !! Claimed(r.calls[j]))
  }

  /** Rows are never re-inserted, never change owner, and never become unread again. */
  ghost predicate Evolves(r: Race, n: Race) {
    && r.used <= n.used && n.rows.Keys <= n.used
    && forall id | id in r.used && id in n.rows ::
         id in r.rows && n.rows[id].userId == r.rows[id].userId && (r.rows[id].read ==> n.rows[id].read)
  }

  lemma CommandEvolves(r: Race, i: nat)
    requires Valid(r) && Enabled(r, Advance(i))
    ensures Evolves(r, Command(r, i))
  {
  }

  lemma CommandRemembers(r: Race, i: nat)
    requires Valid(r) && Enabled(r, Advance(i))
    ensures var n := Command(r, i); n.calls == r.calls[i := n.calls[i]] && Remembers(n, n.calls[i])
  {
    assert Remembers(r, r.calls[i]);
  }

  /** Only a bulk UPDATE claims rows, and it claims unread rows and makes them read. */
  lemma CommandClaims(r: Race, i: nat)
    requires Valid(r) && Enabled(r, Advance(i))
    ensures var n := Command(r, i);
      && Claimed(n.calls[i]) <= r.used
      && (forall id | id in Claimed(n.calls[i]) && id in n.rows :: n.rows[id].read)
      && (forall id | id in Claimed(n.calls[i]) && id !in Claimed(r.calls[i]) :: id in r.rows && !r.rows[id].read)
  {
    assert Claimed(r.calls[i]) <= r.used;
    if !r.calls[i].ManyStart? {
      assert Claimed(Command(r, i).calls[i]) <= Claimed(r.calls[i]);
    }
  }

  lemma NextKeepsValid(r: Race, step: Step)
    requires Valid(r) && Enabled(r, step)
    ensures Valid(Next(r, step))
  {
    if step.Advance? {
      var i := step.i;
      var n := Command(r, i);
      CommandEvolves(r, i);
      CommandRemembers(r, i);
      CommandClaims(r, i);
      forall j | 0 <= j < |n.calls|
        ensures Remembers(n, n.calls[j]) && Claimed(n.calls[j]) <= n.used
      {
        assert Remembers(r, r.calls[j]) && Claimed(r.calls[j]) <= r.used;
      }
      forall j, k | 0 <= j < k < |n.calls| ensures Claimed(n.calls[j]) !! Claimed(n.calls[k]) {
        assert Claimed(r.calls[j]) !! Claimed(r.calls[k]);
      }
    }
  }

  /** How far the next command of call `i` moves `u`'s unread rows. */
  function RowsDelta(r: Race, i: nat, u: string): int
    requires i < |r.calls|
  {
    match r.calls[i]
    case CreateStart(_, v, _) => if v == u then 1 else 0
    case ManyStart(ids, v) => if v == u then -|Matching(r.rows, ids, v)| else 0
    case OneFound(id, v) => if v == u && id in r.rows && !r.rows[id].read then -1 else 0
    case DeleteCounted(id, v, _) => if v == u && id in r.rows && !r.rows[id].read then -1 else 0
    case _ => 0
  }

  lemma RowsMove(r: Race, i: nat, u: string)
    requires Valid(r) && Enabled(r, Advance(i))
    ensures UnreadOf(Command(r, i), u) - UnreadOf(r, u) == RowsDelta(r, i, u)
  {
    assert Remembers(r, r.calls[i]);
    match r.calls[i]
    case CreateStart(id, v, o) => CreateCounts(r.rows, id, Notification(v, o, false), UserKey(u));
    case ManyStart(ids, v) => BulkReadCounts(r.rows, ids, v, UserKey(u));
    case OneFound(id, v) => if id in r.rows && !r.rows[id].read { OneReadCounts(r.rows, id, UserKey(u)); }
    case DeleteCounted(id, v, counted) =>
      if id in r.rows { DeleteCounts(r.rows, id, UserKey(u)); } else { assert r.rows - {id} == r.rows; }
    case _ =>
  }

  /** What a command adds to the counter and the wasted decrements of `u`. */
  function TalliesDelta(r: Race, i: nat, u: string): int
    requires i < |r.calls|
  {
    match r.calls[i]
    case CreateInserted(v) => if v == u then 1 else 0
    case ManyUpdated(v, claimed) => if v == u then -|claimed| else 0
    case OneFound(id, v) => if v == u && id in r.rows && r.rows[id].read then 1 else 0
    case OneUpdated(v) => if v == u then -1 else 0
    case DeleteFound(_, v, unread) => if v == u && unread then -1 else 0
    case DeleteCounted(id, v, counted) => if v == u && counted && !(id in r.rows && !r.rows[id].read) then 1 else 0
    case _ => 0
  }

  lemma TalliesMove(r: Race, i: nat, u: string)
    requires Enabled(r, Advance(i))
    ensures var n := Command(r, i);
      (Tally(n.counters, u) + Tally(n.wasted, u)) - (Tally(r.counters, u) + Tally(r.wasted, u)) == TalliesDelta(r, i, u)
  {
    match r.calls[i]
    case CreateInserted(v) => AddTallies(r.counters, v, 1, u);
    case ManyUpdated(v, claimed) => AddTallies(r.counters, v, -|claimed|, u);
    case OneFound(_, v) => AddTallies(r.wasted, v, 1, u);
    case OneUpdated(v) => AddTallies(r.counters, v, -1, u);
    case DeleteFound(_, v, _) => AddTallies(r.counters, v, -1, u);
    case DeleteCounted(_, v, _) => AddTallies(r.wasted, v, 1, u);
    case _ =>
  }

  /** Tallies move by as much as the rows and the debts together. */
  lemma DeltasAgree(r: Race, i: nat, u: string)
    requires Enabled(r, Advance(i)) && Remembers(r, r.calls[i])
    ensures var n := Command(r, i);
      i < |n.calls| && TalliesDelta(r, i, u) == RowsDelta(r, i, u) + Outstanding(n.calls[i], u) - Outstanding(r.calls[i], u)
  {
    match r.calls[i]
    case OneStart(_, _) => SingleReadDeltas(r, i, u);
    case OneFound(_, _) => SingleReadDeltas(r, i, u);
    case OneUpdated(_) => SingleReadDeltas(r, i, u);
    case DeleteStart(_, _) => DeleteDeltas(r, i, u);
    case DeleteFound(_, _, _) => DeleteDeltas(r, i, u);
    case DeleteCounted(_, _, _) => DeleteDeltas(r, i, u);
    case _ =>
  }

  lemma SingleReadDeltas(r: Race, i: nat, u: string)
    requires i < |r.calls| && (r.calls[i].OneStart? || r.calls[i].OneFound? || r.calls[i].OneUpdated?) && Remembers(r, r.calls[i])
    ensures var n := Command(r, i);
      i < |n.calls| && TalliesDelta(r, i, u) == RowsDelta(r, i, u) + Outstanding(n.calls[i], u) - Outstanding(r.calls[i], u)
  {
  }

  lemma DeleteDeltas(r: Race, i: nat, u: string)
    requires i < |r.calls| && (r.calls[i].DeleteStart? || r.calls[i].DeleteFound? || r.calls[i].DeleteCounted?) && Remembers(r, r.calls[i])
    ensures var n := Command(r, i);
      i < |n.calls| && TalliesDelta(r, i, u) == RowsDelta(r, i, u) + Outstanding(n.calls[i], u) - Outstanding(r.calls[i], u)
  {
  }

  lemma AddTallies(m: map<string, int>, user: string, n: int, u: string)
    ensures Tally(Add(m, user, n), u) == Tally(m, u) + if u == user then n else 0
  {
  }

  /** Every single command keeps the balance of every user. */
  lemma NextKeepsBalance(r: Race, step: Step, u: string)
    requires Valid(r) && Enabled(r, step) && Balanced(r, u)
    ensures Balanced(Next(r, step), u)
  {
    match step
    case Arrive(c) =>
      SumAppend(OutstandingOf(u), r.calls, c);
    case Advance(i) =>
      var n := Command(r, i);
      RowsMove(r, i, u);
      CommandRemembers(r, i);
      assert Remembers(r, r.calls[i]);
      TalliesMove(r, i, u);
      DeltasAgree(r, i, u);
      SumUpdate(OutstandingOf(u), r.calls, i, n.calls[i]);
  }

  ghost predicate Possible(r: Race, steps: seq<Step>)
    decreases steps
  {
    steps == [] || (Enabled(r, steps[0]) && Possible(Next(r, steps[0]), steps[1..]))
  }

  ghost function Run(r: Race, steps: seq<Step>): Race
    requires Possible(r, steps)
    decreases steps
  {
    if steps == [] then r else Run(Next(r, steps[0]), steps[1..])
  }

  /** No call yet, and every user's counter agrees with the rows (an absent counter reads as 0). */
  ghost predicate Initial(r: Race) {
    r.calls == [] && r.wasted == map[] && r.used == r.rows.Keys && forall u :: Tally(r.counters, u) == UnreadOf(r, u)
  }

  lemma {:induction false} RunKeepsBalance(r: Race, steps: seq<Step>, u: string)
    requires Valid(r) && Balanced(r, u) && Possible(r, steps)
    ensures Valid(Run(r, steps)) && Balanced(Run(r, steps), u)
    decreases steps
  {
    if steps != [] {
      NextKeepsValid(r, steps[0]);
      NextKeepsBalance(r, steps[0], u);
      RunKeepsBalance(Next(r, steps[0]), steps[1..], u);
    }
  }

  /**
   * For any interleaving of create, markAsRead, markManyAsRead and delete calls, from exact counters:
   * counter = unread + decrements owed - increments owed - wasted decrements. So at every moment, calls that
   * stopped half way included, it is exact if and only if what is owed equals what was wasted; once every
   * call is done it is short by exactly the wasted decrements.
   */
  lemma OverlappingCallsBalance(r: Race, steps: seq<Step>, u: string)
    requires Initial(r) && Possible(r, steps)
    ensures Balanced(Run(r, steps), u)
    ensures Tally(Run(r, steps).counters, u) == UnreadOf(Run(r, steps), u)
            <==> Sum(OutstandingOf(u), Run(r, steps).calls) == Tally(Run(r, steps).wasted, u)
    ensures (forall c | c in Run(r, steps).calls :: c.Done?) ==>
              Tally(Run(r, steps).counters, u) == UnreadOf(Run(r, steps), u) - Tally(Run(r, steps).wasted, u)
  {
    RunKeepsBalance(r, steps, u);
    var calls := Run(r, steps).calls;
    if forall c | c in calls :: c.Done? {
      forall i | 0 <= i < |calls| ensures OutstandingOf(u)(calls[i]) == 0 {
        assert calls[i] in calls;
      }
      SumZero(OutstandingOf(u), calls);
    }
  }

  // ---- Calls the database fences ----

  predicate Fenced(c: Call) { c.CreateStart? || c.CreateInserted? || c.ManyStart? || c.ManyUpdated? || c.Done? }

  /** Every row read since the start was subtracted by some bulk call. */
  ghost predicate Accounted(r: Race, readAtStart: set<string>) {
    && r.wasted == map[]
    && (forall c | c in r.calls :: Fenced(c))
    && forall id | id in r.rows && r.rows[id].read && id !in readAtStart ::
         exists i | 0 <= i < |r.calls| :: id in Claimed(r.calls[i])
  }

  lemma FencedStep(r: Race, step: Step, readAtStart: set<string>)
    requires Valid(r) && Enabled(r, step) && Accounted(r, readAtStart)
    requires step.Arrive? ==> Fenced(step.call)
    ensures Accounted(Next(r, step), readAtStart)
  {
    var n := Next(r, step);
    if step.Advance? {
      assert Fenced(r.calls[step.i]);
    }
    forall id | id in n.rows && n.rows[id].read && id !in readAtStart
      ensures exists i | 0 <= i < |n.calls| :: id in Claimed(n.calls[i])
    {
      if id in r.rows && r.rows[id].read {
        var i :| 0 <= i < |r.calls| && id in Claimed(r.calls[i]);
        assert id in Claimed(n.calls[i]);
      } else {
        assert id in Claimed(n.calls[step.i]);
      }
    }
  }

  lemma {:induction false} FencedRun(r: Race, steps: seq<Step>, readAtStart: set<string>)
    requires Valid(r) && Possible(r, steps) && Accounted(r, readAtStart)
    requires forall s | s in steps :: s.Arrive? ==> Fenced(s.call)
    ensures Valid(Run(r, steps)) && Accounted(Run(r, steps), readAtStart)
    decreases steps
  {
    if steps != [] {
      NextKeepsValid(r, steps[0]);
      assert steps[0] in steps;
      FencedStep(r, steps[0], readAtStart);
      FencedRun(Next(r, steps[0]), steps[1..], readAtStart);
    }
  }

  /**
   * With only createNotification and markManyAsRead calls, overlapping id lists allowed: nothing is
   * wasted, so counter = unread + decrements owed - increments owed at every moment; no row is subtracted
   * by two calls, every row read meanwhile is subtracted by one, and the counters are exact when all calls
   * have finished.
   */
  lemma BulkReadsSubtractEachRowOnce(r: Race, steps: seq<Step>, u: string)
    requires Initial(r) && Possible(r, steps)
    requires forall s | s in steps :: s.Arrive? ==> Fenced(s.call)
    ensures var end := Run(r, steps);
      && (forall i, j | 0 <= i < j < |end.calls| :: Claimed(end.calls[i]) !! Claimed(end.calls[j]))
      && (forall id | id in end.rows && end.rows[id].read && !(id in r.rows && r.rows[id].read) ::
            exists i | 0 <= i < |end.calls| :: id in Claimed(end.calls[i]))
      && Tally(end.counters, u) == UnreadOf(end, u) + Sum(OutstandingOf(u), end.calls)
      && ((forall c | c in end.calls :: c.Done?) ==> Tally(end.counters, u) == UnreadOf(end, u))
  {
    FencedRun(r, steps, set id | id in r.rows && r.rows[id].read);
    OverlappingCallsBalance(r, steps, u);
  }

  /** One step of each of two calls, the first call first. */
  const ROUND: seq<Step> := [Advance(0), Advance(1)]

  /** Two markAsRead calls that both find one unread row: both subtract, and the counter ends at -1. */
  lemma TwoSingleReadsSubtractTwice(u: string, o: string, id: string)
    ensures var r := Race(map[id := Notification(u, o, false)], {id}, map[u := 1], [], map[]);
      var steps := [Arrive(OneStart(id, u)), Arrive(OneStart(id, u))] + (ROUND + (ROUND + (ROUND + [])));
      Possible(r, steps) && UnreadOf(Run(r, steps), u) == 0 && Tally(Run(r, steps).counters, u) == -1
  {
    var r0 := Race(map[id := Notification(u, o, false)], {id}, map[u := 1], [], map[]);
    var r2 := r0.(calls := [OneStart(id, u), OneStart(id, u)]);
    var r4 := r0.(calls := [OneFound(id, u), OneFound(id, u)]);
    var r6 := Race(map[id := Notification(u, o, true)], {id}, map[u := 1], [OneUpdated(u), OneUpdated(u)], map[u := 1]);
    var r8 := Race(map[id := Notification(u, o, true)], {id}, map[u := -1], [Done({}), Done({})], map[u := 1]);
    BothSubtract(r6, r8, u);
    TwoSteps(r6, Advance(0), Advance(1), r8, []);
    BothUpdate(r4, r6, id, u, o);
    TwoSteps(r4, Advance(0), Advance(1), r6, ROUND + []);
    BothFind(r2, r4, id, u);
    TwoSteps(r2, Advance(0), Advance(1), r4, ROUND + (ROUND + []));
    TwoSteps(r0, Arrive(OneStart(id, u)), Arrive(OneStart(id, u)), r2, ROUND + (ROUND + (ROUND + [])));
    assert UnreadIds(r8.rows, UserKey(u)) == {};
  }

  lemma BothFind(r: Race, n: Race, id: string, u: string)
    requires r.calls == [OneStart(id, u), OneStart(id, u)] && OwnUnread(r.rows, id, u)
    requires n == r.(calls := [OneFound(id, u), OneFound(id, u)])
    ensures Enabled(r, Advance(0)) && Enabled(Next(r, Advance(0)), Advance(1)) && Next(Next(r, Advance(0)), Advance(1)) == n
  {
  }

  lemma BothUpdate(r: Race, n: Race, id: string, u: string, o: string)
    requires r == Race(map[id := Notification(u, o, false)], {id}, map[u := 1], [OneFound(id, u), OneFound(id, u)], map[])
    requires n == Race(map[id := Notification(u, o, true)], {id}, map[u := 1], [OneUpdated(u), OneUpdated(u)], map[u := 1])
    ensures Enabled(r, Advance(0)) && Enabled(Next(r, Advance(0)), Advance(1)) && Next(Next(r, Advance(0)), Advance(1)) == n
  {
  }

  lemma BothSubtract(r: Race, n: Race, u: string)
    requires r.calls == [OneUpdated(u), OneUpdated(u)] && r.counters == map[u := 1]
    requires n == r.(calls := [Done({}), Done({})], counters := map[u := -1])
    ensures Enabled(r, Advance(0)) && Enabled(Next(r, Advance(0)), Advance(1)) && Next(Next(r, Advance(0)), Advance(1)) == n
  {
  }

  lemma TwoSteps(r: Race, first: Step, second: Step, n: Race, rest: seq<Step>)
    requires Enabled(r, first) && Enabled(Next(r, first), second) && Next(Next(r, first), second) == n
    requires Possible(n, rest)
    ensures Possible(r, [first, second] + rest) && Run(r, [first, second] + rest) == Run(n, rest)
  {
    var steps := [first, second] + rest;
    assert steps[1..][0] == second && steps[1..][1..] == rest;
  }
}
