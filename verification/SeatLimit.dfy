/**
 * The seat limit of one organisation under overlapping membership creations: each counts the seats and only
 * later inserts, with activations, removals and other creations in between.
 */
module SeatLimit {
  import opened Foundations
  import opened Memberships

  /** One creation: before its count, between count and insert, or over. */
  datatype Call = Arrived | Passed | Over(inserted: bool)

  /** Membership ids are opaque; only their identity matters. */
  datatype Org = Org(members: map<nat, Status>, calls: seq<Call>)

  datatype Step =
    | Arrive
    | Check(i: nat)
    | Insert(i: nat, id: nat, status: Status, ok: bool)
    | Activate(ids: set<nat>)
    | Remove(id: nat)

  predicate TakesSeat(s: Status) { s == ACTIVE || s == INVITED }

  function Seated(members: map<nat, Status>): set<nat> { set m | m in members && TakesSeat(members[m]) }

  /** What countActive returns. */
  function Seats(o: Org): nat { |Seated(o.members)| }

  function IsPassed(): Call -> int { (c: Call) => if c.Passed? then 1 else 0 }

  /** How many creations stand between their check and their insert. */
  function InFlight(o: Org): int { Sum(IsPassed(), o.calls) }

  predicate Enabled(o: Org, step: Step) {
    match step
    case Arrive => true
    case Check(i) => i < |o.calls| && o.calls[i].Arrived?
    case Insert(i, id, status, _) => i < |o.calls| && o.calls[i].Passed? && id !in o.members && TakesSeat(status)
    case Activate(_) => true
    case Remove(id) => id in o.members
  }

  function Next(o: Org, maxSeats: int, step: Step): Org
    requires Enabled(o, step)
  {
    match step
    case Arrive => o.(calls := o.calls + [Arrived])
    case Check(i) => o.(calls := o.calls[i := if Seats(o) >= maxSeats then Over(false) else Passed])
    case Insert(i, id, status, ok) =>
      Org(if ok then o.members[id := status] else o.members, o.calls[i := Over(ok)])
    case Activate(ids) => o.(members := map m | m in o.members :: if m in ids && o.members[m] == INVITED then ACTIVE else o.members[m])
    case Remove(id) => o.(members := o.members - {id})
  }

  ghost predicate Possible(o: Org, maxSeats: int, steps: seq<Step>)
    decreases steps
  {
    steps == [] || (Enabled(o, steps[0]) && Possible(Next(o, maxSeats, steps[0]), maxSeats, steps[1..]))
  }

  ghost function Run(o: Org, maxSeats: int, steps: seq<Step>): Org
    requires Possible(o, maxSeats, steps)
    decreases steps
  {
    if steps == [] then o else Run(Next(o, maxSeats, steps[0]), maxSeats, steps[1..])
  }

  /** Never more than `k` creations between check and insert. */
  ghost predicate AtMost(o: Org, maxSeats: int, steps: seq<Step>, k: int)
    requires Possible(o, maxSeats, steps)
    decreases steps
  {
    InFlight(o) <= k && (steps == [] || AtMost(Next(o, maxSeats, steps[0]), maxSeats, steps[1..], k))
  }

  lemma InFlightMoves(o: Org, maxSeats: int, step: Step)
    requires Enabled(o, step)
    ensures InFlight(Next(o, maxSeats, step)) - InFlight(o) ==
              match step
              case Check(_) => if Seats(o) >= maxSeats then 0 else 1
              case Insert(_, _, _, _) => -1
              case _ => 0
  {
    match step
    case Arrive => SumAppend(IsPassed(), o.calls, Arrived);
    case Check(i) => SumUpdate(IsPassed(), o.calls, i, if Seats(o) >= maxSeats then Over(false) else Passed);
    case Insert(i, _, _, ok) => SumUpdate(IsPassed(), o.calls, i, Over(ok));
    case _ =>
  }

  lemma SeatsMove(o: Org, maxSeats: int, step: Step)
    requires Enabled(o, step)
    ensures var n := Next(o, maxSeats, step);
      if step.Insert? && step.ok then Seats(n) == Seats(o) + 1
      else if step.Remove? then Seats(n) == Seats(o) - (if TakesSeat(o.members[step.id]) then 1 else 0)
      else Seats(n) == Seats(o)
  {
    match step
    case Insert(_, id, status, ok) => if ok { SeatAdded(o.members, id, status); }
    case Remove(id) => SeatRemoved(o.members, id);
    case Activate(ids) => assert Seated(Next(o, maxSeats, step).members) == Seated(o.members);
    case _ =>
  }

  lemma SeatAdded(members: map<nat, Status>, id: nat, status: Status)
    requires id !in members && TakesSeat(status)
    ensures |Seated(members[id := status])| == |Seated(members)| + 1
  {
    assert Seated(members[id := status]) == Seated(members) + {id};
  }

  lemma SeatRemoved(members: map<nat, Status>, id: nat)
    requires id in members
    ensures |Seated(members - {id})| == |Seated(members)| - (if TakesSeat(members[id]) then 1 else 0)
  {
    assert Seated(members - {id}) == Seated(members) - {id};
  }

  /**
   * In every interleaving with at most k creations between check and insert at a time, the ACTIVE and
   * INVITED members, together with the creations under way, never exceed maxSeats + k - 1.
   */
  lemma {:induction false} SeatsAreBounded(o: Org, maxSeats: int, steps: seq<Step>, k: int)
    requires Possible(o, maxSeats, steps) && AtMost(o, maxSeats, steps, k)
    requires Seats(o) + InFlight(o) <= maxSeats + k - 1
    ensures Seats(Run(o, maxSeats, steps)) + InFlight(Run(o, maxSeats, steps)) <= maxSeats + k - 1
    ensures 0 <= InFlight(Run(o, maxSeats, steps))
    decreases steps
  {
    if steps == [] {
      InFlightIsNatural(o.calls);
    } else {
      InFlightMoves(o, maxSeats, steps[0]);
      SeatsMove(o, maxSeats, steps[0]);
      SeatsAreBounded(Next(o, maxSeats, steps[0]), maxSeats, steps[1..], k);
    }
  }

  lemma {:induction false} InFlightIsNatural(calls: seq<Call>)
    ensures Sum(IsPassed(), calls) >= 0
  {
    if calls != [] {
      InFlightIsNatural(calls[1..]);
    }
  }

  lemma SeatedMeans(members: map<nat, Status>)
    ensures (set m | m in members && (members[m] == ACTIVE || members[m] == INVITED)) == Seated(members)
  {
  }

  /** Creations one after the other never exceed the limit, unless it was exceeded before. */
  lemma SequentialCreationsRespectTheLimit(o: Org, maxSeats: int, steps: seq<Step>)
    requires Possible(o, maxSeats, steps) && AtMost(o, maxSeats, steps, 1)
    requires o.calls == [] && |set m | m in o.members && (o.members[m] == ACTIVE || o.members[m] == INVITED)| <= maxSeats
    ensures var end := Run(o, maxSeats, steps).members;
      |set m | m in end && (end[m] == ACTIVE || end[m] == INVITED)| <= maxSeats
  {
    SeatedMeans(o.members);
    SeatsAreBounded(o, maxSeats, steps, 1);
    SeatedMeans(Run(o, maxSeats, steps).members);
  }

  // ---- The bound is reached ----

  /** `n` creations arrive. */
  function Arrivals(n: nat): seq<Step> { seq(n, _ => Arrive) }

  /** Creations i, i + 1, ..., n - 1 check. */
  function Checks(i: nat, n: nat): seq<Step>
    requires i <= n
  {
    seq(n - i, j requires 0 <= j < n - i => Check(i + j))
  }

  /** Then they insert, each a new member. */
  function Inserts(i: nat, n: nat, base: nat): seq<Step>
    requires i <= n
  {
    seq(n - i, j requires 0 <= j < n - i => Insert(i + j, base + i + j, ACTIVE, true))
  }

  lemma {:induction false} RunArrivals(o: Org, maxSeats: int, n: nat)
    ensures Possible(o, maxSeats, Arrivals(n))
    ensures Run(o, maxSeats, Arrivals(n)) == o.(calls := o.calls + seq(n, _ => Arrived))
    decreases n
  {
    var steps := Arrivals(n);
    if n == 0 {
      assert o.calls + seq(n, _ => Arrived) == o.calls;
    } else {
      assert steps[1..] == Arrivals(n - 1);
      RunArrivals(Next(o, maxSeats, Arrive), maxSeats, n - 1);
      assert o.calls + [Arrived] + seq(n - 1, _ => Arrived) == o.calls + seq(n, _ => Arrived);
    }
  }

  lemma {:induction false} RunChecks(o: Org, maxSeats: int, i: nat, n: nat)
    requires i <= n == |o.calls| && Seats(o) < maxSeats
    requires forall j | 0 <= j < n :: o.calls[j] == if j < i then Passed else Arrived
    ensures Possible(o, maxSeats, Checks(i, n))
    ensures Run(o, maxSeats, Checks(i, n)) == o.(calls := seq(n, _ => Passed))
    decreases n - i
  {
    if i == n {
      assert o.calls == seq(n, _ => Passed);
    } else {
      var steps := Checks(i, n);
      assert steps[0] == Check(i) && steps[1..] == Checks(i + 1, n);
      RunChecks(Next(o, maxSeats, Check(i)), maxSeats, i + 1, n);
    }
  }

  lemma {:induction false} RunInserts(o: Org, maxSeats: int, i: nat, n: nat, base: nat)
    requires i <= n == |o.calls| && forall j | i <= j < n :: o.calls[j].Passed?
    requires forall m | m in o.members :: m < base + i
    ensures Possible(o, maxSeats, Inserts(i, n, base))
    ensures Seats(Run(o, maxSeats, Inserts(i, n, base))) == Seats(o) + (n - i)
    decreases n - i
  {
    if i < n {
      var steps := Inserts(i, n, base);
      var step := Insert(i, base + i, ACTIVE, true);
      assert steps[0] == step && steps[1..] == Inserts(i + 1, n, base);
      SeatsMove(o, maxSeats, step);
      RunInserts(Next(o, maxSeats, step), maxSeats, i + 1, n, base);
    }
  }

  /** One free seat and k creations that all check before any inserts: the members end at exactly maxSeats + k - 1. */
  lemma TheBoundIsReached(o: Org, maxSeats: int, k: nat, base: nat) returns (steps: seq<Step>)
    requires k >= 1 && o.calls == [] && Seats(o) == maxSeats - 1 && forall m | m in o.members :: m < base
    ensures Possible(o, maxSeats, steps) && AtMost(o, maxSeats, steps, k)
    ensures Seats(Run(o, maxSeats, steps)) == maxSeats + k - 1
  {
    RunArrivals(o, maxSeats, k);
    var o1 := Run(o, maxSeats, Arrivals(k));
    assert o1.calls == seq(k, _ => Arrived);
    RunChecks(o1, maxSeats, 0, k);
    var o2 := Run(o1, maxSeats, Checks(0, k));
    RunInserts(o2, maxSeats, 0, k, base);
    NoneArrive(o1, maxSeats, Checks(0, k));
    NoneArrive(o2, maxSeats, Inserts(0, k, base));
    OnlyArrivals(o, maxSeats, k, k);
    RunAppend(o1, maxSeats, Checks(0, k), Inserts(0, k, base), k);
    RunAppend(o, maxSeats, Arrivals(k), Checks(0, k) + Inserts(0, k, base), k);
    steps := Arrivals(k) + (Checks(0, k) + Inserts(0, k, base));
  }

  lemma {:induction false} InFlightFitsCalls(calls: seq<Call>)
    ensures Sum(IsPassed(), calls) <= |calls|
  {
    if calls != [] {
      InFlightFitsCalls(calls[1..]);
    }
  }

  lemma {:induction false} NoneArrive(o: Org, maxSeats: int, steps: seq<Step>)
    requires Possible(o, maxSeats, steps) && forall s | s in steps :: !s.Arrive?
    ensures AtMost(o, maxSeats, steps, |o.calls|)
    decreases steps
  {
    InFlightFitsCalls(o.calls);
    if steps != [] {
      assert steps[0] in steps && forall s | s in steps[1..] :: s in steps;
      NoneArrive(Next(o, maxSeats, steps[0]), maxSeats, steps[1..]);
    }
  }

  lemma {:induction false} OnlyArrivals(o: Org, maxSeats: int, n: nat, k: int)
    requires Possible(o, maxSeats, Arrivals(n)) && InFlight(o) <= k
    ensures AtMost(o, maxSeats, Arrivals(n), k)
    decreases n
  {
    if n > 0 {
      assert Arrivals(n)[1..] == Arrivals(n - 1);
      InFlightMoves(o, maxSeats, Arrive);
      OnlyArrivals(Next(o, maxSeats, Arrive), maxSeats, n - 1, k);
    }
  }

  lemma {:induction false} RunAppend(o: Org, maxSeats: int, a: seq<Step>, b: seq<Step>, k: int)
    requires Possible(o, maxSeats, a) && Possible(Run(o, maxSeats, a), maxSeats, b)
    requires AtMost(o, maxSeats, a, k) && AtMost(Run(o, maxSeats, a), maxSeats, b, k)
    ensures Possible(o, maxSeats, a + b) && Run(o, maxSeats, a + b) == Run(Run(o, maxSeats, a), maxSeats, b)
    ensures AtMost(o, maxSeats, a + b, k)
    decreases a
  {
    if a == [] {
      assert a + b == b;
    } else {
      assert (a + b)[1..] == a[1..] + b;
      RunAppend(Next(o, maxSeats, a[0]), maxSeats, a[1..], b, k);
    }
  }
}
