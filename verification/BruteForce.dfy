/** Brute-force lockout: an attempt counter with a tracking window and a lock key with its own expiry. */
module BruteForce {
  import opened Foundations
  import opened RedisKeys

  /** Both times to live are seconds. */
  datatype Config = Config(maxAttempts: int, lockoutTtl: int, trackingTtl: int)
  {
    predicate Positive() { maxAttempts >= 1 && lockoutTtl >= 1 && trackingTtl >= 1 }
  }

  datatype State = State(attempts: map<string, Entry<nat>>, locks: map<string, Entry<string>>)

  datatype Result = Result(locked: bool, attempts: int, lockoutRemainingSeconds: int)

  function AttemptsAfter(cfg: Config, s: State, id: string, clock: int): map<string, Entry<nat>> {
    var counted := Incr(s.attempts, id, clock);
    if counted[id].value == 1 then Expire(counted, id, clock, cfg.trackingTtl) else counted
  }

  /** The Redis commands of a call, in order. */
  datatype Command = CheckLock | ReadTtl | Increment | SetExpiry | SetLock

  const FAIL_OPEN := Result(false, 0, 0)

  /** recordFailedAttempt, all its commands at one instant; `throws` is the command that fails, if the call reaches it. */
  function Record(cfg: Config, s: State, id: string, clock: int, throws: Option<Command>): (State, Result) {
    if throws == Some(CheckLock) then (s, FAIL_OPEN)
    else if Alive(s.locks, id, clock) then
      (s, if throws == Some(ReadTtl) then FAIL_OPEN else Result(true, cfg.maxAttempts, Max(0, Ttl(s.locks, id, clock))))
    else if throws == Some(Increment) then (s, FAIL_OPEN)
    else
      var counted := Incr(s.attempts, id, clock);
      var count := counted[id].value;
      if count == 1 && throws == Some(SetExpiry) then (State(counted, s.locks), FAIL_OPEN)
      else
        var attempts := AttemptsAfter(cfg, s, id, clock);
        if count < cfg.maxAttempts then (State(attempts, s.locks), Result(false, count, 0))
        else if throws == Some(SetLock) then (State(attempts, s.locks), FAIL_OPEN)
        else (State(attempts, SetEx(s.locks, id, "1", clock, cfg.lockoutTtl)), Result(true, count, cfg.lockoutTtl))
  }

  /** One DEL of both keys; its failure is logged only. */
  function Reset(s: State, id: string, ok: bool): State { if ok then State(Del(s.attempts, id), Del(s.locks, id)) else s }

  // ---- What one call writes ----

  /**
   * A failure met by no live lock: the live counter goes up by one, or a new one starts at 1 and expires after
   * the tracking window; from the last allowed attempt on it sets a lock that expires after the lockout.
   */
  lemma FailureCounted(cfg: Config, s: State, id: string, clock: int)
    requires id in s.locks ==> s.locks[id].deadline.Some? && s.locks[id].deadline.value <= clock
    ensures var alive := id in s.attempts && (s.attempts[id].deadline.None? || clock < s.attempts[id].deadline.value);
      var count := if alive then s.attempts[id].value + 1 else 1;
      var until := if count == 1 then Some(clock + cfg.trackingTtl * 1000) else s.attempts[id].deadline;
      var lock := count >= cfg.maxAttempts;
      Record(cfg, s, id, clock, None) ==
        (State(s.attempts[id := Entry(count, until)],
               if lock then s.locks[id := Entry("1", Some(clock + cfg.lockoutTtl * 1000))] else s.locks),
         Result(lock, count, if lock then cfg.lockoutTtl else 0))
  {
    assert !Alive(s.locks, id, clock);
    var counted := Incr(s.attempts, id, clock);
    if counted[id].value == 1 {
      var e := Entry(1, Some(clock + cfg.trackingTtl * 1000));
      assert AttemptsAfter(cfg, s, id, clock) == counted[id := e] == s.attempts[id := e];
    }
  }

  /** A failure met by a live lock is not counted and learns the rest of the lockout, in whole seconds. */
  lemma FailureRefused(cfg: Config, s: State, id: string, clock: int, until: int)
    requires id in s.locks && s.locks[id].deadline == Some(until) && clock < until
    ensures Record(cfg, s, id, clock, None) == (s, Result(true, cfg.maxAttempts, (until - clock + 500) / 1000))
  {
  }

  /** Any failing command that is reached answers unlocked, and keeps what the commands before it wrote. */
  lemma FailsOpen(cfg: Config, s: State, id: string, clock: int, throws: Command)
    ensures var (n, r) := Record(cfg, s, id, clock, Some(throws));
      && (r == Result(false, 0, 0) || (n, r) == Record(cfg, s, id, clock, None))
      && (throws == CheckLock ==> n == s && r == Result(false, 0, 0))
      && (throws == Increment && id !in s.locks ==> n == s && r == Result(false, 0, 0))
      && (throws == SetExpiry && id !in s.locks && id !in s.attempts ==> n == State(s.attempts[id := Entry(1, None)], s.locks))
      && (throws == SetLock ==> n.locks == s.locks && n.attempts == Record(cfg, s, id, clock, None).0.attempts)
      && (throws == ReadTtl ==> n == Record(cfg, s, id, clock, None).0)
  {
  }

  /** A reset removes the identifier's counter and lock and nothing else. */
  lemma ResetClears(s: State, id: string, ok: bool)
    ensures Reset(s, id, ok) == if ok then State(s.attempts - {id}, s.locks - {id}) else s
  {
  }

  class Service {
    const cfg: Config
    var attempts: map<string, Entry<nat>>
    var locks: map<string, Entry<string>>

    constructor (cfg: Config)
      ensures this.cfg == cfg && Stored() == State(map[], map[])
    {
      this.cfg := cfg;
      attempts, locks := map[], map[];
    }

    ghost function Stored(): State
      reads this
    {
      State(attempts, locks)
    }

    method RecordFailedAttempt(id: string, clock: int, throws: Option<Command>) returns (r: Result)
      modifies this
      ensures (Stored(), r) == Record(cfg, old(Stored()), id, clock, throws)
    {
      if throws == Some(CheckLock) {
        return FAIL_OPEN;
      }
      if Alive(locks, id, clock) {
        if throws == Some(ReadTtl) {
          return FAIL_OPEN;
        }
        var lockoutRemainingSeconds := Max(0, Ttl(locks, id, clock));
        return Result(true, cfg.maxAttempts, lockoutRemainingSeconds);
      }
      if throws == Some(Increment) {
        return FAIL_OPEN;
      }
      attempts := Incr(attempts, id, clock);
      var count := attempts[id].value;
      if count == 1 {
        if throws == Some(SetExpiry) {
          return FAIL_OPEN;
        }
        attempts := Expire(attempts, id, clock, cfg.trackingTtl);
      }
      if count >= cfg.maxAttempts {
        if throws == Some(SetLock) {
          return FAIL_OPEN;
        }
        locks := SetEx(locks, id, "1", clock, cfg.lockoutTtl);
        return Result(true, count, cfg.lockoutTtl);
      }
      return Result(false, count, 0);
    }

    method IsLocked(id: string, clock: int, ok: bool) returns (locked: bool)
      ensures locked == (ok && Alive(locks, id, clock))
    {
      return ok && Get(locks, id, clock).Some?;
    }

    /**
     * Agrees with what a recorded attempt would find: the live counter, whether the lock lives, and the
     * time left that a refused attempt would be told; fails open like it.
     */
    method GetState(id: string, clock: int, ok: bool) returns (r: Result)
      ensures !ok ==> r == Result(false, 0, 0)
      ensures ok ==> r.locked == Alive(locks, id, clock) && r.attempts == Get(attempts, id, clock).GetOr(0)
      ensures ok && r.locked ==>
                r.lockoutRemainingSeconds == Record(cfg, Stored(), id, clock, None).1.lockoutRemainingSeconds
      ensures ok && !r.locked ==>
                r.lockoutRemainingSeconds == 0 && r.attempts + 1 == AttemptsAfter(cfg, Stored(), id, clock)[id].value
    {
      if !ok {
        return FAIL_OPEN;
      }
      var locked := Alive(locks, id, clock);
      var count := Get(attempts, id, clock).GetOr(0);
      return Result(locked, count, if locked then Max(0, Ttl(locks, id, clock)) else 0);
    }

    method ResetAttempts(id: string, ok: bool)
      modifies this
      ensures Stored() == Reset(old(Stored()), id, ok)
    {
      if ok {
        attempts := Del(attempts, id);
        locks := Del(locks, id);
      }
    }
  }

  // ---- Whole calls, any times ----

  datatype Op = Fail(id: string, throws: Option<Command>) | Clear(id: string, ok: bool)

  /** An operation and the time it happens at. */
  datatype Timed = Timed(at: int, op: Op)

  /**
   * What one life of an identifier's counter has seen: failures counted, those that came back unlocked,
   * those whose lock could not be set, and whether the counter was given its expiry.
   */
  datatype Life = Life(recorded: nat, unlocked: nat, unsetLocks: nat, expires: bool)

  const NO_LIFE := Life(0, 0, 0, true)

  function Apply(cfg: Config, s: State, t: Timed): State {
    match t.op
    case Fail(id, throws) => Record(cfg, s, id, t.at, throws).0
    case Clear(id, ok) => Reset(s, id, ok)
  }

  /** The call gets as far as counting a failure of `id`. */
  predicate Counts(s: State, t: Timed, id: string) {
    t.op.Fail? && t.op.id == id && !Alive(s.locks, id, t.at) && t.op.throws !in {Some(CheckLock), Some(Increment)}
  }

  /** The life of `id`'s counter after `t`: a count of 1 starts a new one, a call that does not count adds nothing. */
  function LifeAfter(cfg: Config, s: State, t: Timed, id: string, life: Life): Life {
    if !Counts(s, t, id) then life
    else
      var (after, r) := Record(cfg, s, id, t.at, t.op.throws);
      var count := Incr(s.attempts, id, t.at)[id].value;
      var unlocked := if r.locked then 0 else 1;
      var unset := if count >= cfg.maxAttempts && t.op.throws == Some(SetLock) then 1 else 0;
      if count == 1 then Life(1, unlocked, unset, t.op.throws != Some(SetExpiry))
      else Life(life.recorded + 1, life.unlocked + unlocked, life.unsetLocks + unset, life.expires)
  }

  /** Upper bound on the failures one counter life can hold when all its commands work. */
  function Bound(cfg: Config): int
    requires cfg.Positive()
  {
    cfg.maxAttempts - 1 + (cfg.trackingTtl + cfg.lockoutTtl - 1) / cfg.lockoutTtl
  }

  /** How many locks a counter at `n` has set beyond its first. */
  function Locks(cfg: Config, n: nat, life: Life): int { n - cfg.maxAttempts - life.unsetLocks }

  /**
   * The counter equals its life's failures and has a deadline exactly when it was given one; then the locks
   * it set are at least a lockout apart, and all of them fit in the tracking window.
   */
  ghost predicate LifeValid(cfg: Config, s: State, id: string, life: Life, now: int) {
    && (id in s.locks ==> s.locks[id].deadline.Some?)
    && (id in s.attempts ==>
          var e := s.attempts[id];
          && e.value >= 1 && life.recorded == e.value && (e.deadline.Some? <==> life.expires)
          && (life.expires ==> Windowed(cfg, s, id, life, now)))
  }

  ghost predicate Windowed(cfg: Config, s: State, id: string, life: Life, now: int)
    requires id in s.attempts && s.attempts[id].deadline.Some? && (id in s.locks ==> s.locks[id].deadline.Some?)
  {
    var n := s.attempts[id].value;
    var first := s.attempts[id].deadline.value - cfg.trackingTtl * 1000;
    && first <= now
    && life.unlocked == Min(n, cfg.maxAttempts - 1) + life.unsetLocks
    && (n < cfg.maxAttempts ==> life.unsetLocks == 0)
    && (n >= cfg.maxAttempts ==> Locks(cfg, n, life) >= -1)
    && (n >= cfg.maxAttempts && Locks(cfg, n, life) >= 0 ==>
          && id in s.locks
          && var last := s.locks[id].deadline.value - cfg.lockoutTtl * 1000;
             first + Locks(cfg, n, life) * cfg.lockoutTtl * 1000 <= last < s.attempts[id].deadline.value)
  }

  lemma BoundedByWindow(cfg: Config, locks: int)
    requires cfg.Positive()
    requires locks >= 0 ==> locks * cfg.lockoutTtl < cfg.trackingTtl
    ensures locks < (cfg.trackingTtl + cfg.lockoutTtl - 1) / cfg.lockoutTtl
  {
    var l, t := cfg.lockoutTtl, cfg.trackingTtl;
    var q := (t + l - 1) / l;
    assert q * l <= t + l - 1 < q * l + l;
    MultiplyAtLeast(locks, q, l);
    assert q >= 1 by {
      MultiplyAtLeast(0, q, l);
    }
  }

  lemma MultiplyAtLeast(a: int, b: int, c: int)
    requires c >= 0
    ensures a >= b ==> a * c >= b * c
  {
  }

  lemma LifeBounded(cfg: Config, s: State, id: string, life: Life, now: int)
    requires cfg.Positive() && LifeValid(cfg, s, id, life, now) && id in s.attempts && life.expires
    ensures life.recorded <= Bound(cfg) + life.unsetLocks && life.unlocked <= cfg.maxAttempts - 1 + life.unsetLocks
  {
    var n := s.attempts[id].value;
    if n >= cfg.maxAttempts {
      var k := Locks(cfg, n, life);
      if k >= 0 {
        assert k * cfg.lockoutTtl * 1000 < cfg.trackingTtl * 1000;
        assert k * cfg.lockoutTtl * 1000 == (k * cfg.lockoutTtl) * 1000;
      }
      BoundedByWindow(cfg, k);
    } else {
      BoundedByWindow(cfg, -1);
    }
  }

  /** A failure counted while the counter is alive: one more, and its lock, if it can be set, starts a lockout after the last one. */
  lemma GrowingLife(cfg: Config, s: State, id: string, life: Life, now: int, t: Timed)
    requires cfg.Positive() && LifeValid(cfg, s, id, life, now) && now <= t.at
    requires Counts(s, t, id) && Alive(s.attempts, id, t.at)
    ensures LifeValid(cfg, Apply(cfg, s, t), id, LifeAfter(cfg, s, t, id, life), t.at)
  {
    var n := s.attempts[id].value;
    var k := Locks(cfg, n, life);
    assert (k + 1) * cfg.lockoutTtl * 1000 == k * cfg.lockoutTtl * 1000 + cfg.lockoutTtl * 1000;
    assert k == -1 ==> (k + 1) * cfg.lockoutTtl * 1000 == 0;
  }

  lemma NewLife(cfg: Config, s: State, id: string, life: Life, now: int, t: Timed)
    requires cfg.Positive() && LifeValid(cfg, s, id, life, now) && now <= t.at
    requires Counts(s, t, id) && !Alive(s.attempts, id, t.at)
    ensures LifeValid(cfg, Apply(cfg, s, t), id, LifeAfter(cfg, s, t, id, life), t.at)
  {
    assert 1 == cfg.maxAttempts ==> (1 - cfg.maxAttempts) * cfg.lockoutTtl * 1000 == 0;
  }

  lemma StepKeepsLife(cfg: Config, s: State, t: Timed, id: string, life: Life, now: int)
    requires cfg.Positive() && LifeValid(cfg, s, id, life, now) && now <= t.at
    ensures LifeValid(cfg, Apply(cfg, s, t), id, LifeAfter(cfg, s, t, id, life), t.at)
  {
    if Counts(s, t, id) {
      if Alive(s.attempts, id, t.at) {
        GrowingLife(cfg, s, id, life, now, t);
      } else {
        NewLife(cfg, s, id, life, now, t);
      }
    } else {
      UncountedKeepsKeys(cfg, s, t, id);
    }
  }

  lemma UncountedKeepsKeys(cfg: Config, s: State, t: Timed, id: string)
    requires !Counts(s, t, id)
    ensures var n := Apply(cfg, s, t);
      && (id in n.locks ==> id in s.locks && n.locks[id] == s.locks[id])
      && (id in n.attempts ==> id in s.attempts && n.attempts[id] == s.attempts[id] && (id in s.locks ==> id in n.locks))
  {
  }

  function Run(cfg: Config, s: State, ts: seq<Timed>): State
    decreases ts
  {
    if ts == [] then s else Run(cfg, Apply(cfg, s, ts[0]), ts[1..])
  }

  function RunLife(cfg: Config, s: State, ts: seq<Timed>, id: string, life: Life): Life
    decreases ts
  {
    if ts == [] then life else RunLife(cfg, Apply(cfg, s, ts[0]), ts[1..], id, LifeAfter(cfg, s, ts[0], id, life))
  }

  /** From `now` on, times never go backwards. */
  predicate Ordered(now: int, ts: seq<Timed>)
    decreases ts
  {
    ts == [] || (now <= ts[0].at && Ordered(ts[0].at, ts[1..]))
  }

  lemma {:induction false} RunKeepsLife(cfg: Config, s: State, ts: seq<Timed>, id: string, life: Life, now: int)
    requires cfg.Positive() && LifeValid(cfg, s, id, life, now) && Ordered(now, ts)
    ensures LifeValid(cfg, Run(cfg, s, ts), id, RunLife(cfg, s, ts, id, life), if ts == [] then now else ts[|ts| - 1].at)
    decreases ts
  {
    if ts != [] {
      StepKeepsLife(cfg, s, ts[0], id, life, now);
      RunKeepsLife(cfg, Apply(cfg, s, ts[0]), ts[1..], id, LifeAfter(cfg, s, ts[0], id, life), ts[0].at);
    }
  }

  /**
   * Over any run of whole calls with any Redis failures: a counter life that was given its expiry records
   * at most (maxAttempts - 1) + ceil(trackingTtl / lockoutTtl) failures, plus one for each lock that could
   * not be set, and at most maxAttempts - 1 plus that number come back unlocked.
   */
  lemma OneLifeIsBounded(cfg: Config, start: int, ts: seq<Timed>, id: string)
    requires cfg.Positive() && Ordered(start, ts)
    ensures var life := RunLife(cfg, State(map[], map[]), ts, id, NO_LIFE);
      id in Run(cfg, State(map[], map[]), ts).attempts && life.expires ==>
        life.recorded <= cfg.maxAttempts - 1 + (cfg.trackingTtl + cfg.lockoutTtl - 1) / cfg.lockoutTtl + life.unsetLocks
        && life.unlocked <= cfg.maxAttempts - 1 + life.unsetLocks
  {
    var s := State(map[], map[]);
    RunKeepsLife(cfg, s, ts, id, NO_LIFE, start);
    var life := RunLife(cfg, s, ts, id, NO_LIFE);
    if id in Run(cfg, s, ts).attempts && life.expires {
      LifeBounded(cfg, Run(cfg, s, ts), id, life, if ts == [] then start else ts[|ts| - 1].at);
    }
  }

  // ---- When the bound holds ----

  predicate Faultless(ts: seq<Timed>) { forall t | t in ts :: t.op.Fail? ==> t.op.throws == None }

  lemma {:induction false} FaultlessRunsStayBounded(cfg: Config, s: State, ts: seq<Timed>, id: string, life: Life, now: int, unset: nat)
    requires cfg.Positive() && LifeValid(cfg, s, id, life, now) && Ordered(now, ts) && Faultless(ts)
    requires (id in s.attempts ==> life.expires) && life.unsetLocks <= unset && life.recorded <= Bound(cfg) + unset
    ensures RunLife(cfg, s, ts, id, life).recorded <= Bound(cfg) + unset
    decreases ts
  {
    if ts != [] {
      var t := ts[0];
      assert t in ts && forall u | u in ts[1..] :: u in ts;
      var n, after := Apply(cfg, s, t), LifeAfter(cfg, s, t, id, life);
      StepKeepsLife(cfg, s, t, id, life, now);
      if Counts(s, t, id) {
        LifeBounded(cfg, n, id, after, t.at);
      } else {
        UncountedKeepsKeys(cfg, s, t, id);
      }
      FaultlessRunsStayBounded(cfg, n, ts[1..], id, after, t.at, unset);
    }
  }

  /** A counter without an expiry takes `n` more failures, each just after the lock before it has gone. */
  lemma {:induction false} EndlessLife(cfg: Config, s: State, id: string, life: Life, now: int, n: nat) returns (ts: seq<Timed>)
    requires cfg.Positive() && LifeValid(cfg, s, id, life, now) && id in s.attempts && !life.expires
    ensures Ordered(now, ts) && Faultless(ts) && RunLife(cfg, s, ts, id, life).recorded == life.recorded + n
    decreases n
  {
    ts := [];
    if n > 0 {
      var at := if id in s.locks then Max(now, s.locks[id].deadline.value) else now;
      var t := Timed(at, Fail(id, None));
      StepKeepsLife(cfg, s, t, id, life, now);
      var rest := EndlessLife(cfg, Apply(cfg, s, t), id, LifeAfter(cfg, s, t, id, life), at, n - 1);
      ts := [t] + rest;
      assert ts[1..] == rest;
    }
  }

  /**
   * A life stays within the bound, whatever failures follow and all commands working, if and only if the
   * EXPIRE after its count of 1 worked.
   */
  lemma LifeIsBoundedIff(cfg: Config, s: State, id: string, life: Life, now: int)
    requires cfg.Positive() && LifeValid(cfg, s, id, life, now) && id in s.attempts
    ensures (forall ts | Ordered(now, ts) && Faultless(ts) :: RunLife(cfg, s, ts, id, life).recorded <= Bound(cfg) + life.unsetLocks)
            <==> life.expires
  {
    if life.expires {
      LifeBounded(cfg, s, id, life, now);
      forall ts | Ordered(now, ts) && Faultless(ts)
        ensures RunLife(cfg, s, ts, id, life).recorded <= Bound(cfg) + life.unsetLocks
      {
        FaultlessRunsStayBounded(cfg, s, ts, id, life, now, life.unsetLocks);
      }
    } else {
      BoundedByWindow(cfg, -1);
      var ts := EndlessLife(cfg, s, id, life, now, Bound(cfg) + life.unsetLocks);
      assert RunLife(cfg, s, ts, id, life).recorded > Bound(cfg) + life.unsetLocks;
    }
  }

  function UnsetLocks(id: string, at: int, n: nat): seq<Timed> { seq(n, _ => Timed(at, Fail(id, Some(SetLock)))) }

  /** The allowance for locks that could not be set is used up: `n` such failures at one instant all count and all come back unlocked. */
  lemma {:induction false} UnsetLocksAddUp(cfg: Config, s: State, id: string, life: Life, at: int, n: nat)
    requires !Alive(s.locks, id, at) && Alive(s.attempts, id, at) && 1 <= s.attempts[id].value && cfg.maxAttempts <= s.attempts[id].value + 1
    ensures RunLife(cfg, s, UnsetLocks(id, at, n), id, life)
         == Life(life.recorded + n, life.unlocked + n, life.unsetLocks + n, life.expires)
    decreases n
  {
    if n > 0 {
      var t := Timed(at, Fail(id, Some(SetLock)));
      assert UnsetLocks(id, at, n)[1..] == UnsetLocks(id, at, n - 1);
      UnsetLocksAddUp(cfg, Apply(cfg, s, t), id, LifeAfter(cfg, s, t, id, life), at, n - 1);
    }
  }
}
