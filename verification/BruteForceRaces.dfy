/**
 * Brute-force calls that overlap: each Redis command is one step, time passes freely between steps, and
 * any call may be overtaken by any other, including a reset. A call whose command fails takes no further step.
 */
module BruteForceRaces {
  import opened Foundations
  import opened RedisKeys
  import opened BruteForce

  /** One INCR: whose counter, which life of it, and what it returned. */
  datatype Hit = Hit(id: string, life: nat, value: nat)

  datatype Call =
    | RecordStart(id: string)
    | FoundUnlocked(id: string)
    | FirstHit(id: string, hit: nat)
    | LimitReached(id: string, hit: nat)
    | ClearStart(id: string)
    | Done

  /** A lock's value here names the INCR that led to it; `lives` counts how often each counter was created. */
  datatype Race = Race(
    clock: int,
    attempts: map<string, Entry<nat>>,
    locks: map<string, Entry<nat>>,
    lives: map<string, nat>,
    log: seq<Hit>,
    calls: seq<Call>)

  datatype Step = Tick(to: int) | Arrive(call: Call) | Advance(i: nat)

  predicate Enabled(r: Race, step: Step) {
    match step
    case Tick(to) => r.clock <= to
    case Arrive(c) => c.RecordStart? || c.ClearStart?
    case Advance(i) => i < |r.calls| && !r.calls[i].Done?
  }

  function LifeOf(lives: map<string, nat>, id: string): nat { if id in lives then lives[id] else 0 }

  function AfterHit(cfg: Config, id: string, hit: nat, value: nat): Call {
    if value >= cfg.maxAttempts then LimitReached(id, hit) else Done
  }

  function Increment(cfg: Config, r: Race, i: nat, id: string): Race
    requires i < |r.calls|
  {
    var life := if Alive(r.attempts, id, r.clock) then LifeOf(r.lives, id) else LifeOf(r.lives, id) + 1;
    var attempts := Incr(r.attempts, id, r.clock);
    var value := attempts[id].value;
    var after := if value == 1 then FirstHit(id, |r.log|) else AfterHit(cfg, id, |r.log|, value);
    r.(attempts := attempts, lives := r.lives[id := life], log := r.log + [Hit(id, life, value)], calls := r.calls[i := after])
  }

  function Next(cfg: Config, r: Race, step: Step): Race
    requires Enabled(r, step)
  {
    match step
    case Tick(to) => r.(clock := to)
    case Arrive(c) => r.(calls := r.calls + [c])
    case Advance(i) =>
      match r.calls[i]
      case RecordStart(id) => r.(calls := r.calls[i := if Alive(r.locks, id, r.clock) then Done else FoundUnlocked(id)])
      case FoundUnlocked(id) => Increment(cfg, r, i, id)
      case FirstHit(id, hit) =>
        r.(attempts := Expire(r.attempts, id, r.clock, cfg.trackingTtl), calls := r.calls[i := AfterHit(cfg, id, hit, 1)])
      case LimitReached(id, hit) =>
        r.(locks := SetEx(r.locks, id, hit, r.clock, cfg.lockoutTtl), calls := r.calls[i := Done])
      case ClearStart(id) =>
        r.(attempts := Del(r.attempts, id), locks := Del(r.locks, id), calls := r.calls[i := Done])
      case Done => r
  }

  /** How many INCRs of one life of one counter the log holds. */
  function HitsIn(log: seq<Hit>, id: string, life: nat): nat {
    if log == [] then 0
    else HitsIn(log[..|log| - 1], id, life) + if log[|log| - 1].id == id && log[|log| - 1].life == life then 1 else 0
  }

  /** Entry `k` is for `id`, reached the limit, and returned the number of INCRs of its life so far. */
  ghost predicate Justifies(cfg: Config, log: seq<Hit>, k: nat, id: string) {
    && k < |log| && log[k].id == id && log[k].value >= cfg.maxAttempts
    && HitsIn(log[..k + 1], id, log[k].life) == log[k].value
  }

  ghost predicate LogValid(log: seq<Hit>, lives: map<string, nat>) {
    forall k | 0 <= k < |log| ::
      log[k].life <= LifeOf(lives, log[k].id) && HitsIn(log[..k + 1], log[k].id, log[k].life) == log[k].value
  }

  ghost predicate CountersValid(attempts: map<string, Entry<nat>>, log: seq<Hit>, lives: map<string, nat>) {
    forall id | id in attempts :: HitsIn(log, id, LifeOf(lives, id)) == attempts[id].value
  }

  ghost predicate CallValid(cfg: Config, c: Call, log: seq<Hit>) {
    match c
    case LimitReached(id, hit) => Justifies(cfg, log, hit, id)
    case FirstHit(id, hit) =>
      hit < |log| && log[hit].id == id && log[hit].value == 1 && HitsIn(log[..hit + 1], id, log[hit].life) == 1
    case _ => true
  }

  ghost predicate LocksValid(cfg: Config, locks: map<string, Entry<nat>>, log: seq<Hit>) {
    forall id | id in locks :: Justifies(cfg, log, locks[id].value, id)
  }

  ghost predicate Valid(cfg: Config, r: Race) {
    && LogValid(r.log, r.lives)
    && CountersValid(r.attempts, r.log, r.lives)
    && (forall i | 0 <= i < |r.calls| :: CallValid(cfg, r.calls[i], r.log))
    && LocksValid(cfg, r.locks, r.log)
  }

  lemma {:induction false} NoHitsInNewLife(log: seq<Hit>, id: string, life: nat)
    requires forall k | 0 <= k < |log| && log[k].id == id :: log[k].life != life
    ensures HitsIn(log, id, life) == 0
  {
    if log != [] {
      NoHitsInNewLife(log[..|log| - 1], id, life);
    }
  }

  lemma JustifiesGrows(cfg: Config, log: seq<Hit>, hit: Hit, k: nat, id: string)
    requires Justifies(cfg, log, k, id)
    ensures Justifies(cfg, log + [hit], k, id)
  {
    assert (log + [hit])[..k + 1] == log[..k + 1];
  }

  lemma CallValidGrows(cfg: Config, log: seq<Hit>, hit: Hit, c: Call)
    requires CallValid(cfg, c, log)
    ensures CallValid(cfg, c, log + [hit])
  {
    if c.LimitReached? {
      JustifiesGrows(cfg, log, hit, c.hit, c.id);
    } else if c.FirstHit? {
      assert (log + [hit])[..c.hit + 1] == log[..c.hit + 1];
    }
  }

  lemma HitsAppend(log: seq<Hit>, hit: Hit, id: string, life: nat)
    ensures HitsIn(log + [hit], id, life) == HitsIn(log, id, life) + if hit.id == id && hit.life == life then 1 else 0
  {
    assert (log + [hit])[..|log|] == log;
  }

  lemma LogAppend(log: seq<Hit>, lives: map<string, nat>, hit: Hit)
    requires LogValid(log, lives)
    requires LifeOf(lives, hit.id) <= hit.life && hit.value == HitsIn(log, hit.id, hit.life) + 1
    ensures LogValid(log + [hit], lives[hit.id := hit.life])
  {
    var longer := log + [hit];
    forall k | 0 <= k < |longer|
      ensures longer[k].life <= LifeOf(lives[hit.id := hit.life], longer[k].id)
      ensures HitsIn(longer[..k + 1], longer[k].id, longer[k].life) == longer[k].value
    {
      if k < |log| {
        assert longer[..k + 1] == log[..k + 1];
      } else {
        assert longer[..k + 1] == longer;
        HitsAppend(log, hit, hit.id, hit.life);
      }
    }
  }

  /** The new entry returns the number of INCRs of its own life, and every counter still matches the log. */
  lemma IncrementKeepsLog(cfg: Config, r: Race, i: nat, id: string)
    requires LogValid(r.log, r.lives) && CountersValid(r.attempts, r.log, r.lives) && i < |r.calls|
    ensures var n := Increment(cfg, r, i, id);
      LogValid(n.log, n.lives) && CountersValid(n.attempts, n.log, n.lives)
  {
    var n := Increment(cfg, r, i, id);
    var hit := n.log[|r.log|];
    if !Alive(r.attempts, id, r.clock) {
      NoHitsInNewLife(r.log, id, hit.life);
    }
    LogAppend(r.log, r.lives, hit);
    forall other | other in n.attempts ensures HitsIn(n.log, other, LifeOf(n.lives, other)) == n.attempts[other].value {
      HitsAppend(r.log, hit, other, LifeOf(n.lives, other));
    }
  }

  lemma IncrementKeepsValid(cfg: Config, r: Race, i: nat, id: string)
    requires Valid(cfg, r) && i < |r.calls|
    ensures Valid(cfg, Increment(cfg, r, i, id))
  {
    var n := Increment(cfg, r, i, id);
    var hit := n.log[|r.log|];
    IncrementKeepsLog(cfg, r, i, id);
    forall j | 0 <= j < |n.calls| ensures CallValid(cfg, n.calls[j], n.log) {
      if j == i {
        assert n.log[..|r.log| + 1] == n.log;
      } else {
        CallValidGrows(cfg, r.log, hit, r.calls[j]);
      }
    }
    forall other | other in n.locks ensures Justifies(cfg, n.log, n.locks[other].value, other) {
      JustifiesGrows(cfg, r.log, hit, r.locks[other].value, other);
    }
  }

  lemma NextKeepsValid(cfg: Config, r: Race, step: Step)
    requires Valid(cfg, r) && Enabled(r, step)
    ensures Valid(cfg, Next(cfg, r, step))
  {
    if step.Advance? {
      assert CallValid(cfg, r.calls[step.i], r.log);
      if r.calls[step.i].FoundUnlocked? {
        IncrementKeepsValid(cfg, r, step.i, r.calls[step.i].id);
      }
    }
  }

  ghost predicate Possible(cfg: Config, r: Race, steps: seq<Step>)
    decreases steps
  {
    steps == [] || (Enabled(r, steps[0]) && Possible(cfg, Next(cfg, r, steps[0]), steps[1..]))
  }

  ghost function Run(cfg: Config, r: Race, steps: seq<Step>): Race
    requires Possible(cfg, r, steps)
    decreases steps
  {
    if steps == [] then r else Run(cfg, Next(cfg, r, steps[0]), steps[1..])
  }

  lemma {:induction false} RunKeepsValid(cfg: Config, r: Race, steps: seq<Step>)
    requires Valid(cfg, r) && Possible(cfg, r, steps)
    ensures Valid(cfg, Run(cfg, r, steps))
    decreases steps
  {
    if steps != [] {
      NextKeepsValid(cfg, r, steps[0]);
      RunKeepsValid(cfg, Next(cfg, r, steps[0]), steps[1..]);
    }
  }

  // ---- A call nobody interrupts ----

  lemma StepThen(cfg: Config, r: Race, step: Step, rest: seq<Step>)
    requires Enabled(r, step) && Possible(cfg, Next(cfg, r, step), rest)
    ensures Possible(cfg, r, [step] + rest) && Run(cfg, r, [step] + rest) == Run(cfg, Next(cfg, r, step), rest)
  {
    assert ([step] + rest)[1..] == rest;
  }

  /** From its INCR on: the expiry after a count of 1, then the lock from the last allowed attempt on. */
  lemma CountedCallEnds(cfg: Config, r: Race, i: nat, id: string) returns (steps: seq<Step>)
    requires i < |r.calls| && r.calls[i] == FoundUnlocked(id)
    ensures var count := Get(r.attempts, id, r.clock).GetOr(0) + 1;
      var until := if count == 1 then Some(r.clock + cfg.trackingTtl * 1000) else r.attempts[id].deadline;
      && Possible(cfg, r, steps)
      && var end := Run(cfg, r, steps);
      && end.clock == r.clock && end.calls == r.calls[i := Done]
      && end.attempts == r.attempts[id := Entry(count, until)]
      && end.locks == if count >= cfg.maxAttempts then r.locks[id := Entry(|r.log|, Some(r.clock + cfg.lockoutTtl * 1000))] else r.locks
  {
    var hit := Next(cfg, r, Advance(i));
    var counted := if hit.calls[i].FirstHit? then Next(cfg, hit, Advance(i)) else hit;
    steps := [];
    if counted.calls[i].LimitReached? {
      StepThen(cfg, counted, Advance(i), steps);
      steps := [Advance(i)] + steps;
    }
    if hit.calls[i].FirstHit? {
      StepThen(cfg, hit, Advance(i), steps);
      steps := [Advance(i)] + steps;
    }
    StepThen(cfg, r, Advance(i), steps);
    steps := [Advance(i)] + steps;
  }

  /** A failed attempt nobody interrupts leaves counter and lock as the whole call does. */
  lemma UndisturbedCallRecords(cfg: Config, r: Race, id: string, s: State) returns (steps: seq<Step>)
    requires s.attempts == r.attempts && (Alive(s.locks, id, r.clock) <==> Alive(r.locks, id, r.clock))
    ensures var (whole, result) := Record(cfg, s, id, r.clock, None);
      && Possible(cfg, r, steps)
      && var end := Run(cfg, r, steps);
      && end.calls == r.calls + [Done] && end.attempts == whole.attempts
      && end.locks == if result.locked && !Alive(s.locks, id, r.clock)
                      then r.locks[id := Entry(|r.log|, whole.locks[id].deadline)] else r.locks
  {
    var i := |r.calls|;
    var arrived := Next(cfg, r, Arrive(RecordStart(id)));
    var looked := Next(cfg, arrived, Advance(i));
    steps := [];
    if looked.calls[i].FoundUnlocked? {
      steps := CountedCallEnds(cfg, looked, i, id);
    }
    StepThen(cfg, arrived, Advance(i), steps);
    StepThen(cfg, r, Arrive(RecordStart(id)), [Advance(i)] + steps);
    steps := [Arrive(RecordStart(id))] + ([Advance(i)] + steps);
  }

  const EMPTY := Race(0, map[], map[], map[], [], [])

  /**
   * In every interleaving, each lock goes back to an INCR of the same identifier that returned at least
   * maxAttempts, and at that INCR the counter had really been incremented that often since it was last
   * created, that is, since it was last deleted or had expired.
   */
  lemma EveryLockIsJustified(cfg: Config, steps: seq<Step>, id: string)
    requires Possible(cfg, EMPTY, steps)
    ensures var end := Run(cfg, EMPTY, steps);
      id in end.locks ==>
        var k := end.locks[id].value;
        && k < |end.log| && end.log[k].id == id
        && HitsIn(end.log[..k + 1], id, end.log[k].life) >= cfg.maxAttempts
  {
    RunKeepsValid(cfg, EMPTY, steps);
  }
}
