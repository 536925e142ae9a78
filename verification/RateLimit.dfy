/**
 * The fixed-window rate limiter over Redis keys with a time to live. A check reads the clock, then
 * INCRs its window's key, then (first increment only) sets the key's expiry; checks overlap freely and
 * time passes between any two commands. Times are milliseconds.
 */
module RateLimit {
  import opened Foundations
  import opened RedisKeys

  /** `ttl` is the window length in seconds; the limit depends only on the axis the base key names. */
  datatype Config = Config(ttl: int, max: string -> int)

  datatype Key = Key(base: string, window: int)

  datatype Result = Result(allowed: bool, remaining: int, resetAt: int, count: int)

  function Window(cfg: Config, nowSeconds: int): int
    requires cfg.ttl > 0
  {
    nowSeconds / cfg.ttl
  }

  function ResetAt(cfg: Config, window: int): int { (window + 1) * cfg.ttl }

  /** `resetAt` is the end of the window around `nowSeconds`: the next multiple of the window length. */
  predicate EndsWindow(ttl: int, nowSeconds: int, resetAt: int)
    requires ttl > 0
  {
    resetAt % ttl == 0 && nowSeconds < resetAt <= nowSeconds + ttl
  }

  lemma ResetEndsWindow(cfg: Config, nowSeconds: int)
    requires cfg.ttl > 0
    ensures EndsWindow(cfg.ttl, nowSeconds, ResetAt(cfg, Window(cfg, nowSeconds)))
  {
    var w := nowSeconds / cfg.ttl;
    assert nowSeconds == w * cfg.ttl + nowSeconds % cfg.ttl;
    assert (w + 1) * cfg.ttl == w * cfg.ttl + cfg.ttl;
    MultipleOf(w + 1, cfg.ttl);
  }

  lemma MultipleOf(k: int, m: int)
    requires m > 0
    ensures (k * m) % m == 0
  {
    var q, r := (k * m) / m, (k * m) % m;
    assert (k - q) * m == r;
    if k - q >= 1 {
      ScaleAtMost(1, k - q, m);
    } else {
      ScaleAtMost(k - q, 0, m);
    }
  }

  const FAIL_OPEN := Result(true, 1, 0, 0)

  function Decision(max: int, count: int, resetAt: int): Result {
    Result(count <= max, Max(0, max - count), resetAt, count)
  }

  // ---- One check, run whole ----

  class Service {
    const cfg: Config
    var store: map<Key, Entry<nat>>

    constructor (cfg: Config)
      ensures this.cfg == cfg && store == map[]
    {
      this.cfg := cfg;
      store := map[];
    }

    /** A check whose three commands happen at the given times; `throwsAt` is the Redis command that fails, if any. */
    method Check(base: string, readAt: int, incrAt: int, expireAt: int, throwsAt: Option<nat>) returns (r: Result)
      requires cfg.ttl > 0
      modifies this`store
      ensures
        var nowSeconds := readAt / 1000;
        var key := Key(base, nowSeconds / cfg.ttl);
        var counted := Incr(old(store), key, incrAt);
        var first := counted[key].value == 1;
        if throwsAt == Some(0) then store == old(store) && r == Result(true, 1, 0, 0)
        else if first && throwsAt == Some(1) then store == counted && r == Result(true, 1, 0, 0)
        else
          && EndsWindow(cfg.ttl, nowSeconds, r.resetAt)
          && r.count == counted[key].value
          && (r.allowed <==> r.count <= cfg.max(base))
          && r.remaining == Max(0, cfg.max(base) - r.count)
          && store == if first then Expire(counted, key, expireAt, r.resetAt - nowSeconds + 5) else counted
    {
      var nowSeconds := readAt / 1000;
      var window := nowSeconds / cfg.ttl;
      var key := Key(base, window);
      var resetAt := (window + 1) * cfg.ttl;
      ResetEndsWindow(cfg, nowSeconds);
      if throwsAt == Some(0) {
        return FAIL_OPEN;
      }
      store := Incr(store, key, incrAt);
      var count := store[key].value;
      if count == 1 {
        if throwsAt == Some(1) {
          return FAIL_OPEN;
        }
        var windowRemainder := resetAt - nowSeconds;
        store := Expire(store, key, expireAt, windowRemainder + 5);
      }
      var remaining := Max(0, cfg.max(base) - count);
      return Result(count <= cfg.max(base), remaining, resetAt, count);
    }
  }

  // ---- Overlapping checks ----

  datatype Call =
    | Arrived(base: string)
    | Clocked(base: string, nowSeconds: int)
    | Expiring(base: string, nowSeconds: int)
    | Finished(base: string, nowSeconds: int, counted: nat, result: Result)
  {
    /** The value INCR returned, or 0 when it was not reached. */
    function Counted(): nat {
      match this
      case Expiring(_, _) => 1
      case Finished(_, _, n, _) => n
      case _ => 0
    }

    predicate Admitted() { Finished? && counted > 0 && result != FAIL_OPEN && result.allowed }
  }

  /** `log[key]` lists the calls that incremented `key`, in order. */
  datatype Limiter = Limiter(clock: int, store: map<Key, Entry<nat>>, calls: seq<Call>, log: map<Key, seq<nat>>)

  datatype Step = Tick(to: int) | Arrive(base: string) | ReadClock(i: nat) | DoIncr(i: nat) | DoExpire(i: nat) | Fail(i: nat)

  function KeyOf(cfg: Config, c: Call): Key
    requires cfg.ttl > 0 && !c.Arrived?
  {
    Key(c.base, Window(cfg, c.nowSeconds))
  }

  function Log(l: Limiter, key: Key): seq<nat> { if key in l.log then l.log[key] else [] }

  predicate Enabled(l: Limiter, step: Step) {
    match step
    case Tick(to) => l.clock <= to
    case Arrive(_) => true
    case ReadClock(i) => i < |l.calls| && l.calls[i].Arrived?
    case DoIncr(i) => i < |l.calls| && l.calls[i].Clocked?
    case DoExpire(i) => i < |l.calls| && l.calls[i].Expiring?
    case Fail(i) => i < |l.calls| && (l.calls[i].Clocked? || l.calls[i].Expiring?)
  }

  function Next(cfg: Config, l: Limiter, step: Step): Limiter
    requires cfg.ttl > 0 && Enabled(l, step)
  {
    match step
    case Tick(to) => l.(clock := to)
    case Arrive(base) => l.(calls := l.calls + [Arrived(base)])
    case ReadClock(i) => l.(calls := l.calls[i := Clocked(l.calls[i].base, l.clock / 1000)])
    case DoIncr(i) =>
      var c := l.calls[i];
      var key := KeyOf(cfg, c);
      var store := Incr(l.store, key, l.clock);
      var count := store[key].value;
      var after :=
        if count == 1 then Expiring(c.base, c.nowSeconds)
        else Finished(c.base, c.nowSeconds, count, Decision(cfg.max(c.base), count, ResetAt(cfg, key.window)));
      l.(store := store, calls := l.calls[i := after], log := l.log[key := Log(l, key) + [i]])
    case DoExpire(i) =>
      var c := l.calls[i];
      var key := KeyOf(cfg, c);
      var resetAt := ResetAt(cfg, key.window);
      l.(store := Expire(l.store, key, l.clock, resetAt - c.nowSeconds + 5),
         calls := l.calls[i := Finished(c.base, c.nowSeconds, 1, Decision(cfg.max(c.base), 1, resetAt))])
    case Fail(i) =>
      var c := l.calls[i];
      l.(calls := l.calls[i := Finished(c.base, c.nowSeconds, c.Counted(), FAIL_OPEN)])
  }

  /** Five seconds before an increment the clock had not yet left the window in which its call read it. */
  predicate Timely(cfg: Config, l: Limiter, step: Step)
    requires cfg.ttl > 0 && Enabled(l, step)
  {
    step.DoIncr? ==> (l.clock / 1000 - 5) / cfg.ttl <= l.calls[step.i].nowSeconds / cfg.ttl
  }

  /** So it lands less than five seconds after the window's end, while the key's expiry is still ahead. */
  lemma TimelyBeforeExpiry(cfg: Config, l: Limiter, i: nat)
    requires cfg.ttl > 0 && Enabled(l, DoIncr(i)) && Timely(cfg, l, DoIncr(i))
    ensures l.clock < (ResetAt(cfg, KeyOf(cfg, l.calls[i]).window) + 5) * 1000
  {
    var s := l.clock / 1000 - 5;
    var w := l.calls[i].nowSeconds / cfg.ttl;
    assert s == (s / cfg.ttl) * cfg.ttl + s % cfg.ttl;
    ScaleAtMost(s / cfg.ttl + 1, w + 1, cfg.ttl);
    assert (s / cfg.ttl + 1) * cfg.ttl == (s / cfg.ttl) * cfg.ttl + cfg.ttl;
  }

  /** The k-th increment of a key returned k, its key still counts all of them, and will until the buffer ends. */
  ghost predicate KeyValid(cfg: Config, l: Limiter, key: Key)
    requires cfg.ttl > 0
  {
    && (forall k | 0 <= k < |Log(l, key)| ::
          && Log(l, key)[k] < |l.calls|
          && !l.calls[Log(l, key)[k]].Arrived?
          && KeyOf(cfg, l.calls[Log(l, key)[k]]) == key
          && l.calls[Log(l, key)[k]].Counted() == k + 1)
    && (if Log(l, key) == [] then key !in l.store
        else key in l.store && l.store[key].value == |Log(l, key)|
             && (l.store[key].deadline.Some? ==> (ResetAt(cfg, key.window) + 5) * 1000 <= l.store[key].deadline.value))
  }

  ghost predicate CallValid(cfg: Config, l: Limiter, i: nat)
    requires cfg.ttl > 0 && i < |l.calls|
  {
    var c := l.calls[i];
    && (!c.Arrived? ==> c.nowSeconds * 1000 <= l.clock)
    && (c.Counted() > 0 ==>
          var key := KeyOf(cfg, c);
          && c.Counted() <= |Log(l, key)| && Log(l, key)[c.Counted() - 1] == i
          && (c.Finished? && c.result != FAIL_OPEN ==> c.result == Decision(cfg.max(c.base), c.counted, ResetAt(cfg, key.window))))
    && (c.Finished? && c.counted == 0 ==> c.result == FAIL_OPEN)
  }

  ghost predicate Valid(cfg: Config, l: Limiter) {
    && cfg.ttl > 0
    && (forall key :: KeyValid(cfg, l, key))
    && (forall i | 0 <= i < |l.calls| :: CallValid(cfg, l, i))
  }

  lemma NextKeepsKey(cfg: Config, l: Limiter, step: Step, key: Key)
    requires Valid(cfg, l) && Enabled(l, step) && Timely(cfg, l, step)
    ensures KeyValid(cfg, Next(cfg, l, step), key)
  {
    assert KeyValid(cfg, l, key);
    if step.DoIncr? {
      TimelyBeforeExpiry(cfg, l, step.i);
    }
    if step.DoIncr? || step.DoExpire? || step.Fail? {
      assert CallValid(cfg, l, step.i);
      assert KeyValid(cfg, l, KeyOf(cfg, l.calls[step.i]));
    }
  }

  lemma NextKeepsCall(cfg: Config, l: Limiter, step: Step, i: nat)
    requires Valid(cfg, l) && Enabled(l, step) && Timely(cfg, l, step)
    requires i < |Next(cfg, l, step).calls|
    ensures CallValid(cfg, Next(cfg, l, step), i)
  {
    if i < |l.calls| {
      assert CallValid(cfg, l, i);
    }
    if step.DoIncr? {
      TimelyBeforeExpiry(cfg, l, step.i);
    }
    if step.DoIncr? || step.DoExpire? || step.Fail? {
      assert CallValid(cfg, l, step.i);
      assert KeyValid(cfg, l, KeyOf(cfg, l.calls[step.i]));
    }
  }

  /**
   * With every earlier increment of the key in time, an increment continues the count exactly when it is
   * the first or its key is still alive, and in time it always is.
   */
  lemma IncrementContinuesIffAlive(cfg: Config, l: Limiter, i: nat)
    requires Valid(cfg, l) && Enabled(l, DoIncr(i))
    ensures var key := KeyOf(cfg, l.calls[i]);
      && (Next(cfg, l, DoIncr(i)).calls[i].Counted() == |Log(l, key)| + 1 <==> Log(l, key) == [] || Alive(l.store, key, l.clock))
      && (Timely(cfg, l, DoIncr(i)) ==> Log(l, key) == [] || Alive(l.store, key, l.clock))
  {
    assert KeyValid(cfg, l, KeyOf(cfg, l.calls[i]));
    if Timely(cfg, l, DoIncr(i)) {
      TimelyBeforeExpiry(cfg, l, i);
    }
  }

  // ---- Runs ----

  ghost predicate Possible(cfg: Config, l: Limiter, steps: seq<Step>)
    requires cfg.ttl > 0
    decreases steps
  {
    steps == [] ||
    (Enabled(l, steps[0]) && Timely(cfg, l, steps[0]) && Possible(cfg, Next(cfg, l, steps[0]), steps[1..]))
  }

  ghost function Run(cfg: Config, l: Limiter, steps: seq<Step>): Limiter
    requires cfg.ttl > 0 && Possible(cfg, l, steps)
    decreases steps
  {
    if steps == [] then l else Run(cfg, Next(cfg, l, steps[0]), steps[1..])
  }

  lemma {:induction false} RunKeepsValid(cfg: Config, l: Limiter, steps: seq<Step>)
    requires Valid(cfg, l) && Possible(cfg, l, steps)
    ensures Valid(cfg, Run(cfg, l, steps))
    decreases steps
  {
    if steps != [] {
      var n := Next(cfg, l, steps[0]);
      forall key ensures KeyValid(cfg, n, key) { NextKeepsKey(cfg, l, steps[0], key); }
      forall i: nat | i < |n.calls| ensures CallValid(cfg, n, i) { NextKeepsCall(cfg, l, steps[0], i); }
      RunKeepsValid(cfg, n, steps[1..]);
    }
  }

  const EMPTY := Limiter(0, map[], [], map[])

  /** A served check, the (k + 1)-th of its key, was told its place, what is left of the limit, and when its window ends. */
  predicate ToldAs(cfg: Config, c: Call, k: nat)
    requires cfg.ttl > 0 && c.Finished?
  {
    && c.result.count == k + 1
    && (c.result.allowed <==> k < cfg.max(c.base))
    && c.result.remaining == Max(0, cfg.max(c.base) - (k + 1))
    && EndsWindow(cfg.ttl, c.nowSeconds, c.result.resetAt)
  }

  /**
   * In every interleaving of timely checks, the n increments of one key return 1 to n in order; they are
   * checks of its base that read the clock in its window; and a check that Redis served is told its place
   * and allowed exactly when it is among the first `max` of its key.
   */
  lemma WindowAdmitsTheFirstMax(cfg: Config, steps: seq<Step>, key: Key)
    requires cfg.ttl > 0 && Possible(cfg, EMPTY, steps)
    ensures var l := Run(cfg, EMPTY, steps);
      && (forall k | 0 <= k < |Log(l, key)| ::
            && Log(l, key)[k] < |l.calls|
            && var c := l.calls[Log(l, key)[k]];
               && c.Counted() == k + 1 && !c.Arrived? && c.base == key.base && c.nowSeconds / cfg.ttl == key.window
               && (c.Finished? && c.result != Result(true, 1, 0, 0) ==> ToldAs(cfg, c, k)))
      && (forall i | 0 <= i < |l.calls| && l.calls[i].Counted() > 0 && l.calls[i].base == key.base && l.calls[i].nowSeconds / cfg.ttl == key.window ::
            exists k | 0 <= k < |Log(l, key)| :: Log(l, key)[k] == i)
  {
    var l := Run(cfg, EMPTY, steps);
    RunKeepsValid(cfg, EMPTY, steps);
    assert KeyValid(cfg, l, key);
    forall i | 0 <= i < |l.calls| && l.calls[i].Counted() > 0 && KeyOf(cfg, l.calls[i]) == key
      ensures exists k | 0 <= k < |Log(l, key)| :: Log(l, key)[k] == i
    {
      assert CallValid(cfg, l, i);
      assert Log(l, key)[l.calls[i].Counted() - 1] == i;
    }
    forall k | 0 <= k < |Log(l, key)| && l.calls[Log(l, key)[k]].Finished? && l.calls[Log(l, key)[k]].result != FAIL_OPEN
      ensures ToldAs(cfg, l.calls[Log(l, key)[k]], k)
    {
      assert CallValid(cfg, l, Log(l, key)[k]);
      ResetEndsWindow(cfg, l.calls[Log(l, key)[k]].nowSeconds);
    }
  }

  // ---- Any stretch of time ----

  /** Served and allowed checks of `base` whose clock reading lies in windows `from` to `to - 1`. */
  ghost function AdmittedIn(cfg: Config, l: Limiter, base: string, from: int, to: int): set<nat>
    requires cfg.ttl > 0
  {
    set i: nat | i < |l.calls| && l.calls[i].Admitted() && l.calls[i].base == base
                 && from <= Window(cfg, l.calls[i].nowSeconds) < to
  }

  lemma {:induction false} ElementsAtMost(s: seq<nat>)
    ensures |Elements(s)| <= |s|
  {
    if s != [] {
      ElementsAtMost(s[1..]);
      assert Elements(s) == {s[0]} + Elements(s[1..]);
    }
  }

  lemma SubsetCardinality(a: set<nat>, b: set<nat>)
    requires a <= b
    ensures |a| <= |b|
  {
    assert b == a + (b - a);
  }

  lemma OneWindowAdmitsAtMostMax(cfg: Config, l: Limiter, base: string, window: int)
    requires Valid(cfg, l)
    ensures |AdmittedIn(cfg, l, base, window, window + 1)| <= Max(0, cfg.max(base))
  {
    var log := Log(l, Key(base, window));
    var top := Min(|log|, Max(0, cfg.max(base)));
    var admitted := AdmittedIn(cfg, l, base, window, window + 1);
    forall i | i in admitted ensures i in Elements(log[..top]) {
      assert CallValid(cfg, l, i);
      assert l.calls[i].counted <= cfg.max(base);
      assert log[..top][l.calls[i].counted - 1] == i;
    }
    ElementsAtMost(log[..top]);
    SubsetCardinality(admitted, Elements(log[..top]));
  }

  lemma {:induction false} WindowsAdmitAtMost(cfg: Config, l: Limiter, base: string, from: int, n: nat)
    requires Valid(cfg, l)
    ensures |AdmittedIn(cfg, l, base, from, from + n)| <= n * Max(0, cfg.max(base))
  {
    if n == 0 {
      assert AdmittedIn(cfg, l, base, from, from) == {};
    } else {
      WindowsAdmitAtMost(cfg, l, base, from, n - 1);
      OneWindowAdmitsAtMostMax(cfg, l, base, from + n - 1);
      var earlier, last := AdmittedIn(cfg, l, base, from, from + n - 1), AdmittedIn(cfg, l, base, from + n - 1, from + n);
      assert AdmittedIn(cfg, l, base, from, from + n) == earlier + last;
      assert n * Max(0, cfg.max(base)) == (n - 1) * Max(0, cfg.max(base)) + Max(0, cfg.max(base));
    }
  }

  /** Served and allowed checks of `base` that read the clock in the `seconds` from `start`. */
  ghost function AdmittedDuring(l: Limiter, base: string, start: int, seconds: int): set<nat> {
    set i: nat | i < |l.calls| && l.calls[i].Admitted() && l.calls[i].base == base
                 && start <= l.calls[i].nowSeconds < start + seconds
  }

  lemma WindowSpan(ttl: int, start: int, k: nat, now: int)
    requires ttl > 0 && start <= now < start + k * ttl
    ensures start / ttl <= now / ttl < start / ttl + k + 1
  {
    var q, r := start / ttl, start % ttl;
    assert start == q * ttl + r;
    var w, v := now / ttl, now % ttl;
    assert now == w * ttl + v;
    ScaleAtMost(w + 1, q, ttl);
    ScaleAtMost(q + k + 1, w, ttl);
    assert (w + 1) * ttl == w * ttl + ttl;
    assert (q + k + 1) * ttl == q * ttl + k * ttl + ttl;
  }

  lemma ScaleAtMost(a: int, b: int, c: int)
    requires c > 0
    ensures a <= b ==> a * c <= b * c
  {
  }

  /** Any k windows' worth of consecutive seconds admits at most (k + 1) times the limit. */
  lemma AnyStretchAdmitsAtMost(cfg: Config, steps: seq<Step>, base: string, start: int, k: nat)
    requires cfg.ttl > 0 && Possible(cfg, EMPTY, steps)
    ensures |AdmittedDuring(Run(cfg, EMPTY, steps), base, start, k * cfg.ttl)| <= (k + 1) * Max(0, cfg.max(base))
  {
    var l := Run(cfg, EMPTY, steps);
    RunKeepsValid(cfg, EMPTY, steps);
    var from := start / cfg.ttl;
    var during := AdmittedDuring(l, base, start, k * cfg.ttl);
    forall i | i in during ensures i in AdmittedIn(cfg, l, base, from, from + (k + 1)) {
      WindowSpan(cfg.ttl, start, k, l.calls[i].nowSeconds);
    }
    WindowsAdmitAtMost(cfg, l, base, from, k + 1);
    SubsetCardinality(during, AdmittedIn(cfg, l, base, from, from + (k + 1)));
  }
}
