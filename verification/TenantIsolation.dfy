/**
 * Tenant-scoped queries under concurrency. Tasks share one ambient store register that the event
 * loop saves and reinstates, and one pool of database connections; every step below is atomic and
 * any enabled step of any task or transaction may come next.
 */
module TenantIsolation {
  import opened Foundations
  import opened TenantContext

  /** What one query reads from the three session settings. */
  datatype Observation = Observation(query: nat, org: Option<string>, user: Option<string>, lookup: Option<string>)

  function LookupText(systemLookup: bool): string { if systemLookup then "true" else "false" }

  /** What a query must read when `store` is in force at its call. */
  function Expected(query: nat, store: TenantStore): Observation {
    Observation(query, store.orgId, store.userId, Some(LookupText(store.systemLookup)))
  }

  datatype Stmt =
    | Query(id: nat)
    | Within(scope: Scope, body: seq<Stmt>)
    | Attempt(body: seq<Stmt>)
    | Spawn(body: seq<Stmt>)

  /** The reader semantics: each query paired with the store of its own enclosing scopes. */
  ghost function Denote(stmts: seq<Stmt>, store: TenantStore): multiset<Observation> {
    if stmts == [] then multiset{}
    else
      (match stmts[0]
       case Query(q) => multiset{Expected(q, store)}
       case Within(scope, body) => Denote(body, Bind(scope, store))
       case Attempt(body) => Denote(body, store)
       case Spawn(body) => Denote(body, store))
      + Denote(stmts[1..], store)
  }

  // ---- Connections ----

  datatype Settings = Settings(org: Option<string>, user: Option<string>, lookup: Option<string>)

  /** Values set with is_local = true, gone when the transaction ends. */
  datatype Overlay = Overlay(org: Change<Option<string>>, user: Change<Option<string>>, lookup: Change<Option<string>>)

  const NO_OVERLAY := Overlay(Keep, Keep, Keep)

  datatype Connection = Connection(session: Settings, overlay: Overlay, holder: Option<nat>)
  {
    function Visible(): Settings {
      Settings(overlay.org.Over(session.org), overlay.user.Over(session.user), overlay.lookup.Over(session.lookup))
    }
  }

  /** The proxied call: arguments captured at call time, then a transaction of three set_config and the query. */
  datatype Transaction =
    | Waiting(query: nat, captured: TenantStore)
    | Running(query: nat, captured: TenantStore, conn: nat, stage: nat)
    | Finished

  // ---- Tasks ----

  datatype Frame = Frame(outer: Ambient, rest: seq<Stmt>, catches: bool)

  datatype Task = Task(saved: Ambient, todo: seq<Stmt>, frames: seq<Frame>)

  datatype Machine = Machine(
    current: Ambient,
    active: Option<nat>,
    tasks: seq<Task>,
    txs: seq<Transaction>,
    pool: seq<Connection>,
    seen: multiset<Observation>,
    lost: multiset<Observation>)

  /** What the running task may do; everything else is the event loop or a transaction. */
  datatype Move = Enter | Leave | Call | Fork | Throw

  datatype Step =
    | Resume(task: nat)
    | Suspend
    | Act(move: Move)
    | Begin(tx: nat, conn: nat)
    | Configure(tx: nat)
    | Execute(tx: nat)
    | Commit(tx: nat)
    | Abort(tx: nat)

  ghost function Pending(ambient: Ambient, todo: seq<Stmt>, frames: seq<Frame>): multiset<Observation>
    decreases frames
  {
    Denote(todo, CurrentStore(ambient))
    + if frames == [] then multiset{} else Pending(frames[0].outer, frames[0].rest, frames[1..])
  }

  /** An exception drops statements up to the nearest handler, restoring each abandoned scope's outer store. */
  function Unwind(ambient: Ambient, frames: seq<Frame>): (t: Task)
    ensures |t.frames| <= |frames|
    decreases frames
  {
    if frames == [] then Task(ambient, [], [])
    else if frames[0].catches then Task(frames[0].outer, frames[0].rest, frames[1..])
    else Unwind(frames[0].outer, frames[1..])
  }

  ghost function Dropped(ambient: Ambient, todo: seq<Stmt>, frames: seq<Frame>): multiset<Observation>
    decreases frames
  {
    Denote(todo, CurrentStore(ambient))
    + if frames == [] || frames[0].catches then multiset{} else Dropped(frames[0].outer, frames[0].rest, frames[1..])
  }

  function ActiveTask(m: Machine): Task
    requires m.active.Some? && m.active.value < |m.tasks|
  {
    m.tasks[m.active.value].(saved := m.current)
  }

  predicate CanMove(t: Task, move: Move) {
    match move
    case Enter => t.todo != [] && (t.todo[0].Within? || t.todo[0].Attempt?)
    case Leave => t.todo == [] && t.frames != []
    case Call => t.todo != [] && t.todo[0].Query?
    case Fork => t.todo != [] && t.todo[0].Spawn?
    case Throw => true
  }

  predicate Enabled(m: Machine, step: Step) {
    match step
    case Resume(t) => m.active == None && t < |m.tasks|
    case Suspend => m.active.Some?
    case Act(move) => m.active.Some? && m.active.value < |m.tasks| && CanMove(ActiveTask(m), move)
    case Begin(x, c) => x < |m.txs| && m.txs[x].Waiting? && c < |m.pool| && m.pool[c].holder == None
    case Configure(x) => x < |m.txs| && m.txs[x].Running? && m.txs[x].stage < 3
    case Execute(x) => x < |m.txs| && m.txs[x].Running? && m.txs[x].stage == 3
    case Commit(x) => x < |m.txs| && m.txs[x].Running? && m.txs[x].stage == 4
    case Abort(x) => x < |m.txs| && m.txs[x].Running?
  }

  /** Installs the active task's new control state; its live store is the shared register. */
  function Install(m: Machine, t: Task): Machine
    requires m.active.Some? && m.active.value < |m.tasks|
  {
    m.(current := t.saved, tasks := m.tasks[m.active.value := t])
  }

  function SetLocal(overlay: Overlay, stage: nat, store: TenantStore): Overlay {
    match stage
    case 0 => overlay.(org := Set(store.orgId))
    case 1 => overlay.(user := Set(store.userId))
    case _ => overlay.(lookup := Set(Some(LookupText(store.systemLookup))))
  }

  /** Ending a transaction, either way, discards the overlay and gives the connection back. */
  function EndTransaction(m: Machine, x: nat): Machine
    requires x < |m.txs| && m.txs[x].Running? && m.txs[x].conn < |m.pool|
  {
    var c := m.txs[x].conn;
    m.(txs := m.txs[x := Finished],
       pool := m.pool[c := m.pool[c].(overlay := NO_OVERLAY, holder := None)])
  }

  ghost predicate Valid(m: Machine) {
    && (m.active.Some? ==> m.active.value < |m.tasks|)
    && (forall x | 0 <= x < |m.txs| && m.txs[x].Running? ::
          m.txs[x].conn < |m.pool| && m.pool[m.txs[x].conn].holder == Some(x) && m.txs[x].stage <= 4)
    && (forall c | 0 <= c < |m.pool| && m.pool[c].holder.Some? ::
          var x := m.pool[c].holder.value;
          && x < |m.txs| && m.txs[x].Running? && m.txs[x].conn == c
          && m.pool[c].overlay == Configured(m.txs[x].captured, m.txs[x].stage))
    && (forall c | 0 <= c < |m.pool| && m.pool[c].holder == None :: m.pool[c].overlay == NO_OVERLAY)
  }

  function Configured(store: TenantStore, stage: nat): Overlay {
    Overlay(
      if stage >= 1 then Set(store.orgId) else Keep,
      if stage >= 2 then Set(store.userId) else Keep,
      if stage >= 3 then Set(Some(LookupText(store.systemLookup))) else Keep)
  }

  ghost function Moved(m: Machine, move: Move): Machine
    requires m.active.Some? && m.active.value < |m.tasks| && CanMove(ActiveTask(m), move)
  {
    var t := ActiveTask(m);
    match move
    case Enter =>
      var first := t.todo[0];
      var inner := if first.Within? then Some(Bind(first.scope, CurrentStore(m.current))) else m.current;
      Install(m, Task(inner, first.body, [Frame(m.current, t.todo[1..], first.Attempt?)] + t.frames))
    case Leave =>
      Install(m, Task(t.frames[0].outer, t.frames[0].rest, t.frames[1..]))
    case Call =>
      Install(m, t.(todo := t.todo[1..])).(txs := m.txs + [Waiting(t.todo[0].id, CurrentStore(m.current))])
    case Fork =>
      var parent := Install(m, t.(todo := t.todo[1..]));
      parent.(tasks := parent.tasks + [Task(m.current, t.todo[0].body, [])])
    case Throw =>
      Install(m, Unwind(m.current, t.frames)).(lost := m.lost + Dropped(m.current, t.todo, t.frames))
  }

  ghost function Next(m: Machine, step: Step): Machine
    requires Valid(m) && Enabled(m, step)
  {
    match step
    case Resume(t) => m.(active := Some(t), current := m.tasks[t].saved)
    case Suspend => m.(active := None, tasks := m.tasks[m.active.value := ActiveTask(m)])
    case Act(move) => Moved(m, move)
    case Begin(x, c) =>
      m.(txs := m.txs[x := Running(m.txs[x].query, m.txs[x].captured, c, 0)],
         pool := m.pool[c := m.pool[c].(holder := Some(x))])
    case Configure(x) =>
      var tx := m.txs[x];
      var overlay := SetLocal(m.pool[tx.conn].overlay, tx.stage, tx.captured);
      m.(txs := m.txs[x := tx.(stage := tx.stage + 1)],
         pool := m.pool[tx.conn := m.pool[tx.conn].(overlay := overlay)])
    case Execute(x) =>
      m.(txs := m.txs[x := m.txs[x].(stage := 4)], seen := m.seen + multiset{Read(m, x)})
    case Commit(x) => EndTransaction(m, x)
    case Abort(x) =>
      var unanswered := if m.txs[x].stage <= 3 then multiset{Expected(m.txs[x].query, m.txs[x].captured)} else multiset{};
      EndTransaction(m, x).(lost := m.lost + unanswered)
  }

  /** The query reads whatever its connection shows, not what its caller meant. */
  function Read(m: Machine, x: nat): Observation
    requires x < |m.txs| && m.txs[x].Running? && m.txs[x].conn < |m.pool|
  {
    var shown := m.pool[m.txs[x].conn].Visible();
    Observation(m.txs[x].query, shown.org, shown.user, shown.lookup)
  }

  // ---- What is still owed ----

  function LiveTasks(m: Machine): seq<Task> {
    if m.active.Some? && m.active.value < |m.tasks|
    then m.tasks[m.active.value := ActiveTask(m)]
    else m.tasks
  }

  ghost function TaskOwes(t: Task): multiset<Observation> { Pending(t.saved, t.todo, t.frames) }

  ghost function TxOwes(tx: Transaction): multiset<Observation> {
    if tx.Waiting? || (tx.Running? && tx.stage <= 3) then multiset{Expected(tx.query, tx.captured)} else multiset{}
  }

  ghost function Owed(m: Machine): multiset<Observation> {
    Gather(TaskOwes, LiveTasks(m)) + Gather(TxOwes, m.txs)
  }

  ghost function Account(m: Machine): multiset<Observation> { m.seen + m.lost + Owed(m) }

  lemma MovedKeepsValid(m: Machine, move: Move)
    requires Valid(m) && Enabled(m, Act(move))
    ensures Valid(Moved(m, move))
  {
  }

  lemma NextKeepsValid(m: Machine, step: Step)
    requires Valid(m) && Enabled(m, step)
    ensures Valid(Next(m, step))
  {
    var n := Next(m, step);
    match step
    case Resume(t) =>
    case Suspend =>
    case Act(move) =>
      MovedKeepsValid(m, move);
    case Begin(x, c) =>
      assert n.pool[c].overlay == Configured(n.txs[x].captured, 0);
    case Configure(x) =>
      var c := m.txs[x].conn;
      assert m.pool[c].overlay == Configured(m.txs[x].captured, m.txs[x].stage);
      assert n.pool[c].overlay == Configured(n.txs[x].captured, n.txs[x].stage);
    case Execute(x) =>
      assert n.pool[m.txs[x].conn].overlay == Configured(n.txs[x].captured, 4);
    case Commit(x) =>
      EndKeepsValid(m, x);
    case Abort(x) =>
      EndKeepsValid(m, x);
  }

  lemma EndKeepsValid(m: Machine, x: nat)
    requires Valid(m) && x < |m.txs| && m.txs[x].Running?
    ensures Valid(EndTransaction(m, x))
  {
  }

  /** A query that is about to run reads exactly the store captured when it was called. */
  lemma ReadsCapturedStore(m: Machine, x: nat)
    requires Valid(m) && x < |m.txs| && m.txs[x].Running? && m.txs[x].stage == 3
    ensures Read(m, x) == Expected(m.txs[x].query, m.txs[x].captured)
  {
    assert m.pool[m.txs[x].conn].overlay == Configured(m.txs[x].captured, 3);
  }

  lemma InstallOwes(m: Machine, t: Task)
    requires m.active.Some? && m.active.value < |m.tasks|
    ensures Gather(TaskOwes, LiveTasks(Install(m, t))) + TaskOwes(ActiveTask(m)) == Gather(TaskOwes, LiveTasks(m)) + TaskOwes(t)
  {
    var a := m.active.value;
    assert LiveTasks(Install(m, t)) == LiveTasks(m)[a := t];
    GatherUpdate(TaskOwes, LiveTasks(m), a, t);
  }

  lemma {:induction false} UnwindOwes(ambient: Ambient, todo: seq<Stmt>, frames: seq<Frame>)
    ensures Pending(ambient, todo, frames) == Dropped(ambient, todo, frames) + TaskOwes(Unwind(ambient, frames))
    decreases frames
  {
    if frames != [] && !frames[0].catches {
      UnwindOwes(frames[0].outer, frames[0].rest, frames[1..]);
    }
  }

  lemma EnteringOwesTheSame(t: Task, entered: Task)
    requires CanMove(t, Enter)
    requires entered.todo == t.todo[0].body
    requires CurrentStore(entered.saved) == if t.todo[0].Within? then Bind(t.todo[0].scope, CurrentStore(t.saved)) else CurrentStore(t.saved)
    requires entered.frames == [Frame(t.saved, t.todo[1..], t.todo[0].Attempt?)] + t.frames
    ensures TaskOwes(entered) == TaskOwes(t)
  {
    var body := Denote(entered.todo, CurrentStore(entered.saved));
    var rest := Denote(t.todo[1..], CurrentStore(t.saved));
    var outer := if t.frames == [] then multiset{} else Pending(t.frames[0].outer, t.frames[0].rest, t.frames[1..]);
    assert entered.frames[1..] == t.frames;
    assert Pending(t.saved, t.todo[1..], t.frames) == rest + outer;
    assert TaskOwes(entered) == body + (rest + outer);
    assert Denote(t.todo, CurrentStore(t.saved)) == body + rest;
    assert TaskOwes(t) == (body + rest) + outer;
  }

  lemma EnterConserves(m: Machine)
    requires Enabled(m, Act(Enter))
    ensures Account(Moved(m, Enter)) == Account(m)
  {
    var n := Moved(m, Enter);
    var entered := n.tasks[m.active.value];
    EnteringOwesTheSame(ActiveTask(m), entered);
    InstallOwes(m, entered);
    Cancel(Gather(TaskOwes, LiveTasks(n)), Gather(TaskOwes, LiveTasks(m)), TaskOwes(entered));
  }

  lemma LeaveConserves(m: Machine)
    requires Enabled(m, Act(Leave))
    ensures Account(Moved(m, Leave)) == Account(m)
  {
    var n := Moved(m, Leave);
    InstallOwes(m, n.tasks[m.active.value]);
    Cancel(Gather(TaskOwes, LiveTasks(n)), Gather(TaskOwes, LiveTasks(m)), TaskOwes(ActiveTask(m)));
  }

  lemma CallOwes(t: Task)
    requires t.todo != [] && t.todo[0].Query?
    ensures TaskOwes(t) == multiset{Expected(t.todo[0].id, CurrentStore(t.saved))} + TaskOwes(t.(todo := t.todo[1..]))
  {
  }

  lemma CallConserves(m: Machine)
    requires Enabled(m, Act(Call))
    ensures Account(Moved(m, Call)) == Account(m)
  {
    var t := ActiveTask(m);
    var n := Moved(m, Call);
    var after := t.(todo := t.todo[1..]);
    var asked := multiset{Expected(t.todo[0].id, CurrentStore(m.current))};
    InstallOwes(m, after);
    assert LiveTasks(n) == LiveTasks(Install(m, after));
    GatherAppend(TxOwes, m.txs, n.txs[|m.txs|]);
    CallOwes(t);
    Reassociate(Gather(TaskOwes, LiveTasks(n)), Gather(TaskOwes, LiveTasks(m)), asked, TaskOwes(after), TaskOwes(t), Gather(TxOwes, m.txs));
  }

  lemma Reassociate(now: multiset<Observation>, was: multiset<Observation>, moved: multiset<Observation>, after: multiset<Observation>, before: multiset<Observation>, rest: multiset<Observation>)
    requires now + before == was + after && before == moved + after
    ensures now + moved == was && now + (rest + moved) == was + rest
  {
    assert (now + moved) + after == now + (moved + after);
    Cancel(now + moved, was, after);
    assert now + (rest + moved) == (now + moved) + rest;
  }

  lemma ForkOwes(t: Task)
    requires t.todo != [] && t.todo[0].Spawn?
    ensures TaskOwes(t) == TaskOwes(Task(t.saved, t.todo[0].body, [])) + TaskOwes(t.(todo := t.todo[1..]))
  {
  }

  lemma ForkConserves(m: Machine)
    requires Enabled(m, Act(Fork))
    ensures Account(Moved(m, Fork)) == Account(m)
  {
    var t := ActiveTask(m);
    var n := Moved(m, Fork);
    var after := t.(todo := t.todo[1..]);
    var parent := Install(m, after);
    var child := Task(m.current, t.todo[0].body, []);
    InstallOwes(m, after);
    assert LiveTasks(n) == LiveTasks(parent) + [child];
    GatherAppend(TaskOwes, LiveTasks(parent), child);
    ForkOwes(t);
    Reassociate(Gather(TaskOwes, LiveTasks(parent)), Gather(TaskOwes, LiveTasks(m)), TaskOwes(child), TaskOwes(after), TaskOwes(t), Gather(TxOwes, m.txs));
  }

  lemma ThrowConserves(m: Machine)
    requires Enabled(m, Act(Throw))
    ensures Account(Moved(m, Throw)) == Account(m)
  {
    var t := ActiveTask(m);
    var n := Moved(m, Throw);
    var after := Unwind(m.current, t.frames);
    var dropped := Dropped(m.current, t.todo, t.frames);
    InstallOwes(m, after);
    assert LiveTasks(n) == LiveTasks(Install(m, after));
    UnwindOwes(m.current, t.todo, t.frames);
    Cancel(Gather(TaskOwes, LiveTasks(n)) + dropped, Gather(TaskOwes, LiveTasks(m)), TaskOwes(after));
  }

  /** Whatever a transaction stops owing has just been seen or lost. */
  lemma TransactionConserves(m: Machine, x: nat, n: Machine)
    requires x < |m.txs| && x < |n.txs| && n.txs == m.txs[x := n.txs[x]]
    requires n.tasks == m.tasks && n.active == m.active && n.current == m.current
    requires n.seen + n.lost + TxOwes(n.txs[x]) == m.seen + m.lost + TxOwes(m.txs[x])
    ensures Account(n) == Account(m)
  {
    GatherUpdate(TxOwes, m.txs, x, n.txs[x]);
    var tasks := Gather(TaskOwes, LiveTasks(m));
    var before, after := TxOwes(m.txs[x]), TxOwes(n.txs[x]);
    assert Account(n) + before == (n.seen + n.lost + tasks) + (Gather(TxOwes, n.txs) + before);
    assert Account(m) + before == (n.seen + n.lost + after) + tasks + Gather(TxOwes, m.txs);
    Cancel(Account(n), Account(m), before);
  }

  lemma MoveConserves(m: Machine, move: Move)
    requires Enabled(m, Act(move))
    ensures Account(Moved(m, move)) == Account(m)
  {
    match move
    case Enter => EnterConserves(m);
    case Leave => LeaveConserves(m);
    case Call => CallConserves(m);
    case Fork => ForkConserves(m);
    case Throw => ThrowConserves(m);
  }

  lemma SwitchConserves(m: Machine, step: Step)
    requires Valid(m) && Enabled(m, step) && (step.Resume? || step.Suspend?)
    ensures Account(Next(m, step)) == Account(m)
  {
    assert LiveTasks(Next(m, step)) == LiveTasks(m);
  }

  lemma EndConserves(m: Machine, step: Step)
    requires Valid(m) && Enabled(m, step) && (step.Commit? || step.Abort?)
    ensures Account(Next(m, step)) == Account(m)
  {
    TransactionConserves(m, step.tx, Next(m, step));
  }

  /** Seen, lost and still-owed observations together never change. */
  lemma StepConserves(m: Machine, step: Step)
    requires Valid(m) && Enabled(m, step)
    ensures Account(Next(m, step)) == Account(m)
  {
    match step
    case Resume(t) => SwitchConserves(m, step);
    case Suspend => SwitchConserves(m, step);
    case Act(move) => MoveConserves(m, move);
    case Begin(x, _) => TransactionConserves(m, x, Next(m, step));
    case Configure(x) => TransactionConserves(m, x, Next(m, step));
    case Execute(x) =>
      ReadsCapturedStore(m, x);
      TransactionConserves(m, x, Next(m, step));
    case Commit(_) => EndConserves(m, step);
    case Abort(_) => EndConserves(m, step);
  }

  // ---- Whole runs ----

  ghost predicate Possible(m: Machine, steps: seq<Step>)
    decreases steps
  {
    Valid(m) && (steps == [] || (Enabled(m, steps[0]) && Possible(Next(m, steps[0]), steps[1..])))
  }

  ghost function Run(m: Machine, steps: seq<Step>): Machine
    requires Possible(m, steps)
    decreases steps
  {
    if steps == [] then m else Run(Next(m, steps[0]), steps[1..])
  }

  /** Task programs outside every scope, and a pool of idle connections with any session values. */
  ghost function Start(programs: seq<seq<Stmt>>, sessions: seq<Settings>): Machine {
    Machine(None, None,
            seq(|programs|, i requires 0 <= i < |programs| => Task(None, programs[i], [])),
            [],
            seq(|sessions|, c requires 0 <= c < |sessions| => Connection(sessions[c], NO_OVERLAY, None)),
            multiset{}, multiset{})
  }

  ghost function Meaning(program: seq<Stmt>): multiset<Observation> { Denote(program, NO_TENANT) }

  lemma {:induction false} StartOwesTheMeaning(programs: seq<seq<Stmt>>, tasks: seq<Task>)
    requires |tasks| == |programs|
    requires forall i | 0 <= i < |programs| :: tasks[i] == Task(None, programs[i], [])
    ensures Gather(TaskOwes, tasks) == Gather(Meaning, programs)
  {
    if programs != [] {
      StartOwesTheMeaning(programs[1..], tasks[1..]);
      assert TaskOwes(tasks[0]) == Meaning(programs[0]);
    }
  }

  lemma {:induction false} RunConserves(m: Machine, steps: seq<Step>)
    requires Possible(m, steps)
    ensures Valid(Run(m, steps)) && Account(Run(m, steps)) == Account(m)
    decreases steps
  {
    if steps != [] {
      StepConserves(m, steps[0]);
      RunConserves(Next(m, steps[0]), steps[1..]);
    }
  }

  /**
   * Under every interleaving and every reuse of connections, the observations made are among those
   * the reader semantics gives the programs: no query ever sees another scope's settings.
   */
  lemma QueriesSeeTheirOwnScope(programs: seq<seq<Stmt>>, sessions: seq<Settings>, steps: seq<Step>)
    requires Possible(Start(programs, sessions), steps)
    ensures var end := Run(Start(programs, sessions), steps);
      end.seen + end.lost + Owed(end) == Gather(Meaning, programs)
    ensures Run(Start(programs, sessions), steps).seen <= Gather(Meaning, programs)
  {
    var start := Start(programs, sessions);
    var end := Run(start, steps);
    RunConserves(start, steps);
    StartOwesTheMeaning(programs, start.tasks);
    assert Account(start) == Gather(Meaning, programs);
  }

  // ---- The same in terms of the scopes around each query ----

  /** A query and the scopes around it, outermost first. */
  datatype Site = Site(query: nat, scopes: seq<Scope>)

  /** Every query of a program, `around` being the scopes outside it. */
  ghost function Sites(stmts: seq<Stmt>, around: seq<Scope>): set<Site> {
    if stmts == [] then {}
    else
      (match stmts[0]
       case Query(q) => {Site(q, around)}
       case Within(scope, body) => Sites(body, around + [scope])
       case Attempt(body) => Sites(body, around)
       case Spawn(body) => Sites(body, around))
      + Sites(stmts[1..], around)
  }

  /**
   * `o` shows, for each setting, what the innermost scope that binds it bound; where none does, no
   * organisation, no user, and "false".
   */
  ghost predicate ShowsInnermost(o: Observation, site: Site) {
    && o.query == site.query
    && Innermost(OrgChanges(site.scopes), None, o.org)
    && Innermost(UserChanges(site.scopes), None, o.user)
    && ((o.lookup == Some("true") && Innermost(LookupChanges(site.scopes), false, true))
        || (o.lookup == Some("false") && Innermost(LookupChanges(site.scopes), false, false)))
  }

  lemma {:induction false} DenotedAtItsSite(stmts: seq<Stmt>, around: seq<Scope>, o: Observation)
    requires o in Denote(stmts, BindAll(around, NO_TENANT))
    ensures exists site | site in Sites(stmts, around) :: ShowsInnermost(o, site)
    decreases stmts
  {
    var store := BindAll(around, NO_TENANT);
    if o in Denote(stmts[1..], store) {
      DenotedAtItsSite(stmts[1..], around, o);
    } else {
      match stmts[0]
      case Query(q) =>
        NestedScopesBindInnermost(around, NO_TENANT);
        assert ShowsInnermost(o, Site(q, around));
      case Within(scope, body) =>
        BindAllLast(around, scope, NO_TENANT);
        DenotedAtItsSite(body, around + [scope], o);
      case Attempt(body) =>
        DenotedAtItsSite(body, around, o);
      case Spawn(body) =>
        DenotedAtItsSite(body, around, o);
    }
  }

  lemma {:induction false} SomeProgramMeansIt(programs: seq<seq<Stmt>>, o: Observation) returns (i: nat)
    requires o in Gather(Meaning, programs)
    ensures i < |programs| && o in Meaning(programs[i])
  {
    if o in Meaning(programs[0]) {
      i := 0;
    } else {
      i := SomeProgramMeansIt(programs[1..], o);
      i := i + 1;
    }
  }

  /**
   * Every observation of every run is that of some query of some program, and its three settings are the
   * innermost bindings around that query.
   */
  lemma ObservationsShowInnermostBindings(programs: seq<seq<Stmt>>, sessions: seq<Settings>, steps: seq<Step>, o: Observation)
    returns (site: Site)
    requires Possible(Start(programs, sessions), steps) && o in Run(Start(programs, sessions), steps).seen
    ensures ShowsInnermost(o, site) && exists i | 0 <= i < |programs| :: site in Sites(programs[i], [])
  {
    QueriesSeeTheirOwnScope(programs, sessions, steps);
    var i := SomeProgramMeansIt(programs, o);
    DenotedAtItsSite(programs[i], [], o);
    site :| site in Sites(programs[i], []) && ShowsInnermost(o, site);
  }

  predicate OpensLookup(scope: Scope) { scope.AsSystemLookup? || (scope.WithTenantContext? && scope.lookup == Set(true)) }

  /** Programs in which no query has a system lookup opened around it never run one with the escape hatch open. */
  lemma NoLookupUnlessOpened(programs: seq<seq<Stmt>>, sessions: seq<Settings>, steps: seq<Step>, o: Observation)
    requires Possible(Start(programs, sessions), steps) && o in Run(Start(programs, sessions), steps).seen
    requires forall i, site | 0 <= i < |programs| && site in Sites(programs[i], []) :: forall scope | scope in site.scopes :: !OpensLookup(scope)
    ensures o.lookup == Some("false")
  {
    var site := ObservationsShowInnermostBindings(programs, sessions, steps, o);
    var changes := LookupChanges(site.scopes);
    forall j | 0 <= j < |changes| ensures changes[j] != Set(true) {
      assert site.scopes[j] in site.scopes && !OpensLookup(site.scopes[j]);
    }
  }

  ghost predicate Settled(m: Machine) {
    && m.active == None
    && (forall t | t in m.tasks :: t.todo == [] && t.frames == [])
    && (forall tx | tx in m.txs :: tx.Finished?)
  }

  lemma SettledOwesNothing(m: Machine)
    requires Settled(m)
    ensures Owed(m) == multiset{}
  {
    forall i | 0 <= i < |m.tasks| ensures TaskOwes(m.tasks[i]) == multiset{} {
      assert m.tasks[i] in m.tasks;
    }
    GatherEmpty(TaskOwes, m.tasks);
    forall i | 0 <= i < |m.txs| ensures TxOwes(m.txs[i]) == multiset{} {
      assert m.txs[i] in m.txs;
    }
    GatherEmpty(TxOwes, m.txs);
  }

  predicate Fails(step: Step) { step.Abort? || step == Act(Throw) }

  lemma {:induction false} NothingLostWithoutFailures(m: Machine, steps: seq<Step>)
    requires Possible(m, steps)
    requires forall s | s in steps :: !Fails(s)
    ensures Run(m, steps).lost == m.lost
    decreases steps
  {
    if steps != [] {
      assert !Fails(steps[0]);
      NothingLostWithoutFailures(Next(m, steps[0]), steps[1..]);
    }
  }

  /** A run without failures that comes to rest has answered every query, each exactly once and as meant. */
  lemma SettledRunsAnswerEveryQuery(programs: seq<seq<Stmt>>, sessions: seq<Settings>, steps: seq<Step>)
    requires Possible(Start(programs, sessions), steps)
    requires Settled(Run(Start(programs, sessions), steps))
    requires forall s | s in steps :: !Fails(s)
    ensures Run(Start(programs, sessions), steps).seen == Gather(Meaning, programs)
  {
    var end := Run(Start(programs, sessions), steps);
    QueriesSeeTheirOwnScope(programs, sessions, steps);
    NothingLostWithoutFailures(Start(programs, sessions), steps);
    SettledOwesNothing(end);
  }

  lemma {:induction false} SessionsNeverChange(m: Machine, steps: seq<Step>, c: nat)
    requires Possible(m, steps) && c < |m.pool|
    ensures c < |Run(m, steps).pool| && Run(m, steps).pool[c].session == m.pool[c].session
    decreases steps
  {
    if steps != [] {
      SessionsNeverChange(Next(m, steps[0]), steps[1..], c);
    }
  }

  /** Whatever ran on a connection before, between transactions it shows its original session values. */
  lemma IdleConnectionsCarryNothingOver(programs: seq<seq<Stmt>>, sessions: seq<Settings>, steps: seq<Step>, c: nat)
    requires Possible(Start(programs, sessions), steps) && c < |sessions|
    ensures var end := Run(Start(programs, sessions), steps);
      c < |end.pool| && (end.pool[c].holder == None ==> end.pool[c].Visible() == sessions[c])
  {
    SessionsNeverChange(Start(programs, sessions), steps, c);
    RunConserves(Start(programs, sessions), steps);
  }

  // ---- Leaving a scope ----

  ghost function Depth(m: Machine, t: nat): nat
    requires t < |LiveTasks(m)|
  {
    |LiveTasks(m)[t].frames|
  }

  /** The lowest `d` frames of task `t`: what its `d` outermost open scopes will restore. */
  ghost function Base(m: Machine, t: nat, d: nat): seq<Frame>
    requires t < |LiveTasks(m)| && d <= Depth(m, t)
  {
    LiveTasks(m)[t].frames[Depth(m, t) - d..]
  }

  /** Task `t` never has fewer than `d` scopes open during the run. */
  ghost predicate StaysInside(m: Machine, steps: seq<Step>, t: nat, d: nat)
    requires Possible(m, steps)
    decreases steps
  {
    && t < |LiveTasks(m)|
    && Depth(m, t) >= d
    && (steps == [] || StaysInside(Next(m, steps[0]), steps[1..], t, d))
  }

  lemma {:induction false} UnwindKeepsBase(ambient: Ambient, frames: seq<Frame>, d: nat)
    requires d <= |frames| && d <= |Unwind(ambient, frames).frames|
    ensures var left := Unwind(ambient, frames).frames; left[|left| - d..] == frames[|frames| - d..]
    decreases frames
  {
    if frames != [] && !frames[0].catches {
      UnwindKeepsBase(frames[0].outer, frames[1..], d);
    }
  }

  predicate OnTransaction(step: Step) { step.Begin? || step.Configure? || step.Execute? || step.Commit? || step.Abort? }

  lemma TransactionsKeepTasks(m: Machine, step: Step)
    requires Valid(m) && Enabled(m, step) && OnTransaction(step)
    ensures var n := Next(m, step); n.tasks == m.tasks && n.active == m.active && n.current == m.current
    ensures LiveTasks(Next(m, step)) == LiveTasks(m)
  {
  }

  lemma MovesKeepOthers(m: Machine, move: Move, t: nat)
    requires Enabled(m, Act(move)) && t < |m.tasks| && m.active != Some(t)
    ensures var n := Moved(m, move); t < |LiveTasks(n)| && LiveTasks(n)[t].frames == LiveTasks(m)[t].frames
  {
    assert Moved(m, move).tasks[t] == m.tasks[t] && Moved(m, move).active == m.active;
  }

  lemma OthersKeepFrames(m: Machine, step: Step, t: nat)
    requires Valid(m) && Enabled(m, step) && t < |m.tasks|
    requires step.Act? ==> m.active != Some(t)
    ensures t < |LiveTasks(Next(m, step))| && LiveTasks(Next(m, step))[t].frames == LiveTasks(m)[t].frames
  {
    if OnTransaction(step) {
      TransactionsKeepTasks(m, step);
    } else if step.Act? {
      MovesKeepOthers(m, step.move, t);
    } else {
      assert LiveTasks(Next(m, step)) == LiveTasks(m);
    }
  }

  /** What a move does to the active task's open scopes. */
  lemma MovedFrames(m: Machine, move: Move)
    requires Enabled(m, Act(move))
    ensures var before, after := ActiveTask(m).frames, ActiveTask(Moved(m, move)).frames;
      match move
      case Enter => |after| == |before| + 1 && after[1..] == before
      case Leave => before != [] && after == before[1..]
      case Throw => after == Unwind(m.current, before).frames
      case _ => after == before
    ensures Moved(m, move).active == m.active
  {
  }

  lemma ActiveIsLive(m: Machine)
    requires m.active.Some? && m.active.value < |m.tasks|
    ensures m.active.value < |LiveTasks(m)| && LiveTasks(m)[m.active.value] == ActiveTask(m)
  {
  }

  lemma SuffixOfTail<T>(s: seq<T>, d: nat)
    requires s != [] && d <= |s| - 1
    ensures s[|s| - d..] == s[1..][|s[1..]| - d..]
  {
  }

  lemma MoveKeepsBase(m: Machine, move: Move, d: nat)
    requires Valid(m) && Enabled(m, Act(move))
    requires d <= |ActiveTask(m).frames| && d <= |ActiveTask(Moved(m, move)).frames|
    ensures var before, after := ActiveTask(m).frames, ActiveTask(Moved(m, move)).frames;
      after[|after| - d..] == before[|before| - d..]
  {
    MovedFrames(m, move);
    match move
    case Enter => SuffixOfTail(ActiveTask(Moved(m, move)).frames, d);
    case Leave => SuffixOfTail(ActiveTask(m).frames, d);
    case Throw => UnwindKeepsBase(m.current, ActiveTask(m).frames, d);
    case _ =>
  }

  lemma MoveKeepsLiveBase(m: Machine, move: Move, t: nat, d: nat)
    requires Valid(m) && Enabled(m, Act(move)) && m.active == Some(t)
    requires t < |LiveTasks(m)| && d <= Depth(m, t)
    requires t < |LiveTasks(Moved(m, move))| && d <= Depth(Moved(m, move), t)
    ensures Base(Moved(m, move), t, d) == Base(m, t, d)
  {
    var n := Moved(m, move);
    assert n.active == m.active && t < |n.tasks| by {
      MovedFrames(m, move);
    }
    ActiveIsLive(m);
    ActiveIsLive(n);
    MoveKeepsBase(m, move, d);
  }

  lemma StepKeepsBase(m: Machine, step: Step, t: nat, d: nat)
    requires Valid(m) && Enabled(m, step)
    requires t < |LiveTasks(m)| && d <= Depth(m, t)
    requires t < |LiveTasks(Next(m, step))| && d <= Depth(Next(m, step), t)
    ensures Base(Next(m, step), t, d) == Base(m, t, d)
  {
    if step.Act? && m.active == Some(t) {
      MoveKeepsLiveBase(m, step.move, t, d);
    } else {
      OthersKeepFrames(m, step, t);
    }
  }

  lemma {:induction false} RunKeepsBase(m: Machine, steps: seq<Step>, t: nat, d: nat)
    requires Possible(m, steps) && StaysInside(m, steps, t, d)
    ensures t < |LiveTasks(Run(m, steps))| && d <= Depth(Run(m, steps), t)
    ensures Base(Run(m, steps), t, d) == Base(m, t, d)
    decreases steps
  {
    if steps != [] {
      StepKeepsBase(m, steps[0], t, d);
      RunKeepsBase(Next(m, steps[0]), steps[1..], t, d);
    }
  }

  /**
   * A task enters a scope; it and every other task then do anything, the scope staying open; when the
   * task leaves that scope, the store and the statements it left off with are back.
   */
  lemma LeavingRestoresOuterStore(m: Machine, inside: seq<Step>)
    requires Valid(m) && Enabled(m, Act(Enter))
    requires Possible(Next(m, Act(Enter)), inside)
    requires StaysInside(Next(m, Act(Enter)), inside, m.active.value, |ActiveTask(m).frames| + 1)
    requires var last := Run(Next(m, Act(Enter)), inside);
      last.active == m.active && Enabled(last, Act(Leave)) && |ActiveTask(last).frames| == |ActiveTask(m).frames| + 1
    ensures var last := Run(Next(m, Act(Enter)), inside);
      Moved(last, Leave).current == m.current &&
      ActiveTask(Moved(last, Leave)).todo == ActiveTask(m).todo[1..] &&
      ActiveTask(Moved(last, Leave)).frames == ActiveTask(m).frames
  {
    var t, d := m.active.value, |ActiveTask(m).frames| + 1;
    var entered := Next(m, Act(Enter));
    RunKeepsBase(entered, inside, t, d);
    var last := Run(entered, inside);
    assert Base(entered, t, d) == [Frame(m.current, ActiveTask(m).todo[1..], ActiveTask(m).todo[0].Attempt?)] + ActiveTask(m).frames;
    assert Base(last, t, d) == ActiveTask(last).frames;
  }
}
