/**
 * The heavy-job protocol: the API inserts a row, publishes a message and rolls the row back when the
 * publish fails; a worker receives the message, moves the row through its states and deletes the
 * message only after success. Each database statement, queue command and pub/sub publish is one step;
 * any step may fail and any process may stop between two steps.
 */
module Jobs {
  import opened Foundations

  datatype Status = PENDING | PROCESSING | DONE | FAILED

  datatype Row = Row(status: Status, attempts: nat)

  /** Where the creating API call stands after its INSERT. */
  datatype Producer = Inserted | RollingBack | Returned

  datatype Queue = Unsent | Queued | Removed | DeadLettered

  /** The next thing one delivery of the message does. */
  datatype Delivery =
    | Received   // UPDATE to PROCESSING
    | Marked     // publish PROCESSING, outside the try block
    | Working    // the work itself
    | Worked     // UPDATE to DONE
    | Recorded   // publish DONE, still inside the try block
    | Failing    // UPDATE to FAILED
    | Refused    // publish FAILED, then re-throw
    | Handled    // DeleteMessage
    | Over

  datatype Job = Job(row: Option<Row>, producer: Producer, queue: Queue, deliveries: seq<Delivery>)

  datatype Step =
    | Create(id: string)
    | Publish(id: string, enqueued: bool, acknowledged: bool)
    | Rollback(id: string, ok: bool)
    | Abandon(id: string)
    | Receive(id: string)
    | Advance(id: string, i: nat, ok: bool)
    | Crash(id: string, i: nat)
    | DeadLetter(id: string)

  type Jobs = map<string, Job>

  predicate Enabled(s: Jobs, step: Step) {
    if step.Create? then step.id !in s
    else
      && step.id in s
      && var job := s[step.id];
         match step
         case Publish(_, _, _) => job.producer.Inserted?
         case Rollback(_, _) => job.producer.RollingBack?
         case Abandon(_) => !job.producer.Returned?
         case Advance(_, i, _) => i < |job.deliveries| && !job.deliveries[i].Over?
         case Crash(_, i) => i < |job.deliveries| && !job.deliveries[i].Over?
         case _ => job.queue.Queued?
  }

  function Moved(job: Job, i: nat, to: Delivery): Job
    requires i < |job.deliveries|
  {
    job.(deliveries := job.deliveries[i := to])
  }

  function SetStatus(row: Option<Row>, status: Status): Option<Row>
    requires row.Some?
  {
    Some(Row(status, if status == PROCESSING then row.value.attempts + 1 else row.value.attempts))
  }

  /** One step of delivery `i`. An UPDATE of a missing row throws. */
  function Advanced(job: Job, i: nat, ok: bool): Job
    requires i < |job.deliveries|
  {
    var wrote := ok && job.row.Some?;
    match job.deliveries[i]
    case Received => if wrote then Moved(job, i, Marked).(row := SetStatus(job.row, PROCESSING)) else Moved(job, i, Over)
    case Marked => Moved(job, i, if ok then Working else Over)
    case Working => Moved(job, i, if ok then Worked else Failing)
    case Worked => if wrote then Moved(job, i, Recorded).(row := SetStatus(job.row, DONE)) else Moved(job, i, Failing)
    case Recorded => Moved(job, i, if ok then Handled else Failing)
    case Failing => if wrote then Moved(job, i, Refused).(row := SetStatus(job.row, FAILED)) else Moved(job, i, Over)
    case Refused => Moved(job, i, Over)
    case Handled => Moved(job, i, Over).(queue := if ok && job.queue.Queued? then Removed else job.queue)
    case Over => job
  }

  function NextJob(job: Job, step: Step): Job
    requires !step.Create? && Enabled(map[step.id := job], step)
  {
    match step
    case Publish(_, enqueued, acknowledged) =>
      job.(queue := if enqueued then Queued else job.queue, producer := if acknowledged then Returned else RollingBack)
    case Rollback(_, ok) => job.(row := if ok then None else job.row, producer := Returned)
    case Abandon(_) => job.(producer := Returned)
    case Receive(_) => job.(deliveries := job.deliveries + [Received])
    case Advance(_, i, ok) => Advanced(job, i, ok)
    case Crash(_, i) => Moved(job, i, Over)
    case DeadLetter(_) => job.(queue := DeadLettered)
  }

  function Next(s: Jobs, step: Step): Jobs
    requires Enabled(s, step)
  {
    s[step.id := if step.Create? then Job(Some(Row(PENDING, 0)), Inserted, Unsent, []) else NextJob(s[step.id], step)]
  }

  ghost predicate Possible(s: Jobs, steps: seq<Step>)
    decreases steps
  {
    steps == [] || (Enabled(s, steps[0]) && Possible(Next(s, steps[0]), steps[1..]))
  }

  ghost function Run(s: Jobs, steps: seq<Step>): (end: Jobs)
    requires Possible(s, steps)
    ensures s.Keys <= end.Keys
    decreases steps
  {
    if steps == [] then s else Run(Next(s, steps[0]), steps[1..])
  }

  // ---- What holds however deliveries overlap ----

  /** A publish reports success exactly when it put the message on the queue. */
  predicate Atomic(step: Step) { step.Publish? ==> step.enqueued == step.acknowledged }

  /** The row is written by markProcessing. */
  predicate Processes(s: Jobs, step: Step, id: string)
    requires Enabled(s, step)
  {
    step.Advance? && step.id == id && step.ok && s[id].row.Some? && s[id].deliveries[step.i].Received?
  }

  ghost function Transitions(s: Jobs, steps: seq<Step>, id: string): nat
    requires Possible(s, steps)
    decreases steps
  {
    if steps == [] then 0
    else (if Processes(s, steps[0], id) then 1 else 0) + Transitions(Next(s, steps[0]), steps[1..], id)
  }

  predicate Sound(job: Job) {
    && (job.queue.Unsent? ==> job.deliveries == [])
    && (!job.queue.Unsent? ==> job.row.Some? && job.producer.Returned?)
    && (!job.producer.Returned? ==> job.row.Some?)
    && (job.row.Some? ==> (job.row.value.status.PENDING? <==> job.row.value.attempts == 0))
    && forall d | d in job.deliveries :: d in {Marked, Working, Worked, Recorded, Failing, Refused, Handled} ==> job.row.value.attempts > 0
  }

  lemma NextKeepsSound(job: Job, step: Step)
    requires !step.Create? && Enabled(map[step.id := job], step) && Sound(job) && Atomic(step)
    ensures Sound(NextJob(job, step))
  {
    var n := NextJob(job, step);
    if step.Advance? {
      assert job.deliveries[step.i] in job.deliveries;
    }
    forall d | d in n.deliveries && d !in job.deliveries
      ensures n.row.Some? && (d in {Marked, Working, Worked, Recorded, Failing, Refused, Handled} ==> n.row.value.attempts > 0)
    {
    }
  }

  function Attempts(s: Jobs, id: string): nat { if id in s && s[id].row.Some? then s[id].row.value.attempts else 0 }

  /**
   * In every run with atomic publishes, with crashes, failures, redeliveries and overlapping deliveries:
   * a message that was ever queued has its row, and `attempts` is the number of processing transitions.
   */
  lemma {:induction false} MessagesHaveRows(s: Jobs, steps: seq<Step>, id: string)
    requires Possible(s, steps) && forall step | step in steps :: Atomic(step)
    requires id in s ==> Sound(s[id])
    ensures var end := Run(s, steps);
      && (id in end ==> Sound(end[id]))
      && (id in end && end[id].row.Some? ==> Attempts(end, id) == Attempts(s, id) + Transitions(s, steps, id))
    decreases steps
  {
    if steps != [] {
      var step := steps[0];
      assert step in steps && forall t | t in steps[1..] :: t in steps;
      if step.id == id && !step.Create? {
        NextKeepsSound(s[id], step);
      }
      MessagesHaveRows(Next(s, step), steps[1..], id);
      if id in Next(s, step) && Next(s, step)[id].row.None? {
        RowsStayDeleted(Next(s, step), steps[1..], id);
      }
    }
  }

  lemma {:induction false} RowsStayDeleted(s: Jobs, steps: seq<Step>, id: string)
    requires Possible(s, steps) && id in s && s[id].row.None?
    ensures id in Run(s, steps) && Run(s, steps)[id].row.None?
    decreases steps
  {
    if steps != [] {
      RowsStayDeleted(Next(s, steps[0]), steps[1..], id);
    }
  }

  /** A row whose message was never sent and whose creator is gone stays PENDING with no attempt, for ever. */
  lemma {:induction false} OrphansStayPending(s: Jobs, steps: seq<Step>, id: string)
    requires Possible(s, steps) && id in s && Sound(s[id])
    requires s[id].queue.Unsent? && s[id].producer.Returned? && s[id].row.Some?
    requires s[id].row.value.attempts == 0
    ensures Run(s, steps)[id] == s[id] && s[id].row == Some(Row(PENDING, 0))
    decreases steps
  {
    if steps != [] {
      OrphansStayPending(Next(s, steps[0]), steps[1..], id);
    }
  }

  // ---- One delivery at a time ----

  predicate Idle(job: Job) { forall d | d in job.deliveries :: d.Over? }

  /** The queue hands a message out, or moves it to the dead-letter queue, only while nobody is handling it. */
  predicate Exclusive(s: Jobs, step: Step)
    requires Enabled(s, step)
  {
    step.Receive? || step.DeadLetter? ==> Idle(s[step.id])
  }

  ghost predicate AllExclusive(s: Jobs, steps: seq<Step>)
    requires Possible(s, steps)
    decreases steps
  {
    steps == [] || (Exclusive(s, steps[0]) && AllExclusive(Next(s, steps[0]), steps[1..]))
  }

  predicate Matches(d: Delivery, status: Status) {
    match d
    case Received => true
    case Marked => status == PROCESSING
    case Working => status == PROCESSING
    case Worked => status == PROCESSING
    case Recorded => status == DONE
    case Failing => status == PROCESSING || status == DONE
    case Refused => status == FAILED
    case Handled => status == DONE
    case Over => true
  }

  /** Only the newest delivery is active and its position agrees with the row; a removed message has a DONE row. */
  predicate Safe(job: Job) {
    && Sound(job)
    && (forall i | 0 <= i < |job.deliveries| - 1 :: job.deliveries[i].Over?)
    && (job.deliveries != [] ==> Matches(job.deliveries[|job.deliveries| - 1], job.row.value.status))
    && (job.queue.Removed? ==> job.row.value.status == DONE && Idle(job))
    && (job.queue.DeadLettered? ==> Idle(job))
  }

  lemma NextKeepsSafe(job: Job, step: Step)
    requires !step.Create? && Enabled(map[step.id := job], step) && Safe(job)
    requires Atomic(step) && Exclusive(map[step.id := job], step)
    ensures Safe(NextJob(job, step))
    ensures job.queue.Removed? ==> NextJob(job, step) == job
  {
    NextKeepsSound(job, step);
    var n := NextJob(job, step);
    if step.Receive? {
      forall i | 0 <= i < |n.deliveries| - 1 ensures n.deliveries[i].Over? {
        assert job.deliveries[i] in job.deliveries;
      }
    } else if step.Advance? || step.Crash? {
      assert job.deliveries[step.i] in job.deliveries;
      assert step.i == |job.deliveries| - 1;
      if n.queue.Removed? {
        forall d | d in n.deliveries ensures d.Over? {
          var i :| 0 <= i < |n.deliveries| && d == n.deliveries[i];
        }
      }
    }
  }

  /**
   * In every run with atomic publishes and no overlapping deliveries: a message is removed only when its
   * row is DONE, and from then on the job never changes again.
   */
  lemma {:induction false} RemovedJobsStayDone(s: Jobs, steps: seq<Step>, id: string)
    requires Possible(s, steps) && AllExclusive(s, steps) && forall step | step in steps :: Atomic(step)
    requires id in s ==> Safe(s[id])
    ensures var end := Run(s, steps);
      && (id in end ==> Safe(end[id]))
      && (id in end && end[id].queue.Removed? ==> end[id].row.Some? && end[id].row.value.status == DONE)
      && (id in s && s[id].queue.Removed? ==> end[id] == s[id])
    decreases steps
  {
    if steps != [] {
      var step := steps[0];
      assert step in steps && forall t | t in steps[1..] :: t in steps;
      if step.id == id && !step.Create? {
        NextKeepsSafe(s[id], step);
      }
      RemovedJobsStayDone(Next(s, step), steps[1..], id);
    }
  }

  // ---- One delivery, run to its end ----

  /** How each step of one delivery turns out. */
  datatype Outcomes = Outcomes(markProcessing: bool, announce: bool, work: bool, markDone: bool, announceDone: bool,
                               markFailed: bool, announceFailed: bool, deleteMessage: bool)
  {
    function At(d: Delivery): bool {
      match d
      case Received => markProcessing
      case Marked => announce
      case Working => work
      case Worked => markDone
      case Recorded => announceDone
      case Failing => markFailed
      case Refused => announceFailed
      case Handled => deleteMessage
      case Over => true
    }
  }

  function StepsLeft(d: Delivery): nat {
    match d
    case Received => 8
    case Marked => 7
    case Working => 6
    case Worked => 5
    case Recorded => 4
    case Handled => 1
    case Failing => 3
    case Refused => 2
    case Over => 0
  }

  /** Delivery `i` taken up to the point where its handler has returned (`Handled`) or thrown (`Over`). */
  function Dispatched(job: Job, i: nat, o: Outcomes): (r: Job)
    requires i < |job.deliveries|
    ensures |r.deliveries| == |job.deliveries| && (r.deliveries[i].Handled? || r.deliveries[i].Over?)
    decreases StepsLeft(job.deliveries[i])
  {
    var d := job.deliveries[i];
    if d.Handled? || d.Over? then job else Dispatched(Advanced(job, i, o.At(d)), i, o)
  }

  function Settled(job: Job, i: nat, o: Outcomes): Job
    requires i < |job.deliveries|
  {
    var after := Dispatched(job, i, o);
    if after.deliveries[i].Handled? then Advanced(after, i, o.deleteMessage) else after
  }

  lemma SettledSteps(job: Job, i: nat, o: Outcomes)
    requires i < |job.deliveries| && !job.deliveries[i].Over?
    ensures Settled(Advanced(job, i, o.At(job.deliveries[i])), i, o) == Settled(job, i, o)
  {
    if job.deliveries[i].Handled? {
      var n := Advanced(job, i, o.deleteMessage);
      assert n.deliveries[i].Over?;
    }
  }

  /** The machine can take those very steps. */
  lemma {:induction false} DeliveryIsARun(s: Jobs, id: string, i: nat, o: Outcomes) returns (steps: seq<Step>)
    requires id in s && i < |s[id].deliveries|
    ensures Possible(s, steps) && Run(s, steps) == s[id := Settled(s[id], i, o)]
    decreases StepsLeft(s[id].deliveries[i])
  {
    var d := s[id].deliveries[i];
    if d.Over? {
      steps := [];
      assert s[id := s[id]] == s;
    } else {
      var step := Advance(id, i, o.At(d));
      var n := Next(s, step);
      SettledSteps(s[id], i, o);
      var rest := DeliveryIsARun(n, id, i, o);
      steps := [step] + rest;
      assert steps[1..] == rest;
      assert n[id := Settled(n[id], i, o)] == s[id := Settled(s[id], i, o)];
    }
  }

  /**
   * Whatever earlier deliveries left behind, a delivery settles the job exactly when every step it
   * takes succeeds; otherwise the message stays queued for another attempt.
   */
  lemma DeliverySettlesIff(job: Job, o: Outcomes)
    requires Safe(job) && job.queue.Queued? && Idle(job)
    ensures var start := job.(deliveries := job.deliveries + [Received]);
      var end := Settled(start, |job.deliveries|, o);
      && end.row.Some?
      && (end.queue.Removed? <==> o.markProcessing && o.announce && o.work && o.markDone && o.announceDone && o.deleteMessage)
      && (end.queue.Removed? ==> end.row == Some(Row(DONE, job.row.value.attempts + 1)))
      && (!end.queue.Removed? ==> end.queue.Queued?)
      && (!o.markProcessing ==> end.row == job.row)
      && (o.markProcessing && o.announce ==>
            (end.row.value.status == FAILED <==> o.markFailed && !(o.work && o.markDone && o.announceDone)))
  {
    var i := |job.deliveries|;
    var j0 := job.(deliveries := job.deliveries + [Received]);
    var j1 := Advanced(j0, i, o.markProcessing);
    assert Dispatched(j0, i, o) == Dispatched(j1, i, o);
    if o.markProcessing {
      var j2 := Advanced(j1, i, o.announce);
      assert Dispatched(j1, i, o) == Dispatched(j2, i, o);
      if o.announce {
        FromWorking(j2, i, o);
      }
    }
  }

  lemma FromWorking(job: Job, i: nat, o: Outcomes)
    requires i < |job.deliveries| && job.deliveries[i].Working? && job.row.Some? && job.queue.Queued?
    ensures var end := Settled(job, i, o);
      && end.row.Some?
      && (end.queue.Removed? <==> o.work && o.markDone && o.announceDone && o.deleteMessage)
      && (!end.queue.Removed? ==> end.queue.Queued?)
      && (o.work && o.markDone && o.announceDone ==> end.row == Some(Row(DONE, job.row.value.attempts)))
      && (!(o.work && o.markDone && o.announceDone) && o.markFailed ==> end.row == Some(Row(FAILED, job.row.value.attempts)))
      && (!(o.work && o.markDone && o.announceDone) && !o.markFailed ==>
            end.row == if o.work && o.markDone then SetStatus(job.row, DONE) else job.row)
  {
    var j3 := Advanced(job, i, o.work);
    assert Dispatched(job, i, o) == Dispatched(j3, i, o);
    if o.work {
      var j4 := Advanced(j3, i, o.markDone);
      assert Dispatched(j3, i, o) == Dispatched(j4, i, o);
      if o.markDone {
        var j5 := Advanced(j4, i, o.announceDone);
        assert Dispatched(j4, i, o) == Dispatched(j5, i, o);
        if !o.announceDone {
          FromFailing(j5, i, o);
        }
      } else {
        FromFailing(j4, i, o);
      }
    } else {
      FromFailing(j3, i, o);
    }
  }

  lemma FromFailing(job: Job, i: nat, o: Outcomes)
    requires i < |job.deliveries| && job.deliveries[i].Failing? && job.row.Some?
    ensures var end := Settled(job, i, o);
      end.queue == job.queue && end.row == if o.markFailed then SetStatus(job.row, FAILED) else job.row
  {
    var j := Advanced(job, i, o.markFailed);
    assert Dispatched(job, i, o) == Dispatched(j, i, o);
    if o.markFailed {
      assert Dispatched(j, i, o) == Dispatched(Advanced(j, i, o.announceFailed), i, o);
    }
  }

  // ---- Exactly when the hypotheses are needed ----

  /** A delivery that will write no row any more. */
  predicate Harmless(d: Delivery) { d.Over? || d.Handled? || d.Refused? }

  lemma NextKeepsHarmless(s: Jobs, step: Step, id: string)
    requires Enabled(s, step) && id in s && s[id].queue.Removed? && s[id].producer.Returned?
    requires forall d | d in s[id].deliveries :: Harmless(d)
    ensures var n := Next(s, step);
      && n[id].row == s[id].row && n[id].queue.Removed? && n[id].producer.Returned?
      && forall d | d in n[id].deliveries :: Harmless(d)
  {
    if step.id == id && step.Advance? {
      assert s[id].deliveries[step.i] in s[id].deliveries;
    }
  }

  lemma {:induction false} HarmlessRunsKeepTheRow(s: Jobs, steps: seq<Step>, id: string)
    requires Possible(s, steps) && id in s && s[id].queue.Removed? && s[id].producer.Returned?
    requires forall d | d in s[id].deliveries :: Harmless(d)
    ensures Run(s, steps)[id].row == s[id].row
    decreases steps
  {
    if steps != [] {
      NextKeepsHarmless(s, steps[0], id);
      HarmlessRunsKeepTheRow(Next(s, steps[0]), steps[1..], id);
    }
  }

  /** Any other delivery can go on until it has written PROCESSING or FAILED over DONE. */
  lemma {:induction false} HarmfulRun(s: Jobs, id: string, i: nat) returns (steps: seq<Step>)
    requires id in s && i < |s[id].deliveries| && !Harmless(s[id].deliveries[i])
    requires s[id].row.Some? && s[id].row.value.status == DONE
    ensures Possible(s, steps) && Run(s, steps)[id].row.Some? && Run(s, steps)[id].row.value.status in {PROCESSING, FAILED}
    decreases StepsLeft(s[id].deliveries[i])
  {
    var d := s[id].deliveries[i];
    var step := Advance(id, i, d.Received? || d.Marked? || d.Failing?);
    var n := Next(s, step);
    var rest: seq<Step> := [];
    if d.Received? || d.Failing? {
      assert Possible(n, rest) && Run(n, rest) == n;
    } else {
      rest := HarmfulRun(n, id, i);
    }
    steps := [step] + rest;
    assert steps[1..] == rest;
  }

  /**
   * A job whose message is removed and whose row is DONE keeps its row in every continuation, overlapping
   * deliveries included, if and only if no delivery still under way has a row left to write.
   */
  lemma RemovedJobKeepsItsRowIff(s: Jobs, id: string)
    requires id in s && Sound(s[id]) && s[id].queue.Removed? && s[id].row.value.status == DONE
    ensures (forall steps | Possible(s, steps) :: Run(s, steps)[id].row == s[id].row)
            <==> forall d | d in s[id].deliveries :: Harmless(d)
  {
    if forall d | d in s[id].deliveries :: Harmless(d) {
      forall steps | Possible(s, steps) ensures Run(s, steps)[id].row == s[id].row {
        HarmlessRunsKeepTheRow(s, steps, id);
      }
    } else {
      var i :| 0 <= i < |s[id].deliveries| && !Harmless(s[id].deliveries[i]);
      var steps := HarmfulRun(s, id, i);
      assert Run(s, steps)[id].row != s[id].row;
    }
  }

  /** A message was queued and its row is gone. */
  predicate Lost(s: Jobs, id: string) { id in s && !s[id].queue.Unsent? && s[id].row.None? }

  /** Once the creating call is over, no row is deleted and nothing is published any more. */
  lemma {:induction false} ReturnedJobsKeepTheirRow(s: Jobs, steps: seq<Step>, id: string)
    requires Possible(s, steps) && id in s && s[id].producer.Returned?
    requires s[id].queue.Unsent? ==> s[id].deliveries == []
    ensures Lost(Run(s, steps), id) <==> Lost(s, id)
    ensures forall step | step in steps && step.id == id :: !step.Publish? && !step.Rollback?
    decreases steps
  {
    if steps != [] {
      ReturnedJobsKeepTheirRow(Next(s, steps[0]), steps[1..], id);
      assert forall step | step in steps :: step == steps[0] || step in steps[1..];
    }
  }

  lemma {:induction false} RollingBackLosesIff(s: Jobs, steps: seq<Step>, id: string)
    requires Possible(s, steps) && id in s && s[id].producer.RollingBack? && s[id].row.Some?
    requires s[id].queue.Unsent? ==> s[id].deliveries == []
    ensures Lost(Run(s, steps), id) <==> !s[id].queue.Unsent? && Rollback(id, true) in steps
    ensures forall step | step in steps && step.id == id :: !step.Publish?
    decreases steps
  {
    if steps != [] {
      var step := steps[0];
      assert forall t | t in steps :: t == step || t in steps[1..];
      if step.id == id && (step.Rollback? || step.Abandon?) {
        ReturnedJobsKeepTheirRow(Next(s, step), steps[1..], id);
      } else {
        RollingBackLosesIff(Next(s, step), steps[1..], id);
      }
    }
  }

  lemma {:induction false} InsertedLosesIff(s: Jobs, steps: seq<Step>, id: string)
    requires Possible(s, steps) && id in s && s[id] == Job(Some(Row(PENDING, 0)), Inserted, Unsent, [])
    ensures Lost(Run(s, steps), id) <==> Publish(id, true, false) in steps && Rollback(id, true) in steps
    decreases steps
  {
    if steps != [] {
      var step := steps[0];
      assert forall t | t in steps :: t == step || t in steps[1..];
      if step.id != id {
        InsertedLosesIff(Next(s, step), steps[1..], id);
      } else if step.Abandon? || step.acknowledged {
        ReturnedJobsKeepTheirRow(Next(s, step), steps[1..], id);
      } else {
        RollingBackLosesIff(Next(s, step), steps[1..], id);
      }
    }
  }

  /**
   * Over every run from before a job's creation, with any crashes, failures and overlapping deliveries: its
   * message outlives its row if and only if its publish enqueued the message, reported failure, and the
   * rollback then worked.
   */
  lemma {:induction false} RowLostIff(s: Jobs, steps: seq<Step>, id: string)
    requires Possible(s, steps) && id !in s
    ensures Lost(Run(s, steps), id) <==> Publish(id, true, false) in steps && Rollback(id, true) in steps
    decreases steps
  {
    if steps != [] {
      var step := steps[0];
      assert forall t | t in steps :: t == step || t in steps[1..];
      if step.id == id {
        InsertedLosesIff(Next(s, step), steps[1..], id);
      } else {
        RowLostIff(Next(s, step), steps[1..], id);
      }
    }
  }

  /** Steps of different jobs do not interfere, so the order in which a batch is handled is immaterial. */
  lemma DifferentJobsCommute(s: Jobs, a: Step, b: Step)
    requires a.id != b.id && Enabled(s, a) && Enabled(s, b)
    ensures Enabled(Next(s, a), b) && Enabled(Next(s, b), a)
    ensures Next(Next(s, a), b) == Next(Next(s, b), a)
  {
    assert Next(Next(s, a), b).Keys == Next(Next(s, b), a).Keys;
  }

  /** A publish that enqueues the message and then reports failure leaves a queued message without a row. */
  lemma UnacknowledgedPublishLosesTheRow(id: string)
    ensures var steps := [Create(id), Publish(id, true, false), Rollback(id, true)];
      Possible(map[], steps) && id in Run(map[], steps)
      && Run(map[], steps)[id].queue.Queued? && Run(map[], steps)[id].row.None?
  {
    var steps := [Create(id), Publish(id, true, false), Rollback(id, true)];
    var s1 := Next(map[], steps[0]);
    var s2 := Next(s1, steps[1]);
    assert steps[1..][1..] == [steps[2]];
    var s3 := Next(s2, steps[2]);
    assert Possible(s3, []) && Run(s3, []) == s3;
    assert Possible(s2, [steps[2]]) && Run(s2, [steps[2]]) == s3;
  }

  /** Two overlapping deliveries: one finishes and removes the message, the other then marks the row FAILED. */
  lemma OverlappingDeliveriesUndoDone(s: Jobs, id: string) returns (steps: seq<Step>)
    requires id in s && s[id] == Job(Some(Row(PENDING, 0)), Returned, Queued, [])
    ensures Possible(s, steps)
    ensures Run(s, steps)[id].queue.Removed? && Run(s, steps)[id].row == Some(Row(FAILED, 2)) && Idle(Run(s, steps)[id])
  {
    var good := Outcomes(true, true, true, true, true, true, true, true);
    var bad := good.(work := false);
    var s1 := Next(s, Receive(id));
    var s2 := Next(s1, Receive(id));
    var first := DeliveryIsARun(s2, id, 0, good);
    var s3 := Run(s2, first);
    FromReceived(s2[id], 0, good);
    var second := DeliveryIsARun(s3, id, 1, bad);
    FromReceived(s3[id], 1, bad);
    RunAppend(s2, first, second);
    steps := [Receive(id)] + ([Receive(id)] + (first + second));
    assert steps[1..] == [Receive(id)] + (first + second);
    assert steps[1..][1..] == first + second;
  }

  /** The two outcomes the example above uses, followed step by step. */
  lemma FromReceived(job: Job, i: nat, o: Outcomes)
    requires i < |job.deliveries| && job.deliveries[i].Received? && job.row.Some?
    requires o == Outcomes(true, true, o.work, true, true, true, true, true)
    ensures var end := Settled(job, i, o);
      && end.row == Some(Row(if o.work then DONE else FAILED, job.row.value.attempts + 1))
      && end.queue == (if o.work && job.queue.Queued? then Removed else job.queue)
      && end.deliveries == job.deliveries[i := Over]
  {
    var j1 := Advanced(job, i, true);
    var j2 := Advanced(j1, i, true);
    var j3 := Advanced(j2, i, o.work);
    var j4 := Advanced(j3, i, true);
    var j5 := Advanced(j4, i, true);
    assert Dispatched(j5, i, o) == j5;
    assert Dispatched(j3, i, o) == j5;
    assert Dispatched(job, i, o) == Dispatched(j2, i, o) == j5;
  }

  lemma {:induction false} RunAppend(s: Jobs, a: seq<Step>, b: seq<Step>)
    requires Possible(s, a) && Possible(Run(s, a), b)
    ensures Possible(s, a + b) && Run(s, a + b) == Run(Run(s, a), b)
    decreases a
  {
    if a == [] {
      assert a + b == b;
    } else {
      assert (a + b)[1..] == a[1..] + b;
      RunAppend(Next(s, a[0]), a[1..], b);
    }
  }
}
