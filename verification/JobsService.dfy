/**
 * The job classes themselves: the repository's row statements, the API's create-publish-rollback call, the
 * worker's handler and the queue consumer. Each method ends in the state the protocol's steps give.
 */
module JobsService {
  import opened Foundations
  import opened Jobs

  function RowOf(rows: map<string, Row>, id: string): Option<Row> { if id in rows then Some(rows[id]) else None }

  function WithRow(rows: map<string, Row>, id: string, row: Option<Row>): map<string, Row> {
    if row.Some? then rows[id := row.value] else rows - {id}
  }

  /** The jobs table. `ok` says whether the database executes the statement. */
  class JobRepository {
    var rows: map<string, Row>

    constructor ()
      ensures rows == map[]
    {
      rows := map[];
    }

    /** INSERT; the id is the primary key. */
    method Create(id: string, ok: bool) returns (threw: bool)
      modifies this
      ensures threw <==> !ok || id in old(rows)
      ensures rows == if threw then old(rows) else old(rows)[id := Row(PENDING, 0)]
    {
      if !ok || id in rows {
        return true;
      }
      rows := rows[id := Row(PENDING, 0)];
      threw := false;
    }

    /** Failures are swallowed. */
    method Delete(id: string, ok: bool)
      modifies this
      ensures rows == if ok then old(rows) - {id} else old(rows)
    {
      if ok {
        rows := rows - {id};
      }
    }

    method MarkProcessing(id: string, ok: bool) returns (threw: bool)
      modifies this
      ensures threw <==> !ok || id !in old(rows)
      ensures rows == if threw then old(rows) else WithRow(old(rows), id, SetStatus(RowOf(old(rows), id), PROCESSING))
    {
      if !ok || id !in rows {
        return true;
      }
      rows := rows[id := Row(PROCESSING, rows[id].attempts + 1)];
      threw := false;
    }

    method MarkDone(id: string, ok: bool) returns (threw: bool)
      modifies this
      ensures threw <==> !ok || id !in old(rows)
      ensures rows == if threw then old(rows) else WithRow(old(rows), id, SetStatus(RowOf(old(rows), id), DONE))
    {
      if !ok || id !in rows {
        return true;
      }
      rows := rows[id := rows[id].(status := DONE)];
      threw := false;
    }

    method MarkFailed(id: string, ok: bool) returns (threw: bool)
      modifies this
      ensures threw <==> !ok || id !in old(rows)
      ensures rows == if threw then old(rows) else WithRow(old(rows), id, SetStatus(RowOf(old(rows), id), FAILED))
    {
      if !ok || id !in rows {
        return true;
      }
      rows := rows[id := rows[id].(status := FAILED)];
      threw := false;
    }
  }

  /** The broker's view of each heavy job's message. */
  class MessageQueue {
    var messages: map<string, Queue>

    constructor ()
      ensures messages == map[]
    {
      messages := map[];
    }

    function At(id: string): Queue
      reads this
    {
      if id in messages then messages[id] else Unsent
    }

    method Send(id: string, enqueued: bool)
      modifies this
      ensures messages == if enqueued then old(messages)[id := Queued] else old(messages)
    {
      if enqueued {
        messages := messages[id := Queued];
      }
    }

    method Delete(id: string, ok: bool) returns (threw: bool)
      modifies this
      ensures threw <==> !ok
      ensures messages == if ok && old(At(id)).Queued? then old(messages)[id := Removed] else old(messages)
    {
      threw := !ok;
      if ok && At(id).Queued? {
        messages := messages[id := Removed];
      }
    }
  }

  class TasksService {
    const repo: JobRepository
    const queue: MessageQueue

    constructor (repo: JobRepository, queue: MessageQueue)
      ensures this.repo == repo && this.queue == queue
    {
      this.repo := repo;
      this.queue := queue;
    }

    /** A fresh id: the protocol's Create, Publish and (when the publish throws) Rollback steps. */
    method CreateHeavyJob(id: string, inserts: bool, enqueued: bool, acknowledged: bool, rollsBack: bool) returns (threw: bool)
      requires id !in repo.rows && queue.At(id).Unsent?
      modifies repo, queue
      ensures threw <==> !(inserts && acknowledged)
      ensures !inserts ==> repo.rows == old(repo.rows) && queue.messages == old(queue.messages)
      ensures inserts ==>
        var steps := [Create(id), Publish(id, enqueued, acknowledged)]
                     + if acknowledged then [] else [Rollback(id, rollsBack)];
        && Possible(map[], steps) && id in Run(map[], steps)
        && var job := Run(map[], steps)[id];
           && repo.rows == WithRow(old(repo.rows), id, job.row)
           && queue.At(id) == job.queue
           && job.producer.Returned?
      ensures forall other | other != id :: queue.At(other) == old(queue.At(other))
    {
      threw := repo.Create(id, inserts);
      if threw {
        return;
      }
      queue.Send(id, enqueued);
      if !acknowledged {
        repo.Delete(id, rollsBack);
        threw := true;
      }
      ghost var steps := [Create(id), Publish(id, enqueued, acknowledged)]
                         + if acknowledged then [] else [Rollback(id, rollsBack)];
      CreationRuns(id, enqueued, acknowledged, rollsBack, steps);
      assert WithRow(old(repo.rows), id, None) == old(repo.rows) - {id};
      assert old(repo.rows)[id := Row(PENDING, 0)] - {id} == old(repo.rows) - {id};
    }
  }

  lemma CreationRuns(id: string, enqueued: bool, acknowledged: bool, rollsBack: bool, steps: seq<Step>)
    requires steps == [Create(id), Publish(id, enqueued, acknowledged)] + if acknowledged then [] else [Rollback(id, rollsBack)]
    ensures Possible(map[], steps) && id in Run(map[], steps)
    ensures Run(map[], steps)[id] == Job(if acknowledged || !rollsBack then Some(Row(PENDING, 0)) else None, Returned,
                                         if enqueued then Queued else Unsent, [])
  {
    var s1 := Next(map[], steps[0]);
    assert steps[1..][0] == steps[1];
    var s2 := Next(s1, steps[1]);
    if acknowledged {
      assert steps[1..][1..] == [];
      assert Possible(s2, []) && Run(s2, []) == s2;
    } else {
      assert steps[1..][1..] == [Rollback(id, rollsBack)];
      var s3 := Next(s2, Rollback(id, rollsBack));
      assert Possible(s3, []) && Run(s3, []) == s3;
      assert Possible(s2, steps[1..][1..]) && Run(s2, steps[1..][1..]) == s3;
    }
    assert Possible(s1, steps[1..]);
  }

  class WorkerController {
    const repo: JobRepository

    constructor (repo: JobRepository)
      ensures this.repo == repo
    {
      this.repo := repo;
    }

    /** The row ends as the protocol's delivery leaves it; the handler returns normally exactly when the delivery reaches `Handled`. */
    method HandleHeavyJobCreated(id: string, o: Outcomes) returns (threw: bool)
      modifies repo
      ensures var end := Dispatched(Delivering(old(repo.rows), id, Received), 0, o);
        repo.rows == WithRow(old(repo.rows), id, end.row) && (threw <==> !end.deliveries[0].Handled?)
    {
      Unchanged(repo.rows, id);
      threw := repo.MarkProcessing(id, o.markProcessing);
      DeliveryMoves(old(repo.rows), repo.rows, id, Received, if threw then Over else Marked, o);
      if threw {
        return;
      }
      Unchanged(repo.rows, id);
      DeliveryMoves(repo.rows, repo.rows, id, Marked, if o.announce then Working else Over, o);
      if !o.announce {
        return true;
      }
      var ok := WorkAndRecord(id, o);
      Unchanged(repo.rows, id);
      if ok {
        return false;
      }
      RecordFailure(id, o);
      threw := true;
    }

    /** The try block. */
    method WorkAndRecord(id: string, o: Outcomes) returns (ok: bool)
      requires id in repo.rows
      modifies repo
      ensures id in repo.rows && repo.rows == WithRow(old(repo.rows), id, RowOf(repo.rows, id))
      ensures Dispatched(Delivering(old(repo.rows), id, Working), 0, o) ==
                Dispatched(Delivering(repo.rows, id, if ok then Handled else Failing), 0, o)
    {
      Unchanged(repo.rows, id);
      DeliveryMoves(repo.rows, repo.rows, id, Working, if o.work then Worked else Failing, o);
      if !o.work {
        return false;
      }
      var unmarked := repo.MarkDone(id, o.markDone);
      DeliveryMoves(old(repo.rows), repo.rows, id, Worked, if unmarked then Failing else Recorded, o);
      if unmarked {
        return false;
      }
      DeliveryMoves(repo.rows, repo.rows, id, Recorded, if o.announceDone then Handled else Failing, o);
      ok := o.announceDone;
    }

    /** The catch block; the error is re-thrown whether or not it could be recorded. */
    method RecordFailure(id: string, o: Outcomes)
      requires id in repo.rows
      modifies repo
      ensures var end := Dispatched(Delivering(old(repo.rows), id, Failing), 0, o);
        repo.rows == WithRow(old(repo.rows), id, end.row) && !end.deliveries[0].Handled?
    {
      Unchanged(repo.rows, id);
      var unmarked := repo.MarkFailed(id, o.markFailed);
      DeliveryMoves(old(repo.rows), repo.rows, id, Failing, if unmarked then Over else Refused, o);
      DeliveryMoves(repo.rows, repo.rows, id, Refused, Over, o);
    }
  }

  /** A job with one delivery, at the given position. */
  function Delivering(rows: map<string, Row>, id: string, at: Delivery): Job { Job(RowOf(rows, id), Returned, Queued, [at]) }

  /** One step of a delivery, from the rows before it to the rows after it. */
  lemma DeliveryMoves(rows: map<string, Row>, after: map<string, Row>, id: string, at: Delivery, to: Delivery, o: Outcomes)
    requires !at.Handled? && !at.Over?
    requires var next := Advanced(Delivering(rows, id, at), 0, o.At(at)); next.row == RowOf(after, id) && next.deliveries[0] == to
    ensures Dispatched(Delivering(rows, id, at), 0, o) == Dispatched(Delivering(after, id, to), 0, o)
  {
    assert Advanced(Delivering(rows, id, at), 0, o.At(at)) == Delivering(after, id, to);
  }

  lemma Unchanged(rows: map<string, Row>, id: string)
    ensures WithRow(rows, id, RowOf(rows, id)) == rows
  {
  }

  /** One received message: the job it names, or a body that does not parse. */
  datatype Message = Parsed(id: string, outcomes: Outcomes) | Unparsable

  /** What processing a message does to the rows and the queue. */
  function Processed(rows: map<string, Row>, messages: map<string, Queue>, m: Message): (map<string, Row>, map<string, Queue>) {
    if m.Unparsable? then (rows, messages)
    else
      var queued := m.id in messages && messages[m.id].Queued?;
      var start := Job(RowOf(rows, m.id), Returned, if m.id in messages then messages[m.id] else Unsent, [Received]);
      var end := Settled(start, 0, m.outcomes);
      (WithRow(rows, m.id, end.row), if queued then messages[m.id := end.queue] else messages)
  }

  function ProcessedAll(rows: map<string, Row>, messages: map<string, Queue>, batch: seq<Message>): (map<string, Row>, map<string, Queue>)
    decreases batch
  {
    if batch == [] then (rows, messages)
    else
      var (r, q) := Processed(rows, messages, batch[0]);
      ProcessedAll(r, q, batch[1..])
  }

  /** The messages of one answer name different jobs. */
  predicate Distinct(batch: seq<Message>) {
    forall i, j | 0 <= i < j < |batch| && batch[i].Parsed? && batch[j].Parsed? :: batch[i].id != batch[j].id
  }

  predicate Names(batch: seq<Message>, id: string) { exists m | m in batch :: m.Parsed? && m.id == id }

  /** What the rows and the queue hold of one job. */
  function Holding(rows: map<string, Row>, messages: map<string, Queue>, id: string): (Option<Row>, Option<Queue>) {
    (RowOf(rows, id), if id in messages then Some(messages[id]) else None)
  }

  /** Processing a message depends on, and changes, nothing but its own job. */
  lemma ProcessedIsLocal(rows: map<string, Row>, messages: map<string, Queue>, rows2: map<string, Row>, messages2: map<string, Queue>, m: Message, id: string)
    requires Holding(rows, messages, id) == Holding(rows2, messages2, id)
    ensures var (r, q) := Processed(rows, messages, m);
      var (r2, q2) := Processed(rows2, messages2, m);
      && (m.Parsed? && m.id == id ==> Holding(r, q, id) == Holding(r2, q2, id))
      && (!(m.Parsed? && m.id == id) ==> Holding(r, q, id) == Holding(rows, messages, id))
  {
  }

  /**
   * However the messages of one answer are ordered or overlapped, each job ends as if its own message had
   * been processed alone, and every other job is untouched.
   */
  lemma {:induction false} EachMessageOnItsOwn(rows: map<string, Row>, messages: map<string, Queue>, batch: seq<Message>, id: string)
    requires Distinct(batch)
    ensures var (r, q) := ProcessedAll(rows, messages, batch);
      && (!Names(batch, id) ==> Holding(r, q, id) == Holding(rows, messages, id))
      && forall m | m in batch && m.Parsed? && m.id == id ::
           Holding(r, q, id) == Holding(Processed(rows, messages, m).0, Processed(rows, messages, m).1, id)
    decreases batch
  {
    if batch != [] {
      var (r, q) := Processed(rows, messages, batch[0]);
      var rest := batch[1..];
      assert forall m | m in batch :: m == batch[0] || m in rest;
      assert batch[0] in batch && forall m | m in rest :: m in batch;
      EachMessageOnItsOwn(r, q, rest, id);
      ProcessedIsLocal(rows, messages, rows, messages, batch[0], id);
      if batch[0].Parsed? && batch[0].id == id {
        assert !Names(rest, id);
      } else {
        forall m | m in rest && m.Parsed? && m.id == id
          ensures Holding(Processed(r, q, m).0, Processed(r, q, m).1, id) == Holding(Processed(rows, messages, m).0, Processed(rows, messages, m).1, id)
        {
          ProcessedIsLocal(r, q, rows, messages, m, id);
        }
      }
    }
  }

  /** One answer of the queue, or a receive error; the consumer stops after the first during which it was told to. */
  datatype Poll = Answer(batch: seq<Message>, shutdownDuring: bool) | ReceiveError(shutdownDuring: bool)

  function Messages(p: Poll): seq<Message> { if p.Answer? then p.batch else [] }

  function Polled(rows: map<string, Row>, messages: map<string, Queue>, polls: seq<Poll>): (map<string, Row>, map<string, Queue>)
    decreases polls
  {
    if polls == [] then (rows, messages)
    else
      var (r, q) := ProcessedAll(rows, messages, Messages(polls[0]));
      if polls[0].shutdownDuring then (r, q) else Polled(r, q, polls[1..])
  }

  /** Answers after the one during which the consumer is told to stop are never asked for, and errors only cost a poll. */
  lemma {:induction false} PollingStops(rows: map<string, Row>, messages: map<string, Queue>, polls: seq<Poll>, n: nat)
    requires n < |polls| && polls[n].shutdownDuring && forall i | 0 <= i < n :: !polls[i].shutdownDuring
    ensures Polled(rows, messages, polls) == ProcessedAll(rows, messages, AllMessages(polls[..n + 1]))
    decreases polls
  {
    var (r, q) := ProcessedAll(rows, messages, Messages(polls[0]));
    var front := polls[..n + 1];
    assert front[0] == polls[0] && front[1..] == polls[1..][..n];
    if n == 0 {
      assert AllMessages(front[1..]) == [];
      assert Messages(polls[0]) + [] == Messages(polls[0]);
    } else {
      PollingStops(r, q, polls[1..], n - 1);
      ProcessedJoins(rows, messages, Messages(polls[0]), AllMessages(front[1..]));
    }
  }

  function AllMessages(polls: seq<Poll>): seq<Message> {
    if polls == [] then [] else Messages(polls[0]) + AllMessages(polls[1..])
  }

  lemma {:induction false} ProcessedJoins(rows: map<string, Row>, messages: map<string, Queue>, a: seq<Message>, b: seq<Message>)
    ensures var (r, q) := ProcessedAll(rows, messages, a);
      ProcessedAll(rows, messages, a + b) == ProcessedAll(r, q, b)
    decreases a
  {
    if a == [] {
      assert a + b == b;
    } else {
      assert (a + b)[1..] == a[1..] + b;
      ProcessedJoins(Processed(rows, messages, a[0]).0, Processed(rows, messages, a[0]).1, a[1..], b);
    }
  }

  class SqsConsumerService {
    const worker: WorkerController
    const queue: MessageQueue
    var running: bool

    constructor (worker: WorkerController, queue: MessageQueue)
      ensures this.worker == worker && this.queue == queue && !running
    {
      this.worker := worker;
      this.queue := queue;
      running := false;
    }

    /** Deletes the message only when the handler returned. */
    method ProcessMessage(m: Message)
      modifies worker.repo, queue
      ensures (worker.repo.rows, queue.messages) == Processed(old(worker.repo.rows), old(queue.messages), m)
    {
      if m.Unparsable? {
        return;
      }
      ghost var asQueued := Job(RowOf(worker.repo.rows, m.id), Returned, Queued, [Received]);
      DispatchIgnoresTheQueue(asQueued, 0, m.outcomes, queue.At(m.id));
      assert queue.At(m.id).Queued? && m.id in queue.messages ==> queue.messages[m.id := Queued] == queue.messages;
      var threw := worker.HandleHeavyJobCreated(m.id, m.outcomes);
      if !threw {
        var undeleted := queue.Delete(m.id, m.outcomes.deleteMessage);
      }
    }

    /** `polls` are the queue's answers and errors; the loop runs until `running` is cleared or they end. */
    method Run(polls: seq<Poll>)
      modifies this`running, worker.repo, queue
      ensures (worker.repo.rows, queue.messages) == Polled(old(worker.repo.rows), old(queue.messages), polls)
      ensures running <==> forall p | p in polls :: !p.shutdownDuring
    {
      running := true;
      var n := 0;
      while running && n < |polls|
        invariant n <= |polls|
        invariant running ==> Polled(worker.repo.rows, queue.messages, polls[n..]) == Polled(old(worker.repo.rows), old(queue.messages), polls)
        invariant !running ==> (worker.repo.rows, queue.messages) == Polled(old(worker.repo.rows), old(queue.messages), polls)
        invariant running <==> forall p | p in polls[..n] :: !p.shutdownDuring
      {
        ghost var before := Polled(worker.repo.rows, queue.messages, polls[n..]);
        label Start:
        var batch := Messages(polls[n]);
        var i := 0;
        while i < |batch|
          invariant i <= |batch| && running
          invariant ProcessedAll(worker.repo.rows, queue.messages, batch[i..]) == ProcessedAll(old@Start(worker.repo.rows), old@Start(queue.messages), batch)
        {
          assert batch[i..][0] == batch[i] && batch[i..][1..] == batch[i + 1..];
          ProcessMessage(batch[i]);
          i := i + 1;
        }
        assert batch[i..] == [];
        assert polls[n..][0] == polls[n] && polls[n..][1..] == polls[n + 1..];
        if polls[n].shutdownDuring {
          running := false;
        }
        assert polls[..n + 1] == polls[..n] + [polls[n]];
        n := n + 1;
      }
      assert running ==> polls[n..] == [] && polls[..n] == polls;
      if !running {
        assert exists p :: p in polls[..n] && p.shutdownDuring;
      }
    }
  }

  lemma {:induction false} DispatchIgnoresTheQueue(job: Job, i: nat, o: Outcomes, queue: Queue)
    requires i < |job.deliveries|
    ensures Dispatched(job.(queue := queue), i, o) == Dispatched(job, i, o).(queue := queue)
    decreases StepsLeft(job.deliveries[i])
  {
    var d := job.deliveries[i];
    if !d.Handled? && !d.Over? {
      assert Advanced(job.(queue := queue), i, o.At(d)) == Advanced(job, i, o.At(d)).(queue := queue);
      DispatchIgnoresTheQueue(Advanced(job, i, o.At(d)), i, o, queue);
    }
  }
}
