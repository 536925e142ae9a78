/**
 * The organisation export worker: an export row and its job row, written one after the other. An attempt
 * may fail at any call and may stop between any two writes; the queue then delivers it again.
 */
module OrgExport {
  import opened Foundations

  datatype ExportStatus = PENDING | PROCESSING | COMPLETED | FAILED | EXPIRED

  datatype JobStatus = JOB_PENDING | JOB_PROCESSING | JOB_DONE | JOB_FAILED

  /** The two rows are created, and removed, together. */
  datatype Rows = Rows(export_: ExportStatus, fileUrl: Option<string>, job: JobStatus, attempts: nat)

  type Store = Option<Rows>

  const CREATED: Store := Some(Rows(PENDING, None, JOB_PENDING, 0))

  /** The next thing an attempt does. */
  datatype Position =
    | AnnounceStart | Find
    | MarkExport | MarkJob
    | Work(url: string)
    | CompleteExport(url: string) | CompleteJob
    | AnnounceDone
    | FailExport | FailJob
    | AnnounceFailure
    | Returned | Thrown

  datatype Write = ExportProcessing | JobProcessing | ExportCompleted(url: string) | JobDone | ExportFailed | JobFailed | ExportExpired

  function Written(r: Rows, w: Write): Rows {
    match w
    case ExportProcessing => r.(export_ := PROCESSING)
    case JobProcessing => r.(job := JOB_PROCESSING, attempts := r.attempts + 1)
    case ExportCompleted(url) => r.(export_ := COMPLETED, fileUrl := Some(url))
    case JobDone => r.(job := JOB_DONE)
    case ExportFailed => r.(export_ := FAILED)
    case JobFailed => r.(job := JOB_FAILED)
    case ExportExpired => r.(export_ := EXPIRED)
  }

  /** The update a position stands for, if it is one, and where the attempt goes when it works and when it throws. */
  function UpdateAt(p: Position): Option<(Write, Position, Position)> {
    match p
    case MarkExport => Some((ExportProcessing, MarkJob, FailExport))
    case MarkJob => Some((JobProcessing, Work(""), FailExport))
    case CompleteExport(url) => Some((ExportCompleted(url), CompleteJob, FailExport))
    case CompleteJob => Some((JobDone, AnnounceDone, FailExport))
    case FailExport => Some((ExportFailed, FailJob, Thrown))
    case FailJob => Some((JobFailed, AnnounceFailure, Thrown))
    case _ => None
  }

  /** How one call turns out; the work also yields a download link. */
  datatype Outcome = Outcome(ok: bool, url: string)

  predicate Over(p: Position) { p.Returned? || p.Thrown? }

  /** One step: the store, the position and the writes made so far. */
  function Next(s: Store, p: Position, o: Outcome): (Store, Position, seq<Write>) {
    var update := UpdateAt(p);
    if update.Some? then
      var (write, worked, threw) := update.value;
      if o.ok && s.Some? then (Some(Written(s.value, write)), worked, [write]) else (s, threw, [])
    else
      var to := match p {
        case AnnounceStart => if o.ok then Find else Thrown
        case Find => if !o.ok then FailExport else if s.None? || s.value.export_.COMPLETED? then Returned else MarkExport
        case Work(_) => if o.ok then CompleteExport(o.url) else FailExport
        case AnnounceDone => if o.ok then Returned else FailExport
        case AnnounceFailure => Thrown
        case _ => p
      };
      (s, to, [])
  }

  /** An attempt from `p`; it stops early when the outcomes run out. */
  function Attempt(s: Store, p: Position, outcomes: seq<Outcome>): (Store, Position, seq<Write>)
    decreases outcomes
  {
    if outcomes == [] || Over(p) then (s, p, [])
    else
      var (s1, p1, w1) := Next(s, p, outcomes[0]);
      var (s2, p2, w2) := Attempt(s1, p1, outcomes[1..]);
      (s2, p2, w1 + w2)
  }

  /** The queue delivers the export again, or the scheduler finds its link out of date. */
  datatype Event = Deliver(outcomes: seq<Outcome>) | Expire

  function Apply(s: Store, e: Event): (Store, seq<Write>) {
    match e
    case Deliver(outcomes) => var (r, _, w) := Attempt(s, AnnounceStart, outcomes); (r, w)
    case Expire => if s.Some? && s.value.export_.COMPLETED? then (Some(Written(s.value, ExportExpired)), [ExportExpired]) else (s, [])
  }

  function History(s: Store, events: seq<Event>): (Store, seq<Write>)
    decreases events
  {
    if events == [] then (s, [])
    else
      var (s1, w1) := Apply(s, events[0]);
      var (s2, w2) := History(s1, events[1..]);
      (s2, w1 + w2)
  }

  // ---- One attempt that is not cut off ----

  predicate Agreed(s: Store) {
    s.Some? && ((s.value.export_.COMPLETED? && s.value.job.JOB_DONE?) || (s.value.export_.FAILED? && s.value.job.JOB_FAILED?))
  }

  /** What the rows look like at each position after the read. */
  predicate Reached(s: Store, p: Position) {
    match p
    case MarkJob => s.Some? && s.value.export_.PROCESSING?
    case Work(_) => s.Some? && s.value.export_.PROCESSING? && s.value.job.JOB_PROCESSING?
    case CompleteExport(_) => s.Some? && s.value.export_.PROCESSING? && s.value.job.JOB_PROCESSING?
    case CompleteJob => s.Some? && s.value.export_.COMPLETED? && s.value.job.JOB_PROCESSING?
    case AnnounceDone => s.Some? && s.value.export_.COMPLETED? && s.value.job.JOB_DONE?
    case FailJob => s.Some? && s.value.export_.FAILED?
    case AnnounceFailure => s.Some? && s.value.export_.FAILED? && s.value.job.JOB_FAILED?
    case _ => true
  }

  /** The two writes of the catch block work whenever they are tried. */
  predicate FailureRecorded(s: Store, p: Position, outcomes: seq<Outcome>)
    decreases outcomes
  {
    outcomes == [] || Over(p)
    || (((p.FailExport? || p.FailJob?) ==> outcomes[0].ok)
        && FailureRecorded(Next(s, p, outcomes[0]).0, Next(s, p, outcomes[0]).1, outcomes[1..]))
  }

  lemma {:induction false} AttemptAgrees(s: Store, p: Position, outcomes: seq<Outcome>)
    requires s.Some? && Reached(s, p) && !p.AnnounceStart? && !p.Find? && !Over(p)
    ensures var (r, q, _) := Attempt(s, p, outcomes);
      && r.Some? && Reached(r, q)
      && (q.Returned? ==> r.value.export_.COMPLETED? && r.value.job.JOB_DONE?)
      && (q.Thrown? && FailureRecorded(s, p, outcomes) ==> r.value.export_.FAILED? && r.value.job.JOB_FAILED?)
    decreases outcomes
  {
    if outcomes != [] {
      var (s1, p1, _) := Next(s, p, outcomes[0]);
      if !Over(p1) {
        AttemptAgrees(s1, p1, outcomes[1..]);
      }
    }
  }

  lemma AttemptUnfolds(s: Store, p: Position, outcomes: seq<Outcome>)
    requires outcomes != [] && !Over(p)
    ensures var (s1, p1, w1) := Next(s, p, outcomes[0]);
      var (s2, p2, w2) := Attempt(s1, p1, outcomes[1..]);
      Attempt(s, p, outcomes) == (s2, p2, w1 + w2)
  {
  }

  predicate Failing(p: Position) { p.FailExport? || p.FailJob? || p.AnnounceFailure? || p.Thrown? }

  lemma {:induction false} FailureThrows(s: Store, p: Position, outcomes: seq<Outcome>)
    requires Failing(p)
    ensures Failing(Attempt(s, p, outcomes).1)
    decreases outcomes
  {
    if outcomes != [] && !Over(p) {
      AttemptUnfolds(s, p, outcomes);
      FailureThrows(Next(s, p, outcomes[0]).0, Next(s, p, outcomes[0]).1, outcomes[1..]);
    }
  }

  /** The attempt goes on from `p` after its first `n` calls; from there a call of the try block that fails rules out a return. */
  lemma CallTaken(s: Store, p: Position, outcomes: seq<Outcome>, n: nat)
    requires n < |outcomes| && s.Some? && !Over(p) && !Failing(p)
    ensures var next := Next(s, p, outcomes[n]);
      var rest := Attempt(next.0, next.1, outcomes[n + 1..]);
      && Attempt(s, p, outcomes[n..]).0 == rest.0 && Attempt(s, p, outcomes[n..]).1 == rest.1
      && (!outcomes[n].ok ==> !rest.1.Returned?)
  {
    assert outcomes[n..][1..] == outcomes[n + 1..];
    AttemptUnfolds(s, p, outcomes[n..]);
    if !outcomes[n].ok {
      FailureThrows(Next(s, p, outcomes[n]).0, Next(s, p, outcomes[n]).1, outcomes[n + 1..]);
    }
  }

  /** How an attempt from the n-th call on ends, when exactly the calls up to the last of the eight lead to a return. */
  predicate EndsIn(s: Store, p: Position, outcomes: seq<Outcome>, n: nat, done: Rows)
    requires n <= |outcomes|
  {
    var (r, q, _) := Attempt(s, p, outcomes[n..]);
    && (q.Returned? <==> |outcomes| >= 8 && forall i | n <= i < 8 :: outcomes[i].ok)
    && (q.Returned? ==> r == Some(done))
  }

  /** One call earlier. */
  lemma EndsEarlier(s: Store, p: Position, outcomes: seq<Outcome>, n: nat, done: Rows)
    requires n < 8 && n <= |outcomes| && s.Some? && !Over(p) && !Failing(p)
    requires n < |outcomes| && outcomes[n].ok ==>
               EndsIn(Next(s, p, outcomes[n]).0, Next(s, p, outcomes[n]).1, outcomes, n + 1, done)
    ensures EndsIn(s, p, outcomes, n, done)
  {
    if n < |outcomes| {
      CallTaken(s, p, outcomes, n);
    }
  }

  lemma CompletionReturnsIff(r: Rows, link: string, outcomes: seq<Outcome>)
    requires |outcomes| >= 5
    ensures EndsIn(Some(r), CompleteExport(link), outcomes, 5, r.(export_ := COMPLETED, fileUrl := Some(link), job := JOB_DONE))
  {
    var stored := r.(export_ := COMPLETED, fileUrl := Some(link));
    var done := stored.(job := JOB_DONE);
    if |outcomes| >= 7 { EndsEarlier(Some(done), AnnounceDone, outcomes, 7, done); }
    if |outcomes| >= 6 { EndsEarlier(Some(stored), CompleteJob, outcomes, 6, done); }
    EndsEarlier(Some(r), CompleteExport(link), outcomes, 5, done);
  }

  lemma ProductionReturnsIff(r: Rows, outcomes: seq<Outcome>)
    requires |outcomes| >= 2
    ensures EndsIn(Some(r), MarkExport, outcomes, 2,
                   Rows(COMPLETED, Some(if |outcomes| > 4 then outcomes[4].url else ""), JOB_DONE, r.attempts + 1))
  {
    var marked := r.(export_ := PROCESSING);
    var taken := marked.(job := JOB_PROCESSING, attempts := r.attempts + 1);
    var done := Rows(COMPLETED, Some(if |outcomes| > 4 then outcomes[4].url else ""), JOB_DONE, r.attempts + 1);
    if |outcomes| >= 5 { CompletionReturnsIff(taken, outcomes[4].url, outcomes); }
    if |outcomes| >= 4 { EndsEarlier(Some(taken), Work(""), outcomes, 4, done); }
    if |outcomes| >= 3 { EndsEarlier(Some(marked), MarkJob, outcomes, 3, done); }
    EndsEarlier(Some(r), MarkExport, outcomes, 2, done);
  }

  /**
   * An attempt on an export that is not COMPLETED returns if and only if all eight calls of its try block
   * work: the row then is COMPLETED with the link its own work produced, the job is DONE, and one more
   * attempt is counted.
   */
  lemma AttemptReturnsIff(r: Rows, outcomes: seq<Outcome>)
    requires r.export_ != COMPLETED
    ensures Attempt(Some(r), AnnounceStart, outcomes).1 == Returned <==> |outcomes| >= 8 && forall i | 0 <= i < 8 :: outcomes[i].ok
    ensures Attempt(Some(r), AnnounceStart, outcomes).1 == Returned ==>
      Attempt(Some(r), AnnounceStart, outcomes).0 == Some(Rows(COMPLETED, Some(outcomes[4].url), JOB_DONE, r.attempts + 1))
  {
    var done := Rows(COMPLETED, Some(if |outcomes| > 4 then outcomes[4].url else ""), JOB_DONE, r.attempts + 1);
    if |outcomes| >= 2 { ProductionReturnsIff(r, outcomes); }
    if |outcomes| >= 1 { EndsEarlier(Some(r), Find, outcomes, 1, done); }
    EndsEarlier(Some(r), AnnounceStart, outcomes, 0, done);
    assert outcomes[0..] == outcomes;
  }

  /**
   * Whatever an earlier attempt left: an attempt that announces its start, finds the export not COMPLETED
   * and runs to its end leaves both rows COMPLETED and DONE when it returns, and both FAILED when it
   * throws, provided the catch block's own two writes work.
   */
  lemma ExportsRecover(s: Store, outcomes: seq<Outcome>)
    requires s.Some? && !s.value.export_.COMPLETED?
    requires |outcomes| >= 2 && outcomes[0].ok && outcomes[1].ok
    requires Over(Attempt(s, AnnounceStart, outcomes).1)
    ensures var (r, p, _) := Attempt(s, AnnounceStart, outcomes);
      && r.Some?
      && (p.Returned? ==> r.value.export_.COMPLETED? && r.value.job.JOB_DONE? && r.value.fileUrl.Some?)
      && (p.Thrown? && FailureRecorded(s, MarkExport, outcomes[2..]) ==> r.value.export_.FAILED? && r.value.job.JOB_FAILED?)
  {
    assert outcomes[1..][1..] == outcomes[2..];
    assert Attempt(s, AnnounceStart, outcomes).0 == Attempt(s, Find, outcomes[1..]).0 == Attempt(s, MarkExport, outcomes[2..]).0;
    assert Attempt(s, AnnounceStart, outcomes).1 == Attempt(s, Find, outcomes[1..]).1 == Attempt(s, MarkExport, outcomes[2..]).1;
    AttemptAgrees(s, MarkExport, outcomes[2..]);
    LinkedAttempt(s, MarkExport, outcomes[2..]);
  }

  predicate Linked(s: Store) { s.Some? && s.value.export_ in {COMPLETED, EXPIRED} ==> s.value.fileUrl.Some? }

  lemma {:induction false} LinkedAttempt(s: Store, p: Position, outcomes: seq<Outcome>)
    requires Linked(s) || (s.Some? && !s.value.export_.COMPLETED?)
    ensures var r := Attempt(s, p, outcomes).0; (Linked(s) ==> Linked(r)) && (r.Some? && r.value.export_.COMPLETED? ==> r.value.fileUrl.Some?)
    decreases outcomes
  {
    if outcomes != [] && !Over(p) {
      LinkedAttempt(Next(s, p, outcomes[0]).0, Next(s, p, outcomes[0]).1, outcomes[1..]);
    }
  }

  // ---- Any history of attempts, cut off anywhere ----

  /** The export is COMPLETED but its job is not DONE. */
  predicate Torn(s: Store) { s.Some? && s.value.export_.COMPLETED? && !s.value.job.JOB_DONE? }

  predicate LastIs(writes: seq<Write>, w: Write -> bool) { writes != [] && w(writes[|writes| - 1]) }

  /** The rows and the newest write of the whole history agree. */
  predicate Told(s: Store, writes: seq<Write>) {
    && s.Some? && Linked(s)
    && (Torn(s) <==> LastIs(writes, (w: Write) => w.ExportCompleted?))
    && (s.value.export_.COMPLETED? && s.value.job.JOB_DONE? <==> LastIs(writes, (w: Write) => w.JobDone?))
    && (LastIs(writes, (w: Write) => w.JobFailed?) ==> s.value.export_.FAILED? && s.value.job.JOB_FAILED?)
  }

  lemma {:induction false} AttemptTold(s: Store, p: Position, outcomes: seq<Outcome>, before: seq<Write>)
    requires Told(s, before) && Reached(s, p) && (p.MarkExport? ==> !s.value.export_.COMPLETED?)
    ensures Told(Attempt(s, p, outcomes).0, before + Attempt(s, p, outcomes).2)
    decreases outcomes
  {
    if outcomes == [] || Over(p) {
      assert before + [] == before;
    } else {
      var (s1, p1, w1) := Next(s, p, outcomes[0]);
      if w1 == [] {
        assert before + w1 == before;
      } else {
        assert (before + w1)[|before + w1| - 1] == w1[0];
      }
      AttemptTold(s1, p1, outcomes[1..], before + w1);
      var w2 := Attempt(s1, p1, outcomes[1..]).2;
      assert before + (w1 + w2) == before + w1 + w2;
    }
  }

  lemma {:induction false} HistoryTold(s: Store, events: seq<Event>, before: seq<Write>)
    requires Told(s, before)
    ensures Told(History(s, events).0, before + History(s, events).1)
    decreases events
  {
    if events == [] {
      assert before + [] == before;
    } else {
      var (s1, w1) := Apply(s, events[0]);
      if events[0].Deliver? {
        AttemptTold(s, AnnounceStart, events[0].outcomes, before);
      } else {
        if w1 == [] {
          assert before + w1 == before;
        } else {
          assert (before + w1)[|before + w1| - 1] == w1[0];
        }
      }
      HistoryTold(s1, events[1..], before + w1);
      assert before + (w1 + History(s1, events[1..]).1) == before + w1 + History(s1, events[1..]).1;
    }
  }

  /**
   * Over every history of deliveries (each cut off anywhere) and expiries of a created export: the rows
   * disagree (COMPLETED, job not DONE) exactly when the newest write is the first half of a completion;
   * they read COMPLETED and DONE exactly when it is the second half.
   */
  lemma TornExactlyAfterHalfACompletion(events: seq<Event>)
    ensures var (s, writes) := History(CREATED, events);
      && s.Some?
      && (Torn(s) <==> LastIs(writes, (w: Write) => w.ExportCompleted?))
      && (s.value.export_.COMPLETED? && s.value.job.JOB_DONE? <==> LastIs(writes, (w: Write) => w.JobDone?))
      && (s.value.export_ in {COMPLETED, EXPIRED} ==> s.value.fileUrl.Some?)
  {
    HistoryTold(CREATED, events, []);
    assert [] + History(CREATED, events).1 == History(CREATED, events).1;
  }

  /** A link that runs out takes only a COMPLETED export, and takes nothing but its status. */
  lemma LinksExpire(r: Rows)
    ensures Apply(Some(r), Expire).0 == Some(if r.export_ == COMPLETED then Rows(EXPIRED, r.fileUrl, r.job, r.attempts) else r)
  {
  }

  // ---- When a COMPLETED export stays as it is ----

  /** A delivery announces its start, fails to read the export's row, and gets its first failure write through. */
  predicate Unreadable(outcomes: seq<Outcome>) { |outcomes| >= 3 && outcomes[0].ok && !outcomes[1].ok && outcomes[2].ok }

  /**
   * A redelivery leaves a COMPLETED export alone unless it cannot read its row: then the export is marked
   * FAILED, and its job too when the second write works, finished or not.
   */
  lemma UnreadableRowFailsTheExportIff(r: Rows, outcomes: seq<Outcome>)
    requires r.export_.COMPLETED?
    ensures var (s, _, writes) := Attempt(Some(r), AnnounceStart, outcomes);
      && (s == Some(r) <==> !Unreadable(outcomes)) && (writes == [] <==> !Unreadable(outcomes))
      && (Unreadable(outcomes) ==>
            s == Some(if |outcomes| > 3 && outcomes[3].ok then r.(export_ := FAILED, job := JOB_FAILED) else r.(export_ := FAILED)))
  {
    if outcomes != [] && outcomes[0].ok {
      var rest := outcomes[1..];
      AttemptUnfolds(Some(r), AnnounceStart, outcomes);
      if rest != [] {
        AttemptUnfolds(Some(r), Find, rest);
        if !rest[0].ok {
          FailurePath(r, rest[1..]);
        }
      }
    }
  }

  /** The catch block: the export's row, then the job's. */
  lemma FailurePath(r: Rows, outcomes: seq<Outcome>)
    ensures var (s, _, writes) := Attempt(Some(r), FailExport, outcomes);
      var failed := outcomes != [] && outcomes[0].ok;
      && (writes == [] <==> !failed)
      && s == Some(if !failed then r else if |outcomes| > 1 && outcomes[1].ok then r.(export_ := FAILED, job := JOB_FAILED)
                   else r.(export_ := FAILED))
  {
    if outcomes != [] {
      AttemptUnfolds(Some(r), FailExport, outcomes);
      var rest := outcomes[1..];
      if outcomes[0].ok && rest != [] {
        var failed := Some(r.(export_ := FAILED));
        AttemptUnfolds(failed, FailJob, rest);
        if rest[0].ok && rest[1..] != [] {
          AttemptUnfolds(Some(r.(export_ := FAILED, job := JOB_FAILED)), AnnounceFailure, rest[1..]);
        }
      }
    }
  }

  /** More than `a` attempts, or not COMPLETED and not past this attempt's own count. */
  predicate Ahead(s: Store, p: Position, a: nat) {
    s.Some? ==>
      && s.value.attempts >= a
      && (s.value.attempts > a
          || (!s.value.export_.COMPLETED? && !p.Work? && !p.CompleteExport? && !p.CompleteJob? && !p.AnnounceDone?))
  }

  lemma {:induction false} AttemptStaysAhead(s: Store, p: Position, outcomes: seq<Outcome>, a: nat)
    requires Ahead(s, p, a)
    ensures Ahead(Attempt(s, p, outcomes).0, Attempt(s, p, outcomes).1, a)
    decreases outcomes
  {
    if outcomes != [] && !Over(p) {
      AttemptUnfolds(s, p, outcomes);
      AttemptStaysAhead(Next(s, p, outcomes[0]).0, Next(s, p, outcomes[0]).1, outcomes[1..], a);
    }
  }

  /** Once an export has left COMPLETED it gets back only with another attempt counted. */
  lemma {:induction false} HistoryStaysAhead(s: Store, events: seq<Event>, a: nat)
    requires Ahead(s, AnnounceStart, a)
    ensures Ahead(History(s, events).0, AnnounceStart, a)
    decreases events
  {
    if events != [] {
      if events[0].Deliver? {
        AttemptStaysAhead(s, AnnounceStart, events[0].outcomes, a);
      }
      HistoryStaysAhead(Apply(s, events[0]).0, events[1..], a);
    }
  }

  predicate Harmless(e: Event) { e.Deliver? && !Unreadable(e.outcomes) }

  /**
   * Over every history, the rows of a COMPLETED export are what they were, finished or torn, if and only
   * if no link expired and no redelivery failed to read them. So redelivery alone never repairs torn rows,
   * and the one way it touches a finished export is to fail it.
   */
  lemma {:induction false} CompletedRowsStayIff(r: Rows, events: seq<Event>)
    requires r.export_.COMPLETED?
    ensures History(Some(r), events).0 == Some(r) <==> forall e | e in events :: Harmless(e)
    decreases events
  {
    if events != [] {
      var e := events[0];
      assert e in events && forall f | f in events[1..] :: f in events;
      if e.Deliver? {
        UnreadableRowFailsTheExportIff(r, e.outcomes);
      }
      if Harmless(e) {
        CompletedRowsStayIff(r, events[1..]);
        assert forall f | f in events :: f == e || f in events[1..];
      } else {
        HistoryStaysAhead(Apply(Some(r), e).0, events[1..], r.attempts);
      }
    }
  }

  // ---- The repository and the worker ----

  /** The rows of one export. Each method is two updates; `first` and `second` say which of them the database executes. */
  class OrgExportRepository {
    var rows: Store

    constructor (s: Store)
      ensures rows == s
    {
      rows := s;
    }

    method MarkExportProcessing(first: bool, second: bool) returns (threw: bool)
      modifies this
      ensures threw <==> old(rows).None? || !first || !second
      ensures rows == if old(rows).None? || !first then old(rows)
                      else if !second then Some(Written(old(rows).value, ExportProcessing))
                      else Some(Written(Written(old(rows).value, ExportProcessing), JobProcessing))
    {
      if rows.None? || !first {
        return true;
      }
      rows := Some(rows.value.(export_ := PROCESSING));
      if !second {
        return true;
      }
      rows := Some(rows.value.(job := JOB_PROCESSING, attempts := rows.value.attempts + 1));
      threw := false;
    }

    method CompleteExport(url: string, first: bool, second: bool) returns (threw: bool)
      modifies this
      ensures threw <==> old(rows).None? || !first || !second
      ensures rows == if old(rows).None? || !first then old(rows)
                      else if !second then Some(Written(old(rows).value, ExportCompleted(url)))
                      else Some(Written(Written(old(rows).value, ExportCompleted(url)), JobDone))
    {
      if rows.None? || !first {
        return true;
      }
      rows := Some(rows.value.(export_ := COMPLETED, fileUrl := Some(url)));
      if !second {
        return true;
      }
      rows := Some(rows.value.(job := JOB_DONE));
      threw := false;
    }

    method FailExport(first: bool, second: bool) returns (threw: bool)
      modifies this
      ensures threw <==> old(rows).None? || !first || !second
      ensures rows == if old(rows).None? || !first then old(rows)
                      else if !second then Some(Written(old(rows).value, ExportFailed))
                      else Some(Written(Written(old(rows).value, ExportFailed), JobFailed))
    {
      if rows.None? || !first {
        return true;
      }
      rows := Some(rows.value.(export_ := FAILED));
      if !second {
        return true;
      }
      rows := Some(rows.value.(job := JOB_FAILED));
      threw := false;
    }
  }

  /** How each call of one uninterrupted attempt turns out. */
  datatype Outcomes = Outcomes(start: bool, find: bool, markExport: bool, markJob: bool, work: bool, url: string, completeExport: bool,
                               completeJob: bool, announce: bool, failExport: bool, failJob: bool, announceFailure: bool)
  {
    function At(p: Position): Outcome {
      match p
      case AnnounceStart => Outcome(start, "")
      case Find => Outcome(find, "")
      case MarkExport => Outcome(markExport, "")
      case MarkJob => Outcome(markJob, "")
      case Work(_) => Outcome(work, url)
      case CompleteExport(_) => Outcome(completeExport, "")
      case CompleteJob => Outcome(completeJob, "")
      case AnnounceDone => Outcome(announce, "")
      case FailExport => Outcome(failExport, "")
      case FailJob => Outcome(failJob, "")
      case AnnounceFailure => Outcome(announceFailure, "")
      case _ => Outcome(true, "")
    }
  }

  function StepsLeft(p: Position): nat {
    match p
    case AnnounceStart => 11
    case Find => 10
    case MarkExport => 9
    case MarkJob => 8
    case Work(_) => 7
    case CompleteExport(_) => 6
    case CompleteJob => 5
    case AnnounceDone => 4
    case FailExport => 3
    case FailJob => 2
    case AnnounceFailure => 1
    case _ => 0
  }

  /** The attempt taken to its end. */
  function Finished(s: Store, p: Position, o: Outcomes): (r: (Store, Position))
    ensures Over(r.1)
    decreases StepsLeft(p)
  {
    if Over(p) then (s, p) else Finished(Next(s, p, o.At(p)).0, Next(s, p, o.At(p)).1, o)
  }

  lemma {:induction false} FinishedIsAnAttempt(s: Store, p: Position, o: Outcomes) returns (outcomes: seq<Outcome>)
    ensures Attempt(s, p, outcomes).0 == Finished(s, p, o).0 && Attempt(s, p, outcomes).1 == Finished(s, p, o).1
    ensures !Over(p) ==> |outcomes| > 0 && outcomes[0] == o.At(p)
    decreases StepsLeft(p)
  {
    if Over(p) {
      outcomes := [];
    } else {
      var rest := FinishedIsAnAttempt(Next(s, p, o.At(p)).0, Next(s, p, o.At(p)).1, o);
      outcomes := [o.At(p)] + rest;
      assert outcomes[1..] == rest;
    }
  }

  class OrgExportWorkerService {
    const repo: OrgExportRepository

    constructor (repo: OrgExportRepository)
      ensures this.repo == repo
    {
      this.repo := repo;
    }

    /** Both rows to PROCESSING, the work, both rows to their final state, the announcement: the try block after its checks. */
    method Produce(o: Outcomes) returns (ok: bool)
      modifies repo
      ensures Finished(repo.rows, if ok then Returned else Position.FailExport, o) == Finished(old(repo.rows), MarkExport, o)
    {
      TwoUpdates(repo.rows, MarkExport, o);
      var threw := repo.MarkExportProcessing(o.markExport, o.markJob);
      if threw || !o.work {
        return false;
      }
      assert Finished(repo.rows, Work(""), o) == Finished(repo.rows, Position.CompleteExport(o.url), o);
      TwoUpdates(repo.rows, Position.CompleteExport(o.url), o);
      threw := repo.CompleteExport(o.url, o.completeExport, o.completeJob);
      return !threw && o.announce;
    }

    /** The rows end as the attempt leaves them, and the call throws exactly when the attempt does. */
    method ExecuteExport(o: Outcomes) returns (threw: bool)
      modifies repo
      ensures (repo.rows, if threw then Thrown else Returned) == Finished(old(repo.rows), AnnounceStart, o)
    {
      if !o.start {
        return true;
      }
      assert Finished(repo.rows, AnnounceStart, o) == Finished(repo.rows, Find, o);
      if o.find {
        if repo.rows.None? || repo.rows.value.export_ == COMPLETED {
          return false;
        }
        var ok := Produce(o);
        if ok {
          return false;
        }
      }
      TwoUpdates(repo.rows, Position.FailExport, o);
      var unrecorded := repo.FailExport(o.failExport, o.failJob);
      return true;
    }
  }

  /** The attempt's next two steps, when they are the two updates of one repository method. */
  lemma TwoUpdates(s: Store, p: Position, o: Outcomes)
    requires p.MarkExport? || p.CompleteExport? || p.FailExport?
    ensures var (write, next, threw) := UpdateAt(p).value;
      var second := UpdateAt(next).value;
      Finished(s, p, o) ==
        if s.None? || !o.At(p).ok then Finished(s, threw, o)
        else if !o.At(next).ok then Finished(Some(Written(s.value, write)), second.2, o)
        else Finished(Some(Written(Written(s.value, write), second.0)), second.1, o)
  {
    assert Finished(s, p, o) == Finished(Next(s, p, o.At(p)).0, Next(s, p, o.At(p)).1, o);
  }
}
