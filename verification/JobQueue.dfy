/**
 * The in-memory job queue: a record per job, a FIFO of queued ids and a slot for the
 * one running job, refining an abstract FIFO scheduler.
 */
module JobQueue {
  import opened Common

  const RETENTION_MS := 24 * 60 * 60 * 1000

  datatype Status = Queued | Running | Complete | Failed | Cancelled

  predicate Terminal(s: Status) {
    s == Complete || s == Failed || s == Cancelled
  }

  datatype JobInput = JobInput(workspaceId: string, prompt: string)

  datatype Report = Report(jobId: string, status: Status, summary: string, error: Option<Error>)

  datatype Error = CancelledByUser | CancelledBeforeRun | RuntimeError(message: string)

  datatype Partial = Partial(turnsSoFar: nat, elapsedMs: nat)

  /** `resolved` counts the calls of the record's `resolve_terminal`. */
  datatype JobRecord = JobRecord(
    input: JobInput,
    enqueuedAt: int,
    status: Status,
    priorStatus: Option<Status>,
    startedAt: Option<int>,
    terminalAt: Option<int>,
    partial: Option<Partial>,
    report: Option<Report>,
    error: Option<Error>,
    cancelRequested: bool,
    resolved: nat)

  datatype Queue = Queue(records: map<string, JobRecord>, pending: seq<string>, running: Option<string>)

  const EMPTY_QUEUE := Queue(map[], [], None)

  datatype CancelReply = NotFound | AlreadyTerminal(prior: Status) | CancelAccepted(prior: Status)

  datatype MarkReply = Marked | JobStateError

  function NewRecord(input: JobInput, now: int): JobRecord {
    JobRecord(input, now, Queued, None, None, None, None, None, None, false, 0)
  }

  /** The record once its job has ended. */
  function Ended(r: JobRecord, final: Status, report: Report, error: Option<Error>, now: int): JobRecord {
    r.(status := final, priorStatus := Some(r.status), terminalAt := Some(now), report := Some(report),
       error := if error.Some? then error else r.error, resolved := r.resolved + 1)
  }

  function CancelledReport(id: string): Report {
    Report(id, Cancelled, "<cancelled before run>", Some(CancelledBeforeRun))
  }

  // ---------------------------------------------------------------- specification

  function Enqueued(q: Queue, id: string, input: JobInput, now: int): Queue {
    q.(records := q.records[id := NewRecord(input, now)], pending := q.pending + [id])
  }

  predicate CanClaim(q: Queue) {
    q.running.None? && q.pending != [] && q.pending[0] in q.records
  }

  /** An id at the head that has no record is dropped. */
  function Claim(q: Queue, now: int): Queue {
    if q.running.Some? || q.pending == [] then q
    else if q.pending[0] !in q.records then q.(pending := q.pending[1..])
    else
      var id := q.pending[0];
      var r := q.records[id];
      Queue(q.records[id := r.(priorStatus := Some(r.status), status := Running, startedAt := Some(now))],
            q.pending[1..], Some(id))
  }

  function CancelReplyOf(q: Queue, id: string): CancelReply {
    if id !in q.records then NotFound
    else if Terminal(q.records[id].status) then AlreadyTerminal(q.records[id].status)
    else CancelAccepted(q.records[id].status)
  }

  function Cancelling(q: Queue, id: string, now: int): Queue {
    if !CancelReplyOf(q, id).CancelAccepted? then q
    else if q.records[id].status == Queued then
      q.(records := q.records[id := Ended(q.records[id], Cancelled, CancelledReport(id), None, now)],
         pending := Filter(q.pending, NotEqual(id)))
    else
      q.(records := q.records[id := q.records[id].(cancelRequested := true)])
  }

  predicate CanMark(q: Queue, id: string) {
    id in q.records && q.records[id].status == Running
  }

  function Mark(q: Queue, id: string, final: Status, report: Report, error: Option<Error>, now: int): Queue {
    if !CanMark(q, id) then q
    else
      q.(records := q.records[id := Ended(q.records[id], final, report, error, now)],
         running := if q.running == Some(id) then None else q.running)
  }

  function Progressed(q: Queue, id: string, partial: Partial): Queue {
    if !CanMark(q, id) then q
    else q.(records := q.records[id := q.records[id].(partial := Some(partial))])
  }

  predicate Overdue(r: JobRecord, now: int) {
    r.terminalAt.Some? && r.terminalAt.value < now - RETENTION_MS
  }

  function OverdueIds(records: map<string, JobRecord>, now: int): set<string> {
    set id | id in records && Overdue(records[id], now)
  }

  function Swept(q: Queue, now: int): Queue {
    q.(records := q.records - OverdueIds(q.records, now))
  }

  // --------------------------------------------------------------------- invariant

  ghost predicate RecordOk(r: JobRecord) {
    && (r.terminalAt.Some? <==> Terminal(r.status))
    && r.resolved == (if Terminal(r.status) then 1 else 0)
    && (r.cancelRequested ==> r.status != Queued)
    && (r.report.Some? <==> Terminal(r.status))
  }

  /** The queued ids, each once, are exactly the queued records; the running slot is the running record. */
  ghost predicate Valid(q: Queue) {
    && Distinct(q.pending)
    && (forall id :: id in q.pending <==> id in q.records && q.records[id].status == Queued)
    && (forall id :: q.running == Some(id) <==> id in q.records && q.records[id].status == Running)
    && (forall id :: id in q.records ==> RecordOk(q.records[id]))
  }

  /** What `cancel` answers, which marks are taken, and that a head without a record is only dropped. */
  lemma Replies(q: Queue, id: string, now: int)
    ensures CancelReplyOf(q, id) ==
              if id !in q.records then NotFound
              else match q.records[id].status
                   case Queued => CancelAccepted(Queued)
                   case Running => CancelAccepted(Running)
                   case Complete => AlreadyTerminal(Complete)
                   case Failed => AlreadyTerminal(Failed)
                   case Cancelled => AlreadyTerminal(Cancelled)
    ensures CanMark(q, id) <==> id in q.records && q.records[id].status == Running
    ensures q.running.None? && q.pending != [] && q.pending[0] !in q.records ==>
              Claim(q, now) == q.(pending := q.pending[1..])
  {
  }

  // ------------------------------------------------- the abstract FIFO scheduler

  /** Jobs waiting in order, at most one running, and the outcome of each retained finished job. */
  datatype Scheduler = Scheduler(waiting: seq<string>, active: Option<string>, finished: map<string, Status>)

  function Finished(records: map<string, JobRecord>): map<string, Status> {
    map id | id in records && Terminal(records[id].status) :: records[id].status
  }

  function Abs(q: Queue): Scheduler {
    Scheduler(q.pending, q.running, Finished(q.records))
  }

  function Submit(s: Scheduler, id: string): Scheduler {
    s.(waiting := s.waiting + [id])
  }

  function Dispatch(s: Scheduler): Scheduler {
    if s.active.Some? || s.waiting == [] then s else s.(waiting := s.waiting[1..], active := Some(s.waiting[0]))
  }

  function Withdraw(s: Scheduler, id: string): Scheduler {
    if id !in s.waiting then s
    else s.(waiting := Filter(s.waiting, NotEqual(id)), finished := s.finished[id := Cancelled])
  }

  function Finish(s: Scheduler, id: string, final: Status): Scheduler {
    if s.active != Some(id) then s else s.(active := None, finished := s.finished[id := final])
  }

  function Forget(s: Scheduler, ids: set<string>): Scheduler {
    s.(finished := s.finished - ids)
  }

  lemma EnqueueRefines(q: Queue, id: string, input: JobInput, now: int)
    requires Valid(q) && id !in q.records
    ensures Valid(Enqueued(q, id, input, now)) && Abs(Enqueued(q, id, input, now)) == Submit(Abs(q), id)
  {
    var q' := Enqueued(q, id, input, now);
    assert Distinct(q'.pending);
    assert forall x :: x in q'.pending <==> x in q.pending || x == id;
    assert Finished(q'.records) == Finished(q.records);
  }

  lemma ClaimKeepsValid(q: Queue, now: int)
    requires Valid(q) && CanClaim(q)
    ensures Valid(Claim(q, now))
    ensures Finished(Claim(q, now).records) == Finished(q.records)
  {
    var q' := Claim(q, now);
    assert q.pending == [q.pending[0]] + q'.pending;
  }

  lemma ClaimRefines(q: Queue, now: int)
    requires Valid(q)
    ensures Valid(Claim(q, now)) && Abs(Claim(q, now)) == Dispatch(Abs(q))
    ensures CanClaim(q) <==> q.running.None? && q.pending != []
  {
    if q.pending != [] {
      assert q.pending[0] in q.pending;
    }
    if CanClaim(q) {
      ClaimKeepsValid(q, now);
      hide Valid;
    }
  }

  lemma CancelKeepsValid(q: Queue, id: string, now: int)
    requires Valid(q)
    ensures Valid(Cancelling(q, id, now))
  {
    FilterDistinct(q.pending, NotEqual(id));
  }

  lemma CancelRefines(q: Queue, id: string, now: int)
    requires Valid(q)
    ensures Valid(Cancelling(q, id, now)) && Abs(Cancelling(q, id, now)) == Withdraw(Abs(q), id)
  {
    CancelKeepsValid(q, id, now);
    assert id in q.pending <==> CancelReplyOf(q, id) == CancelAccepted(Queued);
    assert Finished(Cancelling(q, id, now).records) == Withdraw(Abs(q), id).finished;
  }

  lemma MarkRefines(q: Queue, id: string, final: Status, report: Report, error: Option<Error>, now: int)
    requires Valid(q) && Terminal(final)
    ensures Valid(Mark(q, id, final, report, error, now))
    ensures Abs(Mark(q, id, final, report, error, now)) == Finish(Abs(q), id, final)
    ensures CanMark(q, id) <==> q.running == Some(id)
  {
    assert Finished(Mark(q, id, final, report, error, now).records) == Finish(Abs(q), id, final).finished;
  }

  lemma ProgressRefines(q: Queue, id: string, partial: Partial)
    requires Valid(q)
    ensures Valid(Progressed(q, id, partial)) && Abs(Progressed(q, id, partial)) == Abs(q)
  {
  }

  lemma SweepRefines(q: Queue, now: int)
    requires Valid(q)
    ensures Valid(Swept(q, now)) && Abs(Swept(q, now)) == Forget(Abs(q), OverdueIds(q.records, now))
  {
  }

  // --------------------------------------------------------------- implementation

  class JobQueue {
    var records: map<string, JobRecord>
    var pending: seq<string>
    var running: Option<string>

    ghost function View(): Queue
      reads this
    {
      Queue(records, pending, running)
    }

    constructor ()
      ensures View() == EMPTY_QUEUE
    {
      records, pending, running := map[], [], None;
    }

    /** `id` is what `generateJobId` drew. */
    method Enqueue(id: string, input: JobInput, now: int) returns (queuedPosition: nat)
      modifies this
      ensures View() == Enqueued(old(View()), id, input, now)
      ensures queuedPosition == |old(pending)|
    {
      records := records[id := NewRecord(input, now)];
      pending := pending + [id];
      queuedPosition := |pending| - 1;
    }

    method ClaimNext(now: int) returns (claimed: Option<string>)
      modifies this
      ensures View() == Claim(old(View()), now)
      ensures claimed == if CanClaim(old(View())) then Some(old(pending)[0]) else None
    {
      if running.Some? || pending == [] {
        return None;
      }
      var id := pending[0];
      pending := pending[1..];
      if id !in records {
        return None;
      }
      var r := records[id];
      r := r.(priorStatus := Some(r.status));
      r := r.(status := Running, startedAt := Some(now));
      records := records[id := r];
      running := Some(id);
      return Some(id);
    }

    method Cancel(id: string, now: int) returns (reply: CancelReply)
      requires Valid(View())
      modifies this
      ensures View() == Cancelling(old(View()), id, now)
      ensures reply == CancelReplyOf(old(View()), id)
    {
      if id !in records {
        return NotFound;
      }
      var prior := records[id].status;
      if Terminal(prior) {
        return AlreadyTerminal(prior);
      }
      if prior == Queued {
        var idx := IndexOf(pending, id);
        if idx.Some? {
          SpliceIsFilter(pending, idx.value);
          pending := pending[..idx.value] + pending[idx.value + 1..];
        }
        TransitionToTerminal(id, Cancelled, prior, CancelledReport(id), None, now);
        return CancelAccepted(prior);
      }
      records := records[id := records[id].(cancelRequested := true)];
      return CancelAccepted(prior);
    }

    /** 0 is next to run after the current one. */
    method QueuedPosition(id: string) returns (position: Option<nat>)
      requires Valid(View())
      ensures position.Some? <==> id in records && records[id].status == Queued
      ensures position.Some? ==> position.value < |pending| && pending[position.value] == id
    {
      if id !in records || records[id].status != Queued {
        return None;
      }
      position := IndexOf(pending, id);
    }

    method MarkComplete(id: string, report: Report, now: int) returns (reply: MarkReply)
      modifies this
      ensures View() == Mark(old(View()), id, Complete, report, None, now)
      ensures reply == if CanMark(old(View()), id) then Marked else JobStateError
    {
      if id !in records || records[id].status != Running {
        return JobStateError;
      }
      TransitionToTerminal(id, Complete, records[id].status, report, None, now);
      return Marked;
    }

    method MarkFailed(id: string, error: Error, report: Report, now: int) returns (reply: MarkReply)
      modifies this
      ensures View() == Mark(old(View()), id, Failed, report, Some(error), now)
      ensures reply == if CanMark(old(View()), id) then Marked else JobStateError
    {
      if id !in records || records[id].status != Running {
        return JobStateError;
      }
      TransitionToTerminal(id, Failed, records[id].status, report, Some(error), now);
      return Marked;
    }

    method MarkCancelled(id: string, report: Report, now: int) returns (reply: MarkReply)
      modifies this
      ensures View() == Mark(old(View()), id, Cancelled, report, Some(CancelledByUser), now)
      ensures reply == if CanMark(old(View()), id) then Marked else JobStateError
    {
      if id !in records || records[id].status != Running {
        return JobStateError;
      }
      TransitionToTerminal(id, Cancelled, records[id].status, report, Some(CancelledByUser), now);
      return Marked;
    }

    method UpdatePartial(id: string, partial: Partial)
      modifies this
      ensures View() == Progressed(old(View()), id, partial)
    {
      if id !in records || records[id].status != Running {
        return;
      }
      records := records[id := records[id].(partial := Some(partial))];
    }

    /** Removes the jobs that have been terminal for longer than the retention time. */
    method Sweep(now: int) returns (removed: nat)
      modifies this
      ensures View() == Swept(old(View()), now)
      ensures removed == |OverdueIds(old(records), now)|
    {
      var cutoff := now - RETENTION_MS;
      removed := 0;
      ghost var gone: set<string> := {};
      var todo := records.Keys;
      while todo != {}
        invariant todo <= old(records).Keys && gone !! todo
        invariant gone == set id | id in old(records) && id !in todo && Overdue(old(records)[id], now)
        invariant View() == old(View()).(records := old(records) - gone)
        invariant removed == |gone|
        decreases todo
      {
        var id :| id in todo;
        todo := todo - {id};
        if records[id].terminalAt.Some? && records[id].terminalAt.value < cutoff {
          records := records - {id};
          gone := gone + {id};
          removed := removed + 1;
        }
      }
      assert gone == OverdueIds(old(records), now);
    }

    method TransitionToTerminal(
      id: string, final: Status, prior: Status, report: Report, error: Option<Error>, now: int)
      requires id in records && records[id].status == prior
      modifies this
      ensures records == old(records)[id := Ended(old(records)[id], final, report, error, now)]
      ensures running == if old(running) == Some(id) then None else old(running)
      ensures pending == old(pending)
    {
      var r := records[id];
      r := r.(priorStatus := Some(prior), status := final, terminalAt := Some(now), report := Some(report));
      if error.Some? {
        r := r.(error := error);
      }
      if running == Some(id) {
        running := None;
      }
      r := r.(resolved := r.resolved + 1);
      records := records[id := r];
    }
  }
}
