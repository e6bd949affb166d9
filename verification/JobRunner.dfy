/**
 * The stub job runner driving the queue from the event loop: `tickle` schedules a
 * microtask, the microtask claims a job and suspends while the job works, and when it
 * resumes it marks the outcome and tickles itself. Anything may run in between.
 */
module JobRunner {
  import opened Common
  import opened JobQueue

  /** What the stub is told to do: an outcome, and the progress updates to publish before it. */
  datatype Behavior = Behavior(outcome: Status, updates: seq<Partial>)

  /** A suspended `advance`: the job it claimed and the updates still to publish. */
  datatype Work = Work(id: string, updates: seq<Partial>)

  /** `scheduled` counts queued microtasks; `issued` are the ids drawn so far. */
  datatype System = System(
    queue: Queue,
    busy: bool,
    work: Option<Work>,
    scheduled: nat,
    behavior: Behavior,
    clock: int,
    issued: set<string>)

  datatype Event =
    | Delegate(id: string, input: JobInput)
    | Tickle
    | AdvanceTurn
    | ProgressTurn
    | FinishTurn
    | CancelJob(id: string)
    | SetBehavior(b: Behavior)
    | SweepJobs
    | Tick(dt: nat)

  // ---------------------------------------------------------------- specification

  predicate BehaviorOk(b: Behavior) {
    Terminal(b.outcome)
  }

  function Tickled(s: System): System {
    if s.busy then s else s.(scheduled := s.scheduled + 1)
  }

  /** The microtask: claims the next job if the runner is free. */
  function Advanced(s: System): System
    requires s.scheduled > 0
  {
    var s' := s.(scheduled := s.scheduled - 1);
    if s.busy then s'
    else if !CanClaim(s.queue) then s'.(queue := Claim(s.queue, s.clock))
    else s'.(queue := Claim(s.queue, s.clock), busy := true, work := Some(Work(s.queue.pending[0], s.behavior.updates)))
  }

  /** A job whose cancellation was requested is marked cancelled whatever the stub was told. */
  function OutcomeFor(s: System, id: string): Status {
    if id in s.queue.records && s.queue.records[id].cancelRequested then Cancelled else s.behavior.outcome
  }

  function Summary(status: Status): string {
    match status
    case Complete => "<stub: complete>"
    case Failed => "<stub: failed>"
    case _ => "<stub: cancelled>"
  }

  function StubReport(id: string, status: Status): Report {
    Report(id, status, Summary(status), None)
  }

  function ErrorFor(status: Status): Option<Error> {
    match status
    case Failed => Some(RuntimeError("<stub: failed>"))
    case Cancelled => Some(CancelledByUser)
    case _ => None
  }

  /** `applyOutcome`, the `finally` block, and the closing `tickle`, which a thrown error would skip. */
  function FinishedWork(s: System): System
    requires s.work.Some?
  {
    var id := s.work.value.id;
    var final := OutcomeFor(s, id);
    var marked := Mark(s.queue, id, final, StubReport(id, final), ErrorFor(final), s.clock);
    var s' := s.(queue := marked, busy := false, work := None);
    if CanMark(s.queue, id) then Tickled(s') else s'
  }

  predicate Allowed(s: System, e: Event) {
    match e
    case Delegate(id, _) => id !in s.issued
    case AdvanceTurn => s.scheduled > 0
    case ProgressTurn => s.work.Some? && s.work.value.updates != []
    case FinishTurn => s.work.Some? && s.work.value.updates == []
    case SetBehavior(b) => BehaviorOk(b)
    case _ => true
  }

  function Step(s: System, e: Event): System
    requires Allowed(s, e)
  {
    match e
    case Delegate(id, input) =>
      Tickled(s.(queue := Enqueued(s.queue, id, input, s.clock), issued := s.issued + {id}))
    case Tickle => Tickled(s)
    case AdvanceTurn => Advanced(s)
    case ProgressTurn =>
      var w := s.work.value;
      s.(queue := Progressed(s.queue, w.id, w.updates[0]), work := Some(Work(w.id, w.updates[1..])))
    case FinishTurn => FinishedWork(s)
    case CancelJob(id) => s.(queue := Cancelling(s.queue, id, s.clock))
    case SetBehavior(b) => s.(behavior := b)
    case SweepJobs => s.(queue := Swept(s.queue, s.clock))
    case Tick(dt) => s.(clock := s.clock + dt)
  }

  ghost predicate Initial(s: System) {
    s.queue == EMPTY_QUEUE && !s.busy && s.work.None? && s.scheduled == 0 && BehaviorOk(s.behavior) && s.issued == {}
  }

  ghost predicate IsRun(ss: seq<System>, es: seq<Event>) {
    && |ss| == |es| + 1
    && Initial(ss[0])
    && forall i :: 0 <= i < |es| ==> Allowed(ss[i], es[i]) && ss[i + 1] == Step(ss[i], es[i])
  }

  // --------------------------------------------------------------------- invariant

  /**
   * At every yield point the runner is busy exactly when a job is running, it is
   * working on that very job, and no queued job waits without someone to claim it.
   */
  ghost predicate Inv(s: System) {
    && Valid(s.queue)
    && s.busy == s.work.Some? == s.queue.running.Some?
    && (s.work.Some? ==> s.queue.running == Some(s.work.value.id))
    && (s.queue.pending != [] ==> s.busy || s.scheduled > 0)
    && BehaviorOk(s.behavior)
    && (forall id :: id in s.queue.records ==> id in s.issued)
  }

  lemma QueueStepKeepsInv(s: System, e: Event)
    requires Inv(s) && Allowed(s, e)
    requires e.CancelJob? || e.SweepJobs? || e.Delegate?
    ensures Inv(Step(s, e))
  {
    match e
    case Delegate(id, input) => EnqueueRefines(s.queue, id, input, s.clock);
    case CancelJob(id) =>
      CancelRefines(s.queue, id, s.clock);
      assert Step(s, e).queue.pending != [] ==> Step(s, e).queue.pending[0] in s.queue.pending;
    case SweepJobs => SweepRefines(s.queue, s.clock);
  }

  lemma TurnKeepsInv(s: System, e: Event)
    requires Inv(s) && Allowed(s, e)
    requires e.AdvanceTurn? || e.ProgressTurn? || e.FinishTurn?
    ensures Inv(Step(s, e))
  {
    match e
    case AdvanceTurn => ClaimRefines(s.queue, s.clock);
    case ProgressTurn => ProgressRefines(s.queue, s.work.value.id, s.work.value.updates[0]);
    case FinishTurn =>
      var id := s.work.value.id;
      var final := OutcomeFor(s, id);
      MarkRefines(s.queue, id, final, StubReport(id, final), ErrorFor(final), s.clock);
  }

  lemma StepKeepsInv(s: System, e: Event)
    requires Inv(s) && Allowed(s, e)
    ensures Inv(Step(s, e))
  {
    match e
    case Delegate(_, _) => QueueStepKeepsInv(s, e);
    case CancelJob(_) => QueueStepKeepsInv(s, e);
    case SweepJobs => QueueStepKeepsInv(s, e);
    case AdvanceTurn => TurnKeepsInv(s, e);
    case ProgressTurn => TurnKeepsInv(s, e);
    case FinishTurn => TurnKeepsInv(s, e);
    case _ =>
  }

  lemma {:induction false} InvAt(ss: seq<System>, es: seq<Event>, n: nat)
    requires IsRun(ss, es) && n <= |es|
    ensures Inv(ss[n])
  {
    if n > 0 {
      InvAt(ss, es, n - 1);
      StepKeepsInv(ss[n - 1], es[n - 1]);
    }
  }

  /** No lost wakeup. */
  lemma NoLostWakeup(ss: seq<System>, es: seq<Event>, n: nat)
    requires IsRun(ss, es) && n <= |es|
    ensures ss[n].busy <==> ss[n].queue.running.Some?
    ensures ss[n].queue.pending != [] ==> ss[n].busy || ss[n].scheduled > 0
  {
    InvAt(ss, es, n);
  }

  /** The runner's mark call never raises `JobStateError`. */
  lemma MarkNeverRaises(ss: seq<System>, es: seq<Event>, n: nat)
    requires IsRun(ss, es) && n < |es| && es[n] == FinishTurn
    ensures CanMark(ss[n].queue, ss[n].work.value.id)
  {
    InvAt(ss, es, n);
  }

  // ------------------------------------------------------------------- termination

  predicate RunnerTurn(e: Event) {
    e == AdvanceTurn || e == ProgressTurn || e == FinishTurn
  }

  function Bit(b: bool): nat {
    if b then 1 else 0
  }

  /** Three per queued job, two for the job being worked on, one per scheduled microtask. */
  function Measure(s: System): nat {
    3 * |s.queue.pending| + 2 * Bit(s.busy) + s.scheduled
  }

  /** Updates left to publish, by the job being worked on and by those still to be claimed. */
  function UpdatesLeft(s: System): nat {
    |s.queue.pending| * |s.behavior.updates| + (if s.work.Some? then |s.work.value.updates| else 0)
  }

  lemma TurnDecreasesMeasure(s: System, e: Event)
    requires Inv(s) && Allowed(s, e) && RunnerTurn(e)
    ensures e != ProgressTurn ==> Measure(Step(s, e)) < Measure(s) && UpdatesLeft(Step(s, e)) <= UpdatesLeft(s)
    ensures e == ProgressTurn ==> Measure(Step(s, e)) == Measure(s) && UpdatesLeft(Step(s, e)) < UpdatesLeft(s)
  {
  }

  lemma MulMonotone(a: nat, b: nat, c: nat)
    requires a <= b
    ensures a * c <= b * c
  {
  }

  lemma OtherEventsAddNoWork(s: System, e: Event)
    requires Inv(s) && Allowed(s, e) && (e.CancelJob? || e.SweepJobs? || e.Tick?)
    ensures Measure(Step(s, e)) <= Measure(s) && UpdatesLeft(Step(s, e)) <= UpdatesLeft(s)
  {
    MulMonotone(|Step(s, e).queue.pending|, |s.queue.pending|, |s.behavior.updates|);
  }

  /** The runner's turns among the events from `i` up to `j`. */
  function Turns(es: seq<Event>, i: nat, j: nat): nat
    requires i <= j <= |es|
    decreases j - i
  {
    if i == j then 0 else Bit(RunnerTurn(es[i])) + Turns(es, i + 1, j)
  }

  /**
   * With no new work arriving the runner stops: whatever is cancelled or swept in
   * between, its turns are bounded by what is left to do.
   */
  lemma {:induction false} RunnerTurnsAreBounded(ss: seq<System>, es: seq<Event>, i: nat, j: nat)
    requires IsRun(ss, es) && i <= j <= |es|
    requires forall m :: i <= m < j ==> !es[m].Delegate? && !es[m].Tickle? && !es[m].SetBehavior?
    ensures Turns(es, i, j) + Measure(ss[j]) + UpdatesLeft(ss[j]) <= Measure(ss[i]) + UpdatesLeft(ss[i])
    decreases j - i
  {
    hide Measure, UpdatesLeft, Inv, Step;
    if i < j {
      InvAt(ss, es, i);
      if RunnerTurn(es[i]) {
        TurnDecreasesMeasure(ss[i], es[i]);
      } else {
        OtherEventsAddNoWork(ss[i], es[i]);
      }
      RunnerTurnsAreBounded(ss, es, i + 1, j);
    }
  }

  /** When no turn of the runner can be taken every job still on record has ended, and conversely. */
  lemma QuiescentIffAllEnded(ss: seq<System>, es: seq<Event>, n: nat)
    requires IsRun(ss, es) && n <= |es|
    ensures (forall e :: RunnerTurn(e) ==> !Allowed(ss[n], e)) ==>
              forall id :: id in ss[n].queue.records ==> Terminal(ss[n].queue.records[id].status)
    ensures (forall id :: id in ss[n].queue.records ==> Terminal(ss[n].queue.records[id].status)) ==>
              forall e :: RunnerTurn(e) && Allowed(ss[n], e) ==> e == AdvanceTurn && !CanClaim(ss[n].queue)
  {
    InvAt(ss, es, n);
    var s := ss[n];
    if forall e :: RunnerTurn(e) ==> !Allowed(s, e) {
      assert RunnerTurn(AdvanceTurn) && RunnerTurn(ProgressTurn) && RunnerTurn(FinishTurn);
      assert s.work.None? && s.scheduled == 0;
    }
  }

  // ---------------------------------------------------------- exactly-once endings

  /** A job that has ended keeps its record unchanged until it is swept, and is never seen again after. */
  lemma EndedStepStays(s: System, e: Event, id: string)
    requires Inv(s) && Allowed(s, e) && id in s.issued
    requires id in s.queue.records ==> Terminal(s.queue.records[id].status)
    ensures id in Step(s, e).issued
    ensures id in Step(s, e).queue.records ==>
              id in s.queue.records && Step(s, e).queue.records[id] == s.queue.records[id]
  {
  }

  lemma {:induction false} EndedStays(ss: seq<System>, es: seq<Event>, i: nat, j: nat, id: string)
    requires IsRun(ss, es) && i <= j <= |es| && id in ss[i].issued
    requires id in ss[i].queue.records ==> Terminal(ss[i].queue.records[id].status)
    ensures id in ss[j].queue.records ==>
              id in ss[i].queue.records && ss[j].queue.records[id] == ss[i].queue.records[id]
    decreases j - i
  {
    if i < j {
      InvAt(ss, es, i);
      EndedStepStays(ss[i], es[i], id);
      EndedStays(ss, es, i + 1, j, id);
    }
  }

  /** `terminal_promise` has been resolved exactly once if the job has ended, and not at all otherwise. */
  lemma ResolvedIffEnded(ss: seq<System>, es: seq<Event>, n: nat, id: string)
    requires IsRun(ss, es) && n <= |es| && id in ss[n].queue.records
    ensures ss[n].queue.records[id].resolved == if Terminal(ss[n].queue.records[id].status) then 1 else 0
  {
    InvAt(ss, es, n);
  }

  /** A long poll woken by the promise finds the job ended, whenever it looks before the sweep. */
  lemma LongPollSeesEnd(ss: seq<System>, es: seq<Event>, i: nat, j: nat, id: string)
    requires IsRun(ss, es) && i <= j <= |es|
    requires id in ss[i].queue.records && ss[i].queue.records[id].resolved > 0
    requires id in ss[j].queue.records
    ensures Terminal(ss[j].queue.records[id].status)
    ensures ss[j].queue.records[id].report.Some?
  {
    InvAt(ss, es, i);
    InvAt(ss, es, j);
    EndedStays(ss, es, i, j, id);
  }

  /** A running job with a cancellation request can only go on running or end cancelled. */
  ghost predicate Doomed(r: JobRecord) {
    (r.status == Running && r.cancelRequested) || r.status == Cancelled
  }

  lemma DoomedStepStays(s: System, e: Event, id: string)
    requires Inv(s) && Allowed(s, e) && id in s.queue.records && Doomed(s.queue.records[id])
    ensures id in Step(s, e).queue.records ==> Doomed(Step(s, e).queue.records[id])
  {
  }

  lemma {:induction false} DoomedStays(ss: seq<System>, es: seq<Event>, i: nat, j: nat, id: string)
    requires IsRun(ss, es) && i <= j <= |es|
    requires id in ss[i].queue.records && Doomed(ss[i].queue.records[id])
    ensures id in ss[j].queue.records ==> Doomed(ss[j].queue.records[id])
    decreases j - i
  {
    if i < j {
      InvAt(ss, es, i);
      DoomedStepStays(ss[i], es[i], id);
      if id in ss[i + 1].queue.records {
        DoomedStays(ss, es, i + 1, j, id);
      } else {
        EndedStays(ss, es, i + 1, j, id);
      }
    }
  }

  /** A job cancelled while it runs ends cancelled, whatever outcome the stub was told. */
  lemma CancelledWhileRunningEndsCancelled(ss: seq<System>, es: seq<Event>, i: nat, j: nat, id: string)
    requires IsRun(ss, es) && i < j <= |es| && es[i] == CancelJob(id)
    requires id in ss[i].queue.records && ss[i].queue.records[id].status == Running
    requires id in ss[j].queue.records && Terminal(ss[j].queue.records[id].status)
    ensures ss[j].queue.records[id].status == Cancelled
  {
    assert Doomed(ss[i + 1].queue.records[id]);
    DoomedStays(ss, es, i + 1, j, id);
  }

  // ------------------------------------------------------------- refinement

  datatype Action =
    | SubmitJob(id: string)
    | DispatchJob
    | WithdrawJob(id: string)
    | FinishJob(id: string, final: Status)
    | ForgetJobs(ids: set<string>)
    | Stutter

  function Act(s: Scheduler, a: Action): Scheduler {
    match a
    case SubmitJob(id) => Submit(s, id)
    case DispatchJob => Dispatch(s)
    case WithdrawJob(id) => Withdraw(s, id)
    case FinishJob(id, final) => Finish(s, id, final)
    case ForgetJobs(ids) => Forget(s, ids)
    case Stutter => s
  }

  /** What an event is to the abstract scheduler. */
  function ActionOf(s: System, e: Event): Action
    requires Allowed(s, e)
  {
    match e
    case Delegate(id, _) => SubmitJob(id)
    case AdvanceTurn => if s.busy then Stutter else DispatchJob
    case FinishTurn => FinishJob(s.work.value.id, OutcomeFor(s, s.work.value.id))
    case CancelJob(id) => WithdrawJob(id)
    case SweepJobs => ForgetJobs(OverdueIds(s.queue.records, s.clock))
    case _ => Stutter
  }

  ghost predicate IsSchedulerRun(ks: seq<Scheduler>, acts: seq<Action>) {
    && |ks| == |acts| + 1
    && ks[0] == Scheduler([], None, map[])
    && forall i :: 0 <= i < |acts| ==> ks[i + 1] == Act(ks[i], acts[i])
  }

  lemma StepRefines(s: System, e: Event)
    requires Inv(s) && Allowed(s, e)
    ensures Abs(Step(s, e).queue) == Act(Abs(s.queue), ActionOf(s, e))
  {
    hide Claim, Cancelling, Mark, Progressed, Swept, Enqueued, Abs, Valid;
    match e
    case Delegate(id, input) => EnqueueRefines(s.queue, id, input, s.clock);
    case AdvanceTurn => ClaimRefines(s.queue, s.clock);
    case ProgressTurn => ProgressRefines(s.queue, s.work.value.id, s.work.value.updates[0]);
    case FinishTurn =>
      var id := s.work.value.id;
      var final := OutcomeFor(s, id);
      MarkRefines(s.queue, id, final, StubReport(id, final), ErrorFor(final), s.clock);
    case CancelJob(id) => CancelRefines(s.queue, id, s.clock);
    case SweepJobs => SweepRefines(s.queue, s.clock);
    case _ =>
  }

  function Abstracted(ss: seq<System>): (ks: seq<Scheduler>)
    ensures |ks| == |ss| && forall i :: 0 <= i < |ss| ==> ks[i] == Abs(ss[i].queue)
  {
    seq(|ss|, i requires 0 <= i < |ss| => Abs(ss[i].queue))
  }

  /** Seen through the abstraction, every run of runner and queue is a run of the FIFO scheduler. */
  lemma RunRefinesScheduler(ss: seq<System>, es: seq<Event>) returns (acts: seq<Action>)
    requires IsRun(ss, es)
    ensures IsSchedulerRun(Abstracted(ss), acts)
    ensures |acts| == |es| && forall i :: 0 <= i < |es| ==> acts[i] == ActionOf(ss[i], es[i])
  {
    acts := seq(|es|, i requires 0 <= i < |es| => ActionOf(ss[i], es[i]));
    assert Abs(ss[0].queue) == Scheduler([], None, map[]);
    forall i | 0 <= i < |es|
      ensures Abs(ss[i + 1].queue) == Act(Abs(ss[i].queue), acts[i])
    {
      InvAt(ss, es, i);
      StepRefines(ss[i], es[i]);
    }
  }

  // ------------------------------------------------------------- FIFO over a run

  /** The ids delegated in the first `n` events, in order. */
  function EnqueueOrder(es: seq<Event>, n: nat): seq<string>
    requires n <= |es|
  {
    if n == 0 then []
    else if es[n - 1].Delegate? then EnqueueOrder(es, n - 1) + [es[n - 1].id]
    else EnqueueOrder(es, n - 1)
  }

  predicate Claims(s: System, e: Event) {
    e == AdvanceTurn && !s.busy && CanClaim(s.queue)
  }

  /** The ids claimed by the runner in the first `n` events, in order. */
  function ClaimOrder(ss: seq<System>, es: seq<Event>, n: nat): seq<string>
    requires n <= |es| < |ss|
  {
    if n == 0 then []
    else if Claims(ss[n - 1], es[n - 1]) then ClaimOrder(ss, es, n - 1) + [ss[n - 1].queue.pending[0]]
    else ClaimOrder(ss, es, n - 1)
  }

  predicate Withdraws(s: System, e: Event) {
    e.CancelJob? && CancelReplyOf(s.queue, e.id) == CancelAccepted(Queued)
  }

  /** The ids cancelled while still queued in the first `n` events. */
  function Withdrawn(ss: seq<System>, es: seq<Event>, n: nat): set<string>
    requires n <= |es| < |ss|
  {
    if n == 0 then {}
    else if Withdraws(ss[n - 1], es[n - 1]) then Withdrawn(ss, es, n - 1) + {es[n - 1].id}
    else Withdrawn(ss, es, n - 1)
  }

  function NotIn(ids: set<string>): string -> bool {
    (id: string) => id !in ids
  }

  lemma {:induction false} IssuedAt(ss: seq<System>, es: seq<Event>, n: nat)
    requires IsRun(ss, es) && n <= |es|
    ensures forall id :: id in EnqueueOrder(es, n) <==> id in ss[n].issued
    ensures Withdrawn(ss, es, n) <= ss[n].issued
    ensures Distinct(EnqueueOrder(es, n))
  {
    if n > 0 {
      IssuedAt(ss, es, n - 1);
      InvAt(ss, es, n - 1);
      var before := EnqueueOrder(es, n - 1);
      assert forall i :: 0 <= i < |before| ==> before[i] in ss[n - 1].issued;
    }
  }

  /**
   * First in, first out: over any run, the claimed ids followed by the ids still
   * pending are the delegated ids in order, less those cancelled while queued.
   */
  lemma {:induction false} ClaimsAreFifo(ss: seq<System>, es: seq<Event>, n: nat)
    requires IsRun(ss, es) && n <= |es|
    ensures ClaimOrder(ss, es, n) + ss[n].queue.pending == Filter(EnqueueOrder(es, n), NotIn(Withdrawn(ss, es, n)))
  {
    if n > 0 {
      ClaimsAreFifo(ss, es, n - 1);
      FifoStep(ss, es, n);
    }
  }

  /** What one event does to the queued ids. */
  lemma PendingStep(s: System, e: Event)
    requires Inv(s) && Allowed(s, e)
    ensures Step(s, e).queue.pending ==
              if e.Delegate? then s.queue.pending + [e.id]
              else if Claims(s, e) then s.queue.pending[1..]
              else if Withdraws(s, e) then Filter(s.queue.pending, NotEqual(e.id))
              else s.queue.pending
    ensures Claims(s, e) ==> s.queue.pending != []
    ensures Withdraws(s, e) ==> e.id in s.queue.pending
  {
  }

  ghost predicate Fifo(order: seq<string>, claimed: seq<string>, pending: seq<string>, gone: set<string>) {
    claimed + pending == Filter(order, NotIn(gone))
  }

  lemma FifoDelegate(order: seq<string>, claimed: seq<string>, pending: seq<string>, gone: set<string>, id: string)
    requires Fifo(order, claimed, pending, gone) && id !in gone
    ensures Fifo(order + [id], claimed, pending + [id], gone)
  {
  }

  lemma FifoClaim(order: seq<string>, claimed: seq<string>, pending: seq<string>, gone: set<string>)
    requires Fifo(order, claimed, pending, gone) && pending != []
    ensures Fifo(order, claimed + [pending[0]], pending[1..], gone)
  {
  }

  lemma FifoStep(ss: seq<System>, es: seq<Event>, n: nat)
    requires IsRun(ss, es) && 0 < n <= |es|
    requires Fifo(EnqueueOrder(es, n - 1), ClaimOrder(ss, es, n - 1), ss[n - 1].queue.pending, Withdrawn(ss, es, n - 1))
    ensures Fifo(EnqueueOrder(es, n), ClaimOrder(ss, es, n), ss[n].queue.pending, Withdrawn(ss, es, n))
  {
    var s, e := ss[n - 1], es[n - 1];
    var order, claimed, gone := EnqueueOrder(es, n - 1), ClaimOrder(ss, es, n - 1), Withdrawn(ss, es, n - 1);
    InvAt(ss, es, n - 1);
    PendingStep(s, e);
    IssuedAt(ss, es, n - 1);
    if Withdraws(s, e) {
      FifoWithdraw(order, claimed, s.queue.pending, gone, e.id);
    } else {
      if e.Delegate? {
        FifoDelegate(order, claimed, s.queue.pending, gone, e.id);
      } else if Claims(s, e) {
        FifoClaim(order, claimed, s.queue.pending, gone);
      }
    }
  }

  lemma FifoWithdraw(order: seq<string>, claimed: seq<string>, pending: seq<string>, gone: set<string>, id: string)
    requires Distinct(order) && id in pending && Fifo(order, claimed, pending, gone)
    ensures Fifo(order, claimed, Filter(pending, NotEqual(id)), gone + {id})
  {
    FilterDistinct(order, NotIn(gone));
    FilterFilter(order, NotIn(gone), NotEqual(id), NotIn(gone + {id}));
    FilterConcat(claimed, pending, NotEqual(id));
    forall x | x in claimed
      ensures x != id
    {
      var i :| 0 <= i < |claimed| && claimed[i] == x;
      var j :| 0 <= j < |pending| && pending[j] == id;
      assert (claimed + pending)[i] == x && (claimed + pending)[|claimed| + j] == id;
    }
    FilterAll(claimed, NotEqual(id));
  }

  // ------------------------------------------------------------------ conservation

  /** A job that is no longer on record was swept, at a moment when it had been over for more than a day. */
  lemma {:induction false} SweptOnlyIfOverdue(ss: seq<System>, es: seq<Event>, n: nat, id: string) returns (m: nat)
    requires IsRun(ss, es) && n <= |es|
    requires id in EnqueueOrder(es, n) && id !in ss[n].queue.records
    ensures m < n && es[m] == SweepJobs && id in ss[m].queue.records
    ensures Terminal(ss[m].queue.records[id].status)
    ensures ss[m].queue.records[id].terminalAt.Some?
    ensures ss[m].queue.records[id].terminalAt.value + 86400000 < ss[m].clock
  {
    assert n > 0;
    InvAt(ss, es, n - 1);
    if id in ss[n - 1].queue.records {
      m := n - 1;
    } else {
      m := SweptOnlyIfOverdue(ss, es, n - 1, id);
    }
  }

  /** The ids removed by the sweeps among the first `n` events. */
  function SweptIds(ss: seq<System>, es: seq<Event>, n: nat): set<string>
    requires n <= |es| < |ss|
  {
    if n == 0 then {}
    else if es[n - 1] == SweepJobs
    then SweptIds(ss, es, n - 1) + OverdueIds(ss[n - 1].queue.records, ss[n - 1].clock)
    else SweptIds(ss, es, n - 1)
  }

  lemma SweepIsCounted(s: System, e: Event, id: string)
    requires Inv(s) && Allowed(s, e) && id in s.queue.records
    ensures id in Step(s, e).queue.records <==>
              !(e == SweepJobs && id in OverdueIds(s.queue.records, s.clock))
  {
  }

  /** The delegated jobs that are not on record are exactly those some sweep has removed. */
  lemma {:induction false} GoneIffSwept(ss: seq<System>, es: seq<Event>, n: nat, id: string)
    requires IsRun(ss, es) && n <= |es|
    ensures id in SweptIds(ss, es, n) <==> id in EnqueueOrder(es, n) && id !in ss[n].queue.records
  {
    if n > 0 {
      var s, e := ss[n - 1], es[n - 1];
      GoneIffSwept(ss, es, n - 1, id);
      InvAt(ss, es, n - 1);
      IssuedAt(ss, es, n - 1);
      if id in s.queue.records {
        SweepIsCounted(s, e, id);
      } else {
        NotBack(s, e, id);
      }
    }
  }

  lemma NotBack(s: System, e: Event, id: string)
    requires Inv(s) && Allowed(s, e) && id !in s.queue.records
    ensures id in Step(s, e).queue.records <==> e.Delegate? && e.id == id
  {
  }

  /** Every delegated job is in exactly one place: queued, running, ended and retained, or removed by a sweep. */
  lemma JobsAreConserved(ss: seq<System>, es: seq<Event>, n: nat, id: string)
    requires IsRun(ss, es) && n <= |es|
    ensures var q := ss[n].queue;
            var queued, running := id in q.pending, q.running == Some(id);
            var retained := id in q.records && Terminal(q.records[id].status);
            var swept := id in SweptIds(ss, es, n);
            Bit(queued) + Bit(running) + Bit(retained) + Bit(swept) == Bit(id in EnqueueOrder(es, n))
  {
    InvAt(ss, es, n);
    IssuedAt(ss, es, n);
    GoneIffSwept(ss, es, n, id);
  }

  function In(ids: seq<string>): string -> bool {
    (id: string) => id in ids
  }

  /** The queued ids are the delegated ids that are still queued, in the order they were delegated. */
  lemma PendingIsEnqueueOrder(ss: seq<System>, es: seq<Event>, n: nat)
    requires IsRun(ss, es) && n <= |es|
    ensures Filter(EnqueueOrder(es, n), In(ss[n].queue.pending)) == ss[n].queue.pending
  {
    var order, pending := EnqueueOrder(es, n), ss[n].queue.pending;
    var claimed, gone := ClaimOrder(ss, es, n), Withdrawn(ss, es, n);
    ClaimsAreFifo(ss, es, n);
    IssuedAt(ss, es, n);
    SuffixIsFilter(order, claimed, pending, NotIn(gone));
  }

  lemma SuffixIsFilter(order: seq<string>, claimed: seq<string>, pending: seq<string>, keep: string -> bool)
    requires Distinct(order) && claimed + pending == Filter(order, keep)
    ensures Filter(order, In(pending)) == pending
  {
    FilterDistinct(order, keep);
    assert forall x :: x in pending ==> x in claimed + pending;
    FilterFilter(order, keep, In(pending), In(pending));
    FilterConcat(claimed, pending, In(pending));
    FilterAll(pending, In(pending));
    forall x | x in claimed
      ensures x !in pending
    {
      PartsDisjoint(claimed, pending, x);
    }
    FilterNone(claimed, In(pending));
  }

  lemma PartsDisjoint(s: seq<string>, t: seq<string>, x: string)
    requires Distinct(s + t) && x in s
    ensures x !in t
  {
    var i :| 0 <= i < |s| && s[i] == x;
    forall j | 0 <= j < |t|
      ensures t[j] != x
    {
      assert (s + t)[i] == x && (s + t)[|s| + j] == t[j];
    }
  }

  /** A queued job's position is the number of jobs delegated before it that are still queued. */
  lemma QueuedPositionCountsEarlierJobs(ss: seq<System>, es: seq<Event>, n: nat, m: nat, p: nat)
    requires IsRun(ss, es) && n <= |es|
    requires m < |EnqueueOrder(es, n)| && p < |ss[n].queue.pending|
    requires ss[n].queue.pending[p] == EnqueueOrder(es, n)[m]
    ensures p == |Filter(EnqueueOrder(es, n)[..m], In(ss[n].queue.pending))|
  {
    InvAt(ss, es, n);
    PendingIsEnqueueOrder(ss, es, n);
    PositionInFilter(EnqueueOrder(es, n), In(ss[n].queue.pending), m);
  }

  lemma PositionInFilter(s: seq<string>, keep: string -> bool, m: nat)
    requires m < |s| && keep(s[m])
    ensures |Filter(s[..m], keep)| < |Filter(s, keep)| && Filter(s, keep)[|Filter(s[..m], keep)|] == s[m]
  {
    hide Filter;
    assert s == s[..m + 1] + s[m + 1..];
    FilterConcat(s[..m + 1], s[m + 1..], keep);
    assert s[..m + 1] == s[..m] + [s[m]];
    FilterSnoc(s[..m], s[m], keep);
  }

  lemma PositionAfterWithdraw(pending: seq<string>, gone: string, id: string)
    requires Distinct(pending) && id in pending && gone in pending && id != gone
    ensures id in Filter(pending, NotEqual(gone))
    ensures IndexOf(Filter(pending, NotEqual(gone)), id).value <= IndexOf(pending, id).value
  {
    var i, p := IndexOf(pending, gone).value, IndexOf(pending, id).value;
    SpliceIsFilter(pending, i);
    IndexOfIsFirst(Filter(pending, NotEqual(gone)), id, if p < i then p else p - 1);
  }

  lemma PositionStep(s: System, e: Event, id: string)
    requires Inv(s) && Allowed(s, e)
    requires id in s.queue.pending && id in Step(s, e).queue.pending
    ensures IndexOf(Step(s, e).queue.pending, id).value <= IndexOf(s.queue.pending, id).value
  {
    PendingStep(s, e);
    var pending := s.queue.pending;
    var p := IndexOf(pending, id).value;
    if Claims(s, e) {
      IndexOfIsFirst(pending[1..], id, p - 1);
    } else if Withdraws(s, e) {
      PositionAfterWithdraw(pending, e.id, id);
    } else if e.Delegate? {
      IndexOfIsFirst(pending + [e.id], id, p);
    }
  }

  lemma NoLateArrival(s: System, e: Event, id: string)
    requires Inv(s) && Allowed(s, e) && id in s.issued && id in Step(s, e).queue.pending
    ensures id in s.queue.pending
  {
  }

  /** A job that is queued before and after a stretch of a run is queued throughout. */
  lemma StillQueuedBefore(ss: seq<System>, es: seq<Event>, i: nat, j: nat, id: string)
    requires IsRun(ss, es) && i < j <= |es|
    requires id in ss[i].queue.pending && id in ss[j].queue.pending
    ensures id in ss[j - 1].queue.pending
  {
    hide Step;
    InvAt(ss, es, i);
    InvAt(ss, es, j - 1);
    IssuedGrows(ss, es, i, j - 1, id);
    NoLateArrival(ss[j - 1], es[j - 1], id);
  }

  /** A queued job never moves back. */
  lemma {:induction false} QueuedPositionNeverIncreases(ss: seq<System>, es: seq<Event>, i: nat, j: nat, id: string)
    requires IsRun(ss, es) && i <= j <= |es|
    requires id in ss[i].queue.pending && id in ss[j].queue.pending
    ensures IndexOf(ss[j].queue.pending, id).value <= IndexOf(ss[i].queue.pending, id).value
    decreases j
  {
    hide Step, Inv;
    if i < j {
      StillQueuedBefore(ss, es, i, j, id);
      InvAt(ss, es, j - 1);
      PositionStep(ss[j - 1], es[j - 1], id);
      QueuedPositionNeverIncreases(ss, es, i, j - 1, id);
    }
  }

  lemma {:induction false} IssuedGrows(ss: seq<System>, es: seq<Event>, i: nat, j: nat, id: string)
    requires IsRun(ss, es) && i <= j <= |es| && id in ss[i].issued
    ensures id in ss[j].issued
    decreases j
  {
    if i < j {
      IssuedGrows(ss, es, i, j - 1, id);
    }
  }

  // ------------------------------------------------- the life of a job

  /** A job keeps the input it was delegated with, and the time. */
  lemma {:induction false} InputStays(ss: seq<System>, es: seq<Event>, i: nat, n: nat)
    requires IsRun(ss, es) && i < n <= |es| && es[i].Delegate?
    ensures es[i].id in ss[n].issued
    ensures es[i].id in ss[n].queue.records ==>
              var r := ss[n].queue.records[es[i].id];
              r.input == es[i].input && r.enqueuedAt == ss[i].clock
    decreases n
  {
    hide Step, Inv;
    InvAt(ss, es, n - 1);
    if n == i + 1 {
      DelegatedStep(ss[i], es[i]);
    } else {
      InputStays(ss, es, i, n - 1);
      InputStep(ss[n - 1], es[n - 1], es[i].id);
    }
  }

  /** A delegated job starts out queued, and wakes the runner unless that is busy. */
  lemma DelegatedStep(s: System, e: Event)
    requires Inv(s) && Allowed(s, e) && e.Delegate?
    ensures var s' := Step(s, e);
            && e.id in s'.queue.records && e.id in s'.issued
            && s'.queue.records[e.id]
               == JobRecord(e.input, s.clock, Queued, None, None, None, None, None, None, false, 0)
            && s'.scheduled == (if s.busy then s.scheduled else s.scheduled + 1)
  {
  }

  lemma InputStep(s: System, e: Event, id: string)
    requires Inv(s) && Allowed(s, e) && id in s.issued
    ensures id in Step(s, e).issued
    ensures id in Step(s, e).queue.records ==>
              && id in s.queue.records
              && Step(s, e).queue.records[id].input == s.queue.records[id].input
              && Step(s, e).queue.records[id].enqueuedAt == s.queue.records[id].enqueuedAt
  {
  }

  /** The microtask takes the head of the queue if it finds the runner idle; otherwise it is simply gone. */
  lemma AdvanceTakesHead(ss: seq<System>, es: seq<Event>, n: nat)
    requires IsRun(ss, es) && n < |es| && es[n] == AdvanceTurn
    ensures ss[n + 1].scheduled == ss[n].scheduled - 1
    ensures var s, s' := ss[n], ss[n + 1];
            if !s.busy && s.queue.pending != [] then
              var id := s.queue.pending[0];
              && s'.busy && s'.queue.running == Some(id) && s'.queue.pending == s.queue.pending[1..]
              && s'.work == Some(Work(id, s.behavior.updates))
              && id in s.queue.records && s'.queue.records ==
                   s.queue.records[id := s.queue.records[id].(
                     priorStatus := Some(Queued), status := Running, startedAt := Some(s.clock))]
            else s'.queue == s.queue && s'.busy == s.busy && s'.work == s.work
  {
    InvAt(ss, es, n);
    assert ss[n + 1] == Step(ss[n], es[n]);
    ClaimRefines(ss[n].queue, ss[n].clock);
    if ss[n].queue.pending != [] {
      assert ss[n].queue.pending[0] in ss[n].queue.pending;
    }
  }

  /** A turn of the work publishes the next update, and nothing else. */
  lemma ProgressPublishes(ss: seq<System>, es: seq<Event>, n: nat)
    requires IsRun(ss, es) && n < |es| && es[n] == ProgressTurn
    ensures var id, updates := ss[n].work.value.id, ss[n].work.value.updates;
            && id in ss[n].queue.records
            && ss[n + 1] == ss[n].(
                 queue := ss[n].queue.(
                   records := ss[n].queue.records[id := ss[n].queue.records[id].(partial := Some(updates[0]))]),
                 work := Some(Work(id, updates[1..])))
  {
    InvAt(ss, es, n);
    assert ss[n + 1] == Step(ss[n], es[n]);
  }

  lemma FlagStep(s: System, e: Event, id: string)
    requires Inv(s) && Allowed(s, e) && id in Step(s, e).queue.records
    ensures Step(s, e).queue.records[id].cancelRequested <==>
              || (id in s.queue.records && s.queue.records[id].cancelRequested)
              || (e == CancelJob(id) && s.queue.running == Some(id))
    ensures id !in s.queue.records ==> e.Delegate? && e.id == id
  {
  }

  /** The flag says exactly whether the job was cancelled while it was running. */
  lemma {:induction false} FlagIffCancelled(ss: seq<System>, es: seq<Event>, n: nat, id: string)
    requires IsRun(ss, es) && n <= |es| && id in ss[n].queue.records
    ensures ss[n].queue.records[id].cancelRequested <==>
              exists m :: 0 <= m < n && es[m] == CancelJob(id) && ss[m].queue.running == Some(id)
  {
    hide Step, Inv;
    NoJobsAtFirst(ss, es, id);
    if n > 0 {
      InvAt(ss, es, n - 1);
      FlagStep(ss[n - 1], es[n - 1], id);
      if id in ss[n - 1].queue.records {
        FlagIffCancelled(ss, es, n - 1, id);
      } else {
        NeverBefore(ss, es, n - 1, id);
      }
    }
  }

  lemma NoJobsAtFirst(ss: seq<System>, es: seq<Event>, id: string)
    requires IsRun(ss, es)
    ensures id !in ss[0].queue.records
  {
  }

  /** A job that is only now delegated has not been running. */
  lemma NeverBefore(ss: seq<System>, es: seq<Event>, n: nat, id: string)
    requires IsRun(ss, es) && n < |es| && es[n].Delegate? && es[n].id == id
    ensures forall m :: 0 <= m < n ==> ss[m].queue.running != Some(id)
  {
    hide Step;
    forall m | 0 <= m < n
      ensures ss[m].queue.running != Some(id)
    {
      InvAt(ss, es, m);
      if id in ss[m].issued {
        IssuedGrows(ss, es, m, n, id);
      }
    }
  }

  /** Was the job cancelled while it was running, before step `n`? */
  ghost predicate CancelledWhileRunning(ss: seq<System>, es: seq<Event>, n: nat, id: string)
    requires |ss| == |es| + 1 && n <= |es|
  {
    exists m :: 0 <= m < n && es[m] == CancelJob(id) && ss[m].queue.running == Some(id)
  }

  /** `r'` is how `r` ends with this status under the stub: the time, a report that says so, and the error for it. */
  predicate EndsAs(r: JobRecord, r': JobRecord, id: string, final: Status, now: int) {
    && r'.status == final && r'.terminalAt == Some(now) && r'.priorStatus == Some(Running)
    && r'.partial == r.partial && r'.startedAt == r.startedAt
    && (final == Complete ==>
          r'.report == Some(Report(id, Complete, "<stub: complete>", None)) && r'.error == r.error)
    && (final == Failed ==>
          && r'.report == Some(Report(id, Failed, "<stub: failed>", None))
          && r'.error == Some(RuntimeError("<stub: failed>")))
    && (final == Cancelled ==>
          r'.report == Some(Report(id, Cancelled, "<stub: cancelled>", None)) && r'.error == Some(CancelledByUser))
  }

  /**
   * How a job ends: cancelled if it was cancelled while running, and otherwise as the
   * stub was told; then the slot is free and the runner tickled.
   */
  lemma FinishEndsAsTold(ss: seq<System>, es: seq<Event>, n: nat)
    requires IsRun(ss, es) && n < |es| && es[n] == FinishTurn
    ensures var id := ss[n].work.value.id;
            var final := if CancelledWhileRunning(ss, es, n, id) then Cancelled else ss[n].behavior.outcome;
            && (final == Complete || final == Failed || final == Cancelled)
            && id in ss[n].queue.records && id in ss[n + 1].queue.records
            && EndsAs(ss[n].queue.records[id], ss[n + 1].queue.records[id], id, final, ss[n].clock)
            && ss[n + 1].queue.running == None && !ss[n + 1].busy && ss[n + 1].work == None
            && ss[n + 1].scheduled == ss[n].scheduled + 1
  {
    InvAt(ss, es, n);
    FlagIffCancelled(ss, es, n, ss[n].work.value.id);
    assert ss[n + 1] == Step(ss[n], es[n]);
  }

  /** Cancelling: a queued job ends at once, a running one is flagged, and otherwise nothing happens. */
  lemma CancelEnds(ss: seq<System>, es: seq<Event>, n: nat)
    requires IsRun(ss, es) && n < |es| && es[n].CancelJob?
    ensures var id, q, q' := es[n].id, ss[n].queue, ss[n + 1].queue;
            if id in q.pending then
              && id in q'.records && id !in q'.pending && q'.running == q.running
              && var r' := q'.records[id];
              && r'.status == Cancelled && r'.terminalAt == Some(ss[n].clock) && r'.priorStatus == Some(Queued)
              && r'.report == Some(Report(id, Cancelled, "<cancelled before run>", Some(CancelledBeforeRun)))
              && r'.startedAt == q.records[id].startedAt && r'.error == q.records[id].error
            else if q.running == Some(id) then
              id in q.records && q' == q.(records := q.records[id := q.records[id].(cancelRequested := true)])
            else q' == q
    ensures ss[n + 1].scheduled == ss[n].scheduled && ss[n + 1].busy == ss[n].busy
  {
    InvAt(ss, es, n);
    assert ss[n + 1] == Step(ss[n], es[n]);
  }

  /** A sweep removes exactly the jobs that ended more than twenty-four hours ago, and only a sweep removes any. */
  lemma SweepRemovesIff(ss: seq<System>, es: seq<Event>, n: nat, id: string)
    requires IsRun(ss, es) && n < |es| && id in ss[n].queue.records
    ensures id !in ss[n + 1].queue.records <==>
              && es[n] == SweepJobs && ss[n].queue.records[id].terminalAt.Some?
              && ss[n].queue.records[id].terminalAt.value + 86400000 < ss[n].clock
  {
    InvAt(ss, es, n);
    SweepIsCounted(ss[n], es[n], id);
  }

  lemma {:induction false} ClockGrows(ss: seq<System>, es: seq<Event>, i: nat, j: nat)
    requires IsRun(ss, es) && i <= j <= |es|
    ensures ss[i].clock <= ss[j].clock
    decreases j
  {
    if i < j {
      ClockGrows(ss, es, i, j - 1);
    }
  }

  /** A job that ended at some time is on record, as it ended, for the next twenty-four hours. */
  lemma {:induction false} RetainedForADay(ss: seq<System>, es: seq<Event>, i: nat, n: nat, id: string)
    requires IsRun(ss, es) && i <= n <= |es|
    requires id in ss[i].queue.records && ss[i].queue.records[id].terminalAt.Some?
    requires ss[n].clock <= ss[i].queue.records[id].terminalAt.value + 86400000
    ensures id in ss[n].queue.records && ss[n].queue.records[id] == ss[i].queue.records[id]
    decreases n
  {
    hide Step, Inv;
    if i < n {
      ClockGrows(ss, es, n - 1, n);
      RetainedForADay(ss, es, i, n - 1, id);
      SweepRemovesIff(ss, es, n - 1, id);
      EndedIsIssued(ss, es, n - 1, id);
      EndedStays(ss, es, n - 1, n, id);
    }
  }

  lemma EndedIsIssued(ss: seq<System>, es: seq<Event>, n: nat, id: string)
    requires IsRun(ss, es) && n <= |es| && id in ss[n].queue.records && ss[n].queue.records[id].terminalAt.Some?
    ensures id in ss[n].issued && Terminal(ss[n].queue.records[id].status)
  {
    InvAt(ss, es, n);
  }

  /** What is left: a tickle wakes the runner unless it is busy, and the stub is told what to do. */
  lemma OtherTurns(ss: seq<System>, es: seq<Event>, n: nat)
    requires IsRun(ss, es) && n < |es|
    ensures match es[n]
            case Tickle => ss[n + 1] == ss[n].(scheduled := if ss[n].busy then ss[n].scheduled else ss[n].scheduled + 1)
            case SetBehavior(b) => ss[n + 1] == ss[n].(behavior := b)
            case Tick(dt) => ss[n + 1] == ss[n].(clock := ss[n].clock + dt)
            case SweepJobs => ss[n + 1].queue.pending == ss[n].queue.pending && ss[n + 1].busy == ss[n].busy
                              && ss[n + 1].queue.running == ss[n].queue.running && ss[n + 1].work == ss[n].work
            case _ => ss[n + 1].behavior == ss[n].behavior && ss[n + 1].clock == ss[n].clock
  {
    assert ss[n + 1] == Step(ss[n], es[n]);
  }

  // --------------------------------------------------------------- implementation

  class StubJobRunner {
    const queue: JobQueue
    var busy: bool
    var behavior: Behavior
    /** The event loop's share of the state: the suspended `advance` and the queued microtasks. */
    var work: Option<Work>
    var scheduled: nat

    ghost function View(now: int, issued: set<string>): System
      reads this, queue
    {
      System(queue.View(), busy, work, scheduled, behavior, now, issued)
    }

    constructor (queue: JobQueue, behavior: Behavior)
      ensures this.queue == queue
      ensures View(0, {}) == System(queue.View(), false, None, 0, behavior, 0, {})
    {
      this.queue, this.behavior := queue, behavior;
      busy, work, scheduled := false, None, 0;
    }

    method Tickle(ghost now: int, ghost issued: set<string>)
      modifies this
      ensures View(now, issued) == Tickled(old(View(now, issued)))
    {
      if busy {
        return;
      }
      scheduled := scheduled + 1;
    }

    /** What the delegate tool does without yielding: enqueue, then kick the runner. */
    method DelegateJob(id: string, input: JobInput, now: int, ghost issued: set<string>) returns (queuedPosition: nat)
      requires id !in issued
      modifies this, queue
      ensures View(now, issued + {id}) == Step(old(View(now, issued)), Delegate(id, input))
      ensures queuedPosition == |old(queue.pending)|
    {
      queuedPosition := queue.Enqueue(id, input, now);
      Tickle(now, issued + {id});
    }

    /** `advance` from its start to its first suspension. */
    method Advance(now: int, ghost issued: set<string>)
      requires scheduled > 0
      modifies this, queue
      ensures View(now, issued) == Step(old(View(now, issued)), AdvanceTurn)
    {
      scheduled := scheduled - 1;
      if busy {
        return;
      }
      var claimed := queue.ClaimNext(now);
      if claimed.None? {
        return;
      }
      busy := true;
      work := Some(Work(claimed.value, behavior.updates));
    }

    /** One turn of the loop in `simulateWork`. */
    method PublishUpdate(ghost now: int, ghost issued: set<string>)
      requires work.Some? && work.value.updates != []
      modifies this, queue
      ensures View(now, issued) == Step(old(View(now, issued)), ProgressTurn)
    {
      var w := work.value;
      queue.UpdatePartial(w.id, w.updates[0]);
      work := Some(Work(w.id, w.updates[1..]));
    }

    /** `advance` from its resumption to its end. */
    method CompleteAdvance(now: int, ghost issued: set<string>)
      requires work.Some? && work.value.updates == [] && BehaviorOk(behavior)
      modifies this, queue
      ensures View(now, issued) == Step(old(View(now, issued)), FinishTurn)
    {
      var id := work.value.id;
      var effective := if id in queue.records && queue.records[id].cancelRequested then Cancelled else behavior.outcome;
      var reply;
      if effective == Complete {
        reply := queue.MarkComplete(id, StubReport(id, effective), now);
      } else if effective == Failed {
        reply := queue.MarkFailed(id, RuntimeError("<stub: failed>"), StubReport(id, effective), now);
      } else {
        reply := queue.MarkCancelled(id, StubReport(id, effective), now);
      }
      work := None;
      busy := false;
      if reply == Marked {
        Tickle(now, issued);
      }
    }
  }
}
