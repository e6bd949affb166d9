/** Approvals that wait for the user: each promise settles once, whoever gets there first. */
module PendingApprovals {
  import opened Common

  datatype Decision = Approve | Deny | ApproveSession

  datatype Reason = TimedOut | Shutdown | ExtensionReconnected | WorkspaceDeregistered

  /** One call of a promise's `resolve` or `reject`. */
  datatype Settlement = Resolved(decision: Decision) | Rejected(reason: Reason)

  /** `pending` maps a delegation to its workspace; `calls` are the settlements of every promise handed out. */
  datatype Registry = Registry(
    pending: map<string, string>,
    timers: set<string>,
    stopped: bool,
    calls: map<string, seq<Settlement>>)

  const EMPTY_REGISTRY := Registry(map[], {}, false, map[])

  // ---------------------------------------------------------------- specification

  function Register(r: Registry, id: string, ws: string): Registry {
    if r.stopped then r.(calls := r.calls[id := [Rejected(Shutdown)]])
    else r.(pending := r.pending[id := ws], timers := r.timers + {id}, calls := r.calls[id := []])
  }

  /** The pending approvals among `ids` settle with `s`; the others are not affected. */
  function SettleAll(r: Registry, ids: set<string>, s: Settlement): Registry {
    r.(pending := r.pending - ids,
       timers := r.timers - (ids * r.pending.Keys),
       calls := map id | id in r.calls :: if id in ids && id in r.pending then r.calls[id] + [s] else r.calls[id])
  }

  function Settle(r: Registry, id: string, s: Settlement): Registry {
    SettleAll(r, {id}, s)
  }

  /** The timer callback: the timer is spent whether or not the approval is still pending. */
  function TimerFires(r: Registry, id: string): Registry {
    Settle(r, id, Rejected(TimedOut)).(timers := r.timers - {id})
  }

  function IdsOf(r: Registry, ws: string): set<string> {
    set id | id in r.pending && r.pending[id] == ws
  }

  function StopAll(r: Registry): Registry {
    SettleAll(r, r.pending.Keys, Rejected(Shutdown)).(stopped := true)
  }

  // ------------------------------------------------------------ runs and invariant

  datatype Event =
    | ERegister(id: string, ws: string)
    | EResolve(id: string, decision: Decision)
    | ETimer(id: string)
    | ECancel(id: string, reason: Reason)
    | ECancelWorkspace(ws: string, reason: Reason)
    | EStop
    | EIdle

  /** Delegation ids are never reused, and a timer fires only while it is armed. */
  predicate Allowed(r: Registry, e: Event) {
    match e
    case ERegister(id, _) => id !in r.calls
    case ETimer(id) => id in r.timers
    case _ => true
  }

  function Step(r: Registry, e: Event): Registry {
    match e
    case ERegister(id, ws) => Register(r, id, ws)
    case EResolve(id, decision) => Settle(r, id, Resolved(decision))
    case ETimer(id) => TimerFires(r, id)
    case ECancel(id, reason) => Settle(r, id, Rejected(reason))
    case ECancelWorkspace(ws, reason) => SettleAll(r, IdsOf(r, ws), Rejected(reason))
    case EStop => StopAll(r)
    case EIdle => r
  }

  ghost predicate Valid(r: Registry) {
    && r.timers == r.pending.Keys
    && r.pending.Keys <= r.calls.Keys
    && (forall id :: id in r.calls ==> |r.calls[id]| == if id in r.pending then 0 else 1)
    && (r.stopped ==> r.pending == map[])
  }

  ghost predicate IsRun(rs: seq<Registry>, es: seq<Event>) {
    && |rs| == |es| + 1
    && rs[0] == EMPTY_REGISTRY
    && forall i :: 0 <= i < |es| ==> Allowed(rs[i], es[i]) && rs[i + 1] == Step(rs[i], es[i])
  }

  lemma SettleAllKeepsValid(r: Registry, ids: set<string>, s: Settlement)
    requires Valid(r)
    ensures Valid(SettleAll(r, ids, s))
  {
  }

  lemma StepKeepsValid(r: Registry, e: Event)
    requires Valid(r) && Allowed(r, e)
    ensures Valid(Step(r, e))
  {
  }

  lemma {:induction false} ValidAt(rs: seq<Registry>, es: seq<Event>, n: nat)
    requires IsRun(rs, es) && n <= |es|
    ensures Valid(rs[n])
  {
    hide Step;
    if n > 0 {
      ValidAt(rs, es, n - 1);
      StepKeepsValid(rs[n - 1], es[n - 1]);
    }
  }

  /** A settled promise stays settled the same way, and a promise that was handed out stays known. */
  lemma SettledStep(r: Registry, e: Event, id: string)
    requires Valid(r) && Allowed(r, e) && id in r.calls
    ensures id in Step(r, e).calls
    ensures id !in r.pending ==> id !in Step(r, e).pending && Step(r, e).calls[id] == r.calls[id]
  {
  }

  lemma {:induction false} SettledStays(rs: seq<Registry>, es: seq<Event>, i: nat, j: nat, id: string)
    requires IsRun(rs, es) && i <= j <= |es| && id in rs[i].calls
    ensures id in rs[j].calls
    ensures id !in rs[i].pending ==> id !in rs[j].pending && rs[j].calls[id] == rs[i].calls[id]
    decreases j
  {
    hide Step, Valid;
    if i < j {
      SettledStays(rs, es, i, j - 1, id);
      ValidAt(rs, es, j - 1);
      SettledStep(rs[j - 1], es[j - 1], id);
    }
  }

  /**
   * Exactly once: a promise has been settled once if its approval is no longer pending
   * and not at all while it is, and its timer is armed exactly as long as it is pending.
   */
  lemma SettlesExactlyOnce(rs: seq<Registry>, es: seq<Event>, i: nat, n: nat, id: string)
    requires IsRun(rs, es) && i < n <= |es| && es[i].ERegister? && es[i].id == id
    ensures id in rs[n].calls
    ensures |rs[n].calls[id]| == if id in rs[n].pending then 0 else 1
    ensures id in rs[n].timers <==> id in rs[n].pending
  {
    assert id in rs[i + 1].calls;
    SettledStays(rs, es, i + 1, n, id);
    ValidAt(rs, es, n);
  }

  /** A promise resolved with a decision got it from an answer that found the approval pending. */
  lemma {:induction false} ResolvedByAnswer(
    rs: seq<Registry>, es: seq<Event>, n: nat, id: string, decision: Decision) returns (m: nat)
    requires IsRun(rs, es) && n <= |es|
    requires id in rs[n].calls && rs[n].calls[id] == [Resolved(decision)]
    ensures m < n && es[m] == EResolve(id, decision) && id in rs[m].pending
  {
    assert n > 0;
    ValidAt(rs, es, n - 1);
    AnswerStep(rs[n - 1], es[n - 1], id, decision);
    if id in rs[n - 1].calls && rs[n - 1].calls[id] == [Resolved(decision)] {
      m := ResolvedByAnswer(rs, es, n - 1, id, decision);
    } else {
      m := n - 1;
    }
  }

  lemma AnswerStep(r: Registry, e: Event, id: string, decision: Decision)
    requires Valid(r) && Allowed(r, e)
    requires id in Step(r, e).calls && Step(r, e).calls[id] == [Resolved(decision)]
    ensures (id in r.calls && r.calls[id] == [Resolved(decision)]) || (e == EResolve(id, decision) && id in r.pending)
  {
    assert Step(r, e).calls[id][0] == Resolved(decision);
  }

  lemma StoppedStep(r: Registry, e: Event)
    requires Valid(r) && Allowed(r, e) && r.stopped
    ensures Step(r, e).stopped && Step(r, e).pending == map[] && Step(r, e).timers == {}
  {
  }

  /** After `stop` the table is empty forever. */
  lemma {:induction false} EmptyAfterStop(rs: seq<Registry>, es: seq<Event>, i: nat, n: nat)
    requires IsRun(rs, es) && i < n <= |es| && es[i] == EStop
    ensures rs[n].stopped && rs[n].pending == map[] && rs[n].timers == {}
    decreases n
  {
    ValidAt(rs, es, n - 1);
    if n == i + 1 {
      assert rs[n] == StopAll(rs[i]);
    } else {
      EmptyAfterStop(rs, es, i, n - 1);
      StoppedStep(rs[n - 1], es[n - 1]);
    }
  }

  // ------------------------------------------------- what ends an approval, and how

  /** How an event settles the approval `id` of workspace `ws` if that is pending. */
  function EndingOf(e: Event, id: string, ws: string): Option<Settlement> {
    match e
    case EResolve(i, decision) => if i == id then Some(Resolved(decision)) else None
    case ETimer(i) => if i == id then Some(Rejected(TimedOut)) else None
    case ECancel(i, reason) => if i == id then Some(Rejected(reason)) else None
    case ECancelWorkspace(w, reason) => if w == ws then Some(Rejected(reason)) else None
    case EStop => Some(Rejected(Shutdown))
    case _ => None
  }

  lemma {:induction false} StoppedIff(rs: seq<Registry>, es: seq<Event>, n: nat)
    requires IsRun(rs, es) && n <= |es|
    ensures rs[n].stopped <==> exists m :: 0 <= m < n && es[m] == EStop
  {
    if n > 0 {
      StoppedIff(rs, es, n - 1);
    }
  }

  lemma EndingStep(r: Registry, e: Event, id: string)
    requires Valid(r) && Allowed(r, e) && id in r.pending
    ensures var s := EndingOf(e, id, r.pending[id]);
            && id in Step(r, e).calls
            && (id in Step(r, e).pending <==> s.None?)
            && (s.None? ==> Step(r, e).pending[id] == r.pending[id])
            && (s.Some? ==> Step(r, e).calls[id] == [s.value])
  {
  }

  /** An approval is pending exactly as long as none of the events that end it has happened. */
  lemma {:induction false} PendingIffNotEnded(rs: seq<Registry>, es: seq<Event>, i: nat, n: nat, id: string)
    requires IsRun(rs, es) && i < n <= |es| && es[i].ERegister? && es[i].id == id
    ensures id in rs[n].pending <==>
              !rs[i].stopped && forall m :: i < m < n ==> EndingOf(es[m], id, es[i].ws).None?
    ensures id in rs[n].pending ==> rs[n].pending[id] == es[i].ws
    decreases n
  {
    hide Step, Valid, EndingOf;
    ValidAt(rs, es, i);
    RegisterStep(rs[i], id, es[i].ws);
    assert rs[i + 1] == Step(rs[i], es[i]);
    if i + 1 < n {
      PendingIffNotEnded(rs, es, i, n - 1, id);
      ValidAt(rs, es, n - 1);
      SettledStays(rs, es, i + 1, n - 1, id);
      if id in rs[n - 1].pending {
        EndingStep(rs[n - 1], es[n - 1], id);
      } else {
        SettledStep(rs[n - 1], es[n - 1], id);
      }
    }
  }

  lemma RegisterStep(r: Registry, id: string, ws: string)
    requires Valid(r) && id !in r.calls
    ensures var r' := Step(r, ERegister(id, ws));
            && id in r'.calls
            && (if r.stopped then id !in r'.pending && r'.calls[id] == [Rejected(Shutdown)]
                else id in r'.pending && r'.pending[id] == ws && r'.calls[id] == [])
  {
  }

  /**
   * The first event that ends an approval settles it for good, in its own way: an answer
   * with the decision, a timeout, a cancellation of it or of its workspace with the
   * reason, a stop. Registered after a stop it is rejected at once.
   */
  lemma SettledByFirstEnding(rs: seq<Registry>, es: seq<Event>, i: nat, m: nat, n: nat, id: string)
    requires IsRun(rs, es) && i < n <= |es| && es[i].ERegister? && es[i].id == id
    ensures rs[i].stopped ==> id in rs[n].calls && rs[n].calls[id] == [Rejected(Shutdown)]
    ensures !rs[i].stopped && i < m < n && EndingOf(es[m], id, es[i].ws).Some?
            && (forall k :: i < k < m ==> EndingOf(es[k], id, es[i].ws).None?) ==>
              id in rs[n].calls && rs[n].calls[id] == [EndingOf(es[m], id, es[i].ws).value]
  {
    hide Step, Valid, EndingOf;
    ValidAt(rs, es, i);
    RegisterStep(rs[i], id, es[i].ws);
    assert rs[i + 1] == Step(rs[i], es[i]);
    SettledStays(rs, es, i + 1, n, id);
    if && !rs[i].stopped && i < m < n && EndingOf(es[m], id, es[i].ws).Some?
       && forall k :: i < k < m ==> EndingOf(es[k], id, es[i].ws).None? {
      PendingIffNotEnded(rs, es, i, m, id);
      ValidAt(rs, es, m);
      EndingStep(rs[m], es[m], id);
      SettledStays(rs, es, m + 1, n, id);
    }
  }

  // --------------------------------------------------------------- implementation

  class PendingApprovalRegistry {
    var pending: map<string, string>
    var timers: set<string>
    var stopped: bool
    ghost var calls: map<string, seq<Settlement>>

    ghost function View(): Registry
      reads this
    {
      Registry(pending, timers, stopped, calls)
    }

    constructor ()
      ensures View() == EMPTY_REGISTRY
    {
      pending, timers, stopped, calls := map[], {}, false, map[];
    }

    method AwaitApproval(id: string, ws: string)
      requires id !in calls
      modifies this
      ensures View() == Register(old(View()), id, ws)
    {
      if stopped {
        calls := calls[id := [Rejected(Shutdown)]];
        return;
      }
      timers := timers + {id};
      pending := pending[id := ws];
      calls := calls[id := []];
    }

    /** Takes the entry out, clears its timer and settles its promise. */
    method SettleOne(id: string, s: Settlement)
      requires Valid(View())
      modifies this
      ensures View() == Settle(old(View()), id, s) && Valid(View())
    {
      SettleAllKeepsValid(View(), {id}, s);
      if id !in pending {
        return;
      }
      pending := pending - {id};
      timers := timers - {id};
      calls := calls[id := calls[id] + [s]];
    }

    method Resolve(id: string, decision: Decision)
      requires Valid(View())
      modifies this
      ensures View() == Settle(old(View()), id, Resolved(decision)) && Valid(View())
    {
      SettleOne(id, Resolved(decision));
    }

    method TimerFired(id: string)
      requires Valid(View()) && id in timers
      modifies this
      ensures View() == TimerFires(old(View()), id) && Valid(View())
    {
      StepKeepsValid(View(), ETimer(id));
      timers := timers - {id};
      if id !in pending {
        return;
      }
      pending := pending - {id};
      calls := calls[id := calls[id] + [Rejected(TimedOut)]];
    }

    method Cancel(id: string, reason: Reason)
      requires Valid(View())
      modifies this
      ensures View() == Settle(old(View()), id, Rejected(reason)) && Valid(View())
    {
      SettleOne(id, Rejected(reason));
    }

    /** Collect first, then cancel one by one. */
    method CancelByWorkspace(ws: string, reason: Reason)
      requires Valid(View())
      modifies this
      ensures View() == SettleAll(old(View()), IdsOf(old(View()), ws), Rejected(reason)) && Valid(View())
    {
      var ids := set id | id in pending && pending[id] == ws;
      CancelEach(ids, Rejected(reason));
    }

    method Stop()
      requires Valid(View())
      modifies this
      ensures View() == StopAll(old(View())) && Valid(View())
    {
      var ids := pending.Keys;
      CancelEach(ids, Rejected(Shutdown));
      stopped := true;
    }

    method CancelEach(ids: set<string>, s: Settlement)
      requires Valid(View())
      modifies this
      ensures View() == SettleAll(old(View()), ids, s) && Valid(View())
    {
      var todo := ids;
      ghost var done: set<string> := {};
      assert View() == SettleAll(old(View()), done, s);
      while todo != {}
        invariant done + todo == ids && done !! todo
        invariant View() == SettleAll(old(View()), done, s) && Valid(View())
        decreases todo
      {
        var id :| id in todo;
        todo := todo - {id};
        OneMore(old(View()), done, id, s);
        done := done + {id};
        SettleOne(id, s);
      }
      assert done == ids;
    }
  }

  lemma OneMore(r: Registry, done: set<string>, id: string, s: Settlement)
    requires id !in done
    ensures Settle(SettleAll(r, done, s), id, s) == SettleAll(r, done + {id}, s)
  {
  }
}
