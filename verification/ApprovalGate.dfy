/**
 * The approval gate in front of every delegation: a granularity clamped under the
 * operator's ceiling, a session bypass kept as a set of concatenated keys, and a
 * prompt whose answer may arrive, time out, be cancelled, or never be delivered.
 */
module ApprovalGate {
  import opened Common
  import P = PendingApprovals
  import opened TokenStore
  import I = WorkspaceIdentifier

  datatype Mode = ModeAuto | ModePerCall | ModeSessionBypass

  /** How the call resolved: the decision it returned, or the rejection it threw. */
  datatype Outcome = Returned(decision: P.Decision) | Threw(reason: P.Reason)

  datatype Way = ByAuto | ByBypass | ByPrompt

  /** One call of `awaitApprovalForDelegation`; `sent` once the prompt was delivered. */
  datatype Request = Request(
    session: Option<string>, ws: string, granularity: Granularity, way: Way, sent: bool, outcome: Option<Outcome>)

  datatype Gate = Gate(registry: P.Registry, bypassed: set<string>, requests: map<string, Request>)

  const EMPTY_GATE := Gate(P.EMPTY_REGISTRY, {}, map[])

  // ------------------------------------------------------------ the clamp

  function Caution(g: Granularity): int {
    match g
    case PerCall => 2
    case Task => 1
    case Auto => 0
  }

  function MoreCautious(a: Granularity, b: Granularity): Granularity {
    if Caution(a) >= Caution(b) then a else b
  }

  /**
   * `binding` is the token's default granularity if the caller presented a bound token,
   * `mode` the stored mode of the workspace, used only when there is no binding.
   */
  function ResolveGranularity(
    call: Option<Granularity>, binding: Option<Option<Granularity>>, mode: Option<Mode>): Granularity
  {
    if binding.Some? then
      var ceiling := if binding.value.Some? then binding.value.value else PerCall;
      if call.None? then ceiling else MoreCautious(ceiling, call.value)
    else if call.Some? then call.value
    else if mode == Some(ModeAuto) then Auto
    else PerCall
  }

  /** For a bound token the result is the least cautious value at least as cautious as ceiling and call. */
  lemma ClampNeverLoosens(call: Option<Granularity>, default: Option<Granularity>, mode: Option<Mode>)
    ensures var g := ResolveGranularity(call, Some(default), mode);
            var ceiling := if default.Some? then default.value else PerCall;
            && Caution(g) >= Caution(ceiling)
            && (call.Some? ==> Caution(g) >= Caution(call.value))
            && (forall h :: Caution(h) >= Caution(ceiling) && (call.Some? ==> Caution(h) >= Caution(call.value)) ==>
                  Caution(h) >= Caution(g))
    ensures ResolveGranularity(call, Some(default), mode) == Auto <==>
              default == Some(Auto) && (call.Some? ==> call.value == Auto)
  {
  }

  /**
   * The whole table. A bound token: `per_call` as soon as ceiling or request ask for it,
   * an absent ceiling included, `auto` only if neither asks for more. No binding: the
   * request, else the workspace's own mode, where a session bypass counts as `per_call`.
   */
  lemma GranularityTable(call: Option<Granularity>, default: Option<Granularity>, mode: Option<Mode>)
    ensures ResolveGranularity(call, Some(default), mode) == PerCall <==>
              default == None || default == Some(PerCall) || call == Some(PerCall)
    ensures ResolveGranularity(call, Some(default), mode) == Auto <==>
              default == Some(Auto) && (call == None || call == Some(Auto))
    ensures call.Some? ==> ResolveGranularity(call, None, mode) == call.value
    ensures call.None? ==>
              ResolveGranularity(call, None, mode) == if mode == Some(ModeAuto) then Auto else PerCall
  {
  }

  // ------------------------------------------------------------ bypass keys

  function SessionPart(session: Option<string>): string {
    if session.Some? then session.value else ""
  }

  function BypassKey(session: Option<string>, ws: string): string {
    SessionPart(session) + "::" + ws
  }

  predicate EndsWith(s: string, suffix: string) {
    |suffix| <= |s| && s[|s| - |suffix|..] == suffix
  }

  predicate ColonFree(s: string) {
    ':' !in s
  }

  lemma SuffixChar(s: string, suffix: string, i: nat)
    requires EndsWith(s, suffix) && i < |suffix|
    ensures s[|s| - |suffix| + i] == suffix[i]
  {
  }

  /** Where two workspaces can differ although one's suffix ends the other's key: only at a colon. */
  lemma SuffixMeetsKey(session: Option<string>, v: string, w: string)
    requires EndsWith(BypassKey(session, v), "::" + w)
    ensures |w| < |v| ==> v[|v| - |w| - 1] == ':'
    ensures |w| > |v| ==> w[|w| - |v| - 1] == ':'
    ensures |w| == |v| ==> v == w
  {
    var key, suffix := BypassKey(session, v), "::" + w;
    if |w| < |v| {
      SuffixChar(key, suffix, 1);
    } else if |w| > |v| {
      SuffixChar(key, suffix, |suffix| - |v| - 1);
    } else {
      forall i | 0 <= i < |w| ensures w[i] == v[i] {
        SuffixChar(key, suffix, i + 2);
      }
    }
  }

  /** For identifiers without a colon, the suffix test picks out exactly the keys of the workspace. */
  lemma ClearedIffSameWorkspace(session: Option<string>, v: string, w: string)
    requires ColonFree(v) && ColonFree(w)
    ensures EndsWith(BypassKey(session, v), "::" + w) <==> v == w
  {
    if EndsWith(BypassKey(session, v), "::" + w) {
      SuffixMeetsKey(session, v, w);
    }
    if v == w {
      assert BypassKey(session, v) == SessionPart(session) + ("::" + w);
    }
  }

  /**
   * Exactly when cancelling `w` clears a bypass of another workspace `v`: `v` ends with
   * a colon and `w`, or `w` ends with `v` and the session with what `w` has before it.
   */
  lemma ClearsOtherIff(session: Option<string>, v: string, w: string)
    requires v != w
    ensures EndsWith(BypassKey(session, v), "::" + w) <==>
      || EndsWith(":" + v, "::" + w)
      || (|v| < |w| && EndsWith(w, v) && EndsWith(SessionPart(session) + "::", "::" + w[..|w| - |v|]))
  {
    var start := SessionPart(session) + "::";
    assert BypassKey(session, v) == start + v;
    if |w| < |v| {
      assert start + v == (SessionPart(session) + ":") + (":" + v);
      EndsWithin(SessionPart(session) + ":", ":" + v, "::" + w);
    } else if |v| < |w| {
      var y := w[..|w| - |v|];
      assert w == y + w[|y|..];
      assert "::" + w == ("::" + y) + w[|y|..];
      EndsTogether(start, v, "::" + y, w[|y|..]);
    } else {
      assert "::" + w == "::" + w;
      EndsTogether(start, v, "::", w);
    }
  }

  lemma EndsWithin(a: string, b: string, suffix: string)
    requires |suffix| <= |b|
    ensures EndsWith(a + b, suffix) <==> EndsWith(b, suffix)
  {
    assert (a + b)[|a + b| - |suffix|..] == b[|b| - |suffix|..];
  }

  lemma EndsTogether(a: string, b: string, x: string, y: string)
    requires |b| == |y|
    ensures EndsWith(a + b, x + y) <==> EndsWith(a, x) && b == y
  {
    if |x| <= |a| {
      var tail := (a + b)[|a + b| - |x + y|..];
      assert tail == a[|a| - |x|..] + b;
      assert tail[..|x|] == a[|a| - |x|..] && tail[|x|..] == b;
      assert (x + y)[..|x|] == x && (x + y)[|x|..] == y;
    }
  }

  /**
   * With a colon in an identifier, cancelling one workspace can clear the bypass of
   * another. No identifier is generated with one, but the schema of the workspaces file
   * takes any identifier that is not empty, so an edited file can have it.
   */
  lemma ColonIdentifiersCollide()
    ensures "a::b" != "b" && EndsWith(BypassKey(Some("s"), "a::b"), "::b")
  {
  }

  /** A caller without a session and one with an empty session id are the same to the gate. */
  predicate SameSession(s: Option<string>, t: Option<string>) {
    s == t || (s == None && t == Some("")) || (s == Some("") && t == None)
  }

  /** Keys of colon-free workspaces agree only for the same workspace and session. */
  lemma KeyInjective(s: Option<string>, v: string, t: Option<string>, w: string)
    requires ColonFree(v) && ColonFree(w)
    ensures BypassKey(s, v) == BypassKey(t, w) <==> v == w && SameSession(s, t)
  {
    if BypassKey(s, v) == BypassKey(t, w) {
      ClearedIffSameWorkspace(t, w, w);
      ClearedIffSameWorkspace(s, v, w);
      var key := BypassKey(s, v);
      assert key[..|key| - |v| - 2] == SessionPart(s);
      assert key[..|key| - |w| - 2] == SessionPart(t);
    }
  }

  // ------------------------------------------------------------ steps

  datatype Event =
    | Delegate(id: string, session: Option<string>, ws: string,
               call: Option<Granularity>, binding: Option<Option<Granularity>>, mode: Option<Mode>)
    | SendOk(id: string)
    | SendFails(id: string, own: Option<P.Reason>)
    | Resolve(id: string, decision: P.Decision)
    | Timeout(id: string)
    | Resume(id: string)
    | CancelWorkspace(ws: string, reason: P.Reason)
    | ClearBypass(session: Option<string>, ws: string)
    | StopGate

  predicate Waiting(g: Gate, id: string) {
    id in g.requests && g.requests[id].way == ByPrompt && g.requests[id].outcome.None?
  }

  predicate Allowed(g: Gate, e: Event) {
    match e
    case Delegate(id, _, _, _, _, _) => id !in g.requests && id !in g.registry.calls
    case SendOk(id) => Waiting(g, id) && !g.requests[id].sent
    case SendFails(id, _) => Waiting(g, id) && !g.requests[id].sent
    case Timeout(id) => id in g.registry.timers
    case Resume(id) => Waiting(g, id) && g.requests[id].sent && id in g.registry.calls && g.registry.calls[id] != []
    case _ => true
  }

  function WayFor(g: Gate, granularity: Granularity, key: string): Way {
    if granularity == Auto then ByAuto else if key in g.bypassed then ByBypass else ByPrompt
  }

  /** What an event does to the pending approvals. */
  function RegistryPart(g: Gate, e: Event): P.Event {
    match e
    case Delegate(id, session, ws, call, binding, mode) =>
      if WayFor(g, ResolveGranularity(call, binding, mode), BypassKey(session, ws)) == ByPrompt
      then P.ERegister(id, ws) else P.EIdle
    case SendFails(id, _) => P.ECancel(id, P.ExtensionReconnected)
    case Resolve(id, decision) => P.EResolve(id, decision)
    case Timeout(id) => P.ETimer(id)
    case CancelWorkspace(ws, reason) => P.ECancelWorkspace(ws, reason)
    case StopGate => P.EStop
    case _ => P.EIdle
  }

  predicate Approves(d: P.Decision) {
    d == P.Approve || d == P.ApproveSession
  }

  /** Does an answer to this request open the bypass for its session and workspace? */
  predicate OpensBypass(r: Request, s: P.Settlement) {
    s.Resolved? && Approves(s.decision) && (r.granularity == Task || s.decision == P.ApproveSession)
  }

  function OutcomeOf(s: P.Settlement): Outcome {
    match s
    case Resolved(d) => Returned(d)
    case Rejected(reason) => Threw(reason)
  }

  /** An error that is itself an approval rejection is thrown with its own reason. */
  function DeliveryReason(own: Option<P.Reason>): P.Reason {
    if own.Some? then own.value else P.ExtensionReconnected
  }

  function Cleared(bypassed: set<string>, ws: string): set<string> {
    set key | key in bypassed && !EndsWith(key, "::" + ws)
  }

  /** What an event does to requests and bypass. */
  function GatePart(g: Gate, e: Event): Gate
    requires Allowed(g, e)
  {
    match e
    case Delegate(id, session, ws, call, binding, mode) =>
      var granularity := ResolveGranularity(call, binding, mode);
      var way := WayFor(g, granularity, BypassKey(session, ws));
      g.(requests := g.requests[id := Request(session, ws, granularity, way, false,
                                              if way == ByPrompt then None else Some(Returned(P.Approve)))])
    case SendOk(id) => g.(requests := g.requests[id := g.requests[id].(sent := true)])
    case SendFails(id, own) =>
      g.(requests := g.requests[id := g.requests[id].(outcome := Some(Threw(DeliveryReason(own))))])
    case Resume(id) =>
      var r, s := g.requests[id], g.registry.calls[id][0];
      g.(requests := g.requests[id := r.(outcome := Some(OutcomeOf(s)))],
         bypassed := if OpensBypass(r, s) then g.bypassed + {BypassKey(r.session, r.ws)} else g.bypassed)
    case CancelWorkspace(ws, _) => g.(bypassed := Cleared(g.bypassed, ws))
    case ClearBypass(session, ws) => g.(bypassed := g.bypassed - {BypassKey(session, ws)})
    case _ => g
  }

  function Step(g: Gate, e: Event): Gate
    requires Allowed(g, e)
  {
    GatePart(g, e).(registry := P.Step(g.registry, RegistryPart(g, e)))
  }

  ghost predicate IsRun(gs: seq<Gate>, es: seq<Event>) {
    && |gs| == |es| + 1
    && gs[0] == EMPTY_GATE
    && forall i :: 0 <= i < |es| ==> Allowed(gs[i], es[i]) && gs[i + 1] == Step(gs[i], es[i])
  }

  // ------------------------------------------------------------ over runs

  function Registries(gs: seq<Gate>): (r: seq<P.Registry>)
    ensures |r| == |gs| && forall i :: 0 <= i < |gs| ==> r[i] == gs[i].registry
  {
    seq(|gs|, i requires 0 <= i < |gs| => gs[i].registry)
  }

  function RegistryEvents(gs: seq<Gate>, es: seq<Event>): (r: seq<P.Event>)
    requires |gs| == |es| + 1
    ensures |r| == |es| && forall i :: 0 <= i < |es| ==> r[i] == RegistryPart(gs[i], es[i])
  {
    seq(|es|, i requires 0 <= i < |es| => RegistryPart(gs[i], es[i]))
  }

  /** Seen from the registry, a run of the gate is a run of the registry. */
  lemma RegistryRun(gs: seq<Gate>, es: seq<Event>)
    requires IsRun(gs, es)
    ensures P.IsRun(Registries(gs), RegistryEvents(gs, es))
  {
  }

  /** This step answers request `id` and thereby opens the bypass under `key`. */
  ghost predicate Opens(g: Gate, e: Event, key: string) {
    && e.Resume? && Allowed(g, e)
    && OpensBypass(g.requests[e.id], g.registry.calls[e.id][0])
    && BypassKey(g.requests[e.id].session, g.requests[e.id].ws) == key
  }

  ghost predicate Closes(e: Event, key: string) {
    || (e.CancelWorkspace? && EndsWith(key, "::" + e.ws))
    || (e.ClearBypass? && BypassKey(e.session, e.ws) == key)
  }

  lemma BypassStep(g: Gate, e: Event, key: string)
    requires Allowed(g, e) && key in Step(g, e).bypassed
    ensures key in g.bypassed || Opens(g, e, key)
    ensures !Closes(e, key)
  {
  }

  /** A bypass comes from an earlier answer that opened it, and nothing has closed it since. */
  lemma {:induction false} BypassOrigin(gs: seq<Gate>, es: seq<Event>, n: nat, key: string) returns (m: nat)
    requires IsRun(gs, es) && n <= |es| && key in gs[n].bypassed
    ensures m < n && Opens(gs[m], es[m], key)
    ensures forall k :: m < k < n ==> !Closes(es[k], key)
  {
    hide Step, Opens, Closes;
    assert n > 0;
    BypassStep(gs[n - 1], es[n - 1], key);
    if key in gs[n - 1].bypassed {
      m := BypassOrigin(gs, es, n - 1, key);
    } else {
      m := n - 1;
    }
  }

  /** What a finished or waiting request remembers of how it was let through. */
  ghost predicate RequestOk(g: Gate, id: string)
    requires id in g.requests
  {
    var r := g.requests[id];
    match r.way
    case ByAuto => r.granularity == Auto && r.outcome == Some(Returned(P.Approve))
    case ByBypass => r.granularity != Auto && r.outcome == Some(Returned(P.Approve))
    case ByPrompt =>
      && r.granularity != Auto
      && id in g.registry.calls
      && (r.outcome.Some? ==>
            || (!r.sent && r.outcome.value.Threw?)
            || (r.sent && g.registry.calls[id] != [] && id !in g.registry.pending
                && r.outcome == Some(OutcomeOf(g.registry.calls[id][0]))))
  }

  ghost predicate Valid(g: Gate) {
    P.Valid(g.registry) && forall id :: id in g.requests ==> RequestOk(g, id)
  }

  lemma RegistryAllowed(g: Gate, e: Event)
    requires Allowed(g, e)
    ensures P.Allowed(g.registry, RegistryPart(g, e))
  {
  }

  lemma StepKeepsRequest(g: Gate, e: Event, id: string)
    requires Valid(g) && Allowed(g, e) && id in Step(g, e).requests
    ensures RequestOk(Step(g, e), id)
  {
    RegistryAllowed(g, e);
    if id in g.requests && id in g.registry.calls {
      P.SettledStep(g.registry, RegistryPart(g, e), id);
    }
  }

  lemma StepKeepsValid(g: Gate, e: Event)
    requires Valid(g) && Allowed(g, e)
    ensures Valid(Step(g, e))
  {
    RegistryAllowed(g, e);
    P.StepKeepsValid(g.registry, RegistryPart(g, e));
    forall id | id in Step(g, e).requests
      ensures RequestOk(Step(g, e), id)
    {
      StepKeepsRequest(g, e, id);
    }
  }

  lemma {:induction false} ValidAt(gs: seq<Gate>, es: seq<Event>, n: nat)
    requires IsRun(gs, es) && n <= |es|
    ensures Valid(gs[n])
  {
    if n > 0 {
      hide Step, Valid;
      ValidAt(gs, es, n - 1);
      StepKeepsValid(gs[n - 1], es[n - 1]);
    }
  }

  lemma RequestStep(g: Gate, e: Event, id: string)
    requires Allowed(g, e) && id in Step(g, e).requests
    ensures || (id in g.requests && Step(g, e).requests[id].(sent := false, outcome := None)
                                    == g.requests[id].(sent := false, outcome := None))
            || (e.Delegate? && e.id == id)
  {
  }

  /** `r` is what was recorded when the call `e` was made in `g`, whatever has become of it since. */
  ghost predicate MadeBy(r: Request, g: Gate, e: Event) {
    && e.Delegate? && r.session == e.session && r.ws == e.ws
    && r.granularity == ResolveGranularity(e.call, e.binding, e.mode)
    && r.way == WayFor(g, r.granularity, BypassKey(r.session, r.ws))
  }

  lemma DelegateStep(g: Gate, e: Event)
    requires e.Delegate? && Allowed(g, e)
    ensures e.id in Step(g, e).requests && MadeBy(Step(g, e).requests[e.id], g, e)
  {
  }

  /** A request was made at some step, and its parameters never change. */
  lemma {:induction false} RequestOrigin(gs: seq<Gate>, es: seq<Event>, n: nat, id: string) returns (i: nat)
    requires IsRun(gs, es) && n <= |es| && id in gs[n].requests
    ensures i < n && es[i].Delegate? && es[i].id == id && MadeBy(gs[n].requests[id], gs[i], es[i])
  {
    hide Step;
    assert n > 0;
    RequestStep(gs[n - 1], es[n - 1], id);
    if es[n - 1].Delegate? && es[n - 1].id == id {
      i := n - 1;
      DelegateStep(gs[i], es[i]);
    } else {
      i := RequestOrigin(gs, es, n - 1, id);
    }
  }

  /** Somebody answered this very request, before step `n`, while it was pending. */
  ghost predicate Answered(gs: seq<Gate>, es: seq<Event>, n: nat, id: string, d: P.Decision)
    requires |gs| == |es| + 1 && n <= |es|
  {
    exists m :: 0 <= m < n && es[m] == Resolve(id, d) && id in gs[m].registry.pending
  }

  /** The answer at step `m` opened the bypass for session and workspace, and until `i` nothing closed it. */
  ghost predicate OpenSince(gs: seq<Gate>, es: seq<Event>, m: nat, i: nat, session: Option<string>, ws: string)
    requires |gs| == |es| + 1 && i <= |es|
  {
    && m < i && Opens(gs[m], es[m], BypassKey(session, ws))
    && forall k :: m < k < i ==> !Closes(es[k], BypassKey(session, ws))
  }

  /**
   * The answer at step `m` was to a request of step `i` for which it opens a bypass: an
   * approval for the session, or a plain one if the call had resolved to `task`.
   */
  ghost predicate AnswerOpens(gs: seq<Gate>, es: seq<Event>, i: nat, m: nat)
    requires |gs| == |es| + 1 && i < m < |es|
  {
    && es[i].Delegate? && es[m].Resume? && es[i].id == es[m].id
    && (|| Answered(gs, es, m, es[m].id, P.ApproveSession)
        || (Answered(gs, es, m, es[m].id, P.Approve)
            && ResolveGranularity(es[i].call, es[i].binding, es[i].mode) == Task))
  }

  /** A request that may open a bypass did; colon-free identifiers make it one for this workspace and session. */
  ghost predicate OpenedByApproval(gs: seq<Gate>, es: seq<Event>, m: nat, session: Option<string>, ws: string)
    requires |gs| == |es| + 1 && m < |es|
  {
    exists i :: 0 <= i < m && AnswerOpens(gs, es, i, m)
      && (ColonFree(ws) && ColonFree(es[i].ws) ==>
            es[i].ws == ws && SameSession(es[i].session, session))
  }

  lemma AnsweredInRegistry(gs: seq<Gate>, es: seq<Event>, n: nat, id: string, d: P.Decision)
    requires IsRun(gs, es) && n <= |es|
    requires id in gs[n].registry.calls && gs[n].registry.calls[id] == [P.Resolved(d)]
    ensures Answered(gs, es, n, id, d)
  {
    RegistryRun(gs, es);
    var m := P.ResolvedByAnswer(Registries(gs), RegistryEvents(gs, es), n, id, d);
    assert es[m] == Resolve(id, d);
  }

  /** An answer that found its request pending is the one settlement of it. */
  lemma AnswerIsRecorded(gs: seq<Gate>, es: seq<Event>, n: nat, id: string, d: P.Decision)
    requires IsRun(gs, es) && n <= |es| && Answered(gs, es, n, id, d)
    ensures id in gs[n].registry.calls && gs[n].registry.calls[id] == [P.Resolved(d)]
  {
    RegistryRun(gs, es);
    var rs, ps := Registries(gs), RegistryEvents(gs, es);
    var m :| 0 <= m < n && es[m] == Resolve(id, d) && id in gs[m].registry.pending;
    P.ValidAt(rs, ps, m);
    P.EndingStep(rs[m], ps[m], id);
    P.SettledStays(rs, ps, m + 1, n, id);
  }

  lemma KeptStep(g: Gate, e: Event, id: string)
    requires Allowed(g, e) && id in g.requests
    ensures id in Step(g, e).requests
    ensures Step(g, e).requests[id].(sent := false, outcome := None) == g.requests[id].(sent := false, outcome := None)
  {
  }

  /** A call is recorded for good. */
  lemma {:induction false} RequestStays(gs: seq<Gate>, es: seq<Event>, i: nat, n: nat)
    requires IsRun(gs, es) && i < n <= |es| && es[i].Delegate?
    ensures es[i].id in gs[n].requests && MadeBy(gs[n].requests[es[i].id], gs[i], es[i])
    decreases n
  {
    hide Step;
    if i + 1 == n {
      DelegateStep(gs[i], es[i]);
    } else {
      RequestStays(gs, es, i, n - 1);
      KeptStep(gs[n - 1], es[n - 1], es[i].id);
    }
  }

  /** Whether the answer taken up at step `m` opens the bypass of its request. */
  lemma OpensIffAnswerOpens(gs: seq<Gate>, es: seq<Event>, i: nat, m: nat)
    requires IsRun(gs, es) && i < m < |es| && es[i].Delegate? && es[m].Resume? && es[i].id == es[m].id
    ensures Opens(gs[m], es[m], BypassKey(es[i].session, es[i].ws)) <==> AnswerOpens(gs, es, i, m)
  {
    hide Step, RequestOk;
    var id := es[m].id;
    RequestStays(gs, es, i, m);
    ValidAt(gs, es, m);
    var s := gs[m].registry.calls[id][0];
    assert gs[m].registry.calls[id] == [s];
    if s.Resolved? {
      AnsweredInRegistry(gs, es, m, id, s.decision);
    }
    forall d | Answered(gs, es, m, id, d)
      ensures s == P.Resolved(d)
    {
      AnswerIsRecorded(gs, es, m, id, d);
    }
  }

  ghost predicate AnswerOpensKey(gs: seq<Gate>, es: seq<Event>, i: nat, m: nat, key: string)
    requires |gs| == |es| + 1 && i < m < |es|
  {
    AnswerOpens(gs, es, i, m) && BypassKey(es[i].session, es[i].ws) == key
  }

  /**
   * A key is newly in the set exactly when a request with that key is answered with an
   * approval for the session, or with a plain one after its call had resolved to `task`.
   */
  lemma BypassOpenedIff(gs: seq<Gate>, es: seq<Event>, m: nat, key: string)
    requires IsRun(gs, es) && m < |es| && key !in gs[m].bypassed
    ensures key in gs[m + 1].bypassed <==> exists i :: 0 <= i < m && AnswerOpensKey(gs, es, i, m, key)
  {
    hide Step, Opens, OpensBypass;
    assert gs[m + 1] == Step(gs[m], es[m]);
    if key in gs[m + 1].bypassed {
      BypassStep(gs[m], es[m], key);
      OpensIsResume(gs[m], es[m], key);
      var i := RequestOrigin(gs, es, m, es[m].id);
      OpensIffAnswerOpens(gs, es, i, m);
      assert AnswerOpensKey(gs, es, i, m, key);
    }
    if i :| 0 <= i < m && AnswerOpensKey(gs, es, i, m, key) {
      OpensIffAnswerOpens(gs, es, i, m);
      OpensStep(gs[m], es[m], key);
    }
  }

  lemma OpensIsResume(g: Gate, e: Event, key: string)
    requires Opens(g, e, key)
    ensures e.Resume? && e.id in g.requests
    ensures key == BypassKey(g.requests[e.id].session, g.requests[e.id].ws)
  {
  }

  lemma OpensStep(g: Gate, e: Event, key: string)
    requires Opens(g, e, key)
    ensures key in Step(g, e).bypassed
  {
  }

  lemma StaysOpenStep(g: Gate, e: Event, key: string)
    requires Allowed(g, e) && key in g.bypassed && !Closes(e, key)
    ensures key in Step(g, e).bypassed
  {
  }

  /** An open bypass stays open until it is cleared or its workspace is cancelled. */
  lemma {:induction false} BypassStays(gs: seq<Gate>, es: seq<Event>, m: nat, n: nat, key: string)
    requires IsRun(gs, es) && m <= n <= |es| && key in gs[m].bypassed
    requires forall k :: m <= k < n ==> !Closes(es[k], key)
    ensures key in gs[n].bypassed
    decreases n
  {
    hide Step, Closes;
    if m < n {
      BypassStays(gs, es, m, n - 1, key);
      StaysOpenStep(gs[n - 1], es[n - 1], key);
    }
  }

  /** A call is answered at once exactly if it resolves to `auto` or finds the bypass open; any other waits. */
  lemma AnsweredAtOnceIff(gs: seq<Gate>, es: seq<Event>, i: nat)
    requires IsRun(gs, es) && i < |es| && es[i].Delegate?
    ensures es[i].id in gs[i + 1].requests
    ensures gs[i + 1].requests[es[i].id].outcome ==
              if || ResolveGranularity(es[i].call, es[i].binding, es[i].mode) == Auto
                 || BypassKey(es[i].session, es[i].ws) in gs[i].bypassed
              then Some(Returned(P.Approve)) else None
    ensures gs[i + 1].requests[es[i].id].outcome.None? ==>
              P.Step(gs[i].registry, P.ERegister(es[i].id, es[i].ws)) == gs[i + 1].registry
    ensures gs[i + 1].requests[es[i].id].outcome.Some? ==> gs[i + 1].registry == gs[i].registry
  {
    assert gs[i + 1] == Step(gs[i], es[i]);
  }

  lemma DeliveryStep(g: Gate, e: Event, id: string)
    requires Allowed(g, e) && id in Step(g, e).requests
    ensures Step(g, e).requests[id].sent <==> e == SendOk(id) || (id in g.requests && g.requests[id].sent)
  {
  }

  /** A prompt counts as delivered exactly after it has been; only then can its call go on. */
  lemma {:induction false} DeliveredIff(gs: seq<Gate>, es: seq<Event>, n: nat, id: string)
    requires IsRun(gs, es) && n <= |es| && id in gs[n].requests
    ensures gs[n].requests[id].sent <==> SendOk(id) in es[..n]
    ensures n < |es| && es[n] == Resume(id) ==> SendOk(id) in es[..n]
  {
    hide Step;
    assert n > 0 && es[..n] == es[..n - 1] + [es[n - 1]];
    DeliveryStep(gs[n - 1], es[n - 1], id);
    if id in gs[n - 1].requests {
      DeliveredIff(gs, es, n - 1, id);
    } else {
      NotSentBefore(gs, es, n - 1, id);
    }
  }

  lemma {:induction false} NotSentBefore(gs: seq<Gate>, es: seq<Event>, n: nat, id: string)
    requires IsRun(gs, es) && n <= |es| && id !in gs[n].requests
    ensures SendOk(id) !in es[..n]
  {
    if n > 0 {
      assert es[..n] == es[..n - 1] + [es[n - 1]];
      NotSentBefore(gs, es, n - 1, id);
    }
  }

  /** What the registry is told of each event. */
  lemma RegistryHears(gs: seq<Gate>, es: seq<Event>, m: nat)
    requires IsRun(gs, es) && m < |es|
    ensures var r, r' := gs[m].registry, gs[m + 1].registry;
            match es[m]
            case Resolve(id, d) => r' == P.Step(r, P.EResolve(id, d))
            case Timeout(id) => r' == P.Step(r, P.ETimer(id))
            case SendFails(id, own) =>
              && r' == P.Step(r, P.ECancel(id, P.ExtensionReconnected)) && id in gs[m + 1].requests
              && gs[m + 1].requests[id].outcome ==
                 Some(Threw(if own.Some? then own.value else P.ExtensionReconnected))
            case CancelWorkspace(ws, reason) => r' == P.Step(r, P.ECancelWorkspace(ws, reason))
            case StopGate => r' == P.Step(r, P.EStop)
            case Delegate(_, _, _, _, _, _) => true
            case _ => r' == r
  {
    assert gs[m + 1] == Step(gs[m], es[m]);
  }

  /** A call that waited returns the very answer it was given, and throws the reason it was rejected for. */
  lemma OutcomeIsSettlement(gs: seq<Gate>, es: seq<Event>, m: nat)
    requires IsRun(gs, es) && m < |es| && es[m].Resume?
    ensures var id := es[m].id;
            && id in gs[m].registry.calls && |gs[m].registry.calls[id]| == 1 && id in gs[m + 1].requests
            && gs[m + 1].requests[id].outcome == match gs[m].registry.calls[id][0]
                                                 case Resolved(d) => Some(Returned(d))
                                                 case Rejected(reason) => Some(Threw(reason))
  {
    ValidAt(gs, es, m);
    assert gs[m + 1] == Step(gs[m], es[m]);
  }

  lemma OpenerWasApproved(gs: seq<Gate>, es: seq<Event>, m: nat, session: Option<string>, ws: string)
    requires IsRun(gs, es) && m < |es| && Opens(gs[m], es[m], BypassKey(session, ws))
    ensures OpenedByApproval(gs, es, m, session, ws)
  {
    hide AnswerOpens;
    var i := RequestOrigin(gs, es, m, es[m].id);
    assert BypassKey(es[i].session, es[i].ws) == BypassKey(session, ws);
    OpensIffAnswerOpens(gs, es, i, m);
    if ColonFree(ws) && ColonFree(es[i].ws) {
      KeyInjective(es[i].session, es[i].ws, session, ws);
    }
  }

  /**
   * A delegation gets through only if the granularity its call was clamped to is `auto`,
   * or this very request was answered with an approval, or, when the call was made, an
   * answer that may open a bypass had opened that of its session and workspace and
   * nothing had closed it since.
   */
  lemma LetThroughOnlyIf(gs: seq<Gate>, es: seq<Event>, n: nat, id: string, d: P.Decision) returns (i: nat)
    requires IsRun(gs, es) && n <= |es| && id in gs[n].requests
    requires gs[n].requests[id].outcome == Some(Returned(d)) && Approves(d)
    ensures i < n && es[i].Delegate? && es[i].id == id
    ensures || ResolveGranularity(es[i].call, es[i].binding, es[i].mode) == Auto
            || Answered(gs, es, n, id, d)
            || exists m :: 0 <= m < i && OpenSince(gs, es, m, i, es[i].session, es[i].ws)
                           && OpenedByApproval(gs, es, m, es[i].session, es[i].ws)
  {
    hide Step, Opens, Closes;
    var r := gs[n].requests[id];
    ValidAt(gs, es, n);
    i := RequestOrigin(gs, es, n, id);
    assert RequestOk(gs[n], id);
    if r.way == ByPrompt {
      assert gs[n].registry.calls[id] == [P.Resolved(d)];
      AnsweredInRegistry(gs, es, n, id, d);
    } else if r.way == ByBypass {
      var m := BypassOrigin(gs, es, i, BypassKey(r.session, r.ws));
      OpenerWasApproved(gs, es, m, r.session, r.ws);
      assert OpenSince(gs, es, m, i, es[i].session, es[i].ws);
    }
  }

  /** Cancelling a workspace leaves no bypass for it, and touches no other colon-free workspace. */
  lemma CancelClearsExactlyTheWorkspace(g: Gate, w: string, reason: P.Reason, session: Option<string>, v: string)
    requires ColonFree(v) && ColonFree(w)
    ensures var g' := Step(g, CancelWorkspace(w, reason));
            BypassKey(session, v) in g'.bypassed <==> BypassKey(session, v) in g.bypassed && v != w
  {
    ClearedIffSameWorkspace(session, v, w);
  }

  /** For generated identifiers it holds without a condition. */
  lemma CancelIsExactForGenerated(g: Gate, w: string, reason: P.Reason, session: Option<string>, v: string)
    requires I.IsGenerated(v) && I.IsGenerated(w)
    ensures var g' := Step(g, CancelWorkspace(w, reason));
            BypassKey(session, v) in g'.bypassed <==> BypassKey(session, v) in g.bypassed && v != w
  {
    I.GeneratedHasNoColon(v);
    I.GeneratedHasNoColon(w);
    CancelClearsExactlyTheWorkspace(g, w, reason, session, v);
  }

  // --------------------------------------------------------------- implementation

  class ApprovalGateImpl {
    const pending: P.PendingApprovalRegistry
    var sessionBypassed: set<string>
    /** The suspended and finished calls of `awaitApprovalForDelegation`. */
    var requests: map<string, Request>

    ghost function View(): Gate
      reads this, pending
    {
      Gate(pending.View(), sessionBypassed, requests)
    }

    constructor (pending: P.PendingApprovalRegistry)
      ensures this.pending == pending && View() == Gate(pending.View(), {}, map[])
    {
      this.pending, sessionBypassed, requests := pending, {}, map[];
    }

    method IsSessionBypassed(session: Option<string>, ws: string) returns (b: bool)
      ensures b <==> BypassKey(session, ws) in sessionBypassed
    {
      b := BypassKey(session, ws) in sessionBypassed;
    }

    /** `awaitApprovalForDelegation` up to its await; the prompt is registered before it is sent. */
    method BeginDelegation(id: string, session: Option<string>, ws: string, call: Option<Granularity>,
                           binding: Option<Option<Granularity>>, mode: Option<Mode>)
      requires Allowed(View(), Delegate(id, session, ws, call, binding, mode))
      modifies this, pending
      ensures View() == Step(old(View()), Delegate(id, session, ws, call, binding, mode))
    {
      var granularity := ResolveGranularity(call, binding, mode);
      if granularity == Auto {
        requests := requests[id := Request(session, ws, granularity, ByAuto, false, Some(Returned(P.Approve)))];
        return;
      }
      var bypassed := IsSessionBypassed(session, ws);
      if bypassed {
        requests := requests[id := Request(session, ws, granularity, ByBypass, false, Some(Returned(P.Approve)))];
        return;
      }
      pending.AwaitApproval(id, ws);
      requests := requests[id := Request(session, ws, granularity, ByPrompt, false, None)];
    }

    /**
     * The prompt could not be delivered: the pending approval is cancelled and the call
     * throws; `own` is the reason of an error that is itself an approval rejection.
     */
    method DeliveryFailed(id: string, own: Option<P.Reason>)
      requires Allowed(View(), SendFails(id, own)) && P.Valid(pending.View())
      modifies this, pending
      ensures View() == Step(old(View()), SendFails(id, own))
    {
      pending.Cancel(id, P.ExtensionReconnected);
      var reason := P.ExtensionReconnected;
      if own.Some? {
        reason := own.value;
      }
      requests := requests[id := requests[id].(outcome := Some(Threw(reason)))];
    }

    /** The awaited promise has settled with `s`. */
    method ResumeDelegation(id: string, s: P.Settlement)
      requires Allowed(View(), Resume(id)) && s == pending.calls[id][0]
      modifies this
      ensures View() == Step(old(View()), Resume(id))
    {
      var r := requests[id];
      match s {
        case Rejected(reason) =>
          requests := requests[id := r.(outcome := Some(Threw(reason)))];
        case Resolved(decision) =>
          var approved := decision == P.Approve || decision == P.ApproveSession;
          if approved && (r.granularity == Task || decision == P.ApproveSession) {
            sessionBypassed := sessionBypassed + {BypassKey(r.session, r.ws)};
          }
          requests := requests[id := r.(outcome := Some(Returned(decision)))];
      }
    }

    /** Pending approvals first, then every bypass key that ends with the workspace. */
    method CancelByWorkspace(ws: string, reason: P.Reason)
      requires P.Valid(pending.View())
      modifies this, pending
      ensures View() == Step(old(View()), CancelWorkspace(ws, reason))
    {
      pending.CancelByWorkspace(ws, reason);
      var suffix := "::" + ws;
      var toDelete := set key | key in sessionBypassed && EndsWith(key, suffix);
      var todo := toDelete;
      while todo != {}
        modifies this
        invariant todo <= toDelete
        invariant sessionBypassed == old(sessionBypassed) - (toDelete - todo) && requests == old(requests)
        decreases todo
      {
        var key :| key in todo;
        sessionBypassed := sessionBypassed - {key};
        todo := todo - {key};
      }
      assert sessionBypassed == Cleared(old(sessionBypassed), ws);
    }

    method ClearSessionBypass(session: Option<string>, ws: string)
      modifies this
      ensures View() == Step(old(View()), ClearBypass(session, ws))
    {
      sessionBypassed := sessionBypassed - {BypassKey(session, ws)};
    }
  }
}
