/**
 * The OAuth consent desk: consent records that leave `pending` at most once, and
 * the single-use authorization codes they mint.
 */
module Consent {
  import opened Common

  const AUTH_CODE_TTL_MS := 60000

  datatype Decision = Approve | Deny | Dismiss

  datatype Phase = Pending | Approved | Denied | TimedOut

  datatype ConsentRecord = ConsentRecord(
    clientId: string,
    redirectUri: string,
    stateParam: string,
    codeChallenge: string,
    createdAt: int,
    phase: Phase,
    issuedCode: Option<string>,
    denialKind: Option<Decision>,
    boundWorkspace: Option<string>)

  datatype AuthCode = AuthCode(
    clientId: string,
    redirectUri: string,
    stateParam: string,
    codeChallenge: string,
    issuedAt: int,
    redeemed: bool,
    boundWorkspace: Option<string>)

  /** What a promise returned by `awaitDecision` was resolved with. */
  datatype Outcome = OutcomeApproved(code: string) | OutcomeDenied(kind: Decision) | OutcomeTimeout

  datatype Delivery = SendThrew | Sent(delivered: nat, totalActive: nat)

  datatype BeginReply = Begun | ExtensionOffline | NoUnboundWorkspace

  datatype AuthRequest = AuthRequest(
    clientId: string, redirectUri: string, stateParam: string, codeChallenge: string)

  /**
   * The manager's fields. `decisionTimers` and `codeTimers` are the keys of the two
   * timer maps, `waiting` the keys of the resolver map, `outcomes` the settled
   * promises, and `drawn` every request id and code taken from the random source.
   */
  datatype Desk = Desk(
    consents: map<string, ConsentRecord>,
    authCodes: map<string, AuthCode>,
    decisionTimers: set<string>,
    codeTimers: set<string>,
    waiting: set<string>,
    outcomes: map<string, Outcome>,
    stopped: bool,
    drawn: set<string>)

  const EMPTY_DESK := Desk(map[], map[], {}, {}, {}, map[], false, {})

  function NewRecord(req: AuthRequest, now: int): ConsentRecord {
    ConsentRecord(req.clientId, req.redirectUri, req.stateParam, req.codeChallenge, now, Pending, None, None, None)
  }

  function NewCode(r: ConsentRecord, now: int, ws: Option<string>): AuthCode {
    AuthCode(r.clientId, r.redirectUri, r.stateParam, r.codeChallenge, now, false, ws)
  }

  /** The outcome a record prescribes for its awaiter. */
  function OutcomeOf(r: ConsentRecord): Outcome {
    if r.phase == Approved && r.issuedCode.Some? then OutcomeApproved(r.issuedCode.value)
    else if r.phase == Denied && r.denialKind.Some? then OutcomeDenied(r.denialKind.value)
    else OutcomeTimeout
  }

  // ---------------------------------------------------------------- specification

  /** Gives the awaiter of `rid`, if there is one, its outcome and drops its timer. */
  function Wake(d: Desk, rid: string, o: Outcome): Desk {
    if rid in d.waiting
    then d.(waiting := d.waiting - {rid}, decisionTimers := d.decisionTimers - {rid}, outcomes := d.outcomes[rid := o])
    else d
  }

  /** A record replaced by its resolved form, and its awaiter woken with what it says. */
  function Resolve(d: Desk, rid: string, r: ConsentRecord): Desk {
    Wake(d.(consents := d.consents[rid := r]), rid, OutcomeOf(r))
  }

  function BeginReplyOf(d: Desk, sent: Delivery): BeginReply {
    if d.stopped || sent.SendThrew? then ExtensionOffline
    else if sent.delivered > 0 then Begun
    else if sent.totalActive == 0 then ExtensionOffline else NoUnboundWorkspace
  }

  function Begin(d: Desk, rid: string, req: AuthRequest, now: int, sent: Delivery): Desk {
    if d.stopped then d
    else if BeginReplyOf(d, sent).Begun?
    then d.(consents := d.consents[rid := NewRecord(req, now)], drawn := d.drawn + {rid})
    else d.(drawn := d.drawn + {rid})
  }

  /** Does this decision resolve the consent? */
  predicate Decides(d: Desk, rid: string, decision: Decision) {
    rid in d.consents && d.consents[rid].phase == Pending && decision != Dismiss
  }

  function Decide(d: Desk, rid: string, decision: Decision, ws: Option<string>, code: string, now: int): Desk {
    if !Decides(d, rid, decision) then d
    else
      var r := d.consents[rid];
      if decision == Approve then
        Resolve(
          d.(authCodes := d.authCodes[code := NewCode(r, now, ws)],
             codeTimers := d.codeTimers + {code},
             drawn := d.drawn + {code}),
          rid, r.(phase := Approved, issuedCode := Some(code), boundWorkspace := ws))
      else
        Resolve(d, rid, r.(phase := Denied, denialKind := Some(decision)))
  }

  function Await(d: Desk, rid: string): Desk {
    if rid !in d.consents then d.(outcomes := d.outcomes[rid := OutcomeTimeout])
    else if d.consents[rid].phase != Pending then d.(outcomes := d.outcomes[rid := OutcomeOf(d.consents[rid])])
    else d.(waiting := d.waiting + {rid}, decisionTimers := d.decisionTimers + {rid})
  }

  function TimerFires(d: Desk, rid: string): Desk {
    if rid in d.consents && d.consents[rid].phase == Pending
    then Resolve(d, rid, d.consents[rid].(phase := TimedOut))
    else if rid in d.consents then Wake(d, rid, OutcomeOf(d.consents[rid]))
    else Wake(d, rid, OutcomeTimeout)
  }

  function DropCodes(d: Desk, codes: set<string>): Desk {
    d.(authCodes := d.authCodes - codes, codeTimers := d.codeTimers - codes)
  }

  predicate Redeemable(d: Desk, code: string, now: int) {
    code in d.authCodes && !d.authCodes[code].redeemed && now - d.authCodes[code].issuedAt <= AUTH_CODE_TTL_MS
  }

  /** A redemption attempt consumes the code whether or not it has expired. */
  function Redeem(d: Desk, code: string, now: int): Desk {
    if code in d.authCodes && !d.authCodes[code].redeemed then DropCodes(d, {code}) else d
  }

  function CodesOf(d: Desk, ws: string): (r: set<string>)
    ensures forall c :: c in r <==> c in d.authCodes && d.authCodes[c].boundWorkspace == Some(ws)
  {
    set c | c in d.authCodes && d.authCodes[c].boundWorkspace == Some(ws)
  }

  function RevokeCodes(d: Desk, ws: string): Desk {
    DropCodes(d, CodesOf(d, ws))
  }

  function StopDesk(d: Desk): Desk {
    if d.stopped then d
    else d.(stopped := true, decisionTimers := {}, codeTimers := {}, waiting := {},
            outcomes := d.outcomes + AllTimedOut(d.waiting))
  }

  function AllTimedOut(rids: set<string>): map<string, Outcome> {
    map rid | rid in rids :: OutcomeTimeout
  }

  lemma OneMoreTimedOut(before: map<string, Outcome>, done: set<string>, rid: string)
    ensures (before + AllTimedOut(done))[rid := OutcomeTimeout] == before + AllTimedOut(done + {rid})
  {
  }

  // --------------------------------------------------------------------- invariant

  ghost predicate RecordOk(r: ConsentRecord) {
    && (r.phase == Approved <==> r.issuedCode.Some?)
    && (r.phase == Denied <==> r.denialKind.Some?)
    && r.denialKind != Some(Dismiss)
    && (r.boundWorkspace.Some? ==> r.phase == Approved)
  }

  /** A live code repeats what its consent was asked for and bound to. */
  ghost predicate Backs(r: ConsentRecord, code: string, a: AuthCode) {
    && r.issuedCode == Some(code)
    && a == NewCode(r, a.issuedAt, r.boundWorkspace)
  }

  /** Records are consistent, and no two consents issued the same code. */
  ghost predicate RecordsOk(consents: map<string, ConsentRecord>, drawn: set<string>) {
    && (forall rid :: rid in consents ==> RecordOk(consents[rid]) && rid in drawn)
    && (forall rid :: rid in consents && consents[rid].issuedCode.Some? ==> consents[rid].issuedCode.value in drawn)
    && (forall rid, other :: rid in consents && other in consents && rid != other && consents[rid].issuedCode.Some?
          ==> consents[rid].issuedCode != consents[other].issuedCode)
  }

  ghost predicate CodesOk(d: Desk) {
    && (forall code :: code in d.authCodes ==>
          && !d.authCodes[code].redeemed
          && exists rid :: rid in d.consents && Backs(d.consents[rid], code, d.authCodes[code]))
    && d.codeTimers <= d.authCodes.Keys
    && (!d.stopped ==> d.codeTimers == d.authCodes.Keys)
  }

  ghost predicate AwaitersOk(d: Desk) {
    && d.waiting == d.decisionTimers
    && (forall rid :: rid in d.waiting ==> rid in d.consents && d.consents[rid].phase == Pending && rid !in d.outcomes)
    && (forall rid :: rid in d.outcomes && rid in d.consents ==>
          || (d.consents[rid].phase != Pending && d.outcomes[rid] == OutcomeOf(d.consents[rid]))
          || (d.stopped && d.outcomes[rid] == OutcomeTimeout))
  }

  ghost predicate Valid(d: Desk) {
    RecordsOk(d.consents, d.drawn) && CodesOk(d) && AwaitersOk(d)
  }

  // -------------------------------------------------------------------------- runs

  datatype Event =
    | EBegin(rid: string, req: AuthRequest, sent: Delivery)
    | EDecide(rid: string, decision: Decision, ws: Option<string>, code: string)
    | EAwait(rid: string)
    | ETimer(rid: string)
    | ECodeExpiry(code: string)
    | ERedeem(code: string)
    | ERevokeCodes(revoked: string)
    | EStop
    | EIdle

  /**
   * Random values are new when drawn, a timer fires only while it is armed, and
   * `awaitDecision` is called at most once per request id.
   */
  predicate Allowed(d: Desk, e: Event) {
    match e
    case EBegin(rid, _, _) => rid !in d.drawn && rid !in d.outcomes
    case EDecide(_, _, _, code) => code !in d.drawn
    case EAwait(rid) => rid !in d.waiting && rid !in d.outcomes
    case ETimer(rid) => rid in d.decisionTimers
    case ECodeExpiry(code) => code in d.codeTimers
    case _ => true
  }

  function Step(d: Desk, e: Event, now: int): Desk {
    match e
    case EBegin(rid, req, sent) => Begin(d, rid, req, now, sent)
    case EDecide(rid, decision, ws, code) => Decide(d, rid, decision, ws, code, now)
    case EAwait(rid) => Await(d, rid)
    case ETimer(rid) => TimerFires(d, rid)
    case ECodeExpiry(code) => DropCodes(d, {code})
    case ERedeem(code) => Redeem(d, code, now)
    case ERevokeCodes(ws) => RevokeCodes(d, ws)
    case EStop => StopDesk(d)
    case EIdle => d
  }

  lemma ResolveKeepsRecords(d: Desk, rid: string, r: ConsentRecord, drawn: set<string>)
    requires RecordsOk(d.consents, d.drawn)
    requires RecordOk(r) && d.drawn <= drawn && rid in drawn
    requires r.issuedCode.Some? ==> r.issuedCode.value in drawn - d.drawn || (rid in d.consents && d.consents[rid] == r)
    ensures RecordsOk(d.consents[rid := r], drawn)
  {
  }

  lemma DecideKeepsRecords(d: Desk, rid: string, decision: Decision, ws: Option<string>, code: string, now: int)
    requires RecordsOk(d.consents, d.drawn) && code !in d.drawn
    ensures RecordsOk(Decide(d, rid, decision, ws, code, now).consents, Decide(d, rid, decision, ws, code, now).drawn)
  {
    if Decides(d, rid, decision) {
      var d' := Decide(d, rid, decision, ws, code, now);
      var r := d'.consents[rid];
      assert d'.consents == d.consents[rid := r];
      ResolveKeepsRecords(d, rid, r, d'.drawn);
    }
  }

  lemma TimerKeepsRecords(d: Desk, rid: string)
    requires RecordsOk(d.consents, d.drawn)
    ensures RecordsOk(TimerFires(d, rid).consents, TimerFires(d, rid).drawn)
  {
    if rid in d.consents && d.consents[rid].phase == Pending {
      ResolveKeepsRecords(d, rid, d.consents[rid].(phase := TimedOut), d.drawn);
    }
  }

  lemma StepKeepsRecords(d: Desk, e: Event, now: int)
    requires RecordsOk(d.consents, d.drawn) && Allowed(d, e)
    ensures RecordsOk(Step(d, e, now).consents, Step(d, e, now).drawn)
  {
    match e
    case EBegin(rid, req, _) => ResolveKeepsRecords(d, rid, NewRecord(req, now), d.drawn + {rid});
    case EDecide(rid, decision, ws, code) => DecideKeepsRecords(d, rid, decision, ws, code, now);
    case ETimer(rid) => TimerKeepsRecords(d, rid);
    case _ =>
  }

  /** Resolving a pending consent settles its awaiter with what the new record says. */
  lemma ResolveKeepsAwaiters(d: Desk, rid: string, r: ConsentRecord)
    requires AwaitersOk(d) && rid in d.consents && d.consents[rid].phase == Pending && r.phase != Pending
    ensures AwaitersOk(Resolve(d, rid, r))
  {
  }

  lemma AwaitKeepsAwaiters(d: Desk, rid: string)
    requires AwaitersOk(d) && rid !in d.waiting && rid !in d.outcomes
    ensures AwaitersOk(Await(d, rid))
  {
  }

  lemma StopKeepsAwaiters(d: Desk)
    requires AwaitersOk(d)
    ensures AwaitersOk(StopDesk(d))
  {
  }

  lemma StepKeepsAwaiters(d: Desk, e: Event, now: int)
    requires RecordsOk(d.consents, d.drawn) && AwaitersOk(d) && Allowed(d, e)
    ensures AwaitersOk(Step(d, e, now))
  {
    match e
    case EDecide(rid, decision, ws, code) =>
      if Decides(d, rid, decision) {
        var r := Step(d, e, now).consents[rid];
        assert r.phase != Pending;
        ResolveKeepsAwaiters(d, rid, r);
      }
    case ETimer(rid) => ResolveKeepsAwaiters(d, rid, d.consents[rid].(phase := TimedOut));
    case EAwait(rid) => AwaitKeepsAwaiters(d, rid);
    case EStop => StopKeepsAwaiters(d);
    case _ =>
  }

  lemma DecideKeepsResolved(d: Desk, rid: string, decision: Decision, ws: Option<string>, code: string, now: int)
    ensures d.consents.Keys <= Decide(d, rid, decision, ws, code, now).consents.Keys
    ensures forall r :: r in d.consents && d.consents[r].phase != Pending ==>
              Decide(d, rid, decision, ws, code, now).consents[r] == d.consents[r]
  {
  }

  lemma TimerKeepsResolved(d: Desk, rid: string)
    ensures d.consents.Keys <= TimerFires(d, rid).consents.Keys
    ensures forall r :: r in d.consents && d.consents[r].phase != Pending ==>
              TimerFires(d, rid).consents[r] == d.consents[r]
  {
  }

  /** A resolved record is never written again, and no record that was begun disappears. */
  lemma StepKeepsResolved(d: Desk, e: Event, now: int, rid: string)
    requires RecordsOk(d.consents, d.drawn) && Allowed(d, e) && rid in d.consents
    ensures rid in Step(d, e, now).consents
    ensures d.consents[rid].phase != Pending ==> Step(d, e, now).consents[rid] == d.consents[rid]
  {
    match e
    case EDecide(r, decision, ws, code) => DecideKeepsResolved(d, r, decision, ws, code, now);
    case ETimer(r) => TimerKeepsResolved(d, r);
    case _ =>
  }

  /** Only an approval adds a code, and it adds exactly its own. */
  lemma StepAddsOneCode(d: Desk, e: Event, now: int, code: string)
    requires code in Step(d, e, now).authCodes
    ensures || (code in d.authCodes && Step(d, e, now).authCodes[code] == d.authCodes[code])
            || (e.EDecide? && code == e.code && Decides(d, e.rid, Approve) && e.decision == Approve
                && Step(d, e, now).authCodes[code] == NewCode(d.consents[e.rid], now, e.ws))
  {
  }

  lemma StepKeepsCodes(d: Desk, e: Event, now: int)
    requires RecordsOk(d.consents, d.drawn) && CodesOk(d) && Allowed(d, e)
    ensures CodesOk(Step(d, e, now))
  {
    var d' := Step(d, e, now);
    forall c | c in d'.authCodes
      ensures !d'.authCodes[c].redeemed && exists r :: r in d'.consents && Backs(d'.consents[r], c, d'.authCodes[c])
    {
      StepAddsOneCode(d, e, now, c);
      if c in d.authCodes && d'.authCodes[c] == d.authCodes[c] {
        var r :| r in d.consents && Backs(d.consents[r], c, d.authCodes[c]);
        StepKeepsResolved(d, e, now, r);
        assert Backs(d'.consents[r], c, d'.authCodes[c]);
      } else {
        assert Backs(d'.consents[e.rid], c, d'.authCodes[c]);
      }
    }
    StepKeepsTimers(d, e, now);
  }

  lemma StepKeepsTimers(d: Desk, e: Event, now: int)
    requires d.codeTimers <= d.authCodes.Keys
    requires !d.stopped ==> d.codeTimers == d.authCodes.Keys
    ensures Step(d, e, now).codeTimers <= Step(d, e, now).authCodes.Keys
    ensures !Step(d, e, now).stopped ==> Step(d, e, now).codeTimers == Step(d, e, now).authCodes.Keys
  {
  }

  lemma StepKeepsValid(d: Desk, e: Event, now: int)
    requires Valid(d) && Allowed(d, e)
    ensures Valid(Step(d, e, now))
  {
    StepKeepsRecords(d, e, now);
    StepKeepsCodes(d, e, now);
    StepKeepsAwaiters(d, e, now);
  }

  /** `ds[i]` is the desk before event `es[i]`, which happens at time `at[i]`. */
  ghost predicate IsRun(ds: seq<Desk>, es: seq<Event>, at: seq<int>) {
    && |ds| == |es| + 1
    && |at| == |es|
    && ds[0] == EMPTY_DESK
    && forall i :: 0 <= i < |es| ==> Allowed(ds[i], es[i]) && ds[i + 1] == Step(ds[i], es[i], at[i])
  }

  lemma {:induction false} ValidAt(ds: seq<Desk>, es: seq<Event>, at: seq<int>, n: nat)
    requires IsRun(ds, es, at) && n <= |es|
    ensures Valid(ds[n])
  {
    if n > 0 {
      ValidAt(ds, es, at, n - 1);
      StepKeepsValid(ds[n - 1], es[n - 1], at[n - 1]);
    }
  }

  /** First write wins: once a consent has left `pending` its record never changes again. */
  lemma {:induction false} FirstWriteWins(ds: seq<Desk>, es: seq<Event>, at: seq<int>, i: nat, j: nat, rid: string)
    requires IsRun(ds, es, at) && i <= j <= |es|
    requires rid in ds[i].consents && ds[i].consents[rid].phase != Pending
    ensures rid in ds[j].consents && ds[j].consents[rid] == ds[i].consents[rid]
    decreases j - i
  {
    if i < j {
      ValidAt(ds, es, at, i);
      StepKeepsResolved(ds[i], es[i], at[i], rid);
      FirstWriteWins(ds, es, at, i + 1, j, rid);
    }
  }

  /** A consent is approved exactly when it issued a code, and no other consent issued that code. */
  lemma ApprovedIffIssued(ds: seq<Desk>, es: seq<Event>, at: seq<int>, n: nat, rid: string)
    requires IsRun(ds, es, at) && n <= |es| && rid in ds[n].consents
    ensures ds[n].consents[rid].phase == Approved <==> ds[n].consents[rid].issuedCode.Some?
    ensures forall other :: other in ds[n].consents && other != rid && ds[n].consents[rid].issuedCode.Some?
              ==> ds[n].consents[other].issuedCode != ds[n].consents[rid].issuedCode
  {
    ValidAt(ds, es, at, n);
  }

  lemma StepKeepsAwaiting(d: Desk, e: Event, now: int, rid: string)
    requires rid in d.waiting || rid in d.outcomes
    ensures rid in Step(d, e, now).waiting || rid in Step(d, e, now).outcomes
  {
  }

  /** An awaiter stays registered until its promise settles. */
  lemma {:induction false} AwaiterNotLost(ds: seq<Desk>, es: seq<Event>, at: seq<int>, i: nat, n: nat, rid: string)
    requires IsRun(ds, es, at) && i < n <= |es| && es[i] == EAwait(rid)
    ensures rid in ds[n].waiting || rid in ds[n].outcomes
    decreases n
  {
    if i + 1 < n {
      AwaiterNotLost(ds, es, at, i, n - 1, rid);
      StepKeepsAwaiting(ds[n - 1], es[n - 1], at[n - 1], rid);
    } else {
      assert ds[n] == Await(ds[i], rid);
    }
  }

  /**
   * The outcome equals the recorded state: until the desk stops, the promise of an
   * awaited consent has settled exactly when the record has left `pending`, and it
   * settled with what the record says.
   */
  lemma AwaiterSeesRecord(ds: seq<Desk>, es: seq<Event>, at: seq<int>, i: nat, n: nat, rid: string)
    requires IsRun(ds, es, at) && i < n <= |es| && es[i] == EAwait(rid)
    requires !ds[n].stopped && rid in ds[n].consents
    ensures rid in ds[n].outcomes <==> ds[n].consents[rid].phase != Pending
    ensures rid in ds[n].outcomes ==>
              var r := ds[n].consents[rid];
              match r.phase
              case Approved => r.issuedCode.Some? && ds[n].outcomes[rid] == OutcomeApproved(r.issuedCode.value)
              case Denied => r.denialKind.Some? && ds[n].outcomes[rid] == OutcomeDenied(r.denialKind.value)
              case _ => ds[n].outcomes[rid] == OutcomeTimeout
  {
    ValidAt(ds, es, at, n);
    AwaiterNotLost(ds, es, at, i, n, rid);
  }

  /** Until the desk stops, each live code has exactly one armed expiry timer. */
  lemma CodesMatchTimers(ds: seq<Desk>, es: seq<Event>, at: seq<int>, n: nat)
    requires IsRun(ds, es, at) && n <= |es|
    ensures ds[n].codeTimers <= ds[n].authCodes.Keys
    ensures !ds[n].stopped ==> ds[n].codeTimers == ds[n].authCodes.Keys
  {
    ValidAt(ds, es, at, n);
  }

  /**
   * `stop` settles the awaiters of consents that are still pending, and a later
   * approval is still recorded: after it, outcome and record can differ.
   */
  lemma StopMayDivorceOutcome() returns (ds: seq<Desk>, es: seq<Event>, at: seq<int>, rid: string)
    ensures IsRun(ds, es, at) && ds[|es|].stopped
    ensures rid in ds[|es|].consents && rid in ds[|es|].outcomes
    ensures ds[|es|].outcomes[rid] != OutcomeOf(ds[|es|].consents[rid])
  {
    var req := AuthRequest("client", "https://app", "s", "ch");
    rid := "r";
    es, at := [EBegin("r", req, Sent(1, 1)), EAwait("r"), EStop, EDecide("r", Approve, Some("w"), "c")], [0, 0, 0, 0];
    var d1 := Step(EMPTY_DESK, es[0], 0);
    var d2 := Step(d1, es[1], 0);
    var d3 := Step(d2, es[2], 0);
    var d4 := Step(d3, es[3], 0);
    ds := [EMPTY_DESK, d1, d2, d3, d4];
    assert "r"[0] != "c"[0];
    assert d1.consents == map["r" := NewRecord(req, 0)];
    assert d2.waiting == {"r"};
    assert d3.outcomes == map["r" := OutcomeTimeout];
  }

  /** This event decides a consent whose awaiter had been settled while it was still pending. */
  predicate DecidesTooLate(d: Desk, e: Event, rid: string) {
    e.EDecide? && e.rid == rid && rid in d.outcomes && Decides(d, rid, e.decision)
  }

  lemma OutcomeIsFinal(d: Desk, e: Event, now: int, rid: string)
    requires Allowed(d, e) && rid in d.outcomes && rid !in d.waiting
    ensures rid in Step(d, e, now).outcomes && Step(d, e, now).outcomes[rid] == d.outcomes[rid]
  {
  }

  lemma RecordIsLeftAlone(d: Desk, e: Event, now: int, rid: string)
    requires Allowed(d, e) && rid in d.outcomes && rid in d.consents && rid !in d.decisionTimers
    requires !DecidesTooLate(d, e, rid)
    ensures rid in Step(d, e, now).consents && Step(d, e, now).consents[rid] == d.consents[rid]
  {
  }

  /** A settled outcome is final, and its record changes only when it is decided too late. */
  lemma SettledStep(d: Desk, e: Event, now: int, rid: string)
    requires RecordsOk(d.consents, d.drawn) && AwaitersOk(d) && Allowed(d, e) && rid in d.outcomes && rid in d.consents
    ensures var d' := Step(d, e, now);
            && rid in d'.outcomes && d'.outcomes[rid] == d.outcomes[rid]
            && rid in d'.consents && (!DecidesTooLate(d, e, rid) ==> d'.consents[rid] == d.consents[rid])
  {
    assert rid !in d.waiting && rid !in d.decisionTimers;
    hide Step, DecidesTooLate, RecordsOk, AwaitersOk;
    OutcomeIsFinal(d, e, now, rid);
    StepKeepsResolved(d, e, now, rid);
    if !DecidesTooLate(d, e, rid) {
      RecordIsLeftAlone(d, e, now, rid);
    }
  }

  lemma TooLateStep(d: Desk, e: Event, now: int, rid: string)
    requires AwaitersOk(d) && rid in d.consents && DecidesTooLate(d, e, rid)
    ensures rid in Step(d, e, now).consents && d.outcomes[rid] != OutcomeOf(Step(d, e, now).consents[rid])
  {
  }

  /** An awaiter is settled with what the record says at that moment. */
  lemma NewlySettled(d: Desk, e: Event, now: int, rid: string)
    requires RecordsOk(d.consents, d.drawn) && AwaitersOk(d) && Allowed(d, e) && rid !in d.outcomes
    requires rid in Step(d, e, now).outcomes && rid in Step(d, e, now).consents
    ensures Step(d, e, now).outcomes[rid] == OutcomeOf(Step(d, e, now).consents[rid])
  {
  }

  lemma {:induction false} StaysSettled(ds: seq<Desk>, es: seq<Event>, at: seq<int>, m: nat, k: nat, rid: string)
    requires IsRun(ds, es, at) && m <= k <= |es| && m < |es| && DecidesTooLate(ds[m], es[m], rid)
    ensures rid in ds[k].outcomes && rid in ds[k].consents
    decreases k
  {
    hide Step, Valid;
    if m < k {
      StaysSettled(ds, es, at, m, k - 1, rid);
      ValidAt(ds, es, at, k - 1);
      SettledStep(ds[k - 1], es[k - 1], at[k - 1], rid);
    }
  }

  lemma DivorceStep(d: Desk, e: Event, now: int, rid: string)
    requires RecordsOk(d.consents, d.drawn) && AwaitersOk(d) && Allowed(d, e) && rid in d.outcomes && rid in d.consents
    ensures var d' := Step(d, e, now);
            && rid in d'.outcomes && rid in d'.consents
            && (d'.outcomes[rid] != OutcomeOf(d'.consents[rid]) <==>
                  d.outcomes[rid] != OutcomeOf(d.consents[rid]) || DecidesTooLate(d, e, rid))
  {
    SettledStep(d, e, now, rid);
    if DecidesTooLate(d, e, rid) {
      hide Step;
      TooLateStep(d, e, now, rid);
    }
  }

  /** An outcome that this step is the first to have beside a record agrees with it. */
  lemma NotSettledBefore(ds: seq<Desk>, es: seq<Event>, at: seq<int>, n: nat, rid: string)
    requires IsRun(ds, es, at) && 0 < n <= |es|
    requires !(rid in ds[n - 1].outcomes && rid in ds[n - 1].consents)
    requires rid in ds[n].outcomes && rid in ds[n].consents
    ensures ds[n].outcomes[rid] == OutcomeOf(ds[n].consents[rid])
    ensures forall m :: 0 <= m < n ==> !DecidesTooLate(ds[m], es[m], rid)
  {
    hide RecordsOk, CodesOk, AwaitersOk;
    ValidAt(ds, es, at, n - 1);
    assert rid !in ds[n - 1].outcomes by {
      if rid in ds[n - 1].outcomes {
        UnknownStays(ds[n - 1], es[n - 1], at[n - 1], rid);
      }
    }
    NewlySettled(ds[n - 1], es[n - 1], at[n - 1], rid);
    forall m | 0 <= m < n
      ensures !DecidesTooLate(ds[m], es[m], rid)
    {
      if DecidesTooLate(ds[m], es[m], rid) {
        StaysSettled(ds, es, at, m, n - 1, rid);
      }
    }
  }

  /** No consent is begun under an id that somebody already awaited. */
  lemma UnknownStays(d: Desk, e: Event, now: int, rid: string)
    requires Allowed(d, e) && rid in d.outcomes && rid !in d.consents
    ensures rid !in Step(d, e, now).consents
  {
  }

  /** Exactly when outcome and record differ: the consent was decided after `stop` had settled its awaiter. */
  lemma {:induction false} DivorcedIffDecidedTooLate(ds: seq<Desk>, es: seq<Event>, at: seq<int>, n: nat, rid: string)
    requires IsRun(ds, es, at) && n <= |es|
    requires rid in ds[n].outcomes && rid in ds[n].consents
    ensures ds[n].outcomes[rid] != OutcomeOf(ds[n].consents[rid])
       <==> exists m :: 0 <= m < n && DecidesTooLate(ds[m], es[m], rid)
  {
    hide Step, DecidesTooLate, RecordsOk, CodesOk, AwaitersOk;
    if n > 0 {
      var d, e := ds[n - 1], es[n - 1];
      ValidAt(ds, es, at, n - 1);
      if rid in d.outcomes && rid in d.consents {
        DivorcedIffDecidedTooLate(ds, es, at, n - 1, rid);
        SettledStep(d, e, at[n - 1], rid);
        DivorceStep(d, e, at[n - 1], rid);
      } else {
        NotSettledBefore(ds, es, at, n, rid);
      }
    }
  }

  // ------------------------------------------------------------ codes over a run

  predicate Redeems(d: Desk, e: Event, now: int, code: string) {
    e == ERedeem(code) && Redeemable(d, code, now)
  }

  /** Is `e` the approval that minted `code`? */
  predicate Mints(d: Desk, e: Event, code: string) {
    e.EDecide? && e.code == code && e.decision == Approve && Decides(d, e.rid, Approve)
  }

  /** A code that is still live after a step was neither presented nor revoked by it. */
  lemma LiveCodeUntouched(d: Desk, e: Event, now: int, code: string)
    requires code in d.authCodes && !d.authCodes[code].redeemed && code in Step(d, e, now).authCodes
    ensures e != ERedeem(code)
    ensures d.authCodes[code].boundWorkspace.Some? ==> e != ERevokeCodes(d.authCodes[code].boundWorkspace.value)
  {
  }

  /**
   * Where a live code comes from: an approval at some earlier step `k` of a consent
   * that asked for the same client, redirect URI and challenge; since then nobody has
   * presented the code and its workspace has not been revoked.
   */
  lemma {:induction false} CodeOrigin(ds: seq<Desk>, es: seq<Event>, at: seq<int>, n: nat, code: string)
    returns (k: nat)
    requires IsRun(ds, es, at) && n <= |es| && code in ds[n].authCodes
    ensures k < n && Mints(ds[k], es[k], code)
    ensures ds[n].authCodes[code] == NewCode(ds[k].consents[es[k].rid], at[k], es[k].ws)
    ensures forall m :: k < m < n ==> es[m] != ERedeem(code)
    ensures es[k].ws.Some? ==> forall m :: k < m < n ==> es[m] != ERevokeCodes(es[k].ws.value)
  {
    assert n > 0;
    var d, e := ds[n - 1], es[n - 1];
    StepAddsOneCode(d, e, at[n - 1], code);
    if code in d.authCodes && ds[n].authCodes[code] == d.authCodes[code] {
      k := CodeOrigin(ds, es, at, n - 1, code);
      LiveCodeUntouched(d, e, at[n - 1], code);
    } else {
      k := n - 1;
    }
  }

  /** A code that has left the map never comes back. */
  lemma {:induction false} GoneForGood(ds: seq<Desk>, es: seq<Event>, at: seq<int>, i: nat, j: nat, code: string)
    requires IsRun(ds, es, at) && i <= j <= |es|
    requires code in ds[i].drawn && code !in ds[i].authCodes
    ensures code !in ds[j].authCodes
    decreases j - i
  {
    if i < j {
      if code in ds[i + 1].authCodes {
        StepAddsOneCode(ds[i], es[i], at[i], code);
        assert false;
      }
      assert code in ds[i + 1].drawn;
      GoneForGood(ds, es, at, i + 1, j, code);
    }
  }

  /** A presented code is out of the map afterwards, whether or not it was still good. */
  lemma PresentedCodeIsGone(ds: seq<Desk>, es: seq<Event>, at: seq<int>, i: nat, j: nat, code: string)
    requires IsRun(ds, es, at) && i < j <= |es|
    requires es[i] == ERedeem(code) && code in ds[i].authCodes
    ensures code !in ds[j].authCodes
  {
    ValidAt(ds, es, at, i);
    var rid :| rid in ds[i].consents && Backs(ds[i].consents[rid], code, ds[i].authCodes[code]);
    assert code in ds[i + 1].drawn;
    GoneForGood(ds, es, at, i + 1, j, code);
  }

  /** Single use: no code is redeemed at two steps of a run. */
  lemma RedeemedAtMostOnce(ds: seq<Desk>, es: seq<Event>, at: seq<int>, i: nat, j: nat, code: string)
    requires IsRun(ds, es, at) && i < |es| && j < |es|
    requires Redeems(ds[i], es[i], at[i], code) && Redeems(ds[j], es[j], at[j], code)
    ensures i == j
  {
    if i < j {
      PresentedCodeIsGone(ds, es, at, i, j, code);
    } else if j < i {
      PresentedCodeIsGone(ds, es, at, j, i, code);
    }
  }

  /** A redeemed code was minted by an approval at most one TTL earlier. */
  lemma RedeemedWithinTtl(ds: seq<Desk>, es: seq<Event>, at: seq<int>, i: nat, code: string)
    requires IsRun(ds, es, at) && i < |es| && Redeems(ds[i], es[i], at[i], code)
    ensures exists k :: 0 <= k < i && Mints(ds[k], es[k], code) && at[i] - at[k] <= AUTH_CODE_TTL_MS
  {
    var k := CodeOrigin(ds, es, at, i, code);
  }

  // ------------------------------------------------- the history of a consent

  /** A consent is begun exactly if the desk is open and somebody got the request; the reply says which. */
  lemma BegunIff(ds: seq<Desk>, es: seq<Event>, at: seq<int>, i: nat)
    requires IsRun(ds, es, at) && i < |es| && es[i].EBegin?
    ensures var sent, req := es[i].sent, es[i].req;
            if ds[i].stopped then ds[i + 1] == ds[i] && BeginReplyOf(ds[i], sent) == ExtensionOffline
            else if sent == SendThrew || (sent.Sent? && sent.delivered == 0 && sent.totalActive == 0)
            then ds[i + 1].consents == ds[i].consents && BeginReplyOf(ds[i], sent) == ExtensionOffline
            else if sent.delivered == 0
            then ds[i + 1].consents == ds[i].consents && BeginReplyOf(ds[i], sent) == NoUnboundWorkspace
            else
              && BeginReplyOf(ds[i], sent) == Begun
              && ds[i + 1].consents == ds[i].consents[es[i].rid :=
                   ConsentRecord(req.clientId, req.redirectUri, req.stateParam, req.codeChallenge, at[i],
                                 Pending, None, None, None)]
  {
  }

  /** An answer that is a decision, or the decision timer. A dismissal is neither. */
  predicate Resolves(e: Event, rid: string) {
    (e.EDecide? && e.rid == rid && e.decision != Dismiss) || e == ETimer(rid)
  }

  lemma RecordUntouched(d: Desk, e: Event, now: int, rid: string)
    requires Allowed(d, e) && rid in d.consents && rid in d.drawn && !Resolves(e, rid)
    ensures rid in Step(d, e, now).consents && Step(d, e, now).consents[rid] == d.consents[rid]
  {
  }

  /** Until somebody decides or the timer fires, a consent stays as it is. */
  lemma {:induction false} PendingUntilResolved(
    ds: seq<Desk>, es: seq<Event>, at: seq<int>, i: nat, n: nat, rid: string)
    requires IsRun(ds, es, at) && i <= n <= |es| && rid in ds[i].consents
    requires forall k :: i <= k < n ==> !Resolves(es[k], rid)
    ensures rid in ds[n].consents && ds[n].consents[rid] == ds[i].consents[rid]
    decreases n
  {
    hide Step, Resolves, Valid;
    if i < n {
      PendingUntilResolved(ds, es, at, i, n - 1, rid);
      ValidAt(ds, es, at, n - 1);
      assert rid in ds[n - 1].drawn by { DrawnIds(ds[n - 1], rid); }
      RecordUntouched(ds[n - 1], es[n - 1], at[n - 1], rid);
    }
  }

  lemma DrawnIds(d: Desk, rid: string)
    requires Valid(d) && rid in d.consents
    ensures rid in d.drawn
  {
  }

  /**
   * What comes first stands for good: an approval with the code it drew and the workspace
   * that gave it, a denial, or the timeout.
   */
  lemma FirstResolutionStands(ds: seq<Desk>, es: seq<Event>, at: seq<int>, m: nat, n: nat, rid: string)
    requires IsRun(ds, es, at) && m < n <= |es| && Resolves(es[m], rid)
    requires rid in ds[m].consents && ds[m].consents[rid].phase == Pending
    ensures rid in ds[n].consents
    ensures ds[n].consents[rid] ==
              match es[m]
              case EDecide(_, Approve, ws, code) =>
                ds[m].consents[rid].(phase := Approved, issuedCode := Some(code), boundWorkspace := ws)
              case EDecide(_, _, _, _) => ds[m].consents[rid].(phase := Denied, denialKind := Some(Deny))
              case _ => ds[m].consents[rid].(phase := TimedOut)
  {
    ValidAt(ds, es, at, m);
    ResolutionStep(ds[m], es[m], at[m], rid);
    FirstWriteWins(ds, es, at, m + 1, n, rid);
  }

  lemma ResolutionStep(d: Desk, e: Event, now: int, rid: string)
    requires Allowed(d, e) && rid in d.consents && d.consents[rid].phase == Pending && Resolves(e, rid)
    ensures rid in Step(d, e, now).consents
    ensures Step(d, e, now).consents[rid] ==
              match e
              case EDecide(_, Approve, ws, code) =>
                d.consents[rid].(phase := Approved, issuedCode := Some(code), boundWorkspace := ws)
              case EDecide(_, _, _, _) => d.consents[rid].(phase := Denied, denialKind := Some(Deny))
              case _ => d.consents[rid].(phase := TimedOut)
  {
  }

  /** A decision that comes too late, for nobody, or as a dismissal changes nothing at all. */
  lemma DiscardedDecision(ds: seq<Desk>, es: seq<Event>, at: seq<int>, i: nat)
    requires IsRun(ds, es, at) && i < |es| && es[i].EDecide?
    requires || es[i].decision == Dismiss || es[i].rid !in ds[i].consents
             || ds[i].consents[es[i].rid].phase != Pending
    ensures ds[i + 1] == ds[i]
  {
  }

  /** Awaiting an unknown request times out at once. */
  lemma UnknownTimesOut(ds: seq<Desk>, es: seq<Event>, at: seq<int>, i: nat, rid: string)
    requires IsRun(ds, es, at) && i < |es| && es[i] == EAwait(rid) && rid !in ds[i].consents
    ensures rid in ds[i + 1].outcomes && ds[i + 1].outcomes[rid] == OutcomeTimeout
  {
  }

  /** A second `stop` does nothing, although awaiters may have come since. */
  lemma SecondStopIsIdle(ds: seq<Desk>, es: seq<Event>, at: seq<int>, i: nat)
    requires IsRun(ds, es, at) && i < |es| && es[i] == EStop && ds[i].stopped
    ensures ds[i + 1] == ds[i]
  {
  }

  /** `stop` settles exactly those who wait, as timed out, disarms every timer, and leaves records and codes. */
  lemma StopSettlesAll(ds: seq<Desk>, es: seq<Event>, at: seq<int>, i: nat)
    requires IsRun(ds, es, at) && i < |es| && es[i] == EStop && !ds[i].stopped
    ensures var d, d' := ds[i], ds[i + 1];
            && d'.stopped && d'.decisionTimers == {} && d'.codeTimers == {} && d'.waiting == {}
            && d'.consents == d.consents && d'.authCodes == d.authCodes
            && (forall rid :: rid in d.waiting ==> rid in d'.outcomes && d'.outcomes[rid] == OutcomeTimeout)
            && (forall rid :: rid !in d.waiting ==>
                  && (rid in d'.outcomes <==> rid in d.outcomes)
                  && (rid in d.outcomes ==> d'.outcomes[rid] == d.outcomes[rid]))
  {
    assert ds[i + 1] == StopDesk(ds[i]);
  }

  // ------------------------------------------------- the life of a code

  /** The events that take a code bound to `ws` away. */
  predicate Takes(e: Event, code: string, ws: Option<string>) {
    || e == ERedeem(code) || e == ECodeExpiry(code)
    || (e.ERevokeCodes? && ws == Some(e.revoked))
  }

  lemma CodeStep(d: Desk, e: Event, now: int, code: string)
    requires Allowed(d, e) && code in d.authCodes && code in d.drawn && !d.authCodes[code].redeemed
    ensures code in Step(d, e, now).authCodes <==> !Takes(e, code, d.authCodes[code].boundWorkspace)
    ensures code in Step(d, e, now).authCodes ==> Step(d, e, now).authCodes[code] == d.authCodes[code]
  {
  }

  lemma MintingStep(d: Desk, e: Event, now: int)
    requires e.EDecide? && e.decision == Approve && e.rid in d.consents && d.consents[e.rid].phase == Pending
    ensures var r, d' := d.consents[e.rid], Step(d, e, now);
            && e.code in d'.authCodes && e.code in d'.drawn
            && d'.authCodes[e.code] ==
                 AuthCode(r.clientId, r.redirectUri, r.stateParam, r.codeChallenge, now, false, e.ws)
  {
  }

  /**
   * The code an approval draws is live, as it was issued, exactly until it is presented,
   * its expiry fires, or its workspace is revoked; and it is accepted exactly if it is
   * still live at most sixty seconds after the approval.
   */
  lemma {:induction false} CodeIsLiveIff(ds: seq<Desk>, es: seq<Event>, at: seq<int>, k: nat, n: nat)
    requires IsRun(ds, es, at) && k < n <= |es|
    requires es[k].EDecide? && es[k].decision == Approve
    requires es[k].rid in ds[k].consents && ds[k].consents[es[k].rid].phase == Pending
    ensures var r, code := ds[k].consents[es[k].rid], es[k].code;
            && code in ds[n].drawn
            && (code in ds[n].authCodes <==> forall m :: k < m < n ==> !Takes(es[m], code, es[k].ws))
            && (code in ds[n].authCodes ==>
                  var a := ds[n].authCodes[code];
                  a == AuthCode(r.clientId, r.redirectUri, r.stateParam, r.codeChallenge, at[k], false, es[k].ws))
    decreases n
  {
    hide Step, Takes, Valid;
    if n == k + 1 {
      MintingStep(ds[k], es[k], at[k]);
    } else {
      CodeIsLiveIff(ds, es, at, k, n - 1);
      DrawnStays(ds[n - 1], es[n - 1], at[n - 1]);
      if es[k].code in ds[n - 1].authCodes {
        CodeStep(ds[n - 1], es[n - 1], at[n - 1], es[k].code);
      } else {
        GoneForGood(ds, es, at, n - 1, n, es[k].code);
      }
    }
  }

  lemma DrawnStays(d: Desk, e: Event, now: int)
    ensures d.drawn <= Step(d, e, now).drawn
  {
  }

  lemma CodeIsAcceptedIff(ds: seq<Desk>, es: seq<Event>, at: seq<int>, k: nat, n: nat, now: int)
    requires IsRun(ds, es, at) && k < n <= |es|
    requires es[k].EDecide? && es[k].decision == Approve
    requires es[k].rid in ds[k].consents && ds[k].consents[es[k].rid].phase == Pending
    ensures Redeemable(ds[n], es[k].code, now) <==>
              now - at[k] <= 60000 && forall m :: k < m < n ==> !Takes(es[m], es[k].code, es[k].ws)
  {
    hide Step, Takes;
    CodeIsLiveIff(ds, es, at, k, n);
  }

  // --------------------------------------------------------------- implementation

  class ConsentManager {
    var consents: map<string, ConsentRecord>
    var authCodes: map<string, AuthCode>
    var decisionTimers: set<string>
    var codeExpiryTimers: set<string>
    var decisionResolvers: set<string>
    var settled: map<string, Outcome>
    var stopped: bool
    ghost var drawn: set<string>

    ghost function View(): Desk
      reads this
    {
      Desk(consents, authCodes, decisionTimers, codeExpiryTimers, decisionResolvers, settled, stopped, drawn)
    }

    constructor ()
      ensures View() == EMPTY_DESK
    {
      consents, authCodes := map[], map[];
      decisionTimers, codeExpiryTimers, decisionResolvers := {}, {}, {};
      settled, stopped, drawn := map[], false, {};
    }

    /** `rid` is the id just drawn from the random source, `sent` what the send adapter did. */
    method BeginConsent(rid: string, req: AuthRequest, now: int, sent: Delivery) returns (reply: BeginReply)
      requires Allowed(View(), EBegin(rid, req, sent)) && rid !in consents
      modifies this
      ensures View() == Begin(old(View()), rid, req, now, sent)
      ensures reply == BeginReplyOf(old(View()), sent)
    {
      if stopped {
        return ExtensionOffline;
      }
      drawn := drawn + {rid};
      consents := consents[rid := NewRecord(req, now)];
      if sent.SendThrew? {
        consents := consents - {rid};
        return ExtensionOffline;
      }
      if sent.delivered == 0 {
        consents := consents - {rid};
        return if sent.totalActive == 0 then ExtensionOffline else NoUnboundWorkspace;
      }
      return Begun;
    }

    /** The closure stored as the resolver of `rid`. */
    method Settle(rid: string, o: Outcome)
      modifies this
      ensures View() == Wake(old(View()), rid, o)
    {
      if rid !in decisionResolvers {
        return;
      }
      decisionResolvers := decisionResolvers - {rid};
      decisionTimers := decisionTimers - {rid};
      settled := settled[rid := o];
    }

    /** The only place a record leaves `pending`. */
    method Transition(rid: string, next: Outcome) returns (transitioned: bool)
      modifies this
      ensures transitioned <==> rid in old(consents) && old(consents)[rid].phase == Pending
      ensures !transitioned ==> View() == old(View())
      ensures transitioned ==>
                var r := old(consents)[rid];
                View() == Resolve(old(View()), rid,
                  match next
                  case OutcomeApproved(code) => r.(phase := Approved, issuedCode := Some(code))
                  case OutcomeDenied(kind) => r.(phase := Denied, denialKind := Some(kind))
                  case OutcomeTimeout => r.(phase := TimedOut))
    {
      if rid !in consents || consents[rid].phase != Pending {
        return false;
      }
      var r := consents[rid];
      match next {
        case OutcomeApproved(code) => r := r.(phase := Approved, issuedCode := Some(code));
        case OutcomeDenied(kind) => r := r.(phase := Denied, denialKind := Some(kind));
        case OutcomeTimeout => r := r.(phase := TimedOut);
      }
      consents := consents[rid := r];
      if r.phase == Approved && r.issuedCode.Some? {
        Settle(rid, OutcomeApproved(r.issuedCode.value));
      } else if r.phase == Denied && r.denialKind.Some? {
        Settle(rid, OutcomeDenied(r.denialKind.value));
      } else {
        Settle(rid, OutcomeTimeout);
      }
      return true;
    }

    /** `code` is the value `generateAuthCode` draws when the decision is an approval. */
    method RecordDecision(rid: string, decision: Decision, ws: Option<string>, code: string, now: int)
      modifies this
      ensures View() == Decide(old(View()), rid, decision, ws, code, now)
    {
      if rid !in consents || consents[rid].phase != Pending || decision == Dismiss {
        return;
      }
      var transitioned;
      if decision == Approve {
        consents := consents[rid := consents[rid].(boundWorkspace := ws)];
        drawn := drawn + {code};
        authCodes := authCodes[code := NewCode(consents[rid], now, ws)];
        codeExpiryTimers := codeExpiryTimers + {code};
        ghost var r := old(consents)[rid];
        assert consents[rid := r.(phase := Approved, issuedCode := Some(code), boundWorkspace := ws)]
            == old(consents)[rid := r.(phase := Approved, issuedCode := Some(code), boundWorkspace := ws)];
        transitioned := Transition(rid, OutcomeApproved(code));
      } else {
        transitioned := Transition(rid, OutcomeDenied(decision));
      }
    }

    method AwaitDecision(rid: string)
      requires Allowed(View(), EAwait(rid))
      requires rid in consents ==> RecordOk(consents[rid])
      modifies this
      ensures View() == Await(old(View()), rid)
    {
      if rid !in consents {
        settled := settled[rid := OutcomeTimeout];
      } else if consents[rid].phase == Approved && consents[rid].issuedCode.Some? {
        settled := settled[rid := OutcomeApproved(consents[rid].issuedCode.value)];
      } else if consents[rid].phase == Denied && consents[rid].denialKind.Some? {
        settled := settled[rid := OutcomeDenied(consents[rid].denialKind.value)];
      } else if consents[rid].phase == TimedOut {
        settled := settled[rid := OutcomeTimeout];
      } else {
        decisionResolvers := decisionResolvers + {rid};
        if rid !in decisionTimers {
          decisionTimers := decisionTimers + {rid};
        }
      }
    }

    /** The callback of the decision timer. */
    method DecisionTimerFired(rid: string)
      modifies this
      ensures View() == TimerFires(old(View()), rid)
    {
      var fired := Transition(rid, OutcomeTimeout);
      if rid !in consents {
        Settle(rid, OutcomeTimeout);
      } else if consents[rid].phase == Approved && consents[rid].issuedCode.Some? {
        Settle(rid, OutcomeApproved(consents[rid].issuedCode.value));
      } else if consents[rid].phase == Denied && consents[rid].denialKind.Some? {
        Settle(rid, OutcomeDenied(consents[rid].denialKind.value));
      } else {
        Settle(rid, OutcomeTimeout);
      }
    }

    /** The callback of a code's expiry timer. */
    method CodeExpired(code: string)
      modifies this
      ensures View() == DropCodes(old(View()), {code})
    {
      authCodes := authCodes - {code};
      codeExpiryTimers := codeExpiryTimers - {code};
    }

    method RedeemAuthCode(code: string, now: int) returns (record: Option<AuthCode>)
      modifies this
      ensures View() == Redeem(old(View()), code, now)
      ensures record.Some? <==> Redeemable(old(View()), code, now)
      ensures record.Some? ==> record.value == old(authCodes)[code].(redeemed := true)
    {
      if code !in authCodes || authCodes[code].redeemed {
        return None;
      }
      var rec := authCodes[code];
      if now - rec.issuedAt > AUTH_CODE_TTL_MS {
        authCodes := authCodes - {code};
        codeExpiryTimers := codeExpiryTimers - {code};
        return None;
      }
      rec := rec.(redeemed := true);
      authCodes := authCodes - {code};
      codeExpiryTimers := codeExpiryTimers - {code};
      return Some(rec);
    }

    method RevokeAuthCodesByWorkspace(ws: string) returns (removed: nat)
      modifies this
      ensures View() == RevokeCodes(old(View()), ws)
      ensures removed == |CodesOf(old(View()), ws)|
    {
      removed := 0;
      ghost var gone: set<string> := {};
      var todo := authCodes.Keys;
      while todo != {}
        invariant todo <= old(authCodes).Keys && gone !! todo
        invariant gone == set c | c in old(authCodes) && c !in todo && old(authCodes)[c].boundWorkspace == Some(ws)
        invariant View() == DropCodes(old(View()), gone)
        invariant removed == |gone|
        decreases todo
      {
        var code :| code in todo;
        todo := todo - {code};
        if authCodes[code].boundWorkspace == Some(ws) {
          authCodes := authCodes - {code};
          codeExpiryTimers := codeExpiryTimers - {code};
          gone := gone + {code};
          removed := removed + 1;
        }
      }
      assert gone == CodesOf(old(View()), ws);
    }

    method Stop()
      modifies this
      ensures View() == StopDesk(old(View()))
    {
      if stopped {
        return;
      }
      stopped := true;
      decisionTimers := {};
      codeExpiryTimers := {};
      ghost var done: set<string> := {};
      while decisionResolvers != {}
        invariant done + decisionResolvers == old(decisionResolvers)
        invariant decisionTimers == {} && settled == old(settled) + AllTimedOut(done)
        invariant View() == old(View()).(stopped := true, decisionTimers := {}, codeTimers := {},
                                         waiting := decisionResolvers, outcomes := settled)
        decreases decisionResolvers
      {
        var rid :| rid in decisionResolvers;
        OneMoreTimedOut(old(settled), done, rid);
        done := done + {rid};
        Settle(rid, OutcomeTimeout);
      }
    }
  }
}
