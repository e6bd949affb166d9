/**
 * The grant pipeline: the token endpoint redeems a code minted by the consent desk,
 * captures the workspace's old tokens, mints a new one, and after an await revokes
 * exactly what it captured. Redeem, checks, capture and mint are one atomic step; the
 * revoke is a second one, and anything may happen between the two.
 */
module GrantPipeline {
  import opened Common
  import C = Consent
  import opened TokenStore

  /** SHA-256, as PKCE and the token store use it. */
  datatype Crypto = Crypto(s256: string -> string, sha: string -> string)

  datatype Params = Params(
    grantType: Option<string>,
    code: Option<string>,
    redirectUri: Option<string>,
    clientId: Option<string>,
    clientSecret: Option<string>,
    codeVerifier: Option<string>)

  datatype TokenError =
    | UnsupportedGrantType | CodeRequired | ClientIdRequired | VerifierRequired
    | SecretRequired | ClientAuthFailed
    | InvalidCode | WrongClient | WrongRedirect | PkceFailed

  datatype Verdict = Refused(error: TokenError) | Granted(code: C.AuthCode)

  /**
   * `inflight` holds, for each token request that has minted but not yet revoked, the
   * hashes it captured. `hashes` are the token hashes that have ever existed.
   */
  datatype Grants = Grants(
    desk: C.Desk,
    tokens: seq<TokenRecord>,
    inflight: map<nat, seq<string>>,
    clock: int,
    hashes: set<string>)

  datatype Event =
    | Tick(dt: nat)
    | OnDesk(e: C.Event)
    | TokenRequest(handler: nat, p: Params, secretOk: bool, token: string)
    | FinishTakeover(handler: nat)
    | Unbind(ws: string)
    | RevokeAll
    | SetGranularity(ws: string, g: Granularity)

  // ---------------------------------------------------------------- specification

  predicate Missing(v: Option<string>) {
    v.None? || v.value == ""
  }

  /** The checks made before a code is touched: a request that fails them does not burn it. */
  function Precheck(p: Params, secretOk: bool): Option<TokenError> {
    if p.grantType != Some("authorization_code") then Some(UnsupportedGrantType)
    else if Missing(p.code) then Some(CodeRequired)
    else if Missing(p.clientId) then Some(ClientIdRequired)
    else if Missing(p.codeVerifier) then Some(VerifierRequired)
    else if Missing(p.clientSecret) then Some(SecretRequired)
    else if !secretOk then Some(ClientAuthFailed)
    else None
  }

  function Decision(k: Crypto, desk: C.Desk, p: Params, secretOk: bool, now: int): Verdict {
    if Precheck(p, secretOk).Some? then Refused(Precheck(p, secretOk).value)
    else if !C.Redeemable(desk, p.code.value, now) then Refused(InvalidCode)
    else
      var a := desk.authCodes[p.code.value];
      if Some(a.clientId) != p.clientId then Refused(WrongClient)
      else if p.redirectUri != Some(a.redirectUri) then Refused(WrongRedirect)
      else if k.s256(p.codeVerifier.value) != a.codeChallenge then Refused(PkceFailed)
      else Granted(a)
  }

  /** What an event does to the consent desk. */
  function DeskPart(e: Event): C.Event {
    match e
    case OnDesk(d) => d
    case TokenRequest(_, p, secretOk, _) => if Precheck(p, secretOk).None? then C.ERedeem(p.code.value) else C.EIdle
    case Unbind(ws) => C.ERevokeCodes(ws)
    case _ => C.EIdle
  }

  function Captured(ts: seq<TokenRecord>, ws: Option<string>, now: int): seq<string> {
    if ws.None? then [] else Hashes(ActiveTokens(ts, ws.value, now))
  }

  function Elements(s: seq<string>): (r: set<string>)
    ensures forall x :: x in r <==> x in s
  {
    set x | x in s
  }

  function Issue(k: Crypto, s: Grants, handler: nat, p: Params, a: C.AuthCode, token: string): Grants
    requires p.clientId.Some?
  {
    var captured := Captured(s.tokens, a.boundWorkspace, s.clock);
    s.(tokens := s.tokens + [NewToken(k.sha(token), p.clientId.value, a.boundWorkspace, s.clock)],
       inflight := if captured == [] then s.inflight else s.inflight[handler := captured],
       hashes := s.hashes + {k.sha(token)})
  }

  /** What an event does to tokens and handlers. */
  function TokenPart(k: Crypto, s: Grants, e: Event): Grants {
    match e
    case Tick(dt) => s.(clock := s.clock + dt)
    case OnDesk(_) => s
    case TokenRequest(handler, p, secretOk, token) =>
      var v := Decision(k, s.desk, p, secretOk, s.clock);
      if v.Granted? then Issue(k, s, handler, p, v.code, token) else s
    case FinishTakeover(handler) =>
      if handler in s.inflight
      then s.(tokens := WithoutHashes(s.tokens, Elements(s.inflight[handler])), inflight := s.inflight - {handler})
      else s
    case Unbind(ws) => s.(tokens := WithoutWorkspace(s.tokens, ws))
    case RevokeAll => s.(tokens := [])
    case SetGranularity(ws, g) => s.(tokens := WithGranularity(s.tokens, ws, g, s.clock))
  }

  function Step(k: Crypto, s: Grants, e: Event): Grants {
    TokenPart(k, s, e).(desk := C.Step(s.desk, DeskPart(e), s.clock))
  }

  /** Handlers are distinct, and SHA-256 never maps a newly drawn token to an old hash. */
  predicate Allowed(k: Crypto, s: Grants, e: Event) {
    match e
    case OnDesk(d) => C.Allowed(s.desk, d) && !d.ERedeem? && !d.ERevokeCodes?
    case TokenRequest(handler, _, _, token) => handler !in s.inflight && k.sha(token) !in s.hashes
    case FinishTakeover(handler) => handler in s.inflight
    case _ => true
  }

  /** A daemon that has just read a file with at most one unexpired token per workspace. */
  ghost predicate Initial(s: Grants, disk: seq<TokenRecord>) {
    && s.desk == C.EMPTY_DESK
    && s.inflight == map[]
    && s.tokens == Unexpired(disk, s.clock)
    && HashesDistinct(disk)
    && (forall ws :: |ActiveTokens(disk, ws, s.clock)| <= 1)
    && (forall t :: t in disk ==> t.tokenHash in s.hashes && t.expiresAt <= s.clock + ACCESS_TOKEN_TTL_MS)
  }

  ghost predicate IsRun(k: Crypto, disk: seq<TokenRecord>, ss: seq<Grants>, es: seq<Event>) {
    && |ss| == |es| + 1
    && Initial(ss[0], disk)
    && forall i :: 0 <= i < |es| ==> Allowed(k, ss[i], es[i]) && ss[i + 1] == Step(k, ss[i], es[i])
  }

  // -------------------------------------------------------- the takeover invariant

  ghost predicate IsCaptured(s: Grants, hash: string) {
    exists handler :: handler in s.inflight && hash in s.inflight[handler]
  }

  ghost predicate HashesOk(s: Grants) {
    && HashesDistinct(s.tokens)
    && (forall t :: t in s.tokens ==> t.tokenHash in s.hashes)
    && (forall handler, h :: handler in s.inflight && h in s.inflight[handler] ==> h in s.hashes)
  }

  /** Tokens expire in the order in which they were minted. */
  ghost predicate ExpiryOk(s: Grants) {
    && (forall t :: t in s.tokens ==> t.expiresAt <= s.clock + ACCESS_TOKEN_TTL_MS)
    && (forall t, ws :: t in s.tokens && BoundTo(t, ws) && Newest(s.tokens, ws).Some? ==>
          t.expiresAt <= Newest(s.tokens, ws).value.expiresAt)
  }

  ghost predicate IsNewest(s: Grants, t: TokenRecord, ws: string) {
    Newest(s.tokens, ws).Some? && Newest(s.tokens, ws).value.tokenHash == t.tokenHash
  }

  /** Every unexpired token but the newest is about to be revoked; the newest never is. */
  ghost predicate CapturedOk(s: Grants) {
    && (forall t, ws :: t in s.tokens && BoundTo(t, ws) && Active(t, s.clock) && !IsNewest(s, t, ws) ==>
          IsCaptured(s, t.tokenHash))
    && (forall ws :: Newest(s.tokens, ws).Some? ==> !IsCaptured(s, Newest(s.tokens, ws).value.tokenHash))
  }

  ghost predicate TakeoverOk(s: Grants) {
    HashesOk(s) && ExpiryOk(s) && CapturedOk(s)
  }

  /** The consent desk plays no part in the takeover invariant. */
  lemma DeskIrrelevant(s: Grants, desk: C.Desk)
    requires TakeoverOk(s)
    ensures TakeoverOk(s.(desk := desk))
  {
  }

  lemma IssueKeepsHashes(k: Crypto, s: Grants, handler: nat, p: Params, a: C.AuthCode, token: string)
    requires HashesOk(s) && p.clientId.Some?
    requires handler !in s.inflight && k.sha(token) !in s.hashes
    ensures HashesOk(Issue(k, s, handler, p, a, token))
  {
  }

  lemma CapturedAreActive(ts: seq<TokenRecord>, ws: Option<string>, now: int, h: string)
    ensures h in Captured(ts, ws, now) <==>
              ws.Some? && exists t :: t in ts && BoundTo(t, ws.value) && Active(t, now) && t.tokenHash == h
  {
  }

  lemma IssueKeepsTakeover(k: Crypto, s: Grants, handler: nat, p: Params, a: C.AuthCode, token: string)
    requires TakeoverOk(s) && p.clientId.Some?
    requires handler !in s.inflight && k.sha(token) !in s.hashes
    ensures TakeoverOk(Issue(k, s, handler, p, a, token))
  {
    IssueKeepsHashes(k, s, handler, p, a, token);
    var s' := Issue(k, s, handler, p, a, token);
    var captured := Captured(s.tokens, a.boundWorkspace, s.clock);
    var t' := NewToken(k.sha(token), p.clientId.value, a.boundWorkspace, s.clock);
    forall ws
      ensures Newest(s'.tokens, ws) == if BoundTo(t', ws) then Some(t') else Newest(s.tokens, ws)
    {
      NewestOfAppended(s.tokens, t', ws);
    }
    forall h | IsCaptured(s, h)
      ensures IsCaptured(s', h)
    {
      var x :| x in s.inflight && h in s.inflight[x];
      assert x in s'.inflight && h in s'.inflight[x];
    }
    forall t, ws | t in s'.tokens && BoundTo(t, ws) && Active(t, s'.clock) && !IsNewest(s', t, ws)
      ensures IsCaptured(s', t.tokenHash)
    {
      assert t != t';
      if a.boundWorkspace == Some(ws) {
        CapturedAreActive(s.tokens, a.boundWorkspace, s.clock, t.tokenHash);
        assert handler in s'.inflight && t.tokenHash in s'.inflight[handler];
      } else {
        assert !IsNewest(s, t, ws);
      }
    }
    forall ws | Newest(s'.tokens, ws).Some?
      ensures !IsCaptured(s', Newest(s'.tokens, ws).value.tokenHash)
    {
      var n := Newest(s'.tokens, ws).value;
      if x :| x in s'.inflight && n.tokenHash in s'.inflight[x] {
        if x == handler {
          CapturedAreActive(s.tokens, a.boundWorkspace, s.clock, n.tokenHash);
          var t :| t in s.tokens && BoundTo(t, a.boundWorkspace.value) && t.tokenHash == n.tokenHash;
          if n != t' {
            SameHashSameToken(s.tokens, t, n);
          }
        }
      }
    }
  }

  /** Filtering out tokens that are captured, or all of a workspace, keeps the invariant. */
  lemma FilterKeepsTakeover(s: Grants, s': Grants, p: TokenRecord -> bool)
    requires TakeoverOk(s)
    requires s'.tokens == Filter(s.tokens, p) && s'.clock == s.clock && s'.hashes == s.hashes
    requires forall x :: x in s'.inflight ==> x in s.inflight && s'.inflight[x] == s.inflight[x]
    requires forall t :: t in s.tokens && p(t) && IsCaptured(s, t.tokenHash) ==> IsCaptured(s', t.tokenHash)
    requires forall ws :: Newest(s.tokens, ws).Some? ==>
               p(Newest(s.tokens, ws).value) || forall t :: t in s.tokens && BoundTo(t, ws) ==> !p(t)
    ensures TakeoverOk(s')
  {
    FilterHashesDistinct(s.tokens, p);
    forall ws | Newest(s'.tokens, ws).Some?
      ensures Newest(s'.tokens, ws) == Newest(s.tokens, ws)
    {
      assert Newest(s'.tokens, ws).value in s'.tokens;
      assert Newest(s.tokens, ws).Some?;
      NewestSurvivesFilter(s.tokens, ws, p);
    }
    forall h | IsCaptured(s', h)
      ensures IsCaptured(s, h)
    {
      var x :| x in s'.inflight && h in s'.inflight[x];
      assert x in s.inflight && h in s.inflight[x];
    }
    forall t, ws | t in s'.tokens && BoundTo(t, ws) && Active(t, s'.clock) && !IsNewest(s', t, ws)
      ensures IsCaptured(s', t.tokenHash)
    {
      assert !IsNewest(s, t, ws);
    }
  }

  /** Two tokens that differ at most in their granularity. */
  ghost predicate SameGrant(t: TokenRecord, u: TokenRecord) {
    t.(granularity := None) == u.(granularity := None)
  }

  lemma GranularityKeepsGrants(ts: seq<TokenRecord>, ws: string, g: Granularity, now: int, t: TokenRecord)
    requires t in WithGranularity(ts, ws, g, now)
    ensures exists u :: u in ts && SameGrant(t, u)
  {
    var i :| 0 <= i < |ts| && WithGranularity(ts, ws, g, now)[i] == t;
    assert ts[i] in ts && SameGrant(t, ts[i]);
  }

  lemma SetGranularityKeepsTakeover(s: Grants, ws: string, g: Granularity)
    requires TakeoverOk(s)
    ensures TakeoverOk(s.(tokens := WithGranularity(s.tokens, ws, g, s.clock)))
  {
    var s' := s.(tokens := WithGranularity(s.tokens, ws, g, s.clock));
    assert Hashes(s'.tokens) == Hashes(s.tokens);
    forall h ensures IsCaptured(s', h) <==> IsCaptured(s, h) {}
    forall w
      ensures Newest(s.tokens, w).Some? == Newest(s'.tokens, w).Some?
      ensures Newest(s.tokens, w).Some? ==> SameGrant(Newest(s.tokens, w).value, Newest(s'.tokens, w).value)
    {
      NewestWithGranularity(s.tokens, w, ws, g, s.clock);
    }
    forall t | t in s'.tokens
      ensures t.tokenHash in s.hashes && t.expiresAt <= s.clock + ACCESS_TOKEN_TTL_MS
      ensures forall w :: BoundTo(t, w) && Newest(s'.tokens, w).Some? ==>
                t.expiresAt <= Newest(s'.tokens, w).value.expiresAt
      ensures forall w :: BoundTo(t, w) && Active(t, s.clock) && !IsNewest(s', t, w) ==> IsCaptured(s, t.tokenHash)
    {
      GranularityKeepsGrants(s.tokens, ws, g, s.clock, t);
      var u :| u in s.tokens && SameGrant(t, u);
      forall w | BoundTo(t, w) && Newest(s'.tokens, w).Some?
        ensures t.expiresAt <= Newest(s'.tokens, w).value.expiresAt
      {
        assert BoundTo(u, w);
      }
      forall w | BoundTo(t, w) && Active(t, s.clock) && !IsNewest(s', t, w)
        ensures IsCaptured(s, t.tokenHash)
      {
        assert BoundTo(u, w) && !IsNewest(s, u, w);
      }
    }
  }

  lemma TokenPartKeepsTakeover(k: Crypto, s: Grants, e: Event)
    requires TakeoverOk(s) && Allowed(k, s, e)
    ensures TakeoverOk(TokenPart(k, s, e))
  {
    var s' := TokenPart(k, s, e);
    match e
    case Tick(dt) =>
      assert forall h :: IsCaptured(s', h) <==> IsCaptured(s, h);
      assert forall t, ws :: IsNewest(s', t, ws) <==> IsNewest(s, t, ws);
    case OnDesk(_) =>
    case TokenRequest(handler, p, secretOk, token) =>
      var v := Decision(k, s.desk, p, secretOk, s.clock);
      if v.Granted? {
        IssueKeepsTakeover(k, s, handler, p, v.code, token);
      }
    case FinishTakeover(handler) => FinishKeepsTakeover(k, s, handler);
    case Unbind(ws) =>
      assert forall h :: IsCaptured(s', h) <==> IsCaptured(s, h);
      FilterKeepsTakeover(s, s', NotBoundTo(ws));
    case RevokeAll =>
    case SetGranularity(ws, g) => SetGranularityKeepsTakeover(s, ws, g);
  }

  lemma FinishKeepsTakeover(k: Crypto, s: Grants, handler: nat)
    requires TakeoverOk(s) && handler in s.inflight
    ensures TakeoverOk(TokenPart(k, s, FinishTakeover(handler)))
  {
    var s' := TokenPart(k, s, FinishTakeover(handler));
    var p := HashNotIn(Elements(s.inflight[handler]));
    forall t | t in s.tokens && p(t) && IsCaptured(s, t.tokenHash)
      ensures IsCaptured(s', t.tokenHash)
    {
      var x :| x in s.inflight && t.tokenHash in s.inflight[x];
      assert x in s'.inflight && t.tokenHash in s'.inflight[x];
    }
    FilterKeepsTakeover(s, s', p);
  }

  lemma InitialTakeover(s: Grants, disk: seq<TokenRecord>)
    requires Initial(s, disk)
    ensures TakeoverOk(s)
  {
    FilterHashesDistinct(disk, ActiveAt(s.clock));
    forall t, ws | t in s.tokens && BoundTo(t, ws)
      ensures Newest(s.tokens, ws) == Some(t)
    {
      var n := Newest(s.tokens, ws).value;
      var active := ActiveTokens(disk, ws, s.clock);
      assert t in active && n in active && |active| <= 1;
    }
  }

  lemma {:induction false} TakeoverAt(k: Crypto, disk: seq<TokenRecord>, ss: seq<Grants>, es: seq<Event>, n: nat)
    requires IsRun(k, disk, ss, es) && n <= |es|
    ensures TakeoverOk(ss[n])
  {
    if n == 0 {
      InitialTakeover(ss[0], disk);
    } else {
      TakeoverAt(k, disk, ss, es, n - 1);
      TokenPartKeepsTakeover(k, ss[n - 1], es[n - 1]);
      DeskIrrelevant(TokenPart(k, ss[n - 1], es[n - 1]), ss[n].desk);
    }
  }

  /**
   * In every interleaving, each unexpired token of a workspace other than the newest
   * is in the captured set of an unfinished handler, and the newest is in none.
   */
  lemma OldTokensAreCaptured(
    k: Crypto, disk: seq<TokenRecord>, ss: seq<Grants>, es: seq<Event>, n: nat, t: TokenRecord, ws: string)
    requires IsRun(k, disk, ss, es) && n <= |es|
    requires t in ss[n].tokens && BoundTo(t, ws) && Active(t, ss[n].clock)
    ensures Newest(ss[n].tokens, ws).Some?
    ensures IsCaptured(ss[n], t.tokenHash) <==> t != Newest(ss[n].tokens, ws).value
  {
    TakeoverAt(k, disk, ss, es, n);
    if t != Newest(ss[n].tokens, ws).value && IsNewest(ss[n], t, ws) {
      SameHashSameToken(ss[n].tokens, t, Newest(ss[n].tokens, ws).value);
    }
  }

  /** Once every handler has finished, a workspace has at most one unexpired token. */
  lemma AtMostOneBinding(k: Crypto, disk: seq<TokenRecord>, ss: seq<Grants>, es: seq<Event>, n: nat, ws: string)
    requires IsRun(k, disk, ss, es) && n <= |es|
    requires ss[n].inflight == map[]
    ensures |ActiveTokens(ss[n].tokens, ws, ss[n].clock)| <= 1
  {
    TakeoverAt(k, disk, ss, es, n);
    var s := ss[n];
    var active := ActiveTokens(s.tokens, ws, s.clock);
    FilterHashesDistinct(s.tokens, ActiveFor(ws, s.clock));
    forall t | t in active
      ensures t.tokenHash == Newest(s.tokens, ws).value.tokenHash
    {
      assert IsNewest(s, t, ws);
    }
    if |active| > 1 {
      FirstTwoDiffer(active);
    }
  }

  /** Does this event mint a token for the workspace? */
  predicate MintsFor(k: Crypto, s: Grants, e: Event, ws: string) {
    && e.TokenRequest?
    && var v := Decision(k, s.desk, e.p, e.secretOk, s.clock);
    && v.Granted?
    && v.code.boundWorkspace == Some(ws)
  }

  predicate Unbinds(e: Event, ws: string) {
    e == Unbind(ws) || e == RevokeAll
  }

  /** Only minting for a workspace, unbinding it, or revoking everything changes its newest token. */
  lemma NewestKept(k: Crypto, s: Grants, e: Event, ws: string)
    requires TakeoverOk(s) && Allowed(k, s, e) && Newest(s.tokens, ws).Some?
    requires !MintsFor(k, s, e, ws) && !Unbinds(e, ws)
    ensures Newest(Step(k, s, e).tokens, ws).Some?
    ensures SameGrant(Newest(Step(k, s, e).tokens, ws).value, Newest(s.tokens, ws).value)
  {
    match e
    case TokenRequest(handler, p, secretOk, token) =>
      var v := Decision(k, s.desk, p, secretOk, s.clock);
      if v.Granted? {
        NewestOfAppended(s.tokens, NewToken(k.sha(token), p.clientId.value, v.code.boundWorkspace, s.clock), ws);
      }
    case FinishTakeover(handler) =>
      var n := Newest(s.tokens, ws).value;
      assert n.tokenHash !in s.inflight[handler] by {
        assert !IsCaptured(s, n.tokenHash);
      }
      NewestSurvivesFilter(s.tokens, ws, HashNotIn(Elements(s.inflight[handler])));
    case Unbind(other) => NewestSurvivesFilter(s.tokens, ws, NotBoundTo(other));
    case SetGranularity(w, g) => NewestWithGranularity(s.tokens, ws, w, g, s.clock);
    case _ =>
  }

  /** A takeover never leaves a bound workspace unbound: its revoke step spares the newest token. */
  lemma TakeoverNeverUnbinds(k: Crypto, disk: seq<TokenRecord>, ss: seq<Grants>, es: seq<Event>, i: nat, ws: string)
    requires IsRun(k, disk, ss, es) && i < |es| && es[i].FinishTakeover?
    requires ActiveTokens(ss[i].tokens, ws, ss[i].clock) != []
    ensures ActiveTokens(ss[i + 1].tokens, ws, ss[i + 1].clock) != []
  {
    TakeoverAt(k, disk, ss, es, i);
    var t := ActiveTokens(ss[i].tokens, ws, ss[i].clock)[0];
    assert t in ActiveTokens(ss[i].tokens, ws, ss[i].clock);
    assert BoundTo(t, ws) && Newest(ss[i].tokens, ws).Some?;
    NewestKept(k, ss[i], es[i], ws);
    var n := Newest(ss[i + 1].tokens, ws).value;
    assert n in ActiveTokens(ss[i + 1].tokens, ws, ss[i + 1].clock);
  }

  /** A minted token stays in the store until its workspace is unbound or granted again. */
  lemma {:induction false} MintedTokenSurvives(
    k: Crypto, disk: seq<TokenRecord>, ss: seq<Grants>, es: seq<Event>, i: nat, j: nat, ws: string)
    requires IsRun(k, disk, ss, es) && i < j <= |es| && MintsFor(k, ss[i], es[i], ws)
    requires forall m :: i < m < j ==> !MintsFor(k, ss[m], es[m], ws) && !Unbinds(es[m], ws)
    ensures Newest(ss[j].tokens, ws).Some?
    ensures SameGrant(Newest(ss[j].tokens, ws).value,
              NewToken(k.sha(es[i].token), es[i].p.clientId.value, Some(ws), ss[i].clock))
    decreases j
  {
    if j == i + 1 {
      NewestOfAppended(ss[i].tokens, NewToken(k.sha(es[i].token), es[i].p.clientId.value, Some(ws), ss[i].clock), ws);
    } else {
      MintedTokenSurvives(k, disk, ss, es, i, j - 1, ws);
      TakeoverAt(k, disk, ss, es, j - 1);
      NewestKept(k, ss[j - 1], es[j - 1], ws);
    }
  }

  // ------------------------------------------------------------------- provenance

  function Desks(ss: seq<Grants>): (r: seq<C.Desk>)
    ensures |r| == |ss| && forall i :: 0 <= i < |ss| ==> r[i] == ss[i].desk
  {
    seq(|ss|, i requires 0 <= i < |ss| => ss[i].desk)
  }

  function DeskEvents(es: seq<Event>): (r: seq<C.Event>)
    ensures |r| == |es| && forall i :: 0 <= i < |es| ==> r[i] == DeskPart(es[i])
  {
    seq(|es|, i requires 0 <= i < |es| => DeskPart(es[i]))
  }

  function Clocks(ss: seq<Grants>, n: nat): (r: seq<int>)
    requires n <= |ss|
    ensures |r| == n && forall i :: 0 <= i < n ==> r[i] == ss[i].clock
  {
    seq(n, i requires 0 <= i < n => ss[i].clock)
  }

  /** Seen from the consent desk, a run of the pipeline is a run of the desk. */
  lemma DeskRun(k: Crypto, disk: seq<TokenRecord>, ss: seq<Grants>, es: seq<Event>)
    requires IsRun(k, disk, ss, es)
    ensures C.IsRun(Desks(ss), DeskEvents(es), Clocks(ss, |es|))
  {
  }

  /**
   * Token `t` of state `n` was minted at step `j`, for thirty days, by a client that had
   * authenticated and redeemed the code that the approval at step `i` issued: same
   * client, same redirect URI, a verifier for the challenge, and the workspace that
   * answered. That consent is still on record as approved with this code, the workspace
   * has not been unbound since, and not everything was revoked since.
   */
  ghost predicate Provenance(k: Crypto, ss: seq<Grants>, es: seq<Event>, n: nat, t: TokenRecord, i: nat, j: nat)
    requires |ss| == |es| + 1 && n <= |es|
  {
    && i < j < n
    && es[j].TokenRequest?
    && Decision(k, ss[j].desk, es[j].p, es[j].secretOk, ss[j].clock).Granted?
    && es[j].secretOk && es[j].p.grantType == Some("authorization_code")
    && k.sha(es[j].token) == t.tokenHash
    && t.issuedAt == ss[j].clock && t.expiresAt == ss[j].clock + 2592000000
    && es[j].p.code.Some?
    && es[i].OnDesk?
    && C.Mints(ss[i].desk, es[i].e, es[j].p.code.value)
    && var rid := es[i].e.rid;
    && var asked := ss[i].desk.consents[rid];
    && es[j].p.clientId == Some(asked.clientId)
    && t.clientId == asked.clientId
    && es[j].p.redirectUri == Some(asked.redirectUri)
    && k.s256(es[j].p.codeVerifier.value) == asked.codeChallenge
    && t.boundWorkspace == es[i].e.ws
    && rid in ss[n].desk.consents
    && ss[n].desk.consents[rid]
       == asked.(phase := C.Approved, issuedCode := es[j].p.code, boundWorkspace := t.boundWorkspace)
    && (t.boundWorkspace.Some? ==> forall m :: i < m < n ==> es[m] != Unbind(t.boundWorkspace.value))
    && (forall m :: j < m < n ==> es[m] != RevokeAll)
  }

  /** A token after a step is a token from before, up to its granularity, or freshly minted. */
  lemma TokenBeforeStep(k: Crypto, s: Grants, e: Event, t: TokenRecord)
    requires t in Step(k, s, e).tokens
    ensures || (exists u :: u in s.tokens && SameGrant(t, u))
            || (e.TokenRequest? && Decision(k, s.desk, e.p, e.secretOk, s.clock).Granted?
                && t == NewToken(k.sha(e.token), e.p.clientId.value,
                                 Decision(k, s.desk, e.p, e.secretOk, s.clock).code.boundWorkspace, s.clock))
    ensures t.boundWorkspace.Some? ==> e != Unbind(t.boundWorkspace.value)
    ensures e != RevokeAll
  {
    match e
    case SetGranularity(ws, g) => GranularityKeepsGrants(s.tokens, ws, g, s.clock, t);
    case RevokeAll =>
    case _ =>
      if t in s.tokens {
        assert SameGrant(t, t);
      }
  }

  lemma ApprovalStays(k: Crypto, disk: seq<TokenRecord>, ss: seq<Grants>, es: seq<Event>, i: nat, n: nat, code: string)
    requires IsRun(k, disk, ss, es) && i < n <= |es|
    requires es[i].OnDesk? && C.Mints(ss[i].desk, es[i].e, code)
    ensures es[i].e.rid in ss[n].desk.consents
    ensures ss[n].desk.consents[es[i].e.rid] == ss[i].desk.consents[es[i].e.rid].(
              phase := C.Approved, issuedCode := Some(code), boundWorkspace := es[i].e.ws)
  {
    DeskRun(k, disk, ss, es);
    assert ss[i + 1].desk == C.Decide(ss[i].desk, es[i].e.rid, C.Approve, es[i].e.ws, code, ss[i].clock);
    C.FirstWriteWins(Desks(ss), DeskEvents(es), Clocks(ss, |es|), i + 1, n, es[i].e.rid);
  }

  /** A live code bound to a workspace comes from an approval after the workspace's last unbind. */
  lemma LiveCodeProvenance(
    k: Crypto, disk: seq<TokenRecord>, ss: seq<Grants>, es: seq<Event>, n: nat, code: string) returns (i: nat)
    requires IsRun(k, disk, ss, es) && n <= |es| && code in ss[n].desk.authCodes
    ensures i < n && es[i].OnDesk? && C.Mints(ss[i].desk, es[i].e, code)
    ensures ss[n].desk.authCodes[code]
         == C.NewCode(ss[i].desk.consents[es[i].e.rid], ss[i].clock, es[i].e.ws)
    ensures es[i].e.ws.Some? ==> forall m :: i < m < n ==> es[m] != Unbind(es[i].e.ws.value)
  {
    DeskRun(k, disk, ss, es);
    i := C.CodeOrigin(Desks(ss), DeskEvents(es), Clocks(ss, |es|), n, code);
    assert forall m, ws :: i < m < n && es[m] == Unbind(ws) ==> DeskEvents(es)[m] == C.ERevokeCodes(ws);
  }

  lemma MintProvenance(k: Crypto, ss: seq<Grants>, es: seq<Event>, j: nat, t: TokenRecord) returns (i: nat)
    requires IsRun(k, [], ss, es) && j < |es| && es[j].TokenRequest?
    requires Decision(k, ss[j].desk, es[j].p, es[j].secretOk, ss[j].clock).Granted?
    requires t == NewToken(k.sha(es[j].token), es[j].p.clientId.value,
                           Decision(k, ss[j].desk, es[j].p, es[j].secretOk, ss[j].clock).code.boundWorkspace,
                           ss[j].clock)
    ensures Provenance(k, ss, es, j + 1, t, i, j)
  {
    var code := es[j].p.code.value;
    i := LiveCodeProvenance(k, [], ss, es, j, code);
    ApprovalStays(k, [], ss, es, i, j + 1, code);
  }

  lemma ProvenanceLasts(
    k: Crypto, ss: seq<Grants>, es: seq<Event>, n: nat, u: TokenRecord, t: TokenRecord, i: nat, j: nat)
    requires IsRun(k, [], ss, es) && n < |es|
    requires Provenance(k, ss, es, n, u, i, j) && SameGrant(t, u) && es[n] != RevokeAll
    requires t.boundWorkspace.Some? ==> es[n] != Unbind(t.boundWorkspace.value)
    ensures Provenance(k, ss, es, n + 1, t, i, j)
  {
    hide Step, Decision, C.Mints, Initial;
    ApprovalStays(k, [], ss, es, i, n + 1, es[j].p.code.value);
  }

  /** Every token of a run that started with an empty store has a provenance. */
  lemma {:induction false} TokenProvenance(
    k: Crypto, ss: seq<Grants>, es: seq<Event>, n: nat, t: TokenRecord) returns (i: nat, j: nat)
    requires IsRun(k, [], ss, es) && n <= |es| && t in ss[n].tokens
    ensures Provenance(k, ss, es, n, t, i, j)
  {
    assert n > 0;
    TokenBeforeStep(k, ss[n - 1], es[n - 1], t);
    if u :| u in ss[n - 1].tokens && SameGrant(t, u) {
      i, j := TokenProvenance(k, ss, es, n - 1, u);
      ProvenanceLasts(k, ss, es, n - 1, u, t, i, j);
    } else {
      j := n - 1;
      i := MintProvenance(k, ss, es, j, t);
    }
  }

  /** Two tokens with the same approval are the same token: tokens map injectively to consents. */
  lemma ProvenanceIsInjective(
    k: Crypto, ss: seq<Grants>, es: seq<Event>, n: nat,
    t: TokenRecord, i: nat, j: nat, t': TokenRecord, i': nat, j': nat)
    requires IsRun(k, [], ss, es) && n <= |es| && t in ss[n].tokens && t' in ss[n].tokens
    requires Provenance(k, ss, es, n, t, i, j) && Provenance(k, ss, es, n, t', i', j')
    requires es[i].e.rid == es[i'].e.rid
    ensures t == t'
  {
    DeskRun(k, [], ss, es);
    var rid := es[i].e.rid;
    assert ss[n].desk.consents[rid].issuedCode == es[j].p.code == es[j'].p.code;
    C.RedeemedAtMostOnce(Desks(ss), DeskEvents(es), Clocks(ss, |es|), j, j', es[j].p.code.value);
    TakeoverAt(k, [], ss, es, n);
    SameHashSameToken(ss[n].tokens, t, t');
  }

  /** A request that fails a check before redemption leaves the code usable; a later failure burns it. */
  lemma RefusalBurnsCodeIffPresented(k: Crypto, s: Grants, e: Event, code: string)
    requires e.TokenRequest? && e.p.code == Some(code)
    requires C.Redeemable(s.desk, code, s.clock)
    ensures C.Redeemable(Step(k, s, e).desk, code, s.clock) <==> Precheck(e.p, e.secretOk).Some?
  {
  }

  // ------------------------------------------------------------- what a request gets

  /**
   * A request mints a token exactly when the client has authenticated, the code is live
   * and at most a minute old, and client, redirect URI and verifier belong to it. The
   * token is the client's, bound to the workspace that approved, for thirty days.
   */
  lemma TokenMintedIff(k: Crypto, disk: seq<TokenRecord>, ss: seq<Grants>, es: seq<Event>, n: nat)
    requires IsRun(k, disk, ss, es) && n < |es| && es[n].TokenRequest?
    ensures var p, codes := es[n].p, ss[n].desk.authCodes;
            if && p.grantType == Some("authorization_code")
               && p.clientId.Some? && p.clientId.value != ""
               && p.clientSecret.Some? && p.clientSecret.value != "" && es[n].secretOk
               && p.codeVerifier.Some? && p.codeVerifier.value != ""
               && p.code.Some? && p.code.value != "" && p.code.value in codes
               && ss[n].clock - codes[p.code.value].issuedAt <= 60000
               && codes[p.code.value].clientId == p.clientId.value
               && p.redirectUri == Some(codes[p.code.value].redirectUri)
               && k.s256(p.codeVerifier.value) == codes[p.code.value].codeChallenge
            then
              var ws := codes[p.code.value].boundWorkspace;
              ss[n + 1].tokens == ss[n].tokens +
                [TokenRecord(k.sha(es[n].token), p.clientId.value, ws, if ws.None? then None else Some(PerCall),
                             ss[n].clock, ss[n].clock + 2592000000)]
            else
              ss[n + 1].tokens == ss[n].tokens && ss[n + 1].inflight == ss[n].inflight
  {
    hide C.RecordsOk, C.AwaitersOk;
    DeskRun(k, disk, ss, es);
    C.ValidAt(Desks(ss), DeskEvents(es), Clocks(ss, |es|), n);
    assert ss[n + 1] == Step(k, ss[n], es[n]);
  }

  /**
   * A request whose client has not authenticated changes nothing at all; any other takes
   * exactly its code out of the desk, whatever becomes of it.
   */
  lemma CodeBurntIff(k: Crypto, disk: seq<TokenRecord>, ss: seq<Grants>, es: seq<Event>, n: nat)
    requires IsRun(k, disk, ss, es) && n < |es| && es[n].TokenRequest?
    ensures var p := es[n].p;
            if && p.grantType == Some("authorization_code")
               && p.clientId.Some? && p.clientId.value != ""
               && p.clientSecret.Some? && p.clientSecret.value != "" && es[n].secretOk
               && p.codeVerifier.Some? && p.codeVerifier.value != ""
               && p.code.Some? && p.code.value != ""
            then
              && ss[n + 1].desk.authCodes == ss[n].desk.authCodes - {p.code.value}
              && ss[n + 1].desk.consents == ss[n].desk.consents
            else ss[n + 1] == ss[n]
  {
    hide C.RecordsOk, C.AwaitersOk;
    DeskRun(k, disk, ss, es);
    C.ValidAt(Desks(ss), DeskEvents(es), Clocks(ss, |es|), n);
    assert ss[n + 1] == Step(k, ss[n], es[n]);
  }

  /** The reply names the first thing that is wrong, in this order. */
  lemma FirstErrorIsNamed(k: Crypto, disk: seq<TokenRecord>, ss: seq<Grants>, es: seq<Event>, n: nat)
    requires IsRun(k, disk, ss, es) && n < |es| && es[n].TokenRequest?
    ensures var p, codes := es[n].p, ss[n].desk.authCodes;
            var reply := Decision(k, ss[n].desk, p, es[n].secretOk, ss[n].clock);
            if p.grantType != Some("authorization_code") then reply == Refused(UnsupportedGrantType)
            else if p.code == None || p.code == Some("") then reply == Refused(CodeRequired)
            else if p.clientId == None || p.clientId == Some("") then reply == Refused(ClientIdRequired)
            else if p.codeVerifier == None || p.codeVerifier == Some("") then reply == Refused(VerifierRequired)
            else if p.clientSecret == None || p.clientSecret == Some("") then reply == Refused(SecretRequired)
            else if !es[n].secretOk then reply == Refused(ClientAuthFailed)
            else if p.code.value !in codes || ss[n].clock - codes[p.code.value].issuedAt > 60000
            then reply == Refused(InvalidCode)
            else if codes[p.code.value].clientId != p.clientId.value then reply == Refused(WrongClient)
            else if p.redirectUri != Some(codes[p.code.value].redirectUri) then reply == Refused(WrongRedirect)
            else if k.s256(p.codeVerifier.value) != codes[p.code.value].codeChallenge then reply == Refused(PkceFailed)
            else reply == Granted(codes[p.code.value])
  {
    hide C.RecordsOk, C.AwaitersOk;
    DeskRun(k, disk, ss, es);
    C.ValidAt(Desks(ss), DeskEvents(es), Clocks(ss, |es|), n);
  }

  /** A token only leaves the store captured by a takeover, with its workspace, or with everything. */
  lemma TokenGoneOnlyBy(k: Crypto, s: Grants, e: Event, t: TokenRecord)
    requires Allowed(k, s, e) && t in s.tokens
    ensures (exists u :: u in Step(k, s, e).tokens && SameGrant(t, u)) <==>
              !(|| e == RevokeAll
                || (e.Unbind? && t.boundWorkspace == Some(e.ws))
                || (e.FinishTakeover? && t.tokenHash in s.inflight[e.handler]))
  {
    var s' := Step(k, s, e);
    assert SameGrant(t, t);
    match e
    case SetGranularity(ws, g) =>
      var i :| 0 <= i < |s.tokens| && s.tokens[i] == t;
      assert s'.tokens[i] in s'.tokens && SameGrant(t, s'.tokens[i]);
    case _ =>
  }

  // ------------------------------------------------------------- what a handler captures

  /** The step minted a token for a workspace that still had an unexpired one. */
  ghost predicate MintsOver(s: Grants, s': Grants) {
    && |s'.tokens| > |s.tokens|
    && s'.tokens[|s.tokens|].boundWorkspace.Some?
    && exists t :: t in s.tokens && t.boundWorkspace == s'.tokens[|s.tokens|].boundWorkspace && s.clock < t.expiresAt
  }

  /** `h` is the hash of an unexpired token of the workspace for which the step minted. */
  ghost predicate WasReplaced(s: Grants, s': Grants, h: string) {
    && |s'.tokens| > |s.tokens|
    && exists t :: && t in s.tokens && t.tokenHash == h && s.clock < t.expiresAt
                   && t.boundWorkspace.Some? && t.boundWorkspace == s'.tokens[|s.tokens|].boundWorkspace
  }

  lemma HandlerStep(k: Crypto, s: Grants, e: Event, handler: nat)
    requires Allowed(k, s, e)
    ensures var s' := Step(k, s, e);
            && (handler in s'.inflight <==>
                  || (handler in s.inflight && e != FinishTakeover(handler))
                  || (e.TokenRequest? && e.handler == handler && MintsOver(s, s')))
            && (handler in s.inflight && handler in s'.inflight ==> s'.inflight[handler] == s.inflight[handler])
  {
    match e
    case TokenRequest(_, p, secretOk, token) =>
      var v := Decision(k, s.desk, p, secretOk, s.clock);
      if v.Granted? {
        CapturedIsEmptyIff(s.tokens, v.code.boundWorkspace, s.clock);
      }
    case _ =>
  }

  lemma CapturedIsEmptyIff(ts: seq<TokenRecord>, ws: Option<string>, now: int)
    ensures Captured(ts, ws, now) == [] <==>
              ws.None? || forall t :: t in ts && t.boundWorkspace == ws ==> t.expiresAt <= now
  {
    if t :| t in ts && ws.Some? && t.boundWorkspace == ws && now < t.expiresAt {
      CapturedAreActive(ts, ws, now, t.tokenHash);
    }
    if Captured(ts, ws, now) != [] {
      CapturedAreActive(ts, ws, now, Captured(ts, ws, now)[0]);
    }
  }

  lemma CaptureStep(k: Crypto, s: Grants, e: Event, h: string)
    requires Allowed(k, s, e) && e.TokenRequest? && MintsOver(s, Step(k, s, e))
    ensures e.handler in Step(k, s, e).inflight
    ensures h in Step(k, s, e).inflight[e.handler] <==> WasReplaced(s, Step(k, s, e), h)
  {
    HandlerStep(k, s, e, e.handler);
    var v := Decision(k, s.desk, e.p, e.secretOk, s.clock);
    CapturedAreActive(s.tokens, v.code.boundWorkspace, s.clock, h);
  }

  /** The mint at step `i` left its handler with something to revoke, and it has not resumed before step `n`. */
  ghost predicate HasYetToRevoke(ss: seq<Grants>, es: seq<Event>, i: nat, n: nat, handler: nat)
    requires |ss| == |es| + 1 && n <= |es|
  {
    && i < n && es[i].TokenRequest? && es[i].handler == handler && MintsOver(ss[i], ss[i + 1])
    && forall m :: i < m < n ==> es[m] != FinishTakeover(handler)
  }

  /** A handler is unfinished exactly from a mint over an unexpired token of the same workspace until it resumes. */
  lemma {:induction false} UnfinishedIff(
    k: Crypto, disk: seq<TokenRecord>, ss: seq<Grants>, es: seq<Event>, n: nat, handler: nat)
    requires IsRun(k, disk, ss, es) && n <= |es|
    ensures handler in ss[n].inflight <==> exists i :: 0 <= i < n && HasYetToRevoke(ss, es, i, n, handler)
  {
    hide Step, MintsOver, Allowed;
    if n > 0 {
      UnfinishedIff(k, disk, ss, es, n - 1, handler);
      HandlerStep(k, ss[n - 1], es[n - 1], handler);
      assert ss[n] == Step(k, ss[n - 1], es[n - 1]);
      if i :| 0 <= i < n && HasYetToRevoke(ss, es, i, n, handler) {
        assert i == n - 1 || HasYetToRevoke(ss, es, i, n - 1, handler);
        assert handler in ss[n].inflight;
      }
      if handler in ss[n].inflight {
        if handler in ss[n - 1].inflight && es[n - 1] != FinishTakeover(handler) {
          var i :| 0 <= i < n - 1 && HasYetToRevoke(ss, es, i, n - 1, handler);
          assert HasYetToRevoke(ss, es, i, n, handler);
        } else {
          assert HasYetToRevoke(ss, es, n - 1, n, handler);
        }
      }
    }
  }

  /** And until then it holds the hashes of all the unexpired tokens the workspace had at the mint. */
  lemma {:induction false} UnfinishedHolds(
    k: Crypto, disk: seq<TokenRecord>, ss: seq<Grants>, es: seq<Event>, i: nat, n: nat, handler: nat, h: string)
    requires IsRun(k, disk, ss, es) && i < n <= |es| && HasYetToRevoke(ss, es, i, n, handler)
    ensures handler in ss[n].inflight
    ensures h in ss[n].inflight[handler] <==> WasReplaced(ss[i], ss[i + 1], h)
    decreases n
  {
    hide Step, MintsOver, WasReplaced, Allowed;
    HandlerStep(k, ss[n - 1], es[n - 1], handler);
    assert ss[n] == Step(k, ss[n - 1], es[n - 1]);
    if n == i + 1 {
      CaptureStep(k, ss[i], es[i], h);
    } else {
      UnfinishedHolds(k, disk, ss, es, i, n - 1, handler, h);
    }
  }

  // ------------------------------------------------------------- approval modes

  /** The mode last set for the workspace since step `j`, while the token had not expired; `PerCall` to begin with. */
  function CurrentMode(ss: seq<Grants>, es: seq<Event>, j: nat, n: nat, ws: string, expiresAt: int): Granularity
    requires j < n <= |es| < |ss|
    decreases n
  {
    if n == j + 1 then PerCall
    else if es[n - 1].SetGranularity? && es[n - 1].ws == ws && ss[n - 1].clock < expiresAt then es[n - 1].g
    else CurrentMode(ss, es, j, n - 1, ws, expiresAt)
  }

  lemma ModeStep(k: Crypto, s: Grants, e: Event, t: TokenRecord)
    requires t in Step(k, s, e).tokens
    ensures || (exists u :: u in s.tokens && SameGrant(t, u)
                 && t.granularity == if e.SetGranularity? && u.boundWorkspace == Some(e.ws) && s.clock < u.expiresAt
                                     then Some(e.g) else u.granularity)
            || (e.TokenRequest? && k.sha(e.token) == t.tokenHash
                && t.granularity == if t.boundWorkspace.None? then None else Some(PerCall))
  {
    match e
    case SetGranularity(ws, g) =>
      var i :| 0 <= i < |s.tokens| && Step(k, s, e).tokens[i] == t;
      assert s.tokens[i] in s.tokens && SameGrant(t, s.tokens[i]);
    case RevokeAll =>
    case _ =>
      if t in s.tokens {
        assert SameGrant(t, t);
      }
  }

  /** A token starts with the most cautious mode, and then has the one last set for its workspace. */
  lemma {:induction false} TokenHasCurrentMode(
    k: Crypto, ss: seq<Grants>, es: seq<Event>, n: nat, t: TokenRecord) returns (j: nat)
    requires IsRun(k, [], ss, es) && n <= |es| && t in ss[n].tokens
    ensures j < n && es[j].TokenRequest? && k.sha(es[j].token) == t.tokenHash
    ensures t.granularity == if t.boundWorkspace.None? then None
                             else Some(CurrentMode(ss, es, j, n, t.boundWorkspace.value, t.expiresAt))
  {
    hide Step;
    assert n > 0;
    var s, e := ss[n - 1], es[n - 1];
    assert ss[n] == Step(k, s, e);
    ModeStep(k, s, e, t);
    if u :| && u in s.tokens && SameGrant(t, u)
            && t.granularity == if e.SetGranularity? && u.boundWorkspace == Some(e.ws) && s.clock < u.expiresAt
                                then Some(e.g) else u.granularity {
      j := TokenHasCurrentMode(k, ss, es, n - 1, u);
    } else {
      j := n - 1;
    }
  }

  // --------------------------------------------------------------- implementation

  /** `/token` and the unbind path, over one consent manager and one token store. */
  class TokenEndpoint {
    const consentManager: C.ConsentManager
    const tokenStore: TokenStore
    const pkceChallengeFromVerifier: string -> string
    var inflight: map<nat, seq<string>>
    ghost var hashes: set<string>

    ghost function K(): Crypto {
      Crypto(pkceChallengeFromVerifier, tokenStore.hashToken)
    }

    ghost function View(now: int): Grants
      reads this, consentManager, tokenStore
    {
      Grants(consentManager.View(), tokenStore.tokens, inflight, now, hashes)
    }

    constructor (consentManager: C.ConsentManager, tokenStore: TokenStore, pkce: string -> string)
      ensures View(0) == Grants(consentManager.View(), tokenStore.tokens, map[], 0, Elements(Hashes(tokenStore.tokens)))
      ensures this.consentManager == consentManager && this.tokenStore == tokenStore
      ensures pkceChallengeFromVerifier == pkce
    {
      this.consentManager, this.tokenStore, pkceChallengeFromVerifier := consentManager, tokenStore, pkce;
      inflight, hashes := map[], Elements(Hashes(tokenStore.tokens));
    }

    /**
     * The synchronous stretch of `handleToken` after the client secret was verified:
     * redeem, check, capture and mint. A request that captured something is left in
     * `inflight` until `ResumeTakeover` runs.
     */
    method HandleToken(handler: nat, p: Params, secretOk: bool, token: string, now: int) returns (reply: Verdict)
      requires Allowed(K(), View(now), TokenRequest(handler, p, secretOk, token))
      modifies this, consentManager, tokenStore
      ensures View(now) == Step(K(), old(View(now)), TokenRequest(handler, p, secretOk, token))
      ensures reply == match Decision(K(), old(consentManager.View()), p, secretOk, now)
                       case Granted(a) => Granted(a.(redeemed := true))
                       case refused => refused
    {
      if p.grantType != Some("authorization_code") {
        return Refused(UnsupportedGrantType);
      }
      if p.code.None? || p.code.value == "" {
        return Refused(CodeRequired);
      }
      if p.clientId.None? || p.clientId.value == "" {
        return Refused(ClientIdRequired);
      }
      if p.codeVerifier.None? || p.codeVerifier.value == "" {
        return Refused(VerifierRequired);
      }
      if p.clientSecret.None? || p.clientSecret.value == "" {
        return Refused(SecretRequired);
      }
      if !secretOk {
        return Refused(ClientAuthFailed);
      }
      var authCode := consentManager.RedeemAuthCode(p.code.value, now);
      if authCode.None? {
        return Refused(InvalidCode);
      }
      if authCode.value.clientId != p.clientId.value {
        return Refused(WrongClient);
      }
      if p.redirectUri != Some(authCode.value.redirectUri) {
        return Refused(WrongRedirect);
      }
      if pkceChallengeFromVerifier(p.codeVerifier.value) != authCode.value.codeChallenge {
        return Refused(PkceFailed);
      }
      var ws := authCode.value.boundWorkspace;
      var superseded := [];
      if ws.Some? {
        superseded := tokenStore.TokenHashesForWorkspace(ws.value, now);
      }
      hashes := hashes + {tokenStore.hashToken(token)};
      tokenStore.Mint(token, p.clientId.value, ws, if ws.None? then None else Some(PerCall), now);
      if |superseded| > 0 {
        inflight := inflight[handler := superseded];
      }
      return Granted(authCode.value);
    }

    /** The handler resumes after the write of the new token: it revokes what it captured. */
    method ResumeTakeover(handler: nat, ghost now: int) returns (revoked: nat)
      requires handler in inflight
      modifies this, tokenStore
      ensures View(now) == TokenPart(K(), old(View(now)), FinishTakeover(handler))
      ensures revoked == |old(tokenStore.tokens)| - |tokenStore.tokens|
    {
      revoked := tokenStore.RevokeByTokenHashes(inflight[handler]);
      inflight := inflight - {handler};
    }

    /** `revokeBindingForWorkspace`: the codes first, then the tokens, with no await in between. */
    method RevokeBindingForWorkspace(ws: string, ghost now: int) returns (revoked: nat)
      modifies consentManager, tokenStore
      ensures View(now) == Step(K(), old(View(now)), Unbind(ws))
      ensures forall t :: t in tokenStore.tokens ==> !BoundTo(t, ws)
      ensures forall c :: c in consentManager.authCodes ==> consentManager.authCodes[c].boundWorkspace != Some(ws)
    {
      var codes := consentManager.RevokeAuthCodesByWorkspace(ws);
      revoked := tokenStore.RevokeByWorkspace(ws);
    }
  }
}
