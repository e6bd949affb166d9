/**
 * The durable access-token store. A token is identified by the hash of its plaintext;
 * tokens are appended when minted and only ever filtered out afterwards.
 */
module TokenStore {
  import opened Common

  const ACCESS_TOKEN_TTL_MS := 30 * 24 * 60 * 60 * 1000

  datatype Granularity = PerCall | Task | Auto

  datatype TokenRecord = TokenRecord(
    tokenHash: string,
    clientId: string,
    boundWorkspace: Option<string>,
    granularity: Option<Granularity>,
    issuedAt: int,
    expiresAt: int)

  datatype Binding = Binding(clientId: string, boundWorkspace: Option<string>, granularity: Option<Granularity>)

  predicate Active(t: TokenRecord, now: int) {
    now < t.expiresAt
  }

  predicate BoundTo(t: TokenRecord, ws: string) {
    t.boundWorkspace == Some(ws)
  }

  // ---------------------------------------------------------------- specification

  function ActiveFor(ws: string, now: int): TokenRecord -> bool {
    (t: TokenRecord) => BoundTo(t, ws) && Active(t, now)
  }

  function NotBoundTo(ws: string): TokenRecord -> bool {
    (t: TokenRecord) => !BoundTo(t, ws)
  }

  function HashNotIn(hashes: set<string>): TokenRecord -> bool {
    (t: TokenRecord) => t.tokenHash !in hashes
  }

  function ActiveAt(now: int): TokenRecord -> bool {
    (t: TokenRecord) => Active(t, now)
  }

  function ActiveTokens(ts: seq<TokenRecord>, ws: string, now: int): seq<TokenRecord> {
    Filter(ts, ActiveFor(ws, now))
  }

  function Hashes(ts: seq<TokenRecord>): (r: seq<string>)
    ensures |r| == |ts| && forall i :: 0 <= i < |ts| ==> r[i] == ts[i].tokenHash
  {
    seq(|ts|, i requires 0 <= i < |ts| => ts[i].tokenHash)
  }

  function WithoutWorkspace(ts: seq<TokenRecord>, ws: string): seq<TokenRecord> {
    Filter(ts, NotBoundTo(ws))
  }

  function WithoutHashes(ts: seq<TokenRecord>, hashes: set<string>): seq<TokenRecord> {
    Filter(ts, HashNotIn(hashes))
  }

  function Unexpired(ts: seq<TokenRecord>, now: int): seq<TokenRecord> {
    Filter(ts, ActiveAt(now))
  }

  /** The tokens with the first `n` visited by the "Set approval mode" loop. */
  function WithGranularityUpTo(ts: seq<TokenRecord>, n: nat, ws: string, g: Granularity, now: int)
    : (r: seq<TokenRecord>)
    ensures |r| == |ts|
    ensures forall i :: 0 <= i < |ts| ==>
              r[i] == if i < n && BoundTo(ts[i], ws) && Active(ts[i], now)
                      then ts[i].(granularity := Some(g)) else ts[i]
  {
    seq(|ts|, i requires 0 <= i < |ts| =>
      if i < n && BoundTo(ts[i], ws) && Active(ts[i], now) then ts[i].(granularity := Some(g)) else ts[i])
  }

  function WithGranularity(ts: seq<TokenRecord>, ws: string, g: Granularity, now: int): seq<TokenRecord> {
    WithGranularityUpTo(ts, |ts|, ws, g, now)
  }

  function NewToken(hash: string, clientId: string, ws: Option<string>, now: int): TokenRecord {
    TokenRecord(hash, clientId, ws, if ws.None? then None else Some(PerCall), now, now + ACCESS_TOKEN_TTL_MS)
  }

  function Binds(t: TokenRecord): Binding {
    Binding(t.clientId, t.boundWorkspace, t.granularity)
  }

  /** No two tokens share a hash, so a record is determined by its hash. */
  ghost predicate HashesDistinct(ts: seq<TokenRecord>) {
    Distinct(Hashes(ts))
  }

  lemma {:induction false} FilterHashesDistinct(ts: seq<TokenRecord>, p: TokenRecord -> bool)
    requires HashesDistinct(ts)
    ensures HashesDistinct(Filter(ts, p))
  {
    if ts != [] {
      var front, last := ts[..|ts| - 1], ts[|ts| - 1];
      assert Hashes(front) == Hashes(ts)[..|ts| - 1];
      FilterHashesDistinct(front, p);
      forall t | t in Filter(front, p)
        ensures t.tokenHash != last.tokenHash
      {
        var i :| 0 <= i < |front| && front[i] == t;
        assert Hashes(ts)[i] != Hashes(ts)[|ts| - 1];
      }
      assert forall i :: 0 <= i < |Filter(front, p)| ==> Filter(front, p)[i] in Filter(front, p);
    }
  }

  lemma SameHashSameToken(ts: seq<TokenRecord>, t: TokenRecord, u: TokenRecord)
    requires HashesDistinct(ts) && t in ts && u in ts && t.tokenHash == u.tokenHash
    ensures t == u
  {
  }

  lemma FirstTwoDiffer(ts: seq<TokenRecord>)
    requires HashesDistinct(ts) && |ts| > 1
    ensures ts[0] in ts && ts[1] in ts && ts[0].tokenHash != ts[1].tokenHash
  {
  }

  /** The most recently minted token of a workspace that is still in the store. */
  function Newest(ts: seq<TokenRecord>, ws: string): (r: Option<TokenRecord>)
    ensures r.Some? ==> r.value in ts && BoundTo(r.value, ws)
    ensures r.None? ==> forall t :: t in ts ==> !BoundTo(t, ws)
  {
    if ts == [] then None
    else
      var last := ts[|ts| - 1];
      assert ts == ts[..|ts| - 1] + [last];
      if BoundTo(last, ws) then Some(last) else Newest(ts[..|ts| - 1], ws)
  }

  /** Filtering that keeps the newest token of a workspace does not change which one it is. */
  lemma {:induction false} NewestSurvivesFilter(ts: seq<TokenRecord>, ws: string, p: TokenRecord -> bool)
    requires Newest(ts, ws).Some? ==> p(Newest(ts, ws).value)
    ensures Newest(Filter(ts, p), ws) == Newest(ts, ws)
  {
    if ts != [] {
      var front, last := ts[..|ts| - 1], ts[|ts| - 1];
      if !BoundTo(last, ws) {
        NewestSurvivesFilter(front, ws, p);
      }
      var kept := Filter(ts, p);
      if p(last) {
        assert kept[|kept| - 1] == last && kept[..|kept| - 1] == Filter(front, p);
      }
    }
  }

  lemma NewestOfAppended(ts: seq<TokenRecord>, t: TokenRecord, ws: string)
    ensures Newest(ts + [t], ws) == if BoundTo(t, ws) then Some(t) else Newest(ts, ws)
  {
  }

  lemma {:induction false} NewestWithGranularity(
    ts: seq<TokenRecord>, ws: string, changed: string, g: Granularity, now: int)
    ensures var n, n' := Newest(ts, ws), Newest(WithGranularity(ts, changed, g, now), ws);
            && n.Some? == n'.Some?
            && (n.Some? ==> n'.value.(granularity := None) == n.value.(granularity := None))
  {
    if ts != [] {
      var front := ts[..|ts| - 1];
      NewestWithGranularity(front, ws, changed, g, now);
      assert WithGranularity(ts, changed, g, now)[..|ts| - 1] == WithGranularity(front, changed, g, now);
    }
  }

  /** What visiting one more token does to the list and to the count of updated ones. */
  lemma GranularityStep(ts: seq<TokenRecord>, i: nat, ws: string, g: Granularity, now: int)
    requires i < |ts|
    ensures WithGranularityUpTo(ts, i + 1, ws, g, now)
         == if BoundTo(ts[i], ws) && Active(ts[i], now)
            then WithGranularityUpTo(ts, i, ws, g, now)[i := ts[i].(granularity := Some(g))]
            else WithGranularityUpTo(ts, i, ws, g, now)
    ensures |ActiveTokens(ts[..i + 1], ws, now)|
         == |ActiveTokens(ts[..i], ws, now)| + (if BoundTo(ts[i], ws) && Active(ts[i], now) then 1 else 0)
  {
    assert ts[..i + 1] == ts[..i] + [ts[i]];
    FilterSnoc(ts[..i], ts[i], ActiveFor(ws, now));
  }

  // --------------------------------------------------------------- implementation

  class TokenStore {
    var tokens: seq<TokenRecord>
    const hashToken: string -> string

    /** Reading tokens.json sweeps what expired while the daemon was down. */
    constructor Load(disk: seq<TokenRecord>, now: int, hashToken: string -> string)
      ensures tokens == Unexpired(disk, now) && this.hashToken == hashToken
      ensures forall t :: t in tokens <==> t in disk && now < t.expiresAt
    {
      this.hashToken := hashToken;
      tokens := Unexpired(disk, now);
    }

    /** `token` is the plaintext just drawn from the random source. */
    method Mint(token: string, clientId: string, ws: Option<string>, granularity: Option<Granularity>, now: int)
      modifies this
      ensures tokens == old(tokens) +
        [TokenRecord(hashToken(token), clientId, ws, granularity, now, now + 2592000000)]
    {
      var record := TokenRecord(hashToken(token), clientId, ws, granularity, now, now + ACCESS_TOKEN_TTL_MS);
      tokens := tokens + [record];
    }

    /** The binding of the first record with this token's hash, unless it is missing or expired. */
    method Lookup(token: string, now: int) returns (b: Option<Binding>)
      ensures b.Some? ==>
                exists t :: t in tokens && t.tokenHash == hashToken(token) && now < t.expiresAt
                         && b.value == Binding(t.clientId, t.boundWorkspace, t.granularity)
      ensures b.None? && HashesDistinct(tokens) ==>
                forall t :: t in tokens && t.tokenHash == hashToken(token) ==> now >= t.expiresAt
    {
      var hash := hashToken(token);
      var i := 0;
      while i < |tokens| && tokens[i].tokenHash != hash
        invariant 0 <= i <= |tokens|
        invariant forall j :: 0 <= j < i ==> tokens[j].tokenHash != hash
      {
        i := i + 1;
      }
      if i == |tokens| {
        return None;
      }
      assert forall j :: i < j < |tokens| && HashesDistinct(tokens) ==> Hashes(tokens)[j] != Hashes(tokens)[i];
      if now >= tokens[i].expiresAt {
        return None;
      }
      return Some(Binds(tokens[i]));
    }

    method RevokeByWorkspace(ws: string) returns (removed: nat)
      modifies this
      ensures tokens == WithoutWorkspace(old(tokens), ws)
      ensures forall t :: t in tokens <==> t in old(tokens) && t.boundWorkspace != Some(ws)
      ensures removed == |old(tokens)| - |tokens|
    {
      var before := |tokens|;
      tokens := WithoutWorkspace(tokens, ws);
      removed := before - |tokens|;
    }

    method RevokeAll() returns (removed: nat)
      modifies this
      ensures tokens == [] && removed == |old(tokens)|
    {
      removed := |tokens|;
      if removed > 0 {
        tokens := [];
      }
    }

    method TokenHashesForWorkspace(ws: string, now: int) returns (hashes: seq<string>)
      ensures hashes == Hashes(ActiveTokens(tokens, ws, now))
      ensures forall h :: h in hashes <==>
                exists t :: t in tokens && t.boundWorkspace == Some(ws) && now < t.expiresAt && t.tokenHash == h
    {
      var active := ActiveTokens(tokens, ws, now);
      hashes := Hashes(active);
      forall h | exists t :: t in tokens && BoundTo(t, ws) && Active(t, now) && t.tokenHash == h
        ensures h in hashes
      {
        var t :| t in tokens && BoundTo(t, ws) && Active(t, now) && t.tokenHash == h;
        assert t in active;
        var i :| 0 <= i < |active| && active[i] == t;
        assert hashes[i] == h;
      }
    }

    method RevokeByTokenHashes(hashes: seq<string>) returns (removed: nat)
      modifies this
      ensures tokens == WithoutHashes(old(tokens), set h | h in hashes)
      ensures forall t :: t in tokens <==> t in old(tokens) && t.tokenHash !in hashes
      ensures removed == |old(tokens)| - |tokens|
    {
      if |hashes| == 0 {
        FilterAll(tokens, HashNotIn(set h | h in hashes));
        return 0;
      }
      var before := |tokens|;
      tokens := WithoutHashes(tokens, set h | h in hashes);
      removed := before - |tokens|;
    }

    method SetGranularityForWorkspace(ws: string, g: Granularity, now: int) returns (updated: nat)
      modifies this
      ensures tokens == WithGranularity(old(tokens), ws, g, now)
      ensures |tokens| == |old(tokens)|
      ensures forall i :: 0 <= i < |tokens| ==>
                tokens[i] == if old(tokens)[i].boundWorkspace == Some(ws) && now < old(tokens)[i].expiresAt
                             then old(tokens)[i].(granularity := Some(g)) else old(tokens)[i]
      ensures updated == |ActiveTokens(old(tokens), ws, now)|
    {
      updated := 0;
      var i := 0;
      while i < |tokens|
        invariant 0 <= i <= |old(tokens)|
        invariant tokens == WithGranularityUpTo(old(tokens), i, ws, g, now)
        invariant updated == |ActiveTokens(old(tokens)[..i], ws, now)|
      {
        GranularityStep(old(tokens), i, ws, g, now);
        if tokens[i].boundWorkspace == Some(ws) && now < tokens[i].expiresAt {
          var t := tokens[i].(granularity := Some(g));
          tokens := tokens[i := t];
          updated := updated + 1;
        }
        i := i + 1;
      }
      assert old(tokens)[..i] == old(tokens);
    }
  }
}
