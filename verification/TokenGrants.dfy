/** The token endpoint on the in-memory store (src/grants.rs:34-372) and the revocation endpoint
    (src/web/oidc.rs:517-544), one call at a time.

    `ExchangeCode`, `Rotate` and `RevokeToken` give each call's meaning on the store's value; the
    methods are the handlers themselves, in the order they touch the store. */
module TokenGrants {
  import opened Documents
  import opened Tokens
  import opened MemoryStore

  /** The ids a call draws if it needs them. */
  datatype Draw = Draw(access: string, refresh: string, family: string)

  datatype GrantError =
    | UnknownCode | OtherClient | CodeExpired | RedirectRequired | RedirectMismatch
    | VerifierRequired | PkceFailed | KeyMismatched
    | UnknownToken | UnboundToken | ReuseDetected | WideScope
    | NoSigningKey

  datatype Outcome =
    | Issued(access: string, tokenType: string, scope: string, refresh: Option<string>)
    | Failed(error: GrantError)

  function TokenType(jkt: Option<string>): string {
    if jkt.Some? then "DPoP" else "Bearer"
  }

  // ----- Authorization code -----

  datatype CodeRequest = CodeRequest(
    code: string,
    clientId: string,
    isPublic: bool,
    canSign: bool,                    // a signing key exists for the client's id_token algorithm
    jkt: Option<string>,
    redirectUri: Option<string>,
    verifierHash: Option<string>)     // S256 of the presented code_verifier

  function Refusal(r: CodeRequest, code: AuthCode, now: nat): Option<GrantError> {
    if code.clientId != r.clientId then Some(OtherClient)
    else if code.expiresAt < now then Some(CodeExpired)
    else if r.redirectUri.None? then Some(RedirectRequired)
    else if r.redirectUri.value != code.redirectUri then Some(RedirectMismatch)
    else if code.challenge.Some? && r.verifierHash.None? then Some(VerifierRequired)
    else if code.challenge.Some? && r.verifierHash != code.challenge then Some(PkceFailed)
    else if code.dpopJkt.Some? && r.jkt != code.dpopJkt then Some(KeyMismatched)
    else None
  }

  function AccessFor(r: CodeRequest, code: AuthCode, token: string): AccessToken {
    AccessToken(token, r.clientId, code.accountId, code.scope, r.jkt, code.resource, code.acr,
                Some(code.authTime), None, false)
  }

  function FirstRefresh(r: CodeRequest, code: AuthCode, d: Draw): Option<RefreshToken> {
    if !HasScope(code.scope, OFFLINE) || (r.jkt.None? && r.isPublic) then None
    else Some(RefreshToken(d.refresh, r.clientId, code.accountId, code.scope, code.resource, r.jkt, code.acr,
                           Some(code.authTime), d.family, false, None))
  }

  function WithAccess(s: Store, t: AccessToken, now: nat): Store {
    s.(accessTokens := s.accessTokens[t.token := Expiring(t, now + ACCESS_TTL)])
  }

  function WithRefresh(s: Store, t: Option<RefreshToken>, now: nat): Store {
    if t.None? then s
    else s.(refreshTokens := s.refreshTokens[t.value.token := Expiring(t.value, now + REFRESH_TTL)])
  }

  function TokenName(t: Option<RefreshToken>): Option<string> {
    if t.Some? then Some(t.value.token) else None
  }

  /** What a code that passed every check is turned into. */
  function Redeemed(s: Store, r: CodeRequest, code: AuthCode, d: Draw, now: nat): (Outcome, Store) {
    var saved := WithAccess(s, AccessFor(r, code, d.access), now);
    if !r.canSign then (Failed(NoSigningKey), saved)
    else
      var refresh := FirstRefresh(r, code, d);
      (Issued(d.access, TokenType(r.jkt), code.scope, TokenName(refresh)),
       WithRefresh(saved, refresh, now).(codes := Linked(saved.codes, r.code, d.access, TokenName(refresh))))
  }

  function ExchangeCode(s: Store, r: CodeRequest, d: Draw, now: nat, lazy: bool): (Outcome, Store) {
    var (code, taken) := CodeTaken(s, r.code, now, lazy);
    if code.None? then (Failed(UnknownCode), taken)
    else if Refusal(r, code.value, now).Some? then (Failed(Refusal(r, code.value, now).value), taken)
    else Redeemed(taken, r, code.value, d, now)
  }

  method HandleCode(store: MemoryStore, r: CodeRequest, d: Draw, now: nat) returns (o: Outcome)
    modifies store
    ensures (o, store.State()) == ExchangeCode(old(store.State()), r, d, now, true)
  {
    var taken := store.TakeCode(r.code, now);
    if taken.None? {
      return Failed(UnknownCode);
    }
    var code := taken.value;
    if code.clientId != r.clientId {
      return Failed(OtherClient);
    }
    if code.expiresAt < now {
      return Failed(CodeExpired);
    }
    if r.redirectUri.None? {
      return Failed(RedirectRequired);
    }
    if r.redirectUri.value != code.redirectUri {
      return Failed(RedirectMismatch);
    }
    if code.challenge.Some? {
      if r.verifierHash.None? {
        return Failed(VerifierRequired);
      }
      if r.verifierHash.value != code.challenge.value {
        return Failed(PkceFailed);
      }
    }
    if code.dpopJkt.Some? && r.jkt != code.dpopJkt {
      return Failed(KeyMismatched);
    }
    store.SaveAccessToken(AccessFor(r, code, d.access), now);
    if !r.canSign {
      return Failed(NoSigningKey);
    }
    var refresh := FirstRefresh(r, code, d);
    if refresh.Some? {
      store.SaveRefreshToken(refresh.value, now);
    }
    store.LinkIssuedTokens(r.code, d.access, TokenName(refresh));
    o := Issued(d.access, TokenType(r.jkt), code.scope, TokenName(refresh));
  }

  // ----- Refresh token -----

  function RotatedAccess(r: Presented, pre: RefreshToken, scope: string, token: string): AccessToken {
    AccessToken(token, r.clientId, pre.accountId, scope, r.jkt, pre.resource, pre.acr, pre.authTime, None, false)
  }

  function NextName(scope: string, d: Draw): Option<string> {
    if HasScope(scope, OFFLINE) then Some(d.refresh) else None
  }

  function NextToken(r: Presented, pre: RefreshToken, scope: string, d: Draw): Option<RefreshToken> {
    if HasScope(scope, OFFLINE) then Some(Successor(r, pre, scope, d.refresh)) else None
  }

  function ErrorOf(v: Verdict): GrantError
    requires !v.Pass?
  {
    match v
    case WrongClient => OtherClient
    case KeyMismatch => KeyMismatched
    case UnboundPublic => UnboundToken
    case Reused => ReuseDetected
    case ScopeTooWide => WideScope
  }

  /** What a token that passed every check is turned into. */
  function Renewed(s: Store, r: Presented, pre: RefreshToken, scope: string, d: Draw, now: nat): (Outcome, Store) {
    var (won, table) := RefreshMarked(s.refreshTokens, r.token, NextName(scope, d), now);
    if !won then (Failed(UnknownToken), s)
    else
      var saved := WithAccess(s.(refreshTokens := table), RotatedAccess(r, pre, scope, d.access), now);
      if !r.canSign then (Failed(NoSigningKey), saved)
      else (Issued(d.access, TokenType(r.jkt), scope, NextName(scope, d)),
            WithRefresh(saved, NextToken(r, pre, scope, d), now))
  }

  function Rotate(s: Store, r: Presented, d: Draw, now: nat, lazy: bool): (Outcome, Store) {
    var pre := Peek(s.refreshTokens, r.token, now);
    var read := s.(refreshTokens := AfterPeek(s.refreshTokens, r.token, now, lazy));
    if pre.None? then (Failed(UnknownToken), read)
    else
      var verdict := Check(r, pre.value);
      if verdict.Reused? then
        (Failed(ReuseDetected), read.(refreshTokens := read.refreshTokens - Revoked(read.refreshTokens, r.token)))
      else if !verdict.Pass? then (Failed(ErrorOf(verdict)), read)
      else Renewed(read, r, pre.value, verdict.scope, d, now)
  }

  method HandleRefresh(store: MemoryStore, r: Presented, d: Draw, now: nat) returns (o: Outcome)
    modifies store
    ensures (o, store.State()) == Rotate(old(store.State()), r, d, now, true)
  {
    var read := store.GetRefreshToken(r.token, now);
    if read.None? {
      return Failed(UnknownToken);
    }
    var pre := read.value;
    var verdict := Check(r, pre);
    if verdict.Reused? {
      store.RevokeRefreshFamily(r.token);
      return Failed(ReuseDetected);
    }
    if !verdict.Pass? {
      return Failed(ErrorOf(verdict));
    }
    var next := NextName(verdict.scope, d);
    var won := store.MarkRefreshUsed(r.token, next, now);
    if !won {
      return Failed(UnknownToken);
    }
    store.SaveAccessToken(RotatedAccess(r, pre, verdict.scope, d.access), now);
    if !r.canSign {
      return Failed(NoSigningKey);
    }
    if next.Some? {
      store.SaveRefreshToken(Successor(r, pre, verdict.scope, next.value), now);
    }
    o := Issued(d.access, TokenType(r.jkt), verdict.scope, next);
  }

  // ----- Revocation endpoint -----

  function RevokeToken(s: Store, token: string, clientId: string, now: nat, lazy: bool): Store {
    var at, rt := Peek(s.accessTokens, token, now), Peek(s.refreshTokens, token, now);
    var access, refresh := AfterPeek(s.accessTokens, token, now, lazy), AfterPeek(s.refreshTokens, token, now, lazy);
    s.(accessTokens := if at.Some? && at.value.clientId == clientId then access - {token} else access,
       refreshTokens := if rt.Some? && rt.value.clientId == clientId then refresh - {token} else refresh)
  }

  method HandleRevoke(store: MemoryStore, token: string, clientId: string, now: nat)
    modifies store
    ensures store.State() == RevokeToken(old(store.State()), token, clientId, now, true)
  {
    var at := store.GetAccessToken(token, now);
    if at.Some? && at.value.clientId == clientId {
      store.RevokeAccessToken(token);
    }
    var rt := store.GetRefreshToken(token, now);
    if rt.Some? && rt.value.clientId == clientId {
      store.RevokeRefreshToken(token);
    }
  }

  // ----- When tokens are issued, and which -----

  /** What a code must match to be redeemed. */
  predicate CodeFits(s: Store, r: CodeRequest, now: nat) {
    var e := Peek(s.codes, r.code, now);
    e.Some? && !e.value.used &&
    var code := e.value.code;
    && r.clientId == code.clientId && now <= code.expiresAt && r.redirectUri == Some(code.redirectUri)
    && (code.challenge.Some? ==> r.verifierHash == code.challenge)
    && (code.dpopJkt.Some? ==> r.jkt == code.dpopJkt)
  }

  /** Tokens are issued exactly for a live unused code presented by its client with its redirect target,
      verifier and key. */
  lemma CodeIsRedeemedExactly(s: Store, r: CodeRequest, d: Draw, now: nat, lazy: bool)
    ensures ExchangeCode(s, r, d, now, lazy).0.Issued? <==> CodeFits(s, r, now) && r.canSign
  {
    var e := Peek(s.codes, r.code, now);
    if e.Some? && !e.value.used {
      RefusalIsMismatch(s, r, now);
    }
  }

  /** The access token answered carries what was authorized, and lives for 900 seconds. */
  ghost predicate AccessCarries(t: Table<AccessToken>, o: Outcome, r: CodeRequest, code: AuthCode, now: nat) {
    o.Issued? && o.scope == code.scope && o.tokenType == (if r.jkt.Some? then "DPoP" else "Bearer") && o.access in t &&
    t[o.access] == Expiring(AccessToken(o.access, code.clientId, code.accountId, code.scope, r.jkt, code.resource,
                                        code.acr, Some(code.authTime), None, false), now + 900)
  }

  /** A refresh token is answered exactly with offline access and a key or an authenticated client. It carries
      what was authorized, unused, into a family of its own, and lives for 14 days. */
  ghost predicate RefreshCarries(t: Table<RefreshToken>, o: Outcome, r: CodeRequest, code: AuthCode, d: Draw,
                                 now: nat)
  {
    && o.Issued?
    && (o.refresh.Some? <==> HasScope(code.scope, "offline_access") && (r.jkt.Some? || !r.isPublic))
    && (o.refresh.Some? ==>
          o.refresh.value == d.refresh && d.refresh in t &&
          t[d.refresh] == Expiring(RefreshToken(d.refresh, code.clientId, code.accountId, code.scope, code.resource,
                                                r.jkt, code.acr, Some(code.authTime), d.family, false, None),
                                   now + 14 * 24 * 3600))
  }

  /** Issued tokens carry what was authorized; the code is spent and remembers them. */
  lemma CodeIssuesWhatWasAuthorized(s: Store, r: CodeRequest, d: Draw, now: nat, lazy: bool)
    requires ExchangeCode(s, r, d, now, lazy).0.Issued?
    ensures var (o, s') := ExchangeCode(s, r, d, now, lazy);
      var code, record := s.codes[r.code].value.code, Peek(s'.codes, r.code, now);
      && o.access == d.access && AccessCarries(s'.accessTokens, o, r, code, now)
      && RefreshCarries(s'.refreshTokens, o, r, code, d, now) && record.Some? && record.value.used
      && record.value.issuedAccess == Some(o.access) && record.value.issuedRefresh == o.refresh
  {}

  lemma RefusalIsMismatch(s: Store, r: CodeRequest, now: nat)
    requires Peek(s.codes, r.code, now).Some? && !Peek(s.codes, r.code, now).value.used
    ensures Refusal(r, Peek(s.codes, r.code, now).value.code, now).None? <==> CodeFits(s, r, now)
  {}

  /** A rotation happens exactly for a live unused token presented by its client with its key (a public
      client's must have one), for no wider scope. */
  lemma RefreshIsRotatedExactly(s: Store, r: Presented, d: Draw, now: nat, lazy: bool)
    ensures Rotate(s, r, d, now, lazy).0.Issued? <==>
      var pre := Peek(s.refreshTokens, r.token, now);
      && pre.Some? && !pre.value.used && pre.value.clientId == r.clientId && r.canSign
      && (if pre.value.jkt.Some? then r.jkt == pre.value.jkt else !r.isPublic)
      && (r.scope.Some? ==> Narrower(r.scope.value, pre.value.scope))
  {
    var pre := Peek(s.refreshTokens, r.token, now);
    if pre.Some? && r.scope.Some? { WithinMeansNarrower(r.scope.value, pre.value.scope); }
  }

  /** The token rotated is used and linked to the new one, an unused heir of it under a drawn name. */
  lemma RefreshIssuesAnHeir(s: Store, r: Presented, d: Draw, now: nat, lazy: bool)
    requires Rotate(s, r, d, now, lazy).0.Issued? && d.refresh != r.token
    ensures var (o, s') := Rotate(s, r, d, now, lazy);
      var pre := s.refreshTokens[r.token].value;
      && Peek(s'.refreshTokens, r.token, now) == Some(pre.(used := true, replacedBy := o.refresh))
      && (o.refresh.Some? <==> HasScope(o.scope, OFFLINE)) && Narrower(o.scope, pre.scope)
      && (o.refresh.Some? ==>
            var next := Peek(s'.refreshTokens, o.refresh.value, now);
            && o.refresh == Some(d.refresh) && next.Some? && Heir(next.value, pre)
            && !next.value.used && next.value.replacedBy.None?)
  {
    var pre := s.refreshTokens[r.token].value;
    SuccessorIsHeir(r, pre, pre, d.refresh);
  }

  /** The scope granted is the one asked for, or else the old token's. The access token of a rotation carries that
      scope and the presented key, the rest from the old token, and lives for 900 seconds; a new refresh token
      lives for 14 days. */
  lemma RotationCarries(s: Store, r: Presented, d: Draw, now: nat, lazy: bool)
    requires Rotate(s, r, d, now, lazy).0.Issued?
    ensures var (o, s') := Rotate(s, r, d, now, lazy);
      var pre := s.refreshTokens[r.token].value;
      && o.scope == (if r.scope.Some? then r.scope.value else pre.scope)
      && o.tokenType == (if r.jkt.Some? then "DPoP" else "Bearer")
      && o.access == d.access && d.access in s'.accessTokens
      && s'.accessTokens == s.accessTokens[d.access := s'.accessTokens[d.access]]
      && s'.accessTokens[d.access] ==
           Expiring(AccessToken(d.access, pre.clientId, pre.accountId, o.scope, r.jkt, pre.resource, pre.acr,
                                pre.authTime, None, false), now + 900)
      && (o.refresh.Some? ==> d.refresh in s'.refreshTokens &&
                              s'.refreshTokens[d.refresh].expiresAt == now + 14 * 24 * 3600)
  {}

  /** An entry is live through the second before its expiry, and not from that second on. */
  lemma LiveUntilExpiry<T>(t: Table<T>, k: string, later: nat)
    requires k in t
    ensures Peek(t, k, later).Some? <==> later < t[k].expiresAt
  {}

  // ----- Why a call is refused -----

  lemma CodeRefusedFor(s: Store, r: CodeRequest, d: Draw, now: nat, lazy: bool)
    ensures var o := ExchangeCode(s, r, d, now, lazy).0;
      if r.code !in s.codes || s.codes[r.code].expiresAt <= now || s.codes[r.code].value.used
      then o == Failed(UnknownCode)
      else
        var code := s.codes[r.code].value.code;
        if r.clientId != code.clientId then o == Failed(OtherClient)
        else if code.expiresAt < now then o == Failed(CodeExpired)
        else if r.redirectUri.None? then o == Failed(RedirectRequired)
        else if r.redirectUri != Some(code.redirectUri) then o == Failed(RedirectMismatch)
        else if code.challenge.Some? && r.verifierHash.None? then o == Failed(VerifierRequired)
        else if code.challenge.Some? && r.verifierHash != code.challenge then o == Failed(PkceFailed)
        else if code.dpopJkt.Some? && r.jkt != code.dpopJkt then o == Failed(KeyMismatched)
        else if !r.canSign then o == Failed(NoSigningKey)
        else o.Issued?
  {}

  /** Any presentation of a live code spends it, whatever it is refused for. */
  lemma PresentedCodeIsSpent(s: Store, r: CodeRequest, d: Draw, now: nat, lazy: bool)
    requires Peek(s.codes, r.code, now).Some?
    ensures var after := ExchangeCode(s, r, d, now, lazy).1;
      r.code in after.codes && after.codes[r.code].value.used &&
      after.codes[r.code].expiresAt == s.codes[r.code].expiresAt
  {}

  lemma RefreshRefusedFor(s: Store, r: Presented, d: Draw, now: nat, lazy: bool)
    ensures var (o, s') := Rotate(s, r, d, now, lazy);
      if r.token !in s.refreshTokens || s.refreshTokens[r.token].expiresAt <= now then o == Failed(UnknownToken)
      else
        var t := s.refreshTokens[r.token].value;
        if r.clientId != t.clientId then o == Failed(OtherClient) && s' == s
        else if t.jkt.Some? && r.jkt != t.jkt then o == Failed(KeyMismatched) && s' == s
        else if t.jkt.None? && r.isPublic then o == Failed(UnboundToken) && s' == s
        else if t.used then
          o == Failed(ReuseDetected) &&
          var chain := FamilyWalk.Chain(LinksOf(s.refreshTokens), Some(r.token));
          var gone := FamilyWalk.Elements(chain[..FamilyWalk.Least(64, |chain|)]);
          s' == s.(refreshTokens := s.refreshTokens - gone)
        else if r.scope.Some? && !Narrower(r.scope.value, t.scope) then o == Failed(WideScope) && s' == s
        else if !r.canSign then o == Failed(NoSigningKey)
        else o.Issued?
  {
    if r.token in s.refreshTokens && r.scope.Some? {
      WithinMeansNarrower(r.scope.value, s.refreshTokens[r.token].value.scope);
    }
    assert s.(refreshTokens := s.refreshTokens) == s;
  }

  /** The revocation endpoint: of the live tokens of this name, those of the calling client go, and no others. */
  lemma RevocationTakesOwn(s: Store, token: string, clientId: string, now: nat, lazy: bool)
    ensures var s' := RevokeToken(s, token, clientId, now, lazy);
      var ownAccess := token in s.accessTokens && s.accessTokens[token].value.clientId == clientId;
      var ownRefresh := token in s.refreshTokens && s.refreshTokens[token].value.clientId == clientId;
      && Unexpired(s'.accessTokens, now) == Unexpired(s.accessTokens, now) - (if ownAccess then {token} else {})
      && Unexpired(s'.refreshTokens, now) == Unexpired(s.refreshTokens, now) - (if ownRefresh then {token} else {})
      && s'.codes == s.codes && s'.sessions == s.sessions && s'.interactions == s.interactions
  {}

  lemma WithinMeansNarrower(scope: string, than: string)
    ensures AllWithin(Words(scope), Words(than)) <==> Narrower(scope, than)
  {
    if Narrower(scope, than) {
      forall i | 0 <= i < |Words(scope)| ensures Words(scope)[i] in Words(than) {
        assert Words(scope)[i] in Words(scope);
      }
    }
  }

  // ----- What a refused call leaves behind -----

  /** The tokens a client could still use are the same before and after. */
  ghost predicate LiveTokensUnchanged(s: Store, s': Store, now: nat) {
    && Unexpired(s.accessTokens, now) == Unexpired(s'.accessTokens, now)
    && Unexpired(s.refreshTokens, now) == Unexpired(s'.refreshTokens, now)
  }

  /** Known before the call: the token is a used one, or it passes every check but nothing can be signed. */
  predicate ReuseOrUnsignable(s: Store, r: Presented, now: nat) {
    var pre := Peek(s.refreshTokens, r.token, now);
    pre.Some? && (Check(r, pre.value).Reused? || (Check(r, pre.value).Pass? && !r.canSign))
  }

  lemma RevokedContainsStart(t: Table<RefreshToken>, start: string)
    requires start in t
    ensures start in Revoked(t, start)
  {
    var chain := FamilyWalk.Chain(LinksOf(t), Some(start));
    assert start in LinksOf(t);
    assert chain[..FamilyWalk.Least(FamilyWalk.WALK_LIMIT, |chain|)][0] == start;
  }

  /** A refused refresh changes some live token exactly when it was a reuse, or could not be signed. */
  lemma RefusedRefreshTouchesNothing(s: Store, r: Presented, d: Draw, now: nat, lazy: bool)
    requires Rotate(s, r, d, now, lazy).0.Failed?
    ensures LiveTokensUnchanged(s, Rotate(s, r, d, now, lazy).1, now) <==> !ReuseOrUnsignable(s, r, now)
    ensures Rotate(s, r, d, now, lazy).0.error == NoSigningKey <==>
              ReuseOrUnsignable(s, r, now) && !Check(r, s.refreshTokens[r.token].value).Reused?
  {
    var s' := Rotate(s, r, d, now, lazy).1;
    var pre := Peek(s.refreshTokens, r.token, now);
    if pre.Some? {
      assert r.token in Unexpired(s.refreshTokens, now);
      if Check(r, pre.value).Reused? {
        RevokedContainsStart(s.refreshTokens, r.token);
        assert r.token !in Unexpired(s'.refreshTokens, now);
      } else if Check(r, pre.value).Pass? {
        assert s'.refreshTokens[r.token].value.used && !pre.value.used;
        assert Unexpired(s.refreshTokens, now)[r.token].value == pre.value;
        assert r.token in Unexpired(s'.refreshTokens, now);
      }
    }
  }

  /** A refused code exchange leaves the live tokens alone exactly when neither a replayed code had live
      tokens to take back nor a redeemable one could not be signed for. */
  predicate ReplayOrUnsignable(s: Store, r: CodeRequest, now: nat) {
    var e := Peek(s.codes, r.code, now);
    e.Some? &&
    if e.value.used
    then (e.value.issuedAccess.Some? && Peek(s.accessTokens, e.value.issuedAccess.value, now).Some?) ||
         (e.value.issuedRefresh.Some? && Peek(s.refreshTokens, e.value.issuedRefresh.value, now).Some?)
    else Refusal(r, e.value.code, now).None? && !r.canSign
  }

  lemma RefusedCodeTouchesNothing(s: Store, r: CodeRequest, d: Draw, now: nat, lazy: bool)
    requires ExchangeCode(s, r, d, now, lazy).0.Failed?
    requires Peek(s.accessTokens, d.access, now).None?   // the drawn id is fresh
    ensures LiveTokensUnchanged(s, ExchangeCode(s, r, d, now, lazy).1, now) <==> !ReplayOrUnsignable(s, r, now)
  {
    var s' := ExchangeCode(s, r, d, now, lazy).1;
    var e := Peek(s.codes, r.code, now);
    if e.Some? && e.value.used {
      WithoutLive(s.accessTokens, e.value.issuedAccess, now);
      WithoutLive(s.refreshTokens, e.value.issuedRefresh, now);
    } else if e.Some? && Refusal(r, e.value.code, now).None? {
      assert d.access !in Unexpired(s.accessTokens, now) && d.access in Unexpired(s'.accessTokens, now);
    }
  }

  lemma WithoutLive<T(!new)>(t: Table<T>, k: Option<string>, now: nat)
    ensures Unexpired(Without(t, k), now) == Unexpired(t, now) <==> !(k.Some? && Peek(t, k.value, now).Some?)
  {
    if k.Some? && Peek(t, k.value, now).Some? {
      assert k.value in Unexpired(t, now) && k.value !in Unexpired(Without(t, k), now);
    }
  }
}
