/** The in-memory store (src/store.rs:10-289, the records of src/model.rs:72-160).

    `Store` is its five maps as a value, with the meaning of each operation; `MemoryStore` is the
    object whose maps are changed in place. Every operation is given the current second. */
module MemoryStore {
  import opened Documents
  import opened Tokens
  import opened FamilyWalk

  const INTERACTION_TTL := 3600
  const SESSION_TTL := 7 * 24 * 3600
  const ACCESS_TTL := 900

  datatype Expiring<+T> = Expiring(value: T, expiresAt: nat) {
    predicate Alive(now: nat) {
      expiresAt > now
    }
  }

  type Table<T> = map<string, Expiring<T>>

  datatype Interaction = Interaction(
    uid: string, rawQuery: string, accountId: Option<string>, authTime: Option<nat>, requestUri: Option<string>)

  datatype Session = Session(sid: string, accountId: string, authTime: nat)

  datatype AuthCode = AuthCode(
    code: string, clientId: string, accountId: string, redirectUri: string, scope: string,
    challenge: Option<string>, authTime: nat, acr: Option<string>, dpopJkt: Option<string>,
    resource: Option<string>, expiresAt: nat)

  datatype CodeRecord = CodeRecord(
    code: AuthCode, used: bool, issuedAccess: Option<string>, issuedRefresh: Option<string>)

  datatype AccessToken = AccessToken(
    token: string, clientId: string, accountId: string, scope: string, jkt: Option<string>, aud: Option<string>,
    acr: Option<string>, authTime: Option<nat>, details: Option<string>, mandateConsumed: bool)

  datatype Store = Store(
    interactions: Table<Interaction>,
    sessions: Table<Session>,
    codes: Table<CodeRecord>,
    accessTokens: Table<AccessToken>,
    refreshTokens: Table<RefreshToken>)

  // ----- One table -----

  /** What a reader at `now` is given. */
  function Peek<T>(t: Table<T>, k: string, now: nat): Option<T> {
    if k in t && t[k].Alive(now) then Some(t[k].value) else None
  }

  /** The table after that read; a lazy reader drops the expired entry it ran into. */
  function AfterPeek<T>(t: Table<T>, k: string, now: nat, lazy: bool): Table<T> {
    if lazy && k in t && !t[k].Alive(now) then t - {k} else t
  }

  function Unexpired<T>(t: Table<T>, now: nat): Table<T> {
    map k | k in t && t[k].Alive(now) :: t[k]
  }

  function LinksOf(t: Table<RefreshToken>): Links {
    map k | k in t :: t[k].value.replacedBy
  }

  // ----- Operations with more than one outcome or more than one map -----

  function CodeTaken(s: Store, code: string, now: nat, lazy: bool): (Option<AuthCode>, Store) {
    var record := Peek(s.codes, code, now);
    if record.None? then (None, s.(codes := AfterPeek(s.codes, code, now, lazy)))
    else
      var e, f := s.codes[code], record.value;
      if f.used then
        (None, s.(codes := s.codes[code := e.(value := f.(issuedAccess := None, issuedRefresh := None))],
                  accessTokens := Without(s.accessTokens, f.issuedAccess),
                  refreshTokens := Without(s.refreshTokens, f.issuedRefresh)))
      else
        (Some(f.code), s.(codes := s.codes[code := e.(value := f.(used := true))]))
  }

  function Without<T>(t: Table<T>, k: Option<string>): Table<T> {
    if k.Some? then t - {k.value} else t
  }

  /** The tokens issued for a code are noted on its record, expired or not. */
  function Linked(t: Table<CodeRecord>, code: string, access: string, refresh: Option<string>): Table<CodeRecord> {
    if code !in t then t
    else t[code := t[code].(value := t[code].value.(issuedAccess := Some(access), issuedRefresh := refresh))]
  }

  function RefreshMarked(t: Table<RefreshToken>, token: string, next: Option<string>, now: nat)
    : (bool, Table<RefreshToken>)
  {
    var pre := Peek(t, token, now);
    if pre.None? || pre.value.used then (false, t)
    else (true, t[token := t[token].(value := pre.value.(used := true, replacedBy := next))])
  }

  function MandateConsumed(t: Table<AccessToken>, token: string, now: nat): (bool, Table<AccessToken>) {
    var pre := Peek(t, token, now);
    if pre.None? || pre.value.mandateConsumed then (false, t)
    else (true, t[token := t[token].(value := pre.value.(mandateConsumed := true))])
  }

  /** The tokens a revocation starting at `start` deletes: the first 64 of the chain. */
  function Revoked(t: Table<RefreshToken>, start: string): set<string> {
    var chain := Chain(LinksOf(t), Some(start));
    Elements(chain[..Least(WALK_LIMIT, |chain|)])
  }

  function Sweep(s: Store, now: nat): Store {
    Store(Unexpired(s.interactions, now), Unexpired(s.sessions, now), Unexpired(s.codes, now),
          Unexpired(s.accessTokens, now), Unexpired(s.refreshTokens, now))
  }

  const Empty := Store(map[], map[], map[], map[], map[])

  // ----- The object -----

  class MemoryStore {
    var interactions: Table<Interaction>
    var sessions: Table<Session>
    var codes: Table<CodeRecord>
    var accessTokens: Table<AccessToken>
    var refreshTokens: Table<RefreshToken>

    ghost function State(): Store
      reads this
    {
      Store(interactions, sessions, codes, accessTokens, refreshTokens)
    }

    constructor ()
      ensures State() == Empty
    {
      interactions, sessions, codes, accessTokens, refreshTokens := map[], map[], map[], map[], map[];
    }

    method SaveInteraction(i: Interaction, now: nat)
      modifies this`interactions
      ensures interactions == old(interactions)[i.uid := Expiring(i, now + INTERACTION_TTL)]
    {
      interactions := interactions[i.uid := Expiring(i, now + INTERACTION_TTL)];
    }

    method GetInteraction(uid: string, now: nat) returns (r: Option<Interaction>)
      modifies this`interactions
      ensures r == Peek(old(interactions), uid, now)
      ensures interactions == AfterPeek(old(interactions), uid, now, true)
    {
      if uid !in interactions {
        return None;
      }
      if interactions[uid].Alive(now) {
        return Some(interactions[uid].value);
      }
      interactions := interactions - {uid};
      r := None;
    }

    /** The first caller within the hour wins; everyone after it, or later, loses. */
    method ConsumeInteraction(uid: string, now: nat) returns (won: bool)
      modifies this`interactions
      ensures won <==> Peek(old(interactions), uid, now).Some?
      ensures interactions == old(interactions) - {uid}
    {
      won := uid in interactions && interactions[uid].Alive(now);
      interactions := interactions - {uid};
    }

    method SaveSession(x: Session, now: nat)
      modifies this`sessions
      ensures sessions == old(sessions)[x.sid := Expiring(x, now + SESSION_TTL)]
    {
      sessions := sessions[x.sid := Expiring(x, now + SESSION_TTL)];
    }

    method GetSession(sid: string, now: nat) returns (r: Option<Session>)
      modifies this`sessions
      ensures r == Peek(old(sessions), sid, now)
      ensures sessions == AfterPeek(old(sessions), sid, now, true)
    {
      if sid !in sessions {
        return None;
      }
      if sessions[sid].Alive(now) {
        return Some(sessions[sid].value);
      }
      sessions := sessions - {sid};
      r := None;
    }

    method DeleteSession(sid: string)
      modifies this`sessions
      ensures sessions == old(sessions) - {sid}
    {
      sessions := sessions - {sid};
    }

    method SaveCode(c: AuthCode)
      modifies this`codes
      ensures codes == old(codes)[c.code := Expiring(CodeRecord(c, false, None, None), c.expiresAt)]
    {
      codes := codes[c.code := Expiring(CodeRecord(c, false, None, None), c.expiresAt)];
    }

    method TakeCode(code: string, now: nat) returns (r: Option<AuthCode>)
      modifies this`codes, this`accessTokens, this`refreshTokens
      ensures (r, State()) == CodeTaken(old(State()), code, now, true)
    {
      if code !in codes {
        return None;
      }
      var e := codes[code];
      if !e.Alive(now) {
        codes := codes - {code};
        return None;
      }
      if !e.value.used {
        codes := codes[code := e.(value := e.value.(used := true))];
        return Some(e.value.code);
      }
      var access, refresh := e.value.issuedAccess, e.value.issuedRefresh;
      codes := codes[code := e.(value := e.value.(issuedAccess := None, issuedRefresh := None))];
      if access.Some? {
        accessTokens := accessTokens - {access.value};
      }
      if refresh.Some? {
        refreshTokens := refreshTokens - {refresh.value};
      }
      r := None;
    }

    method LinkIssuedTokens(code: string, access: string, refresh: Option<string>)
      modifies this`codes
      ensures codes == Linked(old(codes), code, access, refresh)
    {
      if code in codes {
        var e := codes[code];
        codes := codes[code := e.(value := e.value.(issuedAccess := Some(access), issuedRefresh := refresh))];
      }
    }

    method SaveAccessToken(t: AccessToken, now: nat)
      modifies this`accessTokens
      ensures accessTokens == old(accessTokens)[t.token := Expiring(t, now + ACCESS_TTL)]
    {
      accessTokens := accessTokens[t.token := Expiring(t, now + ACCESS_TTL)];
    }

    method GetAccessToken(token: string, now: nat) returns (r: Option<AccessToken>)
      modifies this`accessTokens
      ensures r == Peek(old(accessTokens), token, now)
      ensures accessTokens == AfterPeek(old(accessTokens), token, now, true)
    {
      if token !in accessTokens {
        return None;
      }
      if accessTokens[token].Alive(now) {
        return Some(accessTokens[token].value);
      }
      accessTokens := accessTokens - {token};
      r := None;
    }

    method RevokeAccessToken(token: string)
      modifies this`accessTokens
      ensures accessTokens == old(accessTokens) - {token}
    {
      accessTokens := accessTokens - {token};
    }

    method ConsumeMandateIfUnused(token: string, now: nat) returns (won: bool)
      modifies this`accessTokens
      ensures (won, accessTokens) == MandateConsumed(old(accessTokens), token, now)
    {
      won := token in accessTokens && accessTokens[token].Alive(now) && !accessTokens[token].value.mandateConsumed;
      if won {
        var e := accessTokens[token];
        accessTokens := accessTokens[token := e.(value := e.value.(mandateConsumed := true))];
      }
    }

    method SaveRefreshToken(t: RefreshToken, now: nat)
      modifies this`refreshTokens
      ensures refreshTokens == old(refreshTokens)[t.token := Expiring(t, now + REFRESH_TTL)]
    {
      refreshTokens := refreshTokens[t.token := Expiring(t, now + REFRESH_TTL)];
    }

    method GetRefreshToken(token: string, now: nat) returns (r: Option<RefreshToken>)
      modifies this`refreshTokens
      ensures r == Peek(old(refreshTokens), token, now)
      ensures refreshTokens == AfterPeek(old(refreshTokens), token, now, true)
    {
      if token !in refreshTokens {
        return None;
      }
      if refreshTokens[token].Alive(now) {
        return Some(refreshTokens[token].value);
      }
      refreshTokens := refreshTokens - {token};
      r := None;
    }

    method RevokeRefreshToken(token: string)
      modifies this`refreshTokens
      ensures refreshTokens == old(refreshTokens) - {token}
    {
      refreshTokens := refreshTokens - {token};
    }

    method MarkRefreshUsed(token: string, next: Option<string>, now: nat) returns (won: bool)
      modifies this`refreshTokens
      ensures (won, refreshTokens) == RefreshMarked(old(refreshTokens), token, next, now)
    {
      won := token in refreshTokens && refreshTokens[token].Alive(now) && !refreshTokens[token].value.used;
      if won {
        var e := refreshTokens[token];
        refreshTokens := refreshTokens[token := e.(value := e.value.(used := true, replacedBy := next))];
      }
    }

    /** Terminates on any links, and removes exactly the first min(64, n) tokens of the chain. */
    method RevokeRefreshFamily(start: string)
      modifies this`refreshTokens
      ensures refreshTokens == old(refreshTokens) - Revoked(old(refreshTokens), start)
    {
      ghost var links := LinksOf(refreshTokens);
      var cur, guard := Some(start), 0;
      while cur.Some?
        invariant guard <= WALK_LIMIT
        invariant WalkFrom(LinksOf(refreshTokens), cur, WALK_LIMIT - guard) == WalkFrom(links, Some(start), WALK_LIMIT)
        invariant refreshTokens == map t | t in old(refreshTokens) && t in refreshTokens :: old(refreshTokens)[t]
        decreases WALK_LIMIT - guard, if cur.Some? then 1 else 0
      {
        var t := cur.value;
        if guard + 1 > WALK_LIMIT {
          break;
        }
        guard := guard + 1;
        cur := if t in refreshTokens then refreshTokens[t].value.replacedBy else None;
        ghost var before := LinksOf(refreshTokens);
        refreshTokens := refreshTokens - {t};
        assert LinksOf(refreshTokens) == before - {t};
      }
      WalkRemovesPrefix(links, Some(start), WALK_LIMIT);
      assert LinksOf(refreshTokens) == links - Revoked(old(refreshTokens), start);
      assert forall t :: t in refreshTokens <==> t in LinksOf(refreshTokens);
      assert refreshTokens == old(refreshTokens) - Revoked(old(refreshTokens), start);
    }

    method SweepExpired(now: nat)
      modifies this
      ensures State() == Sweep(old(State()), now)
    {
      interactions := Unexpired(interactions, now);
      sessions := Unexpired(sessions, now);
      codes := Unexpired(codes, now);
      accessTokens := Unexpired(accessTokens, now);
      refreshTokens := Unexpired(refreshTokens, now);
    }
  }
}
