/** Whole runs of the in-memory store's handlers, one call at a time, under a clock that never goes back
    (src/grants.rs:146-372, src/store.rs:117-289, src/web/oidc.rs:489-544). */
module HandlerRuns {
  import opened Documents
  import opened Tokens
  import opened MemoryStore
  import opened TokenGrants

  /** Keys named in each map. */
  datatype Keys = Keys(
    interactions: set<string>, sessions: set<string>, codes: set<string>, access: set<string>, refresh: set<string>)

  datatype InteractionOp = Open(i: Interaction) | Look(uid: string) | Consume(uid: string)

  datatype SessionOp = LogIn(x: Session) | Resume(sid: string) | LogOut(sid: string)

  datatype AccessOp = Use(token: string) | ConsumeMandate(token: string) | Issue(t: AccessToken)

  datatype Op =
    | OnInteraction(i: InteractionOp)
    | OnSession(x: SessionOp)
    | OnAccess(a: AccessOp)                     // Issue: the approved backchannel request
    | SaveCode(c: AuthCode)
    | GrantByCode(code: CodeRequest)
    | GrantByRefresh(r: Presented)
    | GetRefresh(token: string)
    | Revoke(token: string, clientId: string)
    | Clean(keys: Keys)                         // drops those of the named entries that have expired

  /** One call: its second, whether its reads drop the expired entries they meet, the ids it may draw. */
  datatype Event = Event(now: nat, lazy: bool, drawn: Draw, op: Op)

  datatype Output =
    | Done
    | Won(won: bool)
    | TheInteraction(i: Option<Interaction>)
    | TheSession(x: Option<Session>)
    | TheAccess(a: Option<AccessToken>)
    | TheRefresh(t: Option<RefreshToken>)
    | Answer(o: Outcome)

  function Dropped<T>(t: Table<T>, ks: set<string>, now: nat): Table<T> {
    map k | k in t && (k in ks ==> t[k].Alive(now)) :: t[k]
  }

  function Cleaned(s: Store, ks: Keys, now: nat): Store {
    Store(Dropped(s.interactions, ks.interactions, now), Dropped(s.sessions, ks.sessions, now),
          Dropped(s.codes, ks.codes, now), Dropped(s.accessTokens, ks.access, now),
          Dropped(s.refreshTokens, ks.refresh, now))
  }

  function InteractionAfter(t: Table<Interaction>, op: InteractionOp, now: nat, lazy: bool)
    : (Output, Table<Interaction>)
  {
    match op
    case Open(i) => (Done, t[i.uid := Expiring(i, now + INTERACTION_TTL)])
    case Look(uid) => (TheInteraction(Peek(t, uid, now)), AfterPeek(t, uid, now, lazy))
    case Consume(uid) => (Won(Peek(t, uid, now).Some?), t - {uid})
  }

  function SessionAfter(t: Table<Session>, op: SessionOp, now: nat, lazy: bool): (Output, Table<Session>) {
    match op
    case LogIn(x) => (Done, t[x.sid := Expiring(x, now + SESSION_TTL)])
    case Resume(sid) => (TheSession(Peek(t, sid, now)), AfterPeek(t, sid, now, lazy))
    case LogOut(sid) => (Done, t - {sid})
  }

  function AccessAfter(t: Table<AccessToken>, op: AccessOp, now: nat, lazy: bool): (Output, Table<AccessToken>) {
    match op
    case Use(token) => (TheAccess(Peek(t, token, now)), AfterPeek(t, token, now, lazy))
    case ConsumeMandate(token) => var (won, t') := MandateConsumed(t, token, now); (Won(won), t')
    case Issue(a) => (Done, t[a.token := Expiring(a, now + ACCESS_TTL)])
  }

  function Perform(s: Store, e: Event): (Output, Store) {
    var now, lazy := e.now, e.lazy;
    match e.op
    case OnInteraction(op) => var (o, t) := InteractionAfter(s.interactions, op, now, lazy); (o, s.(interactions := t))
    case OnSession(op) => var (o, t) := SessionAfter(s.sessions, op, now, lazy); (o, s.(sessions := t))
    case OnAccess(op) => var (o, t) := AccessAfter(s.accessTokens, op, now, lazy); (o, s.(accessTokens := t))
    case SaveCode(c) => (Done, s.(codes := s.codes[c.code := Expiring(CodeRecord(c, false, None, None), c.expiresAt)]))
    case GrantByCode(r) => var (o, s') := ExchangeCode(s, r, e.drawn, now, lazy); (Answer(o), s')
    case GrantByRefresh(r) => var (o, s') := Rotate(s, r, e.drawn, now, lazy); (Answer(o), s')
    case GetRefresh(token) =>
      (TheRefresh(Peek(s.refreshTokens, token, now)), s.(refreshTokens := AfterPeek(s.refreshTokens, token, now, lazy)))
    case Revoke(token, clientId) => (Done, RevokeToken(s, token, clientId, now, lazy))
    case Clean(keys) => (Done, Cleaned(s, keys, now))
  }

  /** The active sweep is the cleaning that names every key. */
  lemma SweepIsCleaning(s: Store, now: nat)
    ensures Sweep(s, now) == Cleaned(s, Keys(s.interactions.Keys, s.sessions.Keys, s.codes.Keys, s.accessTokens.Keys,
                                             s.refreshTokens.Keys), now)
  {}

  function Run(es: seq<Event>): Store {
    if es == [] then Empty else Perform(Run(es[..|es| - 1]), es[|es| - 1]).1
  }

  /** The clock never goes back, and no refresh token or family id is drawn twice. */
  ghost predicate Orderly(es: seq<Event>) {
    forall i, j :: 0 <= i < j < |es| ==>
      es[i].now <= es[j].now && es[i].drawn.refresh != es[j].drawn.refresh && es[i].drawn.family != es[j].drawn.family
  }

  ghost function Clock(es: seq<Event>): nat {
    if es == [] then 0 else es[|es| - 1].now
  }

  ghost function RefreshIds(es: seq<Event>): set<string> {
    set i | 0 <= i < |es| :: es[i].drawn.refresh
  }

  ghost function FamilyIds(es: seq<Event>): set<string> {
    set i | 0 <= i < |es| :: es[i].drawn.family
  }

  lemma OrderlyStep(es: seq<Event>)
    requires Orderly(es) && es != []
    ensures var before, e := es[..|es| - 1], es[|es| - 1];
      Orderly(before) && Clock(before) <= e.now && e.drawn.refresh !in RefreshIds(before) &&
      e.drawn.family !in FamilyIds(before) && RefreshIds(es) == RefreshIds(before) + {e.drawn.refresh} &&
      FamilyIds(es) == FamilyIds(before) + {e.drawn.family}
  {
    var before, e := es[..|es| - 1], es[|es| - 1];
    assert es == before + [e];
    assert RefreshIds(es) == RefreshIds(before) + {e.drawn.refresh} by {
      assert forall i :: 0 <= i < |before| ==> es[i] == before[i];
      assert es[|es| - 1].drawn.refresh in RefreshIds(es);
      forall x | x in RefreshIds(before) ensures x in RefreshIds(es) {
        var i :| 0 <= i < |before| && before[i].drawn.refresh == x;
        assert es[i].drawn.refresh == x;
      }
    }
    assert FamilyIds(es) == FamilyIds(before) + {e.drawn.family} by {
      assert forall i :: 0 <= i < |before| ==> es[i] == before[i];
      assert es[|es| - 1].drawn.family in FamilyIds(es);
      forall x | x in FamilyIds(before) ensures x in FamilyIds(es) {
        var i :| 0 <= i < |before| && before[i].drawn.family == x;
        assert es[i].drawn.family == x;
      }
    }
  }

  // ----- What every stored refresh token satisfies -----

  /** Expiry never decreases along a successor link, and links stay within the family. */
  ghost predicate LinkOk(t: Table<RefreshToken>, k: string)
    requires k in t
  {
    var next := t[k].value.replacedBy;
    next.Some? && next.value in t ==>
      t[k].expiresAt <= t[next.value].expiresAt && t[k].value.familyId == t[next.value].value.familyId
  }

  ghost predicate EntryOk(t: Table<RefreshToken>, k: string, now: nat, ids: set<string>)
    requires k in t
  {
    var token := t[k].value;
    && k in ids && token.token == k && t[k].expiresAt <= now + REFRESH_TTL
    && (token.replacedBy.Some? ==> token.replacedBy.value in ids) && LinkOk(t, k)
  }

  ghost predicate RefreshOk(t: Table<RefreshToken>, now: nat, ids: set<string>) {
    forall k :: k in t ==> EntryOk(t, k, now, ids)
  }

  lemma ShrunkOk(t: Table<RefreshToken>, t': Table<RefreshToken>, now: nat, now': nat, ids: set<string>,
                 ids': set<string>)
    requires RefreshOk(t, now, ids) && now <= now' && ids <= ids'
    requires forall k :: k in t' ==> k in t && t'[k] == t[k]
    ensures RefreshOk(t', now', ids')
  {
    forall k | k in t' ensures EntryOk(t', k, now', ids') { assert EntryOk(t, k, now, ids); }
  }

  /** A new token under an unused name. */
  lemma AddedOk(t: Table<RefreshToken>, new_: RefreshToken, now: nat, ids: set<string>)
    requires RefreshOk(t, now, ids)
    requires new_.replacedBy.None? && new_.token in ids && new_.token !in t
    requires forall k :: k in t && t[k].value.replacedBy == Some(new_.token) ==> t[k].value.familyId == new_.familyId
    ensures RefreshOk(t[new_.token := Expiring(new_, now + REFRESH_TTL)], now, ids)
  {
    var t' := t[new_.token := Expiring(new_, now + REFRESH_TTL)];
    forall k | k in t' ensures EntryOk(t', k, now, ids) { assert k in t ==> EntryOk(t, k, now, ids); }
  }

  lemma MarkedOk(t: Table<RefreshToken>, k0: string, next: Option<string>, now: nat, ids: set<string>)
    requires RefreshOk(t, now, ids) && (next.Some? ==> next.value in ids && next.value !in t)
    ensures RefreshOk(RefreshMarked(t, k0, next, now).1, now, ids)
  {
    var t' := RefreshMarked(t, k0, next, now).1;
    forall k | k in t' ensures EntryOk(t', k, now, ids) { assert EntryOk(t, k, now, ids); }
  }

  /** No stored token has this name or leads to it. */
  ghost predicate Unheard(t: Table<RefreshToken>, id: string) {
    forall k :: k in t ==> k != id && t[k].value.replacedBy != Some(id)
  }

  lemma FreshIsUnheard(t: Table<RefreshToken>, now: nat, ids: set<string>, id: string)
    requires RefreshOk(t, now, ids) && id !in ids
    ensures Unheard(t, id) && RefreshOk(t, now, ids + {id})
  {
    forall k | k in t ensures k != id && t[k].value.replacedBy != Some(id) { assert EntryOk(t, k, now, ids); }
    ShrunkOk(t, t, now, now, ids, ids + {id});
  }

  lemma RenewedKeepsOk(s: Store, r: Presented, d: Draw, now: nat, ids: set<string>)
    requires RefreshOk(s.refreshTokens, now, ids) && Unheard(s.refreshTokens, d.refresh) && d.refresh in ids
    requires Peek(s.refreshTokens, r.token, now).Some?
    requires Check(r, Peek(s.refreshTokens, r.token, now).value).Pass?
    ensures var pre := Peek(s.refreshTokens, r.token, now).value;
      RefreshOk(Renewed(s, r, pre, Check(r, pre).scope, d, now).1.refreshTokens, now, ids)
  {
    var pre := Peek(s.refreshTokens, r.token, now).value;
    var scope := Check(r, pre).scope;
    MarkedOk(s.refreshTokens, r.token, NextName(scope, d), now, ids);
    if HasScope(scope, OFFLINE) {
      AddedOk(RefreshMarked(s.refreshTokens, r.token, NextName(scope, d), now).1,
              Successor(r, pre, scope, d.refresh), now, ids);
    }
  }

  lemma RotateKeepsOk(s: Store, r: Presented, d: Draw, now: nat, lazy: bool, ids: set<string>)
    requires RefreshOk(s.refreshTokens, now, ids) && d.refresh !in ids
    ensures RefreshOk(Rotate(s, r, d, now, lazy).1.refreshTokens, now, ids + {d.refresh})
  {
    FreshIsUnheard(s.refreshTokens, now, ids, d.refresh);
    var pre := Peek(s.refreshTokens, r.token, now);
    if pre.Some? && Check(r, pre.value).Pass? {
      RenewedKeepsOk(s, r, d, now, ids + {d.refresh});
    } else {
      ShrunkOk(s.refreshTokens, Rotate(s, r, d, now, lazy).1.refreshTokens, now, now, ids, ids + {d.refresh});
    }
  }

  lemma RedeemedKeepsOk(s: Store, r: CodeRequest, code: AuthCode, d: Draw, now: nat, ids: set<string>)
    requires RefreshOk(s.refreshTokens, now, ids) && Unheard(s.refreshTokens, d.refresh) && d.refresh in ids
    ensures RefreshOk(Redeemed(s, r, code, d, now).1.refreshTokens, now, ids)
  {
    if FirstRefresh(r, code, d).Some? {
      AddedOk(s.refreshTokens, FirstRefresh(r, code, d).value, now, ids);
    }
  }

  lemma ExchangeKeepsOk(s: Store, r: CodeRequest, d: Draw, now: nat, lazy: bool, ids: set<string>)
    requires RefreshOk(s.refreshTokens, now, ids) && d.refresh !in ids
    ensures RefreshOk(ExchangeCode(s, r, d, now, lazy).1.refreshTokens, now, ids + {d.refresh})
  {
    var (code, taken) := CodeTaken(s, r.code, now, lazy);
    ShrunkOk(s.refreshTokens, taken.refreshTokens, now, now, ids, ids);
    FreshIsUnheard(taken.refreshTokens, now, ids, d.refresh);
    if code.Some? {
      RedeemedKeepsOk(taken, r, code.value, d, now, ids + {d.refresh});
    }
  }

  lemma PerformKeepsOk(s: Store, e: Event, now: nat, ids: set<string>)
    requires RefreshOk(s.refreshTokens, now, ids) && now <= e.now && e.drawn.refresh !in ids
    ensures RefreshOk(Perform(s, e).1.refreshTokens, e.now, ids + {e.drawn.refresh})
  {
    ShrunkOk(s.refreshTokens, s.refreshTokens, now, e.now, ids, ids);
    match e.op
    case GrantByCode(r) => ExchangeKeepsOk(s, r, e.drawn, e.now, e.lazy, ids);
    case GrantByRefresh(r) => RotateKeepsOk(s, r, e.drawn, e.now, e.lazy, ids);
    case _ =>
      OthersShrink(s, e);
      ShrunkOk(s.refreshTokens, Perform(s, e).1.refreshTokens, now, e.now, ids, ids + {e.drawn.refresh});
  }

  lemma OthersShrink(s: Store, e: Event)
    requires !e.op.GrantByCode? && !e.op.GrantByRefresh?
    ensures var t, t' := s.refreshTokens, Perform(s, e).1.refreshTokens;
      forall k :: k in t' ==> k in t && t'[k] == t[k]
  {}

  /** In every reachable state, expiry is nondecreasing along every family. */
  lemma {:induction false} RunKeepsOk(es: seq<Event>)
    requires Orderly(es)
    ensures RefreshOk(Run(es).refreshTokens, Clock(es), RefreshIds(es))
  {
    if es != [] {
      OrderlyStep(es);
      var before := es[..|es| - 1];
      RunKeepsOk(before);
      PerformKeepsOk(Run(before), es[|es| - 1], Clock(before), RefreshIds(before));
    }
  }

  // ----- Spent once -----

  ghost predicate CodeSpent(s: Store, code: string) {
    code in s.codes ==> s.codes[code].value.used
  }

  ghost predicate TokenSpent(s: Store, token: string) {
    token in s.refreshTokens ==> s.refreshTokens[token].value.used
  }

  predicate Redeems(s: Store, e: Event, code: string) {
    e.op.GrantByCode? && e.op.code.code == code && Perform(s, e).0.o.Issued?
  }

  predicate Rotates(s: Store, e: Event, token: string) {
    e.op.GrantByRefresh? && e.op.r.token == token && Perform(s, e).0.o.Issued?
  }

  lemma ExchangeKeepsSpent(s: Store, r: CodeRequest, d: Draw, now: nat, lazy: bool, code: string, token: string)
    ensures CodeSpent(s, code) ==>
      CodeSpent(ExchangeCode(s, r, d, now, lazy).1, code) &&
      (r.code == code ==> ExchangeCode(s, r, d, now, lazy).0.Failed?)
    ensures TokenSpent(s, token) && d.refresh != token ==> TokenSpent(ExchangeCode(s, r, d, now, lazy).1, token)
  {}

  lemma RotateKeepsSpent(s: Store, r: Presented, d: Draw, now: nat, lazy: bool, token: string)
    requires TokenSpent(s, token) && d.refresh != token
    ensures TokenSpent(Rotate(s, r, d, now, lazy).1, token)
    ensures r.token == token ==> Rotate(s, r, d, now, lazy).0.Failed?
  {}

  /** Calls other than the grants alter no code but by saving one, and no refresh token at all. */
  lemma OthersOnlyDrop(s: Store, e: Event, code: string, token: string)
    requires !e.op.GrantByCode? && !e.op.GrantByRefresh? && !(e.op.SaveCode? && e.op.c.code == code)
    ensures var s' := Perform(s, e).1;
      (code in s'.codes ==> code in s.codes && s'.codes[code] == s.codes[code]) &&
      (token in s'.refreshTokens ==> token in s.refreshTokens && s'.refreshTokens[token] == s.refreshTokens[token])
  {}

  lemma CodeStaysSpent(s: Store, e: Event, code: string)
    requires CodeSpent(s, code) && !(e.op.SaveCode? && e.op.c.code == code)
    ensures !Redeems(s, e, code) && CodeSpent(Perform(s, e).1, code)
  {
    match e.op
    case GrantByCode(r) => ExchangeKeepsSpent(s, r, e.drawn, e.now, e.lazy, code, code);
    case GrantByRefresh(_) =>
    case _ => OthersOnlyDrop(s, e, code, code);
  }

  lemma TokenStaysSpent(s: Store, e: Event, token: string)
    requires TokenSpent(s, token) && e.drawn.refresh != token
    ensures !Rotates(s, e, token) && TokenSpent(Perform(s, e).1, token)
  {
    match e.op
    case GrantByCode(r) => ExchangeKeepsSpent(s, r, e.drawn, e.now, e.lazy, token, token);
    case GrantByRefresh(r) => RotateKeepsSpent(s, r, e.drawn, e.now, e.lazy, token);
    case SaveCode(_) =>
    case _ => OthersOnlyDrop(s, e, token, token);
  }

  lemma RedeemingSpends(s: Store, e: Event, code: string)
    requires Redeems(s, e, code)
    ensures CodeSpent(Perform(s, e).1, code)
  {}

  lemma {:induction false} SpentAlong(es: seq<Event>, i: nat, n: nat, code: string)
    requires i < n <= |es| && Redeems(Run(es[..i]), es[i], code)
    requires forall k :: i < k < n ==> !(es[k].op.SaveCode? && es[k].op.c.code == code)
    ensures CodeSpent(Run(es[..n]), code)
  {
    assert es[..n][..n - 1] == es[..n - 1];
    if n - 1 == i {
      RedeemingSpends(Run(es[..i]), es[i], code);
    } else {
      SpentAlong(es, i, n - 1, code);
      CodeStaysSpent(Run(es[..n - 1]), es[n - 1], code);
    }
  }

  /** A code saved once is redeemed at most once, over any run. */
  lemma CodeRedeemedAtMostOnce(es: seq<Event>, i: nat, j: nat, code: string)
    requires i < j < |es| && Redeems(Run(es[..i]), es[i], code)
    requires forall k :: i < k < j ==> !(es[k].op.SaveCode? && es[k].op.c.code == code)
    ensures !Redeems(Run(es[..j]), es[j], code)
  {
    SpentAlong(es, i, j, code);
    if es[j].op.GrantByCode? { CodeStaysSpent(Run(es[..j]), es[j], code); }
  }

  lemma RotatingSpends(s: Store, e: Event, token: string)
    requires Rotates(s, e, token) && e.drawn.refresh != token
    ensures TokenSpent(Perform(s, e).1, token)
  {}

  lemma StoredWasDrawn(es: seq<Event>, token: string) returns (k: nat)
    requires Orderly(es) && token in Run(es).refreshTokens
    ensures k < |es| && es[k].drawn.refresh == token
  {
    RunKeepsOk(es);
    assert EntryOk(Run(es).refreshTokens, token, Clock(es), RefreshIds(es));
    k :| 0 <= k < |es| && es[k].drawn.refresh == token;
  }

  lemma {:induction false} TokenSpentAlong(es: seq<Event>, i: nat, n: nat, token: string)
    requires i < n <= |es| && Rotates(Run(es[..i]), es[i], token)
    requires forall k :: i <= k < n ==> es[k].drawn.refresh != token
    ensures TokenSpent(Run(es[..n]), token)
  {
    assert es[..n][..n - 1] == es[..n - 1];
    if n - 1 == i {
      RotatingSpends(Run(es[..i]), es[i], token);
    } else {
      TokenSpentAlong(es, i, n - 1, token);
      TokenStaysSpent(Run(es[..n - 1]), es[n - 1], token);
    }
  }

  /** A refresh token rotates at most once, over any run. */
  lemma TokenRotatedAtMostOnce(es: seq<Event>, i: nat, j: nat, token: string)
    requires Orderly(es) && i < j < |es| && Rotates(Run(es[..i]), es[i], token)
    ensures !Rotates(Run(es[..j]), es[j], token)
  {
    var k := StoredWasDrawn(es[..i], token);
    assert es[k].drawn.refresh == token;
    TokenSpentAlong(es, i, j, token);
    TokenStaysSpent(Run(es[..j]), es[j], token);
  }

  // ----- Mandates are consumed once -----

  predicate ConsumesMandate(s: Store, e: Event, token: string) {
    e.op == OnAccess(ConsumeMandate(token)) && Perform(s, e).0 == Won(true)
  }

  ghost predicate MandateSpent(s: Store, token: string) {
    token in s.accessTokens ==> s.accessTokens[token].value.mandateConsumed
  }

  /** The event may store a token under this name. */
  predicate MaySave(e: Event, token: string) {
    ((e.op.GrantByCode? || e.op.GrantByRefresh?) && e.drawn.access == token) ||
    (e.op.OnAccess? && e.op.a.Issue? && e.op.a.t.token == token)
  }

  lemma MandateStaysSpent(s: Store, e: Event, token: string)
    requires MandateSpent(s, token) && !MaySave(e, token)
    ensures !ConsumesMandate(s, e, token) && MandateSpent(Perform(s, e).1, token)
  {
    match e.op
    case GrantByCode(r) => ExchangeKeepsMandate(s, r, e.drawn, e.now, e.lazy, token);
    case GrantByRefresh(r) => RotateKeepsMandate(s, r, e.drawn, e.now, e.lazy, token);
    case OnAccess(a) =>
    case _ => OthersDropAccess(s, e, token);
  }

  lemma ExchangeKeepsMandate(s: Store, r: CodeRequest, d: Draw, now: nat, lazy: bool, token: string)
    requires MandateSpent(s, token) && d.access != token
    ensures MandateSpent(ExchangeCode(s, r, d, now, lazy).1, token)
  {}

  lemma RotateKeepsMandate(s: Store, r: Presented, d: Draw, now: nat, lazy: bool, token: string)
    requires MandateSpent(s, token) && d.access != token
    ensures MandateSpent(Rotate(s, r, d, now, lazy).1, token)
  {}

  lemma OthersDropAccess(s: Store, e: Event, token: string)
    requires !e.op.GrantByCode? && !e.op.GrantByRefresh? && !e.op.OnAccess?
    ensures var s' := Perform(s, e).1;
      token in s'.accessTokens ==> token in s.accessTokens && s'.accessTokens[token] == s.accessTokens[token]
  {}

  lemma ConsumingSpends(s: Store, e: Event, token: string)
    requires ConsumesMandate(s, e, token)
    ensures MandateSpent(Perform(s, e).1, token)
  {}

  lemma {:induction false} MandateSpentAlong(es: seq<Event>, i: nat, n: nat, token: string)
    requires i < n <= |es| && ConsumesMandate(Run(es[..i]), es[i], token)
    requires forall k :: i < k < n ==> !MaySave(es[k], token)
    ensures MandateSpent(Run(es[..n]), token)
  {
    assert es[..n][..n - 1] == es[..n - 1];
    if n - 1 == i {
      ConsumingSpends(Run(es[..i]), es[i], token);
    } else {
      MandateSpentAlong(es, i, n - 1, token);
      MandateStaysSpent(Run(es[..n - 1]), es[n - 1], token);
    }
  }

  /** The mandate of an access token stored once is consumed at most once, over any run. */
  lemma MandateConsumedAtMostOnce(es: seq<Event>, i: nat, j: nat, token: string)
    requires i < j < |es| && ConsumesMandate(Run(es[..i]), es[i], token)
    requires forall k :: i < k < j ==> !MaySave(es[k], token)
    ensures !ConsumesMandate(Run(es[..j]), es[j], token)
  {
    MandateSpentAlong(es, i, j, token);
  }

  /** And the first consumption of a live one succeeds. */
  lemma MandateConsumedFirst(s: Store, e: Event, token: string)
    requires e.op == OnAccess(ConsumeMandate(token))
    ensures ConsumesMandate(s, e, token) <==>
              token in s.accessTokens && e.now < s.accessTokens[token].expiresAt &&
              !s.accessTokens[token].value.mandateConsumed
  {}

  // ----- How long logins last -----

  /** What was stored at `now` is answered until an hour later for an interaction, seven days for a session. */
  lemma LoginsLast(s: Store, i: Interaction, x: Session, now: nat, later: nat)
    ensures InteractionAfter(InteractionAfter(s.interactions, Open(i), now, true).1, Look(i.uid), later, true).0 ==
              TheInteraction(if later < now + 3600 then Some(i) else None)
    ensures InteractionAfter(InteractionAfter(s.interactions, Open(i), now, true).1, Consume(i.uid), later, true).0 ==
              Won(later < now + 3600)
    ensures SessionAfter(SessionAfter(s.sessions, LogIn(x), now, true).1, Resume(x.sid), later, true).0 ==
              TheSession(if later < now + 7 * 24 * 3600 then Some(x) else None)
  {}

  /** A consumed interaction is gone: nothing else answers it again. */
  lemma ConsumedIsGone(t: Table<Interaction>, uid: string, now: nat, later: nat)
    ensures var t' := InteractionAfter(t, Consume(uid), now, true).1;
      InteractionAfter(t', Consume(uid), later, true).0 == Won(false) &&
      InteractionAfter(t', Look(uid), later, true).0 == TheInteraction(None)
  {}

  // ----- Runs in which a refused call changes tokens -----

  lemma RunNext(es: seq<Event>, e: Event)
    ensures Run(es + [e]) == Perform(Run(es), e).1
  {
    assert (es + [e])[..|es|] == es;
  }

  function CodeFor(scope: string): AuthCode {
    AuthCode("X", "C", "U", "https://c/cb", scope, None, 0, None, None, None, 60)
  }

  function SaveIt(scope: string): Event {
    Event(0, true, Draw("", "", ""), SaveCode(CodeFor(scope)))
  }

  /** A confidential client redeems the code; `canSign` is whether its algorithm has a key. */
  function Redeem(canSign: bool): Event {
    Event(1, true, Draw("A", "T", "F"),
          GrantByCode(CodeRequest("X", "C", false, canSign, None, Some("https://c/cb"), None)))
  }

  const Unsigned := Event(2, true, Draw("B", "S", "G"), GrantByRefresh(Presented("T", "C", false, false, None, None)))

  function FirstToken(scope: string): RefreshToken {
    RefreshToken("T", "C", "U", scope, None, None, None, Some(0), "F", false, None)
  }

  lemma AfterSave(scope: string)
    ensures Run([SaveIt(scope)]).codes == map["X" := Expiring(CodeRecord(CodeFor(scope), false, None, None), 60)]
    ensures Run([SaveIt(scope)]).accessTokens == map[] && Run([SaveIt(scope)]).refreshTokens == map[]
  {
    assert [SaveIt(scope)] == [] + [SaveIt(scope)];
    RunNext([], SaveIt(scope));
  }

  lemma RedeemsTheCode(s: Store, scope: string, canSign: bool)
    requires s.codes == map["X" := Expiring(CodeRecord(CodeFor(scope), false, None, None), 60)]
    ensures var e := Redeem(canSign);
      var (o, s') := Redeemed(CodeTaken(s, "X", 1, true).1, e.op.code, CodeFor(scope), e.drawn, 1);
      Perform(s, e) == (Answer(o), s')
  {
    assert CodeTaken(s, "X", 1, true).0 == Some(CodeFor(scope));
  }

  lemma AfterRedeem(scope: string)
    requires HasScope(scope, OFFLINE)
    ensures Run([SaveIt(scope), Redeem(true)]).refreshTokens == map["T" := Expiring(FirstToken(scope), 1 + REFRESH_TTL)]
    ensures Run([SaveIt(scope), Redeem(true)]).codes ==
              map["X" := Expiring(CodeRecord(CodeFor(scope), true, Some("A"), Some("T")), 60)]
  {
    AfterSave(scope);
    RedeemsTheCode(Run([SaveIt(scope)]), scope, true);
    assert [SaveIt(scope), Redeem(true)] == [SaveIt(scope)] + [Redeem(true)];
    RunNext([SaveIt(scope)], Redeem(true));
  }

  lemma RefusesUnsigned(s: Store, scope: string)
    requires HasScope(scope, OFFLINE)
    requires s.refreshTokens == map["T" := Expiring(FirstToken(scope), 1 + REFRESH_TTL)]
    ensures Perform(s, Unsigned).0 == Answer(Failed(NoSigningKey))
    ensures Perform(s, Unsigned).1.refreshTokens ==
              map["T" := Expiring(FirstToken(scope).(used := true, replacedBy := Some("S")), 1 + REFRESH_TTL)]
  {
    var t := FirstToken(scope);
    assert Peek(s.refreshTokens, "T", 2) == Some(t);
    assert Check(Unsigned.op.r, t) == Pass(scope);
    assert s.(refreshTokens := s.refreshTokens) == s;
  }

  /** A code is saved, redeemed and its refresh token presented when no key can sign: the call is refused,
      the token presented is used from then on, and the link on it leads to a token that was never saved. */
  lemma RefusedButTouched(scope: string)
    requires HasScope(scope, OFFLINE)
    ensures var es := [SaveIt(scope), Redeem(true), Unsigned];
      var before, after := Run(es[..2]).refreshTokens, Run(es).refreshTokens;
      Orderly(es) && Perform(Run(es[..2]), Unsigned).0 == Answer(Failed(NoSigningKey)) &&
      Peek(before, "T", 2) == Some(FirstToken(scope)) &&
      Peek(after, "T", 2) == Some(FirstToken(scope).(used := true, replacedBy := Some("S"))) && "S" !in after
  {
    AfterRedeem(scope);
    var es := [SaveIt(scope), Redeem(true), Unsigned];
    assert es[..2] == [SaveIt(scope), Redeem(true)] && es == es[..2] + [Unsigned];
    RefusesUnsigned(Run(es[..2]), scope);
    RunNext(es[..2], Unsigned);
  }

  /** Such a scope: the word itself. */
  lemma OfflineScope()
    ensures HasScope(OFFLINE, OFFLINE)
  {
    OneWord("", OFFLINE);
    assert Words(OFFLINE)[0] == OFFLINE;
  }

  /** A code is saved and presented when no key can sign: the call is refused, the code is used from then on,
      and an access token that was answered to nobody is live. */
  lemma RefusedExchangeTouched(scope: string)
    ensures var es := [SaveIt(scope), Redeem(false)];
      var before, after := Run(es[..1]), Run(es);
      Orderly(es) && Perform(before, Redeem(false)).0 == Answer(Failed(NoSigningKey)) &&
      Peek(before.codes, "X", 1) == Some(CodeRecord(CodeFor(scope), false, None, None)) &&
      before.accessTokens == map[] &&
      Peek(after.codes, "X", 1) == Some(CodeRecord(CodeFor(scope), true, None, None)) &&
      Peek(after.accessTokens, "A", 1).Some?
  {
    AfterSave(scope);
    var es := [SaveIt(scope), Redeem(false)];
    assert es[..1] == [SaveIt(scope)] && es == es[..1] + [Redeem(false)];
    RedeemsTheCode(Run(es[..1]), scope, false);
    RunNext(es[..1], Redeem(false));
  }

  // ----- A run in which a replayed code leaves a redeemable token -----

  const Signed := Event(2, true, Draw("B", "S", "G"), GrantByRefresh(Presented("T", "C", false, true, None, None)))

  const ReplayIt := Event(3, true, Draw("D", "R", "H"), Redeem(true).op)

  lemma RotatesSigned(s: Store, scope: string)
    requires HasScope(scope, OFFLINE)
    requires s.refreshTokens == map["T" := Expiring(FirstToken(scope), 1 + REFRESH_TTL)]
    ensures Perform(s, Signed).1.codes == s.codes
    ensures Peek(Perform(s, Signed).1.refreshTokens, "S", 3) == Some(FirstToken(scope).(token := "S"))
  {
    var t := FirstToken(scope);
    assert Peek(s.refreshTokens, "T", 2) == Some(t);
    assert Check(Signed.op.r, t) == Pass(scope);
    assert s.(refreshTokens := s.refreshTokens) == s;
  }

  lemma ReplayTakesBackFirst(s: Store, scope: string)
    requires s.codes == map["X" := Expiring(CodeRecord(CodeFor(scope), true, Some("A"), Some("T")), 60)]
    ensures Perform(s, ReplayIt).0 == Answer(Failed(UnknownCode))
    ensures Perform(s, ReplayIt).1.refreshTokens == s.refreshTokens - {"T"}
  {}

  /** A code is saved, redeemed, its refresh token rotated, and the code presented again: the replay is refused
      and the linked token deleted, and the token that replaced it can still be redeemed. */
  lemma ReplayLeavesSuccessor(scope: string)
    requires HasScope(scope, OFFLINE)
    ensures var es := [SaveIt(scope), Redeem(true), Signed, ReplayIt];
      Orderly(es) && Perform(Run(es[..3]), ReplayIt).0 == Answer(Failed(UnknownCode)) &&
      "T" !in Run(es).refreshTokens &&
      Peek(Run(es).refreshTokens, "S", 3) == Some(FirstToken(scope).(token := "S"))
  {
    AfterRedeem(scope);
    var es := [SaveIt(scope), Redeem(true), Signed, ReplayIt];
    var first, third := [SaveIt(scope), Redeem(true)], [SaveIt(scope), Redeem(true)] + [Signed];
    RotatesSigned(Run(first), scope);
    RunNext(first, Signed);
    ReplayTakesBackFirst(Run(third), scope);
    RunNext(third, ReplayIt);
    assert es[..3] == third && es == third + [ReplayIt];
  }

  // ----- The calls on the object itself -----

  method ServeCall(store: MemoryStore, e: Event) returns (o: Output)
    requires e.lazy && !e.op.Clean?
    modifies store
    ensures (o, store.State()) == Perform(old(store.State()), e)
  {
    o := Done;
    match e.op
    case OnInteraction(op) =>
      match op {
        case Open(i) => store.SaveInteraction(i, e.now);
        case Look(uid) => var i := store.GetInteraction(uid, e.now); o := TheInteraction(i);
        case Consume(uid) => var won := store.ConsumeInteraction(uid, e.now); o := Won(won);
      }
    case OnSession(op) =>
      match op {
        case LogIn(x) => store.SaveSession(x, e.now);
        case Resume(sid) => var x := store.GetSession(sid, e.now); o := TheSession(x);
        case LogOut(sid) => store.DeleteSession(sid);
      }
    case OnAccess(op) =>
      match op {
        case Use(token) => var a := store.GetAccessToken(token, e.now); o := TheAccess(a);
        case ConsumeMandate(token) => var won := store.ConsumeMandateIfUnused(token, e.now); o := Won(won);
        case Issue(t) => store.SaveAccessToken(t, e.now);
      }
    case SaveCode(c) => store.SaveCode(c);
    case GrantByCode(r) => var a := HandleCode(store, r, e.drawn, e.now); o := Answer(a);
    case GrantByRefresh(r) => var a := HandleRefresh(store, r, e.drawn, e.now); o := Answer(a);
    case GetRefresh(token) => var t := store.GetRefreshToken(token, e.now); o := TheRefresh(t);
    case Revoke(token, clientId) => HandleRevoke(store, token, clientId, e.now);
  }
}
