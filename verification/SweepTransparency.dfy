/** Removing expired entries, early, late or never, changes no answer (src/store.rs:117-289). */
module SweepTransparency {
  import opened Documents
  import opened Tokens
  import opened FamilyWalk
  import opened MemoryStore
  import opened TokenGrants
  import opened HandlerRuns

  ghost predicate Same<T(!new)>(a: Table<T>, b: Table<T>, now: nat) {
    Unexpired(a, now) == Unexpired(b, now)
  }

  ghost predicate SameStore(a: Store, b: Store, now: nat) {
    && Same(a.interactions, b.interactions, now) && Same(a.sessions, b.sessions, now)
    && Same(a.codes, b.codes, now) && Same(a.accessTokens, b.accessTokens, now)
    && Same(a.refreshTokens, b.refreshTokens, now)
  }

  // ----- One table -----

  lemma SameAt<T(!new)>(a: Table<T>, b: Table<T>, k: string, now: nat)
    requires Same(a, b, now)
    ensures Peek(a, k, now) == Peek(b, k, now)
    ensures k in a && a[k].Alive(now) ==> k in b && b[k] == a[k]
    ensures k in b && b[k].Alive(now) ==> k in a && b[k] == a[k]
  {
    assert k in Unexpired(a, now) <==> k in Unexpired(b, now);
    assert k in Unexpired(a, now) ==> Unexpired(a, now)[k] == Unexpired(b, now)[k];
  }

  lemma SameByKey<T(!new)>(a: Table<T>, b: Table<T>, now: nat)
    requires forall k :: (k in a && a[k].Alive(now) ==> k in b && b[k] == a[k]) &&
                         (k in b && b[k].Alive(now) ==> k in a && b[k] == a[k])
    ensures Same(a, b, now)
  {
    assert forall k :: k in Unexpired(a, now) <==> k in Unexpired(b, now);
  }

  lemma SameLater<T(!new)>(a: Table<T>, b: Table<T>, now: nat, later: nat)
    requires Same(a, b, now) && now <= later
    ensures Same(a, b, later)
  {
    forall k
      ensures (k in a && a[k].Alive(later) ==> k in b && b[k] == a[k]) &&
              (k in b && b[k].Alive(later) ==> k in a && b[k] == a[k])
    {
      SameAt(a, b, k, now);
    }
    SameByKey(a, b, later);
  }

  lemma SamePut<T(!new)>(a: Table<T>, b: Table<T>, k: string, e: Expiring<T>, now: nat)
    requires Same(a, b, now)
    ensures Same(a[k := e], b[k := e], now)
  {
    forall k' { SameAt(a, b, k', now); }
    SameByKey(a[k := e], b[k := e], now);
  }

  lemma SameMinus<T(!new)>(a: Table<T>, b: Table<T>, ks: set<string>, now: nat)
    requires Same(a, b, now)
    ensures Same(a - ks, b - ks, now)
  {
    forall k' { SameAt(a, b, k', now); }
    SameByKey(a - ks, b - ks, now);
  }

  lemma SameAfterPeek<T(!new)>(a: Table<T>, b: Table<T>, k: string, now: nat, la: bool, lb: bool)
    requires Same(a, b, now)
    ensures Peek(a, k, now) == Peek(b, k, now)
    ensures Same(AfterPeek(a, k, now, la), AfterPeek(b, k, now, lb), now)
  {
    SameAt(a, b, k, now);
    assert Unexpired(AfterPeek(a, k, now, la), now) == Unexpired(a, now);
    assert Unexpired(AfterPeek(b, k, now, lb), now) == Unexpired(b, now);
  }

  lemma DroppedSame<T(!new)>(a: Table<T>, ks: set<string>, now: nat)
    ensures Same(Dropped(a, ks, now), a, now)
  {
    assert Unexpired(Dropped(a, ks, now), now) == Unexpired(a, now);
  }

  // ----- The family walk, which never looks at expiry -----

  /** From a live token the walk meets live tokens only, so it takes the same path in both tables. */
  lemma {:induction false} SameChain(a: Table<RefreshToken>, b: Table<RefreshToken>, cur: Option<string>, now: nat)
    requires Same(a, b, now)
    requires forall k :: k in a ==> LinkOk(a, k)
    requires forall k :: k in b ==> LinkOk(b, k)
    requires cur.Some? && cur.value in a ==> a[cur.value].Alive(now)
    requires cur.Some? && cur.value in b ==> b[cur.value].Alive(now)
    ensures Chain(LinksOf(a), cur) == Chain(LinksOf(b), cur)
    decreases |a|
  {
    if cur.Some? {
      SameAt(a, b, cur.value, now);
      if cur.value in a {
        var k, next := cur.value, a[cur.value].value.replacedBy;
        assert LinkOk(a, k) && LinkOk(b, k);
        SameMinus(a, b, {k}, now);
        assert (a - {k}).Keys == a.Keys - {k};
        assert |a - {k}| == |a| - 1;
        assert forall x :: x in a - {k} ==> LinkOk(a - {k}, x) by { assert forall x :: x in a ==> LinkOk(a, x); }
        assert forall x :: x in b - {k} ==> LinkOk(b - {k}, x) by { assert forall x :: x in b ==> LinkOk(b, x); }
        SameChain(a - {k}, b - {k}, next, now);
        assert LinksOf(a - {k}) == LinksOf(a) - {k} && LinksOf(b - {k}) == LinksOf(b) - {k};
      }
    }
  }

  lemma SameRevoked(a: Table<RefreshToken>, b: Table<RefreshToken>, start: string, now: nat)
    requires Same(a, b, now) && Peek(a, start, now).Some?
    requires forall k :: k in a ==> LinkOk(a, k)
    requires forall k :: k in b ==> LinkOk(b, k)
    ensures Revoked(a, start) == Revoked(b, start)
    ensures Same(a - Revoked(a, start), b - Revoked(b, start), now)
  {
    SameAt(a, b, start, now);
    SameChain(a, b, Some(start), now);
    SameMinus(a, b, Revoked(a, start), now);
  }

  // ----- One call -----

  ghost predicate LinksOk(s: Store) {
    forall k :: k in s.refreshTokens ==> LinkOk(s.refreshTokens, k)
  }

  lemma SameWithout<T(!new)>(a: Table<T>, b: Table<T>, k: Option<string>, now: nat)
    requires Same(a, b, now)
    ensures Same(Without(a, k), Without(b, k), now)
  {
    if k.Some? { SameMinus(a, b, {k.value}, now); }
  }

  lemma SameReplay(a: Store, b: Store, code: string, now: nat)
    requires SameStore(a, b, now) && Peek(a.codes, code, now).Some? && Peek(a.codes, code, now).value.used
    ensures SameStore(CodeTaken(a, code, now, false).1, CodeTaken(b, code, now, false).1, now)
  {
    SameAt(a.codes, b.codes, code, now);
    var e, f := a.codes[code], Peek(a.codes, code, now).value;
    SamePut(a.codes, b.codes, code, e.(value := f.(issuedAccess := None, issuedRefresh := None)), now);
    SameWithout(a.accessTokens, b.accessTokens, f.issuedAccess, now);
    SameWithout(a.refreshTokens, b.refreshTokens, f.issuedRefresh, now);
  }

  lemma SameFirstUse(a: Store, b: Store, code: string, now: nat)
    requires SameStore(a, b, now) && Peek(a.codes, code, now).Some? && !Peek(a.codes, code, now).value.used
    ensures SameStore(CodeTaken(a, code, now, false).1, CodeTaken(b, code, now, false).1, now)
  {
    SameAt(a.codes, b.codes, code, now);
    SamePut(a.codes, b.codes, code, a.codes[code].(value := Peek(a.codes, code, now).value.(used := true)), now);
  }

  lemma SameCodeTaken(a: Store, b: Store, code: string, now: nat, la: bool, lb: bool)
    requires SameStore(a, b, now)
    ensures CodeTaken(a, code, now, la).0 == CodeTaken(b, code, now, lb).0
    ensures SameStore(CodeTaken(a, code, now, la).1, CodeTaken(b, code, now, lb).1, now)
  {
    SameAfterPeek(a.codes, b.codes, code, now, la, lb);
    var record := Peek(a.codes, code, now);
    if record.Some? {
      if record.value.used { SameReplay(a, b, code, now); } else { SameFirstUse(a, b, code, now); }
    }
  }

  lemma LinkedDead(t: Table<CodeRecord>, code: string, access: string, refresh: Option<string>, now: nat)
    requires Peek(t, code, now).None?
    ensures Same(Linked(t, code, access, refresh), t, now)
  {
    assert Unexpired(Linked(t, code, access, refresh), now) == Unexpired(t, now);
  }

  lemma SameLinked(a: Table<CodeRecord>, b: Table<CodeRecord>, code: string, access: string, refresh: Option<string>,
                   now: nat)
    requires Same(a, b, now)
    ensures Same(Linked(a, code, access, refresh), Linked(b, code, access, refresh), now)
  {
    SameAt(a, b, code, now);
    if Peek(a, code, now).Some? {
      var e := a[code];
      SamePut(a, b, code, e.(value := e.value.(issuedAccess := Some(access), issuedRefresh := refresh)), now);
    } else {
      LinkedDead(a, code, access, refresh, now);
      LinkedDead(b, code, access, refresh, now);
    }
  }

  lemma SameWithRefresh(a: Store, b: Store, t: Option<RefreshToken>, now: nat)
    requires SameStore(a, b, now)
    ensures SameStore(WithRefresh(a, t, now), WithRefresh(b, t, now), now)
  {
    if t.Some? {
      SamePut(a.refreshTokens, b.refreshTokens, t.value.token, Expiring(t.value, now + REFRESH_TTL), now);
    }
  }

  lemma SameWithAccess(a: Store, b: Store, t: AccessToken, now: nat)
    requires SameStore(a, b, now)
    ensures SameStore(WithAccess(a, t, now), WithAccess(b, t, now), now)
  {
    SamePut(a.accessTokens, b.accessTokens, t.token, Expiring(t, now + ACCESS_TTL), now);
  }

  lemma SameRedeemed(a: Store, b: Store, r: CodeRequest, code: AuthCode, d: Draw, now: nat)
    requires SameStore(a, b, now)
    ensures Redeemed(a, r, code, d, now).0 == Redeemed(b, r, code, d, now).0
    ensures SameStore(Redeemed(a, r, code, d, now).1, Redeemed(b, r, code, d, now).1, now)
  {
    var access, refresh := AccessFor(r, code, d.access), FirstRefresh(r, code, d);
    SameWithAccess(a, b, access, now);
    SameWithRefresh(WithAccess(a, access, now), WithAccess(b, access, now), refresh, now);
    SameLinked(a.codes, b.codes, r.code, d.access, TokenName(refresh), now);
  }

  lemma SameExchange(a: Store, b: Store, r: CodeRequest, d: Draw, now: nat, la: bool, lb: bool)
    requires SameStore(a, b, now)
    ensures ExchangeCode(a, r, d, now, la).0 == ExchangeCode(b, r, d, now, lb).0
    ensures SameStore(ExchangeCode(a, r, d, now, la).1, ExchangeCode(b, r, d, now, lb).1, now)
  {
    SameCodeTaken(a, b, r.code, now, la, lb);
    var (code, ta) := CodeTaken(a, r.code, now, la);
    if code.Some? {
      SameRedeemed(ta, CodeTaken(b, r.code, now, lb).1, r, code.value, d, now);
    }
  }

  lemma SameMarked(a: Store, b: Store, token: string, next: Option<string>, now: nat)
    requires SameStore(a, b, now)
    ensures var (ma, mb) := (RefreshMarked(a.refreshTokens, token, next, now),
                             RefreshMarked(b.refreshTokens, token, next, now));
      ma.0 == mb.0 && SameStore(a.(refreshTokens := ma.1), b.(refreshTokens := mb.1), now)
  {
    SameAt(a.refreshTokens, b.refreshTokens, token, now);
    var pre := Peek(a.refreshTokens, token, now);
    if pre.Some? && !pre.value.used {
      var e := a.refreshTokens[token].(value := pre.value.(used := true, replacedBy := next));
      SamePut(a.refreshTokens, b.refreshTokens, token, e, now);
    }
  }

  lemma SameRenewed(a: Store, b: Store, r: Presented, pre: RefreshToken, scope: string, d: Draw, now: nat)
    requires SameStore(a, b, now)
    ensures Renewed(a, r, pre, scope, d, now).0 == Renewed(b, r, pre, scope, d, now).0
    ensures SameStore(Renewed(a, r, pre, scope, d, now).1, Renewed(b, r, pre, scope, d, now).1, now)
  {
    var next, access := NextName(scope, d), RotatedAccess(r, pre, scope, d.access);
    SameMarked(a, b, r.token, next, now);
    var ma := a.(refreshTokens := RefreshMarked(a.refreshTokens, r.token, next, now).1);
    var mb := b.(refreshTokens := RefreshMarked(b.refreshTokens, r.token, next, now).1);
    SameWithAccess(ma, mb, access, now);
    SameWithRefresh(WithAccess(ma, access, now), WithAccess(mb, access, now), NextToken(r, pre, scope, d), now);
  }

  lemma SameReused(a: Store, b: Store, start: string, now: nat)
    requires SameStore(a, b, now) && LinksOk(a) && LinksOk(b) && Peek(a.refreshTokens, start, now).Some?
    ensures SameStore(a.(refreshTokens := a.refreshTokens - Revoked(a.refreshTokens, start)),
                      b.(refreshTokens := b.refreshTokens - Revoked(b.refreshTokens, start)), now)
  {
    SameRevoked(a.refreshTokens, b.refreshTokens, start, now);
  }

  lemma SameRotate(a: Store, b: Store, r: Presented, d: Draw, now: nat, la: bool, lb: bool)
    requires SameStore(a, b, now) && LinksOk(a) && LinksOk(b)
    ensures Rotate(a, r, d, now, la).0 == Rotate(b, r, d, now, lb).0
    ensures SameStore(Rotate(a, r, d, now, la).1, Rotate(b, r, d, now, lb).1, now)
  {
    SameAfterPeek(a.refreshTokens, b.refreshTokens, r.token, now, la, lb);
    var pre := Peek(a.refreshTokens, r.token, now);
    if pre.Some? {
      assert a.(refreshTokens := a.refreshTokens) == a && b.(refreshTokens := b.refreshTokens) == b;
      if Check(r, pre.value).Reused? {
        SameReused(a, b, r.token, now);
      } else if Check(r, pre.value).Pass? {
        SameRenewed(a, b, r, pre.value, Check(r, pre.value).scope, d, now);
      }
    }
  }

  lemma SameRevokeToken(a: Store, b: Store, token: string, clientId: string, now: nat, la: bool, lb: bool)
    requires SameStore(a, b, now)
    ensures SameStore(RevokeToken(a, token, clientId, now, la), RevokeToken(b, token, clientId, now, lb), now)
  {
    SameAfterPeek(a.accessTokens, b.accessTokens, token, now, la, lb);
    SameAfterPeek(a.refreshTokens, b.refreshTokens, token, now, la, lb);
    SameMinus(AfterPeek(a.accessTokens, token, now, la), AfterPeek(b.accessTokens, token, now, lb), {token}, now);
    SameMinus(AfterPeek(a.refreshTokens, token, now, la), AfterPeek(b.refreshTokens, token, now, lb), {token}, now);
  }

  lemma SameMandate(a: Table<AccessToken>, b: Table<AccessToken>, token: string, now: nat)
    requires Same(a, b, now)
    ensures MandateConsumed(a, token, now).0 == MandateConsumed(b, token, now).0
    ensures Same(MandateConsumed(a, token, now).1, MandateConsumed(b, token, now).1, now)
  {
    SameAt(a, b, token, now);
    var pre := Peek(a, token, now);
    if pre.Some? {
      SamePut(a, b, token, a[token].(value := pre.value.(mandateConsumed := true)), now);
    }
  }

  lemma SameInteraction(a: Table<Interaction>, b: Table<Interaction>, op: InteractionOp, now: nat, la: bool, lb: bool)
    requires Same(a, b, now)
    ensures InteractionAfter(a, op, now, la).0 == InteractionAfter(b, op, now, lb).0
    ensures Same(InteractionAfter(a, op, now, la).1, InteractionAfter(b, op, now, lb).1, now)
  {
    match op
    case Open(i) => SamePut(a, b, i.uid, Expiring(i, now + INTERACTION_TTL), now);
    case Look(uid) => SameAfterPeek(a, b, uid, now, la, lb);
    case Consume(uid) => SameAt(a, b, uid, now); SameMinus(a, b, {uid}, now);
  }

  lemma SameSession(a: Table<Session>, b: Table<Session>, op: SessionOp, now: nat, la: bool, lb: bool)
    requires Same(a, b, now)
    ensures SessionAfter(a, op, now, la).0 == SessionAfter(b, op, now, lb).0
    ensures Same(SessionAfter(a, op, now, la).1, SessionAfter(b, op, now, lb).1, now)
  {
    match op
    case LogIn(x) => SamePut(a, b, x.sid, Expiring(x, now + SESSION_TTL), now);
    case Resume(sid) => SameAfterPeek(a, b, sid, now, la, lb);
    case LogOut(sid) => SameMinus(a, b, {sid}, now);
  }

  lemma SameAccess(a: Table<AccessToken>, b: Table<AccessToken>, op: AccessOp, now: nat, la: bool, lb: bool)
    requires Same(a, b, now)
    ensures AccessAfter(a, op, now, la).0 == AccessAfter(b, op, now, lb).0
    ensures Same(AccessAfter(a, op, now, la).1, AccessAfter(b, op, now, lb).1, now)
  {
    match op
    case Use(token) => SameAfterPeek(a, b, token, now, la, lb);
    case ConsumeMandate(token) => SameMandate(a, b, token, now);
    case Issue(t) => SamePut(a, b, t.token, Expiring(t, now + ACCESS_TTL), now);
  }

  /** Both stores answer alike, and still differ only in what has expired. */
  ghost predicate Agree(p: (Output, Store), q: (Output, Store), now: nat) {
    p.0 == q.0 && SameStore(p.1, q.1, now)
  }

  lemma SameVisit(a: Store, b: Store, e: Event, lazy: bool)
    requires SameStore(a, b, e.now) && (e.op.OnInteraction? || e.op.OnSession? || e.op.OnAccess?)
    ensures Agree(Perform(a, e), Perform(b, e.(lazy := lazy)), e.now)
  {
    var now := e.now;
    match e.op
    case OnInteraction(op) => SameInteraction(a.interactions, b.interactions, op, now, e.lazy, lazy);
    case OnSession(op) => SameSession(a.sessions, b.sessions, op, now, e.lazy, lazy);
    case OnAccess(op) => SameAccess(a.accessTokens, b.accessTokens, op, now, e.lazy, lazy);
  }

  lemma SameGrant(a: Store, b: Store, e: Event, lazy: bool)
    requires SameStore(a, b, e.now) && LinksOk(a) && LinksOk(b) && (e.op.GrantByCode? || e.op.GrantByRefresh?)
    ensures Agree(Perform(a, e), Perform(b, e.(lazy := lazy)), e.now)
  {
    match e.op
    case GrantByCode(r) => SameExchange(a, b, r, e.drawn, e.now, e.lazy, lazy);
    case GrantByRefresh(r) => SameRotate(a, b, r, e.drawn, e.now, e.lazy, lazy);
  }

  /** One call answers alike on stores that differ only in what has expired, and leaves them so. */
  lemma SamePerform(a: Store, b: Store, e: Event, lazy: bool)
    requires SameStore(a, b, e.now) && LinksOk(a) && LinksOk(b) && !e.op.Clean?
    ensures Agree(Perform(a, e), Perform(b, e.(lazy := lazy)), e.now)
  {
    var now := e.now;
    match e.op
    case SaveCode(c) => SamePut(a.codes, b.codes, c.code, Expiring(CodeRecord(c, false, None, None), c.expiresAt), now);
    case GetRefresh(token) => SameAfterPeek(a.refreshTokens, b.refreshTokens, token, now, e.lazy, lazy);
    case Revoke(token, clientId) => SameRevokeToken(a, b, token, clientId, now, e.lazy, lazy);
    case GrantByCode(_) => SameGrant(a, b, e, lazy);
    case GrantByRefresh(_) => SameGrant(a, b, e, lazy);
    case _ => SameVisit(a, b, e, lazy);
  }

  // ----- Whole runs -----

  /** The answers given to callers; cleaning has no caller. */
  function Answers(es: seq<Event>): seq<Output> {
    if es == [] then []
    else
      var before, e := es[..|es| - 1], es[|es| - 1];
      Answers(before) + if e.op.Clean? then [] else [Perform(Run(before), e).0]
  }

  /** The same calls with no cleaning between them and no lazy removal inside them. */
  function NeverCleaned(es: seq<Event>): seq<Event> {
    if es == [] then []
    else
      var before, e := es[..|es| - 1], es[|es| - 1];
      NeverCleaned(before) + if e.op.Clean? then [] else [e.(lazy := false)]
  }

  lemma SameStoreLater(a: Store, b: Store, now: nat, later: nat)
    requires SameStore(a, b, now) && now <= later
    ensures SameStore(a, b, later)
  {
    SameLater(a.interactions, b.interactions, now, later);
    SameLater(a.sessions, b.sessions, now, later);
    SameLater(a.codes, b.codes, now, later);
    SameLater(a.accessTokens, b.accessTokens, now, later);
    SameLater(a.refreshTokens, b.refreshTokens, now, later);
  }

  lemma CleanedSame(a: Store, ks: Keys, now: nat)
    ensures SameStore(Cleaned(a, ks, now), a, now)
  {
    DroppedSame(a.interactions, ks.interactions, now);
    DroppedSame(a.sessions, ks.sessions, now);
    DroppedSame(a.codes, ks.codes, now);
    DroppedSame(a.accessTokens, ks.access, now);
    DroppedSame(a.refreshTokens, ks.refresh, now);
  }

  lemma OkMeansLinksOk(s: Store, now: nat, ids: set<string>)
    requires RefreshOk(s.refreshTokens, now, ids)
    ensures LinksOk(s)
  {
    forall k | k in s.refreshTokens ensures LinkOk(s.refreshTokens, k) { assert EntryOk(s.refreshTokens, k, now, ids); }
  }

  lemma {:induction false} SameRuns(es: seq<Event>)
    requires Orderly(es)
    ensures SameStore(Run(es), Run(NeverCleaned(es)), Clock(es))
    ensures RefreshOk(Run(NeverCleaned(es)).refreshTokens, Clock(es), RefreshIds(es))
    ensures Answers(es) == Answers(NeverCleaned(es))
  {
    if es != [] {
      var before, e := es[..|es| - 1], es[|es| - 1];
      OrderlyStep(es);
      SameRuns(before);
      RunKeepsOk(before);
      var a, b := Run(before), Run(NeverCleaned(before));
      SameStoreLater(a, b, Clock(before), e.now);
      OkMeansLinksOk(a, Clock(before), RefreshIds(before));
      OkMeansLinksOk(b, Clock(before), RefreshIds(before));
      if e.op.Clean? {
        CleanedSame(a, e.op.keys, e.now);
        ShrunkOk(b.refreshTokens, b.refreshTokens, Clock(before), e.now, RefreshIds(before), RefreshIds(es));
        assert NeverCleaned(es) == NeverCleaned(before);
      } else {
        var plain := e.(lazy := false);
        SamePerform(a, b, e, false);
        PerformKeepsOk(b, plain, Clock(before), RefreshIds(before));
        var all := NeverCleaned(before) + [plain];
        assert NeverCleaned(es) == all && all[..|all| - 1] == NeverCleaned(before);
      }
    }
  }

  /** Two runs of the same calls give the same answers, however their cleaning differs: sweeps anywhere,
      of any expired entries, and reads that do or do not drop what they meet. */
  lemma SweepsAreInvisible(es: seq<Event>, es': seq<Event>)
    requires Orderly(es) && Orderly(es') && NeverCleaned(es) == NeverCleaned(es')
    ensures Answers(es) == Answers(es')
  {
    SameRuns(es);
    SameRuns(es');
  }
}
