/** Refresh-token rotation on the shared document store, any number of handlers at once
    (src/grants.rs:258-371 over src/firestore_store.rs:289-366).

    A handler reads the token, checks it, reads it again with its version, marks it used only if that
    version is still current, and saves the successor. A reused token starts the family walk, which
    reads and deletes one token at a time. Each of these is one step of `Apply`, so other handlers,
    /revoke, code reuse and expiry deletion can come between any two of them. */
module RefreshRotation {
  import opened Documents
  import opened Tokens
  import opened FamilyWalk

  datatype Handler =
    | Begun(r: Presented)
    | Ready(r: Presented, pre: RefreshToken, scope: string, next: Option<string>)
    | Marking(r: Presented, pre: RefreshToken, scope: string, next: Option<string>, f: Fields, version: nat)
    | Saving(r: Presented, pre: RefreshToken, scope: string, next: Option<string>)
    | Walking(cur: Option<string>, guard: nat)
    | Deleting(t: string, cur: Option<string>, guard: nat)
    | Rotated(r: Presented, next: Option<string>)
    | SigningFailed(r: Presented, next: Option<string>)
    | Refused
    | FamilyRevoked

  /** Where a token name came from: its place in the order of creation, its family, and the handler
      that drew it (none for the first token of a family). */
  datatype Origin = Origin(order: nat, family: string, owner: Option<nat>)

  /** Bookkeeping no handler reads: every name ever drawn, the first token of each family, the one
      name per family that may be unused, and which handler marked which token. */
  datatype History = History(
    names: map<string, Origin>,
    drawn: nat,
    firsts: map<string, RefreshToken>,
    head: map<string, string>,
    winner: map<string, nat>)

  datatype State = State(db: Db<string, Fields>, handlers: map<nat, Handler>, past: History)

  datatype Event =
    | Begin(id: nat, r: Presented)
    | Step(id: nat, now: nat, drawn: string)
    | IssueFirst(t: RefreshToken, now: nat)     // a code grant opens a family
    | Remove(token: string)                     // /revoke, code reuse, account disabling, expiry deletion
    | WriteElsewhere

  function Stored(db: Db<string, Fields>, token: string): RefreshToken
    requires token in db.docs
  {
    FromFields(token, db.docs[token].fields)
  }

  // ----- Steps -----

  function Load(c: Codec, s: State, id: nat, r: Presented, now: nat, drawn: string): State {
    if r.token !in s.db.docs || SecondsOf(c, s.db.docs[r.token].fields, ExpiresAt) < now then
      s.(handlers := s.handlers[id := Refused])
    else
      var pre := Stored(s.db, r.token);
      var v := Check(r, pre);
      if v.Reused? then s.(handlers := s.handlers[id := Walking(Some(r.token), 0)])
      else if !v.Pass? then s.(handlers := s.handlers[id := Refused])
      else if !HasScope(v.scope, OFFLINE) then s.(handlers := s.handlers[id := Ready(r, pre, v.scope, None)])
      else if drawn in s.past.names then s    // names are drawn fresh
      else
        Draw(s, id, r, pre, v.scope, drawn)
  }

  function Draw(s: State, id: nat, r: Presented, pre: RefreshToken, scope: string, drawn: string): State {
    s.(handlers := s.handlers[id := Ready(r, pre, scope, Some(drawn))],
       past := s.past.(names := s.past.names[drawn := Origin(s.past.drawn, pre.familyId, Some(id))],
                       drawn := s.past.drawn + 1))
  }

  function ReadForMark(s: State, id: nat, h: Handler): State
    requires h.Ready?
  {
    if h.r.token !in s.db.docs then s.(handlers := s.handlers[id := Refused])
    else
      var d := s.db.docs[h.r.token];
      if FlagSet(d.fields, Used) then s.(handlers := s.handlers[id := Refused])
      else s.(handlers := s.handlers[id := Marking(h.r, h.pre, h.scope, h.next, d.fields, d.version)])
  }

  function Mark(s: State, id: nat, h: Handler): State
    requires h.Marking?
  {
    if !s.db.Unchanged(h.r.token, h.version) then s.(handlers := s.handlers[id := Refused])
    else
      var fam := h.pre.familyId;
      State(s.db.Put(h.r.token, MarkUsed(h.f, h.next)),
            s.handlers[id := Saving(h.r, h.pre, h.scope, h.next)],
            s.past.(winner := s.past.winner[h.r.token := id],
                    head := if h.next.Some? then s.past.head[fam := h.next.value] else s.past.head - {fam}))
  }

  function Save(c: Codec, s: State, id: nat, h: Handler, now: nat): State
    requires h.Saving?
  {
    if !h.r.canSign then s.(handlers := s.handlers[id := SigningFailed(h.r, h.next)])
    else if h.next.None? then s.(handlers := s.handlers[id := Rotated(h.r, None)])
    else
      var t := Successor(h.r, h.pre, h.scope, h.next.value);
      Saved(s, id, h, ToFields(t, c.print_(now + REFRESH_TTL)))
  }

  function Saved(s: State, id: nat, h: Handler, f: Fields): State
    requires h.Saving? && h.next.Some?
  {
    s.(db := s.db.Put(h.next.value, f), handlers := s.handlers[id := Rotated(h.r, h.next)])
  }

  function Walk(s: State, id: nat, h: Handler): State
    requires h.Walking?
  {
    if h.cur.None? || h.guard + 1 > WALK_LIMIT then s.(handlers := s.handlers[id := FamilyRevoked])
    else
      var t := h.cur.value;
      var next := if t in s.db.docs then TextOf(s.db.docs[t].fields, ReplacedBy) else None;
      s.(handlers := s.handlers[id := Deleting(t, next, h.guard + 1)])
  }

  function StepHandler(c: Codec, s: State, id: nat, now: nat, drawn: string): State
    requires id in s.handlers
  {
    match s.handlers[id]
    case Begun(r) => Load(c, s, id, r, now, drawn)
    case Ready(_, _, _, _) => ReadForMark(s, id, s.handlers[id])
    case Marking(_, _, _, _, _, _) => Mark(s, id, s.handlers[id])
    case Saving(_, _, _, _) => Save(c, s, id, s.handlers[id], now)
    case Walking(_, _) => Walk(s, id, s.handlers[id])
    case Deleting(t, cur, guard) => s.(db := s.db.Delete(t), handlers := s.handlers[id := Walking(cur, guard)])
    case _ => s
  }

  function Issue(c: Codec, s: State, t: RefreshToken, now: nat): State {
    if t.token in s.past.names || t.familyId in s.past.firsts || t.used || t.replacedBy.Some? then s
    else Opened(s, t, ToFields(t, c.print_(now + REFRESH_TTL)))
  }

  function Opened(s: State, t: RefreshToken, f: Fields): State {
    s.(db := s.db.Put(t.token, f),
       past := s.past.(names := s.past.names[t.token := Origin(s.past.drawn, t.familyId, None)],
                       drawn := s.past.drawn + 1,
                       firsts := s.past.firsts[t.familyId := t],
                       head := s.past.head[t.familyId := t.token]))
  }

  function Apply(c: Codec, s: State, e: Event): State {
    match e
    case Begin(id, r) => if id in s.handlers then s else s.(handlers := s.handlers[id := Begun(r)])
    case Step(id, now, drawn) => if id !in s.handlers then s else StepHandler(c, s, id, now, drawn)
    case IssueFirst(t, now) => Issue(c, s, t, now)
    case Remove(token) => s.(db := s.db.Delete(token))
    case WriteElsewhere => s.(db := s.db.(version := s.db.version + 1))
  }

  function Run(c: Codec, s: State, es: seq<Event>): State {
    if es == [] then s else Apply(c, Run(c, s, es[..|es| - 1]), es[|es| - 1])
  }

  const Start := State(Db(map[], 0), map[], History(map[], 0, map[], map[], map[]))

  // ----- Invariant -----

  /** The handler has marked its token used. */
  predicate HasMarked(h: Handler) {
    h.Saving? || h.Rotated? || h.SigningFailed?
  }

  /** A stored token: known name, right family, true to the family's first token; unused only if it
      is the family's head; used exactly when some handler marked it, with that handler's link. */
  ghost predicate TokenOk(s: State, token: string)
    requires token in s.db.docs
  {
    TokenFacts(s, token, Stored(s.db, token))
  }

  ghost predicate TokenFacts(s: State, token: string, t: RefreshToken) {
    var past := s.past;
    && token in past.names && past.names[token].family == t.familyId
    && t.familyId in past.firsts && Heir(t, past.firsts[t.familyId])
    && (!t.used ==> t.replacedBy.None? && t.familyId in past.head && past.head[t.familyId] == token)
    && (t.used <==> token in past.winner)
    && (t.used ==> past.winner[token] in s.handlers && HasMarked(s.handlers[past.winner[token]]) &&
                   t.replacedBy == s.handlers[past.winner[token]].next)
  }

  /** The handler's drawn successor: younger than the presented token and of its family, not stored, not marked. */
  ghost predicate Pending(s: State, id: nat, token: string, next: string) {
    && Linked(s, id, token, next)
    && next !in s.db.docs && next !in s.past.winner
  }

  ghost predicate Linked(s: State, id: nat, token: string, next: string) {
    var names := s.past.names;
    && token in names && next in names
    && names[next].owner == Some(id) && names[token].order < names[next].order
    && names[next].family == names[token].family
  }

  /** What the handler read is of the presented token's family, and what it will save is true to the first token. */
  ghost predicate PreOk(s: State, r: Presented, pre: RefreshToken, scope: string) {
    && r.token in s.past.names && s.past.names[r.token].family == pre.familyId
    && pre.familyId in s.past.firsts
    && Heir(Successor(r, pre, scope, r.token), s.past.firsts[pre.familyId])
  }

  ghost predicate HandlerOk(s: State, id: nat, h: Handler) {
    match h
    case Ready(r, pre, scope, next) =>
      PreOk(s, r, pre, scope) && (next.Some? ==> Pending(s, id, r.token, next.value))
    case Marking(r, pre, scope, next, f, version) =>
      && PreOk(s, r, pre, scope) && (next.Some? ==> Pending(s, id, r.token, next.value))
      && s.db.Saw(r.token, f, version) && !FlagSet(f, Used)
    case Saving(r, pre, scope, next) =>
      && PreOk(s, r, pre, scope) && r.token in s.past.winner && s.past.winner[r.token] == id
      && (next.Some? ==> Pending(s, id, r.token, next.value) &&
                         pre.familyId in s.past.head && s.past.head[pre.familyId] == next.value)
    case Rotated(r, next) =>
      && r.token in s.past.winner && s.past.winner[r.token] == id
      && (next.Some? ==> Linked(s, id, r.token, next.value))
    case SigningFailed(r, next) =>
      && r.token in s.past.winner && s.past.winner[r.token] == id
      && (next.Some? ==> Linked(s, id, r.token, next.value))
    case _ => true
  }

  ghost predicate HistoryOk(s: State) {
    && (forall n :: n in s.past.names ==> s.past.names[n].order < s.past.drawn)
    && (forall n :: n in s.past.names && s.past.names[n].owner.Some? ==> s.past.names[n].owner.value in s.handlers)
    && (forall t :: t in s.past.winner ==>
          t in s.past.names && s.past.winner[t] in s.handlers && HasMarked(s.handlers[s.past.winner[t]]) &&
          s.handlers[s.past.winner[t]].r.token == t)
  }

  ghost predicate Inv(s: State) {
    && s.db.Valid() && HistoryOk(s)
    && (forall t :: t in s.db.docs ==> TokenOk(s, t))
    && (forall id :: id in s.handlers ==> HandlerOk(s, id, s.handlers[id]))
  }

  // ----- Every step keeps it -----

  /** A handler that has not marked anything moves on without writing. */
  lemma QuietMove(s: State, id: nat, h: Handler)
    requires Inv(s) && !HasMarked(h) && (id in s.handlers ==> !HasMarked(s.handlers[id]))
    requires HandlerOk(s, id, h)
    ensures Inv(s.(handlers := s.handlers[id := h]))
  {
    var s' := s.(handlers := s.handlers[id := h]);
    forall t | t in s'.db.docs ensures TokenOk(s', t) { assert TokenOk(s, t); }
    forall i | i in s'.handlers ensures HandlerOk(s', i, s'.handlers[i]) {
      assert i != id ==> HandlerOk(s, i, s.handlers[i]);
    }
  }

  /** The store loses a document, or only its counter moves. */
  lemma StoreShrinks(s: State, db: Db<string, Fields>)
    requires Inv(s) && s.db.version <= db.version
    requires forall t :: t in db.docs ==> t in s.db.docs && db.docs[t] == s.db.docs[t]
    ensures Inv(s.(db := db))
  {
    var s' := s.(db := db);
    forall t | t in db.docs ensures TokenOk(s', t) { assert TokenOk(s, t); }
    forall i | i in s.handlers ensures HandlerOk(s', i, s.handlers[i]) {
      assert HandlerOk(s, i, s.handlers[i]);
    }
  }

  lemma DrawKeepsInv(s: State, id: nat, r: Presented, pre: RefreshToken, scope: string, drawn: string)
    requires Inv(s) && id in s.handlers && s.handlers[id] == Begun(r)
    requires PreOk(s, r, pre, scope) && drawn !in s.past.names
    ensures Inv(Draw(s, id, r, pre, scope, drawn))
  {
    var s' := Draw(s, id, r, pre, scope, drawn);
    assert drawn in s.db.docs ==> TokenOk(s, drawn);
    forall t | t in s'.db.docs ensures TokenOk(s', t) {
      DrawnToken(s, id, r, pre, scope, drawn, t);
    }
    forall i | i in s'.handlers ensures HandlerOk(s', i, s'.handlers[i]) {
      if i != id { DrawnHandler(s, id, r, pre, scope, drawn, i); }
    }
  }

  lemma DrawnToken(s: State, id: nat, r: Presented, pre: RefreshToken, scope: string, drawn: string, t: string)
    requires id in s.handlers && s.handlers[id] == Begun(r) && drawn !in s.past.names
    requires t in s.db.docs && TokenOk(s, t)
    ensures TokenOk(Draw(s, id, r, pre, scope, drawn), t)
  {
    assert TokenFacts(s, t, Stored(s.db, t));
  }

  lemma DrawnHandler(s: State, id: nat, r: Presented, pre: RefreshToken, scope: string, drawn: string, i: nat)
    requires drawn !in s.past.names && i != id && i in s.handlers && HandlerOk(s, i, s.handlers[i])
    ensures HandlerOk(Draw(s, id, r, pre, scope, drawn), i, s.handlers[i])
  {}

  lemma LoadKeepsInv(c: Codec, s: State, id: nat, r: Presented, now: nat, drawn: string)
    requires Inv(s) && id in s.handlers && s.handlers[id] == Begun(r)
    ensures Inv(Load(c, s, id, r, now, drawn))
  {
    QuietMove(s, id, Refused);
    QuietMove(s, id, Walking(Some(r.token), 0));
    if r.token in s.db.docs && Check(r, Stored(s.db, r.token)).Pass? {
      PassedLoadKeepsInv(s, id, r, Stored(s.db, r.token), drawn);
    }
  }

  lemma PassedLoadKeepsInv(s: State, id: nat, r: Presented, pre: RefreshToken, drawn: string)
    requires Inv(s) && id in s.handlers && s.handlers[id] == Begun(r)
    requires r.token in s.db.docs && pre == Stored(s.db, r.token) && Check(r, pre).Pass?
    ensures var scope := Check(r, pre).scope;
      Inv(s.(handlers := s.handlers[id := Ready(r, pre, scope, None)])) &&
      (drawn !in s.past.names ==> Inv(Draw(s, id, r, pre, scope, drawn)))
  {
    var scope := Check(r, pre).scope;
    assert TokenOk(s, r.token);
    SuccessorIsHeir(r, pre, s.past.firsts[pre.familyId], r.token);
    QuietMove(s, id, Ready(r, pre, scope, None));
    if drawn !in s.past.names {
      DrawKeepsInv(s, id, r, pre, scope, drawn);
    }
  }

  lemma ReadForMarkKeepsInv(s: State, id: nat)
    requires Inv(s) && id in s.handlers && s.handlers[id].Ready?
    ensures Inv(ReadForMark(s, id, s.handlers[id]))
  {
    var h := s.handlers[id];
    assert HandlerOk(s, id, h);
    QuietMove(s, id, Refused);
    if h.r.token in s.db.docs {
      var d := s.db.docs[h.r.token];
      if !FlagSet(d.fields, Used) {
        QuietMove(s, id, Marking(h.r, h.pre, h.scope, h.next, d.fields, d.version));
      }
    }
  }

  lemma MarkedToken(s: State, id: nat, t: string)
    requires Inv(s) && id in s.handlers && s.handlers[id].Marking? && t in s.db.docs
    requires s.db.Unchanged(s.handlers[id].r.token, s.handlers[id].version)
    ensures TokenOk(Mark(s, id, s.handlers[id]), t)
  {
    var h := s.handlers[id];
    assert HandlerOk(s, id, h) && TokenOk(s, t) && TokenOk(s, h.r.token);
    MarkUsedFields(h.r.token, h.f, h.next);
  }

  lemma MarkedHandler(s: State, id: nat, i: nat)
    requires Inv(s) && id in s.handlers && s.handlers[id].Marking? && i in s.handlers
    requires s.db.Unchanged(s.handlers[id].r.token, s.handlers[id].version)
    ensures var s' := Mark(s, id, s.handlers[id]); HandlerOk(s', i, s'.handlers[i])
  {
    assert HandlerOk(s, id, s.handlers[id]) && HandlerOk(s, i, s.handlers[i]);
    assert TokenOk(s, s.handlers[id].r.token);
  }

  /** The winning mark: the head of the family is consumed and its successor, if any, takes its place. */
  lemma MarkedHistory(s: State, id: nat)
    requires Inv(s) && id in s.handlers && s.handlers[id].Marking?
    requires s.db.Unchanged(s.handlers[id].r.token, s.handlers[id].version)
    ensures Mark(s, id, s.handlers[id]).db.Valid() && HistoryOk(Mark(s, id, s.handlers[id]))
  {
    assert HandlerOk(s, id, s.handlers[id]) && TokenOk(s, s.handlers[id].r.token);
  }

  lemma MarkKeepsInv(s: State, id: nat)
    requires Inv(s) && id in s.handlers && s.handlers[id].Marking?
    ensures Inv(Mark(s, id, s.handlers[id]))
  {
    var h := s.handlers[id];
    if !s.db.Unchanged(h.r.token, h.version) {
      QuietMove(s, id, Refused);
    } else {
      var s' := Mark(s, id, h);
      assert HandlerOk(s, id, h);
      MarkedHistory(s, id);
      forall t | t in s'.db.docs ensures TokenOk(s', t) { MarkedToken(s, id, t); }
      forall i | i in s'.handlers ensures HandlerOk(s', i, s'.handlers[i]) { MarkedHandler(s, id, i); }
    }
  }

  /** A handler that marked its token finishes without writing. */
  lemma LateMoveHistory(s: State, id: nat, h: Handler)
    requires HistoryOk(s) && id in s.handlers && HasMarked(s.handlers[id]) && HasMarked(h) && h.r == s.handlers[id].r
    ensures HistoryOk(s.(handlers := s.handlers[id := h]))
  {}

  lemma LateMove(s: State, id: nat, h: Handler)
    requires Inv(s) && id in s.handlers && HasMarked(s.handlers[id]) && HasMarked(h)
    requires h.r == s.handlers[id].r && h.next == s.handlers[id].next && HandlerOk(s, id, h)
    ensures Inv(s.(handlers := s.handlers[id := h]))
  {
    var s' := s.(handlers := s.handlers[id := h]);
    LateMoveHistory(s, id, h);
    forall t | t in s'.db.docs ensures TokenOk(s', t) {
      LateMoveToken(s, id, h, t);
    }
    forall i | i in s'.handlers ensures HandlerOk(s', i, s'.handlers[i]) {
      LateMoveHandler(s, id, h, i);
    }
  }

  lemma LateMoveToken(s: State, id: nat, h: Handler, t: string)
    requires id in s.handlers && HasMarked(s.handlers[id]) && HasMarked(h) && h.next == s.handlers[id].next
    requires t in s.db.docs && TokenOk(s, t)
    ensures TokenOk(s.(handlers := s.handlers[id := h]), t)
  {
    assert TokenFacts(s, t, Stored(s.db, t));
  }

  lemma LateMoveHandler(s: State, id: nat, h: Handler, i: nat)
    requires id in s.handlers && HandlerOk(s, id, h) && i in s.handlers && HandlerOk(s, i, s.handlers[i])
    ensures var s' := s.(handlers := s.handlers[id := h]); HandlerOk(s', i, s'.handlers[i])
  {}

  /** The successor appears in the store, as the head of its family. */
  lemma SavedHistory(s: State, id: nat, f: Fields)
    requires Inv(s) && id in s.handlers && s.handlers[id].Saving? && s.handlers[id].next.Some?
    ensures Saved(s, id, s.handlers[id], f).db.Valid() && HistoryOk(Saved(s, id, s.handlers[id], f))
  {}

  lemma SavedKeepsInv(s: State, id: nat, f: Fields)
    requires Inv(s) && id in s.handlers && s.handlers[id].Saving? && s.handlers[id].next.Some?
    requires var h := s.handlers[id];
      FromFields(h.next.value, f) == Successor(h.r, h.pre, h.scope, h.next.value)
    ensures Inv(Saved(s, id, s.handlers[id], f))
  {
    var h := s.handlers[id];
    var s' := Saved(s, id, h, f);
    var n := h.next.value;
    assert HandlerOk(s, id, h);
    SavedHistory(s, id, f);
    assert TokenFacts(s', n, FromFields(n, f));
    forall t | t in s'.db.docs ensures TokenOk(s', t) {
      assert t != n ==> TokenOk(s, t);
    }
    forall i | i in s'.handlers ensures HandlerOk(s', i, s'.handlers[i]) {
      OtherNameStored(s, n, f, i);
    }
  }

  /** Storing a name that is not handler i's own successor leaves handler i's facts alone. */
  lemma OtherNameStored(s: State, n: string, f: Fields, i: nat)
    requires Inv(s) && i in s.handlers && n in s.past.names && n !in s.db.docs
    ensures s.past.names[n].owner != Some(i) ==>
              HandlerOk(s.(db := s.db.Put(n, f)), i, s.handlers[i])
    ensures s.handlers[i].Saving? ==>
              HandlerOk(s.(db := s.db.Put(n, f)), i, Rotated(s.handlers[i].r, s.handlers[i].next))
  {
    assert HandlerOk(s, i, s.handlers[i]);
  }

  lemma SaveKeepsInv(c: Codec, s: State, id: nat, now: nat)
    requires Inv(s) && id in s.handlers && s.handlers[id].Saving?
    ensures Inv(Save(c, s, id, s.handlers[id], now))
  {
    var h := s.handlers[id];
    assert HandlerOk(s, id, h);
    if !h.r.canSign {
      LateMove(s, id, SigningFailed(h.r, h.next));
    } else if h.next.None? {
      LateMove(s, id, Rotated(h.r, None));
    } else {
      var t := Successor(h.r, h.pre, h.scope, h.next.value);
      FieldsRoundTrip(t, c.print_(now + REFRESH_TTL));
      SavedKeepsInv(s, id, ToFields(t, c.print_(now + REFRESH_TTL)));
    }
  }

  lemma OpenedKeepsInv(s: State, t: RefreshToken, f: Fields)
    requires Inv(s) && FromFields(t.token, f) == t
    requires t.token !in s.past.names && t.familyId !in s.past.firsts && !t.used && t.replacedBy.None?
    ensures Inv(Opened(s, t, f))
  {
    var s' := Opened(s, t, f);
    OpenedHistory(s, t, f);
    forall u | u in s'.db.docs ensures TokenOk(s', u) {
      if u != t.token { OpenedToken(s, t, f, u); }
    }
    forall i | i in s'.handlers ensures HandlerOk(s', i, s'.handlers[i]) {
      OpenedHandler(s, t, f, i);
    }
  }

  lemma OpenedHistory(s: State, t: RefreshToken, f: Fields)
    requires HistoryOk(s) && t.token !in s.past.names && FromFields(t.token, f) == t && !t.used && t.replacedBy.None?
    ensures HistoryOk(Opened(s, t, f)) && TokenOk(Opened(s, t, f), t.token)
  {
    assert t.token !in s.past.winner;
    assert TokenFacts(Opened(s, t, f), t.token, t);
  }

  lemma OpenedToken(s: State, t: RefreshToken, f: Fields, u: string)
    requires t.token !in s.past.names && t.familyId !in s.past.firsts
    requires u in s.db.docs && TokenOk(s, u)
    ensures TokenOk(Opened(s, t, f), u)
  {
    assert TokenFacts(s, u, Stored(s.db, u));
  }

  lemma OpenedHandler(s: State, t: RefreshToken, f: Fields, i: nat)
    requires t.token !in s.past.names && t.familyId !in s.past.firsts
    requires i in s.handlers && HandlerOk(s, i, s.handlers[i])
    ensures HandlerOk(Opened(s, t, f), i, s.handlers[i])
  {}

  lemma IssueKeepsInv(c: Codec, s: State, t: RefreshToken, now: nat)
    requires Inv(s)
    ensures Inv(Issue(c, s, t, now))
  {
    if Issue(c, s, t, now) != s {
      FieldsRoundTrip(t, c.print_(now + REFRESH_TTL));
      OpenedKeepsInv(s, t, ToFields(t, c.print_(now + REFRESH_TTL)));
    }
  }

  lemma ApplyKeepsInv(c: Codec, s: State, e: Event)
    requires Inv(s)
    ensures Inv(Apply(c, s, e))
  {
    match e
    case Begin(id, r) =>
      if id !in s.handlers { QuietMove(s, id, Begun(r)); }
    case Step(id, now, drawn) =>
      if id in s.handlers {
        var h := s.handlers[id];
        match h
        case Begun(r) => LoadKeepsInv(c, s, id, r, now, drawn);
        case Ready(_, _, _, _) => ReadForMarkKeepsInv(s, id);
        case Marking(_, _, _, _, _, _) => MarkKeepsInv(s, id);
        case Saving(_, _, _, _) => SaveKeepsInv(c, s, id, now);
        case Walking(cur, guard) => WalkKeepsInv(s, id);
        case Deleting(t, cur, guard) =>
          QuietMove(s, id, Walking(cur, guard));
          StoreShrinks(s.(handlers := s.handlers[id := Walking(cur, guard)]), s.db.Delete(t));
        case _ =>
      }
    case IssueFirst(t, now) => IssueKeepsInv(c, s, t, now);
    case Remove(token) => StoreShrinks(s, s.db.Delete(token));
    case WriteElsewhere => StoreShrinks(s, s.db.(version := s.db.version + 1));
  }

  lemma WalkKeepsInv(s: State, id: nat)
    requires Inv(s) && id in s.handlers && s.handlers[id].Walking?
    ensures Inv(Walk(s, id, s.handlers[id]))
  {
    var h := Walk(s, id, s.handlers[id]).handlers[id];
    QuietMove(s, id, h);
  }

  lemma {:induction false} RunKeepsInv(c: Codec, es: seq<Event>)
    ensures Inv(Run(c, Start, es))
  {
    if es != [] {
      RunKeepsInv(c, es[..|es| - 1]);
      ApplyKeepsInv(c, Run(c, Start, es[..|es| - 1]), es[|es| - 1]);
    }
  }

  // ----- Main results, over every interleaving of any number of handlers -----

  /** A family never has two unused tokens. */
  lemma OneUnusedTokenPerFamily(c: Codec, es: seq<Event>, a: string, b: string)
    requires var db := Run(c, Start, es).db;
      a in db.docs && b in db.docs && !Stored(db, a).used && !Stored(db, b).used &&
      Stored(db, a).familyId == Stored(db, b).familyId
    ensures a == b
  {
    RunKeepsInv(c, es);
    assert TokenOk(Run(c, Start, es), a) && TokenOk(Run(c, Start, es), b);
  }

  /** Two handlers never both mark the same token used, so at most one issues tokens for it. */
  lemma MarkedByOneHandler(c: Codec, es: seq<Event>, i: nat, j: nat)
    requires var hs := Run(c, Start, es).handlers;
      i in hs && j in hs && HasMarked(hs[i]) && HasMarked(hs[j]) && hs[i].r.token == hs[j].r.token
    ensures i == j
  {
    RunKeepsInv(c, es);
    var s := Run(c, Start, es);
    assert HandlerOk(s, i, s.handlers[i]) && HandlerOk(s, j, s.handlers[j]);
  }

  predicate LinksTo(db: Db<string, Fields>, a: string, n: string) {
    a in db.docs && Stored(db, a).replacedBy == Some(n)
  }

  /** A token has at most one predecessor. */
  lemma OnePredecessor(c: Codec, es: seq<Event>, a: string, b: string, n: string)
    requires var db := Run(c, Start, es).db; LinksTo(db, a, n) && LinksTo(db, b, n)
    ensures a == b
  {
    RunKeepsInv(c, es);
    LinkIsYounger(Run(c, Start, es), a, n);
    LinkIsYounger(Run(c, Start, es), b, n);
  }

  lemma LinkIsYounger(s: State, a: string, n: string)
    requires Inv(s) && LinksTo(s.db, a, n)
    ensures a in s.past.winner && Linked(s, s.past.winner[a], a, n)
    ensures s.handlers[s.past.winner[a]].r.token == a
  {
    assert TokenOk(s, a);
    var id := s.past.winner[a];
    assert HandlerOk(s, id, s.handlers[id]);
  }

  /** Following links never comes back: a path along them repeats no token. */
  lemma LinksAreAcyclic(c: Codec, es: seq<Event>, path: seq<string>, i: nat, j: nat)
    requires i < j < |path|
    requires var db := Run(c, Start, es).db; forall k :: 0 <= k < |path| - 1 ==> LinksTo(db, path[k], path[k + 1])
    ensures path[i] != path[j]
  {
    RunKeepsInv(c, es);
    var s := Run(c, Start, es);
    forall k | 0 <= k < |path| - 1 ensures Younger(s.past.names, path[k], path[k + 1]) {
      LinkIsYounger(s, path[k], path[k + 1]);
    }
    PathGetsYounger(s.past.names, path, i, j);
  }

  predicate Younger(names: map<string, Origin>, a: string, b: string) {
    a in names && b in names && names[a].order < names[b].order
  }

  lemma {:induction false} PathGetsYounger(names: map<string, Origin>, path: seq<string>, i: nat, j: nat)
    requires i < j < |path|
    requires forall k :: 0 <= k < |path| - 1 ==> Younger(names, path[k], path[k + 1])
    ensures Younger(names, path[i], path[j])
    decreases j
  {
    assert Younger(names, path[j - 1], path[j]);
    if i < j - 1 {
      PathGetsYounger(names, path, i, j - 1);
    }
  }

  /** Provenance: every stored token carries the client, account, resource, key, acr, auth time and family
      of a first token that really was issued, with a scope no wider; a linked pair is one family. */
  lemma Provenance(c: Codec, es: seq<Event>, t: string)
    requires t in Run(c, Start, es).db.docs
    ensures var s := Run(c, Start, es);
      exists k :: 0 <= k < |es| && es[k].IssueFirst? && Heir(Stored(s.db, t), es[k].t)
    ensures var s := Run(c, Start, es);
      forall n :: LinksTo(s.db, t, n) && n in s.db.docs ==> Stored(s.db, n).familyId == Stored(s.db, t).familyId
  {
    RunKeepsInv(c, es);
    var s := Run(c, Start, es);
    assert TokenOk(s, t);
    var k := FirstWasIssued(c, es, Stored(s.db, t).familyId);
    assert es[k].IssueFirst? && Heir(Stored(s.db, t), es[k].t);
    forall n | LinksTo(s.db, t, n) && n in s.db.docs
      ensures Stored(s.db, n).familyId == Stored(s.db, t).familyId
    {
      LinkIsYounger(s, t, n);
      assert TokenOk(s, n);
    }
  }

  lemma {:induction false} FirstWasIssued(c: Codec, es: seq<Event>, family: string) returns (k: nat)
    requires family in Run(c, Start, es).past.firsts
    ensures k < |es| && es[k].IssueFirst? && es[k].t == Run(c, Start, es).past.firsts[family]
  {
    var before := es[..|es| - 1];
    var s := Run(c, Start, before);
    if family in s.past.firsts && Run(c, Start, es).past.firsts[family] == s.past.firsts[family] {
      k := FirstWasIssued(c, before, family);
    } else {
      k := |es| - 1;
    }
  }

  // ----- The store calls, run alone against the server -----

  function LinksOf(db: Db<string, Fields>): Links {
    map t | t in db.docs :: TextOf(db.docs[t].fields, ReplacedBy)
  }

  method SaveRefreshToken(server: DocumentServer<string, Fields>, c: Codec, t: RefreshToken, now: nat)
    modifies server
    ensures server.State() == old(server.State()).Put(t.token, ToFields(t, c.print_(now + REFRESH_TTL)))
    ensures Stored(server.State(), t.token) == t
  {
    FieldsRoundTrip(t, c.print_(now + REFRESH_TTL));
    server.SetDoc(t.token, ToFields(t, c.print_(now + REFRESH_TTL)));
  }

  method MarkRefreshUsed(server: DocumentServer<string, Fields>, token: string, next: Option<string>)
    returns (won: bool)
    modifies server
    ensures won <==> token in old(server.docs) && !Stored(old(server.State()), token).used
    ensures !won ==> server.State() == old(server.State())
    ensures won ==> token in server.docs && server.docs - {token} == old(server.docs) - {token}
    ensures won ==>
      (var before, after := Stored(old(server.State()), token), Stored(server.State(), token);
       after == before.(used := true, replacedBy := if next.Some? then next else before.replacedBy))
  {
    var read := server.GetDoc(token);
    if read.None? || FlagSet(read.value.fields, Used) {
      return false;
    }
    MarkUsedFields(token, read.value.fields, next);
    won := server.SetDocIfUnchanged(token, MarkUsed(read.value.fields, next), read.value.version);
  }

  /** Terminates on any stored links, and removes exactly the first min(64, n) tokens of the chain. */
  method RevokeRefreshFamily(server: DocumentServer<string, Fields>, start: string)
    modifies server
    ensures var links := LinksOf(old(server.State()));
      var chain := Chain(links, Some(start));
      server.docs == old(server.docs) - Elements(chain[..Least(WALK_LIMIT, |chain|)])
  {
    ghost var links := LinksOf(server.State());
    var cur, guard := Some(start), 0;
    while cur.Some?
      invariant guard <= WALK_LIMIT
      invariant WalkFrom(LinksOf(server.State()), cur, WALK_LIMIT - guard) == WalkFrom(links, Some(start), WALK_LIMIT)
      invariant PartOf(server.State(), old(server.State()))
      decreases WALK_LIMIT - guard, if cur.Some? then 1 else 0
    {
      var t := cur.value;
      if guard + 1 > WALK_LIMIT {
        break;
      }
      guard := guard + 1;
      var read := server.GetDoc(t);
      var next := if read.Some? then TextOf(read.value.fields, ReplacedBy) else None;
      ghost var before := LinksOf(server.State());
      server.RemoveDoc(t);
      assert LinksOf(server.State()) == before - {t};
      cur := next;
    }
    LeftByWalk(old(server.State()), server.State(), start);
  }

  ghost predicate PartOf(db': Db<string, Fields>, db: Db<string, Fields>) {
    forall t :: t in db'.docs ==> t in db.docs && db'.docs[t] == db.docs[t]
  }

  lemma LeftByWalk(db: Db<string, Fields>, db': Db<string, Fields>, start: string)
    requires PartOf(db', db) && LinksOf(db') == WalkFrom(LinksOf(db), Some(start), WALK_LIMIT)
    ensures var chain := Chain(LinksOf(db), Some(start));
      db'.docs == db.docs - Elements(chain[..Least(WALK_LIMIT, |chain|)])
  {
    WalkRemovesPrefix(LinksOf(db), Some(start), WALK_LIMIT);
    var chain := Chain(LinksOf(db), Some(start));
    var gone := Elements(chain[..Least(WALK_LIMIT, |chain|)]);
    assert LinksOf(db') == LinksOf(db) - gone;
    assert forall t :: t in db'.docs <==> t in LinksOf(db');
    assert forall t :: t in db.docs <==> t in LinksOf(db);
  }

  // ----- One handler run alone, from any state -----

  /** `n` steps of the handler at the same second. */
  function Alone(c: Codec, s: State, id: nat, now: nat, drawn: string, n: nat): State
    decreases n
  {
    if n == 0 then s else Alone(c, Apply(c, s, Step(id, now, drawn)), id, now, drawn, n - 1)
  }

  function Repeated(e: Event, n: nat): seq<Event> {
    seq(n, _ => e)
  }

  lemma {:induction false} AloneIsARun(c: Codec, s: State, id: nat, now: nat, drawn: string, n: nat)
    ensures Alone(c, s, id, now, drawn, n) == Run(c, s, Repeated(Step(id, now, drawn), n))
    decreases n
  {
    if n > 0 {
      var e := Step(id, now, drawn);
      AloneIsARun(c, Apply(c, s, e), id, now, drawn, n - 1);
      RunFirst(c, s, e, Repeated(e, n - 1));
      assert [e] + Repeated(e, n - 1) == Repeated(e, n);
    }
  }

  lemma {:induction false} RunFirst(c: Codec, s: State, e: Event, es: seq<Event>)
    ensures Run(c, s, [e] + es) == Run(c, Apply(c, s, e), es)
  {
    if es == [] {
      assert [e] + es == [e] && [e][..0] == [];
    } else {
      RunFirst(c, s, e, es[..|es| - 1]);
      assert ([e] + es)[..|es|] == [e] + es[..|es| - 1];
    }
  }

  predicate Ended(h: Handler) {
    h.Refused? || h.FamilyRevoked? || h.Rotated? || h.SigningFailed?
  }

  lemma {:induction false} EndedStays(c: Codec, s: State, id: nat, now: nat, drawn: string, n: nat)
    requires id in s.handlers && Ended(s.handlers[id])
    ensures Alone(c, s, id, now, drawn, n) == s
    decreases n
  {
    if n > 0 { EndedStays(c, s, id, now, drawn, n - 1); }
  }

  /** Two steps of a walk: one token read and deleted. */
  lemma WalkTwo(c: Codec, s: State, id: nat, now: nat, drawn: string, t: string, guard: nat)
    requires id in s.handlers && s.handlers[id] == Walking(Some(t), guard) && guard < WALK_LIMIT
    ensures var s2 := Apply(c, Apply(c, s, Step(id, now, drawn)), Step(id, now, drawn));
      id in s2.handlers && s2.db == s.db.Delete(t) &&
      s2.handlers[id] == Walking(if t in s.db.docs then TextOf(s.db.docs[t].fields, ReplacedBy) else None, guard + 1)
  {}

  lemma {:induction false} WalkAlone(c: Codec, s: State, id: nat, now: nat, drawn: string, n: nat)
    requires id in s.handlers && s.handlers[id].Walking? && s.handlers[id].guard <= WALK_LIMIT
    requires n >= 2 * (WALK_LIMIT - s.handlers[id].guard) + 1
    ensures var h, s' := s.handlers[id], Alone(c, s, id, now, drawn, n);
      id in s'.handlers && s'.handlers[id] == FamilyRevoked &&
      LinksOf(s'.db) == WalkFrom(LinksOf(s.db), h.cur, WALK_LIMIT - h.guard) &&
      PartOf(s'.db, s.db)
    decreases n
  {
    var h := s.handlers[id];
    var s1 := Apply(c, s, Step(id, now, drawn));
    if h.cur.None? || h.guard == WALK_LIMIT {
      assert s1.handlers[id] == FamilyRevoked && s1.db == s.db;
      EndedStays(c, s1, id, now, drawn, n - 1);
    } else {
      WalkTwo(c, s, id, now, drawn, h.cur.value, h.guard);
      var s2 := Apply(c, s1, Step(id, now, drawn));
      assert Alone(c, s1, id, now, drawn, n - 1) == Alone(c, s2, id, now, drawn, n - 2);
      WalkAlone(c, s2, id, now, drawn, n - 2);
      WalkLinks(s.db, h.cur.value, h.guard);
    }
  }

  lemma WalkLinks(db: Db<string, Fields>, t: string, guard: nat)
    requires guard < WALK_LIMIT
    ensures var next := if t in db.docs then TextOf(db.docs[t].fields, ReplacedBy) else None;
      WalkFrom(LinksOf(db), Some(t), WALK_LIMIT - guard) ==
      WalkFrom(LinksOf(db.Delete(t)), next, WALK_LIMIT - (guard + 1))
  {
    assert LinksOf(db.Delete(t)) == LinksOf(db) - {t};
    if t !in db.docs { assert LinksOf(db) - {t} == LinksOf(db); }
  }

  /** A stored, unexpired token presented by its client, with its key or, for an unbound one, by an authenticated
      client. */
  predicate RightlyPresented(c: Codec, db: Db<string, Fields>, r: Presented, now: nat) {
    r.token in db.docs && now <= SecondsOf(c, db.docs[r.token].fields, ExpiresAt) &&
    var t := Stored(db, r.token);
    t.clientId == r.clientId && (if t.jkt.Some? then r.jkt == t.jkt else !r.isPublic)
  }

  /** Reuse, run alone: a used token rightly presented takes the first 64 tokens of its chain with it. */
  lemma ReuseAlone(c: Codec, s: State, id: nat, r: Presented, now: nat, drawn: string, n: nat)
    requires id !in s.handlers && RightlyPresented(c, s.db, r, now) && Stored(s.db, r.token).used && n >= 130
    ensures var s' := Alone(c, Apply(c, s, Begin(id, r)), id, now, drawn, n);
      var chain := Chain(LinksOf(s.db), Some(r.token));
      id in s'.handlers && s'.handlers[id] == FamilyRevoked &&
      s'.db.docs == s.db.docs - Elements(chain[..Least(64, |chain|)])
  {
    var s0 := Apply(c, s, Begin(id, r));
    var s1 := Apply(c, s0, Step(id, now, drawn));
    assert s1.handlers[id] == Walking(Some(r.token), 0) && s1.db == s.db;
    WalkAlone(c, s1, id, now, drawn, n - 1);
    LeftByWalk(s.db, Alone(c, s0, id, now, drawn, n).db, r.token);
  }

  /** What a presentation asks for: the scope named, or the token's own. */
  function AskedScope(r: Presented, t: RefreshToken): string {
    if r.scope.Some? then r.scope.value else t.scope
  }

  function NextName(scope: string, drawn: string): Option<string> {
    if HasScope(scope, OFFLINE) then Some(drawn) else None
  }

  /** The four steps of a rotation up to the mark: read, read with version, write if unchanged. */
  lemma MarkAlone(c: Codec, s: State, id: nat, r: Presented, now: nat, drawn: string)
    requires id !in s.handlers && RightlyPresented(c, s.db, r, now) && !Stored(s.db, r.token).used
    requires AllWithin(Words(AskedScope(r, Stored(s.db, r.token))), Words(Stored(s.db, r.token).scope))
    requires drawn !in s.past.names && drawn != r.token
    ensures var pre := Stored(s.db, r.token);
      var scope := AskedScope(r, pre);
      var s3 := Alone(c, Apply(c, s, Begin(id, r)), id, now, drawn, 3);
      id in s3.handlers && s3.handlers[id] == Saving(r, pre, scope, NextName(scope, drawn)) &&
      s3.db == s.db.Put(r.token, MarkUsed(s.db.docs[r.token].fields, NextName(scope, drawn)))
  {
    var e := Step(id, now, drawn);
    var s0 := Apply(c, s, Begin(id, r));
    var pre := Stored(s.db, r.token);
    var scope := AskedScope(r, pre);
    var s1 := Apply(c, s0, e);
    LoadPasses(r, pre);
    assert s1.handlers[id] == Ready(r, pre, scope, NextName(scope, drawn)) && s1.db == s.db;
    var s2 := Apply(c, s1, e);
    var d := s.db.docs[r.token];
    assert s2.handlers[id] == Marking(r, pre, scope, NextName(scope, drawn), d.fields, d.version) && s2.db == s.db;
    var s3 := Apply(c, s2, e);
    assert Alone(c, s0, id, now, drawn, 3) == s3 by {
      assert Alone(c, s2, id, now, drawn, 1) == Alone(c, s3, id, now, drawn, 0) == s3;
      assert Alone(c, s1, id, now, drawn, 2) == Alone(c, s2, id, now, drawn, 1);
    }
  }

  lemma LoadPasses(r: Presented, pre: RefreshToken)
    requires pre.clientId == r.clientId && (if pre.jkt.Some? then r.jkt == pre.jkt else !r.isPublic) && !pre.used
    requires AllWithin(Words(AskedScope(r, pre)), Words(pre.scope))
    ensures Check(r, pre) == Pass(AskedScope(r, pre))
  {}

  /** The token is used and linked, and its successor stored, unused, true to it in all but scope and name. */
  ghost predicate RotatedDocs(c: Codec, db: Db<string, Fields>, db': Db<string, Fields>, r: Presented,
                              next: Option<string>, drawn: string, now: nat)
    requires r.token in db.docs
  {
    var old_ := Stored(db, r.token);
    && r.token in db'.docs && db'.docs - {r.token, drawn} == db.docs - {r.token, drawn}
    && Stored(db', r.token) == old_.(used := true, replacedBy := if next.Some? then next else old_.replacedBy)
    && (next.Some? ==>
          drawn in db'.docs &&
          Stored(db', drawn) ==
            old_.(token := drawn, scope := AskedScope(r, old_), used := false, replacedBy := None) &&
          SecondsOf(c, db'.docs[drawn].fields, ExpiresAt) == c.parse(c.print_(now + 14 * 24 * 3600)))
  }

  lemma SaveAlone(c: Codec, db: Db<string, Fields>, s: State, id: nat, r: Presented, now: nat, drawn: string)
    requires r.token in db.docs && drawn != r.token && r.canSign && Stored(db, r.token).clientId == r.clientId
    requires var old_ := Stored(db, r.token); var scope := AskedScope(r, old_);
      id in s.handlers && s.handlers[id] == Saving(r, old_, scope, NextName(scope, drawn)) &&
      s.db == db.Put(r.token, MarkUsed(db.docs[r.token].fields, NextName(scope, drawn)))
    ensures var s' := Apply(c, s, Step(id, now, drawn));
      var next := NextName(AskedScope(r, Stored(db, r.token)), drawn);
      id in s'.handlers && s'.handlers[id] == Rotated(r, next) && RotatedDocs(c, db, s'.db, r, next, drawn, now)
  {
    var old_ := Stored(db, r.token);
    var scope := AskedScope(r, old_);
    MarkUsedFields(r.token, db.docs[r.token].fields, NextName(scope, drawn));
    FieldsRoundTrip(Successor(r, old_, scope, drawn), c.print_(now + REFRESH_TTL));
  }

  /** Rotation, run alone: an unused token rightly presented for no wider scope. */
  lemma RotateAlone(c: Codec, s: State, id: nat, r: Presented, now: nat, drawn: string, n: nat)
    requires id !in s.handlers && RightlyPresented(c, s.db, r, now) && !Stored(s.db, r.token).used
    requires Narrower(AskedScope(r, Stored(s.db, r.token)), Stored(s.db, r.token).scope)
    requires drawn !in s.past.names && drawn != r.token && r.canSign && n >= 4
    ensures var s' := Alone(c, Apply(c, s, Begin(id, r)), id, now, drawn, n);
      var scope := AskedScope(r, Stored(s.db, r.token));
      var next := if HasScope(scope, "offline_access") then Some(drawn) else None;
      id in s'.handlers && s'.handlers[id] == Rotated(r, next) && RotatedDocs(c, s.db, s'.db, r, next, drawn, now)
  {
    NarrowerIsWithin(AskedScope(r, Stored(s.db, r.token)), Stored(s.db, r.token).scope);
    MarkAlone(c, s, id, r, now, drawn);
    var s0 := Apply(c, s, Begin(id, r));
    var s3 := Alone(c, s0, id, now, drawn, 3);
    SaveAlone(c, s.db, s3, id, r, now, drawn);
    AloneSplits(c, s0, id, now, drawn, 3, n);
    var s4 := Apply(c, s3, Step(id, now, drawn));
    EndedStays(c, s4, id, now, drawn, n - 4);
    assert Alone(c, s3, id, now, drawn, n - 3) == Alone(c, s4, id, now, drawn, n - 4);
  }

  /** Without a signing key the presented token is marked used all the same, and no successor is stored. */
  lemma UnsignedAlone(c: Codec, s: State, id: nat, r: Presented, now: nat, drawn: string, n: nat)
    requires id !in s.handlers && RightlyPresented(c, s.db, r, now) && !Stored(s.db, r.token).used
    requires Narrower(AskedScope(r, Stored(s.db, r.token)), Stored(s.db, r.token).scope)
    requires drawn !in s.past.names && drawn != r.token && !r.canSign && n >= 4
    ensures var s' := Alone(c, Apply(c, s, Begin(id, r)), id, now, drawn, n);
      id in s'.handlers && s'.handlers[id].SigningFailed? && s'.db.docs - {r.token} == s.db.docs - {r.token} &&
      r.token in s'.db.docs && Stored(s'.db, r.token).used
  {
    var old_ := Stored(s.db, r.token);
    var scope := AskedScope(r, old_);
    NarrowerIsWithin(scope, old_.scope);
    MarkAlone(c, s, id, r, now, drawn);
    MarkUsedFields(r.token, s.db.docs[r.token].fields, NextName(scope, drawn));
    var s0 := Apply(c, s, Begin(id, r));
    var s3 := Alone(c, s0, id, now, drawn, 3);
    AloneSplits(c, s0, id, now, drawn, 3, n);
    var s4 := Apply(c, s3, Step(id, now, drawn));
    assert s4.handlers[id] == SigningFailed(r, NextName(scope, drawn)) && s4.db == s3.db;
    EndedStays(c, s4, id, now, drawn, n - 4);
    assert Alone(c, s3, id, now, drawn, n - 3) == Alone(c, s4, id, now, drawn, n - 4);
  }

  lemma NarrowerIsWithin(scope: string, than: string)
    requires Narrower(scope, than)
    ensures AllWithin(Words(scope), Words(than))
  {
    forall i | 0 <= i < |Words(scope)| ensures Words(scope)[i] in Words(than) {
      assert Words(scope)[i] in Words(scope);
    }
  }

  lemma {:induction false} AloneSplits(c: Codec, s: State, id: nat, now: nat, drawn: string, m: nat, n: nat)
    requires m <= n
    ensures Alone(c, s, id, now, drawn, n) == Alone(c, Alone(c, s, id, now, drawn, m), id, now, drawn, n - m)
    decreases m
  {
    if m > 0 { AloneSplits(c, Apply(c, s, Step(id, now, drawn)), id, now, drawn, m - 1, n - 1); }
  }

  /** Anything else, run alone, is refused and changes nothing: an unknown or expired token, the wrong client or
      key, a wider scope. */
  lemma RefusedAlone(c: Codec, s: State, id: nat, r: Presented, now: nat, drawn: string, n: nat)
    requires id !in s.handlers && n >= 1
    requires RightlyPresented(c, s.db, r, now) ==>
               !Stored(s.db, r.token).used &&
               !Narrower(AskedScope(r, Stored(s.db, r.token)), Stored(s.db, r.token).scope)
    ensures var s' := Alone(c, Apply(c, s, Begin(id, r)), id, now, drawn, n);
      id in s'.handlers && s'.handlers[id] == Refused && s'.db == s.db
  {
    var s0 := Apply(c, s, Begin(id, r));
    var s1 := Apply(c, s0, Step(id, now, drawn));
    if r.token in s.db.docs {
      var t := Stored(s.db, r.token);
      if AllWithin(Words(AskedScope(r, t)), Words(t.scope)) {
        forall w | w in Words(AskedScope(r, t)) ensures w in Words(t.scope) {}
      }
    }
    assert s1.handlers[id] == Refused && s1.db == s.db;
    EndedStays(c, s1, id, now, drawn, n - 1);
  }
}
