/** Redeeming an authorization code on the shared store (src/firestore_store.rs:130-212 with the
    order of store calls in src/grants.rs:151-247).

    The first presentation to mark the code used wins it, saves an access token and perhaps a refresh
    token, and links both to the code. Any other presentation deletes the tokens it finds linked.
    Other requests may rewrite, delete or add tokens between any two steps, and the store may delete a
    code, as it does with expired documents. Linking merges: it brings a deleted code's document back with
    nothing in it but the links. */
module CodeRedemption {
  import opened Documents
  import opened Tokens

  datatype Key = Code(code: string) | Access(name: string) | Refresh(name: string)

  datatype Call =
    | Take(code: string)
    | TakeLoaded(code: string, f: Fields, version: nat)
    | Lost(code: string)
    | RevokeAccess(code: string, at: Option<string>, rt: Option<string>)
    | RevokeRefresh(code: string, at: Option<string>, rt: Option<string>)
    | Denied(code: string, at: Option<string>, rt: Option<string>)
    | Taken(code: string, f: Fields)
    | AccessSaved(code: string, f: Fields, access: string)
    | RefreshSaved(code: string, f: Fields, access: string, rt: Option<string>)
    | Redeemed(code: string, f: Fields, access: string, rt: Option<string>)
    | Failed(code: string, f: Fields)

  datatype Issued = Issued(access: string, refresh: Option<string>)

  /** Bookkeeping no call reads: the codes as saved, who won each, what was linked, all token names used,
      the codes that were ever deleted, and those deleted between their mark and their link. */
  datatype History = History(
    codes: map<string, Fields>, winner: map<string, nat>, linked: map<string, Issued>, names: set<string>,
    gone: set<string>, torn: set<string>)

  datatype State = State(db: Db<Key, Fields>, calls: map<nat, Call>, past: History)

  datatype Event =
    | SaveCode(code: string, base: Fields)
    | Begin(id: nat, code: string)
    | Step(id: nat, ok: bool, refresh: bool, drawn: string, token: Fields)
    | ForeignSave(key: Key, f: Fields)            // a token from another handler, under a fresh name
    | ForeignWrite(key: Key, f: Fields, v: nat)   // a conditional write to a token
    | ForeignDelete(key: Key)                     // of a token by another call, of anything by expiry

  /** merge_doc: the named fields replace or join those stored. */
  function Merge(db: Db<Key, Fields>, k: Key, update: Fields): Db<Key, Fields> {
    db.Put(k, Overlaid(db.Read(k), update))
  }

  function Overlaid(stored: Option<Fields>, update: Fields): Fields {
    (if stored.Some? then stored.value else map[]) + update
  }

  function LinkFields(access: string, rt: Option<string>): Fields {
    WithText(map[IssuedAccessToken := Text(access)], IssuedRefreshToken, rt)
  }

  /** The document still says whom the code was issued to; no client has an empty id. */
  predicate Genuine(f: Fields) {
    TextOr(f, ClientId, "") != ""
  }

  function StepCall(s: State, id: nat, e: Event): State
    requires id in s.calls && e.Step?
  {
    var past := s.past;
    match s.calls[id]
    case Take(code) =>
      if Code(code) !in s.db.docs then s.(calls := s.calls[id := Lost(code)])
      else
        var d := s.db.docs[Code(code)];
        if FlagSet(d.fields, Used)
        then s.(calls := s.calls[id := RevokeAccess(code, TextOf(d.fields, IssuedAccessToken),
                                                    TextOf(d.fields, IssuedRefreshToken))])
        else s.(calls := s.calls[id := TakeLoaded(code, d.fields, d.version)])
    case TakeLoaded(code, f, version) =>
      if !s.db.Unchanged(Code(code), version) then s.(calls := s.calls[id := Lost(code)])
      else State(s.db.Put(Code(code), f[Used := Flag(true)]), s.calls[id := Taken(code, f[Used := Flag(true)])],
                 if Genuine(f) then past.(winner := past.winner[code := id]) else past)
    case RevokeAccess(code, at, rt) =>
      s.(db := if at.Some? then s.db.Delete(Access(at.value)) else s.db,
         calls := s.calls[id := RevokeRefresh(code, at, rt)])
    case RevokeRefresh(code, at, rt) =>
      s.(db := if rt.Some? then s.db.Delete(Refresh(rt.value)) else s.db, calls := s.calls[id := Denied(code, at, rt)])
    case Taken(code, f) =>
      if !e.ok || !Genuine(f) then s.(calls := s.calls[id := Failed(code, f)])
      else if e.drawn in past.names then s
      else State(s.db.Put(Access(e.drawn), e.token), s.calls[id := AccessSaved(code, f, e.drawn)],
                 past.(names := past.names + {e.drawn}))
    case AccessSaved(code, f, access) =>
      if !e.ok then s.(calls := s.calls[id := Failed(code, f)])
      else if !e.refresh then s.(calls := s.calls[id := RefreshSaved(code, f, access, None)])
      else if e.drawn in past.names then s
      else State(s.db.Put(Refresh(e.drawn), e.token), s.calls[id := RefreshSaved(code, f, access, Some(e.drawn))],
                 past.(names := past.names + {e.drawn}))
    case RefreshSaved(code, f, access, rt) =>
      State(Merge(s.db, Code(code), LinkFields(access, rt)), s.calls[id := Redeemed(code, f, access, rt)],
            past.(linked := past.linked[code := Issued(access, rt)]))
    case _ => s
  }

  function Apply(s: State, e: Event): State {
    match e
    case SaveCode(code, base) =>
      if code in s.past.codes || !Genuine(base) || IssuedAccessToken in base || IssuedRefreshToken in base then s
      else s.(db := s.db.Put(Code(code), base[Used := Flag(false)]),
              past := s.past.(codes := s.past.codes[code := base]))
    case Begin(id, code) => if id in s.calls then s else s.(calls := s.calls[id := Take(code)])
    case Step(id, _, _, _, _) => if id in s.calls then StepCall(s, id, e) else s
    case ForeignSave(key, f) =>
      if key.Code? || key.name in s.past.names then s
      else s.(db := s.db.Put(key, f), past := s.past.(names := s.past.names + {key.name}))
    case ForeignWrite(key, f, v) => if key.Code? then s else s.(db := s.db.PutIfUnchanged(key, f, v))
    case ForeignDelete(key) =>
      s.(db := s.db.Delete(key), past := if key.Code? then Deleted(s.past, key.code) else s.past)
  }

  function Deleted(past: History, code: string): History {
    if code !in past.codes then past
    else
      past.(gone := past.gone + {code},
            torn := if code in past.winner && code !in past.linked then past.torn + {code} else past.torn)
  }

  function Run(s: State, es: seq<Event>): State {
    if es == [] then s else Apply(Run(s, es[..|es| - 1]), es[|es| - 1])
  }

  const Start := State(Db(map[], 0), map[], History(map[], map[], map[], {}, {}, {}))

  // ----- Invariant -----

  /** The call was handed the code. */
  predicate Holds(call: Call) {
    call.Taken? || call.AccessSaved? || call.RefreshSaved? || call.Redeemed? || call.Failed?
  }

  /** `f` is the saved code apart from the used flag and the links. */
  predicate SameCode(f: Fields, base: Fields) {
    f - {Used, IssuedAccessToken, IssuedRefreshToken} == base - {Used, IssuedAccessToken, IssuedRefreshToken}
  }

  /** The document of a code that was never deleted. */
  ghost predicate CodeOk(s: State, code: string, f: Fields) {
    var past := s.past;
    && code in past.codes && SameCode(f, past.codes[code]) && Genuine(f)
    && (FlagSet(f, Used) <==> code in past.winner)
    && TextOf(f, IssuedAccessToken) == (if code in past.linked then Some(past.linked[code].access) else None)
    && TextOf(f, IssuedRefreshToken) == (if code in past.linked then past.linked[code].refresh else None)
  }

  /** The document that linking brought back. */
  ghost predicate Remnant(s: State, code: string, f: Fields) {
    var past := s.past;
    && code in past.torn && code in past.linked && !Genuine(f)
    && TextOf(f, IssuedAccessToken) == Some(past.linked[code].access)
    && TextOf(f, IssuedRefreshToken) == past.linked[code].refresh
  }

  ghost predicate DocOk(s: State, code: string) {
    && (code !in s.past.gone ==> Code(code) in s.db.docs && CodeOk(s, code, s.db.docs[Code(code)].fields))
    && (code in s.past.gone && Code(code) in s.db.docs ==> Remnant(s, code, s.db.docs[Code(code)].fields))
  }

  ghost predicate NamesUsed(s: State, at: Option<string>, rt: Option<string>) {
    (at.Some? ==> at.value in s.past.names) && (rt.Some? ==> rt.value in s.past.names)
  }

  /** A holder of the code itself is its one winner. */
  ghost predicate HolderOk(s: State, id: nat, code: string, f: Fields) {
    && Genuine(f) && code in s.past.winner && s.past.winner[code] == id
    && code in s.past.codes && SameCode(f, s.past.codes[code])
  }

  ghost predicate CallOk(s: State, id: nat, call: Call) {
    match call
    case TakeLoaded(code, f, version) =>
      && code in s.past.codes && s.db.Saw(Code(code), f, version) && !FlagSet(f, Used)
      && (if Genuine(f) then SameCode(f, s.past.codes[code]) else code in s.past.torn && code in s.past.linked)
    case RevokeAccess(_, at, rt) => NamesUsed(s, at, rt)
    case RevokeRefresh(_, at, rt) =>
      NamesUsed(s, at, rt) && (at.Some? ==> Access(at.value) !in s.db.docs)
    case Denied(_, at, rt) =>
      && NamesUsed(s, at, rt)
      && (at.Some? ==> Access(at.value) !in s.db.docs) && (rt.Some? ==> Refresh(rt.value) !in s.db.docs)
    case Taken(code, f) =>
      if Genuine(f) then HolderOk(s, id, code, f) && code !in s.past.linked else code in s.past.torn
    case AccessSaved(code, f, access) =>
      HolderOk(s, id, code, f) && code !in s.past.linked && NamesUsed(s, Some(access), None)
    case RefreshSaved(code, f, access, rt) =>
      HolderOk(s, id, code, f) && code !in s.past.linked && NamesUsed(s, Some(access), rt)
    case Redeemed(code, f, access, rt) =>
      HolderOk(s, id, code, f) && code in s.past.linked && s.past.linked[code] == Issued(access, rt)
    case Failed(code, f) =>
      if Genuine(f) then HolderOk(s, id, code, f) && code !in s.past.linked else code in s.past.torn
    case _ => true
  }

  ghost predicate HistoryOk(s: State) {
    && (forall k :: k in s.db.docs ==> if k.Code? then k.code in s.past.codes else k.name in s.past.names)
    && (forall code :: code in s.past.linked ==>
          code in s.past.winner && NamesUsed(s, Some(s.past.linked[code].access), s.past.linked[code].refresh))
    && s.past.winner.Keys <= s.past.codes.Keys && s.past.torn <= s.past.gone <= s.past.codes.Keys
    && (forall code :: code in s.past.winner && code in s.past.gone ==> code in s.past.torn || code in s.past.linked)
  }

  ghost predicate Inv(s: State) {
    && s.db.Valid() && HistoryOk(s)
    && (forall code :: code in s.past.codes ==> DocOk(s, code))
    && (forall id :: id in s.calls ==> CallOk(s, id, s.calls[id]))
  }

  // ----- Every step keeps it -----

  lemma Move(s: State, id: nat, call: Call)
    requires Inv(s) && CallOk(s, id, call)
    ensures Inv(s.(calls := s.calls[id := call]))
  {
    var s' := s.(calls := s.calls[id := call]);
    forall i | i in s'.calls ensures CallOk(s', i, s'.calls[i]) {
      assert i != id ==> CallOk(s, i, s.calls[i]);
    }
    forall code | code in s'.past.codes ensures DocOk(s', code) {
      assert DocOk(s, code);
    }
  }

  /** Tokens come, go and change; codes stay, and no name comes back once its token is gone. */
  ghost predicate OnlyTokens(s: State, db: Db<Key, Fields>, names: set<string>) {
    && db.Valid() && s.db.version <= db.version && s.past.names <= names
    && (forall k: Key :: k.Code? ==> (k in db.docs <==> k in s.db.docs))
    && (forall k: Key :: k.Code? && k in db.docs ==> db.docs[k] == s.db.docs[k])
    && (forall k: Key :: k in db.docs && !k.Code? ==> k.name in names && (k in s.db.docs || k.name !in s.past.names))
  }

  lemma TokensChange(s: State, db: Db<Key, Fields>, names: set<string>)
    requires Inv(s) && OnlyTokens(s, db, names)
    ensures Inv(s.(db := db, past := s.past.(names := names)))
  {
    var s' := s.(db := db, past := s.past.(names := names));
    forall i | i in s'.calls ensures CallOk(s', i, s'.calls[i]) {
      assert CallOk(s, i, s.calls[i]);
    }
    forall code | code in s'.past.codes ensures DocOk(s', code) {
      assert DocOk(s, code);
    }
  }

  function Win(s: State, id: nat, call: Call): State
    requires call.TakeLoaded?
  {
    var f := call.f[Used := Flag(true)];
    State(s.db.Put(Code(call.code), f), s.calls[id := Taken(call.code, f)],
          if Genuine(f) then s.past.(winner := s.past.winner[call.code := id]) else s.past)
  }

  lemma MarkedFields(f: Fields)
    ensures var g := f[Used := Flag(true)];
      FlagSet(g, Used) && SameCode(g, f) && (Genuine(g) <==> Genuine(f)) &&
      TextOf(g, IssuedAccessToken) == TextOf(f, IssuedAccessToken) &&
      TextOf(g, IssuedRefreshToken) == TextOf(f, IssuedRefreshToken)
  {}

  /** A mark that goes through found the code undeleted, unless it marks what linking brought back. */
  lemma ReadStillThere(s: State, id: nat)
    requires Inv(s) && id in s.calls && s.calls[id].TakeLoaded?
    requires s.db.Unchanged(Code(s.calls[id].code), s.calls[id].version)
    ensures var call := s.calls[id];
      call.code in s.past.codes && s.db.docs[Code(call.code)].fields == call.f &&
      (if Genuine(call.f) then call.code !in s.past.gone && CodeOk(s, call.code, call.f)
       else call.code in s.past.gone && Remnant(s, call.code, call.f))
  {
    assert CallOk(s, id, s.calls[id]) && DocOk(s, s.calls[id].code);
  }

  lemma WinKeepsInv(s: State, id: nat)
    requires Inv(s) && id in s.calls && s.calls[id].TakeLoaded?
    requires s.db.Unchanged(Code(s.calls[id].code), s.calls[id].version)
    ensures Inv(Win(s, id, s.calls[id]))
  {
    var call := s.calls[id];
    ReadStillThere(s, id);
    assert CallOk(s, id, call);
    var s' := Win(s, id, call);
    MarkedFields(call.f);
    forall code | code in s'.past.codes ensures DocOk(s', code) {
      assert DocOk(s, code);
    }
    forall i | i in s'.calls ensures CallOk(s', i, s'.calls[i]) {
      WinKeepsCall(s, id, i);
    }
  }

  lemma WinKeepsCall(s: State, id: nat, i: nat)
    requires Inv(s) && id in s.calls && s.calls[id].TakeLoaded? && i in s.calls
    requires s.db.Unchanged(Code(s.calls[id].code), s.calls[id].version)
    ensures var s' := Win(s, id, s.calls[id]); CallOk(s', i, s'.calls[i])
  {
    var call := s.calls[id];
    ReadStillThere(s, id);
    MarkedFields(call.f);
    assert CallOk(s, id, call) && CallOk(s, i, s.calls[i]);
  }

  function Link(s: State, id: nat, call: Call): State
    requires call.RefreshSaved?
  {
    State(Merge(s.db, Code(call.code), LinkFields(call.access, call.rt)),
          s.calls[id := Redeemed(call.code, call.f, call.access, call.rt)],
          s.past.(linked := s.past.linked[call.code := Issued(call.access, call.rt)]))
  }

  lemma LinkedFields(f: Fields, access: string, rt: Option<string>)
    requires TextOf(f, IssuedRefreshToken).None?
    ensures var g := f + LinkFields(access, rt);
      TextOf(g, IssuedAccessToken) == Some(access) && TextOf(g, IssuedRefreshToken) == rt &&
      (FlagSet(g, Used) <==> FlagSet(f, Used)) && (Genuine(g) <==> Genuine(f)) &&
      g - {Used, IssuedAccessToken, IssuedRefreshToken} == f - {Used, IssuedAccessToken, IssuedRefreshToken}
  {}

  lemma FreshLinkFields(access: string, rt: Option<string>)
    ensures var g := map[] + LinkFields(access, rt);
      !Genuine(g) && TextOf(g, IssuedAccessToken) == Some(access) && TextOf(g, IssuedRefreshToken) == rt
  {}

  lemma LinkKeepsDoc(s: State, id: nat, code: string)
    requires Inv(s) && id in s.calls && s.calls[id].RefreshSaved? && code in s.past.codes
    ensures DocOk(Link(s, id, s.calls[id]), code)
  {
    var call := s.calls[id];
    assert CallOk(s, id, call) && DocOk(s, code);
    if code == call.code {
      FreshLinkFields(call.access, call.rt);
      if code !in s.past.gone { LinkedFields(s.db.docs[Code(code)].fields, call.access, call.rt); }
    }
  }

  lemma LinkKeepsInv(s: State, id: nat)
    requires Inv(s) && id in s.calls && s.calls[id].RefreshSaved?
    ensures Inv(Link(s, id, s.calls[id]))
  {
    assert CallOk(s, id, s.calls[id]);
    var s' := Link(s, id, s.calls[id]);
    forall code | code in s'.past.codes ensures DocOk(s', code) {
      LinkKeepsDoc(s, id, code);
    }
    forall i | i in s'.calls ensures CallOk(s', i, s'.calls[i]) {
      LinkKeepsCall(s, id, i);
    }
  }

  lemma LinkKeepsCall(s: State, id: nat, i: nat)
    requires Inv(s) && id in s.calls && s.calls[id].RefreshSaved? && i in s.calls
    ensures var s' := Link(s, id, s.calls[id]); CallOk(s', i, s'.calls[i])
  {
    assert CallOk(s, id, s.calls[id]) && CallOk(s, i, s.calls[i]);
  }

  lemma SaveCodeKeepsInv(s: State, code: string, base: Fields)
    requires Inv(s)
    ensures Inv(Apply(s, SaveCode(code, base)))
  {
    var s' := Apply(s, SaveCode(code, base));
    if s' != s {
      assert SameCode(base[Used := Flag(false)], base) && Genuine(base[Used := Flag(false)]);
      forall other | other in s'.past.codes ensures DocOk(s', other) {
        assert other != code ==> DocOk(s, other);
      }
      forall i | i in s'.calls ensures CallOk(s', i, s'.calls[i]) {
        assert CallOk(s, i, s.calls[i]);
      }
    }
  }

  lemma DeleteCodeKeepsInv(s: State, code: string)
    requires Inv(s)
    ensures Inv(Apply(s, ForeignDelete(Code(code))))
  {
    var s' := Apply(s, ForeignDelete(Code(code)));
    forall other | other in s'.past.codes ensures DocOk(s', other) { assert DocOk(s, other); }
    forall i | i in s'.calls ensures CallOk(s', i, s'.calls[i]) { assert CallOk(s, i, s.calls[i]); }
  }

  lemma ReadKeepsInv(s: State, id: nat, code: string)
    requires Inv(s) && id in s.calls && s.calls[id] == Take(code)
    ensures forall e: Event :: e.Step? ==> Inv(StepCall(s, id, e))
  {
    Move(s, id, Lost(code));
    if Code(code) in s.db.docs {
      var d := s.db.docs[Code(code)];
      assert DocOk(s, code);
      if FlagSet(d.fields, Used) {
        Move(s, id, RevokeAccess(code, TextOf(d.fields, IssuedAccessToken), TextOf(d.fields, IssuedRefreshToken)));
      } else {
        Move(s, id, TakeLoaded(code, d.fields, d.version));
      }
    }
  }

  lemma RevokeKeepsInv(s: State, id: nat, e: Event)
    requires Inv(s) && id in s.calls && e.Step? && (s.calls[id].RevokeAccess? || s.calls[id].RevokeRefresh?)
    ensures Inv(StepCall(s, id, e))
  {
    var call := s.calls[id];
    assert CallOk(s, id, call);
    var db := StepCall(s, id, e).db;
    TokensChange(s, db, s.past.names);
    var s1 := s.(db := db, past := s.past.(names := s.past.names));
    assert CallOk(s1, id, call);
    Move(s1, id, StepCall(s, id, e).calls[id]);
  }

  lemma IssueKeepsInv(s: State, id: nat, e: Event)
    requires Inv(s) && id in s.calls && e.Step? && (s.calls[id].Taken? || s.calls[id].AccessSaved?)
    ensures Inv(StepCall(s, id, e))
  {
    var call, s' := s.calls[id], StepCall(s, id, e);
    assert CallOk(s, id, call);
    if s' != s {
      TokensChange(s, s'.db, s'.past.names);
      var s1 := s.(db := s'.db, past := s.past.(names := s'.past.names));
      assert CallOk(s1, id, call);
      Move(s1, id, s'.calls[id]);
      assert s' == s1.(calls := s1.calls[id := s'.calls[id]]);
    }
  }

  lemma StepKeepsInv(s: State, id: nat, e: Event)
    requires Inv(s) && id in s.calls && e.Step?
    ensures Inv(StepCall(s, id, e))
  {
    match s.calls[id]
    case Take(code) => ReadKeepsInv(s, id, code);
    case TakeLoaded(code, _, version) =>
      if s.db.Unchanged(Code(code), version) { WinKeepsInv(s, id); } else { Move(s, id, Lost(code)); }
    case RevokeAccess(_, _, _) => RevokeKeepsInv(s, id, e);
    case RevokeRefresh(_, _, _) => RevokeKeepsInv(s, id, e);
    case Taken(_, _) => IssueKeepsInv(s, id, e);
    case AccessSaved(_, _, _) => IssueKeepsInv(s, id, e);
    case RefreshSaved(_, _, _, _) => LinkKeepsInv(s, id);
    case _ =>
  }

  lemma ApplyKeepsInv(s: State, e: Event)
    requires Inv(s)
    ensures Inv(Apply(s, e))
  {
    match e
    case SaveCode(code, base) => SaveCodeKeepsInv(s, code, base);
    case Begin(id, code) => if id !in s.calls { Move(s, id, Take(code)); }
    case Step(id, _, _, _, _) => if id in s.calls { StepKeepsInv(s, id, e); }
    case ForeignSave(key, f) =>
      if !key.Code? && key.name !in s.past.names { TokensChange(s, s.db.Put(key, f), s.past.names + {key.name}); }
    case ForeignWrite(key, f, v) =>
      if !key.Code? { TokensChange(s, s.db.PutIfUnchanged(key, f, v), s.past.names); }
    case ForeignDelete(key) =>
      if key.Code? { DeleteCodeKeepsInv(s, key.code); } else { TokensChange(s, s.db.Delete(key), s.past.names); }
  }

  lemma {:induction false} RunKeepsInv(es: seq<Event>)
    ensures Inv(Run(Start, es))
  {
    if es != [] {
      RunKeepsInv(es[..|es| - 1]);
      ApplyKeepsInv(Run(Start, es[..|es| - 1]), es[|es| - 1]);
    }
  }

  // ----- Main results, over every interleaving -----

  /** At most one presentation is handed a code that says whom it was issued to, deletions or not, and it is
      handed the code as it was saved. */
  lemma OneWinnerPerCode(es: seq<Event>, i: nat, j: nat)
    requires var calls := Run(Start, es).calls;
      i in calls && j in calls && Holds(calls[i]) && Holds(calls[j]) && calls[i].code == calls[j].code &&
      Genuine(calls[i].f) && Genuine(calls[j].f)
    ensures i == j
    ensures exists k :: 0 <= k < |es| && es[k].SaveCode? && es[k].code == Run(Start, es).calls[i].code &&
              SameCode(Run(Start, es).calls[i].f, es[k].base)
  {
    RunKeepsInv(es);
    var s := Run(Start, es);
    HolderWon(s, i);
    HolderWon(s, j);
    var k := CodeWasSaved(es, s.calls[i].code);
  }

  lemma HolderWon(s: State, i: nat)
    requires Inv(s) && i in s.calls && Holds(s.calls[i])
    ensures if Genuine(s.calls[i].f) then HolderOk(s, i, s.calls[i].code, s.calls[i].f)
            else s.calls[i].code in s.past.torn && (s.calls[i].Taken? || s.calls[i].Failed?)
  {
    assert CallOk(s, i, s.calls[i]);
  }

  /** The call went on to issue tokens for the code. */
  predicate Issues(call: Call) {
    call.AccessSaved? || call.RefreshSaved? || call.Redeemed?
  }

  /** Tokens are issued at most once for a code, deletions or not. */
  lemma TokensIssuedOncePerCode(es: seq<Event>, i: nat, j: nat)
    requires var calls := Run(Start, es).calls;
      i in calls && j in calls && Issues(calls[i]) && Issues(calls[j]) && calls[i].code == calls[j].code
    ensures i == j
  {
    RunKeepsInv(es);
    HolderWon(Run(Start, es), i);
    HolderWon(Run(Start, es), j);
  }

  /** The n-th event deletes the code after its mark and before its link. */
  ghost predicate Tears(es: seq<Event>, n: nat, code: string) {
    && n < |es| && es[n] == ForeignDelete(Code(code))
    && code in Run(Start, es[..n]).past.winner && code !in Run(Start, es[..n]).past.linked
  }

  /** Two presentations are handed one code only if it was deleted between its mark and its link. */
  lemma OneHolderUnlessTorn(es: seq<Event>, i: nat, j: nat)
    requires var calls := Run(Start, es).calls;
      i in calls && j in calls && i != j && Holds(calls[i]) && Holds(calls[j]) && calls[i].code == calls[j].code
    ensures exists n :: Tears(es, n, Run(Start, es).calls[i].code)
  {
    RunKeepsInv(es);
    var s := Run(Start, es);
    HolderWon(s, i);
    HolderWon(s, j);
    var n := TornByEvent(es, s.calls[i].code);
  }

  lemma {:induction false} TornByEvent(es: seq<Event>, code: string) returns (n: nat)
    requires code in Run(Start, es).past.torn
    ensures Tears(es, n, code)
  {
    var before := es[..|es| - 1];
    if code in Run(Start, before).past.torn {
      n := TornByEvent(before, code);
      assert es[..n] == before[..n];
    } else {
      TearingEvent(Run(Start, before), es[|es| - 1], code);
      n := |es| - 1;
    }
  }

  lemma TearingEvent(s: State, e: Event, code: string)
    requires code !in s.past.torn && code in Apply(s, e).past.torn
    ensures e == ForeignDelete(Code(code)) && code in s.past.winner && code !in s.past.linked
  {}

  lemma {:induction false} CodeWasSaved(es: seq<Event>, code: string) returns (k: nat)
    requires code in Run(Start, es).past.codes
    ensures k < |es| && es[k].SaveCode? && es[k].code == code && es[k].base == Run(Start, es).past.codes[code]
  {
    var before := es[..|es| - 1];
    if code in Run(Start, before).past.codes {
      k := CodeWasSaved(before, code);
      SavedStays(Run(Start, before), es[|es| - 1], code);
    } else {
      k := |es| - 1;
      SavingEvent(Run(Start, before), es[k], code);
    }
  }

  lemma SavedStays(s: State, e: Event, code: string)
    requires code in s.past.codes
    ensures code in Apply(s, e).past.codes && Apply(s, e).past.codes[code] == s.past.codes[code]
  {}

  lemma SavingEvent(s: State, e: Event, code: string)
    requires code !in s.past.codes && code in Apply(s, e).past.codes
    ensures e.SaveCode? && e.code == code && Apply(s, e).past.codes[code] == e.base
  {}

  predicate HasLink(s: State, code: string, l: Issued) {
    code in s.past.linked && s.past.linked[code] == l
  }

  /** The presentation is being refused, and revokes exactly these tokens. */
  predicate Revokes(call: Call, code: string, l: Issued) {
    call == RevokeAccess(code, Some(l.access), l.refresh) || call == RevokeRefresh(code, Some(l.access), l.refresh) ||
    call == Denied(code, Some(l.access), l.refresh)
  }

  /** The presentation has read the code and took it for unknown or unused. */
  predicate Missed(call: Call) {
    call.Lost? || call.TakeLoaded? || Holds(call)
  }

  /** A presentation reading now finds the code stored and marked used. */
  predicate ShowsUse(s: State, code: string) {
    Code(code) in s.db.docs && FlagSet(s.db.docs[Code(code)].fields, Used)
  }

  lemma AtRead(s: State, e: Event, code: string, l: Issued)
    requires Inv(s) && HasLink(s, code, l) && e.Step? && e.id in s.calls && s.calls[e.id] == Take(code)
    ensures var call := Apply(s, e).calls[e.id];
      if ShowsUse(s, code) then Revokes(call, code, l) else Missed(call)
  {
    assert CodeOfLink(s, code);
    assert DocOk(s, code);
  }

  /** Linked codes were saved and won. */
  predicate CodeOfLink(s: State, code: string) {
    code in s.past.linked ==> code in s.past.winner && code in s.past.codes
  }

  lemma RevokesStays(s: State, e: Event, id: nat, code: string, l: Issued)
    requires id in s.calls && Revokes(s.calls[id], code, l)
    ensures id in Apply(s, e).calls && Revokes(Apply(s, e).calls[id], code, l)
  {}

  lemma MissedStays(s: State, e: Event, id: nat)
    requires id in s.calls && Missed(s.calls[id])
    ensures id in Apply(s, e).calls && Missed(Apply(s, e).calls[id])
  {}

  /** The n-th event is the read of presentation `id`. */
  ghost predicate Reads(es: seq<Event>, n: nat, id: nat, code: string) {
    && n < |es| && es[n].Step? && es[n].id == id
    && id in Run(Start, es[..n]).calls && Run(Start, es[..n]).calls[id] == Take(code)
  }

  lemma {:induction false} AfterRead(es: seq<Event>, n: nat, id: nat, code: string, l: Issued)
    requires Reads(es, n, id, code) && HasLink(Run(Start, es[..n]), code, l)
    ensures id in Run(Start, es).calls
    ensures if ShowsUse(Run(Start, es[..n]), code) then Revokes(Run(Start, es).calls[id], code, l)
            else Missed(Run(Start, es).calls[id])
    decreases |es|
  {
    var before, e := es[..|es| - 1], es[|es| - 1];
    assert Run(Start, es) == Apply(Run(Start, before), e);
    if n == |es| - 1 {
      RunKeepsInv(before);
      AtRead(Run(Start, before), e, code, l);
    } else {
      assert before[..n] == es[..n];
      AfterRead(before, n, id, code, l);
      if ShowsUse(Run(Start, es[..n]), code) {
        RevokesStays(Run(Start, before), e, id, code, l);
      } else {
        MissedStays(Run(Start, before), e, id);
      }
    }
  }

  /** A presentation that reads a code whose tokens are linked revokes exactly those tokens if and only if what
      it reads is stored and marked used. Once it is denied both tokens are gone, and stay gone, whatever is
      deleted before or after. */
  lemma LaterPresentationRevokes(es: seq<Event>, n: nat, id: nat, code: string, l: Issued)
    requires Reads(es, n, id, code) && HasLink(Run(Start, es[..n]), code, l)
    ensures var s := Run(Start, es);
      id in s.calls && (Revokes(s.calls[id], code, l) <==> ShowsUse(Run(Start, es[..n]), code)) &&
      (s.calls[id].Denied? ==> ShowsUse(Run(Start, es[..n]), code) && Access(l.access) !in s.db.docs &&
                               (l.refresh.Some? ==> Refresh(l.refresh.value) !in s.db.docs))
  {
    AfterRead(es, n, id, code, l);
    RunKeepsInv(es);
    assert CallOk(Run(Start, es), id, Run(Start, es).calls[id]);
  }

  ghost predicate NeverDeleted(es: seq<Event>, code: string) {
    forall k :: 0 <= k < |es| ==> es[k] != ForeignDelete(Code(code))
  }

  lemma {:induction false} NeverDeletedIsNotGone(es: seq<Event>, code: string)
    requires NeverDeleted(es, code)
    ensures code !in Run(Start, es).past.gone
  {
    if es != [] {
      NeverDeletedIsNotGone(es[..|es| - 1], code);
      GoneByDelete(Run(Start, es[..|es| - 1]), es[|es| - 1], code);
    }
  }

  lemma GoneByDelete(s: State, e: Event, code: string)
    requires code !in s.past.gone && e != ForeignDelete(Code(code))
    ensures code !in Apply(s, e).past.gone
  {}

  /** A linked code that was not deleted so far shows its use to whoever reads it. */
  lemma UndeletedShowsUse(es: seq<Event>, code: string, l: Issued)
    requires HasLink(Run(Start, es), code, l) && NeverDeleted(es, code)
    ensures ShowsUse(Run(Start, es), code)
  {
    RunKeepsInv(es);
    NeverDeletedIsNotGone(es, code);
    assert DocOk(Run(Start, es), code);
  }

  // ----- Runs with a deletion -----

  const SavedCode: Fields := map[ClientId := Text("C")]

  function Proceed(id: nat, drawn: string): Event {
    Step(id, true, false, drawn, map[])
  }

  lemma RunNext(es: seq<Event>, e: Event)
    ensures Run(Start, es + [e]) == Apply(Run(Start, es), e)
  {
    assert (es + [e])[..|es|] == es;
  }

  /** Call 0 marks the code, and is about to save its access token. */
  lemma MarkedRun() returns (es: seq<Event>)
    ensures var s := Run(Start, es);
      s.calls == map[0 := Taken("X", SavedCode[Used := Flag(true)])] && s.db.docs.Keys == {Code("X")} &&
      s.db.docs[Code("X")].fields == SavedCode[Used := Flag(true)] && "X" in s.past.codes && s.past.names == {}
  {
    var es1 := [] + [SaveCode("X", SavedCode)];
    var es2 := es1 + [Begin(0, "X")];
    var es3 := es2 + [Proceed(0, "")];
    es := es3 + [Proceed(0, "")];
    RunNext([], SaveCode("X", SavedCode));
    RunNext(es1, Begin(0, "X"));
    RunNext(es2, Proceed(0, ""));
    RunNext(es3, Proceed(0, ""));
    var f := SavedCode[Used := Flag(false)];
    assert Run(Start, es1).db.docs == map[Code("X") := Doc(f, 1)];
    assert Run(Start, es3).calls[0] == TakeLoaded("X", f, 1);
    assert f[Used := Flag(true)] == SavedCode[Used := Flag(true)];
  }

  /** Call 0 has saved its access token and is about to link it. */
  lemma SavedRun() returns (es: seq<Event>)
    ensures var s := Run(Start, es);
      s.calls == map[0 := RefreshSaved("X", SavedCode[Used := Flag(true)], "A", None)] && "X" in s.past.codes &&
      s.db.docs.Keys == {Code("X"), Access("A")}
  {
    var es0 := MarkedRun();
    var es1 := es0 + [Proceed(0, "A")];
    es := es1 + [Proceed(0, "")];
    RunNext(es0, Proceed(0, "A"));
    RunNext(es1, Proceed(0, ""));
  }

  /** The other half of `OneHolderUnlessTorn`: from any state in which the winner is about to link a code that is
      not stored, its link and one more presentation make two holders, the second of a document that names no
      client, so the handler refuses it. */
  lemma TornMakesTwoHolders(es: seq<Event>, w: nat, j: nat) returns (more: seq<Event>)
    requires w in Run(Start, es).calls && Run(Start, es).calls[w].RefreshSaved? && j !in Run(Start, es).calls
    requires Code(Run(Start, es).calls[w].code) !in Run(Start, es).db.docs
    ensures var calls := Run(Start, es + more).calls; var code := Run(Start, es).calls[w].code;
      w in calls && j in calls && w != j && calls[w].Redeemed? && calls[w].code == code &&
      calls[j].Taken? && calls[j].code == code && !Genuine(calls[j].f)
  {
    var call := Run(Start, es).calls[w];
    var e1, e2, e3 := Proceed(w, ""), Begin(j, call.code), Proceed(j, "");
    more := [e1, e2, e3, e3];
    var es1 := es + [e1];
    var es2 := es1 + [e2];
    var es3 := es2 + [e3];
    RunNext(es, e1);
    RunNext(es1, e2);
    RunNext(es2, e3);
    RunNext(es3, e3);
    assert es + more == es3 + [e3];
    var f := map[] + LinkFields(call.access, call.rt);
    FreshLinkFields(call.access, call.rt);
    MarkedFields(f);
    assert Run(Start, es2).db.docs[Code(call.code)].fields == f;
  }

  /** The code deleted between mark and link. */
  lemma TwoHolders() returns (es: seq<Event>)
    ensures var calls := Run(Start, es).calls;
      0 in calls && 1 in calls && calls[0].Redeemed? && calls[1].Taken? && calls[0].code == calls[1].code &&
      !Genuine(calls[1].f)
  {
    var saved := SavedRun();
    var torn := saved + [ForeignDelete(Code("X"))];
    RunNext(saved, ForeignDelete(Code("X")));
    var more := TornMakesTwoHolders(torn, 0, 1);
    es := torn + more;
  }

  /** The code deleted after its link: call 1 finds nothing, and the linked token stays. */
  lemma DeletedCodeRevokesNothing() returns (es: seq<Event>)
    ensures var s := Run(Start, es);
      HasLink(s, "X", Issued("A", None)) && 1 in s.calls && s.calls[1] == Lost("X") && Access("A") in s.db.docs
  {
    var es0 := SavedRun();
    var es1 := es0 + [Proceed(0, "")];
    var es2 := es1 + [ForeignDelete(Code("X"))];
    var es3 := es2 + [Begin(1, "X")];
    es := es3 + [Proceed(1, "")];
    RunNext(es0, Proceed(0, ""));
    RunNext(es1, ForeignDelete(Code("X")));
    RunNext(es2, Begin(1, "X"));
    RunNext(es3, Proceed(1, ""));
  }

  // ----- One presentation run alone, from any state -----

  /** A stored, unused code is handed out, and marked, by the first two steps. */
  lemma TakeAlone(s: State, id: nat, code: string, e1: Event, e2: Event)
    requires id !in s.calls && Code(code) in s.db.docs && !FlagSet(s.db.docs[Code(code)].fields, Used)
    requires e1.Step? && e1.id == id && e2.Step? && e2.id == id
    ensures var s2 := Apply(Apply(Apply(s, Begin(id, code)), e1), e2);
      var f := s.db.docs[Code(code)].fields[Used := Flag(true)];
      id in s2.calls && s2.calls[id] == Taken(code, f) && s2.db == s.db.Put(Code(code), f) &&
      s2.past.names == s.past.names
  {
    var d := s.db.docs[Code(code)];
    var s1 := Apply(Apply(s, Begin(id, code)), e1);
    assert s1.calls[id] == TakeLoaded(code, d.fields, d.version) && s1.db == s.db;
  }

  /** A signed exchange saves its tokens and links both to the code, by three more. */
  lemma IssueAlone(s: State, id: nat, a: string, b: string, access: Fields, refresh: Option<Fields>)
    requires id in s.calls && s.calls[id].Taken? && Genuine(s.calls[id].f) && Code(s.calls[id].code) in s.db.docs
    requires a !in s.past.names && b !in s.past.names && a != b
    ensures var code, f := s.calls[id].code, s.calls[id].f;
      var e4 := Step(id, true, refresh.Some?, b, if refresh.Some? then refresh.value else map[]);
      var s3 := Apply(Apply(Apply(s, Step(id, true, true, a, access)), e4), Step(id, true, true, "", map[]));
      var rt := if refresh.Some? then Some(b) else None;
      && id in s3.calls && s3.calls[id] == Redeemed(code, f, a, rt)
      && s3.db.Read(Code(code)) == Some(s.db.docs[Code(code)].fields + LinkFields(a, rt))
      && s3.db.Read(Access(a)) == Some(access) && (rt.Some? ==> s3.db.Read(Refresh(b)) == refresh)
      && s3.db.docs - {Code(code), Access(a), Refresh(b)} == s.db.docs - {Code(code), Access(a), Refresh(b)}
  {
    var code, f := s.calls[id].code, s.calls[id].f;
    var s1 := Apply(s, Step(id, true, true, a, access));
    assert s1.calls[id] == AccessSaved(code, f, a) && s1.db == s.db.Put(Access(a), access);
    var s2 := Apply(s1, Step(id, true, refresh.Some?, b, if refresh.Some? then refresh.value else map[]));
    assert s2.calls[id] == RefreshSaved(code, f, a, if refresh.Some? then Some(b) else None);
    assert s2.db == if refresh.Some? then s1.db.Put(Refresh(b), refresh.value) else s1.db;
  }

  /** A handler that refuses what it was handed, or was handed a document that names no client, stores nothing. */
  lemma RefusedAlone(s: State, id: nat, e: Event)
    requires id in s.calls && s.calls[id].Taken? && e.Step? && e.id == id && (!e.ok || !Genuine(s.calls[id].f))
    ensures Apply(s, e).calls[id] == Failed(s.calls[id].code, s.calls[id].f) && Apply(s, e).db == s.db
  {}

  /** A used code is refused, and takes with it exactly the tokens linked to it; an unknown one is refused. */
  lemma ReplayAlone(s: State, id: nat, code: string)
    requires id !in s.calls && (Code(code) in s.db.docs ==> FlagSet(s.db.docs[Code(code)].fields, Used))
    ensures var e := Step(id, true, true, "", map[]);
      var s' := Apply(Apply(Apply(Apply(s, Begin(id, code)), e), e), e);
      id in s'.calls &&
      if Code(code) !in s.db.docs then s'.calls[id] == Lost(code) && s'.db == s.db
      else
        var f := s.db.docs[Code(code)].fields;
        var at, rt := TextOf(f, IssuedAccessToken), TextOf(f, IssuedRefreshToken);
        s'.calls[id] == Denied(code, at, rt) &&
        s'.db.docs == s.db.docs - (if at.Some? then {Access(at.value)} else {})
                                - (if rt.Some? then {Refresh(rt.value)} else {})
  {
    var e := Step(id, true, true, "", map[]);
    var s1 := Apply(Apply(s, Begin(id, code)), e);
    assert s1.db == s.db;
    if Code(code) in s.db.docs {
      var f := s.db.docs[Code(code)].fields;
      var at, rt := TextOf(f, IssuedAccessToken), TextOf(f, IssuedRefreshToken);
      assert s1.calls[id] == RevokeAccess(code, at, rt);
      var s2 := Apply(s1, e);
      assert s2.calls[id] == RevokeRefresh(code, at, rt);
    }
  }

  // ----- The store calls, run alone against the server -----

  /** First presentation: marks and returns. Later: deletes what is linked and returns nothing. */
  method TakeCode(server: DocumentServer<Key, Fields>, code: string) returns (r: Option<Fields>)
    modifies server
    ensures var docs := old(server.docs);
      r.Some? <==> Code(code) in docs && !FlagSet(docs[Code(code)].fields, Used)
    ensures r.Some? ==> r.value == old(server.docs)[Code(code)].fields[Used := Flag(true)] &&
                        server.State() == old(server.State()).Put(Code(code), r.value)
    ensures r.None? && Code(code) in old(server.docs) ==>
              var f := old(server.docs)[Code(code)].fields;
              server.docs == old(server.docs)
                - (if TextOf(f, IssuedAccessToken).Some? then {Access(TextOf(f, IssuedAccessToken).value)} else {})
                - (if TextOf(f, IssuedRefreshToken).Some? then {Refresh(TextOf(f, IssuedRefreshToken).value)} else {})
    ensures Code(code) !in old(server.docs) ==> server.docs == old(server.docs)
  {
    var read := server.GetDoc(Code(code));
    if read.None? {
      return None;
    }
    var f := read.value.fields;
    if FlagSet(f, Used) {
      var at, rt := TextOf(f, IssuedAccessToken), TextOf(f, IssuedRefreshToken);
      if at.Some? {
        server.RemoveDoc(Access(at.value));
      }
      if rt.Some? {
        server.RemoveDoc(Refresh(rt.value));
      }
      return None;
    }
    f := f[Used := Flag(true)];
    var won := server.SetDocIfUnchanged(Code(code), f, read.value.version);
    r := if won then Some(f) else None;
  }

  method LinkIssuedTokens(server: DocumentServer<Key, Fields>, code: string, access: string, refresh: Option<string>)
    modifies server
    ensures server.State() == Merge(old(server.State()), Code(code), LinkFields(access, refresh))
  {
    server.MergeDoc(Code(code), stored => Overlaid(stored, LinkFields(access, refresh)));
  }
}
