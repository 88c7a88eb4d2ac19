/** Dynamic registration, administrator edits and revocations on the shared store
    (src/web/oidc.rs:804-883, src/web/admin.rs:664-712, src/dcr_store.rs:41-92 and 128-178).

    A registration reads its initial access token, checks the request, deletes a single-use token only
    if its version is current, and then creates the client. `Apply` takes one store request at a time. */
module Registration {
  import opened Documents
  import opened RegistrationRules

  datatype Key = IatKey(hash: string) | ClientKey(id: string)

  datatype Record = IatRecord(constraints: Constraints, expiresAt: nat, reusable: bool) | ClientRecord(client: Client)

  datatype Call =
    | Register(hash: string, r: RegistrationRequest)
    | Consume(hash: string, iat: Record, version: nat, client: Client)
    | Save(hash: string, client: Client)
    | Registered(hash: string, client: Client)
    | Edit(clientId: string, uris: seq<string>)
    | EditLoaded(clientId: string, client: Client, version: nat, uris: seq<string>)
    | Over

  /** Bookkeeping no call reads: every access token minted, which token each client id was drawn under,
      and which registration consumed each single-use token. */
  datatype History = History(minted: map<string, Record>, origin: map<string, string>, spender: map<string, nat>)

  datatype State = State(db: Db<Key, Record>, calls: map<nat, Call>, past: History)

  datatype Event =
    | Mint(hash: string, constraints: Constraints, expiresAt: nat, reusable: bool)
    | BeginRegister(id: nat, hash: string, r: RegistrationRequest)
    | BeginEdit(id: nat, clientId: string, uris: seq<string>)
    | Step(id: nat, now: nat, admitted: bool, drawn: string, secretHash: string)
    | RevokeIat(hash: string, v: nat)
    | RevokeClient(clientId: string)
    | WriteElsewhere

  function Check(s: State, id: nat, call: Call, e: Event): State
    requires call.Register? && e.Step?
  {
    var over := s.(calls := s.calls[id := Over]);
    if IatKey(call.hash) !in s.db.docs || !s.db.docs[IatKey(call.hash)].fields.IatRecord? then over
    else
      var d := s.db.docs[IatKey(call.hash)];
      if e.now >= d.fields.expiresAt || (!d.fields.reusable && !e.admitted) then over
      else if e.drawn in s.past.origin then s   // client ids are drawn fresh
      else
        var checked := ValidateRegistration(e.drawn, call.r, d.fields.constraints, e.secretHash);
        if checked.Err? then over
        else
          s.(calls := s.calls[id := if d.fields.reusable then Save(call.hash, checked.client)
                                    else Consume(call.hash, d.fields, d.version, checked.client)],
             past := s.past.(origin := s.past.origin[e.drawn := call.hash]))
  }

  function StepCall(s: State, id: nat, e: Event): State
    requires id in s.calls && e.Step?
  {
    var over := s.(calls := s.calls[id := Over]);
    match s.calls[id]
    case Register(_, _) => Check(s, id, s.calls[id], e)
    case Consume(hash, iat, version, client) =>
      if !s.db.Unchanged(IatKey(hash), version) then over
      else State(s.db.Delete(IatKey(hash)), s.calls[id := Save(hash, client)],
                 s.past.(spender := s.past.spender[hash := id]))
    case Save(hash, client) =>
      if ClientKey(client.id) in s.db.docs then over
      else s.(db := s.db.CreateIfAbsent(ClientKey(client.id), ClientRecord(client)),
              calls := s.calls[id := Registered(hash, client)])
    case Edit(clientId, uris) =>
      if ClientKey(clientId) !in s.db.docs || !s.db.docs[ClientKey(clientId)].fields.ClientRecord? then over
      else
        var d := s.db.docs[ClientKey(clientId)];
        if !AdminMaySet(uris, d.fields.client.redirectUris) then over
        else s.(calls := s.calls[id := EditLoaded(clientId, d.fields.client, d.version, uris)])
    case EditLoaded(clientId, client, version, uris) =>
      s.(db := s.db.PutIfUnchanged(ClientKey(clientId), ClientRecord(client.(postLogoutUris := uris)), version),
         calls := s.calls[id := Over])
    case _ => s
  }

  function Apply(s: State, e: Event): State {
    match e
    case Mint(hash, constraints, expiresAt, reusable) =>
      if hash in s.past.minted then s   // token hashes are drawn fresh
      else
        var iat := IatRecord(constraints, expiresAt, reusable);
        s.(db := s.db.CreateIfAbsent(IatKey(hash), iat), past := s.past.(minted := s.past.minted[hash := iat]))
    case BeginRegister(id, hash, r) => if id in s.calls then s else s.(calls := s.calls[id := Register(hash, r)])
    case BeginEdit(id, clientId, uris) => if id in s.calls then s else s.(calls := s.calls[id := Edit(clientId, uris)])
    case Step(id, _, _, _, _) => if id in s.calls then StepCall(s, id, e) else s
    case RevokeIat(hash, v) => s.(db := s.db.DeleteIfUnchanged(IatKey(hash), v))
    case RevokeClient(clientId) => s.(db := s.db.Delete(ClientKey(clientId)))
    case WriteElsewhere => s.(db := s.db.(version := s.db.version + 1))
  }

  function Run(s: State, es: seq<Event>): State {
    if es == [] then s else Apply(Run(s, es[..|es| - 1]), es[|es| - 1])
  }

  const Start := State(Db(map[], 0), map[], History(map[], map[], map[]))

  // ----- Invariant -----

  ghost predicate ClientOk(s: State, client: Client) {
    && client.id in s.past.origin && s.past.origin[client.id] in s.past.minted
    && s.past.minted[s.past.origin[client.id]].IatRecord?
    && Within(client.redirectUris, s.past.minted[s.past.origin[client.id]].constraints.hosts)
    && Within(client.postLogoutUris, s.past.minted[s.past.origin[client.id]].constraints.hosts)
  }

  /** The one call that spent the token is the one that saved this client. */
  ghost predicate SavedBySpender(s: State, clientId: string, hash: string) {
    && hash in s.past.spender && s.past.spender[hash] in s.calls
    && s.calls[s.past.spender[hash]].Registered? && s.calls[s.past.spender[hash]].client.id == clientId
  }

  ghost predicate DocOk(s: State, k: Key, f: Record) {
    match k
    case IatKey(hash) => hash in s.past.minted && f == s.past.minted[hash] && f.IatRecord? && hash !in s.past.spender
    case ClientKey(id) =>
      && f.ClientRecord? && f.client.id == id && ClientOk(s, f.client)
      && (!s.past.minted[s.past.origin[id]].reusable ==> SavedBySpender(s, id, s.past.origin[id]))
  }

  /** The registering call passed through the token's single use, if it has one. */
  ghost predicate Spent(s: State, id: nat, hash: string, client: Client) {
    && ClientOk(s, client) && s.past.origin[client.id] == hash
    && (!s.past.minted[hash].reusable ==> hash in s.past.spender && s.past.spender[hash] == id)
  }

  ghost predicate CallOk(s: State, id: nat, call: Call) {
    match call
    case Consume(hash, iat, version, client) =>
      && ClientOk(s, client) && s.past.origin[client.id] == hash && iat == s.past.minted[hash]
      && s.db.Saw(IatKey(hash), iat, version)
    case Save(hash, client) => Spent(s, id, hash, client)
    case Registered(hash, client) => Spent(s, id, hash, client)
    case EditLoaded(clientId, client, version, uris) =>
      && client.id == clientId && ClientOk(s, client.(postLogoutUris := uris))
      && s.db.Saw(ClientKey(clientId), ClientRecord(client), version)
    case _ => true
  }

  ghost predicate Inv(s: State) {
    && s.db.Valid()
    && (forall k :: k in s.db.docs ==> DocOk(s, k, s.db.docs[k].fields))
    && (forall id :: id in s.calls ==> CallOk(s, id, s.calls[id]))
    && s.past.spender.Keys <= s.past.minted.Keys
  }

  // ----- Every step keeps it -----

  lemma Move(s: State, id: nat, call: Call)
    requires Inv(s) && CallOk(s, id, call) && (id in s.calls ==> !s.calls[id].Registered?)
    ensures Inv(s.(calls := s.calls[id := call]))
  {
    var s' := s.(calls := s.calls[id := call]);
    forall k | k in s'.db.docs ensures DocOk(s', k, s'.db.docs[k].fields) { assert DocOk(s, k, s.db.docs[k].fields); }
    forall i | i in s'.calls ensures CallOk(s', i, s'.calls[i]) { assert i != id ==> CallOk(s, i, s.calls[i]); }
  }

  /** The store changes, every document it keeps or gains being in order; a minted token that is gone stays gone. */
  lemma StoreChanges(s: State, db: Db<Key, Record>)
    requires Inv(s) && db.Valid() && s.db.version <= db.version
    requires forall k :: k in db.docs && !(k in s.db.docs && db.docs[k] == s.db.docs[k]) ==>
               db.docs[k].version > s.db.version && DocOk(s, k, db.docs[k].fields)
    ensures Inv(s.(db := db))
  {
    var s' := s.(db := db);
    forall k | k in db.docs ensures DocOk(s', k, db.docs[k].fields) {
      assert k in s.db.docs ==> DocOk(s, k, s.db.docs[k].fields);
    }
    forall i | i in s.calls ensures CallOk(s', i, s.calls[i]) { assert CallOk(s, i, s.calls[i]); }
  }

  lemma DrawnUnder(s: State, drawn: string, hash: string)
    requires Inv(s) && drawn !in s.past.origin
    ensures Inv(s.(past := s.past.(origin := s.past.origin[drawn := hash])))
  {
    var s' := s.(past := s.past.(origin := s.past.origin[drawn := hash]));
    forall k | k in s'.db.docs ensures DocOk(s', k, s'.db.docs[k].fields) { assert DocOk(s, k, s.db.docs[k].fields); }
    forall i | i in s'.calls ensures CallOk(s', i, s'.calls[i]) { assert CallOk(s, i, s.calls[i]); }
  }

  lemma CheckKeepsInv(s: State, id: nat, e: Event)
    requires Inv(s) && id in s.calls && s.calls[id].Register? && e.Step?
    ensures Inv(Check(s, id, s.calls[id], e))
  {
    var call := s.calls[id];
    var s' := Check(s, id, call, e);
    Move(s, id, Over);
    if s'.past != s.past {
      var d := s.db.docs[IatKey(call.hash)];
      assert DocOk(s, IatKey(call.hash), d.fields);
      AcceptedMeansWithinLimits(e.drawn, call.r, d.fields.constraints, e.secretHash);
      DrawnUnder(s, e.drawn, call.hash);
      var s1 := s.(past := s.past.(origin := s.past.origin[e.drawn := call.hash]));
      Move(s1, id, s'.calls[id]);
    }
  }

  lemma ConsumeKeepsInv(s: State, id: nat, e: Event)
    requires Inv(s) && id in s.calls && s.calls[id].Consume? && e.Step?
    requires s.db.Unchanged(IatKey(s.calls[id].hash), s.calls[id].version)
    ensures Inv(StepCall(s, id, e))
  {
    var s', hash := StepCall(s, id, e), s.calls[id].hash;
    assert CallOk(s, id, s.calls[id]) && DocOk(s, IatKey(hash), s.db.docs[IatKey(hash)].fields);
    forall k | k in s'.db.docs ensures DocOk(s', k, s'.db.docs[k].fields) { assert DocOk(s, k, s.db.docs[k].fields); }
    forall i | i in s'.calls ensures CallOk(s', i, s'.calls[i]) { assert CallOk(s, i, s.calls[i]); }
  }

  lemma SaveKeepsInv(s: State, id: nat, e: Event)
    requires Inv(s) && id in s.calls && s.calls[id].Save? && e.Step?
    ensures Inv(StepCall(s, id, e))
  {
    var call := s.calls[id];
    assert CallOk(s, id, call);
    if ClientKey(call.client.id) in s.db.docs {
      Move(s, id, Over);
      return;
    }
    Move(s, id, Registered(call.hash, call.client));
    StoreChanges(s.(calls := s.calls[id := Registered(call.hash, call.client)]),
                 s.db.CreateIfAbsent(ClientKey(call.client.id), ClientRecord(call.client)));
  }

  lemma EditKeepsInv(s: State, id: nat, e: Event)
    requires Inv(s) && id in s.calls && (s.calls[id].Edit? || s.calls[id].EditLoaded?) && e.Step?
    ensures Inv(StepCall(s, id, e))
  {
    var call, s' := s.calls[id], StepCall(s, id, e);
    assert CallOk(s, id, call);
    Move(s, id, Over);
    if call.EditLoaded? {
      StoreChanges(s.(calls := s.calls[id := Over]), s'.db);
    } else if s'.calls[id].EditLoaded? {
      var c := s'.calls[id].client;
      assert DocOk(s, ClientKey(call.clientId), ClientRecord(c));
      AdminEditStaysWithin(call.uris, c.redirectUris, s.past.minted[s.past.origin[c.id]].constraints.hosts);
      Move(s, id, s'.calls[id]);
    }
  }

  lemma MintKeepsInv(s: State, e: Event)
    requires Inv(s) && e.Mint?
    ensures Inv(Apply(s, e))
  {
    var s' := Apply(s, e);
    assert IatKey(e.hash) in s.db.docs ==> DocOk(s, IatKey(e.hash), s.db.docs[IatKey(e.hash)].fields);
    forall k | k in s'.db.docs ensures DocOk(s', k, s'.db.docs[k].fields) {
      assert k in s.db.docs ==> DocOk(s, k, s.db.docs[k].fields);
    }
    forall i | i in s'.calls ensures CallOk(s', i, s'.calls[i]) { assert CallOk(s, i, s.calls[i]); }
  }

  lemma ApplyKeepsInv(s: State, e: Event)
    requires Inv(s)
    ensures Inv(Apply(s, e))
  {
    match e
    case Mint(_, _, _, _) => MintKeepsInv(s, e);
    case BeginRegister(id, hash, r) => if id !in s.calls { Move(s, id, Register(hash, r)); }
    case BeginEdit(id, clientId, uris) => if id !in s.calls { Move(s, id, Edit(clientId, uris)); }
    case Step(id, _, _, _, _) =>
      if id in s.calls {
        match s.calls[id]
        case Register(_, _) => CheckKeepsInv(s, id, e);
        case Consume(hash, _, version, _) =>
          if s.db.Unchanged(IatKey(hash), version) { ConsumeKeepsInv(s, id, e); } else { Move(s, id, Over); }
        case Save(_, _) => SaveKeepsInv(s, id, e);
        case Edit(_, _) => EditKeepsInv(s, id, e);
        case EditLoaded(_, _, _, _) => EditKeepsInv(s, id, e);
        case _ =>
      }
    case RevokeIat(hash, v) => StoreChanges(s, s.db.DeleteIfUnchanged(IatKey(hash), v));
    case RevokeClient(clientId) => StoreChanges(s, s.db.Delete(ClientKey(clientId)));
    case WriteElsewhere => StoreChanges(s, s.db.(version := s.db.version + 1));
  }

  lemma {:induction false} RunKeepsInv(es: seq<Event>)
    ensures Inv(Run(Start, es))
  {
    if es != [] {
      RunKeepsInv(es[..|es| - 1]);
      ApplyKeepsInv(Run(Start, es[..|es| - 1]), es[|es| - 1]);
    }
  }

  // ----- Main results, over every interleaving -----

  /** Whatever edits came after, a stored client only points at hosts of an access token that was
      really minted: the one its id was drawn under. */
  lemma ClientsStayWithinTheirToken(es: seq<Event>, clientId: string)
    requires ClientKey(clientId) in Run(Start, es).db.docs
    ensures var s := Run(Start, es); var f := s.db.docs[ClientKey(clientId)].fields;
      f.ClientRecord? && f.client.id == clientId && clientId in s.past.origin &&
      exists k :: 0 <= k < |es| && es[k].Mint? && es[k].hash == s.past.origin[clientId] &&
        Within(f.client.redirectUris, es[k].constraints.hosts) &&
        Within(f.client.postLogoutUris, es[k].constraints.hosts)
  {
    RunKeepsInv(es);
    var s := Run(Start, es);
    assert DocOk(s, ClientKey(clientId), s.db.docs[ClientKey(clientId)].fields);
    var k := MintedByEvent(es, s.past.origin[clientId]);
    assert es[k].Mint?;
  }

  lemma {:induction false} MintedByEvent(es: seq<Event>, hash: string) returns (k: nat)
    requires hash in Run(Start, es).past.minted
    ensures k < |es| && es[k].Mint? && es[k].hash == hash &&
            Run(Start, es).past.minted[hash] == IatRecord(es[k].constraints, es[k].expiresAt, es[k].reusable)
  {
    var before := es[..|es| - 1];
    if hash in Run(Start, before).past.minted {
      k := MintedByEvent(before, hash);
      MintedStays(Run(Start, before), es[|es| - 1], hash);
    } else {
      k := |es| - 1;
      MintingEvent(Run(Start, before), es[k], hash);
    }
  }

  lemma MintedStays(s: State, e: Event, hash: string)
    requires hash in s.past.minted
    ensures hash in Apply(s, e).past.minted && Apply(s, e).past.minted[hash] == s.past.minted[hash]
  {}

  lemma MintingEvent(s: State, e: Event, hash: string)
    requires hash !in s.past.minted && hash in Apply(s, e).past.minted
    ensures e.Mint? && e.hash == hash
    ensures Apply(s, e).past.minted[hash] == IatRecord(e.constraints, e.expiresAt, e.reusable)
  {}

  /** A registration that succeeded drew its client id under the token it presented. */
  lemma RegisteredUnderItsToken(es: seq<Event>, i: nat)
    requires i in Run(Start, es).calls && Run(Start, es).calls[i].Registered?
    ensures var s := Run(Start, es); var call := s.calls[i];
      call.client.id in s.past.origin && s.past.origin[call.client.id] == call.hash
  {
    RunKeepsInv(es);
    assert CallOk(Run(Start, es), i, Run(Start, es).calls[i]);
  }

  ghost predicate SingleUse(es: seq<Event>, hash: string) {
    forall k :: 0 <= k < |es| && es[k].Mint? && es[k].hash == hash ==> !es[k].reusable
  }

  /** A single-use token registers at most one client: at most one call succeeds with it, and at most
      one stored client had its id drawn under it. */
  lemma OneRegistrationPerSingleUseToken(es: seq<Event>, i: nat, j: nat)
    requires i in Run(Start, es).calls && j in Run(Start, es).calls
    requires var a, b := Run(Start, es).calls[i], Run(Start, es).calls[j];
      a.Registered? && b.Registered? && a.hash == b.hash && SingleUse(es, a.hash)
    ensures i == j
  {
    RunKeepsInv(es);
    var s := Run(Start, es);
    assert CallOk(s, i, s.calls[i]) && CallOk(s, j, s.calls[j]);
    var k := MintedByEvent(es, s.calls[i].hash);
  }

  lemma OneClientPerSingleUseToken(es: seq<Event>, c1: string, c2: string, hash: string)
    requires ClientKey(c1) in Run(Start, es).db.docs && ClientKey(c2) in Run(Start, es).db.docs && SingleUse(es, hash)
    requires var origin := Run(Start, es).past.origin;
      c1 in origin && c2 in origin && origin[c1] == hash && origin[c2] == hash
    ensures c1 == c2
  {
    RunKeepsInv(es);
    var s := Run(Start, es);
    assert DocOk(s, ClientKey(c1), s.db.docs[ClientKey(c1)].fields);
    assert DocOk(s, ClientKey(c2), s.db.docs[ClientKey(c2)].fields);
    var k := MintedByEvent(es, hash);
  }

  // ----- One call of the state machine run alone, from any state -----

  lemma RegisterAlone(s: State, id: nat, hash: string, r: RegistrationRequest, now: nat, admitted: bool, drawn: string,
                      secretHash: string)
    requires id !in s.calls && drawn !in s.past.origin && ClientKey(drawn) !in s.db.docs
    ensures var e := Step(id, now, admitted, drawn, secretHash);
      var s' := Apply(Apply(Apply(Apply(s, BeginRegister(id, hash, r)), e), e), e);
      var found := s.db.Read(IatKey(hash));
      var accepted := found.Some? && found.value.IatRecord? && now < found.value.expiresAt &&
        (found.value.reusable || admitted) && ValidateRegistration(drawn, r, found.value.constraints, secretHash).Ok?;
      id in s'.calls && (!accepted ==> s'.calls[id] == Over && s'.db == s.db) &&
      (accepted ==>
         s'.calls[id].Registered? && s'.calls[id].hash == hash &&
         AsRequested(s'.calls[id].client, drawn, r, found.value.constraints.profile, secretHash) &&
         s'.db.Read(ClientKey(drawn)) == Some(ClientRecord(s'.calls[id].client)) &&
         s'.db.docs - {ClientKey(drawn)} == if found.value.reusable then s.db.docs else s.db.docs - {IatKey(hash)})
  {
    var e := Step(id, now, admitted, drawn, secretHash);
    var s0 := Apply(s, BeginRegister(id, hash, r));
    var s1 := Apply(s0, e);
    assert s1.db == s.db;
    var s2 := Apply(s1, e);
    var s3 := Apply(s2, e);
    if s1.calls[id].Save? || s1.calls[id].Consume? {
      var c := s.db.docs[IatKey(hash)].fields.constraints;
      AcceptedClientIsAsRequested(drawn, r, c, secretHash);
      AcceptedMeansWithinLimits(drawn, r, c, secretHash);
      assert s2.calls[id] == if s1.calls[id].Save? then Registered(hash, s1.calls[id].client)
                             else Save(hash, s1.calls[id].client);
    }
  }

  lemma EditAlone(s: State, id: nat, clientId: string, uris: seq<string>, now: nat)
    requires id !in s.calls
    ensures var e := Step(id, now, true, "", "");
      var s' := Apply(Apply(Apply(s, BeginEdit(id, clientId, uris)), e), e);
      var found := s.db.Read(ClientKey(clientId));
      id in s'.calls && s'.calls[id] == Over &&
      if found.Some? && found.value.ClientRecord? && AdminMaySet(uris, found.value.client.redirectUris)
      then s'.db.Read(ClientKey(clientId)) == Some(ClientRecord(found.value.client.(postLogoutUris := uris))) &&
           s'.db.docs - {ClientKey(clientId)} == s.db.docs - {ClientKey(clientId)}
      else s'.db == s.db
  {}

  // ----- The calls on the server, run alone -----

  datatype Answer = Created(client: Client) | Refused

  /** Without interference, a registration succeeds exactly when its token is there, unexpired, within the
      rate limit if it is single-use, and admits a well-formed request; it spends a single-use token, and
      leaves it alone when the request is refused. */
  method RegisterClient(server: DocumentServer<Key, Record>, hash: string, body: Option<RegistrationRequest>, now: nat,
                        withinRate: bool, drawn: string, secretHash: string)
    returns (result: Answer)
    requires ClientKey(drawn) !in server.docs   // client ids are drawn fresh
    modifies server
    ensures var found := old(server.State()).Read(IatKey(hash));
      result.Created? <==>
        found.Some? && found.value.IatRecord? && now < found.value.expiresAt &&
        (found.value.reusable || withinRate) && body.Some? &&
        ValidateRegistration(drawn, body.value, found.value.constraints, secretHash).Ok?
    ensures result.Refused? ==> server.State() == old(server.State())
    ensures result.Created? ==>
      var iat := old(server.docs)[IatKey(hash)].fields;
      ValidateRegistration(drawn, body.value, iat.constraints, secretHash) == Ok(result.client) &&
      AsRequested(result.client, drawn, body.value, iat.constraints.profile, secretHash) &&
      server.State() == (if iat.reusable then old(server.State()) else old(server.State()).Delete(IatKey(hash)))
                          .Put(ClientKey(drawn), ClientRecord(result.client))
  {
    var read := server.GetDoc(IatKey(hash));
    if read.None? || !read.value.fields.IatRecord? {
      return Refused;
    }
    var iat := read.value.fields;
    if now >= iat.expiresAt || (!iat.reusable && !withinRate) || body.None? {
      return Refused;
    }
    var checked := ValidateRegistration(drawn, body.value, iat.constraints, secretHash);
    AcceptedMeansWithinLimits(drawn, body.value, iat.constraints, secretHash);
    if checked.Err? {
      return Refused;
    }
    if !iat.reusable {
      var won := server.DeleteDocIfUnchanged(IatKey(hash), read.value.version);
      if !won {
        return Refused;
      }
    }
    AcceptedClientIsAsRequested(drawn, body.value, iat.constraints, secretHash);
    var created := server.CreateDocIfAbsent(ClientKey(checked.client.id), ClientRecord(checked.client));
    result := if created then Created(checked.client) else Refused;
  }

  method SetPostLogoutUris(server: DocumentServer<Key, Record>, clientId: string, uris: seq<string>) returns (ok: bool)
    modifies server
    ensures var stored := old(server.State()).Read(ClientKey(clientId));
      ok <==> stored.Some? && stored.value.ClientRecord? && AdminMaySet(uris, stored.value.client.redirectUris)
    ensures server.State() ==
      if !ok then old(server.State())
      else var client := old(server.docs)[ClientKey(clientId)].fields.client;
        old(server.State()).Put(ClientKey(clientId), ClientRecord(client.(postLogoutUris := uris)))
  {
    var read := server.GetDoc(ClientKey(clientId));
    if read.None? || !read.value.fields.ClientRecord? || !AdminMaySet(uris, read.value.fields.client.redirectUris) {
      return false;
    }
    var edited := ClientRecord(read.value.fields.client.(postLogoutUris := uris));
    ok := server.SetDocIfUnchanged(ClientKey(clientId), edited, read.value.version);
  }
}
