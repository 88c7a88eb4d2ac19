/** Backchannel authentication requests (src/ciba.rs:33-111, 287-393; src/grants.rs:383-446;
    the approve and reject endpoints of src/web/ciba.rs).

    Approvals, rejections, polls and sweeps run at once on one document per request. A decision writes,
    and a poll deletes, only if the version it read is still current. `Apply` takes one request to the
    store at a time. */
module Ciba {
  import opened Documents
  import opened Tokens
  import Rfc3339

  const TTL := 300

  datatype Decision = Pending | Approved | Denied

  function StatusText(d: Decision): string {
    match d
    case Pending => "pending"
    case Approved => "approved"
    case Denied => "denied"
  }

  function ParseStatus(s: string): Decision {
    if s == "approved" then Approved else if s == "denied" then Denied else Pending
  }

  datatype Req = Req(
    clientId: string,
    account: string,
    scope: string,
    message: string,
    status: Decision,
    expiresAt: nat,
    details: Option<string>)

  // ----- The request as a document -----

  function FieldOf(c: Codec, r: Req, k: Field): Option<FieldValue> {
    match k
    case ClientId => Some(Text(r.clientId))
    case Account => Some(Text(r.account))
    case Scope => Some(Text(r.scope))
    case BindingMessage => Some(Text(r.message))
    case Status => Some(Text(StatusText(r.status)))
    case ExpiresAt => Some(Timestamp(c.print_(r.expiresAt)))
    case AuthorizationDetails => OptionalText(r.details)
    case _ => None
  }

  function Encode(c: Codec, r: Req): Fields {
    map k: Field | FieldOf(c, r, k).Some? :: FieldOf(c, r, k).value
  }

  function NonEmpty(t: Option<string>): Option<string> {
    if t == Some("") then None else t
  }

  function Decode(c: Codec, f: Fields): Req {
    Req(TextOr(f, ClientId, ""), TextOr(f, Account, ""), TextOr(f, Scope, ""), TextOr(f, BindingMessage, ""),
        ParseStatus(TextOr(f, Status, "pending")), SecondsOf(c, f, ExpiresAt),
        NonEmpty(TextOf(f, AuthorizationDetails)))
  }

  predicate Lossless(c: Codec, t: nat) {
    c.parse(c.print_(t)) == t
  }

  /** The request as every later reader sees it, in a given state. */
  function Seen(r: Req, d: Decision): Req {
    r.(status := d, details := NonEmpty(r.details))
  }

  lemma DecodeEncode(c: Codec, r: Req)
    requires Lossless(c, r.expiresAt)
    ensures Decode(c, Encode(c, r)) == Seen(r, r.status)
  {
    EncodedTexts(c, r);
    EncodedRest(c, r);
  }

  lemma EncodedTexts(c: Codec, r: Req)
    ensures var f := Encode(c, r);
      TextOf(f, ClientId) == Some(r.clientId) && TextOf(f, Account) == Some(r.account) &&
      TextOf(f, Scope) == Some(r.scope) && TextOf(f, BindingMessage) == Some(r.message)
  {}

  lemma EncodedRest(c: Codec, r: Req)
    requires Lossless(c, r.expiresAt)
    ensures var f := Encode(c, r);
      ParseStatus(TextOr(f, Status, "pending")) == r.status && SecondsOf(c, f, ExpiresAt) == r.expiresAt &&
      TextOf(f, AuthorizationDetails) == r.details
  {
    assert FieldOf(c, r, ExpiresAt).Some?;
    assert ParseStatus(StatusText(r.status)) == r.status;
  }

  // ----- Calls in flight -----

  datatype Call =
    | Approve(rid: string, account: string)
    | Reject(rid: string)
    | Decide(rid: string, approver: Option<string>, d: Decision)
    | DecideLoaded(rid: string, approver: Option<string>, d: Decision, f: Fields, version: nat)
    | Won(rid: string, approver: Option<string>, d: Decision)
    | Poll(rid: string, clientId: string)
    | Consume(rid: string, clientId: string)
    | ConsumeLoaded(rid: string, clientId: string, f: Fields, version: nat)
    | Granted(rid: string, clientId: string, req: Req)   // tokens are issued from `req`
    | Deleting(rid: string)
    | Sweep(account: string)
    | Sweeping(rids: set<string>)
    | Over

  /** Bookkeeping no call reads: each request as created, and who decided and who consumed it. */
  datatype History = History(created: map<string, Req>, decider: map<string, nat>, consumer: map<string, nat>)

  datatype State = State(db: Db<string, Fields>, calls: map<nat, Call>, past: History)

  datatype Event =
    | Create(rid: string, clientId: string, account: string, scope: string, message: string,
             details: Option<string>, now: nat)
    | BeginApprove(id: nat, rid: string, account: string)
    | BeginReject(id: nat, rid: string)
    | BeginPoll(id: nat, rid: string, clientId: string)
    | BeginSweep(id: nat, account: string)
    | Step(id: nat, now: nat, verified: bool, pick: string)
    | Remove(rid: string)
    | WriteElsewhere

  function ReadReq(c: Codec, s: State, rid: string): Option<Req> {
    if rid in s.db.docs then Some(Decode(c, s.db.docs[rid].fields)) else None
  }

  /** Expiry as the source tests it: the very second of expiry still counts. */
  predicate Expired(r: Req, now: nat) {
    r.expiresAt < now
  }

  function AfterPoll(call: Call, read: Option<Req>, now: nat): Call
    requires call.Poll?
  {
    if read.None? || read.value.clientId != call.clientId then Over
    else if Expired(read.value, now) then Deleting(call.rid)
    else match read.value.status
      case Pending => Over
      case Denied => Deleting(call.rid)
      case Approved => Consume(call.rid, call.clientId)
  }

  /** The calls that only read: what the call does next. */
  function AfterRead(c: Codec, s: State, call: Call, now: nat, verified: bool): Call {
    match call
    case Approve(rid, account) =>
      var r := ReadReq(c, s, rid);
      if r.Some? && r.value.account == account && !Expired(r.value, now) && verified
      then Decide(rid, Some(account), Approved) else Over
    case Reject(rid) =>
      var r := ReadReq(c, s, rid);
      if r.Some? && Expired(r.value, now) then Over else Decide(rid, None, Denied)
    case Decide(rid, account, d) =>
      if rid in s.db.docs && Decode(c, s.db.docs[rid].fields).status == Pending
      then DecideLoaded(rid, account, d, s.db.docs[rid].fields, s.db.docs[rid].version) else Over
    case Poll(rid, _) => AfterPoll(call, ReadReq(c, s, rid), now)
    case Consume(rid, clientId) =>
      if rid in s.db.docs && Decode(c, s.db.docs[rid].fields).status == Approved
      then ConsumeLoaded(rid, clientId, s.db.docs[rid].fields, s.db.docs[rid].version) else Over
    case Sweep(account) =>
      Sweeping(set rid | rid in s.db.docs &&
                 var r := Decode(c, s.db.docs[rid].fields);
                 r.account == account && r.status == Pending && Expired(r, now))
    case _ => call
  }

  function StepCall(c: Codec, s: State, id: nat, now: nat, verified: bool, pick: string): State
    requires id in s.calls
  {
    match s.calls[id]
    case DecideLoaded(rid, account, d, f, version) =>
      if !s.db.Unchanged(rid, version) then s.(calls := s.calls[id := Over])
      else State(s.db.Put(rid, Encode(c, Decode(c, f).(status := d))), s.calls[id := Won(rid, account, d)],
                 s.past.(decider := s.past.decider[rid := id]))
    case ConsumeLoaded(rid, clientId, f, version) =>
      if !s.db.Unchanged(rid, version) then s.(calls := s.calls[id := Over])
      else State(s.db.Delete(rid), s.calls[id := Granted(rid, clientId, Decode(c, f))],
                 s.past.(consumer := s.past.consumer[rid := id]))
    case Deleting(rid) => s.(db := s.db.Delete(rid), calls := s.calls[id := Over])
    case Sweeping(rids) =>
      if pick !in rids then s else s.(db := s.db.Delete(pick), calls := s.calls[id := Sweeping(rids - {pick})])
    case _ => s.(calls := s.calls[id := AfterRead(c, s, s.calls[id], now, verified)])
  }

  function Made(e: Event): Req
    requires e.Create?
  {
    Req(e.clientId, e.account, e.scope, e.message, Pending, e.now + TTL, e.details)
  }

  function Begin(s: State, id: nat, call: Call): State {
    if id in s.calls then s else s.(calls := s.calls[id := call])
  }

  function Apply(c: Codec, s: State, e: Event): State {
    match e
    case Create(rid, _, _, _, _, _, _) =>
      if rid in s.past.created then s   // request ids are drawn fresh
      else s.(db := s.db.Put(rid, Encode(c, Made(e))), past := s.past.(created := s.past.created[rid := Made(e)]))
    case BeginApprove(id, rid, account) => Begin(s, id, Approve(rid, account))
    case BeginReject(id, rid) => Begin(s, id, Reject(rid))
    case BeginPoll(id, rid, clientId) => Begin(s, id, Poll(rid, clientId))
    case BeginSweep(id, account) => Begin(s, id, Sweep(account))
    case Step(id, now, verified, pick) => if id in s.calls then StepCall(c, s, id, now, verified, pick) else s
    case Remove(rid) => s.(db := s.db.Delete(rid))
    case WriteElsewhere => s.(db := s.db.(version := s.db.version + 1))
  }

  function Run(c: Codec, s: State, es: seq<Event>): State {
    if es == [] then s else Apply(c, Run(c, s, es[..|es| - 1]), es[|es| - 1])
  }

  const Start := State(Db(map[], 0), map[], History(map[], map[], map[]))

  // ----- Invariant -----

  ghost predicate DocOk(c: Codec, s: State, rid: string, f: Fields) {
    && rid in s.past.created && Lossless(c, s.past.created[rid].expiresAt)
    && Decode(c, f) == Seen(s.past.created[rid], Decode(c, f).status)
    && rid !in s.past.consumer
    && (Decode(c, f).status == Pending <==> rid !in s.past.decider)
    && (rid in s.past.decider ==>
          s.past.decider[rid] in s.calls && s.calls[s.past.decider[rid]].Won? &&
          s.calls[s.past.decider[rid]].rid == rid && s.calls[s.past.decider[rid]].d == Decode(c, f).status)
  }

  /** What a call read under a version, while that version lasts, is still the stored document. */
  ghost predicate ReadOk(c: Codec, s: State, rid: string, f: Fields, version: nat) {
    && rid in s.past.created && s.db.Saw(rid, f, version)
    && Lossless(c, s.past.created[rid].expiresAt)
    && Decode(c, f) == Seen(s.past.created[rid], Decode(c, f).status)
  }

  /** A deciding account, if the decision came through the approval endpoint, is the request's own. */
  ghost predicate AccountOk(s: State, rid: string, account: Option<string>, d: Decision) {
    && d != Pending && (d == Approved ==> account.Some?)
    && (account.Some? ==> rid in s.past.created && s.past.created[rid].account == account.value)
  }

  ghost predicate CallOk(c: Codec, s: State, id: nat, call: Call) {
    match call
    case Decide(rid, account, d) => AccountOk(s, rid, account, d)
    case DecideLoaded(rid, account, d, f, version) =>
      AccountOk(s, rid, account, d) && ReadOk(c, s, rid, f, version) && Decode(c, f).status == Pending
    case Won(rid, account, d) =>
      AccountOk(s, rid, account, d) && rid in s.past.decider && s.past.decider[rid] == id
    case Consume(rid, clientId) => rid in s.past.created && s.past.created[rid].clientId == clientId
    case ConsumeLoaded(rid, clientId, f, version) =>
      && ReadOk(c, s, rid, f, version) && Decode(c, f).status == Approved
      && s.past.created[rid].clientId == clientId
    case Granted(rid, clientId, req) =>
      && rid in s.past.created && s.past.created[rid].clientId == clientId
      && req == Seen(s.past.created[rid], Approved)
      && rid in s.past.consumer && s.past.consumer[rid] == id
      && rid in s.past.decider && s.past.decider[rid] in s.calls
      && s.calls[s.past.decider[rid]].Won? && s.calls[s.past.decider[rid]].rid == rid
      && s.calls[s.past.decider[rid]].d == Approved
    case _ => true
  }

  ghost predicate Inv(c: Codec, s: State) {
    && s.db.Valid()
    && (forall rid :: rid in s.db.docs ==> DocOk(c, s, rid, s.db.docs[rid].fields))
    && (forall id :: id in s.calls ==> CallOk(c, s, id, s.calls[id]))
    && s.past.decider.Keys <= s.past.created.Keys && s.past.consumer.Keys <= s.past.created.Keys
  }

  // ----- Every step keeps it -----

  lemma MovedDoc(c: Codec, s: State, id: nat, call: Call, rid: string, f: Fields)
    requires id !in s.calls || !s.calls[id].Won?
    requires DocOk(c, s, rid, f)
    ensures DocOk(c, s.(calls := s.calls[id := call]), rid, f)
  {}

  lemma MovedCall(c: Codec, s: State, id: nat, call: Call, i: nat, other: Call)
    requires id !in s.calls || !s.calls[id].Won?
    requires CallOk(c, s, i, other)
    ensures CallOk(c, s.(calls := s.calls[id := call]), i, other)
  {}

  /** A call that has not decided moves on without writing. */
  lemma QuietMove(c: Codec, s: State, id: nat, call: Call)
    requires Inv(c, s) && (id in s.calls ==> !s.calls[id].Won?) && CallOk(c, s, id, call)
    ensures Inv(c, s.(calls := s.calls[id := call]))
  {
    var s' := s.(calls := s.calls[id := call]);
    forall rid | rid in s'.db.docs ensures DocOk(c, s', rid, s'.db.docs[rid].fields) {
      MovedDoc(c, s, id, call, rid, s.db.docs[rid].fields);
    }
    forall i | i in s'.calls ensures CallOk(c, s', i, s'.calls[i]) {
      MovedCall(c, s, id, call, i, s'.calls[i]);
    }
  }

  lemma StoreShrinks(c: Codec, s: State, db: Db<string, Fields>)
    requires Inv(c, s) && s.db.version <= db.version
    requires forall rid :: rid in db.docs ==> rid in s.db.docs && db.docs[rid] == s.db.docs[rid]
    ensures Inv(c, s.(db := db))
  {
    var s' := s.(db := db);
    forall rid | rid in db.docs ensures DocOk(c, s', rid, db.docs[rid].fields) {
      assert DocOk(c, s, rid, s.db.docs[rid].fields);
    }
    forall i | i in s.calls ensures CallOk(c, s', i, s.calls[i]) {
      assert CallOk(c, s, i, s.calls[i]);
    }
  }

  lemma ReadKeepsCall(c: Codec, s: State, id: nat, now: nat, verified: bool)
    requires Inv(c, s) && id in s.calls
    ensures var call := AfterRead(c, s, s.calls[id], now, verified); CallOk(c, s, id, call)
  {
    var call := s.calls[id];
    assert CallOk(c, s, id, call);
    match call
    case Approve(rid, _) => assert rid in s.db.docs ==> DocOk(c, s, rid, s.db.docs[rid].fields);
    case Decide(rid, _, _) => assert rid in s.db.docs ==> DocOk(c, s, rid, s.db.docs[rid].fields);
    case Poll(rid, _) => assert rid in s.db.docs ==> DocOk(c, s, rid, s.db.docs[rid].fields);
    case Consume(rid, _) => assert rid in s.db.docs ==> DocOk(c, s, rid, s.db.docs[rid].fields);
    case _ =>
  }

  function Decided(c: Codec, s: State, id: nat, call: Call, f': Fields): State
    requires call.DecideLoaded?
  {
    State(s.db.Put(call.rid, f'), s.calls[id := Won(call.rid, call.approver, call.d)],
          s.past.(decider := s.past.decider[call.rid := id]))
  }

  lemma DecidedDoc(c: Codec, s: State, id: nat, f': Fields, rid: string)
    requires Inv(c, s) && id in s.calls && s.calls[id].DecideLoaded? && rid in s.db.docs
    requires var call := s.calls[id];
      s.db.Unchanged(call.rid, call.version) && Decode(c, f') == Seen(s.past.created[call.rid], call.d)
    ensures var s' := Decided(c, s, id, s.calls[id], f'); DocOk(c, s', rid, s'.db.docs[rid].fields)
  {
    assert CallOk(c, s, id, s.calls[id]) && DocOk(c, s, rid, s.db.docs[rid].fields);
  }

  lemma DecidedCall(c: Codec, s: State, id: nat, f': Fields, i: nat)
    requires Inv(c, s) && id in s.calls && s.calls[id].DecideLoaded? && i in s.calls
    requires s.db.Unchanged(s.calls[id].rid, s.calls[id].version)
    ensures var s' := Decided(c, s, id, s.calls[id], f'); CallOk(c, s', i, s'.calls[i])
  {
    var rid := s.calls[id].rid;
    assert CallOk(c, s, id, s.calls[id]) && CallOk(c, s, i, s.calls[i]);
    assert DocOk(c, s, rid, s.db.docs[rid].fields);
  }

  lemma DecideKeepsInv(c: Codec, s: State, id: nat)
    requires Inv(c, s) && id in s.calls && s.calls[id].DecideLoaded?
    requires s.db.Unchanged(s.calls[id].rid, s.calls[id].version)
    ensures var call := s.calls[id];
      Inv(c, Decided(c, s, id, call, Encode(c, Decode(c, call.f).(status := call.d))))
  {
    var call := s.calls[id];
    var f' := Encode(c, Decode(c, call.f).(status := call.d));
    assert CallOk(c, s, id, call);
    DecodeEncode(c, Decode(c, call.f).(status := call.d));
    var s' := Decided(c, s, id, call, f');
    forall rid | rid in s'.db.docs ensures DocOk(c, s', rid, s'.db.docs[rid].fields) {
      DecidedDoc(c, s, id, f', rid);
    }
    forall i | i in s'.calls ensures CallOk(c, s', i, s'.calls[i]) {
      DecidedCall(c, s, id, f', i);
    }
  }

  function Consumed(c: Codec, s: State, id: nat, call: Call): State
    requires call.ConsumeLoaded?
  {
    State(s.db.Delete(call.rid), s.calls[id := Granted(call.rid, call.clientId, Decode(c, call.f))],
          s.past.(consumer := s.past.consumer[call.rid := id]))
  }

  lemma ConsumedCall(c: Codec, s: State, id: nat, i: nat)
    requires Inv(c, s) && id in s.calls && s.calls[id].ConsumeLoaded? && i in s.calls
    requires s.db.Unchanged(s.calls[id].rid, s.calls[id].version)
    ensures var s' := Consumed(c, s, id, s.calls[id]); CallOk(c, s', i, s'.calls[i])
  {
    var rid := s.calls[id].rid;
    assert CallOk(c, s, id, s.calls[id]) && CallOk(c, s, i, s.calls[i]);
    assert DocOk(c, s, rid, s.db.docs[rid].fields);
  }

  lemma ConsumeKeepsInv(c: Codec, s: State, id: nat)
    requires Inv(c, s) && id in s.calls && s.calls[id].ConsumeLoaded?
    requires s.db.Unchanged(s.calls[id].rid, s.calls[id].version)
    ensures Inv(c, Consumed(c, s, id, s.calls[id]))
  {
    assert CallOk(c, s, id, s.calls[id]);
    var s' := Consumed(c, s, id, s.calls[id]);
    forall rid | rid in s'.db.docs ensures DocOk(c, s', rid, s'.db.docs[rid].fields) {
      assert DocOk(c, s, rid, s.db.docs[rid].fields);
    }
    forall i | i in s'.calls ensures CallOk(c, s', i, s'.calls[i]) {
      ConsumedCall(c, s, id, i);
    }
  }

  lemma CreateKeepsInv(c: Codec, s: State, e: Event)
    requires Inv(c, s) && e.Create? && e.rid !in s.past.created && Lossless(c, Made(e).expiresAt)
    ensures Inv(c, Apply(c, s, e))
  {
    var s' := Apply(c, s, e);
    DecodeEncode(c, Made(e));
    forall rid | rid in s'.db.docs ensures DocOk(c, s', rid, s'.db.docs[rid].fields) {
      assert rid != e.rid ==> DocOk(c, s, rid, s.db.docs[rid].fields);
    }
    forall i | i in s'.calls ensures CallOk(c, s', i, s'.calls[i]) {
      assert CallOk(c, s, i, s.calls[i]);
    }
  }

  lemma StepKeepsInv(c: Codec, s: State, id: nat, now: nat, verified: bool, pick: string)
    requires Inv(c, s) && id in s.calls
    ensures Inv(c, StepCall(c, s, id, now, verified, pick))
  {
    var call := s.calls[id];
    if call.DecideLoaded? && s.db.Unchanged(call.rid, call.version) {
      DecideKeepsInv(c, s, id);
    } else if call.ConsumeLoaded? && s.db.Unchanged(call.rid, call.version) {
      ConsumeKeepsInv(c, s, id);
    } else if call.Deleting? {
      QuietMove(c, s, id, Over);
      StoreShrinks(c, s.(calls := s.calls[id := Over]), s.db.Delete(call.rid));
    } else if call.Sweeping? {
      QuietMove(c, s, id, Sweeping(call.rids - {pick}));
      StoreShrinks(c, s.(calls := s.calls[id := Sweeping(call.rids - {pick})]), s.db.Delete(pick));
    } else if call.Won? {
      assert s.calls[id := call] == s.calls;
    } else {
      QuietMove(c, s, id, Over);
      ReadKeepsCall(c, s, id, now, verified);
      QuietMove(c, s, id, AfterRead(c, s, call, now, verified));
    }
  }

  lemma ApplyKeepsInv(c: Codec, s: State, e: Event)
    requires Inv(c, s) && (e.Create? ==> Lossless(c, Made(e).expiresAt))
    ensures Inv(c, Apply(c, s, e))
  {
    match e
    case Create(rid, _, _, _, _, _, _) => if rid !in s.past.created { CreateKeepsInv(c, s, e); }
    case BeginApprove(id, rid, account) => if id !in s.calls { QuietMove(c, s, id, Approve(rid, account)); }
    case BeginReject(id, rid) => if id !in s.calls { QuietMove(c, s, id, Reject(rid)); }
    case BeginPoll(id, rid, clientId) => if id !in s.calls { QuietMove(c, s, id, Poll(rid, clientId)); }
    case BeginSweep(id, account) => if id !in s.calls { QuietMove(c, s, id, Sweep(account)); }
    case Step(id, now, verified, pick) => if id in s.calls { StepKeepsInv(c, s, id, now, verified, pick); }
    case Remove(rid) => StoreShrinks(c, s, s.db.Delete(rid));
    case WriteElsewhere => StoreShrinks(c, s, s.db.(version := s.db.version + 1));
  }

  /** The stored expiry texts of all created requests read back as written. */
  predicate ClockInRange(c: Codec, es: seq<Event>) {
    forall i :: 0 <= i < |es| && es[i].Create? ==> Lossless(c, Made(es[i]).expiresAt)
  }

  lemma {:induction false} RunKeepsInv(c: Codec, es: seq<Event>)
    requires ClockInRange(c, es)
    ensures Inv(c, Run(c, Start, es))
  {
    if es != [] {
      RunKeepsInv(c, es[..|es| - 1]);
      ApplyKeepsInv(c, Run(c, Start, es[..|es| - 1]), es[|es| - 1]);
    }
  }

  // ----- Main results, over every interleaving -----

  /** At most one decision leaves Pending, and at most one poll gets tokens, per request. */
  lemma OneDecisionOneGrant(c: Codec, es: seq<Event>, i: nat, j: nat)
    requires ClockInRange(c, es)
    requires i in Run(c, Start, es).calls && j in Run(c, Start, es).calls
    requires var a, b := Run(c, Start, es).calls[i], Run(c, Start, es).calls[j];
      ((a.Won? && b.Won?) || (a.Granted? && b.Granted?)) && a.rid == b.rid
    ensures i == j
  {
    RunKeepsInv(c, es);
    var s := Run(c, Start, es);
    assert CallOk(c, s, i, s.calls[i]) && CallOk(c, s, j, s.calls[j]);
  }

  /** Tokens are issued only after a winning approval by the request's own account, only to the client
      that made the request, and from exactly what was created: client, account, scope, message, expiry
      and non-empty details. */
  lemma BindingIntegrity(c: Codec, es: seq<Event>, i: nat)
    requires ClockInRange(c, es) && i in Run(c, Start, es).calls && Run(c, Start, es).calls[i].Granted?
    ensures var g := Run(c, Start, es).calls[i];
      exists k :: 0 <= k < |es| && es[k].Create? && es[k].rid == g.rid && es[k].clientId == g.clientId &&
        g.req == Req(es[k].clientId, es[k].account, es[k].scope, es[k].message, Approved,
                     es[k].now + TTL, NonEmpty(es[k].details))
    ensures var calls := Run(c, Start, es).calls;
      exists j :: j in calls && calls[j] == Won(calls[i].rid, Some(calls[i].req.account), Approved)
  {
    RunKeepsInv(c, es);
    var s := Run(c, Start, es);
    var g := s.calls[i];
    assert CallOk(c, s, i, g);
    var j := s.past.decider[g.rid];
    assert CallOk(c, s, j, s.calls[j]);
    assert s.calls[j] == Won(g.rid, Some(g.req.account), Approved);
    var k := CreatedByEvent(c, es, g.rid);
    assert es[k].Create? && es[k].rid == g.rid;
  }

  lemma {:induction false} CreatedByEvent(c: Codec, es: seq<Event>, rid: string) returns (k: nat)
    requires rid in Run(c, Start, es).past.created
    ensures k < |es| && es[k].Create? && es[k].rid == rid && Made(es[k]) == Run(c, Start, es).past.created[rid]
  {
    var before := es[..|es| - 1];
    if rid in Run(c, Start, before).past.created {
      k := CreatedByEvent(c, before, rid);
      CreatedStays(c, Run(c, Start, before), es[|es| - 1], rid);
    } else {
      k := |es| - 1;
      CreatingEvent(c, Run(c, Start, before), es[k], rid);
    }
  }

  lemma CreatedStays(c: Codec, s: State, e: Event, rid: string)
    requires rid in s.past.created
    ensures rid in Apply(c, s, e).past.created && Apply(c, s, e).past.created[rid] == s.past.created[rid]
  {}

  lemma CreatingEvent(c: Codec, s: State, e: Event, rid: string)
    requires rid !in s.past.created && rid in Apply(c, s, e).past.created
    ensures e.Create? && e.rid == rid && Apply(c, s, e).past.created[rid] == Made(e)
  {}

  // ----- Nothing is approved or granted late -----

  lemma StoredExpiry(c: Codec, s: State, rid: string)
    requires Inv(c, s) && rid in s.db.docs
    ensures rid in s.past.created && Decode(c, s.db.docs[rid].fields).expiresAt == s.past.created[rid].expiresAt
  {
    assert DocOk(c, s, rid, s.db.docs[rid].fields);
  }

  /** The n-th event is the step in which this call read its request, no later than the request's expiry. */
  ghost predicate ReadInTime(c: Codec, es: seq<Event>, n: nat, id: nat, call: Call, expiresAt: nat) {
    && n < |es| && es[n].Step? && es[n].id == id && es[n].now <= expiresAt
    && id in Run(c, Start, es[..n]).calls && Run(c, Start, es[..n]).calls[id] == call
  }

  predicate PastPoll(call: Call) {
    call.Consume? || call.ConsumeLoaded? || call.Granted?
  }

  predicate PastApproval(call: Call) {
    (call.Decide? || call.DecideLoaded? || call.Won?) && call.approver.Some?
  }

  /** An event moves at most the call it steps. */
  lemma OnlyOwnStepMoves(c: Codec, s: State, e: Event, id: nat)
    requires id in Apply(c, s, e).calls
    ensures if id !in s.calls then !PastPoll(Apply(c, s, e).calls[id]) && !PastApproval(Apply(c, s, e).calls[id])
            else (e.Step? && e.id == id) || Apply(c, s, e).calls[id] == s.calls[id]
  {}

  lemma StepPastPoll(c: Codec, s: State, id: nat, now: nat, verified: bool, pick: string)
    requires id in s.calls
    ensures var call, call' := s.calls[id], StepCall(c, s, id, now, verified, pick).calls[id];
      PastPoll(call') ==> (PastPoll(call) || (call.Poll? && call.rid in s.db.docs &&
                                              now <= Decode(c, s.db.docs[call.rid].fields).expiresAt)) &&
                          call'.rid == call.rid && call'.clientId == call.clientId
  {}

  lemma StepPastApproval(c: Codec, s: State, id: nat, now: nat, verified: bool, pick: string)
    requires id in s.calls
    ensures var call, call' := s.calls[id], StepCall(c, s, id, now, verified, pick).calls[id];
      PastApproval(call') ==>
        call'.rid == call.rid &&
        ((PastApproval(call) && call'.approver == call.approver) ||
         (call.Approve? && call'.approver == Some(call.account) && verified && call.rid in s.db.docs &&
          now <= Decode(c, s.db.docs[call.rid].fields).expiresAt))
  {}

  /** A call past its read got there before this event, or by this event being its read. */
  lemma PollStep(c: Codec, s: State, e: Event, id: nat)
    requires Inv(c, s) && id in Apply(c, s, e).calls && PastPoll(Apply(c, s, e).calls[id])
    ensures id in s.calls && (PastPoll(s.calls[id]) || s.calls[id].Poll?)
    ensures Apply(c, s, e).calls[id].rid == s.calls[id].rid
    ensures Apply(c, s, e).calls[id].clientId == s.calls[id].clientId
    ensures s.calls[id].Poll? ==> e.Step? && e.id == id && s.calls[id].rid in s.past.created &&
                                  e.now <= s.past.created[s.calls[id].rid].expiresAt
  {
    OnlyOwnStepMoves(c, s, e, id);
    if e.Step? && e.id == id && id in s.calls {
      StepPastPoll(c, s, id, e.now, e.verified, e.pick);
      if s.calls[id].Poll? { StoredExpiry(c, s, s.calls[id].rid); }
    }
  }

  lemma ApprovalStep(c: Codec, s: State, e: Event, id: nat)
    requires Inv(c, s) && id in Apply(c, s, e).calls && PastApproval(Apply(c, s, e).calls[id])
    ensures id in s.calls && (PastApproval(s.calls[id]) || s.calls[id].Approve?)
    ensures Apply(c, s, e).calls[id].rid == s.calls[id].rid
    ensures PastApproval(s.calls[id]) ==> Apply(c, s, e).calls[id].approver == s.calls[id].approver
    ensures s.calls[id].Approve? ==>
              Apply(c, s, e).calls[id].approver == Some(s.calls[id].account) && e.Step? && e.id == id && e.verified &&
              s.calls[id].rid in s.past.created && e.now <= s.past.created[s.calls[id].rid].expiresAt
  {
    OnlyOwnStepMoves(c, s, e, id);
    if e.Step? && e.id == id && id in s.calls {
      StepPastApproval(c, s, id, e.now, e.verified, e.pick);
      if s.calls[id].Approve? { StoredExpiry(c, s, s.calls[id].rid); }
    }
  }

  lemma {:induction false} PolledInTime(c: Codec, es: seq<Event>, id: nat) returns (n: nat)
    requires ClockInRange(c, es) && id in Run(c, Start, es).calls && PastPoll(Run(c, Start, es).calls[id])
    ensures var call := Run(c, Start, es).calls[id];
      call.rid in Run(c, Start, es).past.created &&
      ReadInTime(c, es, n, id, Poll(call.rid, call.clientId), Run(c, Start, es).past.created[call.rid].expiresAt)
  {
    var before, e := es[..|es| - 1], es[|es| - 1];
    RunKeepsInv(c, before);
    var s := Run(c, Start, before);
    PollStep(c, s, e, id);
    if PastPoll(s.calls[id]) {
      n := PolledInTime(c, before, id);
      assert before[..n] == es[..n];
    } else {
      n := |es| - 1;
    }
    CreatedStays(c, s, e, s.calls[id].rid);
  }

  lemma {:induction false} ApprovedInTime(c: Codec, es: seq<Event>, id: nat) returns (n: nat)
    requires ClockInRange(c, es) && id in Run(c, Start, es).calls && PastApproval(Run(c, Start, es).calls[id])
    ensures var call := Run(c, Start, es).calls[id];
      call.rid in Run(c, Start, es).past.created &&
      ReadInTime(c, es, n, id, Approve(call.rid, call.approver.value),
                 Run(c, Start, es).past.created[call.rid].expiresAt) && es[n].verified
  {
    var before, e := es[..|es| - 1], es[|es| - 1];
    RunKeepsInv(c, before);
    var s := Run(c, Start, before);
    ApprovalStep(c, s, e, id);
    if PastApproval(s.calls[id]) {
      n := ApprovedInTime(c, before, id);
      assert before[..n] == es[..n];
    } else {
      n := |es| - 1;
    }
    CreatedStays(c, s, e, s.calls[id].rid);
  }

  /** Whoever is granted tokens read the request, and was approved by a call that read it with a verified
      passkey, each no later than 300 seconds after the request was made. */
  lemma GrantedInTime(c: Codec, es: seq<Event>, i: nat) returns (made: nat, polled: nat, j: nat, approved: nat)
    requires ClockInRange(c, es) && i in Run(c, Start, es).calls && Run(c, Start, es).calls[i].Granted?
    ensures var g := Run(c, Start, es).calls[i];
      && made < |es| && es[made].Create? && es[made].rid == g.rid
      && ReadInTime(c, es, polled, i, Poll(g.rid, g.clientId), es[made].now + 300)
      && j in Run(c, Start, es).calls && Run(c, Start, es).calls[j] == Won(g.rid, Some(g.req.account), Approved)
      && ReadInTime(c, es, approved, j, Approve(g.rid, g.req.account), es[made].now + 300) && es[approved].verified
  {
    RunKeepsInv(c, es);
    var s := Run(c, Start, es);
    assert CallOk(c, s, i, s.calls[i]);
    made := CreatedByEvent(c, es, s.calls[i].rid);
    polled := PolledInTime(c, es, i);
    j := s.past.decider[s.calls[i].rid];
    assert CallOk(c, s, j, s.calls[j]);
    approved := ApprovedInTime(c, es, j);
  }

  // ----- One call run alone, from any state -----

  /** The first event, then `n` steps of the call at the same second. */
  function Alone(c: Codec, s: State, begin: Event, id: nat, now: nat, verified: bool, n: nat): State {
    if n == 0 then Apply(c, s, begin)
    else Apply(c, Alone(c, s, begin, id, now, verified, n - 1), Step(id, now, verified, ""))
  }

  function Repeated(e: Event, n: nat): seq<Event> {
    seq(n, _ => e)
  }

  lemma {:induction false} AloneIsARun(c: Codec, s: State, begin: Event, id: nat, now: nat, verified: bool, n: nat)
    ensures Alone(c, s, begin, id, now, verified, n) ==
            Run(c, s, [begin] + Repeated(Step(id, now, verified, ""), n))
  {
    var e := Step(id, now, verified, "");
    var es := [begin] + Repeated(e, n);
    if n == 0 {
      assert es == [begin] && es[..0] == [];
    } else {
      AloneIsARun(c, s, begin, id, now, verified, n - 1);
      assert es[..|es| - 1] == [begin] + Repeated(e, n - 1) && es[|es| - 1] == e;
    }
  }

  /** A poll, run alone: expired and denied requests are deleted, pending ones left alone, and only an approved,
      unexpired one of the client's own is granted, and deleted with that. */
  lemma PollAlone(c: Codec, s: State, id: nat, rid: string, clientId: string, now: nat)
    requires id !in s.calls
    ensures var s' := Alone(c, s, BeginPoll(id, rid, clientId), id, now, false, 3);
      var own := rid in s.db.docs && Decode(c, s.db.docs[rid].fields).clientId == clientId;
      id in s'.calls &&
      if !own then s'.calls[id] == Over && s'.db.docs == s.db.docs
      else
        var req := Decode(c, s.db.docs[rid].fields);
        if req.expiresAt < now || req.status == Denied then s'.calls[id] == Over && s'.db.docs == s.db.docs - {rid}
        else if req.status == Pending then s'.calls[id] == Over && s'.db.docs == s.db.docs
        else s'.calls[id] == Granted(rid, clientId, req) && s'.db.docs == s.db.docs - {rid}
  {
    var begin := BeginPoll(id, rid, clientId);
    var s0, s1 := Alone(c, s, begin, id, now, false, 0), Alone(c, s, begin, id, now, false, 1);
    assert s0 == s.(calls := s.calls[id := Poll(rid, clientId)]);
    PollReads(c, s0, id, rid, clientId, now);
    assert s1 == Apply(c, s0, Step(id, now, false, ""));
    AloneMore(c, s, begin, id, now, false);
    if s1.calls[id] == Over {
      OverStays(c, s1, id, now, false);
    } else if s1.calls[id] == Deleting(rid) {
      DeletesNext(c, s1, id, rid, now);
    } else {
      ConsumesNext(c, s1, id, rid, clientId, now);
    }
  }

  lemma PollReads(c: Codec, s: State, id: nat, rid: string, clientId: string, now: nat)
    requires id in s.calls && s.calls[id] == Poll(rid, clientId)
    ensures var s1 := Apply(c, s, Step(id, now, false, ""));
      var own := rid in s.db.docs && Decode(c, s.db.docs[rid].fields).clientId == clientId;
      id in s1.calls && s1.db == s.db &&
      s1.calls[id] ==
        if !own then Over
        else
          var req := Decode(c, s.db.docs[rid].fields);
          if req.expiresAt < now || req.status == Denied then Deleting(rid)
          else if req.status == Pending then Over else Consume(rid, clientId)
  {}

  lemma DeletesNext(c: Codec, s: State, id: nat, rid: string, now: nat)
    requires id in s.calls && s.calls[id] == Deleting(rid)
    ensures var s' := TwoMore(c, s, id, now, false);
      id in s'.calls && s'.calls[id] == Over && s'.db.docs == s.db.docs - {rid}
  {}

  lemma ConsumesNext(c: Codec, s: State, id: nat, rid: string, clientId: string, now: nat)
    requires id in s.calls && s.calls[id] == Consume(rid, clientId)
    requires rid in s.db.docs && Decode(c, s.db.docs[rid].fields).status == Approved
    ensures var s' := TwoMore(c, s, id, now, false);
      id in s'.calls && s'.calls[id] == Granted(rid, clientId, Decode(c, s.db.docs[rid].fields)) &&
      s'.db.docs == s.db.docs - {rid}
  {
    var d := s.db.docs[rid];
    var s1 := Apply(c, s, Step(id, now, false, ""));
    assert s1.calls[id] == ConsumeLoaded(rid, clientId, d.fields, d.version) && s1.db == s.db;
  }

  /** An approval, run alone, wins exactly on the account's own pending, unexpired request with a verified
      passkey, and then only the status changes. */
  lemma ApproveAlone(c: Codec, s: State, id: nat, rid: string, account: string, now: nat, verified: bool)
    requires id !in s.calls
    requires rid in s.db.docs ==> Lossless(c, Decode(c, s.db.docs[rid].fields).expiresAt)
    ensures var s' := Alone(c, s, BeginApprove(id, rid, account), id, now, verified, 3);
      var wins := rid in s.db.docs && verified &&
        (var req := Decode(c, s.db.docs[rid].fields);
         req.account == account && now <= req.expiresAt && req.status == Pending);
      id in s'.calls && (s'.calls[id] == if wins then Won(rid, Some(account), Approved) else Over) &&
      (!wins ==> s'.db.docs == s.db.docs) &&
      (wins ==> rid in s'.db.docs && s'.db.docs - {rid} == s.db.docs - {rid} &&
                Decode(c, s'.db.docs[rid].fields) == Decode(c, s.db.docs[rid].fields).(status := Approved))
  {
    var begin := BeginApprove(id, rid, account);
    var s0, s1 := Alone(c, s, begin, id, now, verified, 0), Alone(c, s, begin, id, now, verified, 1);
    assert s0 == s.(calls := s.calls[id := Approve(rid, account)]);
    assert s1 == Apply(c, s0, Step(id, now, verified, ""));
    AloneMore(c, s, begin, id, now, verified);
    if s1.calls[id] == Over {
      OverStays(c, s1, id, now, verified);
    } else {
      DecidesNext(c, s1, id, rid, Some(account), Approved, now, verified);
    }
  }

  /** A rejection, run alone, wins exactly on a pending, unexpired request. */
  lemma RejectAlone(c: Codec, s: State, id: nat, rid: string, now: nat)
    requires id !in s.calls
    requires rid in s.db.docs ==> Lossless(c, Decode(c, s.db.docs[rid].fields).expiresAt)
    ensures var s' := Alone(c, s, BeginReject(id, rid), id, now, false, 3);
      var wins := rid in s.db.docs &&
        (var req := Decode(c, s.db.docs[rid].fields); now <= req.expiresAt && req.status == Pending);
      id in s'.calls && (s'.calls[id] == if wins then Won(rid, None, Denied) else Over) &&
      (!wins ==> s'.db.docs == s.db.docs) &&
      (wins ==> rid in s'.db.docs && s'.db.docs - {rid} == s.db.docs - {rid} &&
                Decode(c, s'.db.docs[rid].fields) == Decode(c, s.db.docs[rid].fields).(status := Denied))
  {
    var begin := BeginReject(id, rid);
    var s0, s1 := Alone(c, s, begin, id, now, false, 0), Alone(c, s, begin, id, now, false, 1);
    assert s0 == s.(calls := s.calls[id := Reject(rid)]);
    assert s1 == Apply(c, s0, Step(id, now, false, ""));
    AloneMore(c, s, begin, id, now, false);
    if s1.calls[id] == Over {
      OverStays(c, s1, id, now, false);
    } else {
      DecidesNext(c, s1, id, rid, None, Denied, now, false);
    }
  }

  /** A sweep picks exactly the account's pending requests past their expiry, and deletes nothing else. */
  lemma SweepPicksTheDue(c: Codec, s: State, id: nat, account: string, now: nat, pick: string)
    requires id !in s.calls
    ensures var s1 := Alone(c, s, BeginSweep(id, account), id, now, false, 1);
      var s2 := Apply(c, s1, Step(id, now, false, pick));
      var due := set rid | rid in s.db.docs &&
        (var req := Decode(c, s.db.docs[rid].fields);
         req.account == account && req.status == Pending && req.expiresAt < now);
      s1.db == s.db && id in s1.calls && s1.calls[id] == Sweeping(due) &&
      s2.db.docs == if pick in due then s.db.docs - {pick} else s.db.docs
  {
    var s0 := Alone(c, s, BeginSweep(id, account), id, now, false, 0);
    assert s0.calls[id] == Sweep(account) && s0.db == s.db;
  }

  function TwoMore(c: Codec, s: State, id: nat, now: nat, verified: bool): State {
    Apply(c, Apply(c, s, Step(id, now, verified, "")), Step(id, now, verified, ""))
  }

  lemma AloneMore(c: Codec, s: State, begin: Event, id: nat, now: nat, verified: bool)
    ensures Alone(c, s, begin, id, now, verified, 3) ==
            TwoMore(c, Alone(c, s, begin, id, now, verified, 1), id, now, verified)
  {
    var s2 := Alone(c, s, begin, id, now, verified, 2);
    assert s2 == Apply(c, Alone(c, s, begin, id, now, verified, 1), Step(id, now, verified, ""));
  }

  lemma OverStays(c: Codec, s: State, id: nat, now: nat, verified: bool)
    requires id in s.calls && s.calls[id] == Over
    ensures TwoMore(c, s, id, now, verified).db == s.db && id in TwoMore(c, s, id, now, verified).calls
    ensures TwoMore(c, s, id, now, verified).calls[id] == Over
  {}

  /** The store call of a decision: read with version, then write if unchanged. */
  lemma DecidesNext(c: Codec, s: State, id: nat, rid: string, approver: Option<string>, d: Decision, now: nat,
                    verified: bool)
    requires id in s.calls && s.calls[id] == Decide(rid, approver, d) && d != Pending
    requires rid in s.db.docs ==> Lossless(c, Decode(c, s.db.docs[rid].fields).expiresAt)
    ensures var s' := TwoMore(c, s, id, now, verified);
      var wins := rid in s.db.docs && Decode(c, s.db.docs[rid].fields).status == Pending;
      id in s'.calls && (s'.calls[id] == if wins then Won(rid, approver, d) else Over) &&
      (!wins ==> s'.db.docs == s.db.docs) &&
      (wins ==> rid in s'.db.docs && s'.db.docs - {rid} == s.db.docs - {rid} &&
                Decode(c, s'.db.docs[rid].fields) == Decode(c, s.db.docs[rid].fields).(status := d))
  {
    DecideReads(c, s, id, rid, approver, d, now, verified);
    var s1 := Apply(c, s, Step(id, now, verified, ""));
    if s1.calls[id].DecideLoaded? {
      DecideWrites(c, s1, id, now, verified);
      DecidedContent(c, s.db.docs[rid].fields, d);
    }
  }

  lemma DecideReads(c: Codec, s: State, id: nat, rid: string, approver: Option<string>, d: Decision, now: nat,
                    verified: bool)
    requires id in s.calls && s.calls[id] == Decide(rid, approver, d)
    ensures var s1 := Apply(c, s, Step(id, now, verified, ""));
      id in s1.calls && s1.db == s.db &&
      s1.calls[id] ==
        if rid in s.db.docs && Decode(c, s.db.docs[rid].fields).status == Pending
        then DecideLoaded(rid, approver, d, s.db.docs[rid].fields, s.db.docs[rid].version) else Over
  {}

  lemma DecideWrites(c: Codec, s: State, id: nat, now: nat, verified: bool)
    requires id in s.calls && s.calls[id].DecideLoaded? && s.db.Unchanged(s.calls[id].rid, s.calls[id].version)
    ensures var call, s1 := s.calls[id], Apply(c, s, Step(id, now, verified, ""));
      id in s1.calls && s1.calls[id] == Won(call.rid, call.approver, call.d) &&
      s1.db == s.db.Put(call.rid, Encode(c, Decode(c, call.f).(status := call.d)))
  {}

  lemma DecidedContent(c: Codec, f: Fields, d: Decision)
    requires Lossless(c, Decode(c, f).expiresAt)
    ensures Decode(c, Encode(c, Decode(c, f).(status := d))) == Decode(c, f).(status := d)
  {
    var req := Decode(c, f).(status := d);
    DecodeEncode(c, req);
    assert NonEmpty(req.details) == req.details;
  }

  const Stamps := Codec(Rfc3339.Print, Rfc3339.Parse)

  lemma StampIsLossless(t: nat)
    requires t < Rfc3339.YEAR_10000
    ensures Lossless(Stamps, t)
  {
    Rfc3339.RoundTrip(t);
  }

  /** The hypothesis of the results above holds of the real timestamp text until the end of year 9999. */
  lemma {:induction false} StampsInRange(es: seq<Event>)
    requires forall i :: 0 <= i < |es| && es[i].Create? ==> Made(es[i]).expiresAt < Rfc3339.YEAR_10000
    ensures ClockInRange(Stamps, es)
  {
    if es != [] {
      StampsInRange(es[1..]);
      if es[0].Create? {
        StampIsLossless(Made(es[0]).expiresAt);
      }
      assert forall i :: 0 < i < |es| ==> es[i] == es[1..][i - 1];
    }
  }

  // ----- The calls on the server, run alone -----

  method TransitionIfPending(server: DocumentServer<string, Fields>, c: Codec, rid: string, d: Decision)
    returns (won: bool)
    modifies server
    ensures won <==> rid in old(server.docs) && Decode(c, old(server.docs)[rid].fields).status == Pending
    ensures server.State() ==
      if won then old(server.State()).Put(rid, Encode(c, Decode(c, old(server.docs)[rid].fields).(status := d)))
      else old(server.State())
  {
    var read := server.GetDoc(rid);
    if read.None? {
      return false;
    }
    var req := Decode(c, read.value.fields);
    if req.status != Pending {
      return false;
    }
    won := server.SetDocIfUnchanged(rid, Encode(c, req.(status := d)), read.value.version);
  }

  method ConsumeIfApproved(server: DocumentServer<string, Fields>, c: Codec, rid: string) returns (r: Option<Req>)
    modifies server
    ensures r.Some? <==> rid in old(server.docs) && Decode(c, old(server.docs)[rid].fields).status == Approved
    ensures r.Some? ==> r.value == Decode(c, old(server.docs)[rid].fields)
    ensures server.State() == if r.Some? then old(server.State()).Delete(rid) else old(server.State())
  {
    var read := server.GetDoc(rid);
    if read.None? {
      return None;
    }
    var req := Decode(c, read.value.fields);
    if req.status != Approved {
      return None;
    }
    var won := server.DeleteDocIfUnchanged(rid, read.value.version);
    r := if won then Some(req) else None;
  }

  /** A pending request of this account whose time is up. */
  predicate Due(c: Codec, f: Fields, account: string, now: nat) {
    var req := Decode(c, f);
    req.account == account && req.status == Pending && Expired(req, now)
  }

  function DueIds(c: Codec, docs: map<string, Doc<Fields>>, account: string, now: nat): set<string> {
    set rid | rid in docs && Due(c, docs[rid].fields, account, now)
  }

  /** Removes exactly the requests that are due, and counts them. */
  method SweepExpired(server: DocumentServer<string, Fields>, c: Codec, account: string, now: nat) returns (n: nat)
    modifies server
    ensures server.docs == old(server.docs) - DueIds(c, old(server.docs), account, now)
    ensures n == |DueIds(c, old(server.docs), account, now)|
  {
    var due := DueIds(c, server.docs, account, now);
    n := RemoveAll(server, due);
  }

  method RemoveAll(server: DocumentServer<string, Fields>, ids: set<string>) returns (n: nat)
    modifies server
    ensures server.docs == old(server.docs) - ids && n == |ids|
  {
    var todo := ids;
    n := 0;
    while todo != {}
      invariant todo <= ids && n + |todo| == |ids|
      invariant server.docs == old(server.docs) - (ids - todo)
      decreases |todo|
    {
      var rid :| rid in todo;
      server.RemoveDoc(rid);
      assert ids - (todo - {rid}) == (ids - todo) + {rid};
      todo := todo - {rid};
      n := n + 1;
    }
    assert ids - todo == ids;
  }
}
