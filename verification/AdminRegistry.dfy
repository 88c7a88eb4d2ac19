/** The administrator list, kept whole in one document (src/admin_store.rs).

    A grant or a revoke reads the document, decides on what it read, and writes back only if nobody
    wrote in between. Any number of them run at once; `Apply` takes one atomic request of one of them. */
module AdminRegistry {
  import opened Documents

  datatype Entry = Entry(account: string, grantedBy: string, grantedAt: nat)

  /** The JSON list, read back without loss. */
  type Registry = seq<Entry>

  const REGISTRY := "_registry"

  predicate Listed(entries: Registry, account: string) {
    exists i :: 0 <= i < |entries| && entries[i].account == account
  }

  function Without(entries: Registry, account: string): Registry {
    if entries == [] then []
    else (if entries[0].account != account then [entries[0]] else []) + Without(entries[1..], account)
  }

  datatype RevokeResult = Revoked | NotAdmin | LastAdminGuard | RevokeConflict

  function DecideRevoke(entries: Registry, target: string): RevokeResult {
    if !Listed(entries, target) then NotAdmin
    else if |entries| <= 1 then LastAdminGuard
    else Revoked
  }

  datatype GrantResult = Granted | AlreadyAdmin | GrantConflict

  // ----- Calls in flight -----

  datatype Call =
    | GrantStarted(account: string, grantor: string)
    | GrantLoaded(account: string, grantor: string, entries: Registry, version: Option<nat>)
    | GrantDone(account: string, granted: GrantResult)
    | RevokeStarted(account: string)
    | RevokeLoaded(account: string, entries: Registry, version: Option<nat>)
    | RevokeDone(account: string, revoked: RevokeResult)
    | RevokeInconsistent(account: string)

  datatype State = State(db: Db<string, Registry>, calls: map<nat, Call>)

  datatype Event =
    | BeginGrant(id: nat, account: string, grantor: string)
    | BeginRevoke(id: nat, account: string)
    | Load(id: nat)
    | Commit(id: nat, now: nat)
    | WriteElsewhere   // another collection moves the shared version counter

  /** `load_registry`: a missing document reads as an empty list without a version. */
  function LoadRegistry(db: Db<string, Registry>): (Registry, Option<nat>) {
    if REGISTRY in db.docs then (db.docs[REGISTRY].fields, Some(db.docs[REGISTRY].version)) else ([], None)
  }

  function AfterLoad(c: Call, read: (Registry, Option<nat>)): Call {
    match c
    case GrantStarted(a, grantor) =>
      if Listed(read.0, a) then GrantDone(a, AlreadyAdmin) else GrantLoaded(a, grantor, read.0, read.1)
    case RevokeStarted(a) =>
      var d := DecideRevoke(read.0, a);
      if d != Revoked then RevokeDone(a, d)
      else if read.1.None? then RevokeInconsistent(a)
      else RevokeLoaded(a, read.0, read.1)
    case _ => c
  }

  function CommitCall(db: Db<string, Registry>, c: Call, now: nat): (Db<string, Registry>, Call) {
    match c
    case GrantLoaded(a, grantor, entries, version) =>
      var next := entries + [Entry(a, grantor, now)];
      (match version
       case Some(v) =>
         (db.PutIfUnchanged(REGISTRY, next, v),
          GrantDone(a, if db.Unchanged(REGISTRY, v) then Granted else GrantConflict))
       case None =>
         (db.CreateIfAbsent(REGISTRY, next), GrantDone(a, if REGISTRY !in db.docs then Granted else GrantConflict)))
    case RevokeLoaded(a, entries, Some(v)) =>
      (db.PutIfUnchanged(REGISTRY, Without(entries, a), v),
       RevokeDone(a, if db.Unchanged(REGISTRY, v) then Revoked else RevokeConflict))
    case _ => (db, c)
  }

  function Apply(s: State, e: Event): State {
    match e
    case BeginGrant(id, a, grantor) => if id in s.calls then s else s.(calls := s.calls[id := GrantStarted(a, grantor)])
    case BeginRevoke(id, a) => if id in s.calls then s else s.(calls := s.calls[id := RevokeStarted(a)])
    case Load(id) =>
      if id !in s.calls then s else s.(calls := s.calls[id := AfterLoad(s.calls[id], LoadRegistry(s.db))])
    case Commit(id, now) =>
      if id !in s.calls then s
      else var r := CommitCall(s.db, s.calls[id], now); State(r.0, s.calls[id := r.1])
    case WriteElsewhere => s.(db := s.db.(version := s.db.version + 1))
  }

  function Run(s: State, es: seq<Event>): State {
    if es == [] then s else Apply(Run(s, es[..|es| - 1]), es[|es| - 1])
  }

  // ----- Invariant -----

  predicate Distinct(entries: Registry) {
    forall i, j :: 0 <= i < j < |entries| ==> entries[i].account != entries[j].account
  }

  function Admins(s: State): Registry {
    LoadRegistry(s.db).0
  }

  ghost predicate CallOk(db: Db<string, Registry>, c: Call) {
    match c
    case GrantLoaded(a, _, entries, version) =>
      Distinct(entries) && !Listed(entries, a) &&
      (version.None? ==> entries == []) && (version.Some? ==> db.Saw(REGISTRY, entries, version.value))
    case RevokeLoaded(a, entries, version) =>
      Distinct(entries) && DecideRevoke(entries, a) == Revoked &&
      version.Some? && db.Saw(REGISTRY, entries, version.value)
    case RevokeInconsistent(_) => false
    case _ => true
  }

  ghost predicate Inv(s: State) {
    && s.db.Valid()
    && (REGISTRY in s.db.docs ==> Admins(s) != [] && Distinct(Admins(s)))
    && (forall id :: id in s.calls ==> CallOk(s.db, s.calls[id]))
  }

  lemma {:induction false} WithoutKeepsOthers(entries: Registry, account: string)
    ensures forall e :: e in Without(entries, account) <==> e in entries && e.account != account
    ensures Distinct(entries) ==> Distinct(Without(entries, account))
  {
    if entries != [] {
      WithoutKeepsOthers(entries[1..], account);
      if Distinct(entries) {
        assert Distinct(entries[1..]);
        var rest := Without(entries[1..], account);
        forall j | 0 <= j < |rest| ensures rest[j].account != entries[0].account {
          assert rest[j] in entries[1..];
        }
      }
    }
  }

  /** Without the no-duplicates invariant the length guard is not enough: a permitted revoke
      empties the list exactly when every entry is the target's. */
  lemma RevokeEmptiesOnlyDuplicates(entries: Registry, account: string)
    requires DecideRevoke(entries, account) == Revoked
    ensures Without(entries, account) == [] <==> forall e :: e in entries ==> e.account == account
    ensures Distinct(entries) ==> Without(entries, account) != []
  {
    WithoutKeepsOthers(entries, account);
    if Without(entries, account) != [] {
      assert Without(entries, account)[0] in Without(entries, account);
    }
    if Distinct(entries) {
      assert entries[0].account != entries[1].account;
      assert entries[0] in entries && entries[1] in entries;
    }
  }

  lemma CommitKeepsCalls(db: Db<string, Registry>, c: Call, now: nat, other: Call)
    requires db.Valid() && CallOk(db, c) && CallOk(db, other)
    ensures CallOk(CommitCall(db, c, now).0, other)
  {}

  lemma CommitKeepsRegistry(s: State, id: nat, now: nat)
    requires Inv(s) && id in s.calls
    ensures var s' := Apply(s, Commit(id, now));
      REGISTRY in s'.db.docs ==> Admins(s') != [] && Distinct(Admins(s'))
  {
    match s.calls[id]
    case RevokeLoaded(a, entries, _) =>
      WithoutKeepsOthers(entries, a);
      RevokeEmptiesOnlyDuplicates(entries, a);
    case _ =>
  }

  lemma ApplyKeepsInv(s: State, e: Event)
    requires Inv(s)
    ensures Inv(Apply(s, e))
  {
    match e
    case Commit(id, now) =>
      if id in s.calls {
        CommitKeepsRegistry(s, id, now);
        forall other | other in s.calls ensures CallOk(CommitCall(s.db, s.calls[id], now).0, s.calls[other]) {
          CommitKeepsCalls(s.db, s.calls[id], now, s.calls[other]);
        }
      }
    case _ =>
  }

  lemma {:induction false} RunKeepsInv(s: State, es: seq<Event>)
    requires Inv(s)
    ensures Inv(Run(s, es))
  {
    if es != [] {
      RunKeepsInv(s, es[..|es| - 1]);
      ApplyKeepsInv(Run(s, es[..|es| - 1]), es[|es| - 1]);
    }
  }

  // ----- Main results -----

  const Start := State(Db(map[], 0), map[])

  /** Over every interleaving: once there is an administrator there always is one, nobody is listed
      twice, and no revoke ever meets the state its code calls inconsistent. */
  lemma {:induction false} NeverEmptied(es: seq<Event>, n: nat)
    requires n <= |es|
    ensures var early, late := Run(Start, es[..n]), Run(Start, es);
      (Admins(early) != [] ==> Admins(late) != []) && Distinct(Admins(late)) &&
      forall id :: id in late.calls ==> !late.calls[id].RevokeInconsistent?
    decreases |es|
  {
    RunKeepsInv(Start, es);
    if n < |es| {
      var before := es[..|es| - 1];
      NeverEmptied(before, n);
      assert before[..n] == es[..n];
      RunKeepsInv(Start, before);
      ApplyKeepsInv(Run(Start, before), es[|es| - 1]);
    } else {
      assert es[..n] == es;
    }
  }

  function Accounts(entries: Registry): set<string> {
    set i | 0 <= i < |entries| :: entries[i].account
  }

  lemma AccountsOfWithout(entries: Registry, account: string)
    ensures Accounts(Without(entries, account)) == Accounts(entries) - {account}
  {
    WithoutKeepsOthers(entries, account);
    var kept := Without(entries, account);
    forall a | a in Accounts(kept) ensures a in Accounts(entries) - {account} {
      var i :| 0 <= i < |kept| && kept[i].account == a;
      assert kept[i] in kept && kept[i] in entries;
    }
    forall a | a in Accounts(entries) - {account} ensures a in Accounts(kept) {
      var i :| 0 <= i < |entries| && entries[i].account == a;
      assert entries[i] in entries && entries[i] in kept;
    }
  }

  /** At the moment a call commits, it acts on the current list as one indivisible set operation:
      success adds an absent account or removes one of several, anything else changes nothing. */
  lemma CommitIsAtomic(es: seq<Event>, id: nat, now: nat)
    requires id in Run(Start, es).calls
    ensures var s := Run(Start, es); var s' := Apply(s, Commit(id, now));
      var have, have' := Accounts(Admins(s)), Accounts(Admins(s'));
      match s.calls[id]
      case GrantLoaded(a, _, _, _) =>
        s'.calls[id].GrantDone? &&
        (s'.calls[id].granted == Granted ==> a !in have && have' == have + {a}) &&
        (s'.calls[id].granted != Granted ==> s'.db == s.db)
      case RevokeLoaded(a, _, _) =>
        s'.calls[id].RevokeDone? &&
        (s'.calls[id].revoked == Revoked ==> a in have && have' == have - {a} && have' != {}) &&
        (s'.calls[id].revoked != Revoked ==> s'.db == s.db)
      case _ => s'.db == s.db
  {
    var s := Run(Start, es);
    RunKeepsInv(Start, es);
    CommitKeepsRegistry(s, id, now);
    var s' := Apply(s, Commit(id, now));
    match s.calls[id]
    case GrantLoaded(a, grantor, entries, _) =>
      if s'.calls[id].granted == Granted {
        assert Admins(s) == entries && Admins(s') == entries + [Entry(a, grantor, now)];
        AccountsOfAppend(entries, Entry(a, grantor, now));
      }
    case RevokeLoaded(a, entries, _) =>
      if s'.calls[id].revoked == Revoked {
        assert Admins(s) == entries && Admins(s') == Without(entries, a);
        AccountsOfWithout(entries, a);
        assert Admins(s')[0].account in Accounts(Admins(s'));
      }
    case _ =>
  }

  lemma AccountsOfAppend(entries: Registry, e: Entry)
    ensures Accounts(entries + [e]) == Accounts(entries) + {e.account}
  {
    var longer := entries + [e];
    assert longer[|entries|] == e;
    forall a | a in Accounts(entries) ensures a in Accounts(longer) {
      var i :| 0 <= i < |entries| && entries[i].account == a;
      assert longer[i].account == a;
    }
  }

  // ----- One call of the state machine run alone, from any state -----

  lemma {:induction false} WithoutJoined(a: Registry, b: Registry, account: string)
    ensures Without(a + b, account) == Without(a, account) + Without(b, account)
  {
    if a == [] {
      assert a + b == b;
    } else {
      WithoutJoined(a[1..], b, account);
      assert (a + b)[1..] == a[1..] + b;
    }
  }

  /** A grant appends its entry to the list exactly when the account is not on it. */
  lemma GrantAlone(s: State, id: nat, account: string, grantor: string, now: nat)
    requires id !in s.calls
    ensures var s' := Apply(Apply(Apply(s, BeginGrant(id, account, grantor)), Load(id)), Commit(id, now));
      var list := if "_registry" in s.db.docs then s.db.docs["_registry"].fields else [];
      id in s'.calls &&
      if exists i :: 0 <= i < |list| && list[i].account == account
      then s'.calls[id] == GrantDone(account, AlreadyAdmin) && s'.db == s.db
      else s'.calls[id] == GrantDone(account, Granted) &&
           s'.db.Read("_registry") == Some(list + [Entry(account, grantor, now)]) &&
           s'.db.docs - {"_registry"} == s.db.docs - {"_registry"}
  {}

  /** A revoke removes the account's entries, in place, exactly when it is listed and not the only entry. */
  lemma RevokeAlone(s: State, id: nat, account: string, now: nat)
    requires id !in s.calls
    ensures var s' := Apply(Apply(Apply(s, BeginRevoke(id, account)), Load(id)), Commit(id, now));
      var list := if "_registry" in s.db.docs then s.db.docs["_registry"].fields else [];
      id in s'.calls &&
      if !(exists i :: 0 <= i < |list| && list[i].account == account)
      then s'.calls[id] == RevokeDone(account, NotAdmin) && s'.db == s.db
      else if |list| == 1 then s'.calls[id] == RevokeDone(account, LastAdminGuard) && s'.db == s.db
      else s'.calls[id] == RevokeDone(account, Revoked) && s'.db.Read("_registry") == Some(Without(list, account)) &&
           s'.db.docs - {"_registry"} == s.db.docs - {"_registry"}
  {}

  // ----- The two calls, run alone against the server -----

  method GrantAdmin(server: DocumentServer<string, Registry>, account: string, grantor: string, now: nat)
    returns (r: GrantResult)
    modifies server
    ensures var before := old(server.State());
      var loaded := AfterLoad(GrantStarted(account, grantor), LoadRegistry(before));
      (server.State(), GrantDone(account, r)) == CommitCall(before, loaded, now)
    ensures r != GrantConflict && (r == Granted <==> !Listed(LoadRegistry(old(server.State())).0, account))
  {
    var read := server.GetDoc(REGISTRY);
    var entries := if read.Some? then read.value.fields else [];
    if Listed(entries, account) {
      return AlreadyAdmin;
    }
    entries := entries + [Entry(account, grantor, now)];
    var won;
    if read.Some? {
      won := server.SetDocIfUnchanged(REGISTRY, entries, read.value.version);
    } else {
      won := server.CreateDocIfAbsent(REGISTRY, entries);
    }
    r := if won then Granted else GrantConflict;
  }

  method RevokeAdmin(server: DocumentServer<string, Registry>, account: string)
    returns (r: RevokeResult)
    modifies server
    ensures r == DecideRevoke(LoadRegistry(old(server.State())).0, account)
    ensures var before := old(server.State());
      var loaded := AfterLoad(RevokeStarted(account), LoadRegistry(before));
      (server.State(), RevokeDone(account, r)) == CommitCall(before, loaded, 0)
  {
    var read := server.GetDoc(REGISTRY);
    var entries := if read.Some? then read.value.fields else [];
    var decision := DecideRevoke(entries, account);
    if decision != Revoked {
      return decision;
    }
    var won := server.SetDocIfUnchanged(REGISTRY, Without(entries, account), read.value.version);
    r := if won then Revoked else RevokeConflict;
  }
}
