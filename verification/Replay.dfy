/** Single use of signed proofs: the jti store (src/nonce.rs:33-64) with the time windows of DPoP proofs
    (src/dpop.rs:109-127), client assertions (src/client_auth.rs:23-25 and 176-212) and request objects
    (src/request_object.rs:72-108).

    Time runs in nanoseconds; the windows look at whole seconds of it. A call reads the clock once. */
module Replay {
  import opened Documents

  const SECOND := 1_000_000_000
  const IAT_SKEW := 60
  const DPOP_TTL := 300
  const MAX_LIFETIME := 3600
  const NBF_SKEW := 60

  datatype Kind = Dpop | Assertion | RequestObject

  datatype Proof = Proof(kind: Kind, jti: Option<string>, iat: Option<int>, exp: Option<int>, nbf: Option<int>)

  function Prefix(kind: Kind): string {
    match kind
    case Dpop => "dpop:"
    case Assertion => "cjwt:"
    case RequestObject => "jar:"
  }

  function Key(kind: Kind, jti: string): string {
    Prefix(kind) + jti
  }

  lemma KeysDoNotMix(k1: Kind, j1: string, k2: Kind, j2: string)
    ensures Key(k1, j1) == Key(k2, j2) <==> k1 == k2 && j1 == j2
  {
    assert Key(k1, j1)[0] == Prefix(k1)[0] && Key(k2, j2)[0] == Prefix(k2)[0];
    assert Key(k1, j1)[|Prefix(k1)|..] == j1 && Key(k2, j2)[|Prefix(k2)|..] == j2;
  }

  // ----- The windows -----

  predicate ExpInWindow(exp: int, now: int) {
    now < exp <= now + MAX_LIFETIME
  }

  predicate IatInWindow(iat: int, now: int) {
    -IAT_SKEW <= now - iat <= IAT_SKEW
  }

  /** The checks made before the jti is claimed. */
  predicate Timely(p: Proof, now: int) {
    match p.kind
    case Dpop => p.iat.Some? && IatInWindow(p.iat.value, now) && p.jti.Some?
    case Assertion =>
      && p.exp.Some? && ExpInWindow(p.exp.value, now)
      && (p.nbf.Some? ==> p.nbf.value <= now + NBF_SKEW)
      && p.jti.Some? && p.jti.value != ""
    case RequestObject =>
      && p.exp.Some? && ExpInWindow(p.exp.value, now)
      && p.nbf.Some? && now - MAX_LIFETIME <= p.nbf.value <= now + NBF_SKEW
      && p.iat.Some? && p.jti.Some? && p.jti.value != ""
  }

  /** How many seconds the jti is remembered. */
  function Memory(p: Proof, now: int): nat
    requires Timely(p, now)
  {
    if p.kind.Dpop? then DPOP_TTL else p.exp.value - now
  }

  // ----- The store of claimed keys -----

  datatype Backend = InMemory | Remote

  type Held = map<string, nat>

  /** When a claim made at `t` for `ttl` seconds runs out; the remote store keeps whole seconds. */
  function RunsOut(b: Backend, t: nat, ttl: nat): nat {
    if b.InMemory? then t + ttl * SECOND else (t / SECOND + ttl) * SECOND
  }

  function Retained(held: Held, t: nat): Held {
    map k | k in held && held[k] > t :: held[k]
  }

  /** In memory, expired keys are dropped first; remotely, a document is created if it is absent. */
  function Claimed(b: Backend, held: Held, key: string, t: nat, ttl: nat): (bool, Held) {
    var kept := if b.InMemory? then Retained(held, t) else held;
    if key in kept then (false, kept) else (true, kept[key := RunsOut(b, t, ttl)])
  }

  /** One presentation. `genuine`: signature and audience are right; `up`: the store answers. */
  datatype Event =
    | Present(p: Proof, genuine: bool, up: bool, t: nat)
    | Expire(keys: set<string>, t: nat)       // the remote store's own deletion of expired documents

  predicate Claims(e: Event) {
    e.Present? && e.genuine && e.up && Timely(e.p, e.t / SECOND)
  }

  function ClaimOf(b: Backend, held: Held, e: Event): (bool, Held)
    requires Claims(e)
  {
    Claimed(b, held, Key(e.p.kind, e.p.jti.value), e.t, Memory(e.p, e.t / SECOND))
  }

  function HeldAfter(b: Backend, held: Held, e: Event): Held {
    if e.Expire? then map k | k in held && (k in e.keys ==> held[k] > e.t) :: held[k]
    else if Claims(e) then ClaimOf(b, held, e).1
    else held
  }

  function Run(b: Backend, es: seq<Event>): Held {
    if es == [] then map[] else HeldAfter(b, Run(b, es[..|es| - 1]), es[|es| - 1])
  }

  predicate Accepts(b: Backend, held: Held, e: Event) {
    Claims(e) && ClaimOf(b, held, e).0
  }

  ghost predicate Accepted(b: Backend, es: seq<Event>, i: nat)
    requires i < |es|
  {
    Accepts(b, Run(b, es[..i]), es[i])
  }

  ghost predicate Ordered(es: seq<Event>) {
    forall i, j :: 0 <= i < j < |es| ==> es[i].t <= es[j].t
  }

  // ----- What is timely, in numbers -----

  lemma TimelyMeans(p: Proof, now: int)
    ensures p.kind.Dpop? ==>
      (Timely(p, now) <==> p.jti.Some? && p.iat.Some? && now - 60 <= p.iat.value <= now + 60)
    ensures p.kind.Assertion? ==>
      (Timely(p, now) <==>
         p.jti.Some? && p.jti.value != "" && p.exp.Some? && now < p.exp.value <= now + 3600 &&
         (p.nbf.Some? ==> p.nbf.value <= now + 60))
    ensures p.kind.RequestObject? ==>
      (Timely(p, now) <==>
         p.jti.Some? && p.jti.value != "" && p.iat.Some? && p.exp.Some? && now < p.exp.value <= now + 3600 &&
         p.nbf.Some? && now - 3600 <= p.nbf.value <= now + 60)
    ensures Timely(p, now) ==> Memory(p, now) == if p.kind.Dpop? then 300 else p.exp.value - now
  {}

  /** The key can be claimed at `t`: never claimed, or in memory claimed for a time that is over. */
  predicate Free(b: Backend, held: Held, key: string, t: nat) {
    key !in held || (b.InMemory? && held[key] <= t)
  }

  lemma ClaimedWhenFree(b: Backend, held: Held, key: string, t: nat, ttl: nat)
    ensures Claimed(b, held, key, t, ttl).0 <==> Free(b, held, key, t)
    ensures Free(b, held, key, t) ==>
              key in Claimed(b, held, key, t, ttl).1 &&
              Claimed(b, held, key, t, ttl).1[key] ==
                if b.InMemory? then t + ttl * 1_000_000_000 else (t / 1_000_000_000 + ttl) * 1_000_000_000
  {}

  // ----- At most one acceptance -----

  /** The same identity and the same bound on its life. */
  ghost predicate SameProof(p: Proof, q: Proof) {
    p.kind == q.kind && p.jti == q.jti && if p.kind.Dpop? then p.iat == q.iat else p.exp == q.exp
  }

  /** While a proof is timely, an earlier claim of it has not run out. */
  lemma MemoryOutlivesWindow(b: Backend, p: Proof, q: Proof, t: nat, later: nat)
    requires SameProof(p, q) && t <= later && Timely(p, t / SECOND) && Timely(q, later / SECOND)
    ensures later < RunsOut(b, t, Memory(p, t / SECOND))
  {
    var s, s' := t / SECOND, later / SECOND;
    assert s * SECOND <= t && later < (s' + 1) * SECOND;
    assert s' + 1 <= s + Memory(p, s);
    assert (s' + 1) * SECOND <= (s + Memory(p, s)) * SECOND;
  }

  /** Nothing removes a claimed key before it runs out. */
  lemma {:induction false} StaysHeld(b: Backend, es: seq<Event>, i: nat, n: nat)
    requires Ordered(es) && i < n <= |es| && Accepted(b, es, i)
    requires es[n - 1].t < RunsOut(b, es[i].t, Memory(es[i].p, es[i].t / SECOND))
    ensures var key := Key(es[i].p.kind, es[i].p.jti.value);
      key in Run(b, es[..n]) && Run(b, es[..n])[key] == RunsOut(b, es[i].t, Memory(es[i].p, es[i].t / SECOND))
  {
    assert es[..n][..n - 1] == es[..n - 1];
    if n - 1 > i {
      StaysHeld(b, es, i, n - 1);
    }
  }

  /** No proof is accepted twice, over any history of presentations. */
  lemma AcceptedAtMostOnce(b: Backend, es: seq<Event>, i: nat, j: nat)
    requires Ordered(es) && i < |es| && j < |es|
    requires Accepted(b, es, i) && Accepted(b, es, j) && SameProof(es[i].p, es[j].p)
    ensures i == j
  {
    if i < j {
      AcceptedEarlier(b, es, i, j);
    } else if j < i {
      AcceptedEarlier(b, es, j, i);
    }
  }

  lemma AcceptedEarlier(b: Backend, es: seq<Event>, i: nat, j: nat)
    requires Ordered(es) && i < j < |es| && Accepted(b, es, i) && Claims(es[j]) && SameProof(es[i].p, es[j].p)
    ensures !Accepted(b, es, j)
  {
    MemoryOutlivesWindow(b, es[i].p, es[j].p, es[i].t, es[j].t);
    StaysHeld(b, es, i, j);
  }

  // ----- The three kinds do not interfere -----

  /** The presentations of one kind, with the remote store's own deletions. */
  function Only(es: seq<Event>, kind: Kind): seq<Event> {
    if es == [] then []
    else
      var e := es[|es| - 1];
      Only(es[..|es| - 1], kind) + if e.Present? && e.p.kind != kind then [] else [e]
  }

  /** The answers to that kind, in order. */
  function Answers(b: Backend, es: seq<Event>, kind: Kind): seq<bool> {
    if es == [] then []
    else
      var e := es[|es| - 1];
      Answers(b, es[..|es| - 1], kind) +
      if e.Present? && e.p.kind == kind then [Accepts(b, Run(b, es[..|es| - 1]), e)] else []
  }

  /** What a claim of `k` at `t` or later can still notice. */
  function Noticed(b: Backend, held: Held, k: string, t: nat): Option<nat> {
    if k in held && (b.Remote? || held[k] > t) then Some(held[k]) else None
  }

  ghost predicate Alike(b: Backend, m: Held, m': Held, kind: Kind, t: nat) {
    forall jti :: Noticed(b, m, Key(kind, jti), t) == Noticed(b, m', Key(kind, jti), t)
  }

  lemma AlikeStep(b: Backend, m: Held, m': Held, kind: Kind, e: Event)
    requires Alike(b, m, m', kind, e.t)
    ensures e.Present? && e.p.kind != kind ==> Alike(b, HeldAfter(b, m, e), m', kind, e.t)
    ensures !(e.Present? && e.p.kind != kind) ==> Alike(b, HeldAfter(b, m, e), HeldAfter(b, m', e), kind, e.t)
    ensures !(e.Present? && e.p.kind != kind) ==> Accepts(b, m, e) == Accepts(b, m', e)
  {
    if Claims(e) {
      var own := Key(e.p.kind, e.p.jti.value);
      forall jti
        ensures Noticed(b, HeldAfter(b, m, e), Key(kind, jti), e.t) ==
                if Key(kind, jti) == own && Accepts(b, m, e) then Some(RunsOut(b, e.t, Memory(e.p, e.t / SECOND)))
                else Noticed(b, m, Key(kind, jti), e.t)
        ensures Noticed(b, HeldAfter(b, m', e), Key(kind, jti), e.t) ==
                if Key(kind, jti) == own && Accepts(b, m', e) then Some(RunsOut(b, e.t, Memory(e.p, e.t / SECOND)))
                else Noticed(b, m', Key(kind, jti), e.t)
        ensures Key(kind, jti) == own ==> kind == e.p.kind
      {
        KeysDoNotMix(kind, jti, e.p.kind, e.p.jti.value);
      }
      if e.p.kind == kind {
        assert Noticed(b, m, own, e.t) == Noticed(b, m', own, e.t);
      }
    } else if e.Expire? {
      forall jti
        ensures Noticed(b, HeldAfter(b, m, e), Key(kind, jti),e.t) ==
                Noticed(b, HeldAfter(b, m', e), Key(kind, jti), e.t)
      {
        assert Noticed(b, m, Key(kind, jti), e.t) == Noticed(b, m', Key(kind, jti), e.t);
      }
    }
  }

  lemma AlikeLater(b: Backend, m: Held, m': Held, kind: Kind, t: nat, later: nat)
    requires Alike(b, m, m', kind, t) && t <= later
    ensures Alike(b, m, m', kind, later)
  {
    forall jti ensures Noticed(b, m, Key(kind, jti), later) == Noticed(b, m', Key(kind, jti), later) {
      assert Noticed(b, m, Key(kind, jti), t) == Noticed(b, m', Key(kind, jti), t);
    }
  }

  lemma OnlyStep(b: Backend, es: seq<Event>, kind: Kind)
    requires es != []
    ensures var before, e := es[..|es| - 1], es[|es| - 1];
      if e.Present? && e.p.kind != kind then Only(es, kind) == Only(before, kind)
      else Run(b, Only(es, kind)) == HeldAfter(b, Run(b, Only(before, kind)), e) &&
           Answers(b, Only(es, kind), kind) == Answers(b, Only(before, kind), kind) +
             if e.Present? then [Accepts(b, Run(b, Only(before, kind)), e)] else []
  {
    var before, e := es[..|es| - 1], es[|es| - 1];
    if !(e.Present? && e.p.kind != kind) {
      var only := Only(before, kind) + [e];
      assert Only(es, kind) == only && only[..|only| - 1] == Only(before, kind);
    }
  }

  lemma {:induction false} RunsAlike(b: Backend, es: seq<Event>, kind: Kind, t: nat)
    requires Ordered(es) && (es != [] ==> es[|es| - 1].t <= t)
    ensures Alike(b, Run(b, es), Run(b, Only(es, kind)), kind, t)
    ensures Answers(b, es, kind) == Answers(b, Only(es, kind), kind)
  {
    if es != [] {
      var before, e := es[..|es| - 1], es[|es| - 1];
      RunsAlike(b, before, kind, e.t);
      var m, m' := Run(b, before), Run(b, Only(before, kind));
      AlikeStep(b, m, m', kind, e);
      OnlyStep(b, es, kind);
      assert Run(b, es) == HeldAfter(b, m, e);
      AlikeLater(b, Run(b, es), Run(b, Only(es, kind)), kind, e.t, t);
    }
  }

  /** Each kind gets the answers it would get if the store were its own. */
  lemma KindsDoNotInterfere(b: Backend, es: seq<Event>, kind: Kind)
    requires Ordered(es)
    ensures Answers(b, es, kind) == Answers(b, Only(es, kind), kind)
  {
    RunsAlike(b, es, kind, if es == [] then 0 else es[|es| - 1].t);
  }

  // ----- The store object and a verifier's last steps -----

  class NonceStore {
    const backend: Backend
    var held: Held

    constructor (b: Backend)
      ensures backend == b && held == map[]
    {
      backend := b;
      held := map[];
    }

    method Claim(key: string, t: nat, ttl: nat, up: bool) returns (fresh_: bool)
      modifies this
      ensures (fresh_, held) ==
              if backend.Remote? && !up then (false, old(held)) else Claimed(backend, old(held), key, t, ttl)
    {
      if backend.InMemory? {
        held := Retained(held, t);
        fresh_ := key !in held;
        if fresh_ {
          held := held[key := t + ttl * SECOND];
        }
      } else {
        fresh_ := up && key !in held;
        if fresh_ {
          held := held[key := (t / SECOND + ttl) * SECOND];
        }
      }
    }

    method Verify(p: Proof, genuine: bool, t: nat) returns (ok: bool)
      modifies this
      ensures var e := Present(p, genuine, true, t);
        ok == Accepts(backend, old(held), e) && held == HeldAfter(backend, old(held), e)
      ensures p.kind.Dpop? ==>
        (ok <==>
           genuine && p.jti.Some? && Free(backend, old(held), "dpop:" + p.jti.value, t) &&
           p.iat.Some? && t / 1_000_000_000 - 60 <= p.iat.value <= t / 1_000_000_000 + 60)
      ensures p.kind.Assertion? ==>
        (ok <==>
           genuine && p.jti.Some? && p.jti.value != "" && Free(backend, old(held), "cjwt:" + p.jti.value, t) &&
           p.exp.Some? && t / 1_000_000_000 < p.exp.value <= t / 1_000_000_000 + 3600 &&
           (p.nbf.Some? ==> p.nbf.value <= t / 1_000_000_000 + 60))
      ensures p.kind.RequestObject? ==>
        (ok <==>
           genuine && p.jti.Some? && p.jti.value != "" && Free(backend, old(held), "jar:" + p.jti.value, t) &&
           p.iat.Some? && p.exp.Some? && t / 1_000_000_000 < p.exp.value <= t / 1_000_000_000 + 3600 &&
           p.nbf.Some? && t / 1_000_000_000 - 3600 <= p.nbf.value <= t / 1_000_000_000 + 60)
    {
      TimelyMeans(p, t / SECOND);
      if !genuine || !Timely(p, t / SECOND) {
        return false;
      }
      ClaimedWhenFree(backend, held, Key(p.kind, p.jti.value), t, Memory(p, t / SECOND));
      ok := Claim(Key(p.kind, p.jti.value), t, Memory(p, t / SECOND), true);
    }
  }
}
