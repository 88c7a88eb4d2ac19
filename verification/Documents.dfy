/** The versioned document store (src/firestore.rs:234-412 and the fake server at 656-780).

    `Db` is the state of the store as a value and gives each request its meaning;
    `DocumentServer` is the server that applies requests to its own fields, and the client calls
    on it. Each request is one atomic step. A version is the number inside the server's update time. */
module Documents {

  datatype Option<+T> = None | Some(value: T)

  datatype Doc<+F> = Doc(fields: F, version: nat)

  datatype Db<!K(==), +F> = Db(docs: map<K, Doc<F>>, version: nat) {

    /** No document carries a version the counter has not reached. */
    ghost predicate Valid() {
      forall k :: k in docs ==> docs[k].version <= version
    }

    /** What a reader who saw fields `f` under version `v` may still rely on. */
    ghost predicate Saw(k: K, f: F, v: nat) {
      v <= version && (k in docs && docs[k].version == v ==> docs[k].fields == f)
    }

    function Read(k: K): Option<F> {
      if k in docs then Some(docs[k].fields) else None
    }

    function Put(k: K, f: F): Db<K, F> {
      Db(docs[k := Doc(f, version + 1)], version + 1)
    }

    predicate Unchanged(k: K, v: nat) {
      k in docs && docs[k].version == v
    }

    function PutIfUnchanged(k: K, f: F, v: nat): Db<K, F> {
      if Unchanged(k, v) then Put(k, f) else this
    }

    function CreateIfAbsent(k: K, f: F): Db<K, F> {
      if k in docs then this else Put(k, f)
    }

    function Delete(k: K): Db<K, F> {
      Db(docs - {k}, version)
    }

    function DeleteIfUnchanged(k: K, v: nat): Db<K, F> {
      if Unchanged(k, v) then Delete(k) else this
    }
  }

  // ----- Versions never recur -----

  datatype Request<K, F> =
    | Put(k: K, f: F)
    | PutIfUnchanged(k: K, f: F, v: nat)
    | CreateIfAbsent(k: K, f: F)
    | Delete(k: K)
    | DeleteIfUnchanged(k: K, v: nat)

  function Serve<K(==), F>(db: Db<K, F>, r: Request<K, F>): Db<K, F> {
    match r
    case Put(k, f) => db.Put(k, f)
    case PutIfUnchanged(k, f, v) => db.PutIfUnchanged(k, f, v)
    case CreateIfAbsent(k, f) => db.CreateIfAbsent(k, f)
    case Delete(k) => db.Delete(k)
    case DeleteIfUnchanged(k, v) => db.DeleteIfUnchanged(k, v)
  }

  function After<K(==), F>(db: Db<K, F>, rs: seq<Request<K, F>>): Db<K, F> {
    if rs == [] then db else Serve(After(db, rs[..|rs| - 1]), rs[|rs| - 1])
  }

  lemma {:induction false} CounterGrows<K, F>(db: Db<K, F>, rs: seq<Request<K, F>>)
    requires db.Valid()
    ensures After(db, rs).Valid() && db.version <= After(db, rs).version
  {
    if rs != [] {
      CounterGrows(db, rs[..|rs| - 1]);
    }
  }

  /** A document that still has an old version was there all along, untouched:
      neither a rewrite nor a delete and recreate brings a version back. */
  lemma {:induction false} VersionsNeverRecur<K, F>(db: Db<K, F>, rs: seq<Request<K, F>>, k: K, n: nat)
    requires db.Valid() && n <= |rs|
    requires k in After(db, rs).docs && After(db, rs).docs[k].version <= db.version
    ensures k in db.docs && After(db, rs[..n]).Unchanged(k, db.docs[k].version)
    ensures After(db, rs[..n]).docs[k] == db.docs[k]
    decreases |rs|
  {
    if rs == [] {
      assert rs[..n] == [];
    } else {
      var earlier := rs[..|rs| - 1];
      CounterGrows(db, earlier);
      VersionsNeverRecur(db, earlier, k, if n < |rs| then n else n - 1);
      assert n < |rs| ==> earlier[..n] == rs[..n];
      assert n == |rs| ==> rs[..n] == rs && earlier[..n - 1] == earlier;
    }
  }

  /** A conditional write or delete goes through exactly when nobody touched the document in between. */
  lemma ConditionMeansUntouched<K, F>(db: Db<K, F>, rs: seq<Request<K, F>>, k: K)
    requires db.Valid() && k in db.docs
    ensures After(db, rs).Unchanged(k, db.docs[k].version) <==>
            forall n :: 0 <= n <= |rs| ==> k in After(db, rs[..n]).docs && After(db, rs[..n]).docs[k] == db.docs[k]
  {
    if After(db, rs).Unchanged(k, db.docs[k].version) {
      forall n | 0 <= n <= |rs|
        ensures k in After(db, rs[..n]).docs && After(db, rs[..n]).docs[k] == db.docs[k]
      {
        VersionsNeverRecur(db, rs, k, n);
      }
    } else {
      assert rs[..|rs|] == rs;
    }
  }

  // ----- The server and its clients -----

  datatype Precondition = Precondition(exists_: Option<bool>, updateTime: Option<nat>)

  datatype Status = Success | Conflict | BadRequest | NotFound

  const Always := Precondition(None, None)

  class DocumentServer<K(==), F> {
    var docs: map<K, Doc<F>>
    var lastVersion: nat

    ghost function State(): Db<K, F>
      reads this
    {
      Db(docs, lastVersion)
    }

    constructor ()
      ensures State() == Db(map[], 0)
    {
      docs := map[];
      lastVersion := 0;
    }

    method NextVersion() returns (v: nat)
      modifies this`lastVersion
      ensures v == lastVersion == old(lastVersion) + 1
    {
      lastVersion := lastVersion + 1;
      v := lastVersion;
    }

    method GetDoc(k: K) returns (r: Option<Doc<F>>)
      ensures r == if k in docs then Some(docs[k]) else None
    {
      if k in docs {
        r := Some(docs[k]);
      } else {
        r := None;
      }
    }

    /** `merged` makes the new fields from those stored, if any: a write under an update mask keeps what the
        mask does not name, a write without one ignores what is there. */
    method PatchDoc(k: K, pre: Precondition, merged: Option<F> -> F) returns (r: Status)
      modifies this
      ensures pre.exists_.Some? && (k in old(docs)) != pre.exists_.value
              ==> r == Conflict && State() == old(State())
      ensures !(pre.exists_.Some? && (k in old(docs)) != pre.exists_.value)
              && pre.updateTime.Some? && !old(State()).Unchanged(k, pre.updateTime.value)
              ==> r == BadRequest && State() == old(State())
      ensures !(pre.exists_.Some? && (k in old(docs)) != pre.exists_.value)
              && !(pre.updateTime.Some? && !old(State()).Unchanged(k, pre.updateTime.value))
              ==> r == Success && State() == old(State()).Put(k, merged(old(State()).Read(k)))
    {
      if pre.exists_.Some? && (k in docs) != pre.exists_.value {
        return Conflict;
      }
      if pre.updateTime.Some? && !(k in docs && docs[k].version == pre.updateTime.value) {
        return BadRequest;
      }
      var v := NextVersion();
      docs := docs[k := Doc(merged(if k in docs then Some(docs[k].fields) else None), v)];
      r := Success;
    }

    method DeleteDoc(k: K, pre: Precondition) returns (r: Status)
      modifies this
      ensures pre.updateTime.Some? && !old(State()).Unchanged(k, pre.updateTime.value)
              ==> r == BadRequest && State() == old(State())
      ensures !(pre.updateTime.Some? && !old(State()).Unchanged(k, pre.updateTime.value))
              ==> r == Success && State() == old(State()).Delete(k)
    {
      if pre.updateTime.Some? && !(k in docs && docs[k].version == pre.updateTime.value) {
        return BadRequest;
      }
      docs := docs - {k};
      r := Success;
    }

    // ----- Client calls: one request each, the status read as won or lost -----

    method SetDoc(k: K, fields: F)
      modifies this
      ensures State() == old(State()).Put(k, fields)
    {
      var r := PatchDoc(k, Always, _ => fields);
    }

    method MergeDoc(k: K, merged: Option<F> -> F)
      modifies this
      ensures State() == old(State()).Put(k, merged(old(State()).Read(k)))
    {
      var r := PatchDoc(k, Always, merged);
    }

    method SetDocIfUnchanged(k: K, fields: F, v: nat) returns (won: bool)
      modifies this
      ensures won == old(State()).Unchanged(k, v)
      ensures State() == old(State()).PutIfUnchanged(k, fields, v)
    {
      var r := PatchDoc(k, Precondition(None, Some(v)), _ => fields);
      won := r == Success;
    }

    method CreateDocIfAbsent(k: K, fields: F) returns (won: bool)
      modifies this
      ensures won == (k !in old(docs))
      ensures State() == old(State()).CreateIfAbsent(k, fields)
    {
      var r := PatchDoc(k, Precondition(Some(false), None), _ => fields);
      won := r == Success;
    }

    method DeleteDocIfUnchanged(k: K, v: nat) returns (won: bool)
      modifies this
      ensures won == old(State()).Unchanged(k, v)
      ensures State() == old(State()).DeleteIfUnchanged(k, v)
    {
      var r := DeleteDoc(k, Precondition(None, Some(v)));
      won := r == Success;
    }

    method RemoveDoc(k: K)
      modifies this
      ensures State() == old(State()).Delete(k)
    {
      var r := DeleteDoc(k, Always);
    }
  }
}
