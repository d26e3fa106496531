/** Landing a fixture in the object store: put-if-absent for each table object and then for the
    manifest, which is the commit marker; any number of writers at once. */
module LandingZone {
  import opened Types

  datatype Table = Customers | Orders | Payments | Products

  /** Table names in the order of upload. */
  const TABLES: seq<Table> := [Customers, Orders, Payments, Products]

  datatype Manifest = Manifest(batch: BatchId, customers: Digest, orders: Digest, payments: Digest, products: Digest, rest: nat)

  /** The bytes of an object. */
  datatype Payload = TableBytes(code: nat) | ManifestBytes(manifest: Manifest)

  datatype Name = TableName(table: Table) | ManifestName
  datatype Key = Key(batch: BatchId, name: Name)

  /** An object and the sha256 entry of its metadata. */
  datatype StoredObject = StoredObject(body: Payload, checksum: Digest)

  type Store = map<Key, StoredObject>

  datatype LandingError = FixtureChanged | ConflictingObject | PutRefused

  function ChecksumOf(m: Manifest, t: Table): Digest {
    match t
    case Customers => m.customers
    case Orders => m.orders
    case Payments => m.payments
    case Products => m.products
  }

  /** The n-th object of a landing: the tables, then the manifest. */
  function KeyAt(m: Manifest, n: nat): Key
    requires n <= 4
  {
    Key(m.batch, if n < 4 then TableName(TABLES[n]) else ManifestName)
  }

  function ChecksumAt(sha: Payload -> Digest, m: Manifest, n: nat): Digest
    requires n <= 4
  {
    if n < 4 then ChecksumOf(m, TABLES[n]) else sha(ManifestBytes(m))
  }

  /** What the writer reads from its fixture must be what the verified manifest says. */
  predicate Verified(sha: Payload -> Digest, m: Manifest, n: nat, body: Payload)
    requires n <= 4
  {
    if n < 4 then sha(body) == ChecksumOf(m, TABLES[n]) else body == ManifestBytes(m)
  }

  predicate Agrees(sha: Payload -> Digest, existing: StoredObject, checksum: Digest) {
    existing.checksum == checksum && sha(existing.body) == checksum
  }

  // ---------------------------------------------------------------- what a landing shows

  ghost predicate IsThere(sha: Payload -> Digest, store: Store, key: Key, checksum: Digest) {
    key in store && store[key].checksum == checksum && sha(store[key].body) == checksum
  }

  /** The four tables of the batch, each with the checksum that the manifest names for it. */
  ghost predicate TablesThere(sha: Payload -> Digest, store: Store, m: Manifest) {
    && IsThere(sha, store, Key(m.batch, TableName(Customers)), m.customers)
    && IsThere(sha, store, Key(m.batch, TableName(Orders)), m.orders)
    && IsThere(sha, store, Key(m.batch, TableName(Payments)), m.payments)
    && IsThere(sha, store, Key(m.batch, TableName(Products)), m.products)
  }

  ghost predicate Landed(sha: Payload -> Digest, store: Store, m: Manifest) {
    TablesThere(sha, store, m) && IsThere(sha, store, Key(m.batch, ManifestName), sha(ManifestBytes(m)))
  }

  /** An object that is already there is the one to land. */
  ghost predicate Free(sha: Payload -> Digest, store: Store, key: Key, checksum: Digest) {
    key in store ==> IsThere(sha, store, key, checksum)
  }

  ghost predicate NoConflict(sha: Payload -> Digest, store: Store, m: Manifest) {
    && Free(sha, store, Key(m.batch, TableName(Customers)), m.customers) && Free(sha, store, Key(m.batch, TableName(Orders)), m.orders)
    && Free(sha, store, Key(m.batch, TableName(Payments)), m.payments) && Free(sha, store, Key(m.batch, TableName(Products)), m.products)
    && Free(sha, store, Key(m.batch, ManifestName), sha(ManifestBytes(m)))
  }

  /** The files of the fixture, read in the order of upload, are those of its verified manifest. */
  ghost predicate Unchanged(sha: Payload -> Digest, m: Manifest, files: nat -> Payload) {
    && sha(files(0)) == m.customers && sha(files(1)) == m.orders && sha(files(2)) == m.payments && sha(files(3)) == m.products
    && files(4) == ManifestBytes(m)
  }

  lemma ObjectsAre(m: Manifest, sha: Payload -> Digest)
    ensures KeyAt(m, 0) == Key(m.batch, TableName(Customers)) && ChecksumAt(sha, m, 0) == m.customers
    ensures KeyAt(m, 1) == Key(m.batch, TableName(Orders)) && ChecksumAt(sha, m, 1) == m.orders
    ensures KeyAt(m, 2) == Key(m.batch, TableName(Payments)) && ChecksumAt(sha, m, 2) == m.payments
    ensures KeyAt(m, 3) == Key(m.batch, TableName(Products)) && ChecksumAt(sha, m, 3) == m.products
    ensures KeyAt(m, 4) == Key(m.batch, ManifestName) && ChecksumAt(sha, m, 4) == sha(ManifestBytes(m))
  {
  }

  lemma HoldsMeans(sha: Payload -> Digest, store: Store, m: Manifest, n: nat)
    requires n <= 4
    ensures Holds(sha, store, m, n) <==> IsThere(sha, store, KeyAt(m, n), ChecksumAt(sha, m, n))
  {
  }

  lemma LandedMeans(sha: Payload -> Digest, store: Store, m: Manifest)
    ensures (forall n :: 0 <= n < 4 ==> Holds(sha, store, m, n)) <==> TablesThere(sha, store, m)
    ensures (forall n :: 0 <= n <= 4 ==> Holds(sha, store, m, n)) <==> Landed(sha, store, m)
    ensures (forall n :: 0 <= n <= 4 && KeyAt(m, n) in store ==> Holds(sha, store, m, n)) <==> NoConflict(sha, store, m)
  {
    ObjectsAre(m, sha);
    forall n: nat | n <= 4 ensures Holds(sha, store, m, n) <==> IsThere(sha, store, KeyAt(m, n), ChecksumAt(sha, m, n)) {
      HoldsMeans(sha, store, m, n);
    }
    assert (forall n :: 0 <= n < 4 ==> Holds(sha, store, m, n)) <==>
      Holds(sha, store, m, 0) && Holds(sha, store, m, 1) && Holds(sha, store, m, 2) && Holds(sha, store, m, 3);
  }

  lemma UnchangedMeans(sha: Payload -> Digest, m: Manifest, files: nat -> Payload)
    ensures (forall n :: 0 <= n <= 4 ==> Verified(sha, m, n, files(n))) <==> Unchanged(sha, m, files)
  {
    ObjectsAre(m, sha);
    assert (forall n :: 0 <= n <= 4 ==> Verified(sha, m, n, files(n))) <==>
      Verified(sha, m, 0, files(0)) && Verified(sha, m, 1, files(1)) && Verified(sha, m, 2, files(2)) && Verified(sha, m, 3, files(3))
      && Verified(sha, m, 4, files(4));
  }

  // ---------------------------------------------------------------- one writer alone

  class CommerceS3LandingZone {
    var objects: Store
    const sha: Payload -> Digest

    constructor (sha: Payload -> Digest)
      ensures objects == map[] && this.sha == sha
    {
      this.sha := sha;
      objects := map[];
    }

    method PutOnce(key: Key, body: Payload, checksum: Digest) returns (created: Result<nat, LandingError>)
      modifies this`objects
      ensures key !in old(objects) ==> created == Success(1) && objects == old(objects)[key := StoredObject(body, checksum)]
      ensures key in old(objects) ==> objects == old(objects)
      ensures key in old(objects) && IsThere(sha, objects, key, checksum) ==> created == Success(0)
      ensures key in old(objects) && !IsThere(sha, objects, key, checksum) ==> created == Failure(ConflictingObject)
    {
      if key !in objects {
        objects := objects[key := StoredObject(body, checksum)];
        return Success(1);
      }
      if !Agrees(sha, objects[key], checksum) { return Failure(ConflictingObject); }
      created := Success(0);
    }

    /** Objects are only added, and only under this batch; a successful landing shows the manifest
        and all four tables with its checksums; a failed one does not add the manifest. */
    method Write(manifest: Manifest, files: nat -> Payload) returns (created: Result<nat, LandingError>)
      modifies this`objects
      ensures Extends(old(objects), objects)
      ensures forall k :: k in objects && k !in old(objects) ==> k.batch == manifest.batch
      ensures created.Success? ==> Landed(sha, objects, manifest) && created.value == |objects| - |old(objects)|
      ensures created.Failure? ==> (Key(manifest.batch, ManifestName) in objects <==> Key(manifest.batch, ManifestName) in old(objects))
      ensures created.Success? <==> Unchanged(sha, manifest, files) && NoConflict(sha, old(objects), manifest)
    {
      var total := 0;
      ObjectsAre(manifest, sha);
      UnchangedMeans(sha, manifest, files);
      LandedMeans(sha, objects, manifest);
      for n := 0 to 5
        invariant Progress(sha, old(objects), objects, manifest, files, n) && |objects| == |old(objects)| + total
      {
        if !Verified(sha, manifest, n, files(n)) {
          ManifestNotYet(sha, old(objects), objects, manifest, files, n);
          return Failure(FixtureChanged);
        }
        ghost var before := objects;
        var put := PutOnce(KeyAt(manifest, n), files(n), ChecksumAt(sha, manifest, n));
        if put.Failure? {
          ManifestNotYet(sha, old(objects), objects, manifest, files, n);
          return put;
        }
        ProgressOn(sha, old(objects), before, objects, manifest, files, n);
        total := total + put.value;
      }
      LandedMeans(sha, objects, manifest);
      created := Success(total);
    }
  }

  /** The first n objects of the landing are verified and in the store, and nothing else is new. */
  ghost predicate Progress(sha: Payload -> Digest, start: Store, now: Store, m: Manifest, files: nat -> Payload, n: nat) {
    && n <= 5 && Extends(start, now)
    && (forall k :: k in now && k !in start ==> IsKeyBefore(m, n, k))
    && (forall j :: 0 <= j < n ==> Verified(sha, m, j, files(j)) && Holds(sha, now, m, j))
    && (forall j :: 0 <= j < n && KeyAt(m, j) in start ==> Holds(sha, start, m, j))
  }

  ghost predicate IsKeyBefore(m: Manifest, n: nat, k: Key)
    requires n <= 5
  {
    exists j :: 0 <= j < n && k == KeyAt(m, j)
  }

  lemma HoldsLater(sha: Payload -> Digest, before: Store, after: Store, m: Manifest, n: nat)
    requires Extends(before, after) && n <= 4 && Holds(sha, before, m, n)
    ensures Holds(sha, after, m, n)
  {
  }

  lemma ProgressOn(sha: Payload -> Digest, start: Store, before: Store, after: Store, m: Manifest, files: nat -> Payload, n: nat)
    requires n <= 4 && Progress(sha, start, before, m, files, n) && Verified(sha, m, n, files(n))
    requires KeyAt(m, n) !in before ==> after == before[KeyAt(m, n) := StoredObject(files(n), ChecksumAt(sha, m, n))]
    requires KeyAt(m, n) in before ==> after == before && Holds(sha, before, m, n)
    ensures Progress(sha, start, after, m, files, n + 1)
  {
  }

  lemma ManifestNotYet(sha: Payload -> Digest, start: Store, now: Store, m: Manifest, files: nat -> Payload, n: nat)
    requires n <= 4 && Progress(sha, start, now, m, files, n)
    ensures KeyAt(m, 4) in now <==> KeyAt(m, 4) in start
    ensures KeyAt(m, n) in now ==> KeyAt(m, n) in start
    ensures KeyAt(m, n) in now && !Holds(sha, now, m, n) ==> !Holds(sha, start, m, n)
  {
  }

  ghost predicate Extends(before: Store, after: Store) {
    forall k :: k in before ==> k in after && after[k] == before[k]
  }

  /** The store has the n-th object of the landing, with the manifest's checksum. */
  ghost predicate Holds(sha: Payload -> Digest, store: Store, m: Manifest, n: nat)
    requires n <= 4
  {
    KeyAt(m, n) in store && Agrees(sha, store[KeyAt(m, n)], ChecksumAt(sha, m, n))
  }

  lemma KeysDiffer(m: Manifest)
    ensures forall i, j :: 0 <= i < j <= 4 ==> KeyAt(m, i) != KeyAt(m, j)
  {
  }

  // ---------------------------------------------------------------- any number of writers

  /** Where a writer stands: about to put its n-th object, comparing with the one that was there,
      finished, or stopped by an error or a crash. */
  datatype Phase = Putting(n: nat) | Comparing(n: nat) | Finished | Stopped

  datatype Writer = Writer(manifest: Manifest, phase: Phase, created: nat)

  datatype State = State(store: Store, writers: seq<Writer>)

  datatype Step = Start(manifest: Manifest) | Put(w: nat, body: Payload) | Compare(w: nat) | Die(w: nat)

  predicate PhaseOk(p: Phase) {
    match p
    case Putting(n) => n <= 4
    case Comparing(n) => n <= 4
    case _ => true
  }

  function Proceed(n: nat): Phase {
    if n < 4 then Putting(n + 1) else Finished
  }

  /** put_object with IfNoneMatch, after the writer has read and verified its own file. */
  function AfterPut(sha: Payload -> Digest, s: State, w: nat, body: Payload): State
    requires w < |s.writers| && s.writers[w].phase.Putting? && PhaseOk(s.writers[w].phase)
  {
    var writer := s.writers[w];
    var n := writer.phase.n;
    var key := KeyAt(writer.manifest, n);
    if !Verified(sha, writer.manifest, n, body) then s.(writers := s.writers[w := writer.(phase := Stopped)])
    else if key in s.store then s.(writers := s.writers[w := writer.(phase := Comparing(n))])
    else State(
      s.store[key := StoredObject(body, ChecksumAt(sha, writer.manifest, n))],
      s.writers[w := Writer(writer.manifest, Proceed(n), writer.created + 1)])
  }

  /** get_object after a refused put; an object that is gone is an error. */
  function AfterCompare(sha: Payload -> Digest, s: State, w: nat): State
    requires w < |s.writers| && s.writers[w].phase.Comparing? && PhaseOk(s.writers[w].phase)
  {
    var writer := s.writers[w];
    var n := writer.phase.n;
    var key := KeyAt(writer.manifest, n);
    var same := key in s.store && Agrees(sha, s.store[key], ChecksumAt(sha, writer.manifest, n));
    s.(writers := s.writers[w := writer.(phase := if same then Proceed(n) else Stopped)])
  }

  ghost predicate Next(sha: Payload -> Digest, s: State, s': State, step: Step) {
    match step
    case Start(m) => s' == s.(writers := s.writers + [Writer(m, Putting(0), 0)])
    case Put(w, body) =>
      w < |s.writers| && s.writers[w].phase.Putting? && PhaseOk(s.writers[w].phase) && s' == AfterPut(sha, s, w, body)
    case Compare(w) =>
      w < |s.writers| && s.writers[w].phase.Comparing? && PhaseOk(s.writers[w].phase) && s' == AfterCompare(sha, s, w)
    case Die(w) => w < |s.writers| && s' == s.(writers := s.writers[w := s.writers[w].(phase := Stopped)])
  }

  ghost predicate Behaviour(sha: Payload -> Digest, states: seq<State>, steps: seq<Step>) {
    && |states| == |steps| + 1 && states[0] == State(map[], [])
    && forall i {:trigger steps[i]} :: 0 <= i < |steps| ==> Next(sha, states[i], states[i + 1], steps[i])
  }

  /** How many objects the writer has put or found in agreement. */
  function DoneBy(p: Phase): nat {
    match p
    case Putting(n) => n
    case Comparing(n) => n
    case Finished => 5
    case Stopped => 0
  }

  function TotalCreated(writers: seq<Writer>): nat {
    if writers == [] then 0 else TotalCreated(writers[..|writers| - 1]) + writers[|writers| - 1].created
  }

  /** An object under a manifest key is a manifest of that batch with its own hash as checksum. */
  ghost predicate Committed(sha: Payload -> Digest, store: Store, m: Manifest) {
    KeyAt(m, 4) in store && store[KeyAt(m, 4)] == StoredObject(ManifestBytes(m), sha(ManifestBytes(m)))
  }

  ghost predicate ManifestsComplete(sha: Payload -> Digest, store: Store) {
    forall batch :: Key(batch, ManifestName) in store ==> CompleteAt(sha, store, batch)
  }

  ghost predicate CompleteAt(sha: Payload -> Digest, store: Store, batch: BatchId) {
    exists m: Manifest :: m.batch == batch && Committed(sha, store, m) && forall n :: 0 <= n < 4 ==> Holds(sha, store, m, n)
  }

  ghost predicate WriterOk(sha: Payload -> Digest, store: Store, w: Writer) {
    PhaseOk(w.phase) && forall n :: 0 <= n < DoneBy(w.phase) && n <= 4 ==> Holds(sha, store, w.manifest, n)
  }

  ghost predicate Inv(sha: Payload -> Digest, s: State) {
    && ManifestsComplete(sha, s.store)
    && (forall w :: 0 <= w < |s.writers| ==> WriterOk(sha, s.store, s.writers[w]))
    && |s.store| == TotalCreated(s.writers)
  }

  lemma {:induction false} CreatedByOne(writers: seq<Writer>, w: nat, writer: Writer)
    requires w < |writers|
    ensures TotalCreated(writers[w := writer]) + writers[w].created == TotalCreated(writers) + writer.created
  {
    var after := writers[w := writer];
    if w == |writers| - 1 {
      assert after[..w] == writers[..w];
    } else {
      var last := |writers| - 1;
      assert after[..last] == writers[..last][w := writer];
      CreatedByOne(writers[..last], w, writer);
    }
  }

  lemma StoreGrows(sha: Payload -> Digest, before: Store, after: Store)
    requires Extends(before, after)
    ensures forall w :: WriterOk(sha, before, w) ==> WriterOk(sha, after, w)
    ensures forall batch :: CompleteAt(sha, before, batch) ==> CompleteAt(sha, after, batch)
  {
    forall m, n: nat | n <= 4 && Holds(sha, before, m, n) ensures Holds(sha, after, m, n) {
      HoldsLater(sha, before, after, m, n);
    }
    forall batch | CompleteAt(sha, before, batch) ensures CompleteAt(sha, after, batch) {
      var m: Manifest :| m.batch == batch && Committed(sha, before, m) && forall n :: 0 <= n < 4 ==> Holds(sha, before, m, n);
      assert Committed(sha, after, m);
    }
  }

  lemma PutKeeps(sha: Payload -> Digest, s: State, w: nat, body: Payload)
    requires Inv(sha, s) && w < |s.writers| && s.writers[w].phase.Putting?
    ensures Inv(sha, AfterPut(sha, s, w, body)) && Extends(s.store, AfterPut(sha, s, w, body).store)
  {
    var s' := AfterPut(sha, s, w, body);
    var writer := s.writers[w];
    var n := writer.phase.n;
    CreatedByOne(s.writers, w, s'.writers[w]);
    StoreGrows(sha, s.store, s'.store);
    KeysDiffer(writer.manifest);
    if s'.store != s.store {
      assert Holds(sha, s'.store, writer.manifest, n);
      forall batch | Key(batch, ManifestName) in s'.store ensures CompleteAt(sha, s'.store, batch) {
        if Key(batch, ManifestName) == KeyAt(writer.manifest, n) {
          assert Committed(sha, s'.store, writer.manifest);
          assert forall j :: 0 <= j < 4 ==> Holds(sha, s.store, writer.manifest, j);
        }
      }
    }
  }

  lemma StepKeeps(sha: Payload -> Digest, s: State, s': State, step: Step)
    requires Inv(sha, s) && Next(sha, s, s', step)
    ensures Inv(sha, s') && Extends(s.store, s'.store)
  {
    match step
    case Start(m) => assert s'.writers[..|s.writers|] == s.writers;
    case Put(w, body) => PutKeeps(sha, s, w, body);
    case Compare(w) => CreatedByOne(s.writers, w, s'.writers[w]);
    case Die(w) => CreatedByOne(s.writers, w, s'.writers[w]);
  }

  lemma {:induction false} Reachable(sha: Payload -> Digest, states: seq<State>, steps: seq<Step>, n: nat)
    requires Behaviour(sha, states, steps) && n <= |steps|
    ensures Inv(sha, states[n])
  {
    if n > 0 {
      Reachable(sha, states, steps, n - 1);
      StepKeeps(sha, states[n - 1], states[n], steps[n - 1]);
    }
  }

  /** Landing safety: with any number of writers, equal or conflicting, in any interleaving and with
      any crashes, a visible manifest is whole and all four table objects are there with the
      checksums that it names; and the objects in the store are exactly those that writers report
      as created. */
  lemma VisibleManifestIsComplete(sha: Payload -> Digest, states: seq<State>, steps: seq<Step>, batch: BatchId)
    requires Behaviour(sha, states, steps)
    ensures Key(batch, ManifestName) in states[|steps|].store ==> exists m: Manifest :: Whole(sha, states[|steps|].store, batch, m)
    ensures |states[|steps|].store| == TotalCreated(states[|steps|].writers)
  {
    var store := states[|steps|].store;
    Reachable(sha, states, steps, |steps|);
    if Key(batch, ManifestName) in store {
      var m: Manifest :| m.batch == batch && Committed(sha, store, m) && forall n :: 0 <= n < 4 ==> Holds(sha, store, m, n);
      ObjectsAre(m, sha);
      LandedMeans(sha, store, m);
      assert Whole(sha, store, batch, m);
    }
  }

  /** The visible manifest of the batch is m, and its four tables are there with the checksums it names. */
  ghost predicate Whole(sha: Payload -> Digest, store: Store, batch: BatchId, m: Manifest) {
    && m.batch == batch && Key(batch, ManifestName) in store && store[Key(batch, ManifestName)].body == ManifestBytes(m)
    && store[Key(batch, ManifestName)].checksum == sha(ManifestBytes(m)) && TablesThere(sha, store, m)
  }

  /** No visible object ever changes or disappears. */
  lemma {:induction false} ObjectsNeverChange(sha: Payload -> Digest, states: seq<State>, steps: seq<Step>, i: nat, j: nat)
    requires Behaviour(sha, states, steps) && i <= j <= |steps|
    ensures Extends(states[i].store, states[j].store)
  {
    if i < j {
      ObjectsNeverChange(sha, states, steps, i, j - 1);
      Reachable(sha, states, steps, j - 1);
      StepKeeps(sha, states[j - 1], states[j], steps[j - 1]);
    }
  }

  /** A finished writer's own manifest checksums are the ones in the store, so two writers that both
      finish one batch agree on the checksum of every object, the manifest's own included. */
  lemma FinishedWritersAgree(sha: Payload -> Digest, states: seq<State>, steps: seq<Step>, v: nat, w: nat)
    requires Behaviour(sha, states, steps) && v < |states[|steps|].writers| && w < |states[|steps|].writers|
    requires states[|steps|].writers[v].phase.Finished? && states[|steps|].writers[w].phase.Finished?
    requires states[|steps|].writers[v].manifest.batch == states[|steps|].writers[w].manifest.batch
    ensures var s := states[|steps|];
      var (m, k) := (s.writers[v].manifest, s.writers[w].manifest);
      && Landed(sha, s.store, m)
      && (m.customers, m.orders, m.payments, m.products) == (k.customers, k.orders, k.payments, k.products)
      && sha(ManifestBytes(m)) == sha(ManifestBytes(k))
  {
    Reachable(sha, states, steps, |steps|);
    var s := states[|steps|];
    assert WriterOk(sha, s.store, s.writers[v]) && WriterOk(sha, s.store, s.writers[w]);
    LandedMeans(sha, s.store, s.writers[v].manifest);
    LandedMeans(sha, s.store, s.writers[w].manifest);
  }

  /** A writer alone with a landed batch of the same manifest finishes and creates nothing. */
  lemma LandingAgainCreatesNothing(sha: Payload -> Digest, s: State, w: nat, body: Payload)
    requires Inv(sha, s) && w < |s.writers| && s.writers[w].phase.Putting? && Committed(sha, s.store, s.writers[w].manifest)
    requires Verified(sha, s.writers[w].manifest, s.writers[w].phase.n, body)
    ensures var m := AfterPut(sha, s, w, body);
      m.store == s.store && m.writers[w].phase == Comparing(s.writers[w].phase.n) &&
      AfterCompare(sha, m, w) == s.(writers := s.writers[w := s.writers[w].(phase := Proceed(s.writers[w].phase.n))])
  {
    var manifest := s.writers[w].manifest;
    assert CompleteAt(sha, s.store, manifest.batch);
    var m: Manifest :| m.batch == manifest.batch && Committed(sha, s.store, m) && forall n :: 0 <= n < 4 ==> Holds(sha, s.store, m, n);
    assert m == manifest;
    assert Holds(sha, s.store, manifest, s.writers[w].phase.n);
  }
}
