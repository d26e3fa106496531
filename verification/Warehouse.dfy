/** Byte accounting of the warehouse: an inventory of all object versions, and its partition by
    what the tables still reference. */
module Warehouse {
  import opened Types
  import opened Frames
  import opened Sums

  /** A key split at its slashes. */
  type Key = seq<string>
  type VersionId = nat

  datatype ObjectVersion = ObjectVersion(key: Key, version: VersionId, isLatest: bool, bytes: int)
  datatype DeleteMarker = DeleteMarker(key: Key, version: VersionId, isLatest: bool)

  /** A page of the version listing. */
  datatype Page = Page(versions: seq<ObjectVersion>, markers: seq<DeleteMarker>)

  datatype Layout = Metadata | Data | OtherLayout
  datatype Tally = Tally(objects: int, bytes: int)

  datatype Inventory = Inventory(objects: seq<ObjectVersion>, markers: seq<DeleteMarker>,
    latest: Tally, noncurrent: Tally, metadata: Tally, data: Tally, other: Tally, total: int)

  datatype InventoryError = OutOfScopeOrDuplicate | NegativeSize

  predicate InScope(key: Key) {
    |key| >= 2 && key[0] == "warehouse"
  }

  function LayoutOf(key: Key): Layout
    requires InScope(key)
  {
    var parts := key[1..|key| - 1];
    if "metadata" in parts then Metadata else if "data" in parts then Data else OtherLayout
  }

  function Count(v: ObjectVersion): int { 1 }
  function Bytes(v: ObjectVersion): int { v.bytes }
  function IsLatest(v: ObjectVersion): bool { v.isLatest }
  function LayoutIn(v: ObjectVersion): Layout { if InScope(v.key) then LayoutOf(v.key) else OtherLayout }

  function TallyWhere<K(==)>(objects: seq<ObjectVersion>, key: ObjectVersion -> K, k: K): Tally {
    Tally(SumWhere(objects, key, k, Count), SumWhere(objects, key, k, Bytes))
  }

  function Add(t: Tally, v: ObjectVersion): Tally {
    Tally(t.objects + 1, t.bytes + v.bytes)
  }

  /** One of the folders between "warehouse" and the object's name. */
  predicate HasFolder(v: ObjectVersion, folder: string) {
    |v.key| >= 2 && folder in v.key[1..|v.key| - 1]
  }

  function IsMetadata(v: ObjectVersion): bool { HasFolder(v, "metadata") }
  function IsData(v: ObjectVersion): bool { HasFolder(v, "data") && !HasFolder(v, "metadata") }
  function IsNeither(v: ObjectVersion): bool { !HasFolder(v, "data") && !HasFolder(v, "metadata") }

  /** The number and the bytes of the versions to keep. */
  function TallyOf(objects: seq<ObjectVersion>, keep: ObjectVersion -> bool): Tally {
    Tally(|Filter(objects, keep)|, Sum(Filter(objects, keep), Bytes))
  }

  lemma {:induction false} SameTally<K>(objects: seq<ObjectVersion>, key: ObjectVersion -> K, k: K, keep: ObjectVersion -> bool)
    requires forall v :: v in objects ==> (key(v) == k <==> keep(v))
    ensures TallyWhere(objects, key, k) == TallyOf(objects, keep)
  {
    if objects != [] {
      assert objects[0] in objects;
      SameTally(objects[1..], key, k, keep);
    }
  }

  lemma TallyGrows<K>(objects: seq<ObjectVersion>, v: ObjectVersion, key: ObjectVersion -> K, k: K)
    ensures TallyWhere(objects + [v], key, k) == if key(v) == k then Add(TallyWhere(objects, key, k), v) else TallyWhere(objects, key, k)
  {
    SumWhereGrows(objects, v, key, k, Count);
    SumWhereGrows(objects, v, key, k, Bytes);
  }

  // ---------------------------------------------------------------- the inventory

  function VersionsOf(pages: seq<Page>): seq<ObjectVersion> {
    if pages == [] then [] else VersionsOf(pages[..|pages| - 1]) + pages[|pages| - 1].versions
  }

  function MarkersOf(pages: seq<Page>): seq<DeleteMarker> {
    if pages == [] then [] else MarkersOf(pages[..|pages| - 1]) + pages[|pages| - 1].markers
  }

  function VersionIdentity(v: ObjectVersion): (Key, VersionId) { (v.key, v.version) }
  function MarkerIdentity(m: DeleteMarker): (Key, VersionId) { (m.key, m.version) }

  /** Everything listed so far is in scope, has a size, and is listed once. */
  ghost predicate Accepted(versions: seq<ObjectVersion>, markers: seq<DeleteMarker>) {
    && (forall v :: v in versions ==> |v.key| >= 2 && v.key[0] == "warehouse" && v.bytes >= 0)
    && (forall m :: m in markers ==> |m.key| >= 2 && m.key[0] == "warehouse")
    && NoDuplicates(Map(versions, VersionIdentity) + Map(markers, MarkerIdentity))
  }

  /** The counters agree with the versions listed so far. */
  ghost predicate Counted(r: Inventory) {
    && r.latest == TallyWhere(r.objects, IsLatest, true) && r.noncurrent == TallyWhere(r.objects, IsLatest, false)
    && r.metadata == TallyWhere(r.objects, LayoutIn, Metadata) && r.data == TallyWhere(r.objects, LayoutIn, Data)
    && r.other == TallyWhere(r.objects, LayoutIn, OtherLayout)
  }

  /** The counters, by what the versions are: latest or not, under a metadata folder, else under a data
      folder, else neither. */
  ghost predicate CountsWhatIsListed(r: Inventory, versions: seq<ObjectVersion>) {
    && r.latest == TallyOf(versions, (v: ObjectVersion) => v.isLatest) && r.noncurrent == TallyOf(versions, (v: ObjectVersion) => !v.isLatest)
    && r.metadata == TallyOf(versions, IsMetadata) && r.data == TallyOf(versions, IsData) && r.other == TallyOf(versions, IsNeither)
  }

  lemma CountersMean(r: Inventory)
    requires Counted(r) && forall v :: v in r.objects ==> InScope(v.key)
    ensures CountsWhatIsListed(r, r.objects)
  {
    SameTally(r.objects, IsLatest, true, (v: ObjectVersion) => v.isLatest);
    SameTally(r.objects, IsLatest, false, (v: ObjectVersion) => !v.isLatest);
    SameTally(r.objects, LayoutIn, Metadata, IsMetadata);
    SameTally(r.objects, LayoutIn, Data, IsData);
    SameTally(r.objects, LayoutIn, OtherLayout, IsNeither);
  }

  lemma CountersGrow(r: Inventory, v: ObjectVersion, next: Inventory)
    requires Counted(r) && InScope(v.key) && next.objects == r.objects + [v]
    requires next.latest == (if v.isLatest then Add(r.latest, v) else r.latest)
    requires next.noncurrent == (if v.isLatest then r.noncurrent else Add(r.noncurrent, v))
    requires next.metadata == (if LayoutOf(v.key) == Metadata then Add(r.metadata, v) else r.metadata)
    requires next.data == (if LayoutOf(v.key) == Data then Add(r.data, v) else r.data)
    requires next.other == (if LayoutOf(v.key) == OtherLayout then Add(r.other, v) else r.other)
    ensures Counted(next)
  {
    TallyGrows(r.objects, v, IsLatest, true);
    TallyGrows(r.objects, v, IsLatest, false);
    TallyGrows(r.objects, v, LayoutIn, Metadata);
    TallyGrows(r.objects, v, LayoutIn, Data);
    TallyGrows(r.objects, v, LayoutIn, OtherLayout);
  }

  class WarehouseLister {
    var seen: set<(Key, VersionId)>
    var inventory: Inventory

    constructor ()
      ensures seen == {} && Counted(inventory) && inventory.objects == [] && inventory.markers == []
    {
      var none := Tally(0, 0);
      seen, inventory := {}, Inventory([], [], none, none, none, none, none, 0);
    }

    ghost predicate Valid()
      reads this
    {
      && Counted(inventory) && Accepted(inventory.objects, inventory.markers)
      && forall k :: k in seen <==> k in Map(inventory.objects, VersionIdentity) + Map(inventory.markers, MarkerIdentity)
    }

    /** One listed version. */
    method ReadVersion(v: ObjectVersion) returns (error: Option<InventoryError>)
      requires Valid()
      modifies this
      ensures error == None ==> Valid() && inventory.objects == old(inventory.objects) + [v] && inventory.markers == old(inventory.markers)
      ensures error != None ==> !Accepted(old(inventory.objects) + [v], old(inventory.markers))
    {
      var r := inventory;
      AcceptedVersion(r.objects, r.markers, v);
      if !InScope(v.key) || VersionIdentity(v) in seen { return Some(OutOfScopeOrDuplicate); }
      seen := seen + {VersionIdentity(v)};
      if v.bytes < 0 { return Some(NegativeSize); }
      r := r.(objects := r.objects + [v]);
      r := if v.isLatest then r.(latest := Add(r.latest, v)) else r.(noncurrent := Add(r.noncurrent, v));
      r := match LayoutOf(v.key)
        case Metadata => r.(metadata := Add(r.metadata, v))
        case Data => r.(data := Add(r.data, v))
        case OtherLayout => r.(other := Add(r.other, v));
      CountersGrow(inventory, v, r);
      inventory := r;
      error := None;
    }

    /** One delete marker: listed, but without payload. */
    method ReadMarker(m: DeleteMarker) returns (error: Option<InventoryError>)
      requires Valid()
      modifies this
      ensures error == None ==> Valid() && inventory.markers == old(inventory.markers) + [m] && inventory.objects == old(inventory.objects)
      ensures error != None ==> !Accepted(old(inventory.objects), old(inventory.markers) + [m])
    {
      AcceptedMarker(inventory.objects, inventory.markers, m);
      if !InScope(m.key) || MarkerIdentity(m) in seen { return Some(OutOfScopeOrDuplicate); }
      seen := seen + {MarkerIdentity(m)};
      inventory := inventory.(markers := inventory.markers + [m]);
      error := None;
    }
  }

  lemma AcceptedVersion(versions: seq<ObjectVersion>, markers: seq<DeleteMarker>, v: ObjectVersion)
    requires Accepted(versions, markers)
    ensures Accepted(versions + [v], markers) <==>
      InScope(v.key) && v.bytes >= 0 && VersionIdentity(v) !in Map(versions, VersionIdentity) + Map(markers, MarkerIdentity)
    ensures forall k :: k in Map(versions + [v], VersionIdentity) + Map(markers, MarkerIdentity) <==>
      k == VersionIdentity(v) || k in Map(versions, VersionIdentity) + Map(markers, MarkerIdentity)
  {
    var before := Map(versions, VersionIdentity) + Map(markers, MarkerIdentity);
    var after := Map(versions + [v], VersionIdentity) + Map(markers, MarkerIdentity);
    var n := |versions|;
    assert after[n] == VersionIdentity(v);
    assert Without(after, n) == before;
    OneMore(after, n);
    assert forall x :: x in versions + [v] <==> x in versions || x == v;
  }

  lemma AcceptedMarker(versions: seq<ObjectVersion>, markers: seq<DeleteMarker>, m: DeleteMarker)
    requires Accepted(versions, markers)
    ensures Accepted(versions, markers + [m]) <==>
      InScope(m.key) && MarkerIdentity(m) !in Map(versions, VersionIdentity) + Map(markers, MarkerIdentity)
    ensures forall k :: k in Map(versions, VersionIdentity) + Map(markers + [m], MarkerIdentity) <==>
      k == MarkerIdentity(m) || k in Map(versions, VersionIdentity) + Map(markers, MarkerIdentity)
  {
    var before := Map(versions, VersionIdentity) + Map(markers, MarkerIdentity);
    var after := Map(versions, VersionIdentity) + Map(markers + [m], MarkerIdentity);
    var n := |versions| + |markers|;
    assert after[n] == MarkerIdentity(m);
    assert Without(after, n) == before;
    OneMore(after, n);
    assert forall x :: x in markers + [m] <==> x in markers || x == m;
  }

  /** A list has no duplicates when the rest has none and lacks the one left out. */
  lemma OneMore<T(!new)>(s: seq<T>, n: nat)
    requires n < |s|
    ensures NoDuplicates(s) <==> NoDuplicates(Without(s, n)) && s[n] !in Without(s, n)
    ensures forall x :: x in s <==> x == s[n] || x in Without(s, n)
  {
    var rest := Without(s, n);
    assert forall i :: 0 <= i < n ==> rest[i] == s[i];
    assert forall i :: n < i < |s| ==> rest[i - 1] == s[i];
    forall x | x in s ensures x == s[n] || x in rest {
      var i :| 0 <= i < |s| && s[i] == x;
      if i < n {
        assert rest[i] == x;
      } else if n < i {
        assert rest[i - 1] == x;
      }
    }
  }

  lemma AcceptedParts(versions: seq<ObjectVersion>, markers: seq<DeleteMarker>, a: nat, b: nat)
    requires Accepted(versions, markers) && a <= |versions| && b <= |markers|
    ensures Accepted(versions[..a], markers[..b])
  {
    var all := Map(versions, VersionIdentity) + Map(markers, MarkerIdentity);
    var part := Map(versions[..a], VersionIdentity) + Map(markers[..b], MarkerIdentity);
    assert forall i :: 0 <= i < a ==> part[i] == all[i];
    assert forall i :: a <= i < a + b ==> part[i] == all[|versions| - a + i];
    forall v | v in versions[..a] ensures v in versions {
    }
  }

  lemma {:induction false} PagePrefix(pages: seq<Page>, i: nat)
    requires i <= |pages|
    ensures VersionsOf(pages[..i]) <= VersionsOf(pages) && MarkersOf(pages[..i]) <= MarkersOf(pages)
    decreases |pages| - i
  {
    if i < |pages| {
      PagePrefix(pages, i + 1);
      assert pages[..i + 1][..i] == pages[..i];
    } else {
      assert pages[..i] == pages;
    }
  }

  lemma VersionParts(pages: seq<Page>, i: nat, j: nat)
    requires i < |pages| && j <= |pages[i].versions|
    ensures VersionsOf(pages[..i]) + pages[i].versions[..j] <= VersionsOf(pages)
    ensures VersionsOf(pages[..i]) + pages[i].versions == VersionsOf(pages[..i + 1])
  {
    PagePrefix(pages, i + 1);
    assert pages[..i + 1][..i] == pages[..i];
  }

  lemma MarkerParts(pages: seq<Page>, i: nat, k: nat)
    requires i < |pages| && k <= |pages[i].markers|
    ensures MarkersOf(pages[..i]) + pages[i].markers[..k] <= MarkersOf(pages)
    ensures MarkersOf(pages[..i]) + pages[i].markers == MarkersOf(pages[..i + 1])
  {
    PagePrefix(pages, i + 1);
    assert pages[..i + 1][..i] == pages[..i];
  }

  /** If part of a listing is rejected, all of it is. */
  lemma RejectedPart(allVersions: seq<ObjectVersion>, allMarkers: seq<DeleteMarker>, versions: seq<ObjectVersion>, markers: seq<DeleteMarker>)
    requires versions <= allVersions && markers <= allMarkers
    ensures Accepted(allVersions, allMarkers) ==> Accepted(versions, markers)
  {
    assert allVersions[..|versions|] == versions && allMarkers[..|markers|] == markers;
    if Accepted(allVersions, allMarkers) {
      AcceptedParts(allVersions, allMarkers, |versions|, |markers|);
    }
  }

  lemma OneMoreOf<T>(before: seq<T>, page: seq<T>, k: nat)
    requires k < |page|
    ensures before + page[..k] + [page[k]] == before + page[..k + 1]
  {
  }

  lemma NextVersion(pages: seq<Page>, i: nat, j: nat)
    requires i < |pages| && j < |pages[i].versions|
    ensures VersionsOf(pages[..i]) + pages[i].versions[..j] + [pages[i].versions[j]] == VersionsOf(pages[..i]) + pages[i].versions[..j + 1]
    ensures Accepted(VersionsOf(pages), MarkersOf(pages)) ==> Accepted(VersionsOf(pages[..i]) + pages[i].versions[..j + 1], MarkersOf(pages[..i]))
  {
    OneMoreOf(VersionsOf(pages[..i]), pages[i].versions, j);
    VersionParts(pages, i, j + 1);
    PagePrefix(pages, i);
    RejectedPart(VersionsOf(pages), MarkersOf(pages), VersionsOf(pages[..i]) + pages[i].versions[..j + 1], MarkersOf(pages[..i]));
  }

  lemma NextMarker(pages: seq<Page>, i: nat, k: nat)
    requires i < |pages| && k < |pages[i].markers|
    ensures MarkersOf(pages[..i]) + pages[i].markers[..k] + [pages[i].markers[k]] == MarkersOf(pages[..i]) + pages[i].markers[..k + 1]
    ensures Accepted(VersionsOf(pages), MarkersOf(pages)) ==> Accepted(VersionsOf(pages[..i + 1]), MarkersOf(pages[..i]) + pages[i].markers[..k + 1])
  {
    OneMoreOf(MarkersOf(pages[..i]), pages[i].markers, k);
    MarkerParts(pages, i, k + 1);
    PagePrefix(pages, i + 1);
    RejectedPart(VersionsOf(pages), MarkersOf(pages), VersionsOf(pages[..i + 1]), MarkersOf(pages[..i]) + pages[i].markers[..k + 1]);
  }

  method ReadVersions(lister: WarehouseLister, ghost pages: seq<Page>, ghost i: nat, page: Page) returns (error: Option<InventoryError>)
    requires lister.Valid() && i < |pages| && pages[i] == page
    requires lister.inventory.objects == VersionsOf(pages[..i]) && lister.inventory.markers == MarkersOf(pages[..i])
    modifies lister
    ensures error != None ==> !Accepted(VersionsOf(pages), MarkersOf(pages))
    ensures error == None ==>
      lister.Valid() && lister.inventory.objects == VersionsOf(pages[..i + 1]) && lister.inventory.markers == MarkersOf(pages[..i])
  {
    for j := 0 to |page.versions|
      invariant lister.Valid()
      invariant lister.inventory.objects == VersionsOf(pages[..i]) + page.versions[..j] && lister.inventory.markers == MarkersOf(pages[..i])
    {
      NextVersion(pages, i, j);
      error := lister.ReadVersion(page.versions[j]);
      if error != None { return; }
    }
    VersionParts(pages, i, |page.versions|);
    error := None;
  }

  method ReadMarkers(lister: WarehouseLister, ghost pages: seq<Page>, ghost i: nat, page: Page) returns (error: Option<InventoryError>)
    requires lister.Valid() && i < |pages| && pages[i] == page
    requires lister.inventory.objects == VersionsOf(pages[..i + 1]) && lister.inventory.markers == MarkersOf(pages[..i])
    modifies lister
    ensures error != None ==> !Accepted(VersionsOf(pages), MarkersOf(pages))
    ensures error == None ==>
      lister.Valid() && lister.inventory.objects == VersionsOf(pages[..i + 1]) && lister.inventory.markers == MarkersOf(pages[..i + 1])
  {
    for k := 0 to |page.markers|
      invariant lister.Valid()
      invariant lister.inventory.objects == VersionsOf(pages[..i + 1]) && lister.inventory.markers == MarkersOf(pages[..i]) + page.markers[..k]
    {
      NextMarker(pages, i, k);
      error := lister.ReadMarker(page.markers[k]);
      if error != None { return; }
    }
    MarkerParts(pages, i, |page.markers|);
    error := None;
  }

  /** The inventory succeeds exactly on a listing that is in scope, has sizes and lists each version
      once; then it has every version, and its counters are those of the versions. */
  method WarehouseInventory(pages: seq<Page>) returns (result: Result<Inventory, InventoryError>)
    ensures result.Success? <==> Accepted(VersionsOf(pages), MarkersOf(pages))
    ensures result.Success? ==>
      && result.value.objects == VersionsOf(pages) && result.value.markers == MarkersOf(pages)
      && Counted(result.value) && CountsWhatIsListed(result.value, VersionsOf(pages))
      && result.value.total == Sum(VersionsOf(pages), Bytes)
  {
    var lister := new WarehouseLister();
    for i := 0 to |pages|
      invariant fresh(lister) && lister.Valid()
      invariant lister.inventory.objects == VersionsOf(pages[..i]) && lister.inventory.markers == MarkersOf(pages[..i])
    {
      var error := ReadVersions(lister, pages, i, pages[i]);
      if error != None { return Failure(error.value); }
      error := ReadMarkers(lister, pages, i, pages[i]);
      if error != None { return Failure(error.value); }
    }
    assert pages[..|pages|] == pages;
    var r := lister.inventory;
    InventoryConserves(r);
    CountersMean(r);
    result := Success(r.(total := r.latest.bytes + r.noncurrent.bytes));
  }

  /** Both ways of splitting the versions add up to all of them. */
  lemma InventoryConserves(r: Inventory)
    requires Counted(r)
    ensures r.latest.bytes + r.noncurrent.bytes == Sum(r.objects, Bytes)
    ensures r.metadata.bytes + r.data.bytes + r.other.bytes == Sum(r.objects, Bytes)
    ensures r.latest.objects + r.noncurrent.objects == |r.objects| == r.metadata.objects + r.data.objects + r.other.objects
  {
    GroupsConserve([true, false], r.objects, IsLatest, Bytes);
    GroupsConserve([true, false], r.objects, IsLatest, Count);
    GroupsConserve([Metadata, Data, OtherLayout], r.objects, LayoutIn, Bytes);
    GroupsConserve([Metadata, Data, OtherLayout], r.objects, LayoutIn, Count);
    SumOfCounts(r.objects);
    TwoGroups(r.objects, Bytes);
    TwoGroups(r.objects, Count);
    ThreeGroups(r.objects, Bytes);
    ThreeGroups(r.objects, Count);
  }

  lemma TwoGroups(s: seq<ObjectVersion>, f: ObjectVersion -> int)
    ensures SumOverKeys([true, false], s, IsLatest, f) == SumWhere(s, IsLatest, true, f) + SumWhere(s, IsLatest, false, f)
  {
    var keys := [true, false];
    FirstKey(keys, s, IsLatest, f);
    FirstKey(keys[1..], s, IsLatest, f);
    FirstKey(keys[1..][1..], s, IsLatest, f);
  }

  lemma ThreeGroups(s: seq<ObjectVersion>, f: ObjectVersion -> int)
    ensures SumOverKeys([Metadata, Data, OtherLayout], s, LayoutIn, f) ==
      SumWhere(s, LayoutIn, Metadata, f) + SumWhere(s, LayoutIn, Data, f) + SumWhere(s, LayoutIn, OtherLayout, f)
  {
    var keys := [Metadata, Data, OtherLayout];
    FirstKey(keys, s, LayoutIn, f);
    FirstKey(keys[1..], s, LayoutIn, f);
    FirstKey(keys[1..][1..], s, LayoutIn, f);
    FirstKey(keys[1..][1..][1..], s, LayoutIn, f);
  }

  lemma {:induction false} SumOfCounts(s: seq<ObjectVersion>)
    ensures Sum(s, Count) == |s|
  {
    if s != [] {
      SumOfCounts(s[1..]);
    }
  }

  // ---------------------------------------------------------------- references

  /** A file reference of a table; None for a path outside the plain warehouse scope. */
  datatype Reference = Reference(path: Option<Key>, bytes: int, content: nat)
  datatype FileSize = FileSize(bytes: int, content: nat)
  datatype TableReferences = TableReferences(current: seq<Reference>, retained: seq<Reference>)
  type References = map<Key, FileSize>

  datatype Group = CurrentData | CurrentDelete | RetainedOnlyData | RetainedOnlyDelete | LatestUnreferenced | Noncurrent

  datatype ReferenceError = OutOfScope | ConflictingReferences | CurrentNotRetained | MissingOrDifferent | TotalsDiffer

  const GROUPS: seq<Group> := [CurrentData, CurrentDelete, RetainedOnlyData, RetainedOnlyDelete, LatestUnreferenced, Noncurrent]

  /** Adding one reference to a table's union; the same path must always say the same. */
  function AddReference(refs: References, r: Reference): Result<References, ReferenceError> {
    if r.path == None then Failure(OutOfScope)
    else if r.path.value in refs && refs[r.path.value] != FileSize(r.bytes, r.content) then Failure(ConflictingReferences)
    else Success(refs[r.path.value := FileSize(r.bytes, r.content)])
  }

  function AddReferences(refs: References, rows: seq<Reference>): Result<References, ReferenceError> {
    if rows == [] then Success(refs)
    else
      var before := AddReferences(refs, rows[..|rows| - 1]);
      if before.Failure? then before else AddReference(before.value, rows[|rows| - 1])
  }

  function GroupIn(current: References, retained: References, v: ObjectVersion): Group {
    if !v.isLatest then Noncurrent
    else if v.key in current then if current[v.key].content == 0 then CurrentData else CurrentDelete
    else if v.key in retained then if retained[v.key].content == 0 then RetainedOnlyData else RetainedOnlyDelete
    else LatestUnreferenced
  }

  function Grouping(current: References, retained: References): ObjectVersion -> Group {
    (v: ObjectVersion) => GroupIn(current, retained, v)
  }

  /** What a version is counted as: noncurrent, referenced by the current files, referenced only by
      retained ones, or by neither; data files have content 0. */
  ghost predicate IsOf(current: References, retained: References, v: ObjectVersion, g: Group) {
    match g
    case Noncurrent => !v.isLatest
    case CurrentData => v.isLatest && v.key in current && current[v.key].content == 0
    case CurrentDelete => v.isLatest && v.key in current && current[v.key].content != 0
    case RetainedOnlyData => v.isLatest && v.key !in current && v.key in retained && retained[v.key].content == 0
    case RetainedOnlyDelete => v.isLatest && v.key !in current && v.key in retained && retained[v.key].content != 0
    case LatestUnreferenced => v.isLatest && v.key !in current && v.key !in retained
  }

  ghost function MembersOf(current: References, retained: References, g: Group): ObjectVersion -> bool {
    (v: ObjectVersion) => IsOf(current, retained, v, g)
  }

  /** The six groups tally what their versions are. */
  ghost predicate GroupsTally(objects: seq<ObjectVersion>, current: References, retained: References, groups: map<Group, Tally>) {
    forall g :: g in groups && groups[g] == TallyOf(objects, MembersOf(current, retained, g))
  }

  lemma GroupsMean(objects: seq<ObjectVersion>, current: References, retained: References, groups: map<Group, Tally>)
    requires forall g :: g in GROUPS ==> g in groups && groups[g] == TallyWhere(objects, Grouping(current, retained), g)
    ensures GroupsTally(objects, current, retained, groups)
  {
    forall g ensures g in groups && groups[g] == TallyOf(objects, MembersOf(current, retained, g)) {
      EveryGroup(g);
      SameTally(objects, Grouping(current, retained), g, MembersOf(current, retained, g));
    }
  }

  /** {row["key"]: row for latest rows}: the last one listed wins. */
  function LatestByKey(objects: seq<ObjectVersion>): map<Key, ObjectVersion> {
    if objects == [] then map[]
    else
      var v := objects[|objects| - 1];
      var before := LatestByKey(objects[..|objects| - 1]);
      if v.isLatest then before[v.key := v] else before
  }

  predicate CurrentRetained(current: References, retained: References) {
    forall k | k in current :: k in retained && retained[k] == current[k]
  }

  predicate RetainedStored(retained: References, latest: map<Key, ObjectVersion>) {
    forall k | k in retained :: k in latest && latest[k].bytes == retained[k].bytes
  }

  method Collect(refs: References, rows: seq<Reference>) returns (result: Result<References, ReferenceError>)
    ensures result == AddReferences(refs, rows) && (result.Failure? ==> result.error != TotalsDiffer)
  {
    var target := refs;
    for i := 0 to |rows|
      invariant AddReferences(refs, rows[..i]) == Success(target)
    {
      assert rows[..i + 1][..i] == rows[..i];
      var next := AddReference(target, rows[i]);
      if next.Failure? {
        FailsOn(refs, rows, i + 1);
        return next;
      }
      target := next.value;
    }
    assert rows[..|rows|] == rows;
    result := Success(target);
  }

  lemma {:induction false} FailsOn(refs: References, rows: seq<Reference>, i: nat)
    requires i <= |rows| && AddReferences(refs, rows[..i]).Failure?
    ensures AddReferences(refs, rows) == AddReferences(refs, rows[..i])
  {
    if i == |rows| {
      assert rows[..i] == rows;
    } else {
      assert rows[..|rows| - 1][..i] == rows[..i];
      FailsOn(refs, rows[..|rows| - 1], i);
    }
  }

  /** All current and all retained references of all tables. */
  function AllCurrent(tables: seq<TableReferences>): seq<Reference> {
    if tables == [] then [] else AllCurrent(tables[..|tables| - 1]) + tables[|tables| - 1].current
  }

  function AllRetained(tables: seq<TableReferences>): seq<Reference> {
    if tables == [] then [] else AllRetained(tables[..|tables| - 1]) + tables[|tables| - 1].retained
  }

  datatype Reconciliation = Reconciliation(current: References, retained: References, groups: map<Group, Tally>)

  method GroupVersions(objects: seq<ObjectVersion>, current: References, retained: References) returns (groups: map<Group, Tally>)
    ensures forall g :: g in GROUPS ==> g in groups && groups[g] == TallyWhere(objects, Grouping(current, retained), g)
    ensures GroupsTally(objects, current, retained, groups)
  {
    groups := map g | g in GROUPS :: Tally(0, 0);
    for i := 0 to |objects|
      invariant forall g :: g in GROUPS ==> g in groups && groups[g] == TallyWhere(objects[..i], Grouping(current, retained), g)
    {
      var v := objects[i];
      var group := GroupIn(current, retained, v);
      assert objects[..i + 1] == objects[..i] + [v];
      forall g | g in GROUPS
        ensures TallyWhere(objects[..i + 1], Grouping(current, retained), g) ==
          if g == group then Add(TallyWhere(objects[..i], Grouping(current, retained), g), v) else TallyWhere(objects[..i], Grouping(current, retained), g)
      {
        TallyGrows(objects[..i], v, Grouping(current, retained), g);
      }
      EveryGroup(group);
      groups := groups[group := Add(groups[group], v)];
    }
    assert objects[..|objects|] == objects;
    GroupsMean(objects, current, retained, groups);
  }

  lemma EveryGroup(g: Group)
    ensures g in GROUPS && NoDuplicates(GROUPS)
  {
  }

  function TotalOf(groups: map<Group, Tally>): int
    requires forall g :: g in GROUPS ==> g in groups
  {
    EveryGroup(CurrentData); EveryGroup(CurrentDelete); EveryGroup(RetainedOnlyData);
    EveryGroup(RetainedOnlyDelete); EveryGroup(LatestUnreferenced); EveryGroup(Noncurrent);
    groups[CurrentData].bytes + groups[CurrentDelete].bytes + groups[RetainedOnlyData].bytes
      + groups[RetainedOnlyDelete].bytes + groups[LatestUnreferenced].bytes + groups[Noncurrent].bytes
  }

  /** The six groups cover every version once. */
  lemma GroupsPartition(objects: seq<ObjectVersion>, current: References, retained: References, groups: map<Group, Tally>)
    requires forall g :: g in GROUPS ==> g in groups && groups[g] == TallyWhere(objects, Grouping(current, retained), g)
    ensures TotalOf(groups) == Sum(objects, Bytes)
  {
    EveryGroup(CurrentData);
    forall v | v in objects ensures GroupIn(current, retained, v) in GROUPS {
      EveryGroup(GroupIn(current, retained, v));
    }
    GroupsConserve(GROUPS, objects, Grouping(current, retained), Bytes);
    SixGroups(objects, Grouping(current, retained));
    EveryGroup(CurrentDelete); EveryGroup(RetainedOnlyData); EveryGroup(RetainedOnlyDelete);
    EveryGroup(LatestUnreferenced); EveryGroup(Noncurrent);
  }

  lemma SixGroups(s: seq<ObjectVersion>, key: ObjectVersion -> Group)
    ensures SumOverKeys(GROUPS, s, key, Bytes) ==
      SumWhere(s, key, CurrentData, Bytes) + SumWhere(s, key, CurrentDelete, Bytes) + SumWhere(s, key, RetainedOnlyData, Bytes)
      + SumWhere(s, key, RetainedOnlyDelete, Bytes) + SumWhere(s, key, LatestUnreferenced, Bytes) + SumWhere(s, key, Noncurrent, Bytes)
  {
    var last := [LatestUnreferenced, Noncurrent];
    var middle := [RetainedOnlyData, RetainedOnlyDelete] + last;
    assert GROUPS[1..][1..] == middle && middle[1..][1..] == last;
    FirstKey(GROUPS, s, key, Bytes);
    FirstKey(GROUPS[1..], s, key, Bytes);
    FirstKey(middle, s, key, Bytes);
    FirstKey(middle[1..], s, key, Bytes);
    FirstKey(last, s, key, Bytes);
    FirstKey(last[1..], s, key, Bytes);
    FirstKey(last[1..][1..], s, key, Bytes);
  }

  lemma {:induction false} AddMore(refs: References, a: seq<Reference>, b: seq<Reference>)
    ensures AddReferences(refs, a + b) ==
      if AddReferences(refs, a).Failure? then AddReferences(refs, a) else AddReferences(AddReferences(refs, a).value, b)
  {
    if b == [] {
      assert a + b == a;
    } else {
      AddMore(refs, a, b[..|b| - 1]);
      assert (a + b)[..|a + b| - 1] == a + b[..|b| - 1];
    }
  }

  // ---------------------------------------------------------------- what the references say

  function SizeOf(r: Reference): FileSize {
    FileSize(r.bytes, r.content)
  }

  ghost predicate Says(rows: seq<Reference>, k: Key, f: FileSize) {
    exists r :: r in rows && r.path == Some(k) && SizeOf(r) == f
  }

  /** All paths are in scope, and no path is listed with two sizes or contents. */
  ghost predicate Agreeing(rows: seq<Reference>) {
    && (forall r :: r in rows ==> r.path != None)
    && (forall q, r :: q in rows && r in rows && q.path == r.path ==> SizeOf(q) == SizeOf(r))
  }

  /** The union has what the rows say and nothing else. */
  ghost predicate Unites(refs: References, rows: seq<Reference>) {
    forall k, f :: Says(rows, k, f) <==> k in refs && refs[k] == f
  }

  lemma SaysMore(rows: seq<Reference>, last: Reference, k: Key, f: FileSize)
    ensures Says(rows + [last], k, f) <==> Says(rows, k, f) || (last.path == Some(k) && SizeOf(last) == f)
  {
    if last.path == Some(k) && SizeOf(last) == f {
      assert last in rows + [last];
    }
    if r :| r in rows && r.path == Some(k) && SizeOf(r) == f {
      assert r in rows + [last];
    }
  }

  lemma AgreesWithOne(rows: seq<Reference>, last: Reference, refs: References)
    requires Agreeing(rows) && Unites(refs, rows)
    ensures AddReference(refs, last).Success? <==> Agreeing(rows + [last])
    ensures AddReference(refs, last).Success? ==> Unites(AddReference(refs, last).value, rows + [last])
  {
    assert last in rows + [last] && forall r :: r in rows + [last] <==> r in rows || r == last;
    if last.path != None {
      var k := last.path.value;
      forall r | r in rows && r.path == last.path ensures k in refs && refs[k] == SizeOf(r) {
        assert Says(rows, k, SizeOf(r));
      }
      if k in refs {
        assert Says(rows, k, refs[k]);
      }
    }
    forall k, f ensures Says(rows + [last], k, f) <==> Says(rows, k, f) || (last.path == Some(k) && SizeOf(last) == f) {
      SaysMore(rows, last, k, f);
    }
  }

  /** Collecting succeeds exactly on references that agree, and unites them. */
  lemma {:induction false} AgreeingExactly(rows: seq<Reference>)
    ensures AddReferences(map[], rows).Success? <==> Agreeing(rows)
    ensures AddReferences(map[], rows).Success? ==> Unites(AddReferences(map[], rows).value, rows)
  {
    if rows != [] {
      var before, last := rows[..|rows| - 1], rows[|rows| - 1];
      assert rows == before + [last];
      AgreeingExactly(before);
      if Agreeing(before) {
        AgreesWithOne(before, last, AddReferences(map[], before).value);
      } else {
        assert forall r :: r in before ==> r in rows;
      }
    }
  }

  /** The latest version of the key, the last one if several are listed as latest, has that size. */
  ghost predicate StoredAs(objects: seq<ObjectVersion>, k: Key, bytes: int) {
    exists i :: 0 <= i < |objects| && IsLastLatest(objects, k, i) && objects[i].bytes == bytes
  }

  predicate IsLastLatest(objects: seq<ObjectVersion>, k: Key, i: nat)
    requires i < |objects|
  {
    objects[i].isLatest && objects[i].key == k && forall j | i < j < |objects| :: !(objects[j].isLatest && objects[j].key == k)
  }

  lemma {:induction false} LatestExactly(objects: seq<ObjectVersion>, k: Key, bytes: int)
    ensures k in LatestByKey(objects) && LatestByKey(objects)[k].bytes == bytes <==> StoredAs(objects, k, bytes)
  {
    if objects != [] {
      var before, last := objects[..|objects| - 1], objects[|objects| - 1];
      LatestExactly(before, k, bytes);
      if last.isLatest && last.key == k {
        assert IsLastLatest(objects, k, |before|);
      } else {
        assert forall i :: 0 <= i < |before| ==> (IsLastLatest(objects, k, i) <==> IsLastLatest(before, k, i));
      }
    }
  }

  /** What a reconciliation needs besides agreeing totals: references that agree among themselves,
      every current one also retained, and every retained one stored in its size. */
  ghost predicate Reconcilable(objects: seq<ObjectVersion>, tables: seq<TableReferences>) {
    && Agreeing(AllCurrent(tables)) && Agreeing(AllRetained(tables))
    && (forall k, f :: Says(AllCurrent(tables), k, f) ==> Says(AllRetained(tables), k, f))
    && (forall k, f :: Says(AllRetained(tables), k, f) ==> StoredAs(objects, k, f.bytes))
  }

  lemma ReconcilableExactly(objects: seq<ObjectVersion>, tables: seq<TableReferences>, current: References, retained: References)
    requires Agreeing(AllCurrent(tables)) && Unites(current, AllCurrent(tables))
    requires Agreeing(AllRetained(tables)) && Unites(retained, AllRetained(tables))
    ensures Reconcilable(objects, tables) <==> CurrentRetained(current, retained) && RetainedStored(retained, LatestByKey(objects))
  {
    forall k, bytes ensures k in LatestByKey(objects) && LatestByKey(objects)[k].bytes == bytes <==> StoredAs(objects, k, bytes) {
      LatestExactly(objects, k, bytes);
    }
    if Reconcilable(objects, tables) {
      forall k | k in current ensures k in retained && retained[k] == current[k] {
        assert Says(AllCurrent(tables), k, current[k]);
      }
      forall k | k in retained ensures k in LatestByKey(objects) && LatestByKey(objects)[k].bytes == retained[k].bytes {
        assert Says(AllRetained(tables), k, retained[k]);
      }
    }
  }

  lemma TablePrefix(tables: seq<TableReferences>, i: nat)
    requires i < |tables|
    ensures AllCurrent(tables[..i + 1]) == AllCurrent(tables[..i]) + tables[i].current
    ensures AllRetained(tables[..i + 1]) == AllRetained(tables[..i]) + tables[i].retained
  {
    assert tables[..i + 1][..i] == tables[..i];
  }

  lemma {:induction false} FailsInPrefix(tables: seq<TableReferences>, i: nat)
    requires i <= |tables|
    ensures AddReferences(map[], AllCurrent(tables[..i])).Failure? ==> AddReferences(map[], AllCurrent(tables)).Failure?
    ensures AddReferences(map[], AllRetained(tables[..i])).Failure? ==> AddReferences(map[], AllRetained(tables)).Failure?
    decreases |tables| - i
  {
    if i < |tables| {
      TablePrefix(tables, i);
      AddMore(map[], AllCurrent(tables[..i]), tables[i].current);
      AddMore(map[], AllRetained(tables[..i]), tables[i].retained);
      FailsInPrefix(tables, i + 1);
    } else {
      assert tables[..i] == tables;
    }
  }

  method CollectTables(tables: seq<TableReferences>) returns (result: Result<(References, References), ReferenceError>)
    ensures result.Success? <==> Agreeing(AllCurrent(tables)) && Agreeing(AllRetained(tables))
    ensures result.Failure? ==> result.error != TotalsDiffer
    ensures result.Success? ==> Unites(result.value.0, AllCurrent(tables)) && Unites(result.value.1, AllRetained(tables))
  {
    AgreeingExactly(AllCurrent(tables));
    AgreeingExactly(AllRetained(tables));
    var current: References, retained: References := map[], map[];
    for i := 0 to |tables|
      invariant AddReferences(map[], AllCurrent(tables[..i])) == Success(current)
      invariant AddReferences(map[], AllRetained(tables[..i])) == Success(retained)
    {
      TablePrefix(tables, i);
      AddMore(map[], AllCurrent(tables[..i]), tables[i].current);
      AddMore(map[], AllRetained(tables[..i]), tables[i].retained);
      FailsInPrefix(tables, i + 1);
      var nextCurrent := Collect(current, tables[i].current);
      if nextCurrent.Failure? { return Failure(nextCurrent.error); }
      var nextRetained := Collect(retained, tables[i].retained);
      if nextRetained.Failure? { return Failure(nextRetained.error); }
      current, retained := nextCurrent.value, nextRetained.value;
    }
    assert tables[..|tables|] == tables;
    result := Success((current, retained));
  }

  ghost predicate GroupsCount(objects: seq<ObjectVersion>, r: Reconciliation) {
    forall g :: g in GROUPS ==> g in r.groups && r.groups[g] == TallyWhere(objects, Grouping(r.current, r.retained), g)
  }

  /** The reconciliation succeeds exactly on references that agree with each other and with the
      latest stored versions, its groups count every version of the inventory once, and the final
      comparison of totals cannot fail on an inventory whose total is that of its versions. */
  method Reconcile(inventory: Inventory, tables: seq<TableReferences>) returns (result: Result<Reconciliation, ReferenceError>)
    ensures result.Success? <==> Reconcilable(inventory.objects, tables) && inventory.total == Sum(inventory.objects, Bytes)
    ensures result == Failure(TotalsDiffer) <==> Reconcilable(inventory.objects, tables) && inventory.total != Sum(inventory.objects, Bytes)
    ensures result.Success? ==>
      && Unites(result.value.current, AllCurrent(tables)) && Unites(result.value.retained, AllRetained(tables))
      && GroupsCount(inventory.objects, result.value)
      && GroupsTally(inventory.objects, result.value.current, result.value.retained, result.value.groups)
  {
    var collected := CollectTables(tables);
    if collected.Failure? { return Failure(collected.error); }
    var (current, retained) := collected.value;
    ReconcilableExactly(inventory.objects, tables, current, retained);
    if !CurrentRetained(current, retained) { return Failure(CurrentNotRetained); }
    var latest := LatestByKey(inventory.objects);
    if !RetainedStored(retained, latest) { return Failure(MissingOrDifferent); }
    var groups := GroupVersions(inventory.objects, current, retained);
    GroupsPartition(inventory.objects, current, retained, groups);
    if TotalOf(groups) != inventory.total { return Failure(TotalsDiffer); }
    result := Success(Reconciliation(current, retained, groups));
  }

  /** The storage observation: after an inventory of the versions, the totals always reconcile, so
      what can fail is the listing or the references. */
  method ObserveStorage(pages: seq<Page>, tables: seq<TableReferences>) returns (ok: bool)
    ensures ok <==> Accepted(VersionsOf(pages), MarkersOf(pages)) && Reconcilable(VersionsOf(pages), tables)
  {
    var inventory := WarehouseInventory(pages);
    if inventory.Failure? { return false; }
    var accounting := Reconcile(inventory.value, tables);
    assert accounting != Failure(TotalsDiffer);
    ok := accounting.Success?;
  }

  // ---------------------------------------------------------------- what the groups mean

  /** At most one latest version of a key. */
  ghost predicate OneLatest(objects: seq<ObjectVersion>) {
    forall i, j :: 0 <= i < j < |objects| && objects[i].isLatest && objects[j].isLatest ==> objects[i].key != objects[j].key
  }

  lemma {:induction false} LatestMeans(objects: seq<ObjectVersion>)
    ensures forall k :: k in LatestByKey(objects) ==>
      LatestByKey(objects)[k] in objects && LatestByKey(objects)[k].isLatest && LatestByKey(objects)[k].key == k
    ensures forall v :: v in objects && v.isLatest ==> v.key in LatestByKey(objects)
  {
    if objects != [] {
      var before := objects[..|objects| - 1];
      LatestMeans(before);
      assert objects == before + [objects[|objects| - 1]];
    }
  }

  function KeyOf(v: ObjectVersion): Key { v.key }

  function SizeIn(refs: References): Key -> int {
    (k: Key) => if k in refs then refs[k].bytes else 0
  }

  function LatestIn(refs: References): ObjectVersion -> bool {
    (v: ObjectVersion) => v.isLatest && v.key in refs
  }

  lemma {:induction false} LatestKeysDiffer(objects: seq<ObjectVersion>, refs: References)
    requires OneLatest(objects)
    ensures NoDuplicates(Map(Filter(objects, LatestIn(refs)), KeyOf))
  {
    if objects != [] {
      LatestKeysDiffer(objects[1..], refs);
      var rest := Filter(objects[1..], LatestIn(refs));
      var kept := Filter(objects, LatestIn(refs));
      if LatestIn(refs)(objects[0]) {
        assert kept == [objects[0]] + rest;
        forall i | 0 <= i < |rest| ensures rest[i].key != objects[0].key {
          assert rest[i] in rest;
          var j :| 0 <= j < |objects[1..]| && objects[1..][j] == rest[i];
          assert objects[j + 1] == rest[i];
        }
        forall i, j | 0 <= i < j < |kept| ensures Map(kept, KeyOf)[i] != Map(kept, KeyOf)[j] {
          if i > 0 {
            assert Map(rest, KeyOf)[i - 1] != Map(rest, KeyOf)[j - 1];
          }
        }
      }
    }
  }

  /** Stored references: the latest versions of the referenced keys weigh what the references say,
      key by key. */
  lemma StoredBytes(objects: seq<ObjectVersion>, refs: References, keys: seq<Key>)
    requires OneLatest(objects) && RetainedStored(refs, LatestByKey(objects))
    requires NoDuplicates(keys) && forall k :: k in keys <==> k in refs
    ensures Sum(Filter(objects, LatestIn(refs)), Bytes) == Sum(keys, SizeIn(refs))
  {
    var rows := Filter(objects, LatestIn(refs));
    var found := Map(rows, KeyOf);
    LatestMeans(objects);
    LatestKeysDiffer(objects, refs);
    forall k ensures k in found <==> k in keys {
      if k in found {
        var i :| 0 <= i < |found| && found[i] == k;
        assert rows[i] in rows;
      }
      if k in keys {
        var v := LatestByKey(objects)[k];
        assert v in rows;
        var i :| 0 <= i < |rows| && rows[i] == v;
        assert found[i] == k;
      }
    }
    SameRowsSameBag(found, keys);
    SumOfBag(found, keys, SizeIn(refs));
    forall i | 0 <= i < |rows| ensures Bytes(rows[i]) == SizeIn(refs)(found[i]) {
      assert rows[i] in rows;
      LatestIsUnique(objects, rows[i]);
    }
    SumOfEqual(rows, found, Bytes, SizeIn(refs));
  }

  lemma LatestIsUnique(objects: seq<ObjectVersion>, v: ObjectVersion)
    requires OneLatest(objects) && v in objects && v.isLatest
    ensures v.key in LatestByKey(objects) && LatestByKey(objects)[v.key] == v
  {
  }

  /** The references that a group stands for. */
  function ReferencesOf(current: References, retained: References, g: Group): References {
    match g
    case CurrentData => map k | k in current && current[k].content == 0 :: current[k]
    case CurrentDelete => map k | k in current && current[k].content != 0 :: current[k]
    case RetainedOnlyData => map k | k in retained && k !in current && retained[k].content == 0 :: retained[k]
    case RetainedOnlyDelete => map k | k in retained && k !in current && retained[k].content != 0 :: retained[k]
    case _ => map[]
  }

  lemma {:induction false} OneGroup(s: seq<ObjectVersion>, key: ObjectVersion -> Group, g: Group, keep: ObjectVersion -> bool)
    requires forall v :: v in s ==> (keep(v) <==> key(v) == g)
    ensures SumWhere(s, key, g, Bytes) == Sum(Filter(s, keep), Bytes)
  {
    if s != [] {
      assert s[0] in s;
      OneGroup(s[1..], key, g, keep);
    }
  }

  /** With at most one latest version of a key, each reference group weighs exactly its distinct
      references: current or only retained, data files or delete files. */
  lemma GroupsWeighReferences(objects: seq<ObjectVersion>, current: References, retained: References, g: Group, keys: seq<Key>)
    requires OneLatest(objects) && CurrentRetained(current, retained) && RetainedStored(retained, LatestByKey(objects))
    requires g != LatestUnreferenced && g != Noncurrent
    requires NoDuplicates(keys) && forall k :: k in keys <==> k in ReferencesOf(current, retained, g)
    ensures SumWhere(objects, Grouping(current, retained), g, Bytes) == Sum(keys, SizeIn(ReferencesOf(current, retained, g)))
  {
    var refs := ReferencesOf(current, retained, g);
    StoredBytes(objects, refs, keys);
    OneGroup(objects, Grouping(current, retained), g, LatestIn(refs));
  }

}
