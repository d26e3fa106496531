/** Bronze: the rows of a landed file keyed by content and occurrence, merged once for ever. */
module BronzeCommerce {
  import opened Types
  import opened Frames
  import opened MergeStatement

  datatype BronzeRow<+R> = BronzeRow(batch: BatchId, digest: Digest, occurrence: nat, data: R)
  datatype BronzeKey = BronzeKey(batch: BatchId, digest: Digest, occurrence: nat)

  datatype BronzeError = RowCountMismatch | MissingValues | PostCondition

  function KeyOf<R>(r: BronzeRow<R>): BronzeKey {
    BronzeKey(r.batch, r.digest, r.occurrence)
  }

  function OfBatch<R>(batch: BatchId): BronzeRow<R> -> bool {
    (r: BronzeRow<R>) => r.batch == batch
  }

  function DataOf<R>(rows: seq<BronzeRow<R>>): seq<R> {
    Map(rows, (r: BronzeRow<R>) => r.data)
  }

  /** Rows among the first n of the physical order that hash to h. */
  function CountUpTo<R>(file: seq<R>, digestOf: R -> Digest, n: nat, h: Digest): nat
    requires n <= |file|
  {
    if n == 0 then 0 else CountUpTo(file, digestOf, n - 1, h) + if digestOf(file[n - 1]) == h then 1 else 0
  }

  function Count<R>(file: seq<R>, digestOf: R -> Digest, h: Digest): nat {
    CountUpTo(file, digestOf, |file|, h)
  }

  /** row_number over the rows of one hash, in the physical order of this read. */
  function Keyed<R>(batch: BatchId, file: seq<R>, digestOf: R -> Digest): (rows: seq<BronzeRow<R>>)
    ensures |rows| == |file|
    ensures forall i :: 0 <= i < |file| ==> rows[i].data == file[i] && rows[i].batch == batch
  {
    seq(|file|, i requires 0 <= i < |file| =>
      BronzeRow(batch, digestOf(file[i]), CountUpTo(file, digestOf, i + 1, digestOf(file[i])), file[i]))
  }

  function PrepareSource<R>(batch: BatchId, file: seq<R>, expectedRows: nat, complete: R -> bool, digestOf: R -> Digest)
    : Result<seq<BronzeRow<R>>, BronzeError>
  {
    if |file| != expectedRows then Failure(RowCountMismatch)
    else if exists i | 0 <= i < |file| :: !complete(file[i]) then Failure(MissingValues)
    else Success(Keyed(batch, file, digestOf))
  }

  // ---------------------------------------------------------------- the keys of a file

  lemma {:induction false} CountGrows<R>(file: seq<R>, digestOf: R -> Digest, m: nat, n: nat, h: Digest)
    requires m <= n <= |file|
    ensures CountUpTo(file, digestOf, m, h) <= CountUpTo(file, digestOf, n, h)
  {
    if m < n {
      CountGrows(file, digestOf, m, n - 1, h);
    }
  }

  /** Every occurrence from one to the count is some row's. */
  lemma {:induction false} OccurrenceReached<R>(file: seq<R>, digestOf: R -> Digest, n: nat, h: Digest, k: nat) returns (i: nat)
    requires n <= |file| && 1 <= k <= CountUpTo(file, digestOf, n, h)
    ensures i < n && digestOf(file[i]) == h && CountUpTo(file, digestOf, i + 1, h) == k
  {
    if k <= CountUpTo(file, digestOf, n - 1, h) {
      i := OccurrenceReached(file, digestOf, n - 1, h, k);
    } else {
      i := n - 1;
    }
  }

  /** The keys are a set that depends on the file's bag of hashes alone: each hash has the
      occurrences from one to its count, once each. */
  lemma KeysOfFile<R(!new)>(batch: BatchId, file: seq<R>, digestOf: R -> Digest)
    ensures DistinctKeys(Keyed(batch, file, digestOf), KeyOf)
    ensures forall k :: HasKey(Keyed(batch, file, digestOf), KeyOf, k) <==>
      k.batch == batch && 1 <= k.occurrence <= Count(file, digestOf, k.digest)
  {
    var rows := Keyed(batch, file, digestOf);
    forall i, j | 0 <= i < j < |rows| ensures KeyOf(rows[i]) != KeyOf(rows[j]) {
      CountGrows(file, digestOf, i + 1, j, digestOf(file[i]));
    }
    forall k ensures HasKey(rows, KeyOf, k) <==> k.batch == batch && 1 <= k.occurrence <= Count(file, digestOf, k.digest) {
      if i :| 0 <= i < |rows| && KeyOf(rows[i]) == k {
        CountGrows(file, digestOf, i + 1, |file|, k.digest);
      }
      if k.batch == batch && 1 <= k.occurrence <= Count(file, digestOf, k.digest) {
        var i := OccurrenceReached(file, digestOf, |file|, k.digest, k.occurrence);
        assert KeyOf(rows[i]) == k;
      }
    }
  }

  lemma {:induction false} CountOfBag<R(!new)>(file: seq<R>, digestOf: R -> Digest, h: Digest)
    ensures Count(file, digestOf, h) == |Filter(file, (r: R) => digestOf(r) == h)|
  {
    if file != [] {
      var rest, last := file[..|file| - 1], file[|file| - 1..];
      assert file == rest + last;
      CountOfBag(rest, digestOf, h);
      CountOfPrefix(file, rest, digestOf, |rest|, h);
      FilterConcat(rest, last, (r: R) => digestOf(r) == h);
      assert last[1..] == [];
    }
  }

  lemma {:induction false} CountOfPrefix<R>(a: seq<R>, b: seq<R>, digestOf: R -> Digest, n: nat, h: Digest)
    requires n <= |a| && n <= |b| && a[..n] == b[..n]
    ensures CountUpTo(a, digestOf, n, h) == CountUpTo(b, digestOf, n, h)
  {
    if n > 0 {
      assert a[..n][..n - 1] == a[..n - 1] && b[..n][..n - 1] == b[..n - 1];
      CountOfPrefix(a, b, digestOf, n - 1, h);
      assert a[n - 1] == a[..n][n - 1] == b[..n][n - 1];
    }
  }

  /** The key set is the same for every physical order of the file, even if hashes collide. */
  lemma KeysIgnoreOrder<R(!new)>(batch: BatchId, a: seq<R>, b: seq<R>, digestOf: R -> Digest)
    requires multiset(a) == multiset(b)
    ensures SameKeys(Keyed(batch, a, digestOf), Keyed(batch, b, digestOf), KeyOf)
  {
    KeysOfFile(batch, a, digestOf);
    KeysOfFile(batch, b, digestOf);
    forall h ensures Count(a, digestOf, h) == Count(b, digestOf, h) {
      CountOfBag(a, digestOf, h);
      CountOfBag(b, digestOf, h);
      FilterOfBag(a, b, (r: R) => digestOf(r) == h);
    }
  }

  /** Any number of runs, each reading the file in its own physical order: the batch holds exactly
      the bag of rows of the file, no run fails its post-condition, other batches are untouched. */
  lemma ReplaysKeepTheFile<R(!new)>(target: seq<BronzeRow<R>>, batch: BatchId, file: seq<R>, orders: seq<seq<R>>, digestOf: R -> Digest)
    requires orders != [] && forall i :: 0 <= i < |orders| ==> multiset(orders[i]) == multiset(file)
    requires forall r :: r in target ==> r.batch != batch
    ensures var sources := Map(orders, (o: seq<R>) => Keyed(batch, o, digestOf));
      var after := Runs(target, sources, KeyOf);
      && |Part(after, OfBatch(batch))| == |file|
      && multiset(DataOf(Part(after, OfBatch(batch)))) == multiset(file)
      && Others(after, OfBatch(batch)) == target
  {
    var inBatch: BronzeRow<R> -> bool := OfBatch(batch);
    var sources := Map(orders, (o: seq<R>) => Keyed(batch, o, digestOf));
    forall i | 0 <= i < |sources|
      ensures SourceOf(sources[i], KeyOf, inBatch) && SameKeys(sources[0], sources[i], KeyOf)
    {
      KeysOfFile(batch, orders[i], digestOf);
      KeysIgnoreOrder(batch, orders[0], orders[i], digestOf);
    }
    NothingOfBatch(target, inBatch);
    RunsPublish(target, sources, KeyOf, inBatch);
    assert Part(Runs(target, sources, KeyOf), inBatch) == sources[0];
    assert DataOf(sources[0]) == orders[0];
    SameBagSameRows(orders[0], file);
  }

  // ---------------------------------------------------------------- the table

  /** The batch's rows are the rows of the file, in any order, and carry the file's keys. */
  ghost predicate HoldsFile<R(!new)>(rows: seq<BronzeRow<R>>, batch: BatchId, file: seq<R>, digestOf: R -> Digest) {
    && multiset(DataOf(Part(rows, OfBatch(batch)))) == multiset(file)
    && forall k :: HasKey(Part(rows, OfBatch(batch)), KeyOf, k) <==> k.batch == batch && 1 <= k.occurrence <= Count(file, digestOf, k.digest)
  }

  /** A file that the job takes. */
  predicate Accepted<R>(file: seq<R>, expectedRows: nat, complete: R -> bool) {
    |file| == expectedRows && forall i | 0 <= i < |file| :: complete(file[i])
  }

  lemma FirstRun<R(!new)>(rows: seq<BronzeRow<R>>, batch: BatchId, file: seq<R>, digestOf: R -> Digest)
    requires Part(rows, OfBatch(batch)) == []
    ensures var after := InsertMissing(rows, Keyed(batch, file, digestOf), KeyOf);
      && after == rows + Keyed(batch, file, digestOf) && HoldsFile(after, batch, file, digestOf)
      && |Part(after, OfBatch(batch))| == |file|
      && Others(after, OfBatch(batch)) == Others(rows, OfBatch(batch))
  {
    var source := Keyed(batch, file, digestOf);
    KeysOfFile(batch, file, digestOf);
    FirstMerge(rows, source, KeyOf, OfBatch(batch));
    assert DataOf(source) == file;
  }

  lemma LaterRun<R(!new)>(rows: seq<BronzeRow<R>>, batch: BatchId, file: seq<R>, digestOf: R -> Digest)
    requires HoldsFile(rows, batch, file, digestOf)
    ensures InsertMissing(rows, Keyed(batch, file, digestOf), KeyOf) == rows && |Part(rows, OfBatch(batch))| == |file|
  {
    var source, part := Keyed(batch, file, digestOf), Part(rows, OfBatch(batch));
    KeysOfFile(batch, file, digestOf);
    forall k | HasKey(source, KeyOf, k) ensures HasKey(rows, KeyOf, k) {
      assert HasKey(part, KeyOf, k);
      var i :| 0 <= i < |part| && KeyOf(part[i]) == k;
      assert part[i] in part;
      var j :| 0 <= j < |rows| && rows[j] == part[i];
    }
    RepeatedMerge(rows, source, KeyOf);
    SameBagSameRows(DataOf(part), file);
  }

  /** It does not matter in which order the file was read. */
  lemma HoldsInAnyOrder<R(!new)>(rows: seq<BronzeRow<R>>, batch: BatchId, a: seq<R>, b: seq<R>, digestOf: R -> Digest)
    requires multiset(a) == multiset(b) && HoldsFile(rows, batch, a, digestOf)
    ensures HoldsFile(rows, batch, b, digestOf)
  {
    forall h ensures Count(a, digestOf, h) == Count(b, digestOf, h) {
      CountOfBag(a, digestOf, h);
      CountOfBag(b, digestOf, h);
      FilterOfBag(a, b, (r: R) => digestOf(r) == h);
    }
  }

  lemma MergeMeans<R(!new)>(rows: seq<BronzeRow<R>>, batch: BatchId, file: seq<R>, digestOf: R -> Digest, landed: seq<R>)
    ensures var after := InsertMissing(rows, Keyed(batch, file, digestOf), KeyOf);
      && rows <= after
      && (Part(rows, OfBatch(batch)) == [] ==>
            && |Part(after, OfBatch(batch))| == |file| == |after| - |rows| && HoldsFile(after, batch, file, digestOf)
            && Others(after, OfBatch(batch)) == Others(rows, OfBatch(batch)))
      && (HoldsFile(rows, batch, landed, digestOf) && multiset(file) == multiset(landed) ==>
            after == rows && |Part(after, OfBatch(batch))| == |file|)
  {
    if Part(rows, OfBatch(batch)) == [] {
      FirstRun(rows, batch, file, digestOf);
    }
    if HoldsFile(rows, batch, landed, digestOf) && multiset(file) == multiset(landed) {
      HoldsInAnyOrder(rows, batch, landed, file, digestOf);
      LaterRun(rows, batch, file, digestOf);
    }
  }

  class BronzeTable<R(!new)> {
    var rows: seq<BronzeRow<R>>
    const digestOf: R -> Digest
    const complete: R -> bool

    constructor (digestOf: R -> Digest, complete: R -> bool)
      ensures rows == [] && this.digestOf == digestOf && this.complete == complete
    {
      this.digestOf := digestOf;
      this.complete := complete;
      rows := [];
    }

    /** One run of the job for one file, in the physical order of this read; returns the number of
        rows it inserted. `landed` is the file as an earlier run may have read it. */
    method MergeTable(batch: BatchId, file: seq<R>, expectedRows: nat, ghost landed: seq<R>) returns (result: Result<nat, BronzeError>)
      modifies this`rows
      ensures old(rows) <= rows
      ensures !Accepted(file, expectedRows, complete) ==>
        result == Failure(if |file| != expectedRows then RowCountMismatch else MissingValues) && rows == old(rows)
      ensures Accepted(file, expectedRows, complete) ==> (result.Success? <==> |Part(rows, OfBatch(batch))| == |file|)
      ensures result.Success? ==> result.value == |rows| - |old(rows)|
      ensures Accepted(file, expectedRows, complete) && Part(old(rows), OfBatch(batch)) == [] ==>
        && result == Success(|file|) && HoldsFile(rows, batch, file, digestOf)
        && Others(rows, OfBatch(batch)) == Others(old(rows), OfBatch(batch))
      ensures Accepted(file, expectedRows, complete) && HoldsFile(old(rows), batch, landed, digestOf) && multiset(file) == multiset(landed) ==>
        result == Success(0) && rows == old(rows)
    {
      var source := PrepareSource(batch, file, expectedRows, complete, digestOf);
      if source.Failure? { return Failure(source.error); }
      MergeMeans(rows, batch, file, digestOf, landed);
      var rowsBefore := |rows|;
      rows := InsertMissing(rows, source.value, KeyOf);
      var batchRows := |Part(rows, OfBatch(batch))|;
      if batchRows != expectedRows { return Failure(PostCondition); }
      result := Success(|rows| - rowsBefore);
    }
  }
}
