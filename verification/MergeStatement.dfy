/** MERGE ... WHEN NOT MATCHED THEN INSERT, the statement that publishes bronze, silver and daily
    gold rows, and what any run of it leaves in one batch of a table. */
module MergeStatement {
  import opened Frames

  predicate HasKey<R, K(==)>(target: seq<R>, key: R -> K, k: K) {
    exists i | 0 <= i < |target| :: key(target[i]) == k
  }

  /** Source rows whose key no target row has are appended; the rest of the target stays. */
  function InsertMissing<R(!new), K(==)>(target: seq<R>, source: seq<R>, key: R -> K): seq<R> {
    target + NotMatched(target, source, key)
  }

  function NotMatched<R(!new), K(==)>(target: seq<R>, source: seq<R>, key: R -> K): seq<R> {
    Filter(source, (r: R) => !HasKey(target, key, key(r)))
  }

  ghost predicate DistinctKeys<R, K>(rows: seq<R>, key: R -> K) {
    forall i, j :: 0 <= i < j < |rows| ==> key(rows[i]) != key(rows[j])
  }

  ghost predicate SameKeys<R, K(!new)>(a: seq<R>, b: seq<R>, key: R -> K) {
    forall k :: HasKey(a, key, k) <==> HasKey(b, key, k)
  }

  /** The rows of one batch in a table. */
  function Part<R(!new)>(target: seq<R>, inBatch: R -> bool): seq<R> {
    Filter(target, inBatch)
  }

  function Others<R(!new)>(target: seq<R>, inBatch: R -> bool): seq<R> {
    Filter(target, (r: R) => !inBatch(r))
  }

  lemma NothingOfBatch<R(!new)>(target: seq<R>, inBatch: R -> bool)
    requires forall r :: r in target ==> !inBatch(r)
    ensures Part(target, inBatch) == [] && Others(target, inBatch) == target
  {
    FilterNone(target, inBatch);
    FilterAll(target, (r: R) => !inBatch(r));
  }

  /** A source for a batch: one row a key, all in the batch, and keys that name the batch. */
  ghost predicate SourceOf<R(!new), K>(source: seq<R>, key: R -> K, inBatch: R -> bool) {
    && DistinctKeys(source, key)
    && (forall r :: r in source ==> inBatch(r))
    && (forall r, s :: s in source && key(r) == key(s) ==> inBatch(r))
  }

  /** The table has none of the batch, or every key of it. */
  ghost predicate NoneOrAll<R(!new), K(!new)>(target: seq<R>, source: seq<R>, key: R -> K, inBatch: R -> bool) {
    Part(target, inBatch) == [] || forall k :: HasKey(source, key, k) ==> HasKey(target, key, k)
  }

  /** The first MERGE of a batch appends its source. */
  lemma FirstMerge<R(!new), K>(target: seq<R>, source: seq<R>, key: R -> K, inBatch: R -> bool)
    requires SourceOf(source, key, inBatch) && Part(target, inBatch) == []
    ensures InsertMissing(target, source, key) == target + source
    ensures Part(target + source, inBatch) == source
    ensures Others(target + source, inBatch) == Others(target, inBatch)
  {
    forall t | t in target ensures !inBatch(t) {
      assert t in Part(target, inBatch) <==> inBatch(t);
    }
    FilterAll(source, (r: R) => !HasKey(target, key, key(r)));
    FilterConcat(target, source, inBatch);
    FilterConcat(target, source, (r: R) => !inBatch(r));
    FilterAll(source, inBatch);
    FilterNone(source, (r: R) => !inBatch(r));
    assert Part(target + source, inBatch) == source;
  }

  /** A repeated MERGE changes nothing. */
  lemma RepeatedMerge<R(!new), K(!new)>(target: seq<R>, source: seq<R>, key: R -> K)
    requires forall k :: HasKey(source, key, k) ==> HasKey(target, key, k)
    ensures InsertMissing(target, source, key) == target
  {
    forall r | r in source ensures HasKey(target, key, key(r)) {
      var i :| 0 <= i < |source| && source[i] == r;
      assert HasKey(source, key, key(r));
    }
    FilterNone(source, (r: R) => !HasKey(target, key, key(r)));
    assert target + [] == target;
  }

  /** Appending rows of the batch adds them to its part and to nothing else. */
  lemma AppendedPart<R(!new)>(target: seq<R>, added: seq<R>, inBatch: R -> bool)
    requires forall r :: r in added ==> inBatch(r)
    ensures Part(target + added, inBatch) == Part(target, inBatch) + added
    ensures Others(target + added, inBatch) == Others(target, inBatch)
  {
    FilterConcat(target, added, inBatch);
    FilterConcat(target, added, (r: R) => !inBatch(r));
    FilterAll(added, inBatch);
    FilterNone(added, (r: R) => !inBatch(r));
  }

  /** If all that is there of the batch is in the source, a source row is there when its key is. */
  lemma ThereOrMissing<R(!new), K(!new)>(target: seq<R>, source: seq<R>, key: R -> K, inBatch: R -> bool, x: R)
    requires SourceOf(source, key, inBatch) && x in source && forall r :: r in Part(target, inBatch) ==> r in source
    ensures x in Part(target, inBatch) <==> HasKey(target, key, key(x))
  {
    if i :| 0 <= i < |target| && key(target[i]) == key(x) {
      assert target[i] in Part(target, inBatch);
      var j :| 0 <= j < |source| && source[j] == target[i];
      var k :| 0 <= k < |source| && source[k] == x;
    }
    if x in Part(target, inBatch) {
      var i :| 0 <= i < |target| && target[i] == x;
    }
  }

  lemma PartPlusMissing<R(!new), K(!new)>(target: seq<R>, source: seq<R>, key: R -> K, inBatch: R -> bool)
    requires SourceOf(source, key, inBatch) && multiset(Part(target, inBatch)) <= multiset(source)
    ensures multiset(Part(target, inBatch) + NotMatched(target, source, key)) == multiset(source)
  {
    var part, added := Part(target, inBatch), NotMatched(target, source, key);
    assert NoDuplicates(source);
    SubBag(part, source);
    FilterKeepsNoDuplicates(source, (r: R) => !HasKey(target, key, key(r)));
    forall x | x in source ensures x in part <==> x !in added {
      ThereOrMissing(target, source, key, inBatch, x);
    }
    SameRowsSameBag(part + added, source);
  }

  /** A MERGE completes a batch of which the table has some rows: those are not written again, those
      missing are, and no other row changes. */
  lemma MergeCompletes<R(!new), K(!new)>(target: seq<R>, source: seq<R>, key: R -> K, inBatch: R -> bool)
    requires SourceOf(source, key, inBatch) && multiset(Part(target, inBatch)) <= multiset(source)
    ensures multiset(Part(InsertMissing(target, source, key), inBatch)) == multiset(source)
    ensures Others(InsertMissing(target, source, key), inBatch) == Others(target, inBatch)
  {
    AppendedPart(target, NotMatched(target, source, key), inBatch);
    PartPlusMissing(target, source, key, inBatch);
  }

  lemma HasAllKeysAfter<R(!new), K(!new)>(target: seq<R>, source: seq<R>, key: R -> K, k: K)
    requires HasKey(source, key, k)
    ensures HasKey(target + source, key, k)
  {
    var i :| 0 <= i < |source| && key(source[i]) == k;
    assert (target + source)[|target| + i] == source[i];
  }

  /** The table after running the MERGE once for each listed source. */
  function Runs<R(!new), K(==)>(target: seq<R>, sources: seq<seq<R>>, key: R -> K): seq<R> {
    if sources == [] then target
    else InsertMissing(Runs(target, sources[..|sources| - 1], key), sources[|sources| - 1], key)
  }

  /** Replay safety: however often the batch is merged, and in whatever physical order its rows
      are read and keyed each time, only the first MERGE writes; the table has exactly the rows of
      that source for the batch, and other batches are untouched. */
  lemma {:induction false} RunsPublish<R(!new), K(!new)>(target: seq<R>, sources: seq<seq<R>>, key: R -> K, inBatch: R -> bool)
    requires sources != []
    requires forall i :: 0 <= i < |sources| ==> SourceOf(sources[i], key, inBatch) && SameKeys(sources[0], sources[i], key)
    requires NoneOrAll(target, sources[0], key, inBatch)
    ensures var after := Runs(target, sources, key);
      && after == InsertMissing(target, sources[0], key)
      && (forall k :: HasKey(sources[0], key, k) ==> HasKey(after, key, k))
      && Part(after, inBatch) == (if Part(target, inBatch) == [] then sources[0] else Part(target, inBatch))
      && Others(after, inBatch) == Others(target, inBatch)
  {
    var before, last := sources[..|sources| - 1], sources[|sources| - 1];
    if before == [] {
      assert Runs(target, before, key) == target;
      if Part(target, inBatch) == [] {
        FirstMerge(target, last, key, inBatch);
        forall k | HasKey(last, key, k) ensures HasKey(target + last, key, k) {
          HasAllKeysAfter(target, last, key, k);
        }
      } else {
        RepeatedMerge(target, last, key);
      }
    } else {
      assert before[0] == sources[0];
      RunsPublish(target, before, key, inBatch);
      RepeatedMerge(Runs(target, before, key), last, key);
    }
  }

  lemma {:induction false} PartKeepsKeys<R(!new), K>(rows: seq<R>, key: R -> K, inBatch: R -> bool)
    requires DistinctKeys(rows, key)
    ensures DistinctKeys(Part(rows, inBatch), key)
  {
    if rows != [] {
      PartKeepsKeys(rows[1..], key, inBatch);
      var rest := Part(rows[1..], inBatch);
      forall k | 0 <= k < |rest| ensures key(rest[k]) != key(rows[0]) {
        assert rest[k] in rest;
        var i :| 0 <= i < |rows[1..]| && rows[1..][i] == rest[k];
        assert rows[i + 1] == rest[k];
      }
    }
  }

  lemma DistinctKeysOfBag<R(!new), K>(a: seq<R>, b: seq<R>, key: R -> K)
    requires DistinctKeys(a, key) && multiset(a) == multiset(b)
    ensures DistinctKeys(b, key)
  {
    SameBagSameRows(a, b);
    SameBagNoDuplicates(a, b);
    forall i, j | 0 <= i < j < |b| ensures key(b[i]) != key(b[j]) {
      assert b[i] in a && b[j] in a;
    }
  }
}
