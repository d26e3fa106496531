/** What the silver jobs share: row_number windows, reference joins, the split into valid and
    rejected rows, and the two MERGEs that publish the split. */
module SilverJob {
  import opened Types
  import opened Frames
  import opened MergeStatement

  // ---------------------------------------------------------------- row_number

  /** row_number over the partition of r, ordered by `before`. */
  function RowNumber<R(!new)>(rows: seq<R>, same: (R, R) -> bool, before: (R, R) -> bool, r: R): nat {
    1 + |Filter(rows, (q: R) => same(q, r) && before(q, r))|
  }

  /** `before` orders the rows of a partition strictly and totally. */
  ghost predicate Ordered<R(!new)>(rows: seq<R>, same: (R, R) -> bool, before: (R, R) -> bool) {
    && (forall a, b :: a in rows && b in rows && same(a, b) ==> same(b, a))
    && (forall a, b, c :: a in rows && b in rows && c in rows && same(a, b) && same(b, c) ==> same(a, c))
    && (forall a :: a in rows ==> same(a, a) && !before(a, a))
    && (forall a, b :: a in rows && b in rows && same(a, b) && a != b ==> before(a, b) || before(b, a))
    && (forall a, b, c :: a in rows && b in rows && c in rows && before(a, b) && before(b, c) ==> before(a, c))
  }

  lemma FirstIsUnique<R(!new)>(rows: seq<R>, same: (R, R) -> bool, before: (R, R) -> bool, a: R, b: R)
    requires Ordered(rows, same, before) && a in rows && b in rows && same(a, b)
    requires RowNumber(rows, same, before, a) == 1 && RowNumber(rows, same, before, b) == 1
    ensures a == b
  {
  }

  lemma {:induction false} FilterIsSmaller<R(!new)>(rows: seq<R>, p: R -> bool, q: R -> bool, r: R)
    requires forall x :: x in rows && p(x) ==> q(x)
    ensures |Filter(rows, p)| <= |Filter(rows, q)|
    ensures r in rows && q(r) && !p(r) ==> |Filter(rows, p)| < |Filter(rows, q)|
  {
    if rows != [] {
      FilterIsSmaller(rows[1..], p, q, r);
    }
  }

  /** Every partition has a first row. */
  lemma {:induction false} FirstExists<R(!new)>(rows: seq<R>, same: (R, R) -> bool, before: (R, R) -> bool, r: R) returns (f: R)
    requires Ordered(rows, same, before) && r in rows
    ensures f in rows && same(f, r) && RowNumber(rows, same, before, f) == 1
    decreases RowNumber(rows, same, before, r)
  {
    var earlier := Filter(rows, (q: R) => same(q, r) && before(q, r));
    if earlier == [] {
      f := r;
    } else {
      var p := earlier[0];
      assert p in earlier;
      FilterIsSmaller(rows, (q: R) => same(q, p) && before(q, p), (q: R) => same(q, r) && before(q, r), p);
      f := FirstExists(rows, same, before, p);
    }
  }

  lemma RowNumberIgnoresOrder<R(!new)>(a: seq<R>, b: seq<R>, same: (R, R) -> bool, before: (R, R) -> bool, r: R)
    requires multiset(a) == multiset(b)
    ensures RowNumber(a, same, before, r) == RowNumber(b, same, before, r)
  {
    FilterOfBag(a, b, (q: R) => same(q, r) && before(q, r));
  }

  // ---------------------------------------------------------------- reference joins

  function Distinct(ids: seq<Text>): (r: seq<Text>)
    ensures NoDuplicates(r)
    ensures forall id :: id in r <==> id in ids
  {
    if ids == [] then []
    else
      var rest := Distinct(ids[1..]);
      if ids[0] in rest then rest else [ids[0]] + rest
  }

  /** left LEFT JOIN refs ON column = ref; null equals nothing, a row with no partner stays with null. */
  function LeftJoin<L>(left: seq<L>, refs: seq<Text>, column: L -> Text): seq<(L, Text)> {
    if left == [] then []
    else
      var partners := Filter(refs, (id: Text) => id != Null && id == column(left[0]));
      (if partners == [] then [(left[0], Null)] else Map(partners, (id: Text) => (left[0], id))) + LeftJoin(left[1..], refs, column)
  }

  function Known(refs: seq<Text>, id: Text): Text {
    if id != Null && id in refs then id else Null
  }

  lemma {:induction false} PartnersOfDistinct(refs: seq<Text>, id: Text)
    requires NoDuplicates(refs)
    ensures Filter(refs, (r: Text) => r != Null && r == id) == if Known(refs, id) == Null then [] else [id]
  {
    if refs != [] {
      PartnersOfDistinct(refs[1..], id);
      assert refs[0] !in refs[1..];
    }
  }

  /** A join with distinct references never multiplies rows. */
  lemma {:induction false} JoinKeepsRows<L(!new)>(left: seq<L>, refs: seq<Text>, column: L -> Text)
    requires NoDuplicates(refs)
    ensures |LeftJoin(left, refs, column)| == |left|
    ensures forall i :: 0 <= i < |left| ==> LeftJoin(left, refs, column)[i] == (left[i], Known(refs, column(left[i])))
  {
    if left != [] {
      JoinKeepsRows(left[1..], refs, column);
      PartnersOfDistinct(refs, column(left[0]));
    }
  }

  // ---------------------------------------------------------------- the split

  /** filter(keep).select(f) */
  function Selected<C(!new), V(!new)>(s: seq<C>, keep: C -> bool, f: C -> V): (r: seq<V>)
    ensures forall c :: c in s && keep(c) ==> f(c) in r
    ensures forall v :: v in r ==> exists c :: c in s && keep(c) && v == f(c)
  {
    if s == [] then []
    else if keep(s[0]) then [f(s[0])] + Selected(s[1..], keep, f)
    else Selected(s[1..], keep, f)
  }

  lemma {:induction false} SelectedKeys<C(!new), V(!new), K>(s: seq<C>, keep: C -> bool, f: C -> V, key: V -> K)
    requires forall i, j :: 0 <= i < j < |s| && keep(s[i]) && keep(s[j]) ==> key(f(s[i])) != key(f(s[j]))
    ensures DistinctKeys(Selected(s, keep, f), key)
  {
    if s != [] {
      var rest := Selected(s[1..], keep, f);
      SelectedKeys(s[1..], keep, f, key);
      if keep(s[0]) {
        forall k | 0 <= k < |rest| ensures key(rest[k]) != key(f(s[0])) {
          assert rest[k] in rest;
          var c :| c in s[1..] && keep(c) && rest[k] == f(c);
          var i :| 0 <= i < |s[1..]| && s[1..][i] == c;
          assert s[i + 1] == c;
        }
      }
    }
  }

  /** Rows of one key are in the same batch. */
  ghost predicate KeyNamesBatch<R(!new), K>(key: R -> K, inBatch: R -> bool) {
    forall r, s :: key(r) == key(s) && inBatch(s) ==> inBatch(r)
  }

  lemma SelectedSource<C(!new), V(!new), K>(s: seq<C>, keep: C -> bool, f: C -> V, key: V -> K, inBatch: V -> bool)
    requires forall i, j :: 0 <= i < j < |s| && keep(s[i]) && keep(s[j]) ==> key(f(s[i])) != key(f(s[j]))
    requires (forall c :: c in s ==> inBatch(f(c))) && KeyNamesBatch(key, inBatch)
    ensures SourceOf(Selected(s, keep, f), key, inBatch)
  {
    SelectedKeys(s, keep, f, key);
  }

  /** Two complementary selections split the rows. */
  lemma {:induction false} SelectionsSplit<C(!new), V(!new), W(!new)>(s: seq<C>, keep: C -> bool, drop: C -> bool, f: C -> V, g: C -> W)
    requires forall c :: c in s ==> keep(c) != drop(c)
    ensures |Selected(s, keep, f)| + |Selected(s, drop, g)| == |s|
  {
    if s != [] {
      SelectionsSplit(s[1..], keep, drop, f, g);
      assert s[0] in s;
    }
  }

  lemma SameRowsSameKeys<V(!new), K(!new)>(a: seq<V>, b: seq<V>, key: V -> K)
    requires forall v :: v in a <==> v in b
    ensures SameKeys(a, b, key)
  {
    forall k ensures HasKey(a, key, k) <==> HasKey(b, key, k) {
      if i :| 0 <= i < |a| && key(a[i]) == k {
        assert a[i] in b;
        var j :| 0 <= j < |b| && b[j] == a[i];
      }
      if i :| 0 <= i < |b| && key(b[i]) == k {
        assert b[i] in a;
        var j :| 0 <= j < |a| && a[j] == b[i];
      }
    }
  }

  lemma SameRowsSameSize<V(!new), K>(a: seq<V>, b: seq<V>, key: V -> K)
    requires DistinctKeys(a, key) && DistinctKeys(b, key)
    requires forall v :: v in a <==> v in b
    ensures |a| == |b|
  {
    SameRowsSameBag(a, b);
    SameBagSameRows(a, b);
  }

  /** The errors whose condition holds, in the order of the checks. */
  function Reported<E>(checks: seq<(bool, E)>): seq<E> {
    if checks == [] then []
    else
      var (holds, error) := checks[|checks| - 1];
      Reported(checks[..|checks| - 1]) + if holds then [error] else []
  }

  /** Errors in the order of their checks, each at most once. */
  ghost predicate InCheckOrder<E>(errors: seq<E>, check: E -> nat) {
    forall i, j :: 0 <= i < j < |errors| ==> check(errors[i]) < check(errors[j])
  }

  lemma {:induction false} ReportedExactly<E(!new)>(checks: seq<(bool, E)>, check: E -> nat)
    requires forall i :: 0 <= i < |checks| ==> check(checks[i].1) == i
    ensures InCheckOrder(Reported(checks), check)
    ensures forall e :: e in Reported(checks) <==> check(e) < |checks| && checks[check(e)] == (true, e)
  {
    if checks != [] {
      var before, last := checks[..|checks| - 1], checks[|checks| - 1];
      ReportedExactly(before, check);
      var found := Reported(before);
      forall k | 0 <= k < |found| ensures check(found[k]) < |before| {
        assert found[k] in found;
      }
      assert Reported(checks) == found + if last.0 then [last.1] else [];
      forall e ensures e in Reported(checks) <==> check(e) < |checks| && checks[check(e)] == (true, e) {
        assert e in Reported(checks) <==> e in found || (last.0 && e == last.1);
        if check(e) < |before| {
          assert before[check(e)] == checks[check(e)];
        }
      }
    }
  }

  /** The order of the checks leaves one list for a set of errors. */
  lemma {:induction false} OneErrorList<E(!new)>(a: seq<E>, b: seq<E>, check: E -> nat)
    requires InCheckOrder(a, check) && InCheckOrder(b, check) && forall e :: e in a <==> e in b
    ensures a == b
  {
    if a == [] || b == [] {
      SameMembersEmpty(a, b);
    } else {
      assert a[0] in b && b[0] in a;
      var i :| 0 <= i < |b| && b[i] == a[0];
      var j :| 0 <= j < |a| && a[j] == b[0];
      forall e ensures e in a[1..] <==> e in b[1..] {
        TailWithoutHead(a, check, e);
        TailWithoutHead(b, check, e);
      }
      OneErrorList(a[1..], b[1..], check);
    }
  }

  lemma SameMembersEmpty<E(!new)>(a: seq<E>, b: seq<E>)
    requires forall e :: e in a <==> e in b
    ensures a == [] <==> b == []
  {
    assert a != [] ==> a[0] in a;
    assert b != [] ==> b[0] in b;
  }

  lemma TailWithoutHead<E(!new)>(errors: seq<E>, check: E -> nat, e: E)
    requires errors != [] && InCheckOrder(errors, check)
    ensures e in errors[1..] <==> e in errors && e != errors[0]
  {
    if e in errors[1..] {
      var k :| 0 <= k < |errors[1..]| && errors[1..][k] == e;
      assert check(errors[0]) < check(errors[k + 1]);
    }
  }

  // ---------------------------------------------------------------- publication

  /** What identifies a rejected row: its bronze key. */
  datatype RejectKey = RejectKey(batch: BatchId, digest: Digest, occurrence: nat)

  datatype SilverError = EmptyBatch | CountsDiffer | PostCondition

  /** One run of a silver job reads the batch in some order, merges the valid rows, and, unless it
      dies in between, merges the rejected rows. */
  datatype Attempt<V, J> = Attempt(valid: seq<V>, rejects: seq<J>, survives: bool)

  datatype Tables<V, J> = Tables(valid: seq<V>, rejects: seq<J>)

  function RunAttempts<V(!new), J(!new), K(==), L(==)>(t: Tables<V, J>, attempts: seq<Attempt<V, J>>, validKey: V -> K, rejectKey: J -> L): Tables<V, J> {
    if attempts == [] then t
    else
      var before := RunAttempts(t, attempts[..|attempts| - 1], validKey, rejectKey);
      var last := attempts[|attempts| - 1];
      var valid := InsertMissing(before.valid, last.valid, validKey);
      Tables(valid, if last.survives then InsertMissing(before.rejects, last.rejects, rejectKey) else before.rejects)
  }

  function ValidSources<V, J>(attempts: seq<Attempt<V, J>>): seq<seq<V>> {
    Map(attempts, (a: Attempt<V, J>) => a.valid)
  }

  function RejectSources<V, J>(attempts: seq<Attempt<V, J>>): seq<seq<J>> {
    if attempts == [] then []
    else
      var last := attempts[|attempts| - 1];
      RejectSources(attempts[..|attempts| - 1]) + if last.survives then [last.rejects] else []
  }

  /** The two tables see two independent runs of MERGEs. */
  lemma {:induction false} AttemptsAreRuns<V(!new), J(!new), K, L>(t: Tables<V, J>, attempts: seq<Attempt<V, J>>, validKey: V -> K, rejectKey: J -> L)
    ensures RunAttempts(t, attempts, validKey, rejectKey) ==
      Tables(Runs(t.valid, ValidSources(attempts), validKey), Runs(t.rejects, RejectSources(attempts), rejectKey))
  {
    if attempts != [] {
      var before := attempts[..|attempts| - 1];
      AttemptsAreRuns(t, before, validKey, rejectKey);
      var sources := ValidSources(attempts);
      assert sources[..|sources| - 1] == ValidSources(before);
      if attempts[|attempts| - 1].survives {
        var rejects := RejectSources(attempts);
        assert rejects[..|rejects| - 1] == RejectSources(before);
      } else {
        assert RejectSources(attempts) == RejectSources(before);
      }
    }
  }

  ghost predicate RejectedBy<V(!new), J>(attempts: seq<Attempt<V, J>>, source: seq<J>) {
    exists a :: a in attempts && a.rejects == source
  }

  lemma {:induction false} RejectSourcesAre<V(!new), J(!new)>(attempts: seq<Attempt<V, J>>)
    ensures forall s :: s in RejectSources(attempts) ==> RejectedBy(attempts, s)
    ensures (exists a :: a in attempts && a.survives) ==> RejectSources(attempts) != []
  {
    if attempts != [] {
      var before, last := attempts[..|attempts| - 1], attempts[|attempts| - 1];
      RejectSourcesAre(before);
      assert last in attempts && forall a :: a in before ==> a in attempts;
      assert forall a :: a in attempts ==> a in before || a == last;
      forall s | s in RejectSources(attempts) ensures RejectedBy(attempts, s) {
        if s in RejectSources(before) {
          assert RejectedBy(before, s);
        }
      }
    }
  }

  /** Every attempt publishes the same keys of the same batch. */
  ghost predicate Consistent<V(!new), J(!new), K(!new), L(!new)>(attempts: seq<Attempt<V, J>>, reference: Attempt<V, J>,
    validKey: V -> K, rejectKey: J -> L, validIn: V -> bool, rejectIn: J -> bool)
  {
    forall a :: a in attempts ==>
      && SourceOf(a.valid, validKey, validIn) && SourceOf(a.rejects, rejectKey, rejectIn)
      && SameKeys(reference.valid, a.valid, validKey) && SameKeys(reference.rejects, a.rejects, rejectKey)
      && |a.valid| == |reference.valid| && |a.rejects| == |reference.rejects|
  }

  /** Any number of runs, each in its own row order and each free to die between its two MERGEs:
      once one run survives, both tables hold the whole batch, the counts that the job checks
      agree, and other batches are as they were. */
  lemma AttemptsPublish<V(!new), J(!new), K(!new), L(!new)>(t: Tables<V, J>, attempts: seq<Attempt<V, J>>, reference: Attempt<V, J>,
    validKey: V -> K, rejectKey: J -> L, validIn: V -> bool, rejectIn: J -> bool)
    requires Consistent(attempts, reference, validKey, rejectKey, validIn, rejectIn)
    requires (forall v :: v in t.valid ==> !validIn(v)) && (forall j :: j in t.rejects ==> !rejectIn(j))
    requires exists a :: a in attempts && a.survives
    ensures var after := RunAttempts(t, attempts, validKey, rejectKey);
      && (exists a :: a in attempts && Part(after.valid, validIn) == a.valid)
      && (exists a :: a in attempts && Part(after.rejects, rejectIn) == a.rejects)
      && |Part(after.valid, validIn)| == |reference.valid| && |Part(after.rejects, rejectIn)| == |reference.rejects|
      && Others(after.valid, validIn) == t.valid && Others(after.rejects, rejectIn) == t.rejects
  {
    AttemptsAreRuns(t, attempts, validKey, rejectKey);
    RejectSourcesAre(attempts);
    var valids, rejects := ValidSources(attempts), RejectSources(attempts);
    assert forall i :: 0 <= i < |attempts| ==> attempts[i] in attempts && valids[i] == attempts[i].valid;
    assert forall i :: 0 <= i < |rejects| ==> rejects[i] in rejects && RejectedBy(attempts, rejects[i]);
    SourcesPublish(t.valid, valids, reference.valid, validKey, validIn);
    SourcesPublish(t.rejects, rejects, reference.rejects, rejectKey, rejectIn);
    assert valids[0] == attempts[0].valid && rejects[0] in rejects;
  }

  lemma SourcesPublish<R(!new), K(!new)>(target: seq<R>, sources: seq<seq<R>>, reference: seq<R>, key: R -> K, inBatch: R -> bool)
    requires sources != [] && forall r :: r in target ==> !inBatch(r)
    requires forall i :: 0 <= i < |sources| ==> SourceOf(sources[i], key, inBatch) && SameKeys(reference, sources[i], key)
    ensures Part(Runs(target, sources, key), inBatch) == sources[0] && Others(Runs(target, sources, key), inBatch) == target
  {
    NothingOfBatch(target, inBatch);
    RunsPublish(target, sources, key, inBatch);
  }

  /** An attempt that publishes the rows of the reference, in any order. */
  ghost predicate PublishesAs<V(!new), J(!new), K, L>(a: Attempt<V, J>, reference: Attempt<V, J>,
    validKey: V -> K, rejectKey: J -> L, validIn: V -> bool, rejectIn: J -> bool)
  {
    && SourceOf(a.valid, validKey, validIn) && SourceOf(a.rejects, rejectKey, rejectIn)
    && (forall v :: v in a.valid <==> v in reference.valid) && (forall j :: j in a.rejects <==> j in reference.rejects)
  }

  /** Replay safety of a silver job: over any runs that publish the same rows, some dying between the
      two MERGEs, once one survives the batch's rows are exactly those rows. */
  lemma SameRowsPublish<V(!new), J(!new), K(!new), L(!new)>(t: Tables<V, J>, attempts: seq<Attempt<V, J>>, reference: Attempt<V, J>,
    validKey: V -> K, rejectKey: J -> L, validIn: V -> bool, rejectIn: J -> bool)
    requires PublishesAs(reference, reference, validKey, rejectKey, validIn, rejectIn)
    requires forall a :: a in attempts ==> PublishesAs(a, reference, validKey, rejectKey, validIn, rejectIn)
    requires (forall v :: v in t.valid ==> !validIn(v)) && (forall j :: j in t.rejects ==> !rejectIn(j))
    requires exists a :: a in attempts && a.survives
    ensures var after := RunAttempts(t, attempts, validKey, rejectKey);
      var valid, rejects := Part(after.valid, validIn), Part(after.rejects, rejectIn);
      && (forall v :: v in valid <==> v in reference.valid) && (forall j :: j in rejects <==> j in reference.rejects)
      && |valid| == |reference.valid| && |rejects| == |reference.rejects| && DistinctKeys(valid, validKey)
      && Others(after.valid, validIn) == t.valid && Others(after.rejects, rejectIn) == t.rejects
  {
    forall a | a in attempts
      ensures SameKeys(reference.valid, a.valid, validKey) && SameKeys(reference.rejects, a.rejects, rejectKey)
      ensures |a.valid| == |reference.valid| && |a.rejects| == |reference.rejects|
    {
      SameRowsSameKeys(reference.valid, a.valid, validKey);
      SameRowsSameKeys(reference.rejects, a.rejects, rejectKey);
      SameRowsSameSize(reference.valid, a.valid, validKey);
      SameRowsSameSize(reference.rejects, a.rejects, rejectKey);
    }
    AttemptsPublish(t, attempts, reference, validKey, rejectKey, validIn, rejectIn);
  }

  class SilverTables<V(!new), J(!new)> {
    var valid: seq<V>
    var rejects: seq<J>

    constructor ()
      ensures valid == [] && rejects == []
    {
      valid, rejects := [], [];
    }

    /** The writing half of a silver job, after classification. */
    method WriteSelectedBatch<K(==), L(==)>(bronzeRows: nat, source: Attempt<V, J>, validKey: V -> K, rejectKey: J -> L, validIn: V -> bool, rejectIn: J -> bool)
      returns (result: Result<(nat, nat), SilverError>)
      modifies this
      ensures bronzeRows == 0 || |source.valid| + |source.rejects| != bronzeRows ==>
        result.Failure? && valid == old(valid) && rejects == old(rejects)
      ensures bronzeRows != 0 && |source.valid| + |source.rejects| == bronzeRows ==>
        && Tables(valid, rejects) == RunAttempts(Tables(old(valid), old(rejects)), [source.(survives := true)], validKey, rejectKey)
        && (result.Success? <==> |Part(valid, validIn)| == |source.valid| && |Part(rejects, rejectIn)| == |source.rejects|)
      ensures result.Success? ==> result.value == (|source.valid|, |source.rejects|) && result.value.0 + result.value.1 == bronzeRows
    {
      if bronzeRows == 0 { return Failure(EmptyBatch); }
      if |source.valid| + |source.rejects| != bronzeRows { return Failure(CountsDiffer); }
      valid := InsertMissing(valid, source.valid, validKey);
      rejects := InsertMissing(rejects, source.rejects, rejectKey);
      if |Part(valid, validIn)| != |source.valid| || |Part(rejects, rejectIn)| != |source.rejects| {
        return Failure(PostCondition);
      }
      result := Success((|source.valid|, |source.rejects|));
    }
  }
}
