/** The customer history job keeps the table equal to the history of what was observed. */
module HistoryTheorems {
  import opened Types
  import opened Frames
  import opened HistorySpec
  import opened HistoryJob

  /** The table is the history of the observations, each row once. */
  ghost predicate Holds(rows: seq<Version>, obs: set<Observation>) {
    NoDuplicates(rows) && forall v :: v in rows <==> v in History(obs)
  }

  // ---------------------------------------------------------------- validity

  /** Rows of a history are told apart by customer and start. */
  lemma StartsAreDistinct(rows: seq<Version>, obs: set<Observation>)
    requires Unambiguous(obs) && Holds(rows, obs)
    ensures DistinctStarts(rows)
    ensures forall v, w :: v in rows && w in rows && v.customer == w.customer && v.validFrom == w.validFrom ==> v == w
  {
    forall v, w | v in rows && w in rows && v.customer == w.customer && v.validFrom == w.validFrom ensures v == w {
      var a :| a in obs && Starts(obs, a) && v == VersionFrom(a, EndOf(obs, a));
      var b :| b in obs && Starts(obs, b) && w == VersionFrom(b, EndOf(obs, b));
    }
  }

  /** The one current row of a customer, and it is the last. */
  lemma OneCurrentLast(rows: seq<Version>, obs: set<Observation>, w: Version) returns (v: Version)
    requires Unambiguous(obs) && Holds(rows, obs) && w in rows
    ensures v in rows && v.customer == w.customer && v.isCurrent && w.validFrom <= v.validFrom
    ensures forall u :: u in rows && u.customer == w.customer && u.isCurrent ==> u == v
  {
    var o :| o in obs && Starts(obs, o) && w == VersionFrom(o, EndOf(obs, o));
    var s := set q | q in obs && q.customer == w.customer;
    assert o in s;
    var p := GreatestExists(s);
    v := CurrentRow(obs, p);
    var c :| c in obs && Starts(obs, c) && v == VersionFrom(c, EndOf(obs, c));
    EndOfMeans(obs, c);
  }

  lemma HoldsHasOneCurrentEach(rows: seq<Version>, obs: set<Observation>)
    requires Unambiguous(obs) && Holds(rows, obs)
    ensures OneCurrentEach(rows) && CurrentIsLast(rows)
  {
    forall i | 0 <= i < |rows|
      ensures HasOneCurrent(rows, rows[i].customer)
    {
      var v := OneCurrentLast(rows, obs, rows[i]);
      var j :| 0 <= j < |rows| && rows[j] == v;
      assert CurrentAt(rows, rows[i].customer, j);
      forall k | 0 <= k < |rows| && CurrentAt(rows, rows[i].customer, k) ensures k == j {
        assert rows[k] == v;
      }
      assert OnlyCurrentAt(rows, rows[i].customer, j);
    }
    forall i, j | 0 <= i < |rows| && 0 <= j < |rows| && rows[i].customer == rows[j].customer && rows[j].isCurrent
      ensures rows[i].validFrom <= rows[j].validFrom
    {
      var v := OneCurrentLast(rows, obs, rows[i]);
      assert rows[j] == v;
    }
  }

  lemma HoldsHasNoGaps(rows: seq<Version>, obs: set<Observation>)
    requires Unambiguous(obs) && Holds(rows, obs)
    ensures NoGaps(rows) && forall i :: 0 <= i < |rows| ==> PeriodAgrees(rows[i])
  {
    forall i | 0 <= i < |rows| ensures PeriodAgrees(rows[i]) {
      assert rows[i] in History(obs);
      var o :| o in obs && Starts(obs, o) && rows[i] == VersionFrom(o, EndOf(obs, o));
      EndOfMeans(obs, o);
    }
    forall i, j | 0 <= i < |rows| && 0 <= j < |rows| && Precedes(rows, j, i) && rows[j].validTo != None
      ensures rows[j].validTo.value == rows[i].validFrom
    {
      assert rows[i] in History(obs) && rows[j] in History(obs);
      var a :| a in obs && Starts(obs, a) && rows[j] == VersionFrom(a, EndOf(obs, a));
      var b :| b in obs && Starts(obs, b) && rows[i] == VersionFrom(b, EndOf(obs, b));
      EndOfMeans(obs, a);
      var n :| NextStart(obs, a, n) && n.at == EndOf(obs, a).value;
      var w := VersionFrom(n, EndOf(obs, n));
      assert w in History(obs);
      var k :| 0 <= k < |rows| && rows[k] == w;
    }
  }

  /** Well-formedness is inductive: whatever the table holds the history of, it is well formed. */
  lemma HoldsIsWellFormed(rows: seq<Version>, obs: set<Observation>)
    requires Unambiguous(obs) && Holds(rows, obs)
    ensures WellFormed(rows)
  {
    StartsAreDistinct(rows, obs);
    HoldsHasOneCurrentEach(rows, obs);
    HoldsHasNoGaps(rows, obs);
  }

  /** The check on the target is weaker than what the table promises: a current row from 1 on and
      a closed row from 2 to 3 pass it and both cover instant 2. */
  lemma ValidTargetAllowsOverlap(c: CustomerId, a: Attributes, d: Digest, b: BatchId) returns (rows: seq<Version>)
    ensures ValidTarget(rows) && DistinctStarts(rows) && !NoOverlap(rows) && !WellFormed(rows)
  {
    var open := Version(c, a, d, b, 1, None, true);
    var closed := Version(c, a, d, b, 2, Some(3), false);
    rows := [open, closed];
    assert OnlyCurrentAt(rows, c, 0);
    assert Covers(rows[0], 2) && Covers(rows[1], 2);
  }

  lemma SuccessorExists(rows: seq<Version>, i: int, j: int) returns (k: int)
    requires 0 <= i < |rows| && 0 <= j < |rows| && rows[i].customer == rows[j].customer && rows[i].validFrom < rows[j].validFrom
    requires DistinctStarts(rows)
    ensures 0 <= k < |rows| && Precedes(rows, i, k) && rows[k].validFrom <= rows[j].validFrom
    decreases rows[j].validFrom - rows[i].validFrom
  {
    if m :| 0 <= m < |rows| && rows[m].customer == rows[i].customer && rows[i].validFrom < rows[m].validFrom < rows[j].validFrom {
      k := SuccessorExists(rows, i, m);
    } else {
      k := j;
    }
  }

  /** Exactly when the check is enough: on a target that passes it, periods never overlap if and
      only if starts are distinct and the current row is the last. */
  lemma NoOverlapExactly(rows: seq<Version>)
    requires ValidTarget(rows)
    ensures NoOverlap(rows) <==> DistinctStarts(rows) && CurrentIsLast(rows)
  {
    if DistinctStarts(rows) && CurrentIsLast(rows) {
      forall i, j, t | 0 <= i < j < |rows| && rows[i].customer == rows[j].customer && Covers(rows[i], t) ensures !Covers(rows[j], t) {
        var a, b := if rows[i].validFrom < rows[j].validFrom then i else j, if rows[i].validFrom < rows[j].validFrom then j else i;
        assert PeriodAgrees(rows[a]) && !rows[a].isCurrent;
        var k := SuccessorExists(rows, a, b);
        assert rows[a].validTo.value == rows[k].validFrom;
      }
    }
    if NoOverlap(rows) {
      forall i, j | 0 <= i < j < |rows| && rows[i].customer == rows[j].customer ensures rows[i].validFrom != rows[j].validFrom {
        assert PeriodAgrees(rows[i]) && PeriodAgrees(rows[j]);
        assert Covers(rows[i], rows[i].validFrom) && Covers(rows[j], rows[j].validFrom);
      }
      forall i, j | 0 <= i < |rows| && 0 <= j < |rows| && rows[i].customer == rows[j].customer && rows[j].isCurrent
        ensures rows[i].validFrom <= rows[j].validFrom
      {
        assert PeriodAgrees(rows[i]) && PeriodAgrees(rows[j]);
        if rows[j].validFrom < rows[i].validFrom {
          assert Covers(rows[i], rows[i].validFrom) && Covers(rows[j], rows[i].validFrom);
        }
      }
    }
  }

  // ---------------------------------------------------------------- forward

  lemma ChangedMeansChanged(rows: seq<Version>, obs: set<Observation>, b: Observation)
    requires Unambiguous(obs) && Holds(rows, obs)
    ensures IsChanged(rows, b) <==> ChangedBy(History(obs), b)
  {
    var current := CurrentOf(rows, b.customer);
    if current != None {
      var v := OneCurrentLast(rows, obs, current.value);
    }
  }

  ghost predicate DistinctKeys(source: seq<MergeRow>) {
    forall j, k :: 0 <= j < k < |source| ==> source[j].key != source[k].key
  }

  lemma {:induction false} ClosingKeysDistinct(rows: seq<Version>, versions: seq<Version>)
    requires forall i, j :: 0 <= i < j < |versions| ==> versions[i].customer != versions[j].customer
    ensures DistinctKeys(Closing(rows, versions))
  {
    if versions != [] {
      ClosingKeysDistinct(rows, versions[1..]);
      var rest := Closing(rows, versions[1..]);
      forall k | 0 <= k < |rest| ensures rest[k].key != Some(versions[0].customer) {
        assert rest[k] in rest;
        var i :| 0 <= i < |versions[1..]| && versions[1..][i] == rest[k].version;
        assert versions[1..][i] == versions[i + 1];
      }
    }
  }

  lemma {:induction false} KeyedRowsAreNotInserted(target: seq<Version>, keyed: seq<MergeRow>, rest: seq<MergeRow>)
    requires forall s :: s in keyed ==> s.key != None
    ensures Inserted(target, keyed + rest) == Inserted(target, rest)
  {
    if keyed == [] {
      assert keyed + rest == rest;
    } else {
      KeyedRowsAreNotInserted(target, keyed[1..], rest);
      assert (keyed + rest)[1..] == keyed[1..] + rest;
      assert keyed[0] in keyed;
    }
  }

  lemma {:induction false} NullKeysAreInserted(target: seq<Version>, versions: seq<Version>)
    ensures Inserted(target, Inserts(versions)) == versions
  {
    if versions != [] {
      NullKeysAreInserted(target, versions[1..]);
      assert Inserts(versions)[1..] == Inserts(versions[1..]);
    }
  }

  /** The table after the forward MERGE: current rows rewritten in place, versions appended. */
  function Forward(rows: seq<Version>, source: seq<Observation>): seq<Version> {
    var changed := Changed(rows, source);
    AllUpdated(MergeSource(rows, changed), rows) + NewVersions(changed)
  }

  /** No target row is matched twice, no closing row goes unmatched, and every version is inserted. */
  lemma MergeFits(rows: seq<Version>, changed: seq<Observation>)
    requires DistinctCustomers(changed)
    ensures !MatchedTwice(rows, MergeSource(rows, changed))
    ensures forall s :: s in MergeSource(rows, changed) && s.key != None ==> exists t :: t in rows && Matches(s, t)
    ensures Merge(rows, MergeSource(rows, changed)) == Success(AllUpdated(MergeSource(rows, changed), rows) + NewVersions(changed))
  {
    var versions := NewVersions(changed);
    var closing := Closing(rows, versions);
    var source := MergeSource(rows, changed);
    ClosingKeysDistinct(rows, versions);
    forall i, j, k | 0 <= i < |rows| && 0 <= j < k < |source|
      ensures !(Matches(source[j], rows[i]) && Matches(source[k], rows[i]))
    {
      if k < |closing| {
        assert source[j] == closing[j] && source[k] == closing[k];
      } else {
        assert source[k] == Inserts(versions)[k - |closing|];
      }
    }
    forall s | s in source && s.key != None ensures exists t :: t in rows && Matches(s, t) {
      assert s in closing;
      assert Matches(s, CurrentOf(rows, s.version.customer).value);
    }
    KeyedRowsAreNotInserted(rows, closing, Inserts(versions));
    NullKeysAreInserted(rows, versions);
  }

  lemma ChangedRows(rows: seq<Version>, obs: set<Observation>, source: seq<Observation>)
    requires Unambiguous(obs) && Holds(rows, obs) && DistinctCustomers(source)
    ensures DistinctCustomers(Changed(rows, source))
    ensures forall b :: b in Changed(rows, source) <==> b in source && ChangedBy(History(obs), b)
  {
    FilterKeepsDistinct(source, (o: Observation) => IsChanged(rows, o));
    forall b | b in source ensures b in Changed(rows, source) <==> ChangedBy(History(obs), b) {
      ChangedMeansChanged(rows, obs, b);
    }
  }

  /** Only the closing row of its customer matches a target row. */
  lemma MatchingRow(rows: seq<Version>, changed: seq<Observation>, s: MergeRow, t: Version)
    requires s in MergeSource(rows, changed) && Matches(s, t)
    ensures exists b :: b in changed && b.customer == t.customer && s.version == VersionFrom(b, None)
  {
  }

  lemma ClosingRowMatches(rows: seq<Version>, changed: seq<Observation>, b: Observation, t: Version)
    requires b in changed && t in rows && t.isCurrent && t.customer == b.customer
    ensures exists s :: s in MergeSource(rows, changed) && Matches(s, t)
  {
    var versions := NewVersions(changed);
    var i :| 0 <= i < |changed| && changed[i] == b;
    assert versions[i] in versions && CurrentOf(rows, b.customer) != None;
    var s := MergeRow(Some(b.customer), versions[i]);
    assert s in Closing(rows, versions);
    assert s in MergeSource(rows, changed);
  }

  /** b is the changed observation of t's customer, and t its current row. */
  ghost predicate Ends(changed: seq<Observation>, t: Version, b: Observation) {
    b in changed && b.customer == t.customer && t.isCurrent
  }

  ghost predicate Untouched(changed: seq<Observation>, t: Version) {
    forall b :: !Ends(changed, t, b)
  }

  /** What the MERGE writes into a target row: the close of its customer's change, or nothing. */
  lemma UpdatedIs(rows: seq<Version>, changed: seq<Observation>, t: Version)
    requires DistinctCustomers(changed) && t in rows
    ensures forall b :: Ends(changed, t, b) ==> Updated(MergeSource(rows, changed), t) == Closed(t, b.at)
    ensures Untouched(changed, t) ==> Updated(MergeSource(rows, changed), t) == t
  {
    var merge := MergeSource(rows, changed);
    forall s | s in merge && Matches(s, t) ensures MatchedByEnd(changed, s, t) {
      MatchingRow(rows, changed, s, t);
      var b :| b in changed && b.customer == t.customer && s.version == VersionFrom(b, None);
      assert Ends(changed, t, b);
    }
    forall b | Ends(changed, t, b) ensures Updated(merge, t) == Closed(t, b.at) {
      ClosingRowMatches(rows, changed, b, t);
      var s :| s in merge && Matches(s, t) && Updated(merge, t) == Closed(t, s.version.validFrom);
      OneEnd(changed, s, t, b);
    }
  }

  ghost predicate MatchedByEnd(changed: seq<Observation>, s: MergeRow, t: Version) {
    exists b :: Ends(changed, t, b) && s.version == VersionFrom(b, None)
  }

  lemma OneEnd(changed: seq<Observation>, s: MergeRow, t: Version, b: Observation)
    requires DistinctCustomers(changed) && MatchedByEnd(changed, s, t) && Ends(changed, t, b)
    ensures s.version == VersionFrom(b, None)
  {
    var c :| Ends(changed, t, c) && s.version == VersionFrom(c, None);
    var i :| 0 <= i < |changed| && changed[i] == b;
    var j :| 0 <= j < |changed| && changed[j] == c;
  }

  /** In terms of the history: kept rows stay, and the row that b closes ends when b begins. */
  lemma UpdatedRow(rows: seq<Version>, obs: set<Observation>, source: seq<Observation>, t: Version)
    requires Unambiguous(obs) && Holds(rows, obs) && t in rows && DistinctCustomers(source)
    ensures KeptBy(History(obs), Rows(source), t) ==> Updated(MergeSource(rows, Changed(rows, source)), t) == t
    ensures forall b :: ClosedBy(History(obs), Rows(source), t, b) ==> Updated(MergeSource(rows, Changed(rows, source)), t) == Closed(t, b.at)
  {
    var changed := Changed(rows, source);
    ChangedRows(rows, obs, source);
    UpdatedIs(rows, changed, t);
    assert KeptBy(History(obs), Rows(source), t) ==> Untouched(changed, t);
    forall b | ClosedBy(History(obs), Rows(source), t, b) ensures Ends(changed, t, b) {
    }
  }

  lemma {:induction false} FilterKeepsDistinct(source: seq<Observation>, keep: Observation -> bool)
    requires DistinctCustomers(source)
    ensures DistinctCustomers(Filter(source, keep))
  {
    if source != [] {
      FilterKeepsDistinct(source[1..], keep);
      assert forall o :: o in source[1..] ==> o.customer != source[0].customer;
    }
  }

  /** A row of the merged table is a row of the longer history. */
  lemma ForwardSound(rows: seq<Version>, obs: set<Observation>, source: seq<Observation>, i: int)
    requires Unambiguous(obs) && Holds(rows, obs) && DistinctCustomers(source)
    requires 0 <= i < |Forward(rows, source)|
    ensures InForward(History(obs), Rows(source), Forward(rows, source)[i])
  {
    var table, batch := History(obs), Rows(source);
    if i < |rows| {
      var t := rows[i];
      UpdatedRow(rows, obs, source, t);
      assert t in table;
      if b :| ClosedBy(table, batch, t, b) {
      } else {
        forall b | b in batch && b.customer == t.customer && t.isCurrent ensures !ChangedBy(table, b) {
          assert !ClosedBy(table, batch, t, b);
        }
        assert KeptBy(table, batch, t);
      }
    } else {
      ChangedRows(rows, obs, source);
      assert Changed(rows, source)[i - |rows|] in Changed(rows, source);
    }
  }

  lemma KeptRowStays(rows: seq<Version>, obs: set<Observation>, source: seq<Observation>, w: Version)
    requires Unambiguous(obs) && Holds(rows, obs) && DistinctCustomers(source) && KeptBy(History(obs), Rows(source), w)
    ensures w in Forward(rows, source)
  {
    UpdatedRow(rows, obs, source, w);
    var i :| 0 <= i < |rows| && rows[i] == w;
    assert Forward(rows, source)[i] == w;
  }

  lemma ClosedRowIsWritten(rows: seq<Version>, obs: set<Observation>, source: seq<Observation>, v: Version, b: Observation)
    requires Unambiguous(obs) && Holds(rows, obs) && DistinctCustomers(source) && ClosedBy(History(obs), Rows(source), v, b)
    ensures Closed(v, b.at) in Forward(rows, source)
  {
    UpdatedRow(rows, obs, source, v);
    var i :| 0 <= i < |rows| && rows[i] == v;
    assert Forward(rows, source)[i] == Closed(v, b.at);
  }

  lemma NewRowIsWritten(rows: seq<Version>, obs: set<Observation>, source: seq<Observation>, b: Observation)
    requires Unambiguous(obs) && Holds(rows, obs) && DistinctCustomers(source) && b in source && ChangedBy(History(obs), b)
    ensures VersionFrom(b, None) in Forward(rows, source)
  {
  }

  lemma ForwardComplete(rows: seq<Version>, obs: set<Observation>, source: seq<Observation>, w: Version)
    requires Unambiguous(obs) && Holds(rows, obs) && DistinctCustomers(source)
    requires InForward(History(obs), Rows(source), w)
    ensures w in Forward(rows, source)
  {
    if KeptBy(History(obs), Rows(source), w) {
      KeptRowStays(rows, obs, source, w);
    } else if v, b :| ClosedBy(History(obs), Rows(source), v, b) && w == Closed(v, b.at) {
      ClosedRowIsWritten(rows, obs, source, v, b);
    } else {
      var b :| b in Rows(source) && ChangedBy(History(obs), b) && w == VersionFrom(b, None);
      NewRowIsWritten(rows, obs, source, b);
    }
  }

  lemma ForwardHasNoDuplicates(rows: seq<Version>, obs: set<Observation>, source: seq<Observation>)
    requires Unambiguous(obs) && Holds(rows, obs) && DistinctCustomers(source) && LaterBatch(obs, Rows(source))
    ensures NoDuplicates(Forward(rows, source))
  {
    var changed := Changed(rows, source);
    ChangedRows(rows, obs, source);
    StartsAreDistinct(rows, obs);
    var after := Forward(rows, source);
    forall i | 0 <= i < |rows| ensures after[i].customer == rows[i].customer && after[i].validFrom == rows[i].validFrom {
    }
    forall i, j | 0 <= i < j < |after| ensures after[i] != after[j] {
      if i < |rows| <= j {
        assert rows[i] in History(obs);
        var o :| o in obs && Starts(obs, o) && rows[i] == VersionFrom(o, EndOf(obs, o));
        assert changed[j - |rows|] in changed;
      }
    }
  }

  /** Forward refines rebuild, on tables. */
  lemma ForwardHolds(rows: seq<Version>, obs: set<Observation>, source: seq<Observation>)
    requires Unambiguous(obs) && Holds(rows, obs) && DistinctCustomers(source) && LaterBatch(obs, Rows(source))
    ensures Holds(Forward(rows, source), obs + Rows(source))
  {
    var batch, after := Rows(source), Forward(rows, source);
    forall w ensures w in after <==> w in History(obs + batch) {
      ForwardHistory(obs, batch, w);
      if i :| 0 <= i < |after| && after[i] == w {
        ForwardSound(rows, obs, source, i);
      }
      if InForward(History(obs), batch, w) {
        ForwardComplete(rows, obs, source, w);
      }
    }
    ForwardHasNoDuplicates(rows, obs, source);
  }

  // ---------------------------------------------------------------- the guards of forward mode

  lemma {:induction false} CountOfCurrent(rows: seq<Version>, c: CustomerId)
    ensures (forall v :: v in rows && v.customer == c ==> !v.isCurrent) ==> CurrentCount(rows, c) == 0
    ensures forall j :: OnlyCurrentAt(rows, c, j) ==> CurrentCount(rows, c) == 1
  {
    if rows != [] {
      var rest := rows[1..];
      CountOfCurrent(rest, c);
      forall j | OnlyCurrentAt(rows, c, j) ensures CurrentCount(rows, c) == 1 {
        if j > 0 {
          assert !CurrentAt(rows, c, 0);
          forall k | 0 <= k < |rest| && CurrentAt(rest, c, k) ensures k == j - 1 {
            assert CurrentAt(rows, c, k + 1);
          }
          assert OnlyCurrentAt(rest, c, j - 1);
        } else {
          forall k | 0 <= k < |rest| ensures !CurrentAt(rest, c, k) {
            assert !CurrentAt(rows, c, k + 1);
          }
          forall v | v in rest && v.customer == c ensures !v.isCurrent {
            var k :| 0 <= k < |rest| && rest[k] == v;
            assert !CurrentAt(rest, c, k);
          }
        }
      }
    }
  }

  /** The source is the last word on each of its customers. */
  ghost predicate LastOf(obs: set<Observation>, source: seq<Observation>) {
    forall b, o :: b in source && o in obs && o.customer == b.customer ==> b in obs && o.at <= b.at
  }

  lemma SourceIsCurrent(rows: seq<Version>, obs: set<Observation>, b: Observation) returns (v: Version)
    requires Unambiguous(obs) && Holds(rows, obs) && b in obs
    requires forall o :: o in obs && o.customer == b.customer ==> o.at <= b.at
    ensures v in rows && v.customer == b.customer && v.isCurrent && v.digest == b.digest && v.validFrom <= b.at
    ensures CurrentCount(rows, b.customer) == 1
    ensures forall w :: w in rows && w.customer == b.customer && w.isCurrent ==> w == v
  {
    v := CurrentRow(obs, b);
    var o :| o in obs && Starts(obs, o) && v == VersionFrom(o, EndOf(obs, o));
    HoldsHasOneCurrentEach(rows, obs);
    var i :| 0 <= i < |rows| && rows[i] == v;
    assert HasOneCurrent(rows, rows[i].customer);
    CountOfCurrent(rows, b.customer);
  }

  /** The checks after the MERGE pass on a table that holds the source's history. */
  lemma {:induction false} PostChecksPass(rows: seq<Version>, obs: set<Observation>, source: seq<Observation>)
    requires Unambiguous(obs) && Holds(rows, obs) && LastOf(obs, source) && Rows(source) <= obs
    ensures JoinCount(source, rows) == |source| && !CurrentMismatch(rows, source)
  {
    if source != [] {
      var rest := source[1..];
      assert forall b :: b in rest ==> b in source;
      assert source[0] in source && source[0] in Rows(source);
      PostChecksPass(rows, obs, rest);
      var v := SourceIsCurrent(rows, obs, source[0]);
      forall i, j | 0 <= i < |source| && 0 <= j < |rows| && CurrentAt(rows, source[i].customer, j)
        ensures source[i].digest == rows[j].digest
      {
        if i == 0 {
          assert rows[j] == v;
        } else {
          assert source[i] == rest[i - 1] && CurrentAt(rows, rest[i - 1].customer, j);
        }
      }
    }
  }

  lemma LaterBatchIsInOrder(rows: seq<Version>, obs: set<Observation>, source: seq<Observation>)
    requires Unambiguous(obs) && Holds(rows, obs) && LaterBatch(obs, Rows(source))
    ensures !OutOfOrder(rows, source)
  {
    forall i, j | 0 <= i < |source| && 0 <= j < |rows| && CurrentAt(rows, source[i].customer, j)
      ensures rows[j].validFrom < source[i].at
    {
      assert rows[j] in History(obs);
      var o :| o in obs && Starts(obs, o) && rows[j] == VersionFrom(o, EndOf(obs, o));
      assert source[i] in Rows(source);
    }
  }

  lemma NothingChangedNothingMerged(rows: seq<Version>, source: seq<Observation>)
    requires Changed(rows, source) == []
    ensures Forward(rows, source) == rows
  {
  }

  lemma ForwardMerges(rows: seq<Version>, source: seq<Observation>)
    requires DistinctCustomers(source)
    ensures var changed := Changed(rows, source);
      && (changed == [] ==> Forward(rows, source) == rows)
      && Merge(rows, MergeSource(rows, changed)) == Success(Forward(rows, source))
      && |Forward(rows, source)| == |rows| + |changed|
  {
    FilterKeepsDistinct(source, (o: Observation) => IsChanged(rows, o));
    MergeFits(rows, Changed(rows, source));
    if Changed(rows, source) == [] {
      NothingChangedNothingMerged(rows, source);
    }
  }

  lemma ForwardPassesChecks(rows: seq<Version>, obs: set<Observation>, source: seq<Observation>)
    requires Unambiguous(obs) && Holds(rows, obs) && DistinctCustomers(source) && LaterBatch(obs, Rows(source))
    ensures var after := Forward(rows, source);
      && Holds(after, obs + Rows(source)) && ValidTarget(after)
      && JoinCount(source, after) == |source| && !CurrentMismatch(after, source)
  {
    var all, after := obs + Rows(source), Forward(rows, source);
    LaterBatchIsUnambiguous(obs, Rows(source));
    ForwardHolds(rows, obs, source);
    HoldsIsWellFormed(after, all);
    forall b, o | b in source && o in all && o.customer == b.customer ensures o.at <= b.at {
      assert b in Rows(source);
    }
    PostChecksPass(after, all, source);
  }

  /** A strictly later batch with unique customers always succeeds: neither the order guard, nor
      the MERGE, nor a post-condition stops it, and the table holds the longer history. */
  lemma ApplySucceeds(rows: seq<Version>, obs: set<Observation>, source: seq<Observation>)
    requires Unambiguous(obs) && Holds(rows, obs) && LaterBatch(obs, Rows(source))
    requires source != [] && SameTime(source) && DistinctCustomers(source)
    ensures var r := ApplyHistory(rows, source);
      r.result == Success(ForwardReport(|source|, |Changed(rows, source)|, |rows|, |r.rows|)) && Holds(r.rows, obs + Rows(source))
  {
    HoldsIsWellFormed(rows, obs);
    LaterBatchIsInOrder(rows, obs, source);
    ForwardMerges(rows, source);
    ForwardPassesChecks(rows, obs, source);
  }

  /** Running the batch again changes nothing and succeeds. */
  lemma ApplyReplays(rows: seq<Version>, obs: set<Observation>, source: seq<Observation>)
    requires Unambiguous(obs) && Holds(rows, obs) && LastOf(obs, source) && Rows(source) <= obs
    requires source != [] && SameTime(source) && DistinctCustomers(source)
    ensures ApplyHistory(rows, source) == Outcome(rows, Success(ForwardReport(|source|, 0, |rows|, |rows|)))
  {
    HoldsIsWellFormed(rows, obs);
    PostChecksPass(rows, obs, source);
    forall b | b in source ensures !IsChanged(rows, b) {
      assert b in Rows(source);
      var v := SourceIsCurrent(rows, obs, b);
    }
    FilterNone(source, (o: Observation) => IsChanged(rows, o));
  }

  // ---------------------------------------------------------------- rebuild

  lemma ChangesMeanStarts(source: seq<Observation>)
    requires Unambiguous(Rows(source))
    ensures forall q :: q in ChangesOf(source) <==> Starts(Rows(source), q)
  {
  }

  lemma LeadMeansEnd(source: seq<Observation>, o: Observation)
    requires Unambiguous(Rows(source)) && o in source
    ensures LeadOf(ChangesOf(source), o) == EndOf(Rows(source), o)
  {
    ChangesMeanStarts(source);
    LeadIsEnd(Rows(source), ChangesOf(source), o);
  }

  lemma LeadIsEnd(obs: set<Observation>, changes: seq<Observation>, o: Observation)
    requires forall q :: q in changes <==> Starts(obs, q)
    ensures LeadOf(changes, o) == EndOf(obs, o)
  {
    EndOfMeans(obs, o);
    if n :| NextStart(obs, o, n) {
      assert n in changes;
    }
    if lead :| LeadOf(changes, o) == Some(lead) {
      var q :| q in changes && q.customer == o.customer && q.at == lead;
      assert Starts(obs, q);
    }
  }

  lemma UnambiguousRows(source: seq<Observation>)
    requires !Ambiguous(source)
    ensures Unambiguous(Rows(source)) && NoDuplicates(source)
  {
  }

  lemma ChangesAreStarts(source: seq<Observation>)
    requires !Ambiguous(source)
    ensures forall o :: o in ChangesOf(source) <==> Starts(Rows(source), o)
    ensures NoDuplicates(ChangesOf(source))
  {
    UnambiguousRows(source);
    FilterKeepsNoDuplicates(source, (o: Observation) => BeginsVersion(source, o));
    ChangesMeanStarts(source);
  }

  lemma RebuiltRowIs(source: seq<Observation>, i: nat)
    requires !Ambiguous(source) && i < |ChangesOf(source)|
    ensures RebuiltRows(source)[i] == VersionFrom(ChangesOf(source)[i], EndOf(Rows(source), ChangesOf(source)[i]))
  {
    UnambiguousRows(source);
    assert ChangesOf(source)[i] in ChangesOf(source);
    LeadMeansEnd(source, ChangesOf(source)[i]);
  }

  lemma RebuiltRowsDiffer(source: seq<Observation>)
    requires !Ambiguous(source)
    ensures NoDuplicates(RebuiltRows(source))
  {
    ChangesAreStarts(source);
    var changes, history := ChangesOf(source), RebuiltRows(source);
    forall i, j | 0 <= i < j < |history| ensures history[i] != history[j] {
      assert changes[i] in changes && changes[j] in changes;
    }
  }

  /** The windows of the rebuild compute the history of the source. */
  lemma RebuildHolds(source: seq<Observation>)
    requires !Ambiguous(source)
    ensures Holds(RebuiltRows(source), Rows(source))
  {
    var obs, changes, history := Rows(source), ChangesOf(source), RebuiltRows(source);
    ChangesAreStarts(source);
    RebuiltRowsDiffer(source);
    forall v | v in History(obs) ensures v in history {
      var o :| o in obs && Starts(obs, o) && v == VersionFrom(o, EndOf(obs, o));
      var i :| 0 <= i < |changes| && changes[i] == o;
      RebuiltRowIs(source, i);
      assert history[i] == v;
    }
    forall v | v in history ensures v in History(obs) {
      var i :| 0 <= i < |history| && history[i] == v;
      RebuiltRowIs(source, i);
      assert changes[i] in changes;
    }
  }

  lemma SameBagHolds(a: seq<Version>, b: seq<Version>, obs: set<Observation>)
    requires Holds(a, obs)
    ensures multiset(a) == multiset(b) <==> Holds(b, obs)
  {
    if multiset(a) == multiset(b) {
      SameBagSameRows(a, b);
      SameBagNoDuplicates(a, b);
    }
    if Holds(b, obs) {
      SameRowsSameBag(a, b);
    }
  }

  /** Whatever the target holds, the rebuild succeeds exactly when its source checks pass; then
      the target holds the history of the source, rewritten only if it did not already. When they
      fail it stays as it was. */
  lemma RebuildExactly(rows: seq<Version>, source: seq<Observation>)
    ensures var r := RebuildHistory(rows, source);
      && (r.result.Success? <==>
        source != [] && (forall o :: o in source ==> Complete(o)) && !Ambiguous(source) && !RepeatsIdentity(source) && CoversTarget(source, rows))
      && (r.result.Success? ==> Holds(r.rows, Rows(source)))
      && (r.result.Success? ==> (r.result.value.action == Replay <==> Holds(rows, Rows(source))))
      && ((r.result.Failure? || r.result.value.action == Replay) ==> r.rows == rows)
  {
    if !Ambiguous(source) {
      var obs, history := Rows(source), RebuiltRows(source);
      UnambiguousRows(source);
      RebuildHolds(source);
      SameBagHolds(history, rows, obs);
      HoldsIsWellFormed(history, obs);
      if Holds(rows, obs) {
        HoldsIsWellFormed(rows, obs);
      }
    }
  }

  /** The coverage guard never rejects a table made from part of the source. */
  lemma CoverageNeverRejects(rows: seq<Version>, known: set<Observation>, source: seq<Observation>)
    requires Holds(rows, known) && known <= Rows(source)
    ensures CoversTarget(source, rows)
  {
    forall i | 0 <= i < |rows|
      ensures KnownBy(source, rows[i].customer, rows[i].validFrom)
    {
      assert rows[i] in History(known);
      var o :| o in known && Starts(known, o) && rows[i] == VersionFrom(o, EndOf(known, o));
      var j :| 0 <= j < |source| && source[j] == o;
    }
  }

  /** Arrival order does not matter: two listings of the same observations rebuild the same table. */
  lemma RebuildIgnoresOrder(a: seq<Observation>, b: seq<Observation>)
    requires !Ambiguous(a) && !Ambiguous(b) && Rows(a) == Rows(b)
    ensures multiset(RebuiltRows(a)) == multiset(RebuiltRows(b))
  {
    RebuildHolds(a);
    RebuildHolds(b);
    SameBagHolds(RebuiltRows(a), RebuiltRows(b), Rows(a));
  }

  // ---------------------------------------------------------------- folding batches

  function FoldForward(batches: seq<seq<Observation>>): seq<Version> {
    if batches == [] then []
    else ApplyHistory(FoldForward(batches[..|batches| - 1]), batches[|batches| - 1]).rows
  }

  function Concat(batches: seq<seq<Observation>>): seq<Observation> {
    if batches == [] then [] else Concat(batches[..|batches| - 1]) + batches[|batches| - 1]
  }

  /** Nonempty batches, each of one instant and with unique customers, in increasing time. */
  predicate Ascending(batches: seq<seq<Observation>>) {
    && (forall i | 0 <= i < |batches| :: batches[i] != [] && SameTime(batches[i]) && DistinctCustomers(batches[i]))
    && (forall i, j | 0 <= i < j < |batches| && batches[i] != [] && batches[j] != [] :: batches[i][0].at < batches[j][0].at)
  }

  lemma {:induction false} FoldHolds(batches: seq<seq<Observation>>)
    requires Ascending(batches)
    ensures Unambiguous(Rows(Concat(batches))) && Holds(FoldForward(batches), Rows(Concat(batches)))
    ensures forall o :: o in Concat(batches) ==> batches != [] && o.at <= batches[|batches| - 1][0].at
    ensures batches != [] ==>
      ApplyHistory(FoldForward(batches[..|batches| - 1]), batches[|batches| - 1]).result.Success?
  {
    if batches == [] {
      assert Concat(batches) == [];
    } else {
      var before, batch := batches[..|batches| - 1], batches[|batches| - 1];
      FoldHolds(before);
      var obs := Rows(Concat(before));
      assert Rows(Concat(batches)) == obs + Rows(batch);
      assert forall b :: b in batch ==> b.at == batch[0].at;
      assert before != [] ==> before[|before| - 1] == batches[|batches| - 2];
      assert LaterBatch(obs, Rows(batch));
      ApplySucceeds(FoldForward(before), obs, batch);
      LaterBatchIsUnambiguous(obs, Rows(batch));
    }
  }

  /** The forward fold equals the rebuild: applying any ascending run of batches one by one never
      fails and leaves the bag of rows that one rebuild over all their observations computes. */
  lemma FoldEqualsRebuild(batches: seq<seq<Observation>>, all: seq<Observation>)
    requires Ascending(batches) && !Ambiguous(all) && Rows(all) == Rows(Concat(batches))
    ensures multiset(FoldForward(batches)) == multiset(RebuiltRows(all))
  {
    FoldHolds(batches);
    RebuildHolds(all);
    SameBagHolds(RebuiltRows(all), FoldForward(batches), Rows(all));
  }

  // ---------------------------------------------------------------- attributes

  /** If the hash tells the observed attributes apart, the row that covers an instant carries the
      attributes, and not just the digest, of the customer's latest silver row. */
  lemma AttributesAtInstant(digestOf: Attributes -> Digest, silver: seq<SilverRow>, latest: SilverRow, v: Version, t: Instant)
    requires forall r, s :: r in silver && s in silver && digestOf(r.attributes) == digestOf(s.attributes) ==> r.attributes == s.attributes
    requires !Ambiguous(WithHistoryColumns(digestOf, silver))
    requires latest in silver && latest.at <= t
    requires forall s :: s in silver && s.customer == latest.customer && s.at <= t ==> s.at <= latest.at
    requires v in RebuiltRows(WithHistoryColumns(digestOf, silver)) && v.customer == latest.customer && Covers(v, t)
    ensures v.attributes == latest.attributes
  {
    var source := WithHistoryColumns(digestOf, silver);
    var p := LatestRowIsLatest(digestOf, silver, latest, t);
    var s := RowOfVersion(digestOf, silver, v);
    RebuildHolds(source);
    UnambiguousRows(source);
    PointInTime(Rows(source), p.customer, t);
  }

  lemma LatestRowIsLatest(digestOf: Attributes -> Digest, silver: seq<SilverRow>, latest: SilverRow, t: Instant) returns (p: Observation)
    requires latest in silver && latest.at <= t
    requires forall s :: s in silver && s.customer == latest.customer && s.at <= t ==> s.at <= latest.at
    ensures Latest(Rows(WithHistoryColumns(digestOf, silver)), latest.customer, t, p)
    ensures p.customer == latest.customer && p.digest == digestOf(latest.attributes)
  {
    var source := WithHistoryColumns(digestOf, silver);
    var i :| 0 <= i < |silver| && silver[i] == latest;
    p := source[i];
    assert p in source;
    forall q | q in source && q.customer == p.customer && q.at <= t ensures q.at <= p.at {
      var j :| 0 <= j < |source| && source[j] == q;
      assert silver[j] in silver;
    }
  }

  /** A rebuilt version has the attributes and digest of one silver row. */
  lemma RowOfVersion(digestOf: Attributes -> Digest, silver: seq<SilverRow>, v: Version) returns (s: SilverRow)
    requires v in RebuiltRows(WithHistoryColumns(digestOf, silver))
    ensures s in silver && v.attributes == s.attributes && v.digest == digestOf(s.attributes)
  {
    var source := WithHistoryColumns(digestOf, silver);
    var changes := ChangesOf(source);
    var i :| 0 <= i < |changes| && RebuiltRows(source)[i] == v;
    assert changes[i] in changes;
    var k :| 0 <= k < |source| && source[k] == changes[i];
    s := silver[k];
  }
}
