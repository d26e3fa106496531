/** What the history job keeps of any well-formed table, whatever batch it is given. */
module HistoryInvariant {
  import opened Types
  import opened Frames
  import opened HistorySpec
  import opened HistoryJob
  import opened HistoryTheorems

  // ---------------------------------------------------------------- rows after a forward MERGE

  /** The rows of the table before, as the MERGE leaves them. */
  ghost predicate UpdatedRows(rows: seq<Version>, changed: seq<Observation>, updated: seq<Version>) {
    && |updated| == |rows|
    && (forall i, b :: 0 <= i < |rows| && Ends(changed, rows[i], b) ==> updated[i] == Closed(rows[i], b.at))
    && (forall i :: 0 <= i < |rows| && Untouched(changed, rows[i]) ==> updated[i] == rows[i])
  }

  /** The table after, as a relation of its rows to the table before. */
  ghost predicate Merged(rows: seq<Version>, changed: seq<Observation>, after: seq<Version>) {
    && |after| == |rows| + |changed|
    && UpdatedRows(rows, changed, after[..|rows|])
    && (forall k :: 0 <= k < |changed| ==> after[|rows| + k] == VersionFrom(changed[k], None))
  }

  lemma MergeUpdates(rows: seq<Version>, changed: seq<Observation>)
    requires DistinctCustomers(changed)
    ensures UpdatedRows(rows, changed, AllUpdated(MergeSource(rows, changed), rows))
  {
    forall t | t in rows
      ensures forall b :: Ends(changed, t, b) ==> Updated(MergeSource(rows, changed), t) == Closed(t, b.at)
      ensures Untouched(changed, t) ==> Updated(MergeSource(rows, changed), t) == t
    {
      UpdatedIs(rows, changed, t);
    }
  }

  lemma ForwardIsMerged(rows: seq<Version>, source: seq<Observation>)
    requires DistinctCustomers(source)
    ensures DistinctCustomers(Changed(rows, source)) && Merged(rows, Changed(rows, source), Forward(rows, source))
  {
    var changed := Changed(rows, source);
    FilterKeepsDistinct(source, (o: Observation) => IsChanged(rows, o));
    MergeUpdates(rows, changed);
  }

  /** Every change is later than all rows of its customer. */
  ghost predicate ChangesAreLater(rows: seq<Version>, changed: seq<Observation>) {
    forall i, b :: 0 <= i < |rows| && b in changed && b.customer == rows[i].customer ==> rows[i].validFrom < b.at
  }

  lemma InOrderIsLater(rows: seq<Version>, source: seq<Observation>)
    requires WellFormed(rows) && !OutOfOrder(rows, source)
    ensures ChangesAreLater(rows, Changed(rows, source))
  {
    forall i, b | 0 <= i < |rows| && b in Changed(rows, source) && b.customer == rows[i].customer
      ensures rows[i].validFrom < b.at
    {
      var j :| 0 <= j < |rows| && OnlyCurrentAt(rows, rows[i].customer, j);
      assert b in source && IsChanged(rows, b);
      var k :| 0 <= k < |source| && source[k] == b;
      TheCurrentRow(rows, b.customer, j);
      assert source[k].digest != rows[j].digest;
    }
  }

  /** With one current row, looking the current row up finds it. */
  lemma TheCurrentRow(rows: seq<Version>, c: CustomerId, j: nat)
    requires j < |rows| && OnlyCurrentAt(rows, c, j)
    ensures CurrentOf(rows, c) == Some(rows[j])
  {
    var found := CurrentOf(rows, c);
    assert rows[j] in rows;
    var k :| 0 <= k < |rows| && rows[k] == found.value;
    assert CurrentAt(rows, c, k);
  }

  // ---------------------------------------------------------------- the invariant is kept

  lemma RowsAfter(rows: seq<Version>, changed: seq<Observation>, after: seq<Version>, i: nat)
    requires Merged(rows, changed, after) && i < |rows|
    ensures after[i].customer == rows[i].customer && after[i].validFrom == rows[i].validFrom
    ensures after[i] == rows[i] || (rows[i].isCurrent && exists b :: Ends(changed, rows[i], b) && after[i] == Closed(rows[i], b.at))
    ensures after[i].isCurrent <==> rows[i].isCurrent && forall b :: b in changed ==> b.customer != rows[i].customer
  {
    if b :| Ends(changed, rows[i], b) {
      assert after[i] == Closed(rows[i], b.at);
    } else {
      forall b | b in changed && rows[i].isCurrent ensures b.customer != rows[i].customer {
        assert !Ends(changed, rows[i], b);
      }
    }
  }

  lemma RowsAdded(rows: seq<Version>, changed: seq<Observation>, after: seq<Version>)
    requires Merged(rows, changed, after)
    ensures forall j :: |rows| <= j < |after| ==> after[j] == VersionFrom(changed[j - |rows|], None) && changed[j - |rows|] in changed
  {
    forall j | |rows| <= j < |after| ensures after[j] == VersionFrom(changed[j - |rows|], None) {
      assert after[|rows| + (j - |rows|)] == after[j];
    }
  }

  lemma PeriodsKept(rows: seq<Version>, changed: seq<Observation>, after: seq<Version>)
    requires WellFormed(rows) && Merged(rows, changed, after) && ChangesAreLater(rows, changed)
    ensures forall i :: 0 <= i < |after| ==> PeriodAgrees(after[i])
  {
    RowsAdded(rows, changed, after);
    forall i | 0 <= i < |after| ensures PeriodAgrees(after[i]) {
      if i < |rows| {
        RowsAfter(rows, changed, after, i);
        assert PeriodAgrees(rows[i]);
      }
    }
  }

  lemma StartsKept(rows: seq<Version>, changed: seq<Observation>, after: seq<Version>)
    requires WellFormed(rows) && Merged(rows, changed, after) && ChangesAreLater(rows, changed) && DistinctCustomers(changed)
    ensures DistinctStarts(after) && CurrentIsLast(after)
  {
    forall i | 0 <= i < |rows|
      ensures after[i].customer == rows[i].customer && after[i].validFrom == rows[i].validFrom
      ensures after[i].isCurrent ==> rows[i].isCurrent && forall b :: b in changed ==> b.customer != rows[i].customer
    {
      RowsAfter(rows, changed, after, i);
    }
    RowsAdded(rows, changed, after);
    forall i, j | 0 <= i < j < |after| && after[i].customer == after[j].customer ensures after[i].validFrom != after[j].validFrom {
    }
    forall i, j | 0 <= i < |after| && 0 <= j < |after| && after[i].customer == after[j].customer && after[j].isCurrent
      ensures after[i].validFrom <= after[j].validFrom
    {
    }
  }

  lemma ChangedHasNewCurrent(rows: seq<Version>, changed: seq<Observation>, after: seq<Version>, k: nat)
    requires Merged(rows, changed, after) && DistinctCustomers(changed) && k < |changed|
    ensures OnlyCurrentAt(after, changed[k].customer, |rows| + k)
  {
    assert changed[k] in changed;
    RowsAdded(rows, changed, after);
    assert after[|rows| + k] == VersionFrom(changed[k], None);
    forall j | 0 <= j < |after| && CurrentAt(after, changed[k].customer, j) ensures j == |rows| + k {
      if j < |rows| {
        RowsAfter(rows, changed, after, j);
      }
    }
  }

  lemma UnchangedKeepsCurrent(rows: seq<Version>, changed: seq<Observation>, after: seq<Version>, c: CustomerId, j: nat)
    requires Merged(rows, changed, after) && OnlyCurrentAt(rows, c, j) && forall b :: b in changed ==> b.customer != c
    ensures OnlyCurrentAt(after, c, j) && after[j] == rows[j]
  {
    RowsAfter(rows, changed, after, j);
    RowsAdded(rows, changed, after);
    forall k | 0 <= k < |after| && CurrentAt(after, c, k) ensures k == j {
      if k < |rows| {
        RowsAfter(rows, changed, after, k);
        assert CurrentAt(rows, c, k);
      }
    }
  }

  lemma CurrentsKept(rows: seq<Version>, changed: seq<Observation>, after: seq<Version>)
    requires WellFormed(rows) && Merged(rows, changed, after) && DistinctCustomers(changed)
    ensures OneCurrentEach(after)
  {
    RowsAdded(rows, changed, after);
    forall i | 0 <= i < |after| ensures HasOneCurrent(after, after[i].customer) {
      var c := after[i].customer;
      if k :| 0 <= k < |changed| && changed[k].customer == c {
        ChangedHasNewCurrent(rows, changed, after, k);
      } else {
        assert i < |rows|;
        RowsAfter(rows, changed, after, i);
        assert HasOneCurrent(rows, rows[i].customer);
        var j :| 0 <= j < |rows| && OnlyCurrentAt(rows, c, j);
        forall b | b in changed ensures b.customer != c {
          var k :| 0 <= k < |changed| && changed[k] == b;
        }
        UnchangedKeepsCurrent(rows, changed, after, c, j);
      }
    }
  }

  /** A row before a new version is the row that the new version closes. */
  lemma LastBeforeNew(rows: seq<Version>, changed: seq<Observation>, after: seq<Version>, j: nat, k: nat)
    requires WellFormed(rows) && Merged(rows, changed, after) && ChangesAreLater(rows, changed)
    requires j < |rows| && k < |changed| && Precedes(after, j, |rows| + k)
    ensures after[j].validTo == Some(changed[k].at)
  {
    var b := changed[k];
    assert b in changed;
    RowsAfter(rows, changed, after, j);
    assert HasOneCurrent(rows, rows[j].customer);
    var o :| 0 <= o < |rows| && OnlyCurrentAt(rows, b.customer, o);
    RowsAfter(rows, changed, after, o);
    assert after[o].validFrom < b.at;
    assert rows[o].validFrom == rows[j].validFrom;
    assert Ends(changed, rows[j], b);
  }

  lemma GapsKept(rows: seq<Version>, changed: seq<Observation>, after: seq<Version>)
    requires WellFormed(rows) && Merged(rows, changed, after) && ChangesAreLater(rows, changed)
    ensures NoGaps(after)
  {
    RowsAdded(rows, changed, after);
    forall i, j | 0 <= i < |after| && 0 <= j < |after| && Precedes(after, j, i) && after[j].validTo != None
      ensures after[j].validTo.value == after[i].validFrom
    {
      if j < |rows| <= i {
        LastBeforeNew(rows, changed, after, j, i - |rows|);
      } else if i < |rows| && j < |rows| {
        OldNeighbours(rows, changed, after, j, i);
      }
    }
  }

  lemma OldNeighbours(rows: seq<Version>, changed: seq<Observation>, after: seq<Version>, j: nat, i: nat)
    requires WellFormed(rows) && Merged(rows, changed, after) && i < |rows| && j < |rows|
    requires Precedes(after, j, i) && after[j].validTo != None
    ensures after[j].validTo.value == after[i].validFrom
  {
    forall k | 0 <= k < |rows| ensures after[k].customer == rows[k].customer && after[k].validFrom == rows[k].validFrom {
      RowsAfter(rows, changed, after, k);
    }
    RowsAfter(rows, changed, after, j);
    assert Precedes(rows, j, i);
    assert !rows[j].isCurrent;
  }

  /** A forward MERGE in order keeps any well-formed table well formed. */
  lemma MergeKeepsWellFormed(rows: seq<Version>, source: seq<Observation>)
    requires WellFormed(rows) && DistinctCustomers(source) && !OutOfOrder(rows, source)
    ensures WellFormed(Forward(rows, source))
  {
    var changed, after := Changed(rows, source), Forward(rows, source);
    ForwardIsMerged(rows, source);
    InOrderIsLater(rows, source);
    PeriodsKept(rows, changed, after);
    StartsKept(rows, changed, after);
    CurrentsKept(rows, changed, after);
    GapsKept(rows, changed, after);
  }

  // ---------------------------------------------------------------- the checks after the MERGE

  /** An unchanged source customer keeps its current row, which has the source's digest. */
  lemma UnchangedIsShown(rows: seq<Version>, source: seq<Observation>, b: Observation) returns (j: nat)
    requires WellFormed(rows) && DistinctCustomers(source) && b in source && !IsChanged(rows, b)
    ensures j < |rows| && OnlyCurrentAt(rows, b.customer, j) && rows[j].digest == b.digest
    ensures forall c :: c in Changed(rows, source) ==> c.customer != b.customer
  {
    var current := CurrentOf(rows, b.customer).value;
    var i :| 0 <= i < |rows| && rows[i] == current;
    assert HasOneCurrent(rows, rows[i].customer);
    j :| 0 <= j < |rows| && OnlyCurrentAt(rows, b.customer, j);
    TheCurrentRow(rows, b.customer, j);
    forall c | c in Changed(rows, source) ensures c.customer != b.customer {
      var m :| 0 <= m < |source| && source[m] == c;
      var n :| 0 <= n < |source| && source[n] == b;
    }
  }

  /** After the MERGE each source customer has one current row, with the source's digest. */
  lemma SourceIsShown(rows: seq<Version>, source: seq<Observation>, b: Observation) returns (j: nat)
    requires WellFormed(rows) && DistinctCustomers(source) && b in source
    ensures OnlyCurrentAt(Forward(rows, source), b.customer, j) && Forward(rows, source)[j].digest == b.digest
  {
    ForwardIsMerged(rows, source);
    if IsChanged(rows, b) {
      j := ChangedIsShown(rows, Changed(rows, source), Forward(rows, source), b);
    } else {
      j := UnchangedIsShown(rows, source, b);
      UnchangedKeepsCurrent(rows, Changed(rows, source), Forward(rows, source), b.customer, j);
    }
  }

  lemma ChangedIsShown(rows: seq<Version>, changed: seq<Observation>, after: seq<Version>, b: Observation) returns (j: nat)
    requires Merged(rows, changed, after) && DistinctCustomers(changed) && b in changed
    ensures OnlyCurrentAt(after, b.customer, j) && after[j].digest == b.digest
  {
    var k :| 0 <= k < |changed| && changed[k] == b;
    ChangedHasNewCurrent(rows, changed, after, k);
    RowsAdded(rows, changed, after);
    j := |rows| + k;
  }

  lemma {:induction false} EachJoinsOnce(after: seq<Version>, source: seq<Observation>)
    requires forall b :: b in source ==> HasOneCurrent(after, b.customer)
    ensures JoinCount(source, after) == |source|
  {
    if source != [] {
      assert source[0] in source && forall b :: b in source[1..] ==> b in source;
      EachJoinsOnce(after, source[1..]);
      CountOfCurrent(after, source[0].customer);
    }
  }

  lemma ChecksPassAfter(rows: seq<Version>, source: seq<Observation>)
    requires WellFormed(rows) && DistinctCustomers(source)
    ensures JoinCount(source, Forward(rows, source)) == |source| && !CurrentMismatch(Forward(rows, source), source)
  {
    var after := Forward(rows, source);
    forall b | b in source ensures HasOneCurrent(after, b.customer) {
      var j := SourceIsShown(rows, source, b);
    }
    EachJoinsOnce(after, source);
    forall i, k | 0 <= i < |source| && 0 <= k < |after| && CurrentAt(after, source[i].customer, k) ensures source[i].digest == after[k].digest {
      var j := SourceIsShown(rows, source, source[i]);
    }
  }

  /** Forward mode, exactly: on any well-formed table it succeeds if and only if the batch is not
      empty, of one time, of unique customers and not out of order. Then the table is that of the
      MERGE, well formed again; otherwise nothing is written. */
  lemma ApplyExactly(rows: seq<Version>, source: seq<Observation>)
    requires WellFormed(rows)
    ensures var r := ApplyHistory(rows, source);
      && (r.result.Success? <==> source != [] && SameTime(source) && DistinctCustomers(source) && !OutOfOrder(rows, source))
      && (r.result.Success? ==> r.rows == Forward(rows, source))
      && (r.result.Failure? ==> r.rows == rows)
      && WellFormed(r.rows)
  {
    if DistinctCustomers(source) && !OutOfOrder(rows, source) {
      MergeKeepsWellFormed(rows, source);
      ChecksPassAfter(rows, source);
      ForwardMerges(rows, source);
    }
  }

  // ---------------------------------------------------------------- any run of the job

  datatype Operation = Apply(source: seq<Observation>) | RebuildFrom(source: seq<Observation>)

  function RunJob(rows: seq<Version>, operations: seq<Operation>): seq<Version> {
    if operations == [] then rows
    else
      var before, last := RunJob(rows, operations[..|operations| - 1]), operations[|operations| - 1];
      match last
      case Apply(source) => ApplyHistory(before, source).rows
      case RebuildFrom(source) => RebuildHistory(before, source).rows
  }

  /** Whatever is applied or rebuilt, in any order and however late, the table stays well formed and
      its periods never overlap. */
  lemma {:induction false} AnyRunKeepsWellFormed(operations: seq<Operation>)
    ensures WellFormed(RunJob([], operations)) && NoOverlap(RunJob([], operations))
  {
    if operations != [] {
      var before := RunJob([], operations[..|operations| - 1]);
      AnyRunKeepsWellFormed(operations[..|operations| - 1]);
      match operations[|operations| - 1]
      case Apply(source) => ApplyExactly(before, source);
      case RebuildFrom(source) => RebuildKeepsWellFormed(before, source);
    }
    NoOverlapExactly(RunJob([], operations));
  }

  lemma RebuildKeepsWellFormed(rows: seq<Version>, source: seq<Observation>)
    requires WellFormed(rows)
    ensures WellFormed(RebuildHistory(rows, source).rows)
  {
    RebuildExactly(rows, source);
    if !Ambiguous(source) {
      UnambiguousRows(source);
      var after := RebuildHistory(rows, source).rows;
      if Holds(after, Rows(source)) {
        HoldsIsWellFormed(after, Rows(source));
      }
    }
  }
}
