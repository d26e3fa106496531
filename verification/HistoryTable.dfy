/** The customer history table and the job that writes it, in either mode. */
module HistoryTable {
  import opened Types
  import opened Frames
  import opened HistorySpec
  import opened HistoryJob
  import opened HistoryTheorems
  import opened HistoryInvariant
  import opened LateBatches

  datatype Mode = ForwardMode(batch: BatchId) | RebuildMode

  // ---------------------------------------------------------------- what the two modes accept

  /** Silver rows that forward mode takes on a well-formed table: some, of one time, of distinct
      customers, and none that changes a current version that is not older. */
  ghost predicate Acceptable(digestOf: Attributes -> Digest, rows: seq<Version>, batch: seq<SilverRow>) {
    && batch != [] && (forall r, s :: r in batch && s in batch ==> r.at == s.at)
    && (forall i, j :: 0 <= i < j < |batch| ==> batch[i].customer != batch[j].customer)
    && (forall s, v :: s in batch && v in rows && v.isCurrent && v.customer == s.customer ==> v.digest == digestOf(s.attributes) || v.validFrom < s.at)
  }

  /** Silver rows that a rebuild takes: some, complete, and no customer twice at one time or in one
      batch. */
  ghost predicate Rebuildable(silver: seq<SilverRow>) {
    && silver != [] && (forall s :: s in silver ==> s.attributes.fullName != None && s.attributes.registeredAt != None)
    && (forall i, j :: 0 <= i < j < |silver| && silver[i].customer == silver[j].customer ==>
          silver[i].at != silver[j].at && silver[i].batch != silver[j].batch)
  }

  ghost predicate SeenBy(silver: seq<SilverRow>, c: CustomerId, t: Instant) {
    exists s :: s in silver && s.customer == c && s.at <= t
  }

  /** Silver goes back at least as far as the table, customer by customer. */
  ghost predicate ReachesBack(silver: seq<SilverRow>, rows: seq<Version>) {
    forall v :: v in rows ==> SeenBy(silver, v.customer, v.validFrom)
  }

  lemma AcceptableMeans(digestOf: Attributes -> Digest, rows: seq<Version>, batch: seq<SilverRow>)
    ensures var source := WithHistoryColumns(digestOf, batch);
      Acceptable(digestOf, rows, batch) <==> source != [] && SameTime(source) && DistinctCustomers(source) && !OutOfOrder(rows, source)
  {
    var source := WithHistoryColumns(digestOf, batch);
    assert SameTime(source) <==> forall i, j :: 0 <= i < j < |batch| ==> batch[i].at == batch[j].at;
    assert DistinctCustomers(source) <==> forall i, j :: 0 <= i < j < |batch| ==> batch[i].customer != batch[j].customer;
    OrderMeans(digestOf, rows, batch);
  }

  lemma OrderMeans(digestOf: Attributes -> Digest, rows: seq<Version>, batch: seq<SilverRow>)
    ensures !OutOfOrder(rows, WithHistoryColumns(digestOf, batch)) <==>
      forall s, v :: s in batch && v in rows && v.isCurrent && v.customer == s.customer ==> v.digest == digestOf(s.attributes) || v.validFrom < s.at
  {
    var source := WithHistoryColumns(digestOf, batch);
    if s, v :| s in batch && v in rows && v.isCurrent && v.customer == s.customer && v.digest != digestOf(s.attributes) && s.at <= v.validFrom {
      var i :| 0 <= i < |batch| && batch[i] == s;
      var j :| 0 <= j < |rows| && rows[j] == v;
      assert CurrentAt(rows, source[i].customer, j) && source[i].digest != rows[j].digest && source[i].at <= rows[j].validFrom;
    }
    if OutOfOrder(rows, source) {
      var i, j :|
        0 <= i < |source| && 0 <= j < |rows| && CurrentAt(rows, source[i].customer, j) && source[i].digest != rows[j].digest && source[i].at <= rows[j].validFrom;
      assert batch[i] in batch && rows[j] in rows;
    }
  }

  lemma RebuildableMeans(digestOf: Attributes -> Digest, silver: seq<SilverRow>)
    ensures var source := WithHistoryColumns(digestOf, silver);
      Rebuildable(silver) <==>
      source != [] && (forall o :: o in source ==> HistoryJob.Complete(o)) && !Ambiguous(source) && !RepeatsIdentity(source)
  {
    var source := WithHistoryColumns(digestOf, silver);
    assert (forall o :: o in source ==> HistoryJob.Complete(o)) <==> forall i :: 0 <= i < |silver| ==> HistoryJob.Complete(source[i]);
    assert (forall s :: s in silver ==> s.attributes.fullName != None && s.attributes.registeredAt != None) <==>
      forall i :: 0 <= i < |silver| ==> silver[i].attributes.fullName != None && silver[i].attributes.registeredAt != None;
    TwiceMeans(digestOf, silver);
  }

  lemma TwiceMeans(digestOf: Attributes -> Digest, silver: seq<SilverRow>)
    ensures var source := WithHistoryColumns(digestOf, silver);
      !Ambiguous(source) && !RepeatsIdentity(source) <==>
      forall i, j :: 0 <= i < j < |silver| && silver[i].customer == silver[j].customer ==> silver[i].at != silver[j].at && silver[i].batch != silver[j].batch
  {
    var source := WithHistoryColumns(digestOf, silver);
    assert forall i :: 0 <= i < |silver| ==> source[i].customer == silver[i].customer && source[i].at == silver[i].at && source[i].batch == silver[i].batch;
  }

  lemma ReachesBackMeans(digestOf: Attributes -> Digest, silver: seq<SilverRow>, rows: seq<Version>)
    ensures CoversTarget(WithHistoryColumns(digestOf, silver), rows) <==> ReachesBack(silver, rows)
  {
    var source := WithHistoryColumns(digestOf, silver);
    forall c, t ensures KnownBy(source, c, t) <==> SeenBy(silver, c, t) {
      if j :| 0 <= j < |source| && source[j].customer == c && source[j].at <= t {
        assert silver[j] in silver;
      }
      if s :| s in silver && s.customer == c && s.at <= t {
        var j :| 0 <= j < |silver| && silver[j] == s;
        assert source[j].customer == c;
      }
    }
    if ReachesBack(silver, rows) {
      forall i | 0 <= i < |rows| ensures KnownBy(source, rows[i].customer, rows[i].validFrom) {
        assert rows[i] in rows;
      }
    }
  }

  predicate OfBatch(s: SilverRow, batch: BatchId) {
    s.batch == batch
  }

  function Selected(silver: seq<SilverRow>, batch: BatchId): seq<SilverRow> {
    Filter(silver, (s: SilverRow) => OfBatch(s, batch))
  }

  /** The selected rows are the silver rows that name the batch, as often as silver has them. */
  lemma SelectedExactly(silver: seq<SilverRow>, batch: BatchId, s: SilverRow)
    ensures multiset(Selected(silver, batch))[s] == if s.batch == batch then multiset(silver)[s] else 0
    ensures s in Selected(silver, batch) <==> s in silver && s.batch == batch
  {
    FilterMultiplicity(silver, (r: SilverRow) => OfBatch(r, batch), s);
  }

  /** The observation that a silver row makes. */
  ghost function ObservationOf(digestOf: Attributes -> Digest, s: SilverRow): Observation {
    Observation(s.customer, s.at, s.batch, digestOf(s.attributes), s.attributes)
  }

  ghost function AllObserved(digestOf: Attributes -> Digest, silver: seq<SilverRow>): set<Observation> {
    set s | s in silver :: ObservationOf(digestOf, s)
  }

  ghost function BatchObserved(digestOf: Attributes -> Digest, silver: seq<SilverRow>, batch: BatchId): set<Observation> {
    set s | s in silver && s.batch == batch :: ObservationOf(digestOf, s)
  }

  /** Silver has the batch, at one time and with one row a customer. */
  ghost predicate HasBatch(silver: seq<SilverRow>, batch: BatchId) {
    && (exists s :: s in silver && s.batch == batch)
    && (forall i, j :: 0 <= i < j < |silver| && silver[i].batch == batch && silver[j].batch == batch ==>
          silver[i].at == silver[j].at && silver[i].customer != silver[j].customer)
  }

  /** The batch comes after what is known, or is part of it and the last word on its customers. */
  ghost predicate NextOrLast(known: set<Observation>, batch: set<Observation>) {
    || LaterBatch(known, batch)
    || (batch <= known && forall b, o :: b in batch && o in known && o.customer == b.customer ==> o.at <= b.at)
  }

  /** What the runner establishes before the job: a rebuild sees all that the table was made from,
      and in forward mode the selected batch is the one to add, or was the last one added. */
  ghost predicate InStep(digestOf: Attributes -> Digest, mode: Mode, silver: seq<SilverRow>, known: set<Observation>) {
    match mode
    case RebuildMode => known <= AllObserved(digestOf, silver) && Rebuildable(silver)
    case ForwardMode(batch) =>
      var added := BatchObserved(digestOf, silver, batch);
      Unambiguous(known) && HasBatch(silver, batch) && NextOrLast(known, added) && known + added == AllObserved(digestOf, silver)
  }

  lemma ObservedRows(digestOf: Attributes -> Digest, rows: seq<SilverRow>)
    ensures Rows(WithHistoryColumns(digestOf, rows)) == AllObserved(digestOf, rows)
  {
    var source := WithHistoryColumns(digestOf, rows);
    forall o | o in source ensures o in AllObserved(digestOf, rows) {
      var i :| 0 <= i < |source| && source[i] == o;
      assert rows[i] in rows && o == ObservationOf(digestOf, rows[i]);
    }
    forall s | s in rows ensures ObservationOf(digestOf, s) in source {
      var i :| 0 <= i < |rows| && rows[i] == s;
      assert source[i] == ObservationOf(digestOf, s);
    }
  }

  lemma ObservedBatch(digestOf: Attributes -> Digest, silver: seq<SilverRow>, batch: BatchId)
    ensures Rows(WithHistoryColumns(digestOf, Selected(silver, batch))) == BatchObserved(digestOf, silver, batch)
  {
    ObservedRows(digestOf, Selected(silver, batch));
    forall s ensures s in Selected(silver, batch) <==> s in silver && s.batch == batch {
      SelectedExactly(silver, batch, s);
    }
  }

  lemma {:induction false} SelectedAreDistinct(silver: seq<SilverRow>, batch: BatchId)
    requires forall i, j :: 0 <= i < j < |silver| && silver[i].batch == batch && silver[j].batch == batch ==>
      silver[i].at == silver[j].at && silver[i].customer != silver[j].customer
    ensures var rows := Selected(silver, batch);
      forall i, j :: 0 <= i < j < |rows| ==> rows[i].at == rows[j].at && rows[i].customer != rows[j].customer
  {
    if silver != [] {
      SelectedAreDistinct(silver[1..], batch);
      var rest := Selected(silver[1..], batch);
      forall k | 0 <= k < |rest| && silver[0].batch == batch ensures silver[0].at == rest[k].at && silver[0].customer != rest[k].customer {
        assert rest[k] in rest;
        SelectedExactly(silver[1..], batch, rest[k]);
        var i :| 0 <= i < |silver[1..]| && silver[1..][i] == rest[k];
        assert silver[i + 1] == rest[k];
      }
    }
  }

  /** In forward mode the source of a batch that silver has is not empty, of one time, and of distinct
      customers. */
  lemma SourceOfBatch(digestOf: Attributes -> Digest, silver: seq<SilverRow>, batch: BatchId)
    requires HasBatch(silver, batch)
    ensures var source := WithHistoryColumns(digestOf, Selected(silver, batch)); source != [] && SameTime(source) && DistinctCustomers(source)
  {
    var s :| s in silver && s.batch == batch;
    SelectedExactly(silver, batch, s);
    SelectedAreDistinct(silver, batch);
  }

  lemma InStepHolds(digestOf: Attributes -> Digest, rows: seq<Version>, silver: seq<SilverRow>, batch: BatchId, known: set<Observation>)
    requires Holds(rows, known) && InStep(digestOf, ForwardMode(batch), silver, known)
    ensures var r := ApplyHistory(rows, WithHistoryColumns(digestOf, Selected(silver, batch)));
      r.result.Success? && Holds(r.rows, AllObserved(digestOf, silver))
  {
    SourceOfBatch(digestOf, silver, batch);
    ObservedBatch(digestOf, silver, batch);
    NextOrLastHolds(rows, known, WithHistoryColumns(digestOf, Selected(silver, batch)));
  }

  /** A version that begins with a silver row of the batch, open and current. */
  ghost predicate BeginsWith(digestOf: Attributes -> Digest, v: Version, s: SilverRow, batch: BatchId) {
    && s.batch == batch == v.batch && v.customer == s.customer && v.validFrom == s.at && v.validTo == None && v.isCurrent
    && v.attributes == s.attributes && v.digest == digestOf(s.attributes)
  }

  ghost predicate FromBatch(digestOf: Attributes -> Digest, silver: seq<SilverRow>, batch: BatchId, v: Version) {
    exists s :: s in silver && BeginsWith(digestOf, v, s, batch)
  }

  /** A row before and after: unchanged, or current before and closed after. */
  ghost predicate KeptOrClosed(before: Version, after: Version) {
    after == before || (before.isCurrent && !after.isCurrent && after == before.(validTo := after.validTo, isCurrent := false))
  }

  /** What a forward run may have done: kept or closed old rows, and appended versions of the batch. */
  ghost predicate AppendsBatch(digestOf: Attributes -> Digest, silver: seq<SilverRow>, batch: BatchId, before: seq<Version>, after: seq<Version>) {
    && |before| <= |after|
    && (forall i :: 0 <= i < |before| ==> KeptOrClosed(before[i], after[i]))
    && (forall i :: |before| <= i < |after| ==> FromBatch(digestOf, silver, batch, after[i]))
  }

  lemma MergedAppends(digestOf: Attributes -> Digest, silver: seq<SilverRow>, batch: BatchId, rows: seq<Version>, after: seq<Version>)
    requires Merged(rows, Changed(rows, WithHistoryColumns(digestOf, Selected(silver, batch))), after)
    ensures AppendsBatch(digestOf, silver, batch, rows, after)
  {
    var selected := Selected(silver, batch);
    var source := WithHistoryColumns(digestOf, selected);
    var changed := Changed(rows, source);
    RowsAdded(rows, changed, after);
    forall i | 0 <= i < |rows| ensures KeptOrClosed(rows[i], after[i]) {
      RowsAfter(rows, changed, after, i);
    }
    forall i | |rows| <= i < |after| ensures FromBatch(digestOf, silver, batch, after[i]) {
      var k :| 0 <= k < |source| && source[k] == changed[i - |rows|];
      SelectedExactly(silver, batch, selected[k]);
      assert BeginsWith(digestOf, after[i], selected[k], batch);
    }
  }

  lemma NextOrLastHolds(rows: seq<Version>, known: set<Observation>, source: seq<Observation>)
    requires Unambiguous(known) && Holds(rows, known) && NextOrLast(known, Rows(source))
    requires source != [] && SameTime(source) && DistinctCustomers(source)
    ensures ApplyHistory(rows, source).result.Success? && Holds(ApplyHistory(rows, source).rows, known + Rows(source))
  {
    if LaterBatch(known, Rows(source)) {
      ApplySucceeds(rows, known, source);
    } else {
      ApplyReplays(rows, known, source);
      assert known + Rows(source) == known;
    }
  }

  // ---------------------------------------------------------------- the table

  class CustomerHistory {
    var rows: seq<Version>
    const digestOf: Attributes -> Digest

    constructor (digestOf: Attributes -> Digest)
      ensures this.digestOf == digestOf && WellFormed(rows) && Holds(rows, {})
    {
      this.digestOf := digestOf;
      rows := [];
    }

    /** Forward mode: one selected silver batch, on a table that is the history of `known`. */
    method ApplyBatch(batch: seq<SilverRow>, ghost known: set<Observation>) returns (result: Result<ForwardReport, HistoryError>)
      modifies this`rows
      ensures Outcome(rows, result) == ApplyHistory(old(rows), WithHistoryColumns(digestOf, batch))
      ensures !ValidTarget(old(rows)) ==> result.Failure? && rows == old(rows)
      ensures WellFormed(old(rows)) ==> WellFormed(rows) && (result.Success? <==> Acceptable(digestOf, old(rows), batch))
      ensures WellFormed(old(rows)) && result.Failure? ==> rows == old(rows)
      ensures WellFormed(old(rows)) && result.Success? ==> Merged(old(rows), Changed(old(rows), WithHistoryColumns(digestOf, batch)), rows)
      ensures result.Success? ==>
        && result.value.sourceRows == |batch| && result.value.changedRows == |rows| - |old(rows)|
        && result.value.rowsBefore == |old(rows)| && result.value.rowsAfter == |rows|
      ensures var source := WithHistoryColumns(digestOf, batch);
        Holds(old(rows), known) && Unambiguous(known) && Unambiguous(known + Rows(source)) && result.Success? ==>
        (Holds(rows, known + Rows(source)) <==> AllFit(old(rows), known, source))
    {
      var source := WithHistoryColumns(digestOf, batch);
      ghost var before := rows;
      AcceptableMeans(digestOf, before, batch);
      ApplyMeans(before, source, known);
      if source == [] { return Failure(EmptyBatch); }
      if !SameTime(source) { return Failure(ManyEffectiveTimes); }
      if !DistinctCustomers(source) { return Failure(DuplicateCustomers); }
      if !ValidTarget(rows) { return Failure(BrokenTarget); }
      if OutOfOrder(rows, source) { return Failure(NotNewer); }
      var changed := Changed(rows, source);
      var rowsBefore := |rows|;
      if changed != [] {
        var merged := Merge(rows, MergeSource(rows, changed));
        if merged.Failure? { return Failure(merged.error); }
        rows := merged.value;
      }
      if !ValidTarget(rows) { return Failure(BrokenTarget); }
      if |rows| - rowsBefore != |changed| || JoinCount(source, rows) != |source| || CurrentMismatch(rows, source) {
        return Failure(PostCondition);
      }
      result := Success(ForwardReport(|source|, |changed|, rowsBefore, |rows|));
    }

    /** Rebuild mode: the complete silver history replaces whatever the table held. */
    method Rebuild(silver: seq<SilverRow>) returns (result: Result<RebuildReport, HistoryError>)
      modifies this`rows
      ensures Outcome(rows, result) == RebuildHistory(old(rows), WithHistoryColumns(digestOf, silver))
      ensures var source := WithHistoryColumns(digestOf, silver);
        && (result.Success? <==> Rebuildable(silver) && ReachesBack(silver, old(rows)))
        && (result.Success? ==> Holds(rows, Rows(source)) && (result.value.action == Replay <==> Holds(old(rows), Rows(source))))
      ensures result.Failure? || result.value.action == Replay ==> rows == old(rows)
      ensures result.Success? ==> result.value.sourceRows == |silver| && result.value.historyRows == |rows|
      ensures WellFormed(old(rows)) ==> WellFormed(rows)
    {
      var source := WithHistoryColumns(digestOf, silver);
      ghost var before := rows;
      RebuildableMeans(digestOf, silver);
      ReachesBackMeans(digestOf, silver, before);
      RebuildMeans(before, source);
      if source == [] { return Failure(EmptySource); }
      if exists i | 0 <= i < |source| :: !Complete(source[i]) { return Failure(MissingValues); }
      if Ambiguous(source) { return Failure(AmbiguousTimes); }
      if RepeatsIdentity(source) { return Failure(DuplicateIdentities); }
      if !CoversTarget(source, rows) { return Failure(SourceTooShort); }
      var history := RebuiltRows(source);
      var action := Replay;
      if multiset(history) != multiset(rows) {
        rows := history;
        action := Replace;
      }
      if !ValidTarget(rows) { return Failure(BrokenTarget); }
      if multiset(history) != multiset(rows) { return Failure(PostCondition); }
      result := Success(RebuildReport(action, |source|, |history|));
    }

    /** The job: in step with the silver table, either mode leaves the history of all of it. */
    method Run(mode: Mode, silver: seq<SilverRow>, ghost known: set<Observation>) returns (ok: bool)
      modifies this`rows
      ensures Holds(old(rows), known) && InStep(digestOf, mode, silver, known) ==>
        ok && Holds(rows, AllObserved(digestOf, silver))
      ensures WellFormed(old(rows)) ==> WellFormed(rows) && (!ok ==> rows == old(rows))
      ensures mode.ForwardMode? && WellFormed(old(rows)) && ok ==> AppendsBatch(digestOf, silver, mode.batch, old(rows), rows)
      ensures mode.ForwardMode? && ok ==> exists s :: s in silver && s.batch == mode.batch
    {
      ghost var all := WithHistoryColumns(digestOf, silver);
      ObservedRows(digestOf, silver);
      match mode {
        case RebuildMode =>
          if Holds(rows, known) && InStep(digestOf, mode, silver, known) {
            CoverageNeverRejects(rows, known, all);
            ReachesBackMeans(digestOf, silver, rows);
          }
          var result := Rebuild(silver);
          ok := result.Success?;
        case ForwardMode(batch) =>
          if Holds(rows, known) && InStep(digestOf, mode, silver, known) {
            InStepHolds(digestOf, rows, silver, batch, known);
          }
          ghost var before := rows;
          var selected := Selected(silver, batch);
          var result := ApplyBatch(selected, known);
          ok := result.Success?;
          if ok {
            SelectedIsThere(silver, batch);
            if WellFormed(before) {
              MergedAppends(digestOf, silver, batch, before, rows);
            }
          }
      }
    }
  }

  lemma SelectedIsThere(silver: seq<SilverRow>, batch: BatchId)
    requires Selected(silver, batch) != []
    ensures exists s :: s in silver && s.batch == batch
  {
    var s := Selected(silver, batch)[0];
    assert s in Selected(silver, batch);
    SelectedExactly(silver, batch, s);
  }

  predicate Taken(rows: seq<Version>, source: seq<Observation>) {
    source != [] && SameTime(source) && DistinctCustomers(source) && !OutOfOrder(rows, source)
  }

  predicate TakenWhole(source: seq<Observation>) {
    source != [] && (forall o | o in source :: HistoryJob.Complete(o)) && !Ambiguous(source) && !RepeatsIdentity(source)
  }

  lemma ApplyMeans(rows: seq<Version>, source: seq<Observation>, known: set<Observation>)
    ensures var r := ApplyHistory(rows, source);
      && (WellFormed(rows) ==> WellFormed(r.rows) && (r.result.Success? <==> Taken(rows, source)))
      && (WellFormed(rows) && r.result.Success? ==> Merged(rows, Changed(rows, source), r.rows))
      && (WellFormed(rows) && r.result.Failure? ==> r.rows == rows)
      && (Holds(rows, known) && Unambiguous(known) && Unambiguous(known + Rows(source)) && r.result.Success? ==>
        (Holds(r.rows, known + Rows(source)) <==> AllFit(rows, known, source)))
  {
    if WellFormed(rows) {
      ApplyExactly(rows, source);
      if Taken(rows, source) {
        ForwardIsMerged(rows, source);
      }
    }
    if Holds(rows, known) && Unambiguous(known) && Unambiguous(known + Rows(source)) {
      HoldsIsWellFormed(rows, known);
      if Taken(rows, source) {
        LateBatchExactly(rows, known, source);
      }
    }
  }

  lemma RebuildMeans(rows: seq<Version>, source: seq<Observation>)
    ensures var r := RebuildHistory(rows, source);
      && (r.result.Success? <==> TakenWhole(source) && CoversTarget(source, rows))
      && (r.result.Success? ==> Holds(r.rows, Rows(source)) && (r.result.value.action == Replay <==> Holds(rows, Rows(source))))
      && (WellFormed(rows) ==> WellFormed(r.rows))
  {
    RebuildExactly(rows, source);
    if WellFormed(rows) {
      RebuildKeepsWellFormed(rows, source);
    }
  }
}
